/** What every operation of the waiting room keeps, and so what holds in every
    reachable room. */
module RoomInvariants {
  import opened WaitingRoom
  import opened Sets
  import opened Promotion

  /** Sessions and memberships agree.  The keys may lapse between operations, so
      only live sessions imply membership. */
  ghost predicate Agreement(s: Room, now: Time) {
    && (forall u :: Live(s.activeTill, u, now) ==> u in s.active)
    && (forall u :: Live(s.queueTill, u, now) ==> u in s.queue)
    && s.active !! s.queue.Keys
  }

  ghost predicate AllSeatedLive(s: Room, now: Time) {
    forall u :: u in s.active ==> Live(s.activeTill, u, now)
  }

  /** Never too many seats taken, and no seat idle while anybody waits. */
  ghost predicate Packed(s: Room, limit: int) {
    && |s.active| <= limit
    && (s.queue != map[] ==> |s.active| == limit)
  }

  function Max(a: int, b: int): int { if a < b then b else a }

  lemma AgreementLasts(s: Room, now: Time, later: Time)
    requires Agreement(s, now) && now <= later
    ensures Agreement(s, later)
  {
    forall u | Live(s.activeTill, u, later) ensures u in s.active { assert Live(s.activeTill, u, now); }
    forall u | Live(s.queueTill, u, later) ensures u in s.queue { assert Live(s.queueTill, u, now); }
  }

  // ---------- the pieces ----------

  /** What a drain may do to one user, without the counting. */
  lemma DrainPointwise(s: Room, limit: int, now: Time, ttl: Ttl, u: User)
    requires s.active !! s.queue.Keys && ttl.Valid()
    ensures var s1 := Drain(s, limit, now, ttl); var p := Promoted(s, limit, now);
            && (u in p ==> u in s.queue && Live(s.queueTill, u, now) && u !in s1.queue)
            && (u in s1.active <==> u in s.active || u in p)
            && (u in s1.queue ==> u in s.queue && s1.queue[u] == s.queue[u])
            && (u in s.queue && Live(s.queueTill, u, now) && u !in p ==> u in s1.queue)
            && (Live(s1.queueTill, u, now) <==> Live(s.queueTill, u, now) && u !in p)
            && (Live(s1.activeTill, u, now) <==> Live(s.activeTill, u, now) || u in p)
            && (u in s1.queueTill ==> u in s.queueTill && s1.queueTill[u] == s.queueTill[u])
  {
  }

  lemma DrainKeeps(s: Room, limit: int, now: Time, ttl: Ttl)
    requires Agreement(s, now) && ttl.Valid()
    ensures Agreement(Drain(s, limit, now, ttl), now)
    ensures AllSeatedLive(s, now) ==> AllSeatedLive(Drain(s, limit, now, ttl), now)
  {
    hide Drain, Promoted;
    var s1 := Drain(s, limit, now, ttl);
    forall u
      ensures Live(s1.activeTill, u, now) ==> u in s1.active
      ensures Live(s1.queueTill, u, now) ==> u in s1.queue
      ensures AllSeatedLive(s, now) && u in s1.active ==> Live(s1.activeTill, u, now)
    {
      DrainPointwise(s, limit, now, ttl, u);
    }
    DrainFillsUp(s, limit, now, ttl);
  }

  lemma DropStaleKeeps(s: Room, now: Time)
    requires Agreement(s, now)
    ensures Agreement(DropStale(s, now), now) && AllSeatedLive(DropStale(s, now), now)
    ensures |DropStale(s, now).active| <= |s.active|
  {
    SubsetSize(DropStale(s, now).active, s.active);
  }

  lemma PruneKeeps(s: Room, limit: int, now: Time, ttl: Ttl)
    requires Agreement(s, now) && ttl.Valid()
    ensures var s1 := Prune(s, limit, now, ttl);
            && Agreement(s1, now) && AllSeatedLive(s1, now)
            && |s1.active| <= Max(|s.active|, limit)
            && (s1.queue != map[] ==> |s1.active| >= limit)
  {
    hide Drain;
    DropStaleKeeps(s, now);
    DrainKeeps(DropStale(s, now), limit, now, ttl);
    DrainFillsUp(DropStale(s, now), limit, now, ttl);
  }

  /** The branches that delete a session key without membership are never taken. */
  lemma NoGhostKey(s: Room, u: User, now: Time)
    requires Agreement(s, now)
    ensures CheckSlot(s, u, now) == (s, Live(s.activeTill, u, now))
    ensures !(Live(s.activeTill, u, now) && Live(s.queueTill, u, now))
  {
  }

  /** No barging: a join is seated as new only in a room where nobody waits. */
  lemma JoinScriptKeeps(s: Room, u: User, limit: int, now: Time, ttl: Ttl)
    requires Agreement(s, now) && AllSeatedLive(s, now) && ttl.Valid()
    requires s.queue != map[] ==> |s.active| >= limit
    ensures var (s1, tag) := JoinScript(s, u, limit, now, ttl);
            && Agreement(s1, now)
            && |s1.active| <= Max(|s.active|, limit)
            && (s1.queue != map[] ==> |s1.active| >= limit)
            && (tag == ActiveNew ==> s.queue == map[])
            && (tag == Queued ==> Live(s1.queueTill, u, now) && u in s1.queue && !Live(s1.activeTill, u, now))
  {
    var (s1, tag) := JoinScript(s, u, limit, now, ttl);
    if tag == ActiveNew {
      assert s.queue == map[];
    }
  }

  /** If the session of a seated user lapses after the prune and before the script of
      its own join, and the room is full, the user is seated and queued at once. */
  lemma LapseInsideJoinBreaksAgreement(s: Room, u: User, limit: int, later: Time, ttl: Ttl)
    requires u in s.active && !Live(s.activeTill, u, later) && |s.active| >= limit
    ensures var s1 := JoinScript(s, u, limit, later, ttl).0;
            u in s1.active && u in s1.queue && !Agreement(s1, later)
  {
    var s1 := JoinScript(s, u, limit, later, ttl).0;
    assert u in s1.active && u in s1.queue.Keys;
  }

  /** Exactly when time passing inside a join matters: a script run later than the
      keys it finds keeps the agreement unless the joining user is seated, its
      session has lapsed meanwhile, and the room is full. */
  lemma LapseInsideJoinExactly(s: Room, u: User, limit: int, now: Time, later: Time, ttl: Ttl)
    requires Agreement(s, now) && now <= later && ttl.Valid()
    ensures Agreement(JoinScript(s, u, limit, later, ttl).0, later) <==>
            !(u in s.active && !Live(s.activeTill, u, later) && |s.active| >= limit)
  {
    AgreementLasts(s, now, later);
    if u in s.active && !Live(s.activeTill, u, later) && |s.active| >= limit {
      LapseInsideJoinBreaksAgreement(s, u, limit, later, ttl);
    }
  }

  lemma PositionKeeps(s: Room, u: User, now: Time)
    requires Agreement(s, now)
    ensures var (s1, r) := PositionAndSize(s, u, now);
            && Agreement(s1, now) && s1.active == s.active && s1.queue.Keys <= s.queue.Keys
            && (Live(s.queueTill, u, now) ==> s1 == s)
  {
  }

  lemma JoinKeeps(s: Room, u: User, limit: int, now: Time, ttl: Ttl)
    requires Agreement(s, now) && ttl.Valid()
    ensures var s1 := Join(s, u, limit, now, ttl).0;
            && Agreement(s1, now) && |s1.active| <= Max(|s.active|, limit)
            && (s1.queue != map[] ==> |s1.active| >= limit)
  {
    hide Prune, JoinScript, PositionAndSize;
    PruneKeeps(s, limit, now, ttl);
    var p := Prune(s, limit, now, ttl);
    JoinScriptKeeps(p, u, limit, now, ttl);
    PositionKeeps(JoinScript(p, u, limit, now, ttl).0, u, now);
  }

  lemma HeartbeatKeeps(s: Room, u: User, limit: int, now: Time, ttl: Ttl)
    requires Agreement(s, now) && ttl.Valid()
    ensures var s1 := Heartbeat(s, u, limit, now, ttl).0;
            && Agreement(s1, now) && |s1.active| <= Max(|s.active|, limit)
            && (s1.queue != map[] ==> |s1.active| >= limit || (|s1.active| == |s.active| && s.queue != map[]))
  {
    hide Drain, PositionAndSize, CheckSlot;
    NoGhostKey(s, u, now);
    if !Live(s.activeTill, u, now) && Live(s.queueTill, u, now) {
      var s1 := s.(queueTill := s.queueTill[u := now + ttl.refresh]);
      assert Agreement(s1, now);
      DrainKeeps(s1, limit, now, ttl);
      DrainFillsUp(s1, limit, now, ttl);
      PositionKeeps(Drain(s1, limit, now, ttl), u, now);
    }
  }

  lemma LeaveKeeps(s: Room, u: User, limit: int, now: Time, ttl: Ttl)
    requires Agreement(s, now) && ttl.Valid()
    ensures var s1 := Leave(s, u, limit, now, ttl);
            && Agreement(s1, now) && |s1.active| <= Max(|s.active|, limit)
            && (s1.queue != map[] ==> |s1.active| >= limit)
  {
    hide Drain;
    var r := Remove(s, u);
    assert Agreement(r, now);
    SubsetSize(r.active, s.active);
    DrainKeeps(r, limit, now, ttl);
    DrainFillsUp(r, limit, now, ttl);
  }

  /** The second drain in Status finds nothing to do, and neither does the slot
      test before it. */
  lemma StatusDrainsOnce(s: Room, u: User, limit: int, now: Time, ttl: Ttl)
    requires Agreement(s, now) && ttl.Valid()
    ensures var p := Prune(s, limit, now, ttl);
            && CheckSlot(p, u, now) == (p, Live(p.activeTill, u, now))
            && Drain(p, limit, now, ttl) == p
            && Status(s, u, limit, now, ttl) == PositionAndSize(p, u, now)
  {
    hide Drain;
    PruneKeeps(s, limit, now, ttl);
    DropStaleKeeps(s, now);
    DrainTwice(DropStale(s, now), limit, now, ttl);
    NoGhostKey(Prune(s, limit, now, ttl), u, now);
  }

  lemma StatusKeeps(s: Room, u: User, limit: int, now: Time, ttl: Ttl)
    requires Agreement(s, now) && ttl.Valid()
    ensures var s1 := Status(s, u, limit, now, ttl).0;
            && Agreement(s1, now) && |s1.active| <= Max(|s.active|, limit)
            && (s1.queue != map[] ==> |s1.active| >= limit)
  {
    hide Status, Drain, Prune, PositionAndSize;
    StatusDrainsOnce(s, u, limit, now, ttl);
    PruneKeeps(s, limit, now, ttl);
    PositionKeeps(Prune(s, limit, now, ttl), u, now);
  }

  // ---------- every step, every run ----------

  /** Every operation keeps the agreement, admits no more than the limit it was
      given, and under a constant limit leaves the room packed. */
  lemma StepKeeps(s: Room, e: Event, ttl: Ttl)
    requires Agreement(s, e.now) && ttl.Valid()
    ensures var s1, limit := Step(s, e, ttl).0, if e.maxActive < 1 then 1 else e.maxActive;
            && Agreement(s1, e.now)
            && |s1.active| <= Max(|s.active|, limit)
            && (Packed(s, limit) ==> Packed(s1, limit))
  {
    hide Join, Heartbeat, Leave, Status, CheckSlot;
    var limit := SlotLimit(e.maxActive);
    match e.call
    case JoinCall => JoinKeeps(s, e.user, limit, e.now, ttl);
    case HeartbeatCall => HeartbeatKeeps(s, e.user, limit, e.now, ttl);
    case LeaveCall => LeaveKeeps(s, e.user, limit, e.now, ttl);
    case StatusCall => StatusKeeps(s, e.user, limit, e.now, ttl);
    case SlotCall => NoGhostKey(s, e.user, e.now);
  }

  lemma {:induction false} RunAppend(s: Room, es: seq<Event>, e: Event, ttl: Ttl)
    ensures Run(s, es + [e], ttl) == Step(Run(s, es, ttl), e, ttl).0
    decreases |es|
  {
    hide Step;
    if es == [] {
      assert es + [e] == [e] && [e][1..] == [];
      assert Run(s, [e], ttl) == Run(Step(s, e, ttl).0, [], ttl);
    } else {
      assert (es + [e])[1..] == es[1..] + [e];
      RunAppend(Step(s, es[0], ttl).0, es[1..], e, ttl);
    }
  }

  lemma {:induction false} RunAgrees(s: Room, start: Time, es: seq<Event>, ttl: Ttl)
    requires Agreement(s, start) && Timed(start, es) && ttl.Valid()
    ensures Agreement(Run(s, es, ttl), EndTime(start, es))
    decreases |es|
  {
    hide Step, Agreement;
    if es != [] {
      AgreementLasts(s, start, es[0].now);
      StepKeeps(s, es[0], ttl);
      RunAgrees(Step(s, es[0], ttl).0, es[0].now, es[1..], ttl);
    }
  }

  lemma {:induction false} RunPacked(s: Room, start: Time, es: seq<Event>, limit: int, ttl: Ttl)
    requires Agreement(s, start) && Timed(start, es) && ttl.Valid()
    requires Packed(s, limit) && ConstantLimit(es, limit)
    ensures Packed(Run(s, es, ttl), limit)
    decreases |es|
  {
    hide Step, Agreement, Packed, SlotLimit;
    if es != [] {
      AgreementLasts(s, start, es[0].now);
      StepKeeps(s, es[0], ttl);
      RunPacked(Step(s, es[0], ttl).0, es[0].now, es[1..], limit, ttl);
    }
  }

  /** Session/membership agreement in every room reachable from the empty one. */
  lemma ReachableAgrees(start: Time, es: seq<Event>, ttl: Ttl, u: User, later: Time)
    requires Timed(start, es) && ttl.Valid() && EndTime(start, es) <= later
    ensures var s := Run(EMPTY, es, ttl);
            && (Live(s.activeTill, u, later) ==> u in s.active)
            && (Live(s.queueTill, u, later) ==> u in s.queue)
            && !(u in s.active && u in s.queue)
            && !(Live(s.activeTill, u, later) && Live(s.queueTill, u, later))
  {
    RunAgrees(EMPTY, start, es, ttl);
    AgreementLasts(Run(EMPTY, es, ttl), EndTime(start, es), later);
  }

  /** Capacity and work conservation in every room reachable under one limit. */
  lemma ReachablePacked(start: Time, es: seq<Event>, limit: int, ttl: Ttl)
    requires Timed(start, es) && ttl.Valid() && ConstantLimit(es, limit) && 1 <= limit
    ensures var s := Run(EMPTY, es, ttl);
            |s.active| <= limit && (|s.queue| > 0 ==> |s.active| == limit)
  {
    RunPacked(EMPTY, start, es, limit, ttl);
  }
}
