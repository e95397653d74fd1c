/** Order of admission: who may pass whom, and how long a waiter can wait. */
module RoomFairness {
  import opened WaitingRoom
  import opened Sets
  import opened Promotion
  import opened RoomInvariants

  ghost predicate Waiting(s: Room, a: User, now: Time) {
    a in s.queue && Live(s.queueTill, a, now)
  }

  /** The enqueue made by `e`, if it makes one, sorts in front of the entry of `a`. */
  ghost predicate Overtakes(e: Event, s: Room, a: User)
    requires a in s.queue
  {
    e.call == JoinCall && (e.now < s.queue[a] || (e.now == s.queue[a] && e.user < a))
  }

  // ---------- one step ----------

  lemma DrainWaiter(s: Room, limit: int, now: Time, ttl: Ttl, a: User)
    requires s.active !! s.queue.Keys && ttl.Valid() && Waiting(s, a, now)
    ensures var s1 := Drain(s, limit, now, ttl);
            && (a in s1.queue || a in s1.active)
            && (a in s1.queue ==>
                 Waiting(s1, a, now) && s1.queue[a] == s.queue[a] && s1.active <= s.active + Ahead(s, a))
  {
    var s1 := Drain(s, limit, now, ttl);
    PromotesFirstLive(s, limit, now, ttl);
    DrainPointwise(s, limit, now, ttl, a);
    if a in s1.queue {
      forall u | u in s1.active ensures u in s.active + Ahead(s, a) {
        if u !in s.active { assert Before(s.queue, u, a); }
      }
    }
  }

  lemma DropStaleWaiter(s: Room, now: Time, a: User)
    requires Waiting(s, a, now)
    ensures var s1 := DropStale(s, now);
            && Waiting(s1, a, now) && s1.queue[a] == s.queue[a]
            && s1.active <= s.active && Ahead(s1, a) <= Ahead(s, a)
  {
  }

  lemma PruneWaiter(s: Room, limit: int, now: Time, ttl: Ttl, a: User)
    requires Agreement(s, now) && ttl.Valid() && Waiting(s, a, now)
    ensures var s1 := Prune(s, limit, now, ttl);
            && (a in s1.queue || a in s1.active)
            && (a in s1.queue ==>
                 Waiting(s1, a, now) && s1.queue[a] == s.queue[a] && s1.active <= s.active + Ahead(s, a))
  {
    hide Drain, Ahead;
    DropStaleKeeps(s, now);
    DropStaleWaiter(s, now, a);
    DrainWaiter(DropStale(s, now), limit, now, ttl, a);
  }

  /** Unless it leaves, a waiter with a live session is never lost: it keeps its
      score, even if it joins again, or it has been seated; and as long as it
      waits only users who were in front of it are seated. */
  ghost predicate Fair(s: Room, s1: Room, a: User)
    requires a in s.queue
  {
    && (a in s1.queue || a in s1.active)
    && (a in s1.queue ==> s1.queue[a] == s.queue[a] && s1.active <= s.active + Ahead(s, a))
  }

  lemma JoinWaiter(s: Room, u: User, limit: int, now: Time, ttl: Ttl, a: User)
    requires Agreement(s, now) && ttl.Valid() && Waiting(s, a, now)
    ensures Fair(s, Join(s, u, limit, now, ttl).0, a)
  {
    hide Prune, Ahead;
    PruneKeeps(s, limit, now, ttl);
    PruneWaiter(s, limit, now, ttl, a);
    var p := Prune(s, limit, now, ttl);
    JoinScriptKeeps(p, u, limit, now, ttl);
    PositionKeeps(JoinScript(p, u, limit, now, ttl).0, u, now);
  }

  /** No barging: when a join takes a new seat, everybody who was waiting with a
      live session has been seated before it, and the queue is empty. */
  lemma NoBarging(s: Room, u: User, limit: int, now: Time, ttl: Ttl)
    requires Agreement(s, now) && ttl.Valid()
    requires JoinScript(Prune(s, limit, now, ttl), u, limit, now, ttl).1 == ActiveNew
    ensures Prune(s, limit, now, ttl).queue == map[]
    ensures forall v :: Waiting(s, v, now) ==> v in Prune(s, limit, now, ttl).active
  {
    hide Prune;
    PruneKeeps(s, limit, now, ttl);
    JoinScriptKeeps(Prune(s, limit, now, ttl), u, limit, now, ttl);
    forall v | Waiting(s, v, now) ensures v in Prune(s, limit, now, ttl).active {
      PruneWaiter(s, limit, now, ttl, v);
    }
  }

  lemma HeartbeatWaiter(s: Room, u: User, limit: int, now: Time, ttl: Ttl, a: User)
    requires Agreement(s, now) && ttl.Valid() && Waiting(s, a, now)
    ensures Fair(s, Heartbeat(s, u, limit, now, ttl).0, a)
  {
    hide Drain, CheckSlot, PositionAndSize;
    NoGhostKey(s, u, now);
    if !Live(s.activeTill, u, now) && Live(s.queueTill, u, now) {
      var s1 := s.(queueTill := s.queueTill[u := now + ttl.refresh]);
      DrainKeeps(s1, limit, now, ttl);
      DrainWaiter(s1, limit, now, ttl, a);
      PositionWaiter(Drain(s1, limit, now, ttl), u, now, a);
    }
  }

  lemma PositionWaiter(s: Room, u: User, now: Time, a: User)
    requires Agreement(s, now) && (Waiting(s, a, now) || a in s.active)
    ensures var s1 := PositionAndSize(s, u, now).0;
            && s1.active == s.active && s1.queue.Keys <= s.queue.Keys
            && (a in s.queue ==> a in s1.queue && s1.queue[a] == s.queue[a])
  {
  }

  lemma LeaveWaiter(s: Room, u: User, limit: int, now: Time, ttl: Ttl, a: User)
    requires Agreement(s, now) && ttl.Valid() && Waiting(s, a, now) && u != a
    ensures Fair(s, Leave(s, u, limit, now, ttl), a)
  {
    hide Drain;
    DrainWaiter(Remove(s, u), limit, now, ttl, a);
  }

  lemma StatusWaiter(s: Room, u: User, limit: int, now: Time, ttl: Ttl, a: User)
    requires Agreement(s, now) && ttl.Valid() && Waiting(s, a, now)
    ensures Fair(s, Status(s, u, limit, now, ttl).0, a)
  {
    hide Status, Drain, Prune, PositionAndSize, Ahead;
    StatusDrainsOnce(s, u, limit, now, ttl);
    PruneKeeps(s, limit, now, ttl);
    PruneWaiter(s, limit, now, ttl, a);
    PositionWaiter(Prune(s, limit, now, ttl), u, now, a);
  }

  lemma StepFair(s: Room, e: Event, ttl: Ttl, a: User)
    requires Agreement(s, e.now) && ttl.Valid() && Waiting(s, a, e.now)
    requires !(e.call == LeaveCall && e.user == a)
    ensures Fair(s, Step(s, e, ttl).0, a)
  {
    hide Join, Heartbeat, Leave, Status, CheckSlot, Ahead;
    var limit := SlotLimit(e.maxActive);
    match e.call
    case JoinCall => JoinWaiter(s, e.user, limit, e.now, ttl, a);
    case HeartbeatCall => HeartbeatWaiter(s, e.user, limit, e.now, ttl, a);
    case LeaveCall => LeaveWaiter(s, e.user, limit, e.now, ttl, a);
    case StatusCall => StatusWaiter(s, e.user, limit, e.now, ttl, a);
    case SlotCall => NoGhostKey(s, e.user, e.now);
  }

  /** The queue only loses entries, except for the one a join may add. */
  lemma StepQueue(s: Room, e: Event, ttl: Ttl, v: User)
    ensures var q := Step(s, e, ttl).0.queue;
            v in q ==> (v in s.queue && q[v] == s.queue[v]) || (e.call == JoinCall && v == e.user && q[v] == e.now)
  {
    hide Drain, JoinScript, PositionAndSize, CheckSlot;
    var limit, u, now := SlotLimit(e.maxActive), e.user, e.now;
    CheckSlotQueue(s, u, now);
    DrainQueue(DropStale(s, now), limit, now, ttl, v);
    var p := Prune(s, limit, now, ttl);
    match e.call
    case JoinCall =>
      ScriptQueue(p, u, limit, now, ttl, v);
      PositionQueue(JoinScript(p, u, limit, now, ttl).0, u, now, v);
    case HeartbeatCall =>
      var s1 := CheckSlot(s, u, now).0;
      var s2 := s1.(queueTill := s1.queueTill[u := now + ttl.refresh]);
      DrainQueue(s2, limit, now, ttl, v);
      PositionQueue(Drain(s2, limit, now, ttl), u, now, v);
    case LeaveCall =>
      DrainQueue(Remove(s, u), limit, now, ttl, v);
    case StatusCall =>
      CheckSlotQueue(p, u, now);
      var s1 := CheckSlot(p, u, now).0;
      DrainQueue(s1, limit, now, ttl, v);
      PositionQueue(Drain(s1, limit, now, ttl), u, now, v);
    case SlotCall =>
  }

  lemma DrainQueue(s: Room, limit: int, now: Time, ttl: Ttl, v: User)
    ensures var q := Drain(s, limit, now, ttl).queue; v in q ==> v in s.queue && q[v] == s.queue[v]
  {
  }

  lemma CheckSlotQueue(s: Room, u: User, now: Time)
    ensures CheckSlot(s, u, now).0.queue == s.queue
  {
  }

  lemma PositionQueue(s: Room, u: User, now: Time, v: User)
    ensures var q := PositionAndSize(s, u, now).0.queue; v in q ==> v in s.queue && q[v] == s.queue[v]
  {
  }

  lemma ScriptQueue(s: Room, u: User, limit: int, now: Time, ttl: Ttl, v: User)
    ensures var q := JoinScript(s, u, limit, now, ttl).0.queue;
            v in q ==> (v in s.queue && q[v] == s.queue[v]) || (v == u && q[v] == now)
  {
  }

  /** Nobody gets in front of a waiter, except a join whose entry sorts there. */
  lemma AheadShrinks(s: Room, e: Event, ttl: Ttl, a: User)
    requires a in s.queue && a in Step(s, e, ttl).0.queue
    requires Step(s, e, ttl).0.queue[a] == s.queue[a]
    ensures Ahead(Step(s, e, ttl).0, a) <= Ahead(s, a) + if Overtakes(e, s, a) then {e.user} else {}
    ensures var s1 := Step(s, e, ttl).0;
            !(Ahead(s1, a) <= Ahead(s, a)) <==>
            Overtakes(e, s, a) && e.user !in Ahead(s, a) && e.user in s1.queue && s1.queue[e.user] == e.now
  {
    hide Step;
    forall v | v in Ahead(Step(s, e, ttl).0, a)
      ensures v in Ahead(s, a) + if Overtakes(e, s, a) then {e.user} else {}
    {
      StepQueue(s, e, ttl, v);
    }
    if Overtakes(e, s, a) && e.user in Step(s, e, ttl).0.queue && Step(s, e, ttl).0.queue[e.user] == e.now {
      assert e.user in Ahead(Step(s, e, ttl).0, a);
    } else if e.user in Ahead(Step(s, e, ttl).0, a) {
      StepQueue(s, e, ttl, e.user);
    }
  }

  lemma JoinEnqueues(s: Room, u: User, limit: int, now: Time, ttl: Ttl, a: User)
    requires Agreement(s, now) && ttl.Valid() && a != u
    requires !Live(s.activeTill, u, now) && !Live(s.queueTill, u, now)
    requires a in Join(s, u, limit, now, ttl).0.queue
    ensures Join(s, u, limit, now, ttl).0.queue == Prune(s, limit, now, ttl).queue[u := now]
  {
    hide Prune, PositionAndSize;
    var p := Prune(s, limit, now, ttl);
    PruneKeeps(s, limit, now, ttl);
    PruneForgets(s, limit, now, ttl, u);
    JoinScriptKeeps(p, u, limit, now, ttl);
    var s1 := JoinScript(p, u, limit, now, ttl).0;
    PositionKeeps(s1, u, now);
  }

  /** A user without a live session is nowhere after a prune. */
  lemma PruneForgets(s: Room, limit: int, now: Time, ttl: Ttl, u: User)
    requires Agreement(s, now) && ttl.Valid()
    requires !Live(s.activeTill, u, now) && !Live(s.queueTill, u, now)
    ensures var p := Prune(s, limit, now, ttl);
            u !in p.active && u !in p.queue && !Live(p.activeTill, u, now)
  {
    hide Drain, Promoted;
    DropStaleKeeps(s, now);
    DrainPointwise(DropStale(s, now), limit, now, ttl, u);
  }

  /** The caller joins without a live session of its own, with an entry that sorts in
      front of the waiter's, and was not in front already. */
  ghost predicate Intrudes(e: Event, s: Room, a: User)
    requires a in s.queue
  {
    && Overtakes(e, s, a) && e.user != a && e.user !in Ahead(s, a)
    && !Live(s.activeTill, e.user, e.now) && !Live(s.queueTill, e.user, e.now)
  }

  /** Exactly when somebody new comes to stand in front of a waiter, by the state
      before the call. */
  lemma FrontSetGrowsExactly(s: Room, e: Event, ttl: Ttl, a: User)
    requires Agreement(s, e.now) && ttl.Valid()
    requires a in s.queue && a in Step(s, e, ttl).0.queue
    requires Step(s, e, ttl).0.queue[a] == s.queue[a]
    ensures !(Ahead(Step(s, e, ttl).0, a) <= Ahead(s, a)) <==> Intrudes(e, s, a)
  {
    hide Step, Ahead, Join;
    var u, now := e.user, e.now;
    var s1 := Step(s, e, ttl).0;
    AheadShrinks(s, e, ttl, a);
    StepKeeps(s, e, ttl);
    if Overtakes(e, s, a) && u != a && u !in Ahead(s, a) {
      if Live(s.queueTill, u, now) {
        StepFair(s, e, ttl, u);
        InAhead(s, u, a);
      } else if Live(s.activeTill, u, now) {
        OwnSeatStays(s, e, ttl);
      } else {
        StepIsJoin(s, e, ttl);
        JoinEnqueues(s, u, SlotLimit(e.maxActive), now, ttl, a);
      }
    }
  }

  /** Exactly when a waiter's position grows: somebody comes to stand in front of it
      and nobody in front goes, because all of them are alive and no seat is free
      once the stale ones are given up. */
  lemma PositionGrowsExactly(s: Room, e: Event, ttl: Ttl, a: User)
    requires Agreement(s, e.now) && ttl.Valid()
    requires a in s.queue && a in Step(s, e, ttl).0.queue
    requires Step(s, e, ttl).0.queue[a] == s.queue[a]
    ensures |Ahead(Step(s, e, ttl).0, a)| > |Ahead(s, a)| <==>
            && Intrudes(e, s, a)
            && (forall v :: v in Ahead(s, a) ==> Live(s.queueTill, v, e.now))
            && |set v | v in s.active && v in s.activeTill && e.now < s.activeTill[v]| >= Max(e.maxActive, 1)
  {
    assert DropStale(s, e.now).active == set v | v in s.active && v in s.activeTill && e.now < s.activeTill[v];
    hide Step, Ahead, Join, Prune, Intrudes, Overtakes, DropStale;
    var u, limit := e.user, SlotLimit(e.maxActive);
    var s1 := Step(s, e, ttl).0;
    FrontSetGrowsExactly(s, e, ttl, a);
    if Ahead(s1, a) <= Ahead(s, a) {
      SubsetSize(Ahead(s1, a), Ahead(s, a));
    } else {
      IntruderEnqueued(s, e, ttl, a);
      if |Ahead(s1, a)| > |Ahead(s, a)| {
        AheadShrinks(s, e, ttl, a);
        NobodyLeft(Ahead(s, a), Ahead(s1, a), u);
        forall v | v in Ahead(s, a) ensures v in s1.queue { InAhead(s1, v, a); }
        FrontStays(s, e, ttl, a);
      } else if forall v :: v in Ahead(s, a) ==> Live(s.queueTill, v, e.now) {
        if FreeSlots(DropStale(s, e.now), limit) == 0 {
          FrontAdds(s, e, ttl, a);
        }
      }
    }
  }

  lemma IntruderEnqueued(s: Room, e: Event, ttl: Ttl, a: User)
    requires Agreement(s, e.now) && ttl.Valid() && a in s.queue && Intrudes(e, s, a)
    requires a in Step(s, e, ttl).0.queue
    ensures Step(s, e, ttl).0.queue == Prune(s, SlotLimit(e.maxActive), e.now, ttl).queue[e.user := e.now]
  {
    hide Join, Prune, Ahead;
    StepIsJoin(s, e, ttl);
    JoinEnqueues(s, e.user, SlotLimit(e.maxActive), e.now, ttl, a);
  }

  lemma NobodyLeft(front: set<User>, front1: set<User>, u: User)
    requires front1 <= front + {u} && |front1| > |front|
    ensures front <= front1
  {
    if u in front {
      assert front + {u} == front;
      SubsetSize(front1, front);
    } else {
      AddOne(front, u);
      SubsetSize(front1, front + {u});
    }
  }

  /** If everybody in front is still there, nobody in front was stale or promoted. */
  lemma FrontStays(s: Room, e: Event, ttl: Ttl, a: User)
    requires Agreement(s, e.now) && ttl.Valid() && a in s.queue && Intrudes(e, s, a)
    requires var q := Prune(s, SlotLimit(e.maxActive), e.now, ttl).queue[e.user := e.now];
             a in q && forall v :: v in Ahead(s, a) ==> v in q
    ensures forall v :: v in Ahead(s, a) ==> Live(s.queueTill, v, e.now)
    ensures FreeSlots(DropStale(s, e.now), SlotLimit(e.maxActive)) == 0
  {
    hide Drain, Promoted, Ahead, Overtakes;
    var limit, d := SlotLimit(e.maxActive), DropStale(s, e.now);
    forall v | v in Ahead(s, a) || v == a
      ensures v in Drain(d, limit, e.now, ttl).queue && Live(s.queueTill, v, e.now)
    {
      DrainQueue(d, limit, e.now, ttl, v);
    }
    if FreeSlots(d, limit) > 0 {
      assert a in LiveWaiters(d, e.now);
      var m := LeastExists(d.queue, LiveWaiters(d, e.now));
      LeastIsPromoted(d, limit, e.now, ttl, m);
      InAhead(s, m, a);
    }
  }

  lemma LeastIsPromoted(s: Room, limit: int, now: Time, ttl: Ttl, m: User)
    requires FreeSlots(s, limit) > 0 && m in LiveWaiters(s, now)
    requires forall v :: v in LiveWaiters(s, now) && v != m ==> Before(s.queue, m, v)
    ensures m !in Drain(s, limit, now, ttl).queue
  {
    assert LiveAhead(s, m, now) == {};
  }

  /** If nobody in front is stale and no seat is free, the newcomer is one more. */
  lemma FrontAdds(s: Room, e: Event, ttl: Ttl, a: User)
    requires Agreement(s, e.now) && ttl.Valid() && a in s.queue && Intrudes(e, s, a)
    requires a in Step(s, e, ttl).0.queue && Step(s, e, ttl).0.queue[a] == s.queue[a]
    requires forall v :: v in Ahead(s, a) ==> Live(s.queueTill, v, e.now)
    requires FreeSlots(DropStale(s, e.now), SlotLimit(e.maxActive)) == 0
    ensures |Ahead(Step(s, e, ttl).0, a)| > |Ahead(s, a)|
  {
    hide Step, Ahead, Drain, Promoted;
    var s1 := Step(s, e, ttl).0;
    IntruderEnqueued(s, e, ttl, a);
    DrainIdle(DropStale(s, e.now), SlotLimit(e.maxActive), e.now, ttl);
    assert s1.queue == DropStale(s, e.now).queue[e.user := e.now];
    forall v | v in Ahead(s, a) + {e.user} ensures v in Ahead(s1, a) {
      InAhead(s, v, a);
      InAhead(s1, v, a);
    }
    AddOne(Ahead(s, a), e.user);
    SubsetSize(Ahead(s, a) + {e.user}, Ahead(s1, a));
  }

  // ---------- scores are never in the future ----------

  ghost predicate ScoresPast(s: Room, now: Time) {
    forall u :: u in s.queue ==> s.queue[u] <= now
  }

  lemma {:induction false} RunScoresPast(s: Room, start: Time, es: seq<Event>, ttl: Ttl)
    requires ScoresPast(s, start) && Timed(start, es)
    ensures ScoresPast(Run(s, es, ttl), EndTime(start, es))
    decreases |es|
  {
    hide Step;
    if es != [] {
      var s1 := Step(s, es[0], ttl).0;
      forall v | v in s1.queue ensures s1.queue[v] <= es[0].now {
        StepQueue(s, es[0], ttl, v);
      }
      RunScoresPast(s1, es[0].now, es[1..], ttl);
    }
  }

  /** In a reachable room only a join at the very time of the waiter's own enqueue,
      by a smaller id, sorts in front of it. */
  lemma OvertakesOnATie(start: Time, es: seq<Event>, e: Event, ttl: Ttl, a: User)
    requires Timed(start, es) && EndTime(start, es) <= e.now
    requires a in Run(EMPTY, es, ttl).queue
    ensures var s := Run(EMPTY, es, ttl);
            Overtakes(e, s, a) <==> e.call == JoinCall && e.now == s.queue[a] && e.user < a
  {
    hide Run, Timed, EndTime;
    RunScoresPast(EMPTY, start, es, ttl);
  }

  lemma InAhead(s: Room, u: User, a: User)
    requires a in s.queue
    ensures u in Ahead(s, a) <==> u in s.queue && Before(s.queue, u, a)
  {
  }

  lemma StepIsJoin(s: Room, e: Event, ttl: Ttl)
    requires e.call == JoinCall
    ensures Step(s, e, ttl) == Join(s, e.user, SlotLimit(e.maxActive), e.now, ttl)
  {
  }

  lemma OwnSeatStays(s: Room, e: Event, ttl: Ttl)
    requires Agreement(s, e.now) && ttl.Valid() && e.call == JoinCall && Live(s.activeTill, e.user, e.now)
    ensures e.user in Step(s, e, ttl).0.active
  {
    hide Drain, Promoted;
    var limit := SlotLimit(e.maxActive);
    DropStaleKeeps(s, e.now);
    DrainPointwise(DropStale(s, e.now), limit, e.now, ttl, e.user);
  }

  /** A seat given up by an active member goes to the head of the queue, so the
      position of every other waiter drops. */
  lemma ActiveLeaveAdvances(s: Room, e: Event, ttl: Ttl, a: User)
    requires Agreement(s, e.now) && ttl.Valid() && Waiting(s, a, e.now)
    requires Packed(s, SlotLimit(e.maxActive))
    requires e.call == LeaveCall && e.user in s.active
    requires a in Step(s, e, ttl).0.queue
    ensures |Ahead(Step(s, e, ttl).0, a)| < |Ahead(s, a)|
  {
    hide Drain, Ahead;
    var limit := SlotLimit(e.maxActive);
    var r := Remove(s, e.user);
    assert r.queue == s.queue;
    OneFreed(s, e.user, limit);
    ShrinkByHead(r, limit, e.now, ttl, a);
    SameAhead(r, s, a);
  }

  lemma OneFreed(s: Room, u: User, limit: int)
    requires u in s.active && |s.active| == limit
    ensures FreeSlots(Remove(s, u), limit) == 1
  {
    AddOne(s.active - {u}, u);
    assert s.active - {u} + {u} == s.active;
  }

  lemma SameAhead(r: Room, s: Room, a: User)
    requires r.queue == s.queue && a in s.queue
    ensures Ahead(r, a) == Ahead(s, a)
  {
  }

  lemma ShrinkByHead(s: Room, limit: int, now: Time, ttl: Ttl, a: User)
    requires FreeSlots(s, limit) == 1 && Waiting(s, a, now) && a in Drain(s, limit, now, ttl).queue
    ensures |Ahead(Drain(s, limit, now, ttl), a)| < |Ahead(s, a)|
  {
    var s1 := Drain(s, limit, now, ttl);
    var m := LeastExists(s.queue, LiveWaiters(s, now));
    assert LiveAhead(s, m, now) == {};
    assert m !in s1.queue && a != m;
    assert m in Ahead(s, a) && m !in Ahead(s1, a);
    forall v | v in Ahead(s1, a) ensures v in Ahead(s, a) {}
    SubsetSize(Ahead(s1, a), Ahead(s, a));
  }

  // ---------- runs ----------

  /** Somebody who waits stays alive: as long as `a` is queued, each operation
      finds its session live, is not its own Leave, and enqueues nobody in front. */
  ghost predicate KeptAlive(s: Room, es: seq<Event>, ttl: Ttl, a: User)
    decreases |es|
  {
    es == [] || a !in s.queue ||
    (&& Live(s.queueTill, a, es[0].now)
     && !(es[0].call == LeaveCall && es[0].user == a)
     && !Overtakes(es[0], s, a)
     && KeptAlive(Step(s, es[0], ttl).0, es[1..], ttl, a))
  }

  /** At some moment of the run `a` holds a seat. */
  ghost predicate EverSeated(s: Room, es: seq<Event>, ttl: Ttl, a: User)
    decreases |es|
  {
    a in s.active || (es != [] && EverSeated(Step(s, es[0], ttl).0, es[1..], ttl, a))
  }

  /** Leave calls made by users who were active when they called. */
  function ActiveLeaves(s: Room, es: seq<Event>, ttl: Ttl): nat
    decreases |es|
  {
    if es == [] then 0
    else
      (if es[0].call == LeaveCall && es[0].user in s.active then 1 else 0)
      + ActiveLeaves(Step(s, es[0], ttl).0, es[1..], ttl)
  }

  /** While a waiter is kept alive and not yet seated it stays queued with its
      score, the set in front of it only shrinks, and whoever is seated was either
      seated already or in front of it at the start. */
  lemma {:induction false} WaiterIsNotPassed(s: Room, start: Time, es: seq<Event>, ttl: Ttl, a: User)
    requires Agreement(s, start) && Timed(start, es) && ttl.Valid()
    requires a in s.queue && KeptAlive(s, es, ttl, a) && !EverSeated(s, es, ttl, a)
    ensures var s1 := Run(s, es, ttl);
            && a in s1.queue && s1.queue[a] == s.queue[a]
            && Ahead(s1, a) <= Ahead(s, a)
            && s1.active <= s.active + Ahead(s, a)
    decreases |es|
  {
    hide Step, Agreement, Ahead;
    if es != [] {
      var s1 := Step(s, es[0], ttl).0;
      AgreementLasts(s, start, es[0].now);
      StepKeeps(s, es[0], ttl);
      StepFair(s, es[0], ttl, a);
      assert !EverSeated(s1, es[1..], ttl, a);
      AheadShrinks(s, es[0], ttl, a);
      WaiterIsNotPassed(s1, es[0].now, es[1..], ttl, a);
    }
  }

  /** First come, first served: if `a` is in front of `b` and stays alive, then
      `b` holds a seat at the end of a run only if `a` has held one by then. */
  lemma FirstComeFirstServed(s: Room, start: Time, es: seq<Event>, ttl: Ttl, a: User, b: User)
    requires Agreement(s, start) && Timed(start, es) && ttl.Valid()
    requires a in s.queue && b in s.queue && Before(s.queue, a, b)
    requires KeptAlive(s, es, ttl, a)
    requires b in Run(s, es, ttl).active
    ensures EverSeated(s, es, ttl, a)
  {
    if !EverSeated(s, es, ttl, a) {
      WaiterIsNotPassed(s, start, es, ttl, a);
    }
  }

  lemma {:induction false} WaitIsBounded(s: Room, start: Time, es: seq<Event>, limit: int, ttl: Ttl, a: User)
    requires Agreement(s, start) && Timed(start, es) && ttl.Valid()
    requires Packed(s, limit) && ConstantLimit(es, limit)
    requires a in s.queue && KeptAlive(s, es, ttl, a) && !EverSeated(s, es, ttl, a)
    ensures a in Run(s, es, ttl).queue
    ensures ActiveLeaves(s, es, ttl) + |Ahead(Run(s, es, ttl), a)| <= |Ahead(s, a)|
    decreases |es|
  {
    hide Step, Agreement, Ahead, Packed, SlotLimit;
    if es != [] {
      var s1 := Step(s, es[0], ttl).0;
      AgreementLasts(s, start, es[0].now);
      StepKeeps(s, es[0], ttl);
      StepFair(s, es[0], ttl, a);
      assert !EverSeated(s1, es[1..], ttl, a);
      AheadShrinks(s, es[0], ttl, a);
      SubsetSize(Ahead(s1, a), Ahead(s, a));
      assert SlotLimit(es[0].maxActive) == limit;
      if es[0].call == LeaveCall && es[0].user in s.active {
        ActiveLeaveAdvances(s, es[0], ttl, a);
      }
      WaitIsBounded(s1, es[0].now, es[1..], limit, ttl, a);
    }
  }

  /** Bounded waiting: whoever stands at position p and stays alive is seated by
      the time p active members have left, whatever else happens in between. */
  lemma SeatedWithinPosition(s: Room, start: Time, es: seq<Event>, limit: int, ttl: Ttl, a: User)
    requires Agreement(s, start) && Timed(start, es) && ttl.Valid()
    requires Packed(s, limit) && ConstantLimit(es, limit)
    requires a in s.queue && KeptAlive(s, es, ttl, a)
    requires ActiveLeaves(s, es, ttl) >= |Ahead(s, a)| + 1
    ensures EverSeated(s, es, ttl, a)
  {
    if !EverSeated(s, es, ttl, a) {
      WaitIsBounded(s, start, es, limit, ttl, a);
    }
  }

  /** One seat, user 1 in it, users 2 and 3 in line: when user 1 leaves, all the
      conditions above are met for user 2, who is seated; user 3 is not. */
  lemma OneSeatPassesOn(ttl: Ttl)
    requires ttl.Valid()
    ensures var s := Room({1}, map[2 := 1, 3 := 2], map[1 := 100], map[2 := 100, 3 := 100]);
            var es := [Event(LeaveCall, 1, 1, 5)];
            && Agreement(s, 2) && Timed(2, es) && Packed(s, 1) && ConstantLimit(es, 1)
            && KeptAlive(s, es, ttl, 2) && KeptAlive(s, es, ttl, 3)
            && ActiveLeaves(s, es, ttl) == |Ahead(s, 2)| + 1 == |Ahead(s, 3)|
            && 2 in Run(s, es, ttl).active && 3 !in Run(s, es, ttl).active
  {
    hide Step, Ahead;
    var s := Room({1}, map[2 := 1, 3 := 2], map[1 := 100], map[2 := 100, 3 := 100]);
    var e := Event(LeaveCall, 1, 1, 5);
    var es := [e];
    assert es[1..] == [];
    var s1 := Step(s, e, ttl).0;
    assert s.queue.Keys == {2, 3};
    assert Ahead(s, 2) == {} && Ahead(s, 3) == {2} by { AheadOfTwo(s); }
    AgreementLasts(s, 2, 5);
    SeatedWithinPosition(s, 2, es, 1, ttl, 2);
    assert 2 in s1.active;
    StepKeeps(s, e, ttl);
    if 3 in s1.active {
      SubsetSize({2, 3}, s1.active);
    }
  }

  lemma AheadOfTwo(s: Room)
    requires s.queue == map[2 := 1, 3 := 2]
    ensures Ahead(s, 2) == {} && Ahead(s, 3) == {2}
  {
  }
}
