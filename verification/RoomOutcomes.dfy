/** What an operation of the waiting room comes to, read off the keys it finds: who
    is seated, who stands in line and what the caller is told.  Nothing here refers
    to pruning, promotion or the join script. */
module RoomOutcomes {
  import opened WaitingRoom
  import opened Sets
  import opened Promotion
  import opened RoomInvariants
  import opened RoomReplies

  /** A seat with its session. */
  predicate Holder(s: Room, u: User, now: Time) {
    u in s.active && u in s.activeTill && now < s.activeTill[u]
  }

  /** An entry with its session. */
  predicate InLine(s: Room, u: User, now: Time) {
    u in s.queue && u in s.queueTill && now < s.queueTill[u]
  }

  function Holders(s: Room, now: Time): set<User> { set u | u in s.active && Holder(s, u, now) }

  function Line(s: Room, now: Time): set<User> { set u | u in s.queue && InLine(s, u, now) }

  /** Those in line with an earlier entry; of two entries of the same microsecond
      the one with the smaller id comes first. */
  function Earlier(s: Room, v: User, now: Time): set<User>
    requires v in s.queue
  {
    set w | w in s.queue && InLine(s, w, now) && (s.queue[w] < s.queue[v] || (s.queue[w] == s.queue[v] && w < v))
  }

  /** The turn of `v` comes before the seats run out, `taken` of them being gone. */
  ghost predicate Reached(s: Room, v: User, taken: nat, limit: int, now: Time) {
    InLine(s, v, now) && taken + |Earlier(s, v, now)| < limit
  }

  /** The seats handed out after a Leave: the leaver counts for nothing. */
  ghost predicate ReachedWithout(s: Room, u: User, v: User, limit: int, now: Time)
    requires v in s.queue
  {
    |s.active - {u}| + |Earlier(s, v, now) - {u}| < limit
  }

  /** Who holds a seat afterwards. */
  ghost predicate SeatedAfter(s: Room, e: Event, v: User) {
    var u, now, limit := e.user, e.now, if e.maxActive < 1 then 1 else e.maxActive;
    var holders := Holders(s, now);
    match e.call
    case JoinCall =>
      || v in holders || Reached(s, v, |holders|, limit, now)
      || (v == u && |holders| + |Line(s, now)| < limit)
    case StatusCall => v in holders || Reached(s, v, |holders|, limit, now)
    case HeartbeatCall => v in s.active || (InLine(s, u, now) && Reached(s, v, |s.active|, limit, now))
    case LeaveCall => v != u && (v in s.active || (InLine(s, v, now) && ReachedWithout(s, u, v, limit, now)))
    case SlotCall => v in s.active
  }

  /** Who has an entry in the queue afterwards. */
  ghost predicate QueuedAfter(s: Room, e: Event, v: User) {
    var u, now, limit := e.user, e.now, if e.maxActive < 1 then 1 else e.maxActive;
    var holders := Holders(s, now);
    match e.call
    case JoinCall =>
      || (InLine(s, v, now) && |holders| + |Earlier(s, v, now)| >= limit)
      || (v == u && v !in holders && !InLine(s, v, now) && |holders| + |Line(s, now)| >= limit)
    case StatusCall => InLine(s, v, now) && |holders| + |Earlier(s, v, now)| >= limit
    case HeartbeatCall =>
      && v in s.queue
      && (InLine(s, u, now) ==> |s.active| + |Earlier(s, v, now)| >= limit)
      && (v == u ==> InLine(s, u, now))
    case LeaveCall => v != u && v in s.queue && !ReachedWithout(s, u, v, limit, now)
    case SlotCall => v in s.queue
  }

  // ---------- the parts ----------

  lemma SameSessions(s: Room, now: Time, v: User)
    requires Agreement(s, now)
    ensures Live(s.activeTill, v, now) <==> Holder(s, v, now)
    ensures Live(s.queueTill, v, now) <==> InLine(s, v, now)
    ensures DropStale(s, now).active == Holders(s, now)
    ensures DropStale(s, now).queue.Keys == LiveWaiters(s, now) == Line(s, now)
    ensures v in s.queue ==> LiveAhead(s, v, now) == Earlier(s, v, now)
  {
  }

  lemma DrainOutcome(s: Room, limit: int, now: Time, ttl: Ttl, v: User)
    ensures var s1 := Drain(s, limit, now, ttl);
            && (v in s1.active <==> v in s.active || Reached(s, v, |s.active|, limit, now))
            && (v in s1.queue <==> v in s.queue && |s.active| + |Earlier(s, v, now)| >= limit)
  {
    if v in s.queue { assert LiveAhead(s, v, now) == Earlier(s, v, now); }
  }

  lemma SameTurn(s: Room, t: Room, v: User, now: Time)
    requires v in s.queue && v in t.queue
    requires forall w :: InLine(s, w, now) <==> InLine(t, w, now)
    requires forall w :: w in s.queue && w in t.queue ==> s.queue[w] == t.queue[w]
    ensures Earlier(s, v, now) == Earlier(t, v, now)
  {
  }

  lemma PruneOutcome(s: Room, limit: int, now: Time, ttl: Ttl, v: User)
    requires Agreement(s, now) && ttl.Valid()
    ensures var p, taken := Prune(s, limit, now, ttl), |Holders(s, now)|;
            && (v in p.active <==> v in Holders(s, now) || Reached(s, v, taken, limit, now))
            && (v in p.queue <==> InLine(s, v, now) && taken + |Earlier(s, v, now)| >= limit)
  {
    hide Drain;
    var d := DropStale(s, now);
    SameSessions(s, now, v);
    DrainOutcome(d, limit, now, ttl, v);
    if v in d.queue { SameTurn(s, d, v, now); }
  }

  /** A pruned room has a free seat iff the holders and all those in line fit in. */
  lemma RoomLeft(s: Room, limit: int, now: Time, ttl: Ttl)
    requires Agreement(s, now) && ttl.Valid()
    ensures |Prune(s, limit, now, ttl).active| < limit <==> |Holders(s, now)| + |Line(s, now)| < limit
  {
    hide Drain, DropStale, LiveWaiters, Line, Holders;
    var d := DropStale(s, now);
    SameSessions(s, now, 0);
    DropStaleKeeps(s, now);
    SameLine(s, now);
    DrainCount(d, limit, now, ttl);
  }

  lemma SameLine(s: Room, now: Time)
    requires Agreement(s, now)
    ensures LiveWaiters(DropStale(s, now), now) == Line(s, now)
  {
  }

  lemma DrainCount(s: Room, limit: int, now: Time, ttl: Ttl)
    requires s.active !! s.queue.Keys
    ensures |Drain(s, limit, now, ttl).active| < limit <==> |s.active| + |LiveWaiters(s, now)| < limit
  {
    hide Drain, LiveWaiters;
    PromotesFirstLive(s, limit, now, ttl);
    var seated := Drain(s, limit, now, ttl).active;
    Disjoint(s.active, seated - s.active);
    assert seated == s.active + (seated - s.active);
  }

  lemma JoinOutcome(s: Room, u: User, limit: int, now: Time, ttl: Ttl, v: User)
    requires Agreement(s, now) && ttl.Valid()
    ensures var p, s1 := Prune(s, limit, now, ttl), Join(s, u, limit, now, ttl).0;
            && (v in s1.active <==> v in p.active || (v == u && |p.active| < limit))
            && (v in s1.queue <==> v in p.queue || (v == u && u !in p.active && |p.active| >= limit))
  {
    hide Prune, PositionAndSize;
    var p := Prune(s, limit, now, ttl);
    PruneKeeps(s, limit, now, ttl);
    JoinScriptKeeps(p, u, limit, now, ttl);
    PositionKeeps(JoinScript(p, u, limit, now, ttl).0, u, now);
  }

  lemma StatusOutcome(s: Room, u: User, limit: int, now: Time, ttl: Ttl, v: User)
    requires Agreement(s, now) && ttl.Valid()
    ensures var p, s1 := Prune(s, limit, now, ttl), Status(s, u, limit, now, ttl).0;
            (v in s1.active <==> v in p.active) && (v in s1.queue <==> v in p.queue)
  {
    hide Prune, Status, Drain, Ahead;
    StatusDrainsOnce(s, u, limit, now, ttl);
    PruneKeeps(s, limit, now, ttl);
    PrunedIsLive(s, limit, now, ttl, u);
  }

  lemma PrunedIsLive(s: Room, limit: int, now: Time, ttl: Ttl, u: User)
    requires Agreement(s, now) && ttl.Valid()
    ensures var p := Prune(s, limit, now, ttl); u in p.queue ==> Live(p.queueTill, u, now)
  {
    hide Drain, Promoted;
    DropStaleKeeps(s, now);
    DrainPointwise(DropStale(s, now), limit, now, ttl, u);
  }

  lemma HeartbeatOutcome(s: Room, e: Event, ttl: Ttl, v: User)
    requires Agreement(s, e.now) && ttl.Valid() && e.call == HeartbeatCall
    ensures v in Step(s, e, ttl).0.active <==> SeatedAfter(s, e, v)
    ensures v in Step(s, e, ttl).0.queue <==> QueuedAfter(s, e, v)
  {
    hide Drain, CheckSlot, PositionAndSize, Reached, Earlier;
    var u, now, limit := e.user, e.now, SlotLimit(e.maxActive);
    SameSessions(s, now, u);
    NoGhostKey(s, u, now);
    if InLine(s, u, now) {
      var t := s.(queueTill := s.queueTill[u := now + ttl.refresh]);
      DrainKeeps(t, limit, now, ttl);
      DrainOutcome(t, limit, now, ttl, v);
      DrainSession(t, limit, now, ttl, u);
      PositionOutcome(Drain(t, limit, now, ttl), u, now);
      SameReach(s, t, v, limit, now);
    }
  }

  lemma PositionOutcome(s: Room, u: User, now: Time)
    requires Agreement(s, now)
    ensures var s1 := PositionAndSize(s, u, now).0;
            s1.active == s.active && (Live(s.activeTill, u, now) || Live(s.queueTill, u, now) ==> s1 == s)
  {
  }

  lemma SameReach(s: Room, t: Room, v: User, limit: int, now: Time)
    requires s.active == t.active && s.queue == t.queue
    requires forall w :: InLine(s, w, now) <==> InLine(t, w, now)
    ensures Reached(s, v, |s.active|, limit, now) <==> Reached(t, v, |t.active|, limit, now)
    ensures v in s.queue ==> Earlier(s, v, now) == Earlier(t, v, now)
  {
    if v in s.queue { assert Earlier(s, v, now) == Earlier(t, v, now); }
  }

  lemma LeaveOutcome(s: Room, e: Event, ttl: Ttl, v: User)
    requires Agreement(s, e.now) && ttl.Valid() && e.call == LeaveCall
    ensures v in Step(s, e, ttl).0.active <==> SeatedAfter(s, e, v)
    ensures v in Step(s, e, ttl).0.queue <==> QueuedAfter(s, e, v)
  {
    hide Drain, Remove, Earlier;
    var u, now, limit := e.user, e.now, SlotLimit(e.maxActive);
    var t := Remove(s, u);
    RemoveOutcome(s, u, v, now);
    DrainOutcome(t, limit, now, ttl, v);
    assert Step(s, e, ttl).0 == Drain(t, limit, now, ttl);
    if v in t.queue {
      assert |s.active - {u}| + |Earlier(s, v, now) - {u}| == |t.active| + |Earlier(t, v, now)|;
    }
  }

  lemma RemoveOutcome(s: Room, u: User, v: User, now: Time)
    ensures var t := Remove(s, u);
            && t.active == s.active - {u} && (v in t.queue <==> v in s.queue && v != u)
            && (InLine(t, v, now) <==> InLine(s, v, now) && v != u)
            && (v in t.queue ==> Earlier(t, v, now) == Earlier(s, v, now) - {u})
  {
  }

  // ---------- the outcome of a call ----------

  /** Exactly who is seated and who stands in line after any call, for every user,
      by counting over the keys the call finds. */
  lemma MembershipExactly(s: Room, e: Event, ttl: Ttl, v: User)
    requires Agreement(s, e.now) && ttl.Valid()
    ensures v in Step(s, e, ttl).0.active <==> SeatedAfter(s, e, v)
    ensures v in Step(s, e, ttl).0.queue <==> QueuedAfter(s, e, v)
  {
    hide Join, Heartbeat, Leave, Status, Prune, CheckSlot;
    var u, now, limit := e.user, e.now, SlotLimit(e.maxActive);
    match e.call
    case JoinCall =>
      JoinOutcome(s, u, limit, now, ttl, v);
      PruneOutcome(s, limit, now, ttl, v);
      RoomLeft(s, limit, now, ttl);
      if InLine(s, v, now) { SubsetSize(Earlier(s, v, now), Line(s, now)); }
    case StatusCall =>
      StatusOutcome(s, u, limit, now, ttl, v);
      PruneOutcome(s, limit, now, ttl, v);
    case HeartbeatCall => HeartbeatOutcome(s, e, ttl, v);
    case LeaveCall => LeaveOutcome(s, e, ttl, v);
    case SlotCall => NoGhostKey(s, u, now);
  }

  /** Exactly what a caller is told.  One who holds a seat may enter.  One in line may
      enter iff the seats not taken by holders (for a Heartbeat: by anybody) reach
      that far; one with neither is seated by a Join iff a seat is left after
      everybody in line, and told to join again by the other two. */
  lemma AnswersExactly(s: Room, e: Event, ttl: Ttl)
    requires Agreement(s, e.now) && ttl.Valid() && e.call in {JoinCall, HeartbeatCall, StatusCall}
    ensures var (s1, r) := Step(s, e, ttl); var u, now := e.user, e.now;
            var limit := if e.maxActive < 1 then 1 else e.maxActive;
            var taken := if e.call == HeartbeatCall then |s.active| else |Holders(s, now)|;
            if !Holder(s, u, now) && !InLine(s, u, now) && e.call != JoinCall then r == NotInQueue
            else
              && r.Ok? && r.inQueue == !r.canEnter && r.totalWaiting == |s1.queue|
              && (r.canEnter <==>
                   if Holder(s, u, now) then true
                   else if InLine(s, u, now) then taken + |Earlier(s, u, now)| < limit
                   else taken + |Line(s, now)| < limit)
              && (r.canEnter ==> r.position == 0)
              && (r.inQueue ==> u in s1.queue && r.position == 1 + |EntriesBefore(s1, u)|)
  {
    hide Step, Agreement;
    var s1 := Step(s, e, ttl).0;
    var u, now := e.user, e.now;
    SameSessions(s, now, u);
    RepliesAgree(s, e, ttl);
    StepKeeps(s, e, ttl);
    MembershipExactly(s, e, ttl, u);
    if u in s1.queue { assert Ahead(s1, u) == EntriesBefore(s1, u); }
    if InLine(s, u, now) { SubsetSize(Earlier(s, u, now), Line(s, now)); }
    OneOrOther(s, s1, u, now);
  }

  function EntriesBefore(s: Room, u: User): set<User>
    requires u in s.queue
  {
    set v | v in s.queue && (s.queue[v] < s.queue[u] || (s.queue[v] == s.queue[u] && v < u))
  }

  lemma OneOrOther(s: Room, s1: Room, u: User, now: Time)
    requires Agreement(s, now) && Agreement(s1, now)
    ensures !(u in s1.active && u in s1.queue)
    ensures !(Holder(s, u, now) && InLine(s, u, now))
  {
  }
}
