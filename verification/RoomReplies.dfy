/** What the replies of Join, Heartbeat and Status say about the room. */
module RoomReplies {
  import opened WaitingRoom
  import opened Sets
  import opened Promotion
  import opened RoomInvariants
  import opened RoomFairness

  /** An answer is either "enter", with a live slot behind it, or a place in line. */
  ghost predicate Truthful(s: Room, u: User, now: Time, r: Reply) {
    r.Ok? ==>
      && r.inQueue != r.canEnter
      && r.totalWaiting == |s.queue|
      && (r.canEnter ==> r.position == 0 && u in s.active && Live(s.activeTill, u, now))
      && (r.inQueue ==>
            && u in s.queue && Live(s.queueTill, u, now)
            && r.position == |Ahead(s, u)| + 1
            && 1 <= r.position <= r.totalWaiting)
  }

  lemma RankInRange(s: Room, u: User)
    requires u in s.queue
    ensures |Ahead(s, u)| < |s.queue|
  {
    SubsetSize(Ahead(s, u) + {u}, s.queue.Keys);
    AddOne(Ahead(s, u), u);
  }

  /** Two waiters never stand at the same position. */
  lemma PositionsDiffer(s: Room, u: User, v: User)
    requires u in s.queue && v in s.queue && u != v
    ensures |Ahead(s, u)| != |Ahead(s, v)|
    ensures |Ahead(s, u)| < |Ahead(s, v)| <==> Before(s.queue, u, v)
  {
    if Before(s.queue, u, v) {
      BelowMonotone(s.queue, s.queue.Keys, u, v);
    } else {
      BelowMonotone(s.queue, s.queue.Keys, v, u);
    }
  }

  lemma PositionReply(s: Room, u: User, now: Time)
    requires Agreement(s, now)
    ensures var (s1, r) := PositionAndSize(s, u, now);
            && Truthful(s1, u, now, r)
            && (r.Ok? || r.NotInQueue?)
            && (r.Ok? <==> Live(s.activeTill, u, now) || Live(s.queueTill, u, now))
  {
    hide Ahead;
    if u in s.queue { RankInRange(s, u); }
  }

  lemma JoinReply(s: Room, u: User, limit: int, now: Time, ttl: Ttl)
    requires Agreement(s, now) && ttl.Valid()
    ensures var (s1, r) := Join(s, u, limit, now, ttl); Truthful(s1, u, now, r) && r.Ok?
  {
    hide Prune, PositionAndSize, Ahead;
    PruneKeeps(s, limit, now, ttl);
    JoinScriptKeeps(Prune(s, limit, now, ttl), u, limit, now, ttl);
    PositionReply(JoinScript(Prune(s, limit, now, ttl), u, limit, now, ttl).0, u, now);
  }

  lemma DrainSession(s: Room, limit: int, now: Time, ttl: Ttl, u: User)
    requires s.active !! s.queue.Keys && ttl.Valid() && Agreement(s, now)
    ensures var s1 := Drain(s, limit, now, ttl);
            Live(s1.activeTill, u, now) || Live(s1.queueTill, u, now) <==>
            Live(s.activeTill, u, now) || Live(s.queueTill, u, now)
  {
    hide Drain, Promoted;
    DrainPointwise(s, limit, now, ttl, u);
  }

  lemma HeartbeatReply(s: Room, u: User, limit: int, now: Time, ttl: Ttl)
    requires Agreement(s, now) && ttl.Valid()
    ensures var (s1, r) := Heartbeat(s, u, limit, now, ttl);
            && Truthful(s1, u, now, r)
            && (r.Ok? || r.NotInQueue?)
            && (r.Ok? <==> Live(s.activeTill, u, now) || Live(s.queueTill, u, now))
  {
    hide Drain, PositionAndSize, CheckSlot, Ahead;
    NoGhostKey(s, u, now);
    if !Live(s.activeTill, u, now) && Live(s.queueTill, u, now) {
      var s1 := s.(queueTill := s.queueTill[u := now + ttl.refresh]);
      DrainKeeps(s1, limit, now, ttl);
      DrainSession(s1, limit, now, ttl, u);
      PositionReply(Drain(s1, limit, now, ttl), u, now);
    }
  }

  lemma StatusReply(s: Room, u: User, limit: int, now: Time, ttl: Ttl)
    requires Agreement(s, now) && ttl.Valid()
    ensures var (s1, r) := Status(s, u, limit, now, ttl);
            && Truthful(s1, u, now, r)
            && (r.Ok? || r.NotInQueue?)
            && (r.Ok? <==> Live(s.activeTill, u, now) || Live(s.queueTill, u, now))
  {
    hide Status, Drain, PositionAndSize, Ahead;
    StatusDrainsOnce(s, u, limit, now, ttl);
    PruneKeeps(s, limit, now, ttl);
    DropStaleKeeps(s, now);
    DrainSession(DropStale(s, now), limit, now, ttl, u);
    PositionReply(Prune(s, limit, now, ttl), u, now);
  }

  /** Every reply tells the truth about the room it leaves.  Join always answers;
      Heartbeat and Status end in ErrNotInQueue exactly for a user who had no live
      session of either kind when the call came. */
  lemma RepliesAgree(s: Room, e: Event, ttl: Ttl)
    requires Agreement(s, e.now) && ttl.Valid()
    ensures var (s1, r) := Step(s, e, ttl);
            var live := Live(s.activeTill, e.user, e.now) || Live(s.queueTill, e.user, e.now);
            && Truthful(s1, e.user, e.now, r)
            && (e.call == JoinCall ==> r.Ok?)
            && (e.call == HeartbeatCall || e.call == StatusCall ==> (if live then r.Ok? else r.NotInQueue?))
            && (e.call == SlotCall ==> s1 == s && r == Slot(e.user in s.active && Live(s.activeTill, e.user, e.now)))
  {
    hide Join, Heartbeat, Status, Leave, CheckSlot, Truthful;
    var limit := SlotLimit(e.maxActive);
    match e.call
    case JoinCall => JoinReply(s, e.user, limit, e.now, ttl);
    case HeartbeatCall => HeartbeatReply(s, e.user, limit, e.now, ttl);
    case StatusCall => StatusReply(s, e.user, limit, e.now, ttl);
    case LeaveCall => NotOk(Step(s, e, ttl).0, e.user, e.now, Left);
    case SlotCall =>
      NoGhostKey(s, e.user, e.now);
      NotOk(s, e.user, e.now, Step(s, e, ttl).1);
  }

  lemma NotOk(s: Room, u: User, now: Time, r: Reply)
    requires !r.Ok?
    ensures Truthful(s, u, now, r)
  {
  }

  /** The position a waiter is told never grows: two in-queue replies to the same
      user, with any kept-alive run in between and no seat in the meantime, have
      non-increasing positions. */
  lemma ReportedPositionNeverGrows(s: Room, e: Event, es: seq<Event>, f: Event, ttl: Ttl)
    requires Agreement(s, e.now) && ttl.Valid() && Timed(e.now, es + [f])
    requires e.call in {JoinCall, HeartbeatCall, StatusCall} && f.call in {JoinCall, HeartbeatCall, StatusCall}
    requires e.user == f.user
    requires var (s1, r) := Step(s, e, ttl);
             && r.Ok? && r.inQueue
             && KeptAlive(s1, es + [f], ttl, e.user) && !EverSeated(s1, es + [f], ttl, e.user)
    requires Step(Run(Step(s, e, ttl).0, es, ttl), f, ttl).1.Ok?
    requires Step(Run(Step(s, e, ttl).0, es, ttl), f, ttl).1.inQueue
    ensures var (s1, r) := Step(s, e, ttl);
            Step(Run(s1, es, ttl), f, ttl).1.position <= r.position
  {
    hide Step, Run, Timed, KeptAlive, EverSeated, Ahead, Agreement;
    var s1 := Step(s, e, ttl).0;
    StepKeeps(s, e, ttl);
    RepliesAgree(s, e, ttl);
    WaiterIsNotPassed(s1, e.now, es + [f], ttl, e.user);
    RunAppend(s1, es, f, ttl);
    TimedAppend(e.now, es, f);
    RunAgrees(s1, e.now, es, ttl);
    AgreementLasts(Run(s1, es, ttl), EndTime(e.now, es), f.now);
    RepliesAgree(Run(s1, es, ttl), f, ttl);
    SubsetSize(Ahead(Run(s1, es + [f], ttl), e.user), Ahead(s1, e.user));
  }

  lemma {:induction false} TimedAppend(start: Time, es: seq<Event>, f: Event)
    requires Timed(start, es + [f])
    ensures Timed(start, es) && EndTime(start, es) <= f.now
    decreases |es|
  {
    if es != [] {
      assert (es + [f])[1..] == es[1..] + [f];
      TimedAppend(es[0].now, es[1..], f);
    } else {
      assert es + [f] == [f];
    }
  }
}
