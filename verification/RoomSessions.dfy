/** Whose session an operation renews, and what it leaves of everybody else's. */
module RoomSessions {
  import opened WaitingRoom
  import opened Promotion
  import opened RoomInvariants

  /** One user's keys and memberships before and after an operation that is not
      the user's own: a live slot or place in line keeps its expiry, unless the
      place is traded for a slot of a full lifetime; nothing comes back to life. */
  ghost predicate Undisturbed(s: Room, s1: Room, v: User, now: Time, ttl: Ttl) {
    && (Live(s.activeTill, v, now) ==> v in s1.active && v in s1.activeTill && s1.activeTill[v] == s.activeTill[v])
    && (Live(s.queueTill, v, now) ==>
         || (v in s1.queue && v in s1.queueTill && s1.queueTill[v] == s.queueTill[v])
         || (v in s1.active && v in s1.activeTill && s1.activeTill[v] == now + ttl.script))
    && (!Live(s.activeTill, v, now) && !Live(s.queueTill, v, now) ==>
         !Live(s1.activeTill, v, now) && !Live(s1.queueTill, v, now))
  }

  lemma DrainUndisturbed(s: Room, limit: int, now: Time, ttl: Ttl, v: User)
    requires Agreement(s, now) && ttl.Valid()
    ensures Undisturbed(s, Drain(s, limit, now, ttl), v, now, ttl)
    ensures var s1 := Drain(s, limit, now, ttl);
            v in s1.active - s.active ==> v in s1.activeTill && s1.activeTill[v] == now + ttl.script
  {
    hide Drain, Promoted;
    DrainPointwise(s, limit, now, ttl, v);
    DrainTouchesNoOthers(s, limit, now, ttl, v);
  }

  lemma PruneUndisturbed(s: Room, limit: int, now: Time, ttl: Ttl, v: User)
    requires Agreement(s, now) && ttl.Valid()
    ensures Undisturbed(s, Prune(s, limit, now, ttl), v, now, ttl)
  {
    hide Drain;
    DropStaleKeeps(s, now);
    DrainUndisturbed(DropStale(s, now), limit, now, ttl, v);
  }

  lemma ScriptUndisturbed(s: Room, u: User, limit: int, now: Time, ttl: Ttl, v: User)
    requires Agreement(s, now) && AllSeatedLive(s, now) && ttl.Valid() && u != v
    ensures var s1 := JoinScript(s, u, limit, now, ttl).0;
            && (v in s1.active <==> v in s.active) && (v in s1.queue <==> v in s.queue)
            && (v in s1.activeTill <==> v in s.activeTill)
            && (v in s.activeTill ==> s1.activeTill[v] == s.activeTill[v])
            && (v in s1.queueTill <==> v in s.queueTill) && (v in s.queueTill ==> s1.queueTill[v] == s.queueTill[v])
  {
  }

  lemma PositionUndisturbed(s: Room, u: User, now: Time, v: User)
    requires Agreement(s, now) && u != v
    ensures var s1 := PositionAndSize(s, u, now).0;
            && s1.active == s.active && s1.activeTill == s.activeTill && s1.queueTill == s.queueTill
            && (v in s1.queue <==> v in s.queue)
  {
  }

  lemma JoinUndisturbed(s: Room, u: User, limit: int, now: Time, ttl: Ttl, v: User)
    requires Agreement(s, now) && ttl.Valid() && v != u
    ensures Undisturbed(s, Join(s, u, limit, now, ttl).0, v, now, ttl)
  {
    hide Prune, JoinScript, PositionAndSize;
    var p := Prune(s, limit, now, ttl);
    PruneKeeps(s, limit, now, ttl);
    PruneUndisturbed(s, limit, now, ttl, v);
    JoinScriptKeeps(p, u, limit, now, ttl);
    ScriptUndisturbed(p, u, limit, now, ttl, v);
    PositionUndisturbed(JoinScript(p, u, limit, now, ttl).0, u, now, v);
  }

  lemma HeartbeatUndisturbed(s: Room, u: User, limit: int, now: Time, ttl: Ttl, v: User)
    requires Agreement(s, now) && ttl.Valid() && v != u
    ensures Undisturbed(s, Heartbeat(s, u, limit, now, ttl).0, v, now, ttl)
  {
    hide Drain, PositionAndSize, CheckSlot;
    NoGhostKey(s, u, now);
    if !Live(s.activeTill, u, now) && Live(s.queueTill, u, now) {
      var s1 := s.(queueTill := s.queueTill[u := now + ttl.refresh]);
      DrainKeeps(s1, limit, now, ttl);
      DrainUndisturbed(s1, limit, now, ttl, v);
      PositionUndisturbed(Drain(s1, limit, now, ttl), u, now, v);
    }
  }

  lemma LeaveUndisturbed(s: Room, u: User, limit: int, now: Time, ttl: Ttl, v: User)
    requires Agreement(s, now) && ttl.Valid() && v != u
    ensures Undisturbed(s, Leave(s, u, limit, now, ttl), v, now, ttl)
  {
    hide Drain;
    DrainUndisturbed(Remove(s, u), limit, now, ttl, v);
  }

  lemma StatusUndisturbed(s: Room, u: User, limit: int, now: Time, ttl: Ttl, v: User)
    requires Agreement(s, now) && ttl.Valid() && v != u
    ensures Undisturbed(s, Status(s, u, limit, now, ttl).0, v, now, ttl)
  {
    hide Status, Prune, Drain, PositionAndSize;
    StatusDrainsOnce(s, u, limit, now, ttl);
    PruneKeeps(s, limit, now, ttl);
    PruneUndisturbed(s, limit, now, ttl, v);
    PositionUndisturbed(Prune(s, limit, now, ttl), u, now, v);
  }

  /** An operation of one user disturbs nobody else. */
  lemma OthersUndisturbed(s: Room, e: Event, ttl: Ttl, v: User)
    requires Agreement(s, e.now) && ttl.Valid() && v != e.user
    ensures Undisturbed(s, Step(s, e, ttl).0, v, e.now, ttl)
  {
    hide Join, Heartbeat, Leave, Status, CheckSlot;
    var limit := SlotLimit(e.maxActive);
    match e.call
    case JoinCall => JoinUndisturbed(s, e.user, limit, e.now, ttl, v);
    case HeartbeatCall => HeartbeatUndisturbed(s, e.user, limit, e.now, ttl, v);
    case LeaveCall => LeaveUndisturbed(s, e.user, limit, e.now, ttl, v);
    case StatusCall => StatusUndisturbed(s, e.user, limit, e.now, ttl, v);
    case SlotCall => NoGhostKey(s, e.user, e.now);
  }

  /** What an operation does to the caller's own sessions. */
  ghost predicate CallerServed(s: Room, e: Event, s1: Room, r: Reply, ttl: Ttl) {
    var u, now := e.user, e.now;
    match e.call
    case JoinCall =>
      && (r.Ok? && r.canEnter ==> u in s1.activeTill && s1.activeTill[u] == now + ttl.script)
      && (r.Ok? && r.inQueue ==> u in s1.queueTill && s1.queueTill[u] == now + ttl.script)
    case HeartbeatCall =>
      && (r.Ok? && r.canEnter ==>
           && u in s1.activeTill
           && s1.activeTill[u] == now + if Live(s.activeTill, u, now) then ttl.refresh else ttl.script)
      && (r.Ok? && r.inQueue ==> u in s1.queueTill && s1.queueTill[u] == now + ttl.refresh)
    case LeaveCall =>
      u !in s1.active && u !in s1.queue && u !in s1.activeTill && u !in s1.queueTill
    case StatusCall => Undisturbed(s, s1, u, now, ttl)
    case SlotCall => s1 == s
  }

  lemma JoinServes(s: Room, u: User, limit: int, now: Time, ttl: Ttl)
    requires Agreement(s, now) && ttl.Valid()
    ensures var (s1, r) := Join(s, u, limit, now, ttl);
            && (r.Ok? && r.canEnter ==> u in s1.activeTill && s1.activeTill[u] == now + ttl.script)
            && (r.Ok? && r.inQueue ==> u in s1.queueTill && s1.queueTill[u] == now + ttl.script)
  {
    hide Prune, Ahead;
    PruneKeeps(s, limit, now, ttl);
    JoinScriptKeeps(Prune(s, limit, now, ttl), u, limit, now, ttl);
  }

  lemma HeartbeatServes(s: Room, e: Event, ttl: Ttl)
    requires Agreement(s, e.now) && ttl.Valid() && e.call == HeartbeatCall
    ensures var (s1, r) := Step(s, e, ttl); CallerServed(s, e, s1, r, ttl)
  {
    hide Drain, CheckSlot, PositionAndSize;
    var limit, u, now := SlotLimit(e.maxActive), e.user, e.now;
    NoGhostKey(s, u, now);
    if !Live(s.activeTill, u, now) && Live(s.queueTill, u, now) {
      var s1 := s.(queueTill := s.queueTill[u := now + ttl.refresh]);
      DrainKeeps(s1, limit, now, ttl);
      DrainUndisturbed(s1, limit, now, ttl, u);
      DrainPointwise(s1, limit, now, ttl, u);
      PositionOwn(Drain(s1, limit, now, ttl), u, now);
    }
  }

  lemma PositionOwn(s: Room, u: User, now: Time)
    requires Agreement(s, now)
    ensures var (s1, r) := PositionAndSize(s, u, now);
            && s1.active == s.active && s1.activeTill == s.activeTill && s1.queueTill == s.queueTill
            && (r.Ok? && r.canEnter ==> Live(s.activeTill, u, now))
            && (r.Ok? && r.inQueue ==> Live(s.queueTill, u, now))
            && (Live(s.queueTill, u, now) ==> s1.queue == s.queue)
  {
  }

  lemma LeaveServes(s: Room, u: User, limit: int, now: Time, ttl: Ttl)
    requires s.active !! s.queue.Keys && ttl.Valid()
    ensures var s1 := Leave(s, u, limit, now, ttl);
            u !in s1.active && u !in s1.queue && u !in s1.activeTill && u !in s1.queueTill
  {
    hide Drain, Promoted;
    DrainPointwise(Remove(s, u), limit, now, ttl, u);
    DrainTouchesNoOthers(Remove(s, u), limit, now, ttl, u);
  }

  lemma CallerIsServed(s: Room, e: Event, ttl: Ttl)
    requires Agreement(s, e.now) && ttl.Valid()
    ensures var (s1, r) := Step(s, e, ttl); CallerServed(s, e, s1, r, ttl)
  {
    hide Join, Drain, Prune, PositionAndSize, CheckSlot, Leave, Status, Heartbeat;
    var limit, u, now := SlotLimit(e.maxActive), e.user, e.now;
    match e.call
    case JoinCall => JoinServes(s, u, limit, now, ttl);
    case HeartbeatCall => HeartbeatServes(s, e, ttl);
    case LeaveCall => LeaveServes(s, u, limit, now, ttl);
    case StatusCall =>
      StatusDrainsOnce(s, u, limit, now, ttl);
      PruneKeeps(s, limit, now, ttl);
      PruneUndisturbed(s, limit, now, ttl, u);
      PositionOwn(Prune(s, limit, now, ttl), u, now);
    case SlotCall => NoGhostKey(s, u, now);
  }
}
