/** The queue manager, restricted to the keys of one showtime.  Every method is
    the body that runs under the showtime's operation lock, at one instant `now`. */
module QueueManager {
  import opened WaitingRoom
  import opened Sets
  import opened Promotion
  import opened RoomInvariants
  import opened RoomReplies
  import opened RoomOutcomes
  import opened RoomSessions

  const SECOND: Time := 1_000_000

  /** Session lifetimes in whole seconds: the scripts get ttl / second with a
      default of 30, EXPIRE rounds down but never below one second. */
  function Lifetimes(ttl: Time): (t: Ttl)
    requires 0 < ttl
    ensures 1_000_000 <= ttl ==> t.script == t.refresh == ttl - ttl % 1_000_000
    ensures ttl < 1_000_000 ==> t == Ttl(30_000_000, 1_000_000)
  {
    var whole := ttl / SECOND;
    Ttl(if whole < 1 then 30 * SECOND else whole * SECOND, if whole < 1 then SECOND else whole * SECOND)
  }

  lemma DropQueue(q: map<User, Time>, sessions: map<User, Time>, stale: set<User>, now: Time)
    requires stale == set u | u in q.Keys && !Live(sessions, u, now)
    ensures (if |stale| > 0 then q - stale else q) == map u | u in q && Live(sessions, u, now) :: q[u]
  {
    if |stale| == 0 { assert forall u :: u in q ==> u !in stale; }
  }

  lemma DropActive(members: set<User>, sessions: map<User, Time>, stale: set<User>, now: Time)
    requires stale == set u | u in members && !Live(sessions, u, now)
    ensures (if |stale| > 0 then members - stale else members) == set u | u in members && Live(sessions, u, now)
  {
    if |stale| == 0 { assert forall u :: u in members ==> u !in stale; }
  }

  lemma DropStaleParts(s: Room, now: Time)
    ensures DropStale(s, now) == Room(
              set u | u in s.active && Live(s.activeTill, u, now),
              map u | u in s.queue && Live(s.queueTill, u, now) :: s.queue[u],
              s.activeTill, s.queueTill)
  {
  }

  class Manager {
    var active: set<User>
    var queue: map<User, Time>
    var activeTill: map<User, Time>
    var queueTill: map<User, Time>
    const ttl: Time

    function Keys(): Room
      reads this
    {
      Room(active, queue, activeTill, queueTill)
    }

    function Times(): Ttl
      requires 0 < ttl
    {
      Lifetimes(ttl)
    }

    /** The invariant of the keys; it survives the passing of time. */
    ghost predicate Valid(now: Time)
      reads this
    {
      0 < ttl && Agreement(Keys(), now)
    }

    constructor (ttl: Time)
      ensures this.ttl == (if ttl <= 0 then 30_000_000 else ttl)
      ensures Keys() == EMPTY && forall now :: Valid(now)
    {
      this.ttl := if ttl <= 0 then 30 * SECOND else ttl;
      active, queue, activeTill, queueTill := {}, map[], map[], map[];
    }

    /** ZRANGE members 0 0 */
    method FirstMember() returns (m: User)
      requires queue != map[]
      ensures Head(Keys(), m)
    {
      ghost var some := Pick(queue.Keys);
      m :| m in queue;
      var rest := queue.Keys - {m};
      while rest != {}
        invariant m in queue && rest <= queue.Keys
        invariant forall v :: v in queue && v !in rest && v != m ==> Before(queue, m, v)
        decreases |rest|
      {
        ghost var other := Pick(rest);
        var v :| v in rest;
        Without(rest, v);
        rest := rest - {v};
        if v != m && !Before(queue, m, v) {
          m := v;
        }
      }
    }

    method DrainPromotionLoop(maxActive: int, now: Time)
      requires 0 < ttl && active !! queue.Keys
      modifies this
      ensures Keys() == Drain(old(Keys()), SlotLimit(maxActive), now, Times())
    {
      hide Drain;
      var sent := if maxActive < 1 then 1 else maxActive;
      var limit := if sent < 1 then 50 else sent;
      while true
        invariant active !! queue.Keys
        invariant Drain(Keys(), limit, now, Times()) == Drain(old(Keys()), limit, now, Times())
        decreases |queue.Keys|
      {
        if |active| >= limit || queue == map[] {
          DrainIdle(Keys(), limit, now, Times());
          break;
        }
        var m := FirstMember();
        DrainTakesHead(Keys(), m, limit, now, Times());
        Without(queue.Keys, m);
        ghost var next := TakeHead(Keys(), m, now, Times());
        if !Live(queueTill, m, now) {
          queue := queue - {m};
        } else {
          activeTill := activeTill[m := now + Times().script];
          active := active + {m};
          queue := queue - {m};
          queueTill := queueTill - {m};
        }
        assert Keys() == next;
      }
    }

    method StaleMembers(members: set<User>, sessions: map<User, Time>, now: Time) returns (stale: set<User>)
      ensures stale == set u | u in members && !Live(sessions, u, now)
    {
      stale := {};
      var rest := members;
      while rest != {}
        invariant rest <= members
        invariant stale == set u | u in members && u !in rest && !Live(sessions, u, now)
        decreases |rest|
      {
        ghost var some := Pick(rest);
        var u :| u in rest;
        Without(rest, u);
        rest := rest - {u};
        if !Live(sessions, u, now) {
          stale := stale + {u};
        }
      }
    }

    method PruneExpired(maxActive: int, now: Time)
      requires Valid(now)
      modifies this
      ensures Keys() == Prune(old(Keys()), SlotLimit(maxActive), now, Times())
    {
      hide Drain, DropStale;
      DropStaleKeeps(Keys(), now);
      var staleQueue := StaleMembers(queue.Keys, queueTill, now);
      DropQueue(queue, queueTill, staleQueue, now);
      if |staleQueue| > 0 {
        queue := queue - staleQueue;
      }
      var staleActive := StaleMembers(active, activeTill, now);
      DropActive(active, activeTill, staleActive, now);
      if |staleActive| > 0 {
        active := active - staleActive;
      }
      assert Keys() == DropStale(old(Keys()), now) by {
        DropStaleParts(old(Keys()), now);
      }
      DrainPromotionLoop(maxActive, now);
    }

    method UserHasLegitimateActiveSlot(u: User, now: Time) returns (inRoom: bool)
      modifies this
      ensures (Keys(), inRoom) == CheckSlot(old(Keys()), u, now)
      ensures active == old(active) && queue == old(queue) && queueTill == old(queueTill)
      ensures inRoom <==> u in active && u in old(activeTill) && now < old(activeTill)[u]
      ensures activeTill == old(activeTill) -
                if !inRoom && u in old(activeTill) && now < old(activeTill)[u] then {u} else {}
    {
      if !Live(activeTill, u, now) {
        return false;
      }
      if u !in active {
        activeTill := activeTill - {u};
        return false;
      }
      return true;
    }

    method ReportPosition(u: User, now: Time) returns (r: Reply)
      modifies this
      ensures (Keys(), r) == PositionAndSize(old(Keys()), u, now)
      ensures active == old(active) && queueTill == old(queueTill)
      ensures var seated, waits := u in active && u in old(activeTill) && now < old(activeTill)[u],
                                   u in queueTill && now < queueTill[u];
              && queue == old(queue) - (if seated || waits then {} else {u})
              && r == if seated then Ok(0, |queue|, false, true)
                      else if waits && u in queue then Ok(1 + |EntriesBefore(Keys(), u)|, |queue|, true, false)
                      else NotInQueue
    {
      var inRoom := UserHasLegitimateActiveSlot(u, now);
      if inRoom {
        return Ok(0, |queue|, false, true);
      }
      if !Live(queueTill, u, now) {
        queue := queue - {u};
        return NotInQueue;
      }
      if u !in queue {
        return NotInQueue;
      }
      assert Ahead(Keys(), u) == EntriesBefore(Keys(), u);
      var rank := |Ahead(Keys(), u)|;
      return Ok(rank + 1, |queue|, true, false);
    }

    method RunJoinScript(u: User, maxActive: int, now: Time) returns (tag: Tag)
      requires 0 < ttl
      modifies this
      ensures (Keys(), tag) == JoinScript(old(Keys()), u, SlotLimit(maxActive), now, Times())
      ensures var live := u in old(activeTill) && now < old(activeTill)[u];
              && (tag == ActiveRefresh <==> live && u in old(active))
              && (tag == ActiveNew <==> tag != ActiveRefresh && |old(active)| < Max(maxActive, 1))
              && active == old(active) + (if tag == ActiveNew then {u} else {})
              && activeTill == (if tag == Queued then old(activeTill) - (if live then {u} else {})
                                else old(activeTill)[u := now + Times().script])
      ensures match tag
              case ActiveRefresh => queue == old(queue) && queueTill == old(queueTill)
              case ActiveNew => queue == old(queue) - {u} && queueTill == old(queueTill) - {u}
              case Queued =>
                && queue == map[u := now] + old(queue)
                && queueTill == old(queueTill)[u := now + Times().script]
    {
      var sent := if maxActive < 1 then 1 else maxActive;
      var limit := if sent < 1 then 50 else sent;
      if Live(activeTill, u, now) {
        if u in active {
          activeTill := activeTill[u := now + Times().script];
          return ActiveRefresh;
        }
        activeTill := activeTill - {u};
      }
      if |active| < limit {
        activeTill := activeTill[u := now + Times().script];
        active := active + {u};
        queue := queue - {u};
        queueTill := queueTill - {u};
        return ActiveNew;
      }
      queueTill := queueTill[u := now + Times().script];
      if u !in queue {
        queue := queue[u := now];
      }
      return Queued;
    }

    method Join(u: User, maxActive: int, now: Time) returns (r: Reply)
      requires Valid(now)
      modifies this
      ensures (Keys(), r) == Step(old(Keys()), Event(JoinCall, u, maxActive, now), Times())
      ensures Valid(now)
      ensures r.Ok? && 1_000_000 <= ttl ==>
                if r.canEnter then u in activeTill && activeTill[u] == now + ttl - ttl % 1_000_000
                else u in queueTill && queueTill[u] == now + ttl - ttl % 1_000_000
    {
      hide Prune, JoinScript, PositionAndSize;
      CallerIsServed(Keys(), Event(JoinCall, u, maxActive, now), Times());
      RepliesAgree(Keys(), Event(JoinCall, u, maxActive, now), Times());
      StepKeeps(Keys(), Event(JoinCall, u, maxActive, now), Times());
      PruneExpired(maxActive, now);
      var tag := RunJoinScript(u, maxActive, now);
      var totalWaiting := |queue|;
      if tag == Queued {
        r := ReportPosition(u, now);
      } else {
        r := Ok(0, totalWaiting, false, true);
      }
    }

    method Heartbeat(u: User, maxActive: int, now: Time) returns (r: Reply)
      requires Valid(now)
      modifies this
      ensures (Keys(), r) == Step(old(Keys()), Event(HeartbeatCall, u, maxActive, now), Times())
      ensures Valid(now)
      ensures r.Ok? && 1_000_000 <= ttl ==>
                if r.canEnter then u in activeTill && activeTill[u] == now + ttl - ttl % 1_000_000
                else u in queueTill && queueTill[u] == now + ttl - ttl % 1_000_000
    {
      hide Drain, CheckSlot, PositionAndSize;
      CallerIsServed(Keys(), Event(HeartbeatCall, u, maxActive, now), Times());
      RepliesAgree(Keys(), Event(HeartbeatCall, u, maxActive, now), Times());
      StepKeeps(Keys(), Event(HeartbeatCall, u, maxActive, now), Times());
      NoGhostKey(Keys(), u, now);
      var inRoom := UserHasLegitimateActiveSlot(u, now);
      if inRoom {
        activeTill := activeTill[u := now + Times().refresh];
        return Ok(0, |queue|, false, true);
      }
      if !Live(queueTill, u, now) {
        queue := queue - {u};
        return NotInQueue;
      }
      queueTill := queueTill[u := now + Times().refresh];
      DrainPromotionLoop(maxActive, now);
      r := ReportPosition(u, now);
    }

    method Leave(u: User, maxActive: int, now: Time)
      requires Valid(now)
      modifies this
      ensures (Keys(), Left) == Step(old(Keys()), Event(LeaveCall, u, maxActive, now), Times())
      ensures Valid(now)
    {
      hide Drain;
      StepKeeps(Keys(), Event(LeaveCall, u, maxActive, now), Times());
      queueTill := queueTill - {u};
      queue := queue - {u};
      activeTill := activeTill - {u};
      active := active - {u};
      DrainPromotionLoop(maxActive, now);
    }

    method Status(u: User, maxActive: int, now: Time) returns (r: Reply)
      requires Valid(now)
      modifies this
      ensures (Keys(), r) == Step(old(Keys()), Event(StatusCall, u, maxActive, now), Times())
      ensures Valid(now)
    {
      hide Prune, Drain, PositionAndSize;
      StepKeeps(Keys(), Event(StatusCall, u, maxActive, now), Times());
      PruneKeeps(Keys(), SlotLimit(maxActive), now, Times());
      PruneExpired(maxActive, now);
      NoGhostKey(Keys(), u, now);
      var inRoom := UserHasLegitimateActiveSlot(u, now);
      if inRoom {
        return Ok(0, |queue|, false, true);
      }
      DrainPromotionLoop(maxActive, now);
      r := ReportPosition(u, now);
    }

    method HasActiveSession(u: User, now: Time) returns (inRoom: bool)
      requires Valid(now)
      modifies this
      ensures Keys() == old(Keys()) && Valid(now)
      ensures inRoom <==> u in active && u in activeTill && now < activeTill[u]
    {
      NoGhostKey(Keys(), u, now);
      inRoom := UserHasLegitimateActiveSlot(u, now);
    }
  }
}
