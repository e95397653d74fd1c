/** The virtual queue service in front of the manager, for one showtime, and the
    gate that holding seats has to pass. */
module VirtualQueue {
  import opened WaitingRoom
  import opened Sets
  import opened RoomInvariants
  import opened RoomReplies
  import opened RoomOutcomes
  import opened QueueManager

  const DEFAULT_ACTIVE := 50
  const MAX_ACTIVE := 10000

  // The showtime row, as read at the start of every call.
  datatype Settings = Missing | Settings(enabled: bool, limit: int)

  datatype Answer =
    | Report(status: Reply)
    | Done
    | NotFound
    | Conflict   // the user was removed from the queue
    | Forbidden  // no live slot
    | Internal

  function Bypass(): Reply { Ok(0, 0, false, true) }

  function ClampActive(limit: int, fallback: int): (n: int)
    ensures 1 <= n <= 10_000
    ensures 1 <= limit <= 10_000 ==> n == limit
    ensures limit <= 0 && 1 <= fallback <= 10_000 ==> n == fallback
    ensures limit <= 0 && fallback <= 0 ==> n == 50
    ensures limit > 10_000 || (limit <= 0 && fallback > 10_000) ==> n == 10_000
  {
    var n := if limit <= 0 then fallback else limit;
    var n := if n <= 0 then DEFAULT_ACTIVE else n;
    if n > MAX_ACTIVE then MAX_ACTIVE else n
  }

  /** The gate bound: however a queue-enabled showtime with a fixed limit got to
      its present room, at any later instant the gate lets through at most the
      clamped limit of users. */
  lemma GateBound(start: Time, es: seq<Event>, limit: int, fallback: int, ttl: Ttl, now: Time)
    requires Timed(start, es) && ttl.Valid() && EndTime(start, es) <= now
    requires forall i :: 0 <= i < |es| ==> es[i].maxActive == ClampActive(limit, fallback)
    ensures var s := Run(EMPTY, es, ttl);
            |set u | u in s.active && u in s.activeTill && now < s.activeTill[u]|
            <= ClampActive(limit, fallback) <= 10_000
  {
    hide Run;
    ReachablePacked(start, es, ClampActive(limit, fallback), ttl);
    var s := Run(EMPTY, es, ttl);
    SubsetSize((set u | u in s.active && u in s.activeTill && now < s.activeTill[u]), s.active);
  }

  class VirtualQueueService {
    const manager: Manager
    const fallback: int
    var settings: Settings

    constructor (manager: Manager, fallbackActiveLimit: int, settings: Settings)
      ensures this.manager == manager && this.settings == settings
      ensures fallback == (if fallbackActiveLimit <= 0 then 50 else fallbackActiveLimit)
    {
      this.manager := manager;
      this.fallback := if fallbackActiveLimit <= 0 then DEFAULT_ACTIVE else fallbackActiveLimit;
      this.settings := settings;
    }

    /** The manager call a request becomes while the queue is enabled. */
    function Request(call: Call, u: User, now: Time): (e: Event)
      reads this
      requires settings.Settings?
      ensures e.call == call && e.user == u && e.now == now && 1 <= e.maxActive <= 10_000
      ensures 1 <= settings.limit <= 10_000 ==> e.maxActive == settings.limit
      ensures settings.limit > 10_000 ==> e.maxActive == 10_000
      ensures settings.limit <= 0 && 1 <= fallback <= 10_000 ==> e.maxActive == fallback
      ensures settings.limit <= 0 && fallback > 10_000 ==> e.maxActive == 10_000
      ensures settings.limit <= 0 && fallback <= 0 ==> e.maxActive == 50
    {
      Event(call, u, ClampActive(settings.limit, fallback), now)
    }

    /** The manager's step on the room and its reply as an answer. */
    function Outcome(s: Room, call: Call, u: User, now: Time): (Room, Answer)
      reads this
      requires settings.Settings? && 0 < manager.ttl
    {
      var (s1, r) := Step(s, Request(call, u, now), manager.Times());
      (s1, if r == NotInQueue then Conflict else Report(r))
    }

    predicate Queueing()
      reads this
    {
      settings.Settings? && settings.enabled
    }

    method Join(u: User, now: Time) returns (a: Answer)
      requires manager.Valid(now)
      modifies manager
      ensures manager.Valid(now)
      ensures !Queueing() ==> manager.Keys() == old(manager.Keys())
      ensures !Queueing() ==> a == if settings.Missing? then NotFound else Report(Ok(0, 0, false, true))
      ensures Queueing() ==> (manager.Keys(), a) == Outcome(old(manager.Keys()), JoinCall, u, now)
      ensures Queueing() ==> a == Report(Step(old(manager.Keys()), Request(JoinCall, u, now), manager.Times()).1)
    {
      hide Step;
      if settings.Missing? { return NotFound; }
      if !settings.enabled { return Report(Bypass()); }
      RepliesAgree(manager.Keys(), Request(JoinCall, u, now), manager.Times());
      var r := manager.Join(u, ClampActive(settings.limit, fallback), now);
      a := if r.Ok? then Report(r) else Internal;
    }

    method Heartbeat(u: User, now: Time) returns (a: Answer)
      requires manager.Valid(now)
      modifies manager
      ensures manager.Valid(now)
      ensures !Queueing() ==> manager.Keys() == old(manager.Keys())
      ensures !Queueing() ==> a == if settings.Missing? then NotFound else Report(Ok(0, 0, false, true))
      ensures Queueing() ==> (manager.Keys(), a) == Outcome(old(manager.Keys()), HeartbeatCall, u, now)
      ensures var s := old(manager.Keys());
              Queueing() ==>
                if Holder(s, u, now) || InLine(s, u, now)
                then a == Report(Step(s, Request(HeartbeatCall, u, now), manager.Times()).1)
                else a == Conflict
    {
      hide Step;
      if settings.Missing? { return NotFound; }
      if !settings.enabled { return Report(Bypass()); }
      AnswersExactly(manager.Keys(), Request(HeartbeatCall, u, now), manager.Times());
      var r := manager.Heartbeat(u, ClampActive(settings.limit, fallback), now);
      a := if r == NotInQueue then Conflict else Report(r);
    }

    method Status(u: User, now: Time) returns (a: Answer)
      requires manager.Valid(now)
      modifies manager
      ensures manager.Valid(now)
      ensures !Queueing() ==> manager.Keys() == old(manager.Keys())
      ensures !Queueing() ==> a == if settings.Missing? then NotFound else Report(Ok(0, 0, false, true))
      ensures Queueing() ==> (manager.Keys(), a) == Outcome(old(manager.Keys()), StatusCall, u, now)
      ensures var s := old(manager.Keys());
              Queueing() ==>
                if Holder(s, u, now) || InLine(s, u, now)
                then a == Report(Step(s, Request(StatusCall, u, now), manager.Times()).1)
                else a == Conflict
    {
      hide Step;
      if settings.Missing? { return NotFound; }
      if !settings.enabled { return Report(Bypass()); }
      AnswersExactly(manager.Keys(), Request(StatusCall, u, now), manager.Times());
      var r := manager.Status(u, ClampActive(settings.limit, fallback), now);
      a := if r == NotInQueue then Conflict else Report(r);
    }

    method Leave(u: User, now: Time) returns (a: Answer)
      requires manager.Valid(now)
      modifies manager
      ensures manager.Valid(now)
      ensures a == if settings.Missing? then NotFound else Done
      ensures !Queueing() ==> manager.Keys() == old(manager.Keys())
      ensures Queueing() ==> manager.Keys() == Step(old(manager.Keys()), Request(LeaveCall, u, now), manager.Times()).0
    {
      hide Step;
      if settings.Missing? { return NotFound; }
      if !settings.enabled { return Done; }
      manager.Leave(u, ClampActive(settings.limit, fallback), now);
      a := Done;
    }

    method RequireActiveBookingRoom(u: User, now: Time) returns (a: Answer)
      requires manager.Valid(now)
      modifies manager
      ensures manager.Valid(now) && manager.Keys() == old(manager.Keys())
      ensures settings.Missing? ==> a == NotFound
      ensures settings.Settings? ==> a in {Done, Forbidden}
      ensures Queueing() ==>
                (a == Done <==> u in manager.active && u in manager.activeTill && now < manager.activeTill[u])
      ensures settings.Settings? && !settings.enabled ==> a == Done
    {
      if settings.Missing? { return NotFound; }
      if !settings.enabled { return Done; }
      var active := manager.HasActiveSession(u, now);
      a := if active then Done else Forbidden;
    }
  }
}
