/** The lock that serializes the operations of one showtime: a key set with NX and
    a 15 s lifetime, deleted unconditionally on the way out.  Any number of
    requests interleave; each runs a list of atomic steps on the room while it is
    inside. */
module OpLock {
  import opened Wrappers
  import opened WaitingRoom
  import opened RoomInvariants

  type Request = nat
  type Action = Room -> Room

  const LOCK_TTL: Time := 15_000_000
  const PATIENCE: Time := 3_000_000

  // A request inside the section: when it entered and what it has still to do.
  datatype Visit = Visit(since: Time, program: seq<Action>, done: nat)

  datatype System = System(
    room: Room,
    key: Option<Time>,          // the expiry of the lock key, if it is set
    inside: map<Request, Visit>,
    finished: seq<seq<Action>>) // history: the programs completed, in order

  datatype Move =
    | Enter(program: seq<Action>)  // one SET NX attempt; it may fail
    | Act                          // the next atomic step of the program
    | Exit                         // the deferred DEL

  datatype LockEvent = LockEvent(who: Request, move: Move, now: Time)

  predicate Held(key: Option<Time>, now: Time) { key.Some? && now < key.value }

  function Perform(room: Room, program: seq<Action>): Room
    decreases |program|
  {
    if program == [] then room else program[|program| - 1](Perform(room, program[..|program| - 1]))
  }

  function PerformAll(room: Room, programs: seq<seq<Action>>): Room
    decreases |programs|
  {
    if programs == [] then room else Perform(PerformAll(room, programs[..|programs| - 1]), programs[|programs| - 1])
  }

  /** A request enters only from outside, acts only inside while it has steps left,
      and exits when its program is done. */
  ghost predicate Enabled(s: System, e: LockEvent) {
    match e.move
    case Enter(_) => e.who !in s.inside
    case Act => e.who in s.inside && s.inside[e.who].done < |s.inside[e.who].program|
    case Exit => e.who in s.inside && s.inside[e.who].done == |s.inside[e.who].program|
  }

  function Step(s: System, e: LockEvent): System {
    match e.move
    case Enter(program) =>
      if Held(s.key, e.now) then s
      else s.(key := Some(e.now + LOCK_TTL), inside := s.inside[e.who := Visit(e.now, program, 0)])
    case Act =>
      if e.who in s.inside && s.inside[e.who].done < |s.inside[e.who].program| then
        var v := s.inside[e.who];
        s.(room := v.program[v.done](s.room), inside := s.inside[e.who := v.(done := v.done + 1)])
      else s
    case Exit =>
      if e.who in s.inside then
        s.(key := None, inside := s.inside - {e.who}, finished := s.finished + [s.inside[e.who].program])
      else s
  }

  /** Every critical section is over before its key would lapse. */
  ghost predicate Prompt(s: System, now: Time) {
    forall r :: r in s.inside ==> s.inside[r].since <= now < s.inside[r].since + LOCK_TTL
  }

  ghost predicate GoodRun(s: System, es: seq<LockEvent>)
    decreases |es|
  {
    es == [] || (Prompt(s, es[0].now) && Enabled(s, es[0]) && GoodRun(Step(s, es[0]), es[1..]))
  }

  function Run(s: System, es: seq<LockEvent>): System
    decreases |es|
  {
    if es == [] then s else Run(Step(s, es[0]), es[1..])
  }

  function Idle(room: Room): System { System(room, None, map[], []) }

  /** At most one request is inside, the key is its own, and the room is what the
      finished programs made of it, one after the other, followed by the part of
      the visitor's program that is done. */
  ghost predicate Serial(s: System, room: Room) {
    var base := PerformAll(room, s.finished);
    if s.inside == map[] then s.key == None && s.room == base
    else exists r :: OnlyVisitor(s, r, base)
  }

  ghost predicate OnlyVisitor(s: System, r: Request, base: Room) {
    && r in s.inside && s.inside.Keys == {r}
    && s.key == Some(s.inside[r].since + LOCK_TTL)
    && s.inside[r].done <= |s.inside[r].program|
    && s.room == Perform(base, s.inside[r].program[..s.inside[r].done])
  }

  lemma BusyKeyIsLive(s: System, now: Time, room: Room)
    requires Serial(s, room) && Prompt(s, now) && s.inside != map[]
    ensures Held(s.key, now)
  {
    var r :| OnlyVisitor(s, r, PerformAll(room, s.finished));
    assert s.inside[r].since <= now < s.inside[r].since + LOCK_TTL;
  }

  lemma StepKeepsSerial(s: System, e: LockEvent, room: Room)
    requires Serial(s, room) && Prompt(s, e.now) && Enabled(s, e)
    ensures Serial(Step(s, e), room)
  {
    var base := PerformAll(room, s.finished);
    var s1 := Step(s, e);
    match e.move
    case Enter(program) =>
      if s.inside != map[] {
        BusyKeyIsLive(s, e.now, room);
      } else {
        assert OnlyVisitor(s1, e.who, base);
      }
    case Act =>
      var r :| OnlyVisitor(s, r, base);
      assert r == e.who;
      var v := s.inside[r];
      assert v.program[..v.done + 1][..v.done] == v.program[..v.done];
      assert OnlyVisitor(s1, r, base);
    case Exit =>
      var r :| OnlyVisitor(s, r, base);
      assert r == e.who;
      assert s1.inside == map[];
      var v := s.inside[r];
      assert v.program[..v.done] == v.program;
      assert s1.finished[..|s1.finished| - 1] == s.finished;
  }

  lemma {:induction false} RunIsSerial(s: System, es: seq<LockEvent>, room: Room)
    requires Serial(s, room) && GoodRun(s, es)
    ensures Serial(Run(s, es), room)
    decreases |es|
  {
    hide Serial, Step;
    if es != [] {
      StepKeepsSerial(s, es[0], room);
      RunIsSerial(Step(s, es[0]), es[1..], room);
    }
  }

  /** Mutual exclusion: however many requests interleave, two are never inside
      together, and the key that is set belongs to the one inside, so a delete
      removes the deleter's own key. */
  lemma AtMostOneInside(room: Room, es: seq<LockEvent>, r1: Request, r2: Request)
    requires GoodRun(Idle(room), es)
    requires r1 in Run(Idle(room), es).inside && r2 in Run(Idle(room), es).inside
    ensures r1 == r2
    ensures Run(Idle(room), es).key == Some(Run(Idle(room), es).inside[r1].since + LOCK_TTL)
  {
    hide Run, GoodRun;
    RunIsSerial(Idle(room), es, room);
  }

  /** Atomicity: what a request finds when it gets in is the outcome of whole
      programs only, never of a part of one. */
  lemma EntersBetweenPrograms(room: Room, es: seq<LockEvent>, e: LockEvent)
    requires GoodRun(Idle(room), es)
    requires var s := Run(Idle(room), es);
             Prompt(s, e.now) && Enabled(s, e) && e.move.Enter? && e.who in Step(s, e).inside
    ensures var s := Run(Idle(room), es);
            s.inside == map[] && s.room == PerformAll(room, s.finished) && Step(s, e).room == s.room
  {
    hide Run, GoodRun;
    RunIsSerial(Idle(room), es, room);
    var s := Run(Idle(room), es);
    if s.inside != map[] {
      BusyKeyIsLive(s, e.now, room);
    }
  }

  /** Exactly when mutual exclusion fails: a second request gets in iff it tries once
      the key of the one inside has lapsed. */
  lemma SecondEntersOnceLapsed(s: System, e: LockEvent, r: Request, room: Room)
    requires Serial(s, room) && r in s.inside && e.move.Enter? && e.who !in s.inside
    ensures e.who in Step(s, e).inside <==> s.inside[r].since + 15_000_000 <= e.now
  {
    var v :| OnlyVisitor(s, v, PerformAll(room, s.finished));
    assert r == v;
  }

  /** The time limit is needed: a section that outlives its key lets a second
      request in, and its late delete then removes the other one's key. */
  lemma OverstayingBreaksTheLock(room: Room)
    ensures var es := [LockEvent(1, Enter([]), 0), LockEvent(2, Enter([]), LOCK_TTL)];
            var s := Run(Idle(room), es);
            && 1 in s.inside && 2 in s.inside
            && Step(s, LockEvent(1, Exit, LOCK_TTL)).key == None
            && 2 in Step(s, LockEvent(1, Exit, LOCK_TTL)).inside
  {
    var es := [LockEvent(1, Enter([]), 0), LockEvent(2, Enter([]), LOCK_TTL)];
    var s1 := Step(Idle(room), es[0]);
    var s2 := Step(s1, es[1]);
    assert es[1..] == [es[1]];
    assert Run(s1, es[1..]) == Run(s2, es[1..][1..]);
    assert 1 in s1.inside && 1 in s2.inside;
  }

  // ---------- requests as operations of the waiting room ----------

  /** The steps of the program add up to the operation. */
  ghost predicate Performs(program: seq<Action>, e: WaitingRoom.Event, ttl: Ttl) {
    forall s :: Perform(s, program) == WaitingRoom.Step(s, e, ttl).0
  }

  lemma {:induction false} ProgramsAreARun(
      room: Room, programs: seq<seq<Action>>, events: seq<WaitingRoom.Event>, ttl: Ttl)
    requires |programs| == |events|
    requires forall i :: 0 <= i < |programs| ==> Performs(programs[i], events[i], ttl)
    ensures PerformAll(room, programs) == WaitingRoom.Run(room, events, ttl)
    decreases |programs|
  {
    hide WaitingRoom.Step;
    if programs != [] {
      var n := |programs| - 1;
      ProgramsAreARun(room, programs[..n], events[..n], ttl);
      assert Performs(programs[n], events[n], ttl);
      assert events[..n] + [events[n]] == events;
      RunAppend(room, events[..n], events[n], ttl);
    }
  }

  /** Serializability: whenever nobody is inside, the interleaved requests have left
      the room that a run of their operations, one after the other, leaves; so what
      holds of reachable rooms holds of it. */
  lemma InterleavingIsARun(es: seq<LockEvent>, events: seq<WaitingRoom.Event>, ttl: Ttl)
    requires GoodRun(Idle(EMPTY), es) && Run(Idle(EMPTY), es).inside == map[]
    requires var finished := Run(Idle(EMPTY), es).finished;
             |finished| == |events| && forall i :: 0 <= i < |events| ==> Performs(finished[i], events[i], ttl)
    ensures Run(Idle(EMPTY), es).room == WaitingRoom.Run(EMPTY, events, ttl)
  {
    hide Run, GoodRun, Performs, WaitingRoom.Run;
    RunIsSerial(Idle(EMPTY), es, EMPTY);
    ProgramsAreARun(EMPTY, Run(Idle(EMPTY), es).finished, events, ttl);
  }

  /** ... for one: capacity and work conservation under a constant limit. */
  lemma InterleavingIsPacked(es: seq<LockEvent>, events: seq<WaitingRoom.Event>, start: Time, limit: int, ttl: Ttl)
    requires GoodRun(Idle(EMPTY), es) && Run(Idle(EMPTY), es).inside == map[]
    requires var finished := Run(Idle(EMPTY), es).finished;
             |finished| == |events| && forall i :: 0 <= i < |events| ==> Performs(finished[i], events[i], ttl)
    requires Timed(start, events) && ConstantLimit(events, limit) && 1 <= limit && ttl.Valid()
    ensures var s := Run(Idle(EMPTY), es).room; |s.active| <= limit && (|s.queue| > 0 ==> |s.active| == limit)
  {
    hide Run, GoodRun, Performs, WaitingRoom.Run, Timed, ConstantLimit;
    InterleavingIsARun(es, events, ttl);
    ReachablePacked(start, events, limit, ttl);
  }

  // ---------- the programs of the five calls ----------

  /** The Heartbeat's EXPIRE, of whichever session is there, or its ZREM. */
  function Renew(s: Room, u: User, now: Time, ttl: Ttl): Room {
    if Live(s.activeTill, u, now) then s.(activeTill := s.activeTill[u := now + ttl.refresh])
    else if Live(s.queueTill, u, now) then s.(queueTill := s.queueTill[u := now + ttl.refresh])
    else s.(queue := s.queue - {u})
  }

  /** The refill a Heartbeat makes for a user in line, and a Status for any user
      that is not seated. */
  function Refill(s: Room, u: User, limit: int, now: Time, ttl: Ttl, anybody: bool): Room {
    if Live(s.activeTill, u, now) || !(anybody || Live(s.queueTill, u, now)) then s else Drain(s, limit, now, ttl)
  }

  /** The round trips of a call, each one atomic.  Reading the position deletes keys
      only where there is nothing to find, so it is the last step even of the
      replies that do not need it. */
  function Program(e: WaitingRoom.Event, ttl: Ttl): seq<Action> {
    var u, limit, now := e.user, SlotLimit(e.maxActive), e.now;
    match e.call
    case JoinCall => [
      s => DropStale(s, now),
      s => Drain(s, limit, now, ttl),
      s => JoinScript(s, u, limit, now, ttl).0,
      s => Reread(s, u, now)]
    case HeartbeatCall => [
      s => CheckSlot(s, u, now).0,
      s => Renew(s, u, now, ttl),
      s => Refill(s, u, limit, now, ttl, false),
      s => Reread(s, u, now)]
    case LeaveCall => [
      s => Remove(s, u),
      s => Drain(s, limit, now, ttl)]
    case StatusCall => [
      s => DropStale(s, now),
      s => Drain(s, limit, now, ttl),
      s => CheckSlot(s, u, now).0,
      s => Refill(s, u, limit, now, ttl, true),
      s => Reread(s, u, now)]
    case SlotCall => [s => CheckSlot(s, u, now).0]
  }

  function Reread(s: Room, u: User, now: Time): Room { PositionAndSize(s, u, now).0 }

  /** What a program of up to five steps does. */
  lemma PerformAtOnce(s: Room, program: seq<Action>)
    ensures |program| == 1 ==> Perform(s, program) == program[0](s)
    ensures |program| == 2 ==> Perform(s, program) == program[1](program[0](s))
    ensures |program| == 4 ==> Perform(s, program) == program[3](program[2](program[1](program[0](s))))
    ensures |program| == 5 ==> Perform(s, program) == program[4](program[3](program[2](program[1](program[0](s)))))
  {
    for i := 0 to |program|
      invariant Perform(s, program[..0]) == s
      invariant i > 0 ==> Perform(s, program[..1]) == program[0](s)
      invariant i > 1 ==> Perform(s, program[..2]) == program[1](Perform(s, program[..1]))
      invariant i > 2 ==> Perform(s, program[..3]) == program[2](Perform(s, program[..2]))
      invariant i > 3 ==> Perform(s, program[..4]) == program[3](Perform(s, program[..3]))
      invariant i > 4 ==> Perform(s, program[..5]) == program[4](Perform(s, program[..4]))
    {
      assert program[..i + 1][..i] == program[..i];
    }
    assert program[..|program|] == program;
  }

  lemma JoinPerforms(s: Room, u: User, limit: int, now: Time, ttl: Ttl)
    requires ttl.Valid()
    ensures Reread(JoinScript(Prune(s, limit, now, ttl), u, limit, now, ttl).0, u, now) == Join(s, u, limit, now, ttl).0
  {
    hide Prune, Ahead;
    SeatedRereads(Prune(s, limit, now, ttl), u, limit, now, ttl);
  }

  /** After a join that seats its user, reading the position changes nothing. */
  lemma SeatedRereads(s: Room, u: User, limit: int, now: Time, ttl: Ttl)
    requires ttl.Valid()
    ensures var (s1, tag) := JoinScript(s, u, limit, now, ttl); tag != Queued ==> Reread(s1, u, now) == s1
  {
    hide Ahead;
  }

  lemma HeartbeatPerforms(s: Room, u: User, limit: int, now: Time, ttl: Ttl)
    requires ttl.Valid()
    ensures Reread(Refill(Renew(CheckSlot(s, u, now).0, u, now, ttl), u, limit, now, ttl, false), u, now)
            == Heartbeat(s, u, limit, now, ttl).0
  {
    hide Drain, PositionAndSize;
    var s1 := CheckSlot(s, u, now).0;
    if Live(s1.activeTill, u, now) {
      RereadsNothing(Renew(s1, u, now, ttl), u, now);
    } else if !Live(s1.queueTill, u, now) {
      RereadsNothing(Renew(s1, u, now, ttl), u, now);
    }
  }

  lemma RereadsNothing(s: Room, u: User, now: Time)
    requires (Live(s.activeTill, u, now) && u in s.active)
          || (!Live(s.activeTill, u, now) && !Live(s.queueTill, u, now) && u !in s.queue)
    ensures Reread(s, u, now) == s
  {
  }

  lemma StatusPerforms(s: Room, u: User, limit: int, now: Time, ttl: Ttl)
    ensures Reread(Refill(CheckSlot(Prune(s, limit, now, ttl), u, now).0, u, limit, now, ttl, true), u, now)
            == Status(s, u, limit, now, ttl).0
  {
    hide Drain, Prune, Ahead;
  }

  /** The round trips of every call add up to the call's one operation. */
  lemma EveryCallPerforms(e: WaitingRoom.Event, ttl: Ttl)
    requires ttl.Valid()
    ensures Performs(Program(e, ttl), e, ttl)
  {
    hide Drain, DropStale, JoinScript, Reread, CheckSlot, Renew, Refill, Remove, Perform, Join, Heartbeat, Status;
    var u, limit, now := e.user, SlotLimit(e.maxActive), e.now;
    forall s ensures Perform(s, Program(e, ttl)) == WaitingRoom.Step(s, e, ttl).0 {
      PerformAtOnce(s, Program(e, ttl));
      JoinPerforms(s, u, limit, now, ttl);
      HeartbeatPerforms(s, u, limit, now, ttl);
      StatusPerforms(s, u, limit, now, ttl);
    }
  }

  /** Capacity and work conservation for the calls themselves: any number of requests
      interleaving their round trips under the lock. */
  lemma InterleavedCallsArePacked(es: seq<LockEvent>, calls: seq<WaitingRoom.Event>, start: Time, limit: int, ttl: Ttl)
    requires GoodRun(Idle(EMPTY), es) && Run(Idle(EMPTY), es).inside == map[]
    requires var finished := Run(Idle(EMPTY), es).finished;
             |finished| == |calls| && forall i :: 0 <= i < |calls| ==> finished[i] == Program(calls[i], ttl)
    requires Timed(start, calls) && ConstantLimit(calls, limit) && 1 <= limit && ttl.Valid()
    ensures var s := Run(Idle(EMPTY), es).room; |s.active| <= limit && (|s.queue| > 0 ==> |s.active| == limit)
  {
    hide Run, GoodRun, Performs, Program, Timed, ConstantLimit;
    forall i | 0 <= i < |calls| { EveryCallPerforms(calls[i], ttl); }
    InterleavingIsPacked(es, calls, start, limit, ttl);
  }

  // ---------- getting in ----------

  datatype Acquired = Entered(attempt: nat) | TimedOut

  // What the i-th attempt finds: the time, and the key at that time.
  datatype Poll = Poll(now: Time, key: Option<Time>)

  /** The spin loop: it enters at the first attempt that finds no live key, and
      gives up only at an attempt that fails after the deadline. */
  method Acquire(start: Time, polls: seq<Poll>) returns (r: Acquired)
    requires exists i :: 0 <= i < |polls| && start + PATIENCE < polls[i].now
    ensures r.Entered? ==>
              && r.attempt < |polls|
              && !(polls[r.attempt].key.Some? && polls[r.attempt].now < polls[r.attempt].key.value)
              && forall i :: 0 <= i < r.attempt ==>
                   polls[i].key.Some? && polls[i].now < polls[i].key.value && polls[i].now <= start + 3_000_000
    ensures r.TimedOut? ==>
              exists n :: 0 <= n < |polls| && start + 3_000_000 < polls[n].now
                && forall i :: 0 <= i <= n ==> polls[i].key.Some? && polls[i].now < polls[i].key.value
  {
    var i := 0;
    while true
      invariant 0 <= i < |polls|
      invariant forall j :: 0 <= j < i ==> Held(polls[j].key, polls[j].now) && polls[j].now <= start + PATIENCE
      decreases |polls| - i
    {
      if !Held(polls[i].key, polls[i].now) {
        return Entered(i);
      }
      if start + PATIENCE < polls[i].now {
        return TimedOut;
      }
      i := i + 1;
    }
  }
}
