/** Reachable rooms in which the exceptions to the promises occur. */
module RoomWitnesses {
  import opened WaitingRoom
  import opened Promotion
  import opened RoomInvariants
  import opened RoomFairness

  const HUNDRED := Ttl(100, 100)

  /** A join in a room where nothing is stale and nobody can be promoted. */
  lemma QuietJoin(s: Room, u: User, limit: int, now: Time, ttl: Ttl)
    requires DropStale(s, now) == s && (|s.active| >= limit || s.queue == map[])
    ensures Prune(s, limit, now, ttl) == s
    ensures var (s1, tag) := JoinScript(s, u, limit, now, ttl);
            Join(s, u, limit, now, ttl).0 == if tag == Queued then PositionAndSize(s1, u, now).0 else s1
  {
    hide Drain;
    DrainIdle(s, limit, now, ttl);
  }

  function Seat9(): Room { Room({9}, map[], map[9 := 101], map[]) }

  function Queue5(): Room { Room({9}, map[5 := 10], map[9 := 101], map[5 := 110]) }

  lemma FirstJoin(u: User, now: Time)
    ensures Join(EMPTY, u, 1, now, HUNDRED).0 == Room({u}, map[], map[u := now + 100], map[])
  {
    hide Drain;
    QuietJoin(EMPTY, u, 1, now, HUNDRED);
  }

  lemma SecondJoin()
    ensures Join(Seat9(), 5, 1, 10, HUNDRED).0 == Queue5()
  {
    hide Drain, Ahead;
    QuietJoin(Seat9(), 5, 1, 10, HUNDRED);
  }

  lemma ThirdJoin()
    ensures Join(Queue5(), 3, 1, 10, HUNDRED).0.queue == map[5 := 10, 3 := 10]
  {
    hide Drain, Ahead;
    QuietJoin(Queue5(), 3, 1, 10, HUNDRED);
  }

  /** A position that grows: user 9 has the seat, user 5 queues, and in the same
      microsecond user 3 joins and stands in front of it. */
  lemma TieOvertakes()
    ensures var es := [Event(JoinCall, 9, 1, 1), Event(JoinCall, 5, 1, 10)];
            var e := Event(JoinCall, 3, 1, 10);
            var s := Run(EMPTY, es, HUNDRED); var s1 := Step(s, e, HUNDRED).0;
            && Timed(1, es + [e]) && Agreement(s, 10) && Packed(s, 1)
            && 5 in s.queue && 5 in s1.queue && Overtakes(e, s, 5)
            && |Ahead(s, 5)| == 0 && |Ahead(s1, 5)| == 1
  {
    hide Join, Timed, Run, Step;
    var e9, e5, e := Event(JoinCall, 9, 1, 1), Event(JoinCall, 5, 1, 10), Event(JoinCall, 3, 1, 10);
    var none: seq<Event> := [];
    var last := [e] + none;
    var es := [e9] + ([e5] + none);
    assert es == [e9, e5] && es + [e] == [e9] + ([e5] + last);
    FirstJoin(9, 1);
    SecondJoin();
    ThirdJoin();
    StepIsJoin(EMPTY, e9, HUNDRED);
    StepIsJoin(Seat9(), e5, HUNDRED);
    StepIsJoin(Queue5(), e, HUNDRED);
    RunCons(EMPTY, e9, [e5] + none, HUNDRED);
    RunCons(Seat9(), e5, none, HUNDRED);
    TimedCons(1, e9, [e5] + last);
    TimedCons(1, e5, last);
    TimedCons(10, e, none);
    assert Run(EMPTY, es, HUNDRED) == Queue5();
    AheadOfFive();
  }

  lemma AheadOfFive()
    ensures Ahead(Queue5(), 5) == {}
    ensures forall s: Room :: s.queue == map[5 := 10, 3 := 10] ==> Ahead(s, 5) == {3}
  {
  }

  lemma RunCons(s: Room, e: Event, es: seq<Event>, ttl: Ttl)
    ensures Run(s, [e] + es, ttl) == Run(Step(s, e, ttl).0, es, ttl)
    ensures Run(Step(s, e, ttl).0, [], ttl) == Step(s, e, ttl).0
  {
    hide Step;
    assert ([e] + es)[1..] == es;
  }

  lemma TimedCons(start: Time, e: Event, es: seq<Event>)
    ensures Timed(start, [e] + es) <==> start <= e.now && Timed(e.now, es)
    ensures Timed(e.now, [])
  {
    assert ([e] + es)[1..] == es;
  }

  /** A join during which its user's session lapses: user 1 is seated, joins again,
      the keys are pruned at 50 and the script runs at 100. */
  lemma LapseInsideJoinHappens()
    ensures var es := [Event(JoinCall, 1, 1, 0)];
            var p := Prune(Run(EMPTY, es, HUNDRED), 1, 50, HUNDRED);
            var s1 := JoinScript(p, 1, 1, 100, HUNDRED).0;
            && Agreement(p, 50) && 1 in s1.active && 1 in s1.queue && !Agreement(s1, 100)
  {
    hide Join, JoinScript, Drain, Step, Run;
    var e := Event(JoinCall, 1, 1, 0);
    var es := [e];
    FirstJoin(1, 0);
    StepIsJoin(EMPTY, e, HUNDRED);
    assert es == [e] + [];
    RunCons(EMPTY, e, [], HUNDRED);
    var s := Run(EMPTY, es, HUNDRED);
    assert s == Room({1}, map[], map[1 := 100], map[]);
    assert DropStale(s, 50) == s;
    QuietJoin(s, 1, 1, 50, HUNDRED);
    LapseInsideJoinBreaksAgreement(s, 1, 1, 100, HUNDRED);
  }
}
