/** The promotion loop: its closed form, and why one head at a time reaches it. */
module Promotion {
  import opened WaitingRoom
  import opened Sets

  // ---------- ranks in a finite order ----------

  lemma {:induction false} LeastExists(q: map<User, Time>, among: set<User>) returns (m: User)
    requires among != {}
    requires among <= q.Keys
    ensures m in among && forall v :: v in among && v != m ==> Before(q, m, v)
    decreases |among|
  {
    var x := Pick(among);
    if among == {x} {
      m := x;
    } else {
      var rest := among - {x};
      assert among == rest + {x};
      var m1 := LeastExists(q, rest);
      m := if Before(q, x, m1) then x else m1;
    }
  }

  lemma BelowWithoutLeast(q: map<User, Time>, among: set<User>, m: User, u: User)
    requires m in q && u in q && m in among && u != m && Before(q, m, u)
    ensures |Below(q, among, u)| == |Below(q, among - {m}, u)| + 1
  {
    assert Below(q, among, u) == Below(q, among - {m}, u) + {m};
  }

  function First(q: map<User, Time>, among: set<User>, k: int): set<User>
    requires among <= q.Keys
  {
    set u | u in among && |Below(q, among, u)| < k
  }

  lemma FirstWithoutLeast(q: map<User, Time>, among: set<User>, k: nat, m: User)
    requires among <= q.Keys && k > 0
    requires m in among && forall v :: v in among && v != m ==> Before(q, m, v)
    ensures First(q, among, k) == First(q, among - {m}, k - 1) + {m}
  {
    assert Below(q, among, m) == {};
    forall u | u in among - {m} ensures u in First(q, among, k) <==> u in First(q, among - {m}, k - 1) {
      BelowWithoutLeast(q, among, m, u);
    }
  }

  lemma TakeLeast(q: map<User, Time>, among: set<User>, k: nat) returns (rest: set<User>)
    requires among <= q.Keys && among != {} && k > 0
    ensures rest <= q.Keys && |among| == |rest| + 1
    ensures |First(q, among, k)| == |First(q, rest, k - 1)| + 1
  {
    var m := LeastExists(q, among);
    rest := among - {m};
    FirstWithoutLeast(q, among, k, m);
    AddOne(rest, m);
    AddOne(First(q, rest, k - 1), m);
    assert among == rest + {m};
  }

  /** Ranks have no gaps: exactly min(k, |among|) members have fewer than k
      members in front of them. */
  lemma {:induction false} FirstK(q: map<User, Time>, among: set<User>, k: nat)
    requires among <= q.Keys
    ensures |First(q, among, k)| == if k < |among| then k else |among|
    decreases |among|
  {
    if among == {} || k == 0 {
      assert First(q, among, k) == {};
    } else {
      var rest := TakeLeast(q, among, k);
      FirstK(q, rest, k - 1);
    }
  }

  lemma BelowMonotone(q: map<User, Time>, among: set<User>, u: User, v: User)
    requires u in q && v in q && Before(q, u, v)
    ensures |Below(q, among, u)| <= |Below(q, among, v)|
    ensures u in among ==> |Below(q, among, u)| < |Below(q, among, v)|
  {
    SubsetSize(Below(q, among, u), Below(q, among, v));
    if u in among {
      assert u in Below(q, among, v) && u !in Below(q, among, u);
    }
  }

  // ---------- the closed form ----------

  lemma PromotedCount(s: Room, limit: int, now: Time)
    ensures |Promoted(s, limit, now)| ==
            if FreeSlots(s, limit) < |LiveWaiters(s, now)| then FreeSlots(s, limit) else |LiveWaiters(s, now)|
  {
    var live := LiveWaiters(s, now);
    assert Promoted(s, limit, now) == First(s.queue, live, FreeSlots(s, limit));
    FirstK(s.queue, live, FreeSlots(s, limit));
  }

  /** The users promoted are exactly the first k live waiters in queue order, for
      k = min(free slots, live waiters); the other live waiters stay. */
  lemma PromotesFirstLive(s: Room, limit: int, now: Time, ttl: Ttl)
    requires s.active !! s.queue.Keys
    ensures var k := if FreeSlots(s, limit) < |LiveWaiters(s, now)| then FreeSlots(s, limit) else |LiveWaiters(s, now)|;
            var s1 := Drain(s, limit, now, ttl);
            var promoted := s1.active - s.active;
            && s1.active >= s.active
            && |promoted| == k && promoted <= LiveWaiters(s, now)
            && (forall u, v :: u in promoted && v in LiveWaiters(s, now) - promoted ==> Before(s.queue, u, v))
            && LiveWaiters(s1, now) == LiveWaiters(s, now) - promoted
  {
    var s1 := Drain(s, limit, now, ttl);
    var promoted := Promoted(s, limit, now);
    PromotedCount(s, limit, now);
    assert s1.active - s.active == promoted;
    forall u, v | u in promoted && v in LiveWaiters(s, now) - promoted ensures Before(s.queue, u, v) {
      if Before(s.queue, v, u) {
        BelowMonotone(s.queue, LiveWaiters(s, now), v, u);
      }
    }
  }

  /** A drain keeps the score of every entry that stays, so also their order, and
      touches no session but those of the users it seats. */
  lemma DrainTouchesNoOthers(s: Room, limit: int, now: Time, ttl: Ttl, u: User)
    requires s.active !! s.queue.Keys
    ensures var s1 := Drain(s, limit, now, ttl);
            && (u in s1.queue ==> u in s.queue && s1.queue[u] == s.queue[u])
            && (if u in s1.active - s.active
                then u in s1.activeTill && s1.activeTill[u] == now + ttl.script && u !in s1.queueTill
                else && (u in s1.activeTill <==> u in s.activeTill)
                     && (u in s.activeTill ==> s1.activeTill[u] == s.activeTill[u])
                     && (u in s1.queueTill <==> u in s.queueTill)
                     && (u in s.queueTill ==> s1.queueTill[u] == s.queueTill[u]))
  {
  }

  /** The entries that go form a front part of the queue. */
  lemma DrainCutsAPrefix(s: Room, limit: int, now: Time, ttl: Ttl, u: User, v: User)
    requires u in s.queue && u !in Drain(s, limit, now, ttl).queue
    requires v in Drain(s, limit, now, ttl).queue
    ensures v in s.queue && Before(s.queue, u, v)
  {
    assert u != v;
    if Before(s.queue, v, u) {
      BelowMonotone(s.queue, LiveWaiters(s, now), v, u);
    }
  }

  /** After a drain the room is full or nobody waits; it never goes above the
      limit on its own account. */
  lemma DrainFillsUp(s: Room, limit: int, now: Time, ttl: Ttl)
    requires s.active !! s.queue.Keys
    ensures var s1 := Drain(s, limit, now, ttl);
            && |s1.active| <= (if |s.active| < limit then limit else |s.active|)
            && (s1.queue != map[] ==> |s1.active| >= limit)
            && s1.active !! s1.queue.Keys
  {
    var s1 := Drain(s, limit, now, ttl);
    PromotesFirstLive(s, limit, now, ttl);
    assert |s1.active| == |s.active| + |s1.active - s.active| by {
      assert s1.active == s.active + (s1.active - s.active);
    }
    if u :| u in s1.queue {
      SubsetSize(LiveAhead(s, u, now), LiveWaiters(s, now));
    }
    forall u | u in s1.queue ensures u !in s1.active {
      if u in Promoted(s, limit, now) { assert false; }
    }
  }

  /** A drain of a full room, or of an empty queue, does nothing. */
  lemma DrainIdle(s: Room, limit: int, now: Time, ttl: Ttl)
    requires |s.active| >= limit || s.queue == map[]
    ensures Drain(s, limit, now, ttl) == s
  {
    assert Promoted(s, limit, now) == {};
    var s1 := Drain(s, limit, now, ttl);
    assert s1.active == s.active && s1.queue == s.queue;
    assert s1.activeTill == s.activeTill && s1.queueTill == s.queueTill;
  }

  lemma DrainTwice(s: Room, limit: int, now: Time, ttl: Ttl)
    requires s.active !! s.queue.Keys
    ensures Drain(Drain(s, limit, now, ttl), limit, now, ttl) == Drain(s, limit, now, ttl)
  {
    DrainFillsUp(s, limit, now, ttl);
    DrainIdle(Drain(s, limit, now, ttl), limit, now, ttl);
  }

  // ---------- one iteration of the loop ----------

  /** What one pass of the loop does to the head `m`. */
  function TakeHead(s: Room, m: User, now: Time, ttl: Ttl): Room {
    if !Live(s.queueTill, m, now) then
      s.(queue := s.queue - {m})
    else
      Room(s.active + {m}, s.queue - {m}, s.activeTill[m := now + ttl.script], s.queueTill - {m})
  }

  lemma LiveAheadWithoutHead(s: Room, m: User, u: User, now: Time, ttl: Ttl)
    requires m in s.queue && u in s.queue && m != u && Before(s.queue, m, u)
    ensures |LiveAhead(s, u, now)| ==
            |LiveAhead(TakeHead(s, m, now, ttl), u, now)| + if Live(s.queueTill, m, now) then 1 else 0
  {
    var s1 := TakeHead(s, m, now, ttl);
    if Live(s.queueTill, m, now) {
      assert LiveAhead(s, u, now) == LiveAhead(s1, u, now) + {m};
    } else {
      assert LiveAhead(s, u, now) == LiveAhead(s1, u, now);
    }
  }

  ghost predicate Head(s: Room, m: User) {
    m in s.queue && forall v :: v in s.queue && v != m ==> Before(s.queue, m, v)
  }

  lemma SameVerdict(s: Room, m: User, u: User, limit: int, now: Time, ttl: Ttl)
    requires s.active !! s.queue.Keys && |s.active| < limit && Head(s, m)
    requires u in s.queue && u != m
    ensures |LiveAhead(s, u, now)| < FreeSlots(s, limit)
       <==> |LiveAhead(TakeHead(s, m, now, ttl), u, now)| < FreeSlots(TakeHead(s, m, now, ttl), limit)
  {
    LiveAheadWithoutHead(s, m, u, now, ttl);
    if Live(s.queueTill, m, now) {
      AddOne(s.active, m);
    }
  }

  lemma HeadGoes(s: Room, m: User, limit: int, now: Time)
    requires |s.active| < limit && Head(s, m)
    ensures m !in Stay(s, limit, now)
    ensures m in Promoted(s, limit, now) <==> Live(s.queueTill, m, now)
  {
    assert LiveAhead(s, m, now) == {};
  }

  lemma StayWithoutHead(s: Room, m: User, limit: int, now: Time, ttl: Ttl)
    requires s.active !! s.queue.Keys && |s.active| < limit && Head(s, m)
    ensures Stay(TakeHead(s, m, now, ttl), limit, now) == Stay(s, limit, now)
  {
    HeadGoes(s, m, limit, now);
    var q, q1 := Stay(s, limit, now), Stay(TakeHead(s, m, now, ttl), limit, now);
    forall u ensures u in q <==> u in q1 {
      if u in s.queue && u != m {
        SameVerdict(s, m, u, limit, now, ttl);
      }
    }
  }

  lemma PromotedWithoutHead(s: Room, m: User, limit: int, now: Time, ttl: Ttl)
    requires s.active !! s.queue.Keys && |s.active| < limit && Head(s, m)
    ensures var p1 := Promoted(TakeHead(s, m, now, ttl), limit, now);
            Promoted(s, limit, now) == if Live(s.queueTill, m, now) then p1 + {m} else p1
  {
    HeadGoes(s, m, limit, now);
    var p, p1 := Promoted(s, limit, now), Promoted(TakeHead(s, m, now, ttl), limit, now);
    forall u | u != m ensures u in p <==> u in p1 {
      if u in s.queue {
        SameVerdict(s, m, u, limit, now, ttl);
      }
    }
  }

  /** Taking the head first and then draining is the same drain: this is why the
      loop reaches its closed form. */
  lemma DrainTakesHead(s: Room, m: User, limit: int, now: Time, ttl: Ttl)
    requires s.active !! s.queue.Keys && |s.active| < limit && Head(s, m)
    ensures Drain(TakeHead(s, m, now, ttl), limit, now, ttl) == Drain(s, limit, now, ttl)
  {
    hide Drain, Promoted, Stay, Extend;
    var p1 := Promoted(TakeHead(s, m, now, ttl), limit, now);
    PromotedWithoutHead(s, m, limit, now, ttl);
    StayWithoutHead(s, m, limit, now, ttl);
    if Live(s.queueTill, m, now) {
      DrainParts(TakeHead(s, m, now, ttl), p1, limit, now, ttl);
      DrainParts(s, p1 + {m}, limit, now, ttl);
      ExtendOne(s.activeTill, p1, m, now + ttl.script);
      Regroup(s.active, s.queueTill, m, p1);
    } else {
      DrainParts(TakeHead(s, m, now, ttl), p1, limit, now, ttl);
      DrainParts(s, p1, limit, now, ttl);
    }
  }

  lemma DrainParts(s: Room, promoted: set<User>, limit: int, now: Time, ttl: Ttl)
    requires promoted == Promoted(s, limit, now)
    ensures Drain(s, limit, now, ttl) ==
            Room(s.active + promoted, Stay(s, limit, now),
                 Extend(s.activeTill, promoted, now + ttl.script), s.queueTill - promoted)
  {
  }

  lemma Regroup<T, V>(a: set<T>, sessions: map<T, V>, m: T, b: set<T>)
    ensures a + {m} + b == a + (b + {m})
    ensures sessions - {m} - b == sessions - (b + {m})
  {
  }

  lemma ExtendOne(sessions: map<User, Time>, us: set<User>, u: User, till: Time)
    ensures Extend(sessions[u := till], us, till) == Extend(sessions, us + {u}, till)
  {
    var a, b := Extend(sessions[u := till], us, till), Extend(sessions, us + {u}, till);
    assert a.Keys == b.Keys;
    assert forall v :: v in a ==> a[v] == b[v];
  }
}
