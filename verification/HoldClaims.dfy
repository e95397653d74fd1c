/** The checks a hold request passes: sorting, the duplicate test on neighbours,
    and the count of claimed rows. */
module HoldClaims {
  import opened Sets
  import opened BookingStore

  ghost predicate Distinct(s: seq<int>) {
    forall i, j :: 0 <= i < j < |s| ==> s[i] != s[j]
  }

  predicate Ascending(s: seq<int>) {
    forall i, j :: 0 <= i < j < |s| ==> s[i] <= s[j]
  }

  function Insert(s: seq<int>, x: int): (r: seq<int>)
    ensures r != []
  {
    if s == [] || x <= s[0] then [x] + s else [s[0]] + Insert(s[1..], x)
  }

  /** The sorted copy of the seat ids. */
  function SortIds(ids: seq<int>): seq<int> {
    if ids == [] then [] else Insert(SortIds(ids[1..]), ids[0])
  }

  lemma {:induction false} InsertAdds(s: seq<int>, x: int)
    ensures multiset(Insert(s, x)) == multiset(s) + multiset{x}
  {
    if !(s == [] || x <= s[0]) {
      InsertAdds(s[1..], x);
      assert s == [s[0]] + s[1..];
    }
  }

  lemma AscendingCons(x: int, rest: seq<int>)
    requires Ascending(rest) && (rest != [] ==> x <= rest[0])
    ensures Ascending([x] + rest)
  {
  }

  lemma {:induction false} InsertSorts(s: seq<int>, x: int)
    requires Ascending(s)
    ensures Ascending(Insert(s, x))
    ensures Insert(s, x)[0] == if s == [] || x <= s[0] then x else s[0]
  {
    if s == [] || x <= s[0] {
      AscendingCons(x, s);
    } else {
      InsertSorts(s[1..], x);
      AscendingCons(s[0], Insert(s[1..], x));
    }
  }

  lemma {:induction false} SortIdsSorts(ids: seq<int>)
    ensures Ascending(SortIds(ids)) && multiset(SortIds(ids)) == multiset(ids)
  {
    if ids != [] {
      SortIdsSorts(ids[1..]);
      InsertSorts(SortIds(ids[1..]), ids[0]);
      InsertAdds(SortIds(ids[1..]), ids[0]);
      assert ids == [ids[0]] + ids[1..];
    }
  }

  function Elements(s: seq<int>): set<int> { set x | x in s }

  lemma {:induction false} ElementsSize(s: seq<int>)
    ensures |Elements(s)| <= |s|
    ensures |Elements(s)| == |s| <==> Distinct(s)
  {
    if s != [] {
      var front, x := s[..|s| - 1], s[|s| - 1];
      assert s == front + [x];
      ElementsSize(front);
      assert Elements(s) == Elements(front) + {x};
      if x !in front {
        AddOne(Elements(front), x);
        assert Distinct(s) <==> Distinct(front);
      } else {
        assert Elements(s) == Elements(front);
        var i :| 0 <= i < |front| && front[i] == x;
        assert s[i] == s[|s| - 1];
      }
    }
  }

  lemma SortKeepsElements(ids: seq<int>)
    ensures Ascending(SortIds(ids)) && |SortIds(ids)| == |ids| && Elements(SortIds(ids)) == Elements(ids)
  {
    hide SortIds, Ascending;
    SortIdsSorts(ids);
    SameMultiset(SortIds(ids), ids);
  }

  lemma SameMultiset(a: seq<int>, b: seq<int>)
    requires multiset(a) == multiset(b)
    ensures |a| == |b| && Elements(a) == Elements(b)
  {
    assert |a| == |multiset(a)| == |multiset(b)|;
    forall x ensures x in a <==> x in b {
      assert x in a <==> x in multiset(a);
      assert x in b <==> x in multiset(b);
    }
  }

  lemma SameElements(a: seq<int>, b: seq<int>)
    requires Elements(a) == Elements(b)
    ensures forall x :: x in a <==> x in b
    ensures a == [] <==> b == []
  {
    forall x ensures x in a <==> x in b {
      assert x in a <==> x in Elements(a);
      assert x in b <==> x in Elements(b);
    }
    if b != [] { assert b[0] in b; }
    if a != [] { assert a[0] in a; }
  }

  lemma RepeatIsNeighbour(s: seq<int>)
    requires Ascending(s)
    ensures (exists i :: 1 <= i < |s| && s[i] == s[i - 1]) <==> !Distinct(s)
  {
    if !Distinct(s) {
      var i, j :| 0 <= i < j < |s| && s[i] == s[j];
      var n := i + 1;
      assert s[i] <= s[n] <= s[j];
      assert s[n] == s[n - 1];
    }
  }

  /** Sorting keeps the ids and their number, so a request has a duplicate exactly
      when two neighbours of the sorted copy are equal. */
  lemma DuplicateTestIsExact(ids: seq<int>)
    ensures var sorted := SortIds(ids);
            && |sorted| == |ids| && Elements(sorted) == Elements(ids)
            && ((exists i :: 1 <= i < |sorted| && sorted[i] == sorted[i - 1]) <==> !Distinct(ids))
  {
    hide SortIds, Elements, Distinct, Ascending;
    SortKeepsElements(ids);
    RepeatIsNeighbour(SortIds(ids));
    ElementsSize(ids);
    ElementsSize(SortIds(ids));
  }

  // ---------- the claim count ----------

  predicate Free(s: Store, showtime: int, id: int, now: Time) {
    SeatKey(showtime, id) in s.seats && Claimable(s.seats[SeatKey(showtime, id)], now)
  }

  ghost predicate AllFree(s: Store, req: Request, now: Time) {
    forall i :: 0 <= i < |req.seatIds| ==> Free(s, req.showtime, req.seatIds[i], now)
  }

  lemma ClaimOneMore(s: Store, req: Request, ids: seq<int>, x: int, now: Time)
    ensures var c := Claimed(s, req.(seatIds := ids), now);
            Claimed(s, req.(seatIds := ids + [x]), now) ==
            if Free(s, req.showtime, x, now) then c + {SeatKey(req.showtime, x)} else c
  {
    var a, b := Claimed(s, req.(seatIds := ids), now), Claimed(s, req.(seatIds := ids + [x]), now);
    forall k ensures k in b <==> k in a || (Free(s, req.showtime, x, now) && k == SeatKey(req.showtime, x)) {
      if k == SeatKey(req.showtime, x) { assert x in ids + [x]; }
    }
  }

  /** The test `len(seats) != len(req.SeatIDs)` is exact: the number of claimed
      rows equals the number of ids iff no id is repeated and every id names a seat
      of the showtime that is available or lapsed. */
  lemma {:induction false} ClaimCheckIsExact(s: Store, req: Request, now: Time)
    ensures |Claimed(s, req, now)| <= |req.seatIds|
    ensures |Claimed(s, req, now)| == |req.seatIds| <==> Distinct(req.seatIds) && AllFree(s, req, now)
    decreases |req.seatIds|
  {
    hide Claimed;
    var ids := req.seatIds;
    if ids == [] {
      NothingClaimed(s, req, now);
    } else {
      var front, x := ids[..|ids| - 1], ids[|ids| - 1];
      var req1 := req.(seatIds := front);
      assert ids == front + [x];
      ClaimCheckIsExact(s, req1, now);
      ClaimOneMore(s, req, front, x, now);
      assert req.(seatIds := front + [x]) == req;
      var k, c := SeatKey(req.showtime, x), Claimed(s, req1, now);
      assert AllFree(s, req, now) <==> AllFree(s, req1, now) && Free(s, req.showtime, x, now);
      ClaimedMember(s, req1, x, now);
      if x in front {
        var i :| 0 <= i < |front| && front[i] == x;
        assert ids[i] == ids[|ids| - 1];
        assert Free(s, req.showtime, x, now) ==> c + {k} == c;
      } else {
        assert Distinct(ids) <==> Distinct(front);
        if Free(s, req.showtime, x, now) { AddOne(c, k); }
      }
    }
  }

  lemma NothingClaimed(s: Store, req: Request, now: Time)
    requires req.seatIds == []
    ensures Claimed(s, req, now) == {}
  {
  }

  lemma ClaimedMember(s: Store, req: Request, x: int, now: Time)
    ensures SeatKey(req.showtime, x) in Claimed(s, req, now) <==> x in req.seatIds && Free(s, req.showtime, x, now)
  {
  }

  /** When a hold succeeds, and what it books: exactly the requested seats. */
  lemma HoldSucceedsExactly(s: Store, req: Request, id: BookingId, now: Time)
    ensures var (s1, r) := Hold(s, req, id, now);
            && (r.Ok? <==>
                  && req.seatIds != [] && Distinct(req.seatIds) && AllFree(s, req, now) && id !in s.bookings
                  && forall i :: 0 <= i < |req.seatIds| ==> SeatKey(req.showtime, req.seatIds[i]) in s.prices)
            && (r.Ok? ==>
                  && (forall k :: k in r.value.items <==> k.showtime == req.showtime && k.seat in req.seatIds)
                  && (forall k :: k in r.value.items ==> r.value.items[k] == s.prices[k])
                  && s1.bookings == s.bookings[id := r.value])
            && (r.Failed? ==> s1 == s)
  {
    ClaimCheckIsExact(s, req, now);
    var claimed := Claimed(s, req, now);
    if |claimed| == |req.seatIds| {
      forall x | x in req.seatIds ensures SeatKey(req.showtime, x) in claimed {
        ClaimedMember(s, req, x, now);
      }
      forall k | k in claimed ensures k.showtime == req.showtime && k.seat in req.seatIds {}
      if req.seatIds != [] { assert SeatKey(req.showtime, req.seatIds[0]) in claimed; }
      if claimed <= s.prices.Keys {
        forall i | 0 <= i < |req.seatIds| ensures SeatKey(req.showtime, req.seatIds[i]) in s.prices {
          assert SeatKey(req.showtime, req.seatIds[i]) in claimed;
        }
      } else {
        var k :| k in claimed && k !in s.prices;
        var i :| 0 <= i < |req.seatIds| && req.seatIds[i] == k.seat;
        assert SeatKey(req.showtime, req.seatIds[i]) == k;
      }
    }
  }

  /** A conflict names exactly the requested rows that somebody else holds or owns. */
  lemma ConflictNamesTheTaken(s: Store, req: Request, id: BookingId, now: Time, k: SeatKey)
    ensures var r := Hold(s, req, id, now).1;
            r.Failed? && r.error.Conflict? ==>
              (k in r.error.taken <==>
               && k in s.seats && k.showtime == req.showtime && k.seat in req.seatIds
               && Shown(s.seats[k], now).status != Available)
    ensures k in Rows(s, req) - Claimed(s, req, now) <==>
            k in s.seats && k.showtime == req.showtime && k.seat in req.seatIds
            && Shown(s.seats[k], now).status != Available
  {
  }
}
