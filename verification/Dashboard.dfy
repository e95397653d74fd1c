/** The dashboard totals, and what they conserve. */
module Dashboard {
  import opened Wrappers
  import opened BookingStore
  import opened Sets
  import opened StoreInvariants

  // ---------- sums over tables ----------

  ghost function Sum<K>(m: map<K, int>): int
    decreases |m.Keys|
  {
    if m == map[] then 0
    else
      var k :| k in m;
      Without(m.Keys, k);
      m[k] + Sum(m - {k})
  }

  /** A sum does not depend on the order in which the rows are taken. */
  lemma {:induction false} SumWithout<K>(m: map<K, int>, k: K)
    requires k in m
    ensures Sum(m) == m[k] + Sum(m - {k})
    decreases |m.Keys|
  {
    var j :| j in m && Sum(m) == m[j] + Sum(m - {j});
    if j != k {
      Without(m.Keys, j);
      Without(m.Keys, k);
      SumWithout(m - {j}, k);
      SumWithout(m - {k}, j);
      assert m - {j} - {k} == m - {k} - {j};
    }
  }

  lemma SumAdd<K>(m: map<K, int>, k: K, v: int)
    requires k !in m
    ensures Sum(m[k := v]) == Sum(m) + v
  {
    SumWithout(m[k := v], k);
    assert m[k := v] - {k} == m;
  }

  lemma UnionWithout<K>(m: map<K, int>, n: map<K, int>, k: K)
    requires k in n && m.Keys !! n.Keys
    ensures m + n - {k} == m + (n - {k})
    ensures k in m + n && (m + n)[k] == n[k]
    ensures m.Keys !! (n - {k}).Keys && |(n - {k}).Keys| < |n.Keys|
  {
    Without(n.Keys, k);
  }

  lemma {:induction false} SumUnion<K>(m: map<K, int>, n: map<K, int>)
    requires m.Keys !! n.Keys
    ensures Sum(m + n) == Sum(m) + Sum(n)
    decreases |n.Keys|
  {
    hide Sum;
    if n == map[] {
      assert m + n == m;
      assert Sum(n) == 0 by { SumNone(n); }
    } else {
      var k := Pick(n.Keys);
      UnionWithout(m, n, k);
      SumUnion(m, n - {k});
      SumWithout(n, k);
      SumWithout(m + n, k);
    }
  }

  lemma SumNone<K>(m: map<K, int>)
    requires m == map[]
    ensures Sum(m) == 0
  {
  }

  // ---------- the totals ----------

  function PaidBookings(s: Store): set<BookingId> {
    set id | id in s.bookings && s.bookings[id].status == Paid
  }

  function SoldSeats(s: Store): set<SeatKey> {
    set k | k in s.seats && s.seats[k].status == Sold
  }

  ghost function Total(b: Booking): int { Sum(b.items) }

  function ItemCounts(s: Store, ids: set<BookingId>): map<BookingId, int>
    requires ids <= s.bookings.Keys
  {
    map id | id in ids :: |s.bookings[id].items|
  }

  ghost function ItemTotals(s: Store, ids: set<BookingId>): map<BookingId, int>
    requires ids <= s.bookings.Keys
  {
    map id | id in ids :: Total(s.bookings[id])
  }

  /** The number of items of PAID bookings. */
  ghost function Tickets(s: Store): int { Sum(ItemCounts(s, PaidBookings(s))) }

  /** The total price of the items of PAID bookings. */
  ghost function Revenue(s: Store): int { Sum(ItemTotals(s, PaidBookings(s))) }

  lemma ItemSumsAdd(s: Store, ids: set<BookingId>, id: BookingId)
    requires ids <= s.bookings.Keys && id in s.bookings && id !in ids
    ensures Sum(ItemCounts(s, ids + {id})) == Sum(ItemCounts(s, ids)) + |s.bookings[id].items|
    ensures Sum(ItemTotals(s, ids + {id})) == Sum(ItemTotals(s, ids)) + Total(s.bookings[id])
  {
    hide Sum, Total;
    SumAdd(ItemCounts(s, ids), id, |s.bookings[id].items|);
    SumAdd(ItemTotals(s, ids), id, Total(s.bookings[id]));
    assert ItemCounts(s, ids + {id}) == ItemCounts(s, ids)[id := |s.bookings[id].items|];
    assert ItemTotals(s, ids + {id}) == ItemTotals(s, ids)[id := Total(s.bookings[id])];
  }

  // ---------- conservation ----------

  /** What the sold seats of the given bookings cost. */
  function SoldPrices(s: Store, ids: set<BookingId>): map<SeatKey, int> {
    map k | k in s.seats && s.seats[k].status == Sold && s.seats[k].booking.Some?
            && s.seats[k].booking.value in ids && s.seats[k].booking.value in s.bookings
            && k in s.bookings[s.seats[k].booking.value].items
         :: s.bookings[s.seats[k].booking.value].items[k]
  }

  lemma SoldPricesAdd(s: Store, ids: set<BookingId>, id: BookingId, now: Time)
    requires Owned(s, now) && id in PaidBookings(s) && id !in ids
    ensures SoldPrices(s, ids + {id}) == SoldPrices(s, ids) + s.bookings[id].items
    ensures SoldPrices(s, ids).Keys !! s.bookings[id].items.Keys
  {
    forall k | k in s.bookings[id].items
      ensures k in s.seats && s.seats[k].status == Sold && s.seats[k].booking == Some(id)
    {
      assert Binding(s.bookings[id], now);
      assert Owns(s, id, k);
    }
    var a, b := SoldPrices(s, ids + {id}), SoldPrices(s, ids) + s.bookings[id].items;
    assert a.Keys == b.Keys;
    assert forall k :: k in a ==> a[k] == b[k];
  }

  lemma UnionSize<K, V>(m: map<K, V>, n: map<K, V>)
    requires m.Keys !! n.Keys
    ensures |m + n| == |m| + |n|
  {
    assert (m + n).Keys == m.Keys + n.Keys;
  }

  lemma SumsOfNone(s: Store)
    ensures SoldPrices(s, {}) == map[] && ItemCounts(s, {}) == map[] && ItemTotals(s, {}) == map[]
  {
  }

  lemma {:induction false} SoldMatchesPaid(s: Store, ids: set<BookingId>, now: Time)
    requires Owned(s, now) && ids <= PaidBookings(s)
    ensures |SoldPrices(s, ids)| == Sum(ItemCounts(s, ids))
    ensures Sum(SoldPrices(s, ids)) == Sum(ItemTotals(s, ids))
    decreases |ids|
  {
    hide Sum, Owned, SoldPrices, ItemCounts, ItemTotals;
    if ids == {} {
      SumsOfNone(s);
      SumNone<SeatKey>(map[]);
      SumNone<BookingId>(map[]);
    } else {
      var id := Pick(ids);
      var rest := ids - {id};
      Without(ids, id);
      SoldMatchesPaid(s, rest, now);
      SoldPricesAdd(s, rest, id, now);
      ItemSumsAdd(s, rest, id);
      SumUnion(SoldPrices(s, rest), s.bookings[id].items);
      UnionSize(SoldPrices(s, rest), s.bookings[id].items);
      assert rest + {id} == ids;
    }
  }

  /** Ticket conservation: while seats are owned, the sold seats are as many as the
      items of paid bookings, and the revenue is what the sold seats cost. */
  lemma TicketsAreSoldSeats(s: Store, now: Time)
    requires Owned(s, now)
    ensures |SoldSeats(s)| == Tickets(s)
    ensures SoldPrices(s, PaidBookings(s)).Keys == SoldSeats(s)
    ensures Revenue(s) == Sum(SoldPrices(s, PaidBookings(s)))
  {
    hide Sum;
    SoldMatchesPaid(s, PaidBookings(s), now);
    forall k | k in s.seats && s.seats[k].status == Sold ensures k in SoldPrices(s, PaidBookings(s)) {
      assert SoldToSomebody(s, k);
      InPaidBookings(s, s.seats[k].booking.value);
    }
    assert SoldPrices(s, PaidBookings(s)).Keys == SoldSeats(s);
  }

  lemma InPaidBookings(s: Store, id: BookingId)
    ensures id in PaidBookings(s) <==> id in s.bookings && s.bookings[id].status == Paid
  {
  }

  /** ... in every store reached by safe cancels. */
  lemma TicketConservation(s: Store, start: Time, es: seq<Event>)
    requires Fresh(s) && Timed(start, es) && SafeCancels(s, es)
    ensures |SoldSeats(Run(s, es))| == Tickets(Run(s, es))
    ensures Revenue(Run(s, es)) == Sum(SoldPrices(Run(s, es), PaidBookings(Run(s, es))))
  {
    hide Run, Timed, SafeCancels, Sum;
    assert Owned(s, start);
    RunOwned(s, start, es);
    TicketsAreSoldSeats(Run(s, es), EndTime(start, es));
  }

  /** Money moves only when a booking is confirmed, by exactly its total; late
      cancels and releases included. */
  lemma RevenueMovesOnConfirm(s: Store, e: Event)
    ensures var (s1, a) := Step(s, e);
            Revenue(s1) == Revenue(s) + if e.action.DoConfirm? && a.outcome.Ok? then Total(a.outcome.value) else 0
  {
    hide Sum, Total;
    var s1 := Step(s, e).0;
    if e.action.DoConfirm? && Step(s, e).1.outcome.Ok? {
      var id := e.action.booking;
      ItemSumsAdd(s1, PaidBookings(s), id);
      assert PaidBookings(s1) == PaidBookings(s) + {id};
      assert ItemTotals(s1, PaidBookings(s)) == ItemTotals(s, PaidBookings(s));
    } else {
      SamePaid(s, e);
      assert ItemTotals(s1, PaidBookings(s1)) == ItemTotals(s, PaidBookings(s));
    }
  }

  lemma SamePaid(s: Store, e: Event)
    requires !(e.action.DoConfirm? && Step(s, e).1.outcome.Ok?)
    ensures PaidBookings(Step(s, e).0) == PaidBookings(s)
    ensures forall id :: id in PaidBookings(s) ==> Step(s, e).0.bookings[id] == s.bookings[id]
  {
    forall id { PaidUntouched(s, e, id); }
  }

  lemma PaidUntouched(s: Store, e: Event, id: BookingId)
    requires !(e.action.DoConfirm? && Step(s, e).1.outcome.Ok?)
    ensures id in PaidBookings(Step(s, e).0) <==> id in PaidBookings(s)
    ensures id in PaidBookings(s) ==> Step(s, e).0.bookings[id] == s.bookings[id]
  {
    InLapsedHolds(s, id, e.now);
  }
}
