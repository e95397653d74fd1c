/** The booking repository over its tables.  A method is one transaction; a
    failure restores the tables saved at its start. */
module BookingRepository {
  import opened Sets
  import opened Wrappers
  import opened BookingStore
  import opened StoreInvariants
  import opened BookingOutcomes
  import opened Dashboard

  datatype SeatRow = SeatRow(key: SeatKey, seat: Seat, price: Option<Price>)

  datatype Stats = Stats(
    totalBookings: nat, paid: nat, holding: nat, canceled: nat, expired: nat,
    totalSeats: nat, available: nat, held: nat, sold: nat, ticketsSold: nat, revenue: int)

  function WithStatus(s: Store, status: BookingStatus): set<BookingId> {
    set id | id in s.bookings && s.bookings[id].status == status
  }

  function SeatsWith(seats: map<SeatKey, Seat>, status: SeatStatus): set<SeatKey> {
    set k | k in seats && seats[k].status == status
  }

  class Repository {
    var seats: map<SeatKey, Seat>
    var bookings: map<BookingId, Booking>
    var prices: map<SeatKey, Price>
    // Per showtime, the ticket limit of its event.
    var maxTickets: map<int, Option<int>>

    function Tables(): Store
      reads this
    {
      Store(seats, bookings, prices)
    }

    constructor (keys: set<SeatKey>, prices: map<SeatKey, Price>, maxTickets: map<int, Option<int>>)
      ensures Fresh(Tables()) && seats.Keys == keys && this.prices == prices && this.maxTickets == maxTickets
    {
      seats := map k | k in keys :: FREE;
      bookings := map[];
      this.prices := prices;
      this.maxTickets := maxTickets;
    }

    method GetMaxTicketsPerBooking(showtime: int) returns (r: Outcome<Option<int>>)
      ensures r == if showtime in maxTickets then Ok(maxTickets[showtime]) else Failed(NotFound)
    {
      r := if showtime in maxTickets then Ok(maxTickets[showtime]) else Failed(NotFound);
    }

    /** On any failure, one after the seats were updated included, the tables are
        as they were. */
    method HoldSeats(req: Request, id: BookingId, now: Time, victim: Option<HoldStatement>)
      returns (r: Outcome<Booking>)
      modifies this`seats, this`bookings
      ensures (Tables(), r) == HoldUnder(old(Tables()), req, id, now, victim)
      ensures victim.None? ==> HoldOutcome(old(Tables()), Tables(), req, id, now, r)
      ensures r.Failed? ==> Tables() == old(Tables())
    {
      hide Rows, Claimed, Priced, HoldOutcome;
      HoldComesTo(Tables(), req, id, now);
      var savedSeats, savedBookings := seats, bookings;
      if victim == Some(SelectSeats) {
        return Failed(Deadlock);
      }
      var found := Claimed(Tables(), req, now);
      if |found| != |req.seatIds| {
        if victim == Some(SelectConflicted) {
          return Failed(Conflict({}));
        }
        return Failed(Conflict(Rows(Tables(), req) - found));
      }
      if victim == Some(InsertBooking) || id in bookings {
        return Failed(Internal);
      }
      var till := Some(now + HOLD_TIME);
      var booking := Booking(req.user, req.showtime, Holding, till, map[]);
      bookings := bookings[id := booking];
      if victim == Some(UpdateHeldSeats) {
        seats, bookings := savedSeats, savedBookings;
        return Failed(Internal);
      }
      seats := SetSeats(seats, found, Seat(OnHold, Some(id), till));
      if victim == Some(SelectPrices) {
        seats, bookings := savedSeats, savedBookings;
        return Failed(Deadlock);
      }
      var items := BuildItems(found);
      if items.None? || items.value == map[] || victim == Some(InsertItems) {
        seats, bookings := savedSeats, savedBookings;
        return Failed(Internal);
      }
      if victim == Some(ReloadBooking) || victim == Some(CommitHold) {
        seats, bookings := savedSeats, savedBookings;
        return Failed(Deadlock);
      }
      booking := booking.(items := items.value);
      bookings := bookings[id := booking];
      assert bookings == savedBookings[id := booking];
      return Ok(booking);
    }

    /** The booking items for the claimed rows, unless one of them has no price. */
    method BuildItems(found: set<SeatKey>) returns (items: Option<map<SeatKey, Price>>)
      ensures items.Some? <==> found <= prices.Keys
      ensures items.Some? ==> items.value == Priced(prices, found) && (items.value == map[] <==> found == {})
    {
      var built: map<SeatKey, Price> := map[];
      var rest := found;
      while rest != {}
        invariant rest <= found
        invariant built.Keys == found - rest && built.Keys <= prices.Keys
        invariant forall k :: k in built ==> built[k] == prices[k]
        decreases |rest|
      {
        ghost var some := Pick(rest);
        var k :| k in rest;
        if k !in prices {
          return None;
        }
        built := built[k := prices[k]];
        Without(rest, k);
        rest := rest - {k};
      }
      assert built.Keys == found;
      assert built == Priced(prices, found);
      return Some(built);
    }

    method ConfirmBooking(id: BookingId, now: Time, victim: Option<ConfirmStatement>) returns (r: Outcome<Booking>)
      modifies this`seats, this`bookings
      ensures (Tables(), r) == ConfirmUnder(old(Tables()), id, now, victim)
      ensures victim.None? ==> ConfirmOutcome(old(Tables()), Tables(), id, now, r)
      ensures r.Failed? ==> Tables() == old(Tables())
    {
      hide ConfirmOutcome;
      ConfirmComesTo(Tables(), id, now);
      var savedSeats, savedBookings := seats, bookings;
      if victim == Some(SelectBooking) {
        return Failed(Deadlock);
      }
      if id !in bookings {
        return Failed(NotFound);
      }
      var booking := bookings[id];
      if booking.status != Holding {
        return Failed(Conflict({}));
      }
      if booking.expires.Some? && booking.expires.value < now {
        return Failed(Conflict({}));
      }
      if victim == Some(UpdateBooking) {
        return Failed(Internal);
      }
      bookings := bookings[id := booking.(status := Paid, expires := None)];
      if victim == Some(UpdateSoldSeats) {
        seats, bookings := savedSeats, savedBookings;
        return Failed(Internal);
      }
      seats := map k | k in seats ::
        if k in booking.items then seats[k].(status := Sold, expires := None) else seats[k];
      if victim == Some(CommitConfirm) {
        seats, bookings := savedSeats, savedBookings;
        return Failed(Deadlock);
      }
      return Ok(booking.(status := Paid, expires := None));
    }

    method CancelBooking(id: BookingId) returns (r: Outcome<Booking>)
      modifies this`seats, this`bookings
      ensures (Tables(), r) == Cancel(old(Tables()), id)
      ensures CancelOutcome(old(Tables()), Tables(), id, r)
    {
      hide CancelOutcome;
      CancelComesTo(Tables(), id);
      if id !in bookings {
        return Failed(NotFound);
      }
      var booking := bookings[id];
      if booking.status == Canceled {
        return Failed(Conflict({}));
      }
      if booking.status == Expired {
        return Failed(Conflict({}));
      }
      if booking.status != Holding {
        return Failed(Conflict({}));
      }
      bookings := bookings[id := booking.(status := Canceled, expires := None)];
      seats := SetSeats(seats, booking.items.Keys, FREE);
      return Ok(booking.(status := Canceled, expires := None));
    }

    method ReleaseExpiredHolds(now: Time) returns (count: nat)
      modifies this`seats, this`bookings
      ensures (Tables(), count) == Release(old(Tables()), now)
      ensures ReleaseOutcome(old(Tables()), Tables(), now, count)
    {
      hide ReleaseOutcome;
      ReleaseComesTo(Tables(), now);
      var ids := LapsedHolds(Tables(), now);
      if |ids| == 0 {
        ReleaseNothing(Tables(), now);
        return 0;
      }
      bookings := map id | id in bookings :: if id in ids then bookings[id].(status := Expired) else bookings[id];
      count := |ids|;
      seats := map k | k in seats ::
        if seats[k].status == OnHold && seats[k].booking.Some? && seats[k].booking.value in ids
        then FREE else seats[k];
    }

    /** Other requests at work on the same tables. */
    method OtherRequests(es: seq<Event>)
      modifies this`seats, this`bookings
      ensures Tables() == Run(old(Tables()), es)
    {
      hide Run;
      RunKeepsPrices(Tables(), es);
      var after := Run(Tables(), es);
      seats, bookings := after.seats, after.bookings;
    }

    /** One row per seat of the showtime, lapsed holds shown as available. */
    method GetSeatsStatus(showtime: int, now: Time) returns (rows: seq<SeatRow>)
      ensures |rows| == |View(Tables(), showtime, now)|
      ensures forall i, j :: 0 <= i < j < |rows| ==> rows[i].key != rows[j].key
      ensures forall i :: 0 <= i < |rows| ==> rows[i].key in View(Tables(), showtime, now)
      ensures forall i :: 0 <= i < |rows| ==> rows[i].seat == View(Tables(), showtime, now)[rows[i].key]
      ensures forall k :: k in KeysOf(rows) <==> k in seats && k.showtime == showtime
      ensures forall i :: 0 <= i < |rows| ==>
                && rows[i].key in seats
                && var seat := seats[rows[i].key];
                   rows[i].seat == if seat.status == OnHold && seat.expires.Some? && seat.expires.value < now
                                   then Seat(Available, None, None) else seat
      ensures Linked(Tables()) ==> forall i :: 0 <= i < |rows| ==>
                rows[i].key in seats && rows[i].seat == Release(Tables(), now).0.seats[rows[i].key]
      ensures forall i :: 0 <= i < |rows| ==>
                rows[i].price == if rows[i].key in prices then Some(prices[rows[i].key]) else None
    {
      var view := View(Tables(), showtime, now);
      var keys := set k | k in seats && k.showtime == showtime;
      assert view.Keys == keys;
      rows := FindRows(keys);
      for i := 0 to |rows|
        invariant |rows| == |keys|
        invariant forall j, l :: 0 <= j < l < |rows| ==> rows[j].key != rows[l].key
        invariant forall j :: 0 <= j < |rows| ==> rows[j].key in keys && rows[j].seat == seats[rows[j].key]
        invariant forall j :: 0 <= j < i ==>
                    rows[j].price == if rows[j].key in prices then Some(prices[rows[j].key]) else None
        invariant forall j :: i <= j < |rows| ==> rows[j].price == None
      {
        if rows[i].key in prices {
          rows := rows[i := rows[i].(price := Some(prices[rows[i].key]))];
        }
      }
      for i := 0 to |rows|
        invariant |rows| == |keys|
        invariant forall j, l :: 0 <= j < l < |rows| ==> rows[j].key != rows[l].key
        invariant forall j :: 0 <= j < |rows| ==> rows[j].key in keys
        invariant forall j :: 0 <= j < i ==> rows[j].seat == view[rows[j].key]
        invariant forall j :: i <= j < |rows| ==> rows[j].seat == seats[rows[j].key]
        invariant forall j :: 0 <= j < |rows| ==>
                    rows[j].price == if rows[j].key in prices then Some(prices[rows[j].key]) else None
      {
        if rows[i].seat.status == OnHold && rows[i].seat.expires.Some? && rows[i].seat.expires.value < now {
          rows := rows[i := rows[i].(seat := Seat(Available, None, None))];
        }
      }
      EveryRow(rows, keys);
      if Linked(Tables()) { ReleaseIsShown(Tables(), now); }
    }

    /** The seat rows with the given keys, in some order. */
    method FindRows(keys: set<SeatKey>) returns (rows: seq<SeatRow>)
      requires keys <= seats.Keys
      ensures |rows| == |keys|
      ensures forall i, j :: 0 <= i < j < |rows| ==> rows[i].key != rows[j].key
      ensures forall i :: 0 <= i < |rows| ==>
                rows[i].key in keys && rows[i] == SeatRow(rows[i].key, seats[rows[i].key], None)
    {
      rows := [];
      var rest := keys;
      while rest != {}
        invariant rest <= keys && |rows| + |rest| == |keys|
        invariant forall i, j :: 0 <= i < j < |rows| ==> rows[i].key != rows[j].key
        invariant forall i :: 0 <= i < |rows| ==>
                    && rows[i].key in keys && rows[i].key !in rest
                    && rows[i] == SeatRow(rows[i].key, seats[rows[i].key], None)
        decreases |rest|
      {
        ghost var some := Pick(rest);
        var k :| k in rest;
        AddOne(rest - {k}, k);
        assert rest - {k} + {k} == rest;
        rows := rows + [SeatRow(k, seats[k], None)];
        rest := rest - {k};
      }
    }

    method GetDashboardStats() returns (stats: Stats)
      ensures stats.totalBookings == |bookings| && stats.totalSeats == |seats|
      ensures stats.paid == |set id | id in bookings && bookings[id].status == Paid|
      ensures stats.holding == |set id | id in bookings && bookings[id].status == Holding|
      ensures stats.canceled == |set id | id in bookings && bookings[id].status == Canceled|
      ensures stats.expired == |set id | id in bookings && bookings[id].status == Expired|
      ensures stats.available == |set k | k in seats && seats[k].status == Available|
      ensures stats.held == |set k | k in seats && seats[k].status == OnHold|
      ensures stats.sold == stats.ticketsSold == |set k | k in seats && seats[k].status == Sold|
      ensures stats.revenue == Revenue(Tables())
      ensures forall now :: Owned(Tables(), now) ==> stats.ticketsSold == Tickets(Tables())
    {
      var s := Tables();
      var totalBookings := CountBookings();
      var totalSeats := CountSeats();
      var revenue := SumRevenue();
      assert SeatsWith(seats, Sold) == SoldSeats(s);
      forall now | Owned(s, now) ensures |SoldSeats(s)| == Tickets(s) { TicketsAreSoldSeats(s, now); }
      stats := Stats(
        totalBookings,
        |WithStatus(s, Paid)|, |WithStatus(s, Holding)|, |WithStatus(s, Canceled)|, |WithStatus(s, Expired)|,
        totalSeats, |SeatsWith(seats, Available)|, |SeatsWith(seats, OnHold)|,
        |SeatsWith(seats, Sold)|, |SeatsWith(seats, Sold)|, revenue);
    }

    /** The loop over the counts grouped by booking status. */
    method CountBookings() returns (total: nat)
      ensures total == |bookings|
    {
      total := 0;
      var statuses := [Holding, Paid, Canceled, Expired];
      ghost var seen: set<BookingId> := {};
      for i := 0 to 4
        invariant total == |seen| && seen <= bookings.Keys
        invariant forall id :: id in bookings ==> (id in seen <==> bookings[id].status in statuses[..i])
      {
        var group := WithStatus(Tables(), statuses[i]);
        assert statuses[i] !in statuses[..i];
        assert statuses[..i + 1] == statuses[..i] + [statuses[i]];
        forall id | id in group ensures id !in seen {
          assert id in bookings && bookings[id].status == statuses[i];
        }
        Disjoint(seen, group);
        seen := seen + group;
        total := total + |group|;
      }
      assert statuses[..4] == statuses;
      forall id | id in bookings ensures id in seen { EveryBookingStatus(bookings[id].status); }
      assert seen == bookings.Keys;
    }

    /** The loop over the counts grouped by seat status. */
    method CountSeats() returns (total: nat)
      ensures total == |seats|
    {
      total := 0;
      var statuses := [Available, OnHold, Sold];
      ghost var seen: set<SeatKey> := {};
      for i := 0 to 3
        invariant total == |seen| && seen <= seats.Keys
        invariant forall k :: k in seats ==> (k in seen <==> seats[k].status in statuses[..i])
      {
        var group := SeatsWith(seats, statuses[i]);
        assert statuses[i] !in statuses[..i];
        assert statuses[..i + 1] == statuses[..i] + [statuses[i]];
        Disjoint(seen, group);
        seen := seen + group;
        total := total + |group|;
      }
      assert statuses[..3] == statuses;
      forall k | k in seats ensures k in seen { EverySeatStatus(seats[k].status); }
      assert seen == seats.Keys;
    }

    /** SELECT SUM(price) over the items of PAID bookings. */
    method SumRevenue() returns (total: int)
      ensures total == Revenue(Tables())
    {
      hide Sum;
      total := 0;
      SumNone<BookingId>(map[]);
      var ids := PaidBookings(Tables());
      var rest := ids;
      assert ItemTotals(Tables(), ids - rest) == map[];
      while rest != {}
        invariant rest <= ids
        invariant total == Sum(ItemTotals(Tables(), ids - rest))
        decreases |rest|
      {
        ghost var some := Pick(rest);
        var id :| id in rest;
        var amount := SumItems(bookings[id].items);
        ItemSumsAdd(Tables(), ids - rest, id);
        Without(rest, id);
        assert ids - (rest - {id}) == ids - rest + {id};
        total := total + amount;
        rest := rest - {id};
      }
      assert ids - rest == ids;
    }

    method SumItems(items: map<SeatKey, Price>) returns (total: int)
      ensures total == Sum(items)
    {
      hide Sum;
      total := 0;
      var rest := items;
      while rest != map[]
        invariant rest.Keys <= items.Keys
        invariant total + Sum(rest) == Sum(items)
        decreases |rest.Keys|
      {
        ghost var some := Pick(rest.Keys);
        var k :| k in rest;
        SumWithout(rest, k);
        Without(rest.Keys, k);
        total := total + rest[k];
        rest := rest - {k};
      }
      SumNone(rest);
    }
  }

  function KeysOf(rows: seq<SeatRow>): set<SeatKey> { set row | row in rows :: row.key }

  /** As many distinct rows as there are keys have every key. */
  lemma EveryRow(rows: seq<SeatRow>, keys: set<SeatKey>)
    requires |rows| == |keys| && forall i, j :: 0 <= i < j < |rows| ==> rows[i].key != rows[j].key
    requires forall i :: 0 <= i < |rows| ==> rows[i].key in keys
    ensures KeysOf(rows) == keys
  {
    KeysCounted(rows);
    SubsetSize(KeysOf(rows), keys);
  }

  lemma {:induction false} KeysCounted(rows: seq<SeatRow>)
    requires forall i, j :: 0 <= i < j < |rows| ==> rows[i].key != rows[j].key
    ensures |KeysOf(rows)| == |rows|
  {
    if rows != [] {
      var front, last := rows[..|rows| - 1], rows[|rows| - 1];
      KeysCounted(front);
      assert rows == front + [last];
      assert KeysOf(rows) == KeysOf(front) + {last.key};
      AddOne(KeysOf(front), last.key);
    }
  }

  lemma EveryBookingStatus(b: BookingStatus)
    ensures b in [Holding, Paid, Canceled, Expired]
  {
    var all := [Holding, Paid, Canceled, Expired];
    assert all[0] == Holding && all[1] == Paid && all[2] == Canceled && all[3] == Expired;
  }

  lemma EverySeatStatus(b: SeatStatus)
    ensures b in [Available, OnHold, Sold]
  {
    var all := [Available, OnHold, Sold];
    assert all[0] == Available && all[1] == OnHold && all[2] == Sold;
  }

  lemma {:induction false} RunKeepsPrices(s: Store, es: seq<Event>)
    ensures Run(s, es).prices == s.prices
    decreases |es|
  {
    if es != [] { RunKeepsPrices(Step(s, es[0]).0, es[1..]); }
  }

  lemma ReleaseNothing(s: Store, now: Time)
    requires |LapsedHolds(s, now)| == 0
    ensures Release(s, now) == (s, 0)
  {
    var (s1, n) := Release(s, now);
    assert s1.bookings == s.bookings;
    assert s1.seats == s.seats;
  }
}
