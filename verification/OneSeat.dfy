/** The smallest store: one seat, one request for it, and what the transactions do
    there, for the concrete runs. */
module OneSeat {
  import opened Wrappers
  import opened BookingStore

  const K := SeatKey(1, 1)
  const LATE: Time := HOLD_TIME + 1

  function Request1(): Request { Request(7, 1, [1]) }

  lemma HoldOneSeat(s: Store, id: BookingId, now: Time)
    requires s.seats.Keys == {K} && Claimable(s.seats[K], now) && id !in s.bookings && K in s.prices
    ensures var (s1, r) := Hold(s, Request1(), id, now);
            && r.Ok? && s1.prices == s.prices
            && s1.seats == map[K := Seat(OnHold, Some(id), Some(now + HOLD_TIME))]
            && s1.bookings == s.bookings[id := Booking(7, 1, Holding, Some(now + HOLD_TIME), map[K := s.prices[K]])]
  {
    assert Rows(s, Request1()) == {K};
    assert Claimed(s, Request1(), now) == {K};
    assert Priced(s.prices, {K}) == map[K := s.prices[K]];
  }

  lemma ConfirmOneSeat(s: Store, id: BookingId, now: Time)
    requires s.seats.Keys == {K} && id in s.bookings && s.bookings[id].items.Keys == {K}
    requires s.bookings[id].status == Holding && s.bookings[id].expires == Some(now + HOLD_TIME)
    ensures var (s1, r) := Confirm(s, id, now);
            && r.Ok? && s1.prices == s.prices
            && s1.seats == map[K := s.seats[K].(status := Sold, expires := None)]
            && s1.bookings == s.bookings[id := s.bookings[id].(status := Paid, expires := None)]
  {
  }

  lemma CancelOneSeat(s: Store, id: BookingId)
    requires s.seats.Keys == {K} && id in s.bookings && s.bookings[id].items.Keys == {K}
    requires s.bookings[id].status == Holding
    ensures var (s1, r) := Cancel(s, id);
            && r.Ok? && s1.prices == s.prices && s1.seats == map[K := FREE]
            && s1.bookings == s.bookings[id := s.bookings[id].(status := Canceled, expires := None)]
  {
  }
}
