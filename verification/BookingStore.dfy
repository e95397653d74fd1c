/** The tables behind the booking repository and what each of its transactions
    does to them.  A transaction is one atomic step at one instant; a failed one
    leaves the tables as they were. */
module BookingStore {
  import opened Wrappers

  // Microseconds.
  type Time = int
  type BookingId = int
  type UserId = int
  // Cents: prices are numeric(10,2).
  type Price = int

  // (showtime, seat) is a unique index of the seat table, so it names a row.
  datatype SeatKey = SeatKey(showtime: int, seat: int)

  datatype SeatStatus = Available | OnHold | Sold

  datatype Seat = Seat(status: SeatStatus, booking: Option<BookingId>, expires: Option<Time>)

  datatype BookingStatus = Holding | Paid | Canceled | Expired

  // The items of a booking: the seat rows it covers, each with its price.
  datatype Booking = Booking(
    user: UserId, showtime: int, status: BookingStatus, expires: Option<Time>, items: map<SeatKey, Price>)

  datatype Store = Store(
    seats: map<SeatKey, Seat>, bookings: map<BookingId, Booking>, prices: map<SeatKey, Price>)

  datatype Request = Request(user: UserId, showtime: int, seatIds: seq<int>)

  datatype Failure =
    | BadRequest
    | NotFound
    // The seats some other buyer holds or owns; empty when a row is missing.
    | Conflict(taken: set<SeatKey>)
    | Internal
    // The only error in which the service finds the database's deadlock code.
    | Deadlock

  datatype Outcome<T> = Ok(value: T) | Failed(error: Failure)

  const HOLD_TIME: Time := 600_000_000

  const FREE := Seat(Available, None, None)

  // ---------- lapsing ----------

  predicate Lapsed(expires: Option<Time>, now: Time) {
    expires.Some? && expires.value < now
  }

  /** The claim predicate of HoldSeats. */
  predicate Claimable(seat: Seat, now: Time) {
    seat.status == Available || (seat.status == OnHold && Lapsed(seat.expires, now))
  }

  /** A seat row as GetSeatsStatus shows it. */
  function Shown(seat: Seat, now: Time): Seat {
    if seat.status == OnHold && Lapsed(seat.expires, now) then FREE else seat
  }

  function ShownTable(seats: map<SeatKey, Seat>, now: Time): map<SeatKey, Seat> {
    map k | k in seats :: Shown(seats[k], now)
  }

  // ---------- the transactions ----------

  function Rows(s: Store, req: Request): set<SeatKey> {
    set k | k in s.seats && k.showtime == req.showtime && k.seat in req.seatIds
  }

  function Claimed(s: Store, req: Request, now: Time): set<SeatKey> {
    set k | k in Rows(s, req) && Claimable(s.seats[k], now)
  }

  /** UPDATE of the given seat rows. */
  function SetSeats(seats: map<SeatKey, Seat>, ks: set<SeatKey>, seat: Seat): map<SeatKey, Seat> {
    map k | k in seats :: if k in ks then seat else seats[k]
  }

  function Priced(prices: map<SeatKey, Price>, ks: set<SeatKey>): map<SeatKey, Price>
    requires ks <= prices.Keys
  {
    map k | k in ks :: prices[k]
  }

  /** HoldSeats; `id` is the fresh id the booking row would get. */
  function Hold(s: Store, req: Request, id: BookingId, now: Time): (Store, Outcome<Booking>) {
    var claimed := Claimed(s, req, now);
    if |claimed| != |req.seatIds| then (s, Failed(Conflict(Rows(s, req) - claimed)))
    else if id in s.bookings then (s, Failed(Internal))
    else if !(claimed <= s.prices.Keys) || claimed == {} then (s, Failed(Internal))
    else
      var till := Some(now + HOLD_TIME);
      var b := Booking(req.user, req.showtime, Holding, till, Priced(s.prices, claimed));
      (s.(seats := SetSeats(s.seats, claimed, Seat(OnHold, Some(id), till)), bookings := s.bookings[id := b]), Ok(b))
  }

  /** ConfirmBooking: the item rows keep their booking id. */
  function Confirm(s: Store, id: BookingId, now: Time): (Store, Outcome<Booking>) {
    if id !in s.bookings then (s, Failed(NotFound))
    else
      var b := s.bookings[id];
      if b.status != Holding || Lapsed(b.expires, now) then (s, Failed(Conflict({})))
      else
        var paid := b.(status := Paid, expires := None);
        (s.(bookings := s.bookings[id := paid],
            seats := map k | k in s.seats ::
              if k in b.items then s.seats[k].(status := Sold, expires := None) else s.seats[k]),
         Ok(paid))
  }

  /** CancelBooking looks at the status only, and frees its item rows whoever
      holds them. */
  function Cancel(s: Store, id: BookingId): (Store, Outcome<Booking>) {
    if id !in s.bookings then (s, Failed(NotFound))
    else
      var b := s.bookings[id];
      if b.status != Holding then (s, Failed(Conflict({})))
      else
        var canceled := b.(status := Canceled, expires := None);
        (s.(bookings := s.bookings[id := canceled], seats := SetSeats(s.seats, b.items.Keys, FREE)), Ok(canceled))
  }

  predicate LapsedHold(b: Booking, now: Time) {
    b.status == Holding && Lapsed(b.expires, now)
  }

  function LapsedHolds(s: Store, now: Time): set<BookingId> {
    set id | id in s.bookings && LapsedHold(s.bookings[id], now)
  }

  /** ReleaseExpiredHolds, with the number of bookings released. */
  function Release(s: Store, now: Time): (Store, nat) {
    var ids := LapsedHolds(s, now);
    (s.(bookings := map id | id in s.bookings ::
          if id in ids then s.bookings[id].(status := Expired) else s.bookings[id],
        seats := map k | k in s.seats ::
          if s.seats[k].status == OnHold && s.seats[k].booking.Some? && s.seats[k].booking.value in ids
          then FREE else s.seats[k]),
     |ids|)
  }

  /** The rows of GetSeatsStatus. */
  function View(s: Store, showtime: int, now: Time): map<SeatKey, Seat> {
    map k | k in s.seats && k.showtime == showtime :: Shown(s.seats[k], now)
  }

  // ---------- deadlock victims ----------

  // The statements of the hold transaction, in order.
  datatype HoldStatement =
    | SelectSeats
    | SelectConflicted
    | InsertBooking
    | UpdateHeldSeats
    | SelectPrices
    | InsertItems
    | ReloadBooking
    | CommitHold

  /** The hold transaction gets as far as issuing this statement. */
  predicate HoldReaches(s: Store, req: Request, id: BookingId, now: Time, at: HoldStatement) {
    var counted := |Claimed(s, req, now)| == |req.seatIds|;
    match at
    case SelectSeats => true
    case SelectConflicted => !counted
    case InsertBooking => counted
    case UpdateHeldSeats | SelectPrices => counted && id !in s.bookings
    case InsertItems | ReloadBooking | CommitHold => Hold(s, req, id, now).1.Ok?
  }

  /** The error of a victim at this statement: handed on as it is, replaced by a
      conflict, or turned into text, in which the deadlock code is lost. */
  function HoldError(at: HoldStatement): Failure {
    match at
    case SelectSeats | SelectPrices | ReloadBooking | CommitHold => Deadlock
    case SelectConflicted => Conflict({})
    case InsertBooking | UpdateHeldSeats | InsertItems => Internal
  }

  /** HoldSeats when the database may pick one statement as a deadlock victim and
      roll the transaction back. */
  function HoldUnder(s: Store, req: Request, id: BookingId, now: Time, victim: Option<HoldStatement>)
    : (Store, Outcome<Booking>)
  {
    if victim.Some? && HoldReaches(s, req, id, now, victim.value) then (s, Failed(HoldError(victim.value)))
    else Hold(s, req, id, now)
  }

  datatype ConfirmStatement = SelectBooking | UpdateBooking | UpdateSoldSeats | CommitConfirm

  predicate ConfirmReaches(s: Store, id: BookingId, now: Time, at: ConfirmStatement) {
    at == SelectBooking || Confirm(s, id, now).1.Ok?
  }

  function ConfirmError(at: ConfirmStatement): Failure {
    match at
    case SelectBooking | CommitConfirm => Deadlock
    case UpdateBooking | UpdateSoldSeats => Internal
  }

  function ConfirmUnder(s: Store, id: BookingId, now: Time, victim: Option<ConfirmStatement>)
    : (Store, Outcome<Booking>)
  {
    if victim.Some? && ConfirmReaches(s, id, now, victim.value) then (s, Failed(ConfirmError(victim.value)))
    else Confirm(s, id, now)
  }

  // ---------- runs ----------

  datatype Action =
    | DoHold(req: Request, id: BookingId)
    | DoConfirm(booking: BookingId)
    | DoCancel(booking: BookingId)
    | DoRelease
    | DoView(showtime: int)

  datatype Event = Event(action: Action, now: Time)

  datatype Answer =
    | Answered(outcome: Outcome<Booking>)
    | Released(count: nat)
    | Seats(rows: map<SeatKey, Seat>)

  function Step(s: Store, e: Event): (Store, Answer) {
    match e.action
    case DoHold(req, id) => var (s1, r) := Hold(s, req, id, e.now); (s1, Answered(r))
    case DoConfirm(id) => var (s1, r) := Confirm(s, id, e.now); (s1, Answered(r))
    case DoCancel(id) => var (s1, r) := Cancel(s, id); (s1, Answered(r))
    case DoRelease => var (s1, n) := Release(s, e.now); (s1, Released(n))
    case DoView(showtime) => (s, Seats(View(s, showtime, e.now)))
  }

  function Run(s: Store, es: seq<Event>): Store
    decreases |es|
  {
    if es == [] then s else Run(Step(s, es[0]).0, es[1..])
  }

  ghost predicate Timed(start: Time, es: seq<Event>)
    decreases |es|
  {
    es == [] || (start <= es[0].now && Timed(es[0].now, es[1..]))
  }

  function EndTime(start: Time, es: seq<Event>): Time
    decreases |es|
  {
    if es == [] then start else EndTime(es[0].now, es[1..])
  }

  /** The tables before anything was booked. */
  ghost predicate Fresh(s: Store) {
    s.bookings == map[] && forall k :: k in s.seats ==> s.seats[k] == FREE
  }
}
