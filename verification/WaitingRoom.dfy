/** The virtual waiting room of one showtime: the Redis keys the queue manager
    keeps for it, and what each of its operations does to them.

    A session key is an expiry time; the key exists at `now` iff the expiry is
    after `now`.  One operation runs under the showtime's lock and sees a single
    `now`. */
module WaitingRoom {

  // User ids are uuids of which only equality and the string order matter.
  type User = int
  // Microseconds, the resolution of the enqueue score.
  type Time = int

  datatype Room = Room(
    active: set<User>,            // the set `active-members`
    queue: map<User, Time>,       // the sorted set `members`, with its scores
    activeTill: map<User, Time>,  // the keys `active-user:<id>`
    queueTill: map<User, Time>)   // the keys `user:<id>`

  const EMPTY := Room({}, map[], map[], map[])

  // The lifetimes given by SET .. EX in the scripts and by EXPIRE in Go.
  datatype Ttl = Ttl(script: Time, refresh: Time) {
    ghost predicate Valid() { 0 < script && 0 < refresh }
  }

  predicate Live(sessions: map<User, Time>, u: User, now: Time) {
    u in sessions && now < sessions[u]
  }

  /** The order of a Redis sorted set: by score, ties by member. */
  predicate Before(q: map<User, Time>, u: User, v: User)
    requires u in q && v in q
  {
    q[u] < q[v] || (q[u] == q[v] && u < v)
  }

  function Below(q: map<User, Time>, among: set<User>, u: User): set<User>
    requires u in q
  {
    set v | v in among && v in q && Before(q, v, u)
  }

  function LiveWaiters(s: Room, now: Time): set<User> {
    set u | u in s.queue && Live(s.queueTill, u, now)
  }

  /** Everybody in front of `u`; ZRANK returns the size of this set. */
  function Ahead(s: Room, u: User): set<User>
    requires u in s.queue
  {
    Below(s.queue, s.queue.Keys, u)
  }

  function LiveAhead(s: Room, u: User, now: Time): set<User>
    requires u in s.queue
  {
    Below(s.queue, LiveWaiters(s, now), u)
  }

  function FreeSlots(s: Room, limit: int): nat {
    if |s.active| < limit then limit - |s.active| else 0
  }

  /** The limit both scripts work with: Go raises it to at least 1, so the
      scripts' own default is never reached. */
  function SlotLimit(maxActive: int): (limit: int)
    ensures limit == if maxActive < 1 then 1 else maxActive
  {
    var sent := if maxActive < 1 then 1 else maxActive;
    if sent < 1 then 50 else sent
  }

  // ---------- promotion and pruning ----------

  function Promoted(s: Room, limit: int, now: Time): set<User> {
    set u | u in s.queue && Live(s.queueTill, u, now) && |LiveAhead(s, u, now)| < FreeSlots(s, limit)
  }

  function Stay(s: Room, limit: int, now: Time): map<User, Time> {
    map u | u in s.queue && |LiveAhead(s, u, now)| >= FreeSlots(s, limit) :: s.queue[u]
  }

  function Extend(sessions: map<User, Time>, us: set<User>, till: Time): map<User, Time> {
    sessions + map u | u in us :: till
  }

  /** The closed form of the promotion loop: an entry stays iff enough live
      waiters in front of it use up the free slots; the live ones among the
      entries that do not stay are seated. */
  function Drain(s: Room, limit: int, now: Time, ttl: Ttl): Room {
    var promoted := Promoted(s, limit, now);
    Room(
      s.active + promoted,
      Stay(s, limit, now),
      Extend(s.activeTill, promoted, now + ttl.script),
      s.queueTill - promoted)
  }

  function DropStale(s: Room, now: Time): Room {
    s.(queue := map u | u in s.queue && Live(s.queueTill, u, now) :: s.queue[u],
       active := set u | u in s.active && Live(s.activeTill, u, now))
  }

  function Prune(s: Room, limit: int, now: Time, ttl: Ttl): Room {
    Drain(DropStale(s, now), limit, now, ttl)
  }

  // ---------- the operations ----------

  datatype Tag = ActiveRefresh | ActiveNew | Queued

  function JoinScript(s: Room, u: User, limit: int, now: Time, ttl: Ttl): (Room, Tag) {
    if Live(s.activeTill, u, now) && u in s.active then
      (s.(activeTill := s.activeTill[u := now + ttl.script]), ActiveRefresh)
    else
      var s1 := if Live(s.activeTill, u, now) then s.(activeTill := s.activeTill - {u}) else s;
      if |s1.active| < limit then
        (Room(s1.active + {u}, s1.queue - {u}, s1.activeTill[u := now + ttl.script], s1.queueTill - {u}), ActiveNew)
      else
        (s1.(queueTill := s1.queueTill[u := now + ttl.script],
             queue := if u in s1.queue then s1.queue else s1.queue[u := now]), Queued)
  }

  datatype Reply =
    | Ok(position: nat, totalWaiting: nat, inQueue: bool, canEnter: bool)
    | NotInQueue
    | Left
    | Slot(holds: bool)

  function Seated(s: Room): Reply { Ok(0, |s.queue|, false, true) }

  /** The slot test, which also deletes a session key without membership. */
  function CheckSlot(s: Room, u: User, now: Time): (Room, bool) {
    if !Live(s.activeTill, u, now) then (s, false)
    else if u !in s.active then (s.(activeTill := s.activeTill - {u}), false)
    else (s, true)
  }

  function PositionAndSize(s: Room, u: User, now: Time): (Room, Reply) {
    var (s1, inRoom) := CheckSlot(s, u, now);
    if inRoom then (s1, Seated(s1))
    else if !Live(s1.queueTill, u, now) then (s1.(queue := s1.queue - {u}), NotInQueue)
    else if u !in s1.queue then (s1, NotInQueue)
    else (s1, Ok(|Ahead(s1, u)| + 1, |s1.queue|, true, false))
  }

  function Join(s: Room, u: User, limit: int, now: Time, ttl: Ttl): (Room, Reply) {
    var (s1, tag) := JoinScript(Prune(s, limit, now, ttl), u, limit, now, ttl);
    if tag == Queued then PositionAndSize(s1, u, now) else (s1, Seated(s1))
  }

  function Heartbeat(s: Room, u: User, limit: int, now: Time, ttl: Ttl): (Room, Reply) {
    var (s1, inRoom) := CheckSlot(s, u, now);
    if inRoom then
      (s1.(activeTill := s1.activeTill[u := now + ttl.refresh]), Seated(s1))
    else if !Live(s1.queueTill, u, now) then
      (s1.(queue := s1.queue - {u}), NotInQueue)
    else
      PositionAndSize(Drain(s1.(queueTill := s1.queueTill[u := now + ttl.refresh]), limit, now, ttl), u, now)
  }

  /** Leave's first transaction; the refill comes in a second round trip. */
  function Remove(s: Room, u: User): Room {
    Room(s.active - {u}, s.queue - {u}, s.activeTill - {u}, s.queueTill - {u})
  }

  function Leave(s: Room, u: User, limit: int, now: Time, ttl: Ttl): Room {
    Drain(Remove(s, u), limit, now, ttl)
  }

  function Status(s: Room, u: User, limit: int, now: Time, ttl: Ttl): (Room, Reply) {
    var (s1, inRoom) := CheckSlot(Prune(s, limit, now, ttl), u, now);
    if inRoom then (s1, Seated(s1)) else PositionAndSize(Drain(s1, limit, now, ttl), u, now)
  }

  // ---------- runs ----------

  datatype Call = JoinCall | HeartbeatCall | LeaveCall | StatusCall | SlotCall

  datatype Event = Event(call: Call, user: User, maxActive: int, now: Time)

  function Step(s: Room, e: Event, ttl: Ttl): (Room, Reply) {
    var limit := SlotLimit(e.maxActive);
    match e.call
    case JoinCall => Join(s, e.user, limit, e.now, ttl)
    case HeartbeatCall => Heartbeat(s, e.user, limit, e.now, ttl)
    case LeaveCall => (Leave(s, e.user, limit, e.now, ttl), Left)
    case StatusCall => Status(s, e.user, limit, e.now, ttl)
    case SlotCall => var (s1, holds) := CheckSlot(s, e.user, e.now); (s1, Slot(holds))
  }

  function Run(s: Room, es: seq<Event>, ttl: Ttl): Room
    decreases |es|
  {
    if es == [] then s else Run(Step(s, es[0], ttl).0, es[1..], ttl)
  }

  /** Event times never go back, and none is before `start`. */
  ghost predicate Timed(start: Time, es: seq<Event>)
    decreases |es|
  {
    es == [] || (start <= es[0].now && Timed(es[0].now, es[1..]))
  }

  function EndTime(start: Time, es: seq<Event>): Time
    decreases |es|
  {
    if es == [] then start else EndTime(es[0].now, es[1..])
  }

  ghost predicate ConstantLimit(es: seq<Event>, limit: int) {
    forall i :: 0 <= i < |es| ==> limit == if es[i].maxActive < 1 then 1 else es[i].maxActive
  }
}
