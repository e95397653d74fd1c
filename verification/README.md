# Ticket booking: the waiting room, the seat store and the locks between them

A model, in Dafny 4.11, of the parts of the TicketRush booking service on which
its promises rest, with proofs of those promises.

Two state machines carry the hard properties.

- **The waiting room** of a showtime (`WaitingRoom.dfy`): an active set, a
  score-ordered queue and two families of session keys with a lifetime. Join,
  Heartbeat, Leave, Status and the slot test are steps on it; runs are sequences
  of steps at nondecreasing times. `Promotion.dfy` shows that the loop that seats
  one head at a time reaches a closed form, `RoomInvariants.dfy` what every step
  keeps, `RoomFairness.dfy` who can pass whom and how long a waiter waits,
  `RoomReplies.dfy` what the replies mean, `RoomSessions.dfy` whose sessions an
  operation renews, `RoomWitnesses.dfy` rooms in which the exceptions occur.
  `RoomOutcomes.dfy` says, by counting over the keys a call finds and without its
  steps, who is seated afterwards, who is in line, and what the caller is told.
  `QueueManager.dfy` is the manager as a class that changes the keys in place,
  proved against those steps, and `VirtualQueue.dfy` the service and gate in front
  of it. `OpLock.dfy` is the lock under which the operations run.
- **The booking store** (`BookingStore.dfy`): seat rows, bookings with their items,
  and prices; hold, confirm, cancel, release and the seat table are steps on it.
  `StoreInvariants.dfy` has the link and ownership invariants,
  `BookingLifecycle.dfy` what may happen to a booking and a seat, `Releaser.dfy` the
  simulation that makes the background releaser unobservable, `Dashboard.dfy` the
  conservation of tickets and money, `LateCancel.dfy` a run that sells a seat twice.
  `BookingOutcomes.dfy` says what each transaction comes to row by row, its errors
  included, and that a hold is good for exactly ten minutes.
  `BookingRepository.dfy` is the repository as a class over the tables.

`SeatLocks.dfy` and `HoldClaims.dfy` are the pieces a hold request passes through,
`BookingService.dfy` puts them together, `OneSeat.dfy` has the one-seat store of the
concrete runs, `Sets.dfy` sizes of finite sets and `Wrappers.dfy` the option type.

How time and the stores are read:

- Times are in microseconds. A Redis key exists at `now` iff its expiry is after
  `now`. Everything one waiting-room operation does under the operation lock
  happens at one instant.
- A database transaction is one atomic step at one instant, and rolling it back
  restores the tables it started from. Booking ids come from outside; a reused id
  makes the insert fail, as the primary key would.
- User ids, seat ids and owner tokens are integers: only equality and the order of
  the ids matter. Prices are in cents.

Three facts about the code decide how the theorems are stated.

- `CancelBooking` looks at the status only and frees its item rows whoever holds
  them. `StoreInvariants.CancelOwnedExactly` says exactly which cancels are harmless,
  the ownership theorems hold for every run made of those, and
  `LateCancel.LateCancelSellsTwice` shows what happens otherwise. A cancel of a hold
  that has not lapsed ("timely") is always harmless.
- Queue scores are times, and equal scores are ordered by user id. Somebody new can
  therefore come to stand in front of a waiter, in one case only: a join whose entry
  sorts there, by a user without a live session
  (`RoomFairness.FrontSetGrowsExactly`). The waiter's position then grows unless
  somebody in front goes at the same time (`RoomFairness.PositionGrowsExactly`). Both
  are if-and-only-ifs on the room before the call. In a reachable room no score lies
  in the future, so only a join in the same microsecond with a smaller id sorts in
  front (`RoomFairness.OvertakesOnATie`); `RoomWitnesses.TieOvertakes` is a run in
  which one does, and the runs of the fairness theorems exclude just that.
- The service retries after a deadlock, but it recognises one only in an error that
  still carries the database's code. The repository turns the errors of its inserts
  and updates into text, so a transaction that falls victim there is not retried.
  The model has the failing statement of each attempt, and
  `BookingService.HoldDeadlockSeen` and `BookingService.ConfirmDeadlockSeen` say
  exactly which victims are repeated.

## Model

| member | source | states |
|---|---|---|
| Promotion.PromotesFirstLive | internal/redisqueue/queue_manager.go:86-106 | with k = min(free slots, live waiters), the loop seats exactly the first k live waiters in queue order and the other live waiters stay |
| Promotion.DrainTouchesNoOthers | internal/redisqueue/queue_manager.go:94-105 | entries that stay keep their score; only seated users' session keys change, the queue key deleted and the active key set |
| Promotion.DrainCutsAPrefix | internal/redisqueue/queue_manager.go:91-105 | the entries removed, stale ones included, are a front part of the queue |
| Promotion.DrainFillsUp | internal/redisqueue/queue_manager.go:86-94 | afterwards the room is full or nobody waits, and the loop never exceeds max(active, limit) |
| Promotion.DrainTwice | internal/redisqueue/queue_manager.go:86-106 | a second drain at the same instant does nothing |
| Promotion.DrainTakesHead | internal/redisqueue/queue_manager.go:91-105 | handling the head first and draining the rest is the same drain: the step that makes the loop reach its closed form |
| WaitingRoom.SlotLimit | internal/redisqueue/queue_manager.go:167-169 | the limit the scripts work with is max(maxActive, 1): their own default of 50 is never reached |
| QueueManager.Lifetimes | internal/redisqueue/queue_manager.go:203-206 | from one second on, all sessions live for the whole seconds of the lifetime; a shorter one gives 30 s to the scripts and 1 s to EXPIRE |
| QueueManager.Manager.constructor | internal/redisqueue/queue_manager.go:110-119 | a non-positive lifetime becomes 30 s; the keys start empty and valid |
| QueueManager.Manager.FirstMember | internal/redisqueue/queue_manager.go:91-95 | the member found is the least by (score, id) |
| QueueManager.Manager.DrainPromotionLoop | internal/redisqueue/queue_manager.go:72-108 | the loop terminates, with the queue length as measure, in the closed form for the limit max(maxActive, 1) |
| QueueManager.Manager.StaleMembers | internal/redisqueue/queue_manager.go:509-523 | the loop collects exactly the members without a live session |
| QueueManager.Manager.PruneExpired | internal/redisqueue/queue_manager.go:501-556 | stale entries and stale seats go, then free seats are filled |
| QueueManager.Manager.UserHasLegitimateActiveSlot | internal/redisqueue/queue_manager.go:435-453 | true iff the user is in the active set with a session whose expiry lies ahead; a key without membership is deleted, nothing else changes |
| QueueManager.Manager.ReportPosition | internal/redisqueue/queue_manager.go:455-499 | seated, or 1 + the number of earlier entries, or not in queue with the entry removed if its session is gone |
| QueueManager.Manager.RunJoinScript | internal/redisqueue/queue_manager.go:30-70 | which of refresh, admit and enqueue is taken, by membership, session and seats taken, and all four keys after each; ZADD NX keeps an existing score |
| QueueManager.Manager.Join | internal/redisqueue/queue_manager.go:177-264 | the join step on the keys, and its reply; the key invariant is kept; the session behind the reply expires a whole lifetime later |
| QueueManager.Manager.Heartbeat | internal/redisqueue/queue_manager.go:266-317 | the heartbeat step and its reply, ErrNotInQueue included; the session behind the reply expires a whole lifetime later |
| QueueManager.Manager.Leave | internal/redisqueue/queue_manager.go:319-376 | all four keys of the user go and the seat is refilled |
| QueueManager.Manager.Status | internal/redisqueue/queue_manager.go:378-412 | the status step and its reply |
| QueueManager.Manager.HasActiveSession | internal/redisqueue/queue_manager.go:423-431 | true iff the user is in the active set with a live session; on valid keys it changes nothing |
| RoomInvariants.NoGhostKey | internal/redisqueue/queue_manager.go:47-54 | under the agreement the ghost-key deletions are never taken and no user has both sessions live |
| RoomInvariants.JoinScriptKeeps | internal/redisqueue/queue_manager.go:47-69 | on pruned keys: agreement and bounds survive the script, a new seat is taken only when nobody waits, and 'queued' leaves a live entry |
| RoomInvariants.StatusDrainsOnce | internal/redisqueue/queue_manager.go:378-412 | slot test and second drain in Status change nothing after the prune |
| RoomInvariants.StepKeeps | internal/redisqueue/queue_manager.go:136-162 | every operation keeps session/membership agreement, admits at most max(active, the limit it got), and keeps a packed room packed |
| RoomInvariants.ReachableAgrees | internal/redisqueue/queue_manager.go:433-453 | in every reachable room, at any later instant: live sessions imply membership, active set and queue are disjoint, no user has both sessions live |
| RoomInvariants.ReachablePacked | internal/redisqueue/queue_manager.go:501-556 | under one limit every reachable room has at most limit seats taken, and exactly limit if anybody is queued |
| RoomInvariants.LapseInsideJoinExactly | internal/redisqueue/queue_manager.go:48-68 | a join script run later than its prune keeps the agreement iff it is not the case that the user is seated, its session lapsed in between, and the room is full |
| RoomOutcomes.MembershipExactly | internal/redisqueue/queue_manager.go:177-412 | for every call and every user: who holds a seat and who has an entry afterwards, by counting live holders and live earlier entries in the room before the call against max(maxActive, 1) |
| RoomOutcomes.AnswersExactly | internal/redisqueue/queue_manager.go:30-70 | what a caller is told: a holder may enter; one in line may enter iff holders and those in line before it are fewer than the limit; a Join with neither session is seated iff holders and all in line are fewer, else it is told 1 + the number of earlier entries; Heartbeat and Status with neither answer ErrNotInQueue |
| RoomWitnesses.LapseInsideJoinHappens | internal/redisqueue/queue_manager.go:187-208 | a reachable room in which that happens: the user ends up in the active set and in the queue |
| RoomFairness.NoBarging | internal/redisqueue/queue_manager.go:187-208 | a join that takes a new seat finds the queue empty, everybody who waited with a live session having been seated |
| RoomFairness.StepFair | internal/redisqueue/queue_manager.go:65-69 | a live waiter that does not leave keeps its score or is seated by any operation, re-joins included, and while it waits only users in front of it are seated |
| RoomFairness.AheadShrinks | internal/redisqueue/queue_manager.go:66-68 | nobody comes to stand in front of a waiter but a join whose entry sorts there |
| RoomFairness.FrontSetGrowsExactly | internal/redisqueue/queue_manager.go:65-68 | the set of users in front of a waiter gains a member iff, before the call, the caller joins without a live session, sorts in front of the waiter's entry, and was not in front already |
| RoomFairness.PositionGrowsExactly | internal/redisqueue/queue_manager.go:65-68 | a waiter's position, the number in front, grows iff in addition everybody in front is alive and holders with a session take all max(maxActive, 1) seats |
| RoomFairness.OvertakesOnATie | internal/redisqueue/queue_manager.go:57-68 | in a reachable room a call sorts in front of a waiter iff it is a join in the microsecond of the waiter's score by a smaller id: scores are never in the future |
| RoomWitnesses.TieOvertakes | internal/redisqueue/queue_manager.go:65-68 | a run from the empty room in which a join in the same microsecond moves a waiter from position 1 to 2 |
| RoomFairness.ActiveLeaveAdvances | internal/redisqueue/queue_manager.go:326-355 | in a packed room, an active member's Leave makes every other live waiter's position drop |
| RoomFairness.WaiterIsNotPassed | internal/redisqueue/queue_manager.go:86-106 | over a run: score kept, set in front only shrinks, everybody seated was seated before or was in front at the start |
| RoomFairness.FirstComeFirstServed | internal/redisqueue/queue_manager.go:86-106 | if a is in front of b and stays alive, b holds a seat only after a has held one |
| RoomFairness.SeatedWithinPosition | internal/redisqueue/queue_manager.go:319-355 | a waiter at position p that stays alive is seated by the time p active members have left, whatever is interleaved |
| RoomFairness.OneSeatPassesOn | internal/redisqueue/queue_manager.go:326-355 | a run that meets the hypotheses of the fairness theorems: one seat, two waiters, and the first of them, alone, inherits it |
| RoomSessions.OthersUndisturbed | internal/redisqueue/queue_manager.go:177-412 | an operation of one user leaves everybody else's live slot or place with its expiry, or trades the place for a slot of full lifetime, and revives nothing |
| RoomSessions.CallerIsServed | internal/redisqueue/queue_manager.go:266-316 | Join and Heartbeat renew exactly the caller's session behind their reply, Leave removes all four keys, Status renews nothing |
| RoomReplies.RepliesAgree | internal/redisqueue/queue_manager.go:229-240 | replies are truthful: exactly one of CanEnter and InQueue, a live slot behind CanEnter, 1 <= position = rank + 1 <= total; ErrNotInQueue iff neither session was live; Join always answers |
| RoomReplies.PositionsDiffer | internal/redisqueue/queue_manager.go:480-498 | positions are injective over waiters and follow the queue order |
| RoomReplies.ReportedPositionNeverGrows | internal/redisqueue/queue_manager.go:455-499 | two in-queue replies to the same user along a kept-alive run have non-increasing positions |
| VirtualQueue.ClampActive | internal/services/virtual_queue_service.go:84-96 | the clamped limit lies in 1..10000 and is the setting, else the fallback, else 50 |
| VirtualQueue.VirtualQueueService.Request | internal/services/virtual_queue_service.go:98-106 | the manager is called with the showtime's own limit if that is in 1..10000, 10000 if it is larger, else the fallback under the same rule, else 50 |
| VirtualQueue.GateBound | internal/services/virtual_queue_service.go:164-180 | with a fixed setting, at every instant of every run the gate lets through at most the clamped limit of users |
| VirtualQueue.VirtualQueueService.Join | internal/services/virtual_queue_service.go:98-120 | bypass without a queue, else the manager's join with the clamped limit; the internal error never occurs |
| VirtualQueue.VirtualQueueService.Heartbeat | internal/services/virtual_queue_service.go:122-147 | as Join for a user with a live seat or place, else a conflict |
| VirtualQueue.VirtualQueueService.Leave | internal/services/virtual_queue_service.go:149-162 | nothing without a queue, else the manager's leave with the clamped limit |
| VirtualQueue.VirtualQueueService.Status | internal/services/virtual_queue_service.go:182-207 | as Heartbeat, for the status step |
| VirtualQueue.VirtualQueueService.RequireActiveBookingRoom | internal/services/virtual_queue_service.go:164-180 | passes iff there is no queue or the user holds a live slot; changes nothing |
| OpLock.StepKeepsSerial | internal/redisqueue/queue_manager.go:143-161 | at most one request inside, the key its own, the room the outcome of whole programs plus the visitor's part |
| OpLock.AtMostOneInside | internal/redisqueue/queue_manager.go:136-162 | for any number of requests, if every section ends within 15 s, two are never inside together and the key set is that of the one inside |
| OpLock.EntersBetweenPrograms | internal/redisqueue/queue_manager.go:136-137 | whoever gets in sees the outcome of whole operations only |
| OpLock.SecondEntersOnceLapsed | internal/redisqueue/queue_manager.go:140-150 | while a request is inside, another one gets in iff it tries 15 s or more after the first entered |
| OpLock.OverstayingBreaksTheLock | internal/redisqueue/queue_manager.go:140-160 | a concrete run: a section that outlives its key lets a second request in and then deletes that one's key |
| OpLock.InterleavingIsARun | internal/redisqueue/queue_manager.go:136-162 | serializability: when nobody is inside, interleaved requests, each the round trips of one operation, have left the room a run of their operations leaves |
| OpLock.InterleavingIsPacked | internal/redisqueue/queue_manager.go:136-162 | so capacity and work conservation hold for interleaved requests |
| OpLock.JoinPerforms | internal/redisqueue/queue_manager.go:186-247 | prune, script and reading the position, in sequence, leave the room the Join operation leaves |
| OpLock.HeartbeatPerforms | internal/redisqueue/queue_manager.go:274-315 | slot test, EXPIRE or ZREM, refill and reading the position leave the room the Heartbeat operation leaves |
| OpLock.StatusPerforms | internal/redisqueue/queue_manager.go:386-409 | prune, slot test, refill and reading the position leave the room the Status operation leaves |
| OpLock.EveryCallPerforms | internal/redisqueue/queue_manager.go:177-431 | the round trips of each of the five calls perform the call's operation on every room: the hypothesis of InterleavingIsARun |
| OpLock.InterleavedCallsArePacked | internal/redisqueue/queue_manager.go:136-162 | capacity and work conservation for any number of the five calls interleaving their round trips under the lock |
| OpLock.Acquire | internal/redisqueue/queue_manager.go:142-159 | the spin loop enters at the first attempt that finds no live key and gives up only after the 3 s deadline |
| StoreInvariants.StepLinked | internal/repository/booking_repository.go:137-399 | every transaction, late cancels included, keeps the link: a held seat names a HOLDING booking with its expiry and with the seat among its items; a free seat has neither booking nor expiry |
| StoreInvariants.LazyEqualsEager | internal/repository/booking_repository.go:121-130 | in every reachable store, a release at t leaves exactly the rows held past their expiry available and every other row as stored |
| StoreInvariants.ReleaseIsShown | internal/repository/booking_repository.go:484-493 | the same for any linked store |
| BookingOutcomes.TableIsReleased | internal/repository/booking_repository.go:81-133 | in every reachable store the rows of GetSeatsStatus are the showtime's rows as a release at that instant would leave them |
| StoreInvariants.HoldOwned | internal/repository/booking_repository.go:146-225 | a hold, lapsed seats taken over included, keeps every binding booking the owner of its seats |
| StoreInvariants.ConfirmOwned | internal/repository/booking_repository.go:287-319 | a confirm sells only the booking's own seats |
| StoreInvariants.ReleaseOwned | internal/repository/booking_repository.go:451-493 | a release keeps ownership |
| StoreInvariants.CancelOwnedExactly | internal/repository/booking_repository.go:350-386 | a cancel keeps ownership iff the booking is not HOLDING or each of its seats is its own or claimable |
| StoreInvariants.TimelyIsSafe | internal/repository/booking_repository.go:358-386 | a cancel of an unlapsed hold meets that condition |
| StoreInvariants.ConfirmableIsNotClaimable | internal/repository/booking_repository.go:293-296 | while a booking can be confirmed nobody can claim one of its seats |
| StoreInvariants.NoDoubleSale | internal/repository/booking_repository.go:307-319 | in every run with safe cancels: a sold seat carries the one paid booking with that item, a paid booking has all its seats sold to it, no two paid bookings share a seat |
| StoreInvariants.TimelyRunIsSafe | internal/repository/booking_repository.go:336-399 | runs with timely cancels are such runs |
| BookingLifecycle.StepMoves | internal/repository/booking_repository.go:287-386 | a booking keeps buyer and items and leaves HOLDING once: paid by its own confirm before it lapses, canceled by its own cancel, expired by a release after |
| BookingLifecycle.SeatMoves | internal/repository/booking_repository.go:146-225 | a seat row changes only by a hold that claims it, a confirm or cancel of a booking with that item, or the release of the lapsed hold it names, and how |
| BookingLifecycle.ClosedIsForever | internal/repository/booking_repository.go:350-362 | no run changes a paid, canceled or expired booking |
| BookingLifecycle.SoldStaysSold | internal/repository/booking_repository.go:312-319 | in runs with safe cancels a sold seat stays sold to the same booking |
| BookingOutcomes.HoldComesTo | internal/repository/booking_repository.go:137-269 | a hold that repeats an id or names a seat that is missing, sold or held unlapsed is a conflict naming exactly the requested rows sold or held unlapsed; without price, seats or a fresh id an internal error; any other books exactly the requested seats for 600 s |
| BookingOutcomes.TenMinutesToPay | internal/repository/booking_repository.go:287-296 | whatever others hold, confirm, cancel and release meanwhile, a hold made at t that is neither confirmed nor cancelled is confirmed at t' iff t' <= t + 600 s, and a conflict after |
| BookingOutcomes.TenMinutesReserved | internal/repository/booking_repository.go:146-197 | until then, in runs with safe cancels, every other hold of one of its seats is refused as a conflict naming that seat, and the seat table shows it held by the booking |
| BookingOutcomes.ReleaseComesTo | internal/repository/booking_repository.go:451-504 | a release expires exactly the holds past due, frees exactly the seats they hold, and counts the bookings that went from HOLDING to EXPIRED |
| BookingOutcomes.HoldOutcomeSorted | internal/services/bookings_services.go:76-84 | sorting the ids of a request does not change what its hold comes to |
| BookingOutcomes.HoldReachesExactly | internal/repository/booking_repository.go:146-259 | which statements a hold gets to, by the requested rows: the read for conflicts iff some seat cannot be had, the writes otherwise |
| LateCancel.LateCancelSellsTwice | internal/repository/booking_repository.go:350-386 | a concrete run: hold, lapse, re-hold and pay, late cancel, hold and pay again leaves two paid bookings on one seat |
| Releaser.ReleaseRelated | internal/repository/booking_repository.go:451-504 | a release on one side keeps the simulation: lapsed holds match expired ones, seats agree once lapsed holds are discounted |
| Releaser.StepRelated | internal/repository/booking_repository.go:137-399 | any other request answers alike in two related stores and leaves them related |
| Releaser.InsertedReleasesUnobservable | internal/repository/booking_repository.go:449-504 | releases inserted anywhere into a run with timely cancels, which may have releases of its own, change no answer of any hold, confirm, cancel or seat table |
| Releaser.ReleaserUnobservable | internal/repository/booking_repository.go:449-504 | runs that differ only in where they release answer alike if the cancels are timely in the run without any release |
| Releaser.DroppingCanShow | internal/repository/booking_repository.go:354-362 | dropping a release can be seen although the cancels of the longer run are timely: a hold, its release once lapsed, and its cancel |
| Releaser.ReleaseSeenByLateCancelOnly | internal/repository/booking_repository.go:354-362 | a release changes the answer of a cancel iff that cancel is late |
| Dashboard.TicketConservation | internal/repository/booking_repository.go:545-575 | in every run with safe cancels the sold seats are as many as the items of paid bookings, and revenue is the sum of the sold seats' prices |
| Dashboard.RevenueMovesOnConfirm | internal/repository/booking_repository.go:568-575 | revenue grows by a booking's total when it is confirmed and changes on no other step |
| Dashboard.SumWithout | internal/repository/booking_repository.go:568-572 | a sum over rows does not depend on their order |
| BookingRepository.Repository.HoldSeats | internal/repository/booking_repository.go:137-269 | without a deadlock the outcome of BookingOutcomes.HoldComesTo on rows, booking and error; if a statement it reaches falls victim to one, that statement's error; on any failure, a missing price after the seat update included, the tables are unchanged |
| BookingRepository.Repository.BuildItems | internal/repository/booking_repository.go:239-253 | one item per claimed row at its price, or nothing if a price is missing |
| BookingRepository.Repository.ConfirmBooking | internal/repository/booking_repository.go:273-332 | not found, or a conflict iff the booking is not HOLDING or its expiry has passed, else paid with its rows sold and their booking kept; or the error of the statement that fell victim to a deadlock; a failure leaves the tables unchanged |
| BookingRepository.Repository.CancelBooking | internal/repository/booking_repository.go:336-399 | a HOLDING booking, lapsed or not, is canceled and all its item rows become available, whoever holds them; any other is a conflict |
| BookingRepository.Repository.ReleaseExpiredHolds | internal/repository/booking_repository.go:451-504 | the release step, and the number of bookings that went from HOLDING to EXPIRED |
| BookingRepository.Repository.GetSeatsStatus | internal/repository/booking_repository.go:81-133 | exactly one row per seat of the showtime, a hold past its expiry shown available and every other row as stored, which on linked tables is what a release would leave; the price if there is one |
| BookingRepository.Repository.GetDashboardStats | internal/repository/booking_repository.go:508-575 | each counter is the number of rows with that status, the totals add up, and under ownership tickets sold are the paid items |
| BookingRepository.Repository.CountBookings | internal/repository/booking_repository.go:524-536 | the group counts add up to all bookings |
| BookingRepository.Repository.SumRevenue | internal/repository/booking_repository.go:567-575 | the sum of the item prices of PAID bookings |
| SeatLocks.GrantsAreDisjoint | internal/infrastructure/redislock/seat_locker.go:12-34 | over interleaved runs with lapses, grants in force cover disjoint seats, and the live keys are exactly those grants |
| SeatLocks.ReleaseSparesOthers | internal/infrastructure/redislock/seat_locker.go:26-34 | an unlock removes exactly the caller's own live keys among those named, never another token's |
| SeatLocks.LockThenUnlock | internal/infrastructure/redislock/seat_locker.go:12-34 | lock then unlock leaves the live keys as they were |
| SeatLocks.UnlockClearsToken | internal/infrastructure/redislock/seat_locker.go:26-34 | whatever others do in between, no live key carries the token after the unlock |
| SeatLocks.LeaseStays | internal/infrastructure/redislock/seat_locker.go:12-34 | while a lease lasts, others that lock and unlock leave it as it is |
| SeatLocks.SecondLockerWaits | internal/infrastructure/redislock/seat_locker.go:77-85 | a lock granted at t refuses every lock that shares a seat before t + ttl, in whole milliseconds, whatever others do in between; with nobody in between, exactly those |
| SeatLocks.SeatLocker.LockSeats | internal/infrastructure/redislock/seat_locker.go:77-85 | granted iff no requested key is live; then every requested key carries the token until now + ttl in whole milliseconds; no other key changes, and a refusal sets none |
| SeatLocks.SeatLocker.UnlockSeats | internal/infrastructure/redislock/seat_locker.go:87-90 | exactly the requested live keys with the caller's token go |
| HoldClaims.DuplicateTestIsExact | internal/services/bookings_services.go:76-89 | the neighbour test on the sorted copy fires iff the request repeats an id |
| HoldClaims.ClaimCheckIsExact | internal/repository/booking_repository.go:146-167 | the count test passes iff no id repeats and every id names a seat that is available or lapsed |
| HoldClaims.HoldSucceedsExactly | internal/repository/booking_repository.go:137-269 | when a hold succeeds, that it books exactly the requested seats at their prices, and that a failed one changes nothing |
| HoldClaims.ConflictNamesTheTaken | internal/repository/booking_repository.go:168-198 | a hold's conflict names exactly the requested rows not shown as available |
| BookingService.HoldDeadlockSeen | internal/services/bookings_services.go:63-69 | which error a hold gives for each statement struck, by the requested rows, and that it is seen as a deadlock iff it fell victim at a read of seats, prices or booking or at the commit; struck nowhere, it is the plain hold |
| BookingService.ConfirmDeadlockSeen | internal/repository/booking_repository.go:277-319 | a confirm attempt is seen as a deadlock iff it fell victim at its first read or at the commit |
| BookingService.WrappedVictimIsNotRetried | internal/repository/booking_repository.go:312-319 | a confirm struck at the update of its seats fails after one attempt; struck at its commit it is repeated and succeeds |
| BookingService.Service.Attempt | internal/services/bookings_services.go:130-147 | at most three attempts, the last made decides; one before the third is repeated iff its deadlock is seen, others' transactions in between allowed |
| BookingService.Service.HoldSeats | internal/services/bookings_services.go:73-152 | exactly-once wherever deadlocks strike: an attempt is made iff the request repeats no id, its showtime is known, it is within the ticket limit and none of its seats is locked; the last attempt's hold, or the error of its failing statement, decides tables and answer, a conflict naming the requested rows taken; on success one booking of exactly the requested seats beyond what others did, on error none; with no attempt tables and locks are unchanged; no live seat lock keeps the call's token |
| BookingService.Service.ConfirmBooking | internal/services/bookings_services.go:156-184 | the same retry around the confirm transaction; an attempt that is not struck decides by status and expiry |
| BookingService.Service.GetSeatsStatus | internal/services/bookings_services.go:238-278 | the counters count the showtime's seats: those available or held past their expiry, those held, those sold, and they add up |

## Left out

- Time passing inside one waiting-room operation: the operations are steps at one instant, and `RoomInvariants.LapseInsideJoinExactly` says what would happen to a join otherwise.
- Network errors, timeouts and cancelled contexts in the middle of an operation, and unlock calls that fail.
- READ COMMITTED interleavings inside a SQL transaction: `ReleaseExpiredHolds` selects without `FOR UPDATE`, and each transaction is taken as atomic.
- Queue members that are not uuids, soft-deleted rows, and rows edited by other services.
- SQL NULL logic, except that a HOLDING seat without expiry would not count as lapsed; the link invariant says there is none.
- Database errors other than deadlocks, and a deadlock victim in a cancel or a release, which is not retried.
- Wording of error messages and seat labels: an error is its kind, and a conflict the set of seats it names.
- `HoldExpiresAt` of the request, which the repository never reads.
- The behaviour of gorm, go-redis and Redis is not part of this model beyond these points: an empty item list makes the insert fail, `EXPIRE` rounds to whole seconds and never below one, `TIME` has microseconds, and a `PX` below one millisecond is not considered.
- Booking, user and seat listings with paging and DTO conversion, the seven-day revenue series, floating-point conversion of the revenue sum.
- HTTP handlers, websockets, JWT and roles, metrics, logging, configuration and wiring.
- One `Manager` and one `VirtualQueueService` object stand for one showtime; showtimes share no keys.
- Tables are maps: the row order of `ORDER BY seat_id` and of `Find` is not modelled.
