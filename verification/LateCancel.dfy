/** A run in which a late cancel makes the same seat sell twice. */
module LateCancel {
  import opened BookingStore
  import opened StoreInvariants
  import opened OneSeat

  /** The hold of booking 1 lapses, booking 2 takes the seat and pays, then booking
      1 is cancelled: the seat is free again and booking 3 pays for it too. */
  lemma LateCancelSellsTwice(price: Price)
    ensures var s0 := Store(map[K := FREE], map[], map[K := price]);
            var s1 := Hold(s0, Request1(), 1, 0).0;
            var s2 := Hold(s1, Request1(), 2, LATE).0;
            var s3 := Confirm(s2, 2, LATE).0;
            var s4 := Cancel(s3, 1).0;
            var s5 := Hold(s4, Request1(), 3, LATE).0;
            var s6 := Confirm(s5, 3, LATE).0;
            && Fresh(s0) && !CancelSafe(s3, 1, LATE)
            && PaidItem(s6, 2, K) && PaidItem(s6, 3, K)
  {
    hide Hold, Confirm, Cancel;
    var s0 := Store(map[K := FREE], map[], map[K := price]);
    HoldOneSeat(s0, 1, 0);
    var s1 := Hold(s0, Request1(), 1, 0).0;
    HoldOneSeat(s1, 2, LATE);
    var s2 := Hold(s1, Request1(), 2, LATE).0;
    ConfirmOneSeat(s2, 2, LATE);
    var s3 := Confirm(s2, 2, LATE).0;
    CancelOneSeat(s3, 1);
    var s4 := Cancel(s3, 1).0;
    HoldOneSeat(s4, 3, LATE);
    var s5 := Hold(s4, Request1(), 3, LATE).0;
    ConfirmOneSeat(s5, 3, LATE);
  }
}
