/**
 * Which booking an incoming transfer confirms: what the amount, the payment window, the receipt's
 * operation number and the payer's identity have to say (src/bookings/bookings.service.ts).
 */
module TransferMatching {
  import opened Base
  import opened Identity
  import opened ClubData
  import opened BookingRules

  lemma {:induction false} FilterDistinct(ids: seq<BookingId>, p: BookingId -> bool)
    requires NoRepeats(ids)
    ensures NoRepeats(Filter(ids, p))
  {
    if ids != [] {
      var rest := ids[1..];
      assert forall i :: 0 <= i < |rest| ==> rest[i] == ids[i + 1];
      FilterDistinct(rest, p);
      assert ids[0] !in rest;
      assert ids[0] !in Filter(rest, p);
    }
  }

  lemma AllOne(ids: seq<BookingId>, i: BookingId)
    requires NoRepeats(ids) && i in ids && forall x :: x in ids ==> x == i
    ensures ids == [i]
  {
    var last := ids[|ids| - 1];
    assert ids[0] in ids && last in ids;
  }

  /** One of the candidates is picked exactly when it fits and no other candidate does. */
  lemma OnlyExactly(ids: seq<BookingId>, p: BookingId -> bool, i: BookingId)
    requires NoRepeats(ids)
    ensures Only(Filter(ids, p)) == Some(i) <==> i in ids && p(i) && forall j :: j in ids && p(j) ==> j == i
  {
    FilterDistinct(ids, p);
    var found := Filter(ids, p);
    if i in ids && p(i) && forall j :: j in ids && p(j) ==> j == i {
      assert i in found;
      assert forall x :: x in found ==> x == i;
      AllOne(found, i);
    }
    if found == [i] {
      assert i in found;
      assert forall j :: j in ids && p(j) ==> j in found;
    }
  }

  /** Whether the payer is who this booking waits for, by the rule of the account the transfer came to. */
  predicate PayerMatches(db: Db, i: BookingId, t: Transfer, readReceipt: bool) {
    i < |db.bookings| &&
    (if StrictDni(db, t.account) then DniFits(db.bookings[i], t.payer, readReceipt)
     else PayerFits(db.bookings[i], t.payer, readReceipt))
  }

  /** A booking is chosen by its payer exactly when the payer matches it and no other candidate. */
  lemma ChosenExactly(db: Db, ids: seq<BookingId>, t: Transfer, readReceipt: bool, i: BookingId)
    requires NoRepeats(ids)
    ensures Choose(db, ids, t, readReceipt) == Some(i) <==>
            i in ids && PayerMatches(db, i, t, readReceipt)
            && forall j :: j in ids && PayerMatches(db, j, t, readReceipt) ==> j == i
  {
    OnlyExactly(ids, (i: BookingId) => i < |db.bookings| && PayerFits(db.bookings[i], t.payer, readReceipt), i);
    OnlyExactly(ids, (i: BookingId) => i < |db.bookings| && DniFits(db.bookings[i], t.payer, readReceipt), i);
    hide Filter, PayerFits, DniFits, Only;
  }

  lemma WhereDistinct<T>(rows: seq<T>, p: T -> bool)
    ensures NoRepeats(Where(rows, p))
  {
  }

  predicate CarriesOperation(db: Db, i: BookingId, ref: string) {
    i < |db.bookings| && db.bookings[i].receiptOperationRef == Some(ref)
  }

  /** Waiting for this amount, inside its window, at a club this account may confirm for. */
  predicate IsCandidate(db: Db, i: BookingId, t: Transfer) {
    i < |db.bookings| && db.bookings[i].status.PendingPayment? && InWindow(db, db.bookings[i], t)
  }

  predicate IsExpiredCandidate(db: Db, i: BookingId, t: Transfer) {
    i < |db.bookings| && Revivable(db, db.bookings[i], t)
  }

  predicate OnlyOperation(db: Db, i: BookingId, t: Transfer) {
    IsCandidate(db, i, t) && CarriesOperation(db, i, t.ref)
    && forall j :: 0 <= j < |db.bookings| && IsCandidate(db, j, t) && CarriesOperation(db, j, t.ref) ==> j == i
  }

  predicate OnlyPayer(db: Db, i: BookingId, t: Transfer) {
    IsCandidate(db, i, t) && PayerMatches(db, i, t, true)
    && forall j :: 0 <= j < |db.bookings| && IsCandidate(db, j, t) && PayerMatches(db, j, t, true) ==> j == i
  }

  predicate OnlyExpiredPayer(db: Db, i: BookingId, t: Transfer) {
    IsExpiredCandidate(db, i, t) && PayerMatches(db, i, t, false)
    && forall j :: 0 <= j < |db.bookings| && IsExpiredCandidate(db, j, t) && PayerMatches(db, j, t, false) ==> j == i
  }

  lemma CandidatesAre(db: Db, t: Transfer)
    ensures NoRepeats(Candidates(db, t)) && NoRepeats(ExpiredCandidates(db, t))
    ensures forall i :: i in Candidates(db, t) <==> IsCandidate(db, i, t)
    ensures forall i :: i in ExpiredCandidates(db, t) <==> IsExpiredCandidate(db, i, t)
  {
    hide InWindow;
    WhereDistinct(db.bookings, (b: Booking) => b.status.PendingPayment? && InWindow(db, b, t));
    WhereDistinct(db.bookings, (b: Booking) => Revivable(db, b, t));
  }

  lemma PendingMatchExactly(db: Db, t: Transfer, i: BookingId)
    ensures PendingMatch(db, t) == Some(i) <==>
            OnlyOperation(db, i, t) || ((forall k :: 0 <= k < |db.bookings| ==> !OnlyOperation(db, k, t))
                                        && OnlyPayer(db, i, t))
  {
    hide Candidates, Choose, Filter, Only, InWindow, PayerMatches;
    CandidatesAre(db, t);
    var ids := Candidates(db, t);
    forall k: BookingId
      ensures ByOperation(db, ids, t.ref) == Some(k) <==> OnlyOperation(db, k, t)
    {
      OnlyExactly(ids, (i: BookingId) => i < |db.bookings| && db.bookings[i].receiptOperationRef == Some(t.ref), k);
    }
    ChosenExactly(db, ids, t, true, i);
  }

  lemma ReviveMatchExactly(db: Db, t: Transfer, i: BookingId)
    ensures ReviveMatch(db, t) == Some(i) <==>
            OnlyExpiredPayer(db, i, t) && db.bookings[i].slotId < |db.slots|
            && db.slots[db.bookings[i].slotId].status.Available?
  {
    hide ExpiredCandidates, Choose, InWindow, PayerMatches;
    CandidatesAre(db, t);
    ChosenExactly(db, ExpiredCandidates(db, t), t, false, i);
  }

  /**
   * A transfer confirms a booking exactly when it was never used and the booking is the one it
   * names: the only pending one in its window whose receipt carries its operation number; else the
   * only pending one its payer matches; and, when nothing pending waits for that amount, the only
   * expired one its payer matches, if its court is still free.
   */
  lemma TransferConfirmsExactly(db: Db, t: Transfer, i: BookingId)
    ensures ConfirmByAmount(db, t).1 == Some(i) <==>
            && !RefUsed(db.bookings, t.ref)
            && (if exists k :: 0 <= k < |db.bookings| && IsCandidate(db, k, t)
                then OnlyOperation(db, i, t)
                     || ((forall k :: 0 <= k < |db.bookings| ==> !OnlyOperation(db, k, t)) && OnlyPayer(db, i, t))
                else OnlyExpiredPayer(db, i, t) && db.bookings[i].slotId < |db.slots|
                     && db.slots[db.bookings[i].slotId].status.Available?)
  {
    hide Candidates, PendingMatch, ReviveMatch, RefUsed, InWindow, PayerMatches, CarriesOperation, Revive;
    CandidatesAre(db, t);
    PendingMatchExactly(db, t, i);
    ReviveMatchExactly(db, t, i);
    if Candidates(db, t) != [] {
      assert Candidates(db, t)[0] in Candidates(db, t);
    }
  }

  /** The booking says who will pay: an account, a DNI, or the DNI on the receipt the player sent. */
  predicate ExpectsSomebody(b: Booking) {
    b.payerMpUserId.Some? || b.playerDni.Some? || Truthy(b.receiptPayerDni)
  }

  predicate ExpectsReceiptOnly(b: Booking) {
    b.payerMpUserId.None? && b.playerDni.None? && Truthy(b.receiptPayerDni)
  }

  /** The transfer is the operation on the receipt, or its payer is one the booking expects. */
  predicate NamesBooking(b: Booking, t: Transfer) {
    var dni := DniFromIdentification(t.payer.cuit);
    || b.receiptOperationRef == Some(t.ref)
    || (t.payer.mpUserId.Some? && b.payerMpUserId == t.payer.mpUserId)
    || DniMatches(b.playerDni, dni) || DniMatches(b.receiptPayerDni, dni)
  }

  /**
   * A booking that expects somebody is never confirmed by a transfer of somebody else's, except an
   * expired one that expects only its receipt's payer: the revive path does not read the receipt.
   */
  lemma StrangersConfirmNothing(db: Db, t: Transfer, i: BookingId)
    requires i < |db.bookings| && ConfirmByAmount(db, t).1 == Some(i) && ExpectsSomebody(db.bookings[i])
    ensures var b := db.bookings[i];
            NamesBooking(b, t) || (b.status.Cancelled? && ExpectsReceiptOnly(b) && !StrictDni(db, t.account))
  {
    hide InWindow, RefUsed, DniFromIdentification, ConfirmByAmount, DigitsOnly;
    TransferConfirmsExactly(db, t, i);
  }

  /** Exactly when a transfer that does not name the booking confirms it all the same. */
  lemma StrangerConfirmsExactly(db: Db, t: Transfer, i: BookingId)
    requires i < |db.bookings| && ExpectsSomebody(db.bookings[i])
    ensures var b := db.bookings[i];
      ConfirmByAmount(db, t).1 == Some(i) && !NamesBooking(b, t) <==>
        && !NamesBooking(b, t) && ExpectsReceiptOnly(b) && !StrictDni(db, t.account)
        && !RefUsed(db.bookings, t.ref)
        && (forall k :: 0 <= k < |db.bookings| ==> !IsCandidate(db, k, t))
        && IsExpiredCandidate(db, i, t) && b.slotId < |db.slots| && db.slots[b.slotId].status.Available?
        && (forall j :: 0 <= j < |db.bookings| && IsExpiredCandidate(db, j, t) && PayerMatches(db, j, t, false) ==>
              j == i)
  {
    hide InWindow, RefUsed, DniFromIdentification, ConfirmByAmount, DigitsOnly;
    TransferConfirmsExactly(db, t, i);
    if IsExpiredCandidate(db, i, t) && ExpectsReceiptOnly(db.bookings[i]) && !StrictDni(db, t.account) {
      assert PayerMatches(db, i, t, false);
    }
  }
}
