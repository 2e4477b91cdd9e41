/**
 * Where the booking service keeps less than it means to: references that are the empty string, and
 * bookings removed from the club's lists (src/bookings/bookings.service.ts).
 */
module Findings {
  import opened Base
  import opened ClubData
  import opened BookingRules
  import opened BookingLaws
  import opened ClubRuns
  import opened TransferMatching

  // ── The empty reference ─────────────────────────────────────────────────────

  /** No reference at all, the empty one included, is on two bookings. */
  ghost predicate EveryRefSingleUse(bookings: seq<Booking>) {
    forall i, j :: 0 <= i < j < |bookings| && bookings[i].mpPaymentId.Some? ==>
      bookings[i].mpPaymentId != bookings[j].mpPaymentId
  }

  /** The desk confirms a pending booking with a blank reference that another booking already carries. */
  predicate RepeatsBlankRef(db: Db, clubId: ClubId, i: BookingId, ref: Option<string>) {
    && ref == Some("") && RefUsed(db.bookings, "")
    && IsPending(db, i) && db.bookings[i].clubId == clubId
    && !(ClubOf(db, clubId).verification.Receipt? && db.bookings[i].receipts == 0
         && db.bookings[i].bookedByUserId.None?)
  }

  lemma EditedRefs(bookings: seq<Booking>, i: BookingId, b: Booking)
    requires EveryRefSingleUse(bookings) && i < |bookings| && bookings[i].mpPaymentId.None?
    ensures EveryRefSingleUse(bookings[i := b]) <==> b.mpPaymentId.None? || !RefUsed(bookings, b.mpPaymentId.value)
  {
    var after := bookings[i := b];
    if b.mpPaymentId.Some? && RefUsed(bookings, b.mpPaymentId.value) {
      var j :| 0 <= j < |bookings| && bookings[j].mpPaymentId == b.mpPaymentId;
      assert after[j].mpPaymentId == after[i].mpPaymentId && after[i].mpPaymentId.Some? && i != j;
    }
  }

  /**
   * The desk's single-use check skips a blank reference: a confirmation keeps every reference on
   * one booking exactly when it does not repeat a blank one.
   */
  lemma DeskKeepsRefsExactly(db: Db, clubId: ClubId, i: BookingId, ref: Option<string>, payer: Payer)
    requires Inv(db) && EveryRefSingleUse(db.bookings)
    ensures EveryRefSingleUse(ConfirmManual(db, clubId, i, ref, payer).db.bookings) <==>
            !RepeatsBlankRef(db, clubId, i, ref)
  {
    if IsPending(db, i) {
      assert SoundMoney(db.bookings[i], db.players);
      hide Inv, EveryRefSingleUse;
      EditedRefs(db.bookings, i, WithPayment(db.bookings[i], ref, payer));
    }
  }

  /** A transfer seen on the account never repeats a reference, blank or not. */
  lemma TransfersKeepRefs(db: Db, t: Transfer)
    requires Inv(db) && EveryRefSingleUse(db.bookings)
    ensures EveryRefSingleUse(ConfirmByAmount(db, t).0.bookings)
  {
    if Revives(db, t) {
      ReviveLaw(db, t);
      ReviveMatchIsRevivable(db, t);
      hide Inv, EveryRefSingleUse, ReviveMatch, ConfirmByAmount;
      var i := ReviveMatch(db, t).value;
      EditedRefs(db.bookings, i, WithPayment(db.bookings[i], Some(t.ref), t.payer));
    } else if !RefUsed(db.bookings, t.ref) && Candidates(db, t) != [] {
      PendingKeepsRefs(db, t);
    }
  }

  lemma PendingKeepsRefs(db: Db, t: Transfer)
    requires Inv(db) && EveryRefSingleUse(db.bookings) && !RefUsed(db.bookings, t.ref) && Candidates(db, t) != []
    ensures EveryRefSingleUse(ConfirmByAmount(db, t).0.bookings)
  {
    var chosen := PendingMatch(db, t);
    if chosen.Some? && IsPending(db, chosen.value) {
      assert SoundMoney(db.bookings[chosen.value], db.players);
      hide Inv, EveryRefSingleUse, PendingMatch;
      EditedRefs(db.bookings, chosen.value, WithPayment(db.bookings[chosen.value], Some(t.ref), t.payer));
    }
  }

  // ── Two concrete clubs ──────────────────────────────────────────────────────

  const HOUR := Slot("club", "court 1", 1000, 2000, 500, Booked, None)
  const WAITING := Booking(0, "club", None, None, None, None, None, None, None, Some(1), PendingPayment, 100, 0,
                           Some(100),
                           None, None, Some(20), false, 0, 0, 0, 0, false, 10)
  const NOBODY := Payer(None, None)

  /** Two bookings waiting for money, on two courts. */
  const TWO_WAITING := Db([HOUR, HOUR.(courtId := "court 2")], [WAITING, WAITING.(slotId := 1)], map[], map[], map[],
                          map[])

  lemma TwoWaitingIsSound()
    ensures Inv(TWO_WAITING)
  {
    var db := TWO_WAITING;
    assert HoldsSlot(db.bookings[0], 0) && HoldsSlot(db.bookings[1], 1);
  }

  /** Confirming both at the desk with a blank reference leaves it on both. */
  lemma BlankRefConfirmsTwo()
    ensures Inv(TWO_WAITING) && EveryRefSingleUse(TWO_WAITING.bookings)
    ensures var calls := [DeskConfirmation("club", 0, Some(""), NOBODY), DeskConfirmation("club", 1, Some(""), NOBODY)];
            !EveryRefSingleUse(Step(Step(TWO_WAITING, calls[0]), calls[1]).bookings)
  {
    TwoWaitingIsSound();
    var one := Step(TWO_WAITING, DeskConfirmation("club", 0, Some(""), NOBODY));
    assert one.bookings[0].mpPaymentId == Some("") && one.bookings[1] == WAITING.(slotId := 1);
    var two := Step(one, DeskConfirmation("club", 1, Some(""), NOBODY));
    assert two.bookings[0].mpPaymentId == Some("") == two.bookings[1].mpPaymentId;
  }

  /** One booking that expired and was then removed from the club's lists; its court is free. */
  const ONE_REMOVED := Db([HOUR.(status := Available)], [WAITING.(status := Cancelled, deleted := true)], map[], map[],
                          map[], map[])
  const LATE_TRANSFER := Transfer(100, "mp-1", 15, None, NOBODY)

  lemma OneRemovedIsSound()
    ensures Inv(ONE_REMOVED) && NoneHidden(ONE_REMOVED.bookings)
  {
  }

  lemma {:induction false} NoneSelected<T>(rows: seq<T>, p: T -> bool, n: nat)
    requires n <= |rows| && forall i :: 0 <= i < n ==> !p(rows[i])
    ensures WhereBelow(rows, n, p) == []
  {
    if n > 0 {
      NoneSelected(rows, p, n - 1);
    }
  }

  lemma OnlySelected<T>(row: T, p: T -> bool)
    requires p(row)
    ensures Where([row], p) == [0]
  {
    NoneSelected([row], p, 0);
    assert WhereBelow([row], 1, p) == WhereBelow([row], 0, p) + [0];
  }

  lemma OnlyExpired(db: Db, t: Transfer, b: Booking)
    requires db.bookings == [b] && Revivable(db, b, t)
    ensures ExpiredCandidates(db, t) == [0]
  {
    OnlySelected(b, (b: Booking) => Revivable(db, b, t));
  }

  lemma OnlyCandidate(db: Db, t: Transfer, b: Booking)
    requires db.bookings == [b] && Revivable(db, b, t) && !StrictDni(db, t.account)
    requires b.payerMpUserId.None? && b.playerDni.None? && b.slotId < |db.slots| && db.slots[b.slotId].status.Available?
    ensures ReviveMatch(db, t) == Some(0)
  {
    OnlyExpired(db, t, b);
    hide ExpiredCandidates;
    assert PayerFits(db.bookings[0], t.payer, false);
    assert [0][1..] == [];
  }

  /** A transfer made in time brings the removed booking back: live, and still out of every list. */
  lemma RemovedComesBack()
    ensures Inv(ONE_REMOVED) && NoneHidden(ONE_REMOVED.bookings)
    ensures RevivesRemoved(ONE_REMOVED, TransferSeen(LATE_TRANSFER))
    ensures !NoneHidden(Step(ONE_REMOVED, TransferSeen(LATE_TRANSFER)).bookings)
  {
    OneRemovedIsSound();
    var db := ONE_REMOVED;
    OnlyCandidate(db, LATE_TRANSFER, db.bookings[0]);
    NothingPending(db, LATE_TRANSFER);
    CallsBackExactly(db, LATE_TRANSFER);
    RemovedStaysDeadUnlessRevived(db, TransferSeen(LATE_TRANSFER));
  }

  /** One expired booking that expects the payer on its receipt and nobody else; its court is free. */
  const ONE_WITH_RECEIPT := Db([HOUR.(status := Available)],
                               [WAITING.(status := Cancelled, receiptPayerDni := Some("30111222"))],
                               map[], map[], map[], map[])

  /** A transfer whose payer is unknown revives it, and the booking is confirmed for a stranger. */
  lemma StrangerRevives()
    ensures Inv(ONE_WITH_RECEIPT) && ExpectsSomebody(ONE_WITH_RECEIPT.bookings[0])
    ensures !NamesBooking(ONE_WITH_RECEIPT.bookings[0], LATE_TRANSFER)
    ensures ConfirmByAmount(ONE_WITH_RECEIPT, LATE_TRANSFER).1 == Some(0)
  {
    var db := ONE_WITH_RECEIPT;
    OnlyCandidate(db, LATE_TRANSFER, db.bookings[0]);
    NothingPending(db, LATE_TRANSFER);
    hide ReviveMatch, Candidates, ExpiredCandidates;
  }

  const ANA: PlayerKey := PlayerKey("club", "54911")

  /**
   * One booking that expired: 40 of its 100 were credit, which the expiry gave back, and 60 were
   * awaited as a transfer. Its court is free.
   */
  const ONE_WITH_CREDIT := Db([HOUR.(status := Available)],
                              [WAITING.(status := Cancelled, playerPhone := Some(ANA.phone), playerId := Some(ANA),
                                        creditAppliedCents := 40,
                                        transferAmountCents := Some(60))],
                              map[ANA := Player(40, false, 0)], map[], map[], map[])
  const LATE_REST := LATE_TRANSFER.(amountCents := 60)

  lemma OneWithCreditIsSound()
    ensures Inv(ONE_WITH_CREDIT)
  {
  }

  /** The transfer of the 60 in its window revives it: the player has the 40 on the booking and in hand. */
  lemma CreditComesBackTwice()
    ensures Inv(ONE_WITH_CREDIT) && GivesCreditTwice(ONE_WITH_CREDIT, TransferSeen(LATE_REST))
    ensures var c := Step(ONE_WITH_CREDIT, TransferSeen(LATE_REST));
      && c.bookings[0].status.Confirmed? && c.bookings[0].creditAppliedCents == 40 && CreditOf(c, ANA) == 40
      && Balance(c, ANA) == Balance(ONE_WITH_CREDIT, ANA) + 40
  {
    OneWithCreditIsSound();
    var db := ONE_WITH_CREDIT;
    OnlyCandidate(db, LATE_REST, db.bookings[0]);
    NothingPending(db, LATE_REST);
    StepLaw(db, TransferSeen(LATE_REST));
    ReattachedExactly(db, TransferSeen(LATE_REST));
    hide ReviveMatch, Candidates, ExpiredCandidates, Balance;
    assert ReattachedBy(db, TransferSeen(LATE_REST), ANA) == 40;
  }

  lemma NothingPending(db: Db, t: Transfer)
    requires forall i :: 0 <= i < |db.bookings| ==> db.bookings[i].status.Cancelled?
    ensures Candidates(db, t) == []
  {
    NoneSelected(db.bookings, (b: Booking) => b.status.PendingPayment? && InWindow(db, b, t), |db.bookings|);
  }
}
