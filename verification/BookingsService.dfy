/**
 * The bookings service writing its tables step by step (src/bookings/bookings.service.ts). Each
 * method is tied to the rule of its call, about which the booking laws and the runs speak.
 */
module BookingsService {
  import opened Base
  import opened Identity
  import opened ClubData
  import opened RowMoves
  import opened Pricing
  import opened BookingRules
  import opened Tables
  import SlotPricing = SlotPricingService

  class BookingsService {
    const prisma: Database

    constructor (prisma: Database)
      ensures this.prisma == prisma
    {
      this.prisma := prisma;
    }

    // ── Locks ─────────────────────────────────────────────────────────────────

    /** The conditional flip AVAILABLE → BOOKED; false when nothing matched. */
    method LockSlot(s: SlotId) returns (won: bool)
      modifies prisma`slots
      ensures won <==> s < |old(prisma.slots)| && old(prisma.slots)[s].status.Available?
      ensures prisma.slots == if won then old(prisma.slots)[s := old(prisma.slots)[s].(status := Booked)]
                              else old(prisma.slots)
    {
      won := s < |prisma.slots| && prisma.slots[s].status.Available?;
      if won {
        prisma.slots := prisma.slots[s := prisma.slots[s].(status := Booked)];
      }
    }

    /** The insert the unique index guards; None when it refuses the row. */
    method CreateBookedSlot(slot: Slot) returns (id: Option<SlotId>)
      modifies prisma`slots
      ensures id.None? <==> StartTaken(old(prisma.slots), slot)
      ensures id.None? ==> prisma.slots == old(prisma.slots)
      ensures id.Some? ==> id.value == |old(prisma.slots)| &&
                           prisma.slots == old(prisma.slots) + [slot.(status := Booked, eventId := None)]
    {
      if exists i :: 0 <= i < |prisma.slots| && SameStart(prisma.slots[i], slot) {
        return None;
      }
      id := Some(|prisma.slots|);
      prisma.slots := prisma.slots + [slot.(status := Booked, eventId := None)];
    }

    /** The slot that is now BOOKED for the caller, or None when somebody else has it. */
    method TakePlace(place: Place) returns (taken: Option<SlotId>)
      modifies prisma`slots
      ensures place.Existing? ==> (taken == if place.s < |old(prisma.slots)|
                                   && old(prisma.slots)[place.s].status.Available? then Some(place.s) else None)
      ensures place.Fresh? ==> (taken == if StartTaken(old(prisma.slots), place.slot) then None
                                         else Some(|old(prisma.slots)|))
      ensures taken.None? ==> prisma.slots == old(prisma.slots)
      ensures taken.Some? && place.Existing? ==>
                prisma.slots == old(prisma.slots)[place.s := old(prisma.slots)[place.s].(status := Booked)]
      ensures taken.Some? && place.Fresh? ==>
                prisma.slots == old(prisma.slots) + [place.slot.(status := Booked, eventId := None)]
    {
      match place {
        case Existing(s) =>
          var won := LockSlot(s);
          taken := if won then Some(s) else None;
        case Fresh(slot) =>
          taken := CreateBookedSlot(slot);
      }
    }

    /** Locks or materializes the place and creates the booking on it, or does neither. */
    method PlaceBooking(place: Place, b: Booking) returns (r: Result<BookingId>)
      modifies prisma
      ensures var put := PutOrKeep(old(prisma.Rows()), place, b);
              prisma.Rows() == put.db && r == put.result
    {
      var slotId := TakePlace(place);
      if slotId.None? {
        return Err(Conflict);
      }
      r := Ok(|prisma.bookings|);
      prisma.bookings := prisma.bookings + [b.(slotId := slotId.value)];
    }

    method UpsertForBooking(clubId: ClubId, phone: Option<string>) returns (playerId: Option<PlayerKey>)
      modifies prisma`players
      ensures (prisma.Rows(), playerId) == UpsertPlayer(old(prisma.Rows()), clubId, phone)
    {
      var digits := if Truthy(phone) then DigitsOnly(phone.value) else "";
      if |digits| < 6 {
        return None;
      }
      var key := PlayerKey(clubId, digits);
      if key !in prisma.players {
        prisma.players := prisma.players[key := Player(0, false, 0)];
      }
      playerId := Some(key);
    }

    // ── Creating ──────────────────────────────────────────────────────────────

    method BookSlot(clubId: ClubId, s: SlotId, who: Who, bookedBy: Option<int>,
                    now: Instant) returns (r: Result<BookingId>)
      modifies prisma
      ensures var rule := Book(old(prisma.Rows()), clubId, s, who, bookedBy, now);
              prisma.Rows() == rule.db && r == rule.result
    {
      if !(s < |prisma.slots| && prisma.slots[s].clubId == clubId) {
        return Err(NotFound);
      }
      if !prisma.slots[s].status.Available? {
        return Err(Conflict);
      }
      var deposit := DepositFor(ClubOf(prisma.Rows(), clubId), prisma.slots[s].priceCents);
      var playerId := UpsertForBooking(clubId, who.phone);
      var b := NewBooking(clubId, who, playerId, now).(
        playerDni := None,
        bookedByUserId := bookedBy,
        depositCents := deposit,
        status := if deposit == 0 then Confirmed else PendingPayment);
      r := PlaceBooking(Existing(s), b);
    }

    method BookCourtBand(clubId: ClubId, req: BandRequest, who: Who, now: Instant) returns (r: Result<BookingId>)
      modifies prisma
      ensures var rule := BookBand(old(prisma.Rows()), clubId, req, who, now);
              prisma.Rows() == rule.db && r == rule.result
    {
      var check := CheckBand(prisma.Rows(), clubId, req, now);
      if check.Err? {
        return Err(check.error);
      }
      var playerId := UpsertForBooking(clubId, who.phone);
      var place := PlaceFor(prisma.Rows(), clubId, req.courtId, check.value, req.priceCents);
      r := PlaceBooking(place, NewBooking(clubId, who, playerId, now).(playerDni := None));
    }

    /** Searches the bucket's tags in order, after preferring the deposit's own. */
    method AllocateTransferAmount(depositCents: Cents) returns (amount: Cents)
      ensures amount == AllocateAmount(prisma.bookings, depositCents)
    {
      var whole := depositCents / 100 * 100;
      if !AmountInUse(prisma.bookings, depositCents) {
        return depositCents;
      }
      for tag := 0 to 100
        invariant FirstFreeTag(prisma.bookings, whole, 0) == FirstFreeTag(prisma.bookings, whole, tag)
      {
        if !AmountInUse(prisma.bookings, whole + tag) {
          return whole + tag;
        }
      }
      return depositCents;
    }

    /** Takes the credit only if there is enough of it at that moment. */
    method ConsumeCredit(player: PlayerKey, cents: Cents) returns (done: bool)
      modifies prisma`players
      ensures done <==> player in old(prisma.players) && old(prisma.players)[player].creditCents >= cents
      ensures prisma.players == if done then AddCredit(old(prisma.players), player, -cents) else old(prisma.players)
    {
      done := player in prisma.players && prisma.players[player].creditCents >= cents;
      if done {
        var row := prisma.players[player];
        prisma.players := prisma.players[player := row.(creditCents := row.creditCents - cents)];
      }
    }

    /** Credit, amount and booking in one transaction: a lost place gives the credit back. */
    method CreatePendingWithCredit(clubId: ClubId, who: Who, playerId: Option<PlayerKey>, terms: Terms, place: Place,
                                   now: Instant)
      returns (r: Result<Pending>)
      requires playerId.Some? ==> playerId.value in prisma.players
      modifies prisma
      ensures var rule := CreatePending(old(prisma.Rows()), clubId, who, playerId, terms, place, now);
              prisma.Rows() == rule.db && r == rule.result
    {
      hide PutOrKeep, Put, AllocateAmount, KnownPayer, DepositFor, NewBooking;
      var before := prisma.Rows();
      var known := if terms.depositCents > 0 then KnownPayer(prisma.bookings, clubId, who.phone) else None;
      var deposit := terms.depositCents;
      var withoutDeposit := deposit <= 0;
      var creditApplied := if playerId.Some? && !withoutDeposit then Min(terms.availableCreditCents, deposit) else 0;
      var remaining := deposit - creditApplied;
      var coveredByCredit := creditApplied > 0 && remaining == 0;
      var confirmedNow := withoutDeposit || coveredByCredit;
      var tagged := !withoutDeposit && !coveredByCredit && remaining == deposit
                    && !AsksRoundAmount(ClubOf(before, clubId)) && !Truthy(known);
      if creditApplied > 0 {
        var done := ConsumeCredit(playerId.value, creditApplied);
        if !done {
          return Err(Conflict);
        }
      }
      var transfer: Option<Cents> := None;
      if !confirmedNow {
        if remaining != deposit {
          transfer := Some(remaining);
        } else if tagged {
          var amount := AllocateTransferAmount(deposit);
          transfer := Some(amount);
        } else {
          transfer := Some(RoundToWholePesos(deposit));
        }
      }
      var charge := Charge(creditApplied, confirmedNow, coveredByCredit, tagged, transfer);
      assert charge == ChargeFor(before, ClubOf(before, clubId), terms, playerId.Some?, known);
      assert prisma.Rows() == SpendCredit(before, playerId, creditApplied);
      var placed := PlaceBooking(place, PendingRow(clubId, who, playerId, terms, charge, known, now));
      PlacedOrNot(SpendCredit(before, playerId, creditApplied), place,
                  PendingRow(clubId, who, playerId, terms, charge, known, now));
      if placed.Err? {
        prisma.Rollback(before);
        return Err(placed.error);
      }
      return Ok(Pending(placed.value, deposit, if transfer.Some? then transfer.value
                                               else 0, creditApplied, coveredByCredit, withoutDeposit));
    }

    method StartPendingBooking(clubId: ClubId, who: Who, priceCents: nat, place: Place,
                               now: Instant) returns (r: Result<Pending>)
      modifies prisma
      ensures var rule := StartPending(old(prisma.Rows()), clubId, who, priceCents, place, now);
              prisma.Rows() == rule.db && r == rule.result
    {
      hide CreatePending, UpsertPlayer;
      var club := ClubOf(prisma.Rows(), clubId);
      var playerId := UpsertForBooking(clubId, who.phone);
      var terms := PlayerTerms(prisma.Rows(), club, playerId, priceCents);
      if terms.Err? {
        return Err(terms.error);
      }
      r := CreatePendingWithCredit(clubId, who, playerId, terms.value, place, now);
    }

    method BookPendingSlot(clubId: ClubId, s: SlotId, who: Who, now: Instant) returns (r: Result<Pending>)
      modifies prisma
      ensures var rule := BookPending(old(prisma.Rows()), clubId, s, who, now);
              prisma.Rows() == rule.db && r == rule.result
    {
      hide StartPending;
      if !(s < |prisma.slots| && prisma.slots[s].clubId == clubId) {
        return Err(NotFound);
      }
      if !prisma.slots[s].status.Available? {
        return Err(Conflict);
      }
      r := StartPendingBooking(clubId, who, prisma.slots[s].priceCents, Existing(s), now);
    }

    method BookCourtBandPending(clubId: ClubId, req: BandRequest, who: Who, now: Instant) returns (r: Result<Pending>)
      modifies prisma
      ensures var rule := BookBandPending(old(prisma.Rows()), clubId, req, who, now);
              prisma.Rows() == rule.db && r == rule.result
    {
      hide StartPending;
      var check := CheckBand(prisma.Rows(), clubId, req, now);
      if check.Err? {
        return Err(check.error);
      }
      r := StartPendingBooking(clubId, who, req.priceCents,
                               PlaceFor(prisma.Rows(), clubId, req.courtId, check.value, req.priceCents), now);
    }

    // ── Confirming ────────────────────────────────────────────────────────────

    /** The conditional write: nothing happens unless the booking is still pending. */
    method Confirm(i: BookingId, ref: Option<string>, payer: Payer) returns (confirmed: bool)
      modifies prisma`bookings
      ensures (prisma.Rows(), confirmed) == ConfirmPayment(old(prisma.Rows()), i, ref, payer)
    {
      confirmed := i < |prisma.bookings| && prisma.bookings[i].status.PendingPayment?;
      if confirmed {
        var b := prisma.bookings[i];
        prisma.bookings := prisma.bookings[i := b.(
          status := Confirmed,
          mpPaymentId := ref,
          payerMpUserId := if Truthy(payer.mpUserId) then payer.mpUserId else b.payerMpUserId,
          receipts := 0)];
      }
    }

    /** The three writes of the expiry-versus-payment race: slot re-taken, pending again, confirmed. */
    method ReviveExpiredCandidate(t: Transfer) returns (revived: Option<BookingId>)
      modifies prisma
      ensures revived == ReviveMatch(old(prisma.Rows()), t)
      ensures prisma.Rows() == if revived.Some? then Revive(old(prisma.Rows()), revived.value, t)
                               else old(prisma.Rows())
    {
      hide Choose, ExpiredCandidates;
      var candidates := ExpiredCandidates(prisma.Rows(), t);
      var chosen := Choose(prisma.Rows(), candidates, t, false);
      if chosen.None? || chosen.value >= |prisma.bookings| {
        return None;
      }
      var i := chosen.value;
      var won := LockSlot(prisma.bookings[i].slotId);
      if !won {
        return None;
      }
      prisma.bookings := prisma.bookings[i := prisma.bookings[i].(status := PendingPayment)];
      var confirmed := Confirm(i, Some(t.ref), t.payer);
      return Some(i);
    }

    method ConfirmPaymentByAmount(t: Transfer) returns (confirmed: Option<BookingId>)
      modifies prisma
      ensures (prisma.Rows(), confirmed) == ConfirmByAmount(old(prisma.Rows()), t)
    {
      hide Choose, ExpiredCandidates, Candidates, ByOperation, Revive, ReviveMatch;
      if exists i :: 0 <= i < |prisma.bookings| && prisma.bookings[i].mpPaymentId == Some(t.ref) {
        return None;
      }
      var candidates := Candidates(prisma.Rows(), t);
      if candidates == [] {
        confirmed := ReviveExpiredCandidate(t);
        return;
      }
      var byOperation := ByOperation(prisma.Rows(), candidates, t.ref);
      var chosen := if byOperation.Some? then byOperation else Choose(prisma.Rows(), candidates, t, true);
      if chosen.None? {
        return None;
      }
      var done := Confirm(chosen.value, Some(t.ref), t.payer);
      return if done then chosen else None;
    }

    method ConfirmPaymentManual(clubId: ClubId, i: BookingId, ref: Option<string>,
                                payer: Payer) returns (r: Result<Option<BookingId>>)
      modifies prisma
      ensures var rule := ConfirmManual(old(prisma.Rows()), clubId, i, ref, payer);
              prisma.Rows() == rule.db && r == rule.result
    {
      if !(i < |prisma.bookings| && prisma.bookings[i].clubId == clubId) {
        return Err(NotFound);
      }
      var b := prisma.bookings[i];
      if !b.status.PendingPayment? {
        return Ok(None);
      }
      if Truthy(ref) && RefUsed(prisma.bookings, ref.value) {
        return Err(BadRequest);
      }
      if ClubOf(prisma.Rows(), clubId).verification.Receipt? && b.receipts == 0 && b.bookedByUserId.None?
         && !Truthy(ref) {
        return Err(BadRequest);
      }
      var done := Confirm(i, ref, payer);
      return Ok(Some(i));
    }

    // ── Cancelling ────────────────────────────────────────────────────────────

    /** One transaction: status and outcome, slot freed, credit back. */
    method CloseBooking(i: BookingId, outcome: Option<DepositOutcome>, refund: Cents)
      requires i < |prisma.bookings|
      modifies prisma
      ensures prisma.Rows() == Close(old(prisma.Rows()), i, outcome, refund)
    {
      var b := prisma.bookings[i];
      prisma.bookings := prisma.bookings[i := b.(status := Cancelled, depositOutcome := outcome)];
      if b.slotId < |prisma.slots| {
        prisma.slots := prisma.slots[b.slotId := prisma.slots[b.slotId].(status := Available)];
      }
      if refund > 0 && b.playerId.Some? && b.playerId.value in prisma.players {
        var player := prisma.players[b.playerId.value];
        prisma.players := prisma.players[b.playerId.value := player.(creditCents := player.creditCents + refund)];
      }
    }

    method CancelBooking(clubId: ClubId, i: BookingId, now: Instant) returns (r: Result<()>)
      modifies prisma
      ensures var rule := Cancel(old(prisma.Rows()), clubId, i, now);
              prisma.Rows() == rule.db && r == rule.result
    {
      hide Close, RepriceSlot, CancellationOutcome;
      if !(i < |prisma.bookings| && prisma.bookings[i].clubId == clubId && !prisma.bookings[i].deleted) {
        return Err(NotFound);
      }
      var b := prisma.bookings[i];
      if b.status.Cancelled? {
        return Err(BadRequest);
      }
      var (outcome, refund) := CancellationOutcome(prisma.Rows(), b, now);
      CloseBooking(i, outcome, refund);
      var slotPricing := new SlotPricing.SlotPricingService(prisma);
      var price := slotPricing.RepriceOne(b.slotId, Some(clubId));
      return Ok(());
    }

    method ReleasePendingSlot(i: BookingId) returns (released: bool)
      modifies prisma
      ensures (prisma.Rows(), released) == ReleasePending(old(prisma.Rows()), i)
    {
      hide Close, RepriceSlot;
      if !(i < |prisma.bookings| && prisma.bookings[i].status.PendingPayment?) {
        return false;
      }
      var b := prisma.bookings[i];
      CloseBooking(i, b.depositOutcome, b.creditAppliedCents);
      var slotPricing := new SlotPricing.SlotPricingService(prisma);
      var price := slotPricing.RepriceOne(b.slotId, None);
      return true;
    }

    method CancelPendingBooking(i: BookingId) returns (done: bool)
      modifies prisma
      ensures (prisma.Rows(), done) == CancelPending(old(prisma.Rows()), i)
    {
      hide Close, RepriceSlot;
      done := ReleasePendingSlot(i);
      if done && i < |prisma.bookings| {
        prisma.bookings := prisma.bookings[i := prisma.bookings[i].(receipts := 0)];
      }
    }

    /** The expiry sweep: reads the expired pendings once, then releases each that is still pending. */
    method FindAndCancelExpiredPending(now: Instant)
      modifies prisma
      ensures prisma.Rows() == SweepExpired(old(prisma.Rows()), now)
    {
      hide ReleasePending, Expired;
      var expired := Expired(prisma.Rows(), now);
      ghost var before := prisma.Rows();
      for k := 0 to |expired|
        invariant prisma.Rows() == ReleaseAll(before, expired[..k])
      {
        assert expired[..k + 1][..k] == expired[..k];
        var released := ReleasePendingSlot(expired[k]);
      }
      assert expired[..|expired|] == expired;
    }

    method RemoveBooking(clubId: ClubId, i: BookingId) returns (r: Result<()>)
      modifies prisma
      ensures var rule := Remove(old(prisma.Rows()), clubId, i);
              prisma.Rows() == rule.db && r == rule.result
    {
      if !(i < |prisma.bookings| && prisma.bookings[i].clubId == clubId && !prisma.bookings[i].deleted) {
        return Err(NotFound);
      }
      if !prisma.bookings[i].status.Cancelled? {
        return Err(BadRequest);
      }
      prisma.bookings := prisma.bookings[i := prisma.bookings[i].(deleted := true)];
      return Ok(());
    }

    // ── Moving ────────────────────────────────────────────────────────────────

    /** Gives the slot back, locks the target, points the booking at it; a lost lock undoes it all. */
    method MoveBooking(i: BookingId, s: SlotId, b: Booking) returns (moved: bool)
      requires i < |prisma.bookings| && prisma.bookings[i].slotId < |prisma.slots| && prisma.bookings[i].slotId != s
      modifies prisma
      ensures moved <==> s < |old(prisma.slots)| && old(prisma.slots)[s].status.Available?
      ensures prisma.Rows() == if moved then MoveTo(old(prisma.Rows()), i, s, b) else old(prisma.Rows())
    {
      var before := prisma.Rows();
      var from := prisma.bookings[i].slotId;
      prisma.slots := prisma.slots[from := prisma.slots[from].(status := Available)];
      moved := LockSlot(s);
      if !moved {
        prisma.Rollback(before);
        return;
      }
      prisma.bookings := prisma.bookings[i := b.(slotId := s)];
    }

    method RescheduleBooking(clubId: ClubId, i: BookingId, s: SlotId) returns (r: Result<()>)
      modifies prisma
      ensures var rule := Reschedule(old(prisma.Rows()), clubId, i, s);
              prisma.Rows() == rule.db && r == rule.result
    {
      hide MoveTo, RepriceSlot;
      if !(i < |prisma.bookings| && prisma.bookings[i].clubId == clubId && !prisma.bookings[i].deleted) {
        return Err(NotFound);
      }
      var b := prisma.bookings[i];
      if b.status.Cancelled? || b.slotId == s {
        return Err(BadRequest);
      }
      if !(s < |prisma.slots| && prisma.slots[s].clubId == clubId) {
        return Err(NotFound);
      }
      if !prisma.slots[s].status.Available? || b.slotId >= |prisma.slots| {
        return Err(Conflict);
      }
      var moved := MoveBooking(i, s, b);
      if !moved {
        return Err(Conflict);
      }
      var slotPricing := new SlotPricing.SlotPricingService(prisma);
      var price := slotPricing.RepriceOne(b.slotId, Some(clubId));
      return Ok(());
    }

    /** Takes the new hour first, then moves the booking, then gives the old hour back. */
    method RescheduleToBandByPlayer(clubId: ClubId, i: BookingId, phone: string, req: BandRequest,
                                    now: Instant) returns (moved: bool)
      requires Inv(prisma.Rows())
      modifies prisma
      ensures (prisma.Rows(), moved) == RescheduleByPlayer(old(prisma.Rows()), clubId, i, phone, req, now)
    {
      hide RepriceSlot, PlaceFor, Inv, CheckBand, StartTaken, Live;
      if !(i < |prisma.bookings| && prisma.bookings[i].clubId == clubId && prisma.bookings[i].playerPhone == Some(phone)
           && Live(prisma.bookings[i])) || prisma.bookings[i].slotId >= |prisma.slots| {
        return false;
      }
      var b := prisma.bookings[i];
      var from := b.slotId;
      LiveSlotIsBooked(prisma.Rows(), i);
      var check := CheckBand(prisma.Rows(), clubId, req, now);
      if check.Err? {
        return false;
      }
      var place := PlaceFor(prisma.Rows(), clubId, req.courtId, check.value, req.priceCents);
      var taken := TakePlace(place);
      if taken.None? {
        return false;
      }
      prisma.bookings := prisma.bookings[i := b.(slotId := taken.value, rescheduleCount := b.rescheduleCount + 1)];
      prisma.slots := prisma.slots[from := prisma.slots[from].(status := Available)];
      ghost var target := WithTarget(old(prisma.Rows()), place);
      assert target.Ok? && target.value.1 == taken.value;
      assert prisma.Rows() == PlayerMove(target.value.0, i, taken.value);
      var slotPricing := new SlotPricing.SlotPricingService(prisma);
      var price := slotPricing.RepriceOne(from, Some(clubId));
      return true;
    }
  }

  lemma LiveSlotIsBooked(db: Db, i: BookingId)
    requires Inv(db) && i < |db.bookings| && Live(db.bookings[i])
    ensures db.bookings[i].slotId < |db.slots| && db.slots[db.bookings[i].slotId].status.Booked?
  {
  }

  lemma PlacedOrNot(db: Db, place: Place, b: Booking)
    ensures PutOrKeep(db, place, b).result.Ok? <==> Put(db, place, b).Ok?
    ensures Put(db, place, b).Ok? ==> PutOrKeep(db, place, b) == Outcome(Put(db, place, b).value, Ok(|db.bookings|))
    ensures Put(db, place, b).Err? ==> PutOrKeep(db, place, b) == Outcome(db, Err(Put(db, place, b).error))
  {
  }
}
