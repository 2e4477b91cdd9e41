/**
 * Whole runs of service calls, each call atomic: bookings, payments, cancellations, moves,
 * expiries, fijos, bulk blocks, events and repricings in any order and any number.
 */
module ClubRuns {
  import opened Base
  import opened ClubData
  import opened Pricing
  import opened BookingRules
  import opened BookingLaws
  import opened TransferMatching
  import opened CourtBlocks
  import opened RecurringRules

  datatype Call =
    | DeskBooking(clubId: ClubId, slot: SlotId, who: Who, userId: Option<int>, now: Instant)
    | DeskBandBooking(clubId: ClubId, req: BandRequest, who: Who, now: Instant)
    | BotBooking(clubId: ClubId, slot: SlotId, who: Who, now: Instant)
    | BotBandBooking(clubId: ClubId, req: BandRequest, who: Who, now: Instant)
    | TransferSeen(transfer: Transfer)
    | DeskConfirmation(clubId: ClubId, booking: BookingId, ref: Option<string>, payer: Payer)
    | Cancellation(clubId: ClubId, booking: BookingId, now: Instant)
    | Rejection(clubId: ClubId, booking: BookingId)
    | PaymentFailed(booking: BookingId)
    | ExpirySweep(now: Instant)
    | DeskMove(clubId: ClubId, booking: BookingId, slot: SlotId)
    | PlayerMove(clubId: ClubId, booking: BookingId, phone: string, req: BandRequest, now: Instant)
    | Removal(clubId: ClubId, booking: BookingId)
    | Annotation(booking: BookingId, detail: Detail)
    | FijoApplied(clubId: ClubId, fijo: Fijo, occs: seq<Band>, now: Instant)
    | CourtsBlocked(clubId: ClubId, targets: seq<Target>)
    | CourtsUnblocked(clubId: ClubId, range: Range)
    | EventSynced(clubId: ClubId, event: EventId, targets: seq<Target>)
    | EventDropped(clubId: ClubId, event: EventId)
    | SlotsRepriced(clubId: ClubId, courtId: Option<CourtId>, now: Instant)
    | SettingsChanged(clubs: map<ClubId, Club>, courts: map<CourtId, Court>, fijoPrices: map<FijoId, nat>)

  function Step(db: Db, call: Call): Db {
    match call
    case DeskBooking(clubId, s, who, userId, now) => Book(db, clubId, s, who, userId, now).db
    case DeskBandBooking(clubId, req, who, now) => BookBand(db, clubId, req, who, now).db
    case BotBooking(clubId, s, who, now) => BookPending(db, clubId, s, who, now).db
    case BotBandBooking(clubId, req, who, now) => BookBandPending(db, clubId, req, who, now).db
    case TransferSeen(t) => ConfirmByAmount(db, t).0
    case DeskConfirmation(clubId, i, ref, payer) => ConfirmManual(db, clubId, i, ref, payer).db
    case Cancellation(clubId, i, now) => Cancel(db, clubId, i, now).db
    case Rejection(clubId, i) => RejectPayment(db, clubId, i).db
    case PaymentFailed(i) => CancelPending(db, i).0
    case ExpirySweep(now) => SweepExpired(db, now)
    case DeskMove(clubId, i, s) => Reschedule(db, clubId, i, s).db
    case PlayerMove(clubId, i, phone, req, now) => RescheduleByPlayer(db, clubId, i, phone, req, now).0
    case Removal(clubId, i) => Remove(db, clubId, i).db
    case Annotation(i, detail) => SetDetail(db, i, detail)
    case FijoApplied(clubId, fijo, occs, now) => Apply(db, clubId, fijo, occs, now).db
    case CourtsBlocked(clubId, targets) => BulkBlock(db, clubId, targets)
    case CourtsUnblocked(clubId, range) => BulkUnblock(db, clubId, range)
    case EventSynced(clubId, event, targets) => SyncBlocks(db, clubId, event, targets).db
    case EventDropped(clubId, event) => ReleaseBlocks(db, clubId, event)
    case SlotsRepriced(clubId, courtId, now) => RepriceFutureSlots(db, clubId, courtId, now)
    case SettingsChanged(clubs, courts, fijoPrices) =>
      db.(clubs := clubs, courts := courts, fijoPrices := fijoPrices)
  }

  /** Bands have a length, and an event's or a fijo's bands have distinct starts. */
  ghost predicate GoodCall(call: Call) {
    match call
    case DeskBandBooking(_, req, _, _) => GoodBand(req)
    case BotBandBooking(_, req, _, _) => GoodBand(req)
    case PlayerMove(_, _, _, req, _) => GoodBand(req)
    case FijoApplied(_, _, occs, _) => Increasing(occs)
    case CourtsBlocked(_, targets) => forall k :: 0 <= k < |targets| ==> targets[k].startsAt < targets[k].endsAt
    case EventSynced(_, _, targets) => GoodTargets(targets)
    case _ => true
  }

  predicate IsRevival(db: Db, call: Call) {
    call.TransferSeen? && Revives(db, call.transfer)
  }

  predicate IsCreation(call: Call) {
    call.DeskBooking? || call.DeskBandBooking? || call.BotBooking? || call.BotBandBooking? || call.FijoApplied?
  }

  predicate IsCourtCall(call: Call) {
    call.CourtsBlocked? || call.CourtsUnblocked? || call.EventSynced? || call.EventDropped? || call.SlotsRepriced?
    || call.SettingsChanged?
  }

  lemma CreationKeeps(db: Db, call: Call)
    requires Inv(db) && GoodCall(call) && IsCreation(call)
    ensures Keeps(db, Step(db, call))
  {
    hide Inv, Keeps, Book, BookBand, BookPending, BookBandPending, Apply;
    match call
    case DeskBooking(clubId, s, who, userId, now) => BookKeeps(db, clubId, s, who, userId, now);
    case DeskBandBooking(clubId, req, who, now) => BookBandKeeps(db, clubId, req, who, now);
    case BotBooking(clubId, s, who, now) => BookPendingKeeps(db, clubId, s, who, now);
    case BotBandBooking(clubId, req, who, now) => BookBandPendingKeeps(db, clubId, req, who, now);
    case FijoApplied(clubId, fijo, occs, now) => ApplyKeeps(db, clubId, fijo, occs, now);
    case _ => assert false;
  }

  lemma ApplyKeeps(db: Db, clubId: ClubId, fijo: Fijo, occs: seq<Band>, now: Instant)
    requires Inv(db) && Increasing(occs)
    ensures Keeps(db, Apply(db, clubId, fijo, occs, now).db)
  {
    ApplyLaw(db, clubId, fijo, occs, now);
  }

  lemma RepricingKeeps(db: Db, clubId: ClubId, courtId: Option<CourtId>, now: Instant)
    requires Inv(db)
    ensures Keeps(db, RepriceFutureSlots(db, clubId, courtId, now))
  {
    RepriceFutureSlotsSettles(db, clubId, courtId, now);
    hide Inv, Evolves, Balance;
  }

  lemma CourtCallKeeps(db: Db, call: Call)
    requires Inv(db) && GoodCall(call) && IsCourtCall(call)
    ensures Keeps(db, Step(db, call))
  {
    hide Inv, Balance, Evolves, BulkBlock, BulkUnblock, SyncBlocks, ReleaseBlocks, RepriceFutureSlots;
    match call
    case CourtsBlocked(clubId, targets) => BulkBlockLaw(db, clubId, targets);
    case CourtsUnblocked(clubId, range) => BulkUnblockLaw(db, clubId, range);
    case EventSynced(clubId, event, targets) => SyncKeeps(db, clubId, event, targets);
    case EventDropped(clubId, event) => ReleaseLaw(db, clubId, event);
    case SlotsRepriced(clubId, courtId, now) => RepricingKeeps(db, clubId, courtId, now);
    case SettingsChanged(clubs, courts, fijoPrices) => SettingsKeep(db, clubs, courts, fijoPrices);
    case _ => assert false;
  }

  lemma BookingCallKeeps(db: Db, call: Call)
    requires Inv(db) && GoodCall(call) && !IsRevival(db, call) && !IsCreation(call) && !IsCourtCall(call)
    ensures Keeps(db, Step(db, call))
  {
    hide Inv, Keeps, Revives, ConfirmByAmount, ConfirmManual, Cancel, CancelPending, ReleaseAll, Expired, Reschedule;
    hide RescheduleByPlayer, Remove, SetDetail;
    match call
    case TransferSeen(t) => ConfirmByAmountKeeps(db, t);
    case DeskConfirmation(clubId, i, ref, payer) => ConfirmManualKeeps(db, clubId, i, ref, payer);
    case Cancellation(clubId, i, now) => CancelKeeps(db, clubId, i, now);
    case Rejection(clubId, i) => RejectKeeps(db, clubId, i);
    case PaymentFailed(i) => CancelPendingKeeps(db, i);
    case ExpirySweep(now) => ReleaseAllKeeps(db, Expired(db, now));
    case DeskMove(clubId, i, s) => RescheduleKeeps(db, clubId, i, s);
    case PlayerMove(clubId, i, phone, req, now) => RescheduleByPlayerKeeps(db, clubId, i, phone, req, now);
    case Removal(clubId, i) => RemoveKeeps(db, clubId, i);
    case Annotation(i, detail) => SetDetailKeeps(db, i, detail);
    case _ => assert false;
  }

  /** Every call but a revival keeps all the invariants and every player's balance. */
  lemma StepKeeps(db: Db, call: Call)
    requires Inv(db) && GoodCall(call) && !IsRevival(db, call)
    ensures Keeps(db, Step(db, call))
  {
    hide *;
    if IsCreation(call) {
      CreationKeeps(db, call);
    } else if IsCourtCall(call) {
      CourtCallKeeps(db, call);
    } else {
      BookingCallKeeps(db, call);
    }
  }

  lemma SettingsKeep(db: Db, clubs: map<ClubId, Club>, courts: map<CourtId, Court>, fijoPrices: map<FijoId, nat>)
    requires Inv(db)
    ensures Keeps(db, db.(clubs := clubs, courts := courts, fijoPrices := fijoPrices))
  {
  }

  /** Credit a call re-attaches to a booking whose cancellation had already returned it. */
  function ReattachedBy(db: Db, call: Call, p: PlayerKey): Cents {
    if call.TransferSeen? then Reattached(db, call.transfer, p) else 0
  }

  lemma StepLaw(db: Db, call: Call)
    requires Inv(db) && GoodCall(call)
    ensures var c := Step(db, call);
      && Inv(c) && Evolves(db, c)
      && (forall p :: Balance(c, p) == Balance(db, p) + ReattachedBy(db, call, p))
  {
    if IsRevival(db, call) {
      ReviveLaw(db, call.transfer);
    } else {
      StepKeeps(db, call);
    }
  }

  // ── Runs ────────────────────────────────────────────────────────────────────

  function Run(db: Db, calls: seq<Call>): Db {
    if calls == [] then db else Step(Run(db, calls[..|calls| - 1]), calls[|calls| - 1])
  }

  ghost predicate GoodCalls(calls: seq<Call>) {
    forall k :: 0 <= k < |calls| ==> GoodCall(calls[k])
  }

  function TotalReattached(db: Db, calls: seq<Call>, p: PlayerKey): Cents {
    if calls == [] then 0
    else
      var front := calls[..|calls| - 1];
      TotalReattached(db, front, p) + ReattachedBy(Run(db, front), calls[|calls| - 1], p)
  }

  lemma {:induction false} RunLaw(db: Db, calls: seq<Call>)
    requires Inv(db) && GoodCalls(calls)
    ensures var c := Run(db, calls);
      && Inv(c) && Evolves(db, c)
      && (forall p :: Balance(c, p) == Balance(db, p) + TotalReattached(db, calls, p))
  {
    if calls != [] {
      var front := calls[..|calls| - 1];
      RunLaw(db, front);
      StepLaw(Run(db, front), calls[|calls| - 1]);
      EvolvesTrans(db, Run(db, front), Run(db, calls));
    }
  }

  lemma {:induction false} RunSplit(db: Db, calls: seq<Call>, more: seq<Call>)
    ensures Run(db, calls + more) == Run(Run(db, calls), more)
  {
    hide Step;
    if more == [] {
      assert calls + more == calls;
    } else {
      var all := calls + more;
      assert all[..|all| - 1] == calls + more[..|more| - 1];
      RunSplit(db, calls, more[..|more| - 1]);
    }
  }

  // ── Occupancy ───────────────────────────────────────────────────────────────

  /**
   * After any run a court's slot is BOOKED exactly when one live booking holds it, that booking
   * is the only one, a slot an event holds is BLOCKED and held by nobody, and no court has two
   * slots with the same start.
   */
  lemma CourtsNeverDoubleBooked(db: Db, calls: seq<Call>, s: SlotId)
    requires Inv(db) && GoodCalls(calls) && s < |Run(db, calls).slots|
    ensures var c := Run(db, calls);
      && (c.slots[s].status.Booked? <==> exists i :: 0 <= i < |c.bookings| && HoldsSlot(c.bookings[i], s))
      && (forall i, j :: 0 <= i < |c.bookings| && 0 <= j < |c.bookings| ==>
            HoldsSlot(c.bookings[i], s) && HoldsSlot(c.bookings[j], s) ==> i == j)
      && (c.slots[s].eventId.Some? ==> c.slots[s].status.Blocked? && !IsHeld(c.bookings, s))
      && (forall t :: 0 <= t < |c.slots| && SameStart(c.slots[s], c.slots[t]) ==> t == s)
  {
    RunLaw(db, calls);
    var c := Run(db, calls);
    assert SoundSlot(c.slots[s]);
    if c.slots[s].status.Booked? {
      assert IsHeld(c.bookings, s);
    }
  }

  /** Cancelling or deleting an event leaves the court of every live booking as it was. */
  lemma DroppingAnEventFreesNoBookedCourt(db: Db, clubId: ClubId, event: EventId, i: BookingId)
    requires Inv(db) && i < |db.bookings| && Live(db.bookings[i])
    ensures db.bookings[i].slotId < |db.slots|
    ensures Step(db, EventDropped(clubId, event)).slots[db.bookings[i].slotId] == db.slots[db.bookings[i].slotId]
  {
    assert SoundSlot(db.slots[db.bookings[i].slotId]);
  }

  // ── Money ───────────────────────────────────────────────────────────────────

  /**
   * Per player: credit, plus credit on live bookings, plus forfeited credit, grew exactly by the
   * transfers turned into credit and the credit revived bookings took without paying it again.
   */
  lemma CreditLedger(db: Db, calls: seq<Call>, p: PlayerKey)
    requires Inv(db) && GoodCalls(calls)
    ensures var c := Run(db, calls);
      && 0 <= CreditOf(c, p)
      && CreditOf(c, p) + Total(c.bookings, p, AppliedLive) + Total(c.bookings, p, AppliedForfeited) ==
         CreditOf(db, p) + Total(db.bookings, p, AppliedLive) + Total(db.bookings, p, AppliedForfeited)
         + (Total(c.bookings, p, TransferCredited) - Total(db.bookings, p, TransferCredited))
         + TotalReattached(db, calls, p)
  {
    RunLaw(db, calls);
    assert Balance(Run(db, calls), p) == Balance(db, p) + TotalReattached(db, calls, p);
  }

  /** Over any run a payment reference is on at most one booking, and stays on the booking it paid. */
  lemma ReferencesSingleUse(db: Db, calls: seq<Call>, more: seq<Call>, ref: string, i: BookingId, j: BookingId)
    requires Inv(db) && GoodCalls(calls) && GoodCalls(more) && ref != ""
    requires i < |Run(db, calls).bookings| && Run(db, calls).bookings[i].mpPaymentId == Some(ref)
    requires j < |Run(db, calls + more).bookings| && Run(db, calls + more).bookings[j].mpPaymentId == Some(ref)
    ensures i == j
  {
    RunLaw(db, calls);
    RunSplit(db, calls, more);
    var a, c := Run(db, calls), Run(db, calls + more);
    RunLaw(a, more);
    assert BookingEvolves(a.bookings[i], c.bookings[i]);
    assert UsesRef(c.bookings[i], ref) && UsesRef(c.bookings[j], ref);
  }

  /** The revive path never brings back a booking that was CONFIRMED at any earlier point. */
  lemma ReviveOnlyTheNeverConfirmed(db: Db, calls: seq<Call>, more: seq<Call>, t: Transfer, i: BookingId)
    requires Inv(db) && GoodCalls(calls) && GoodCalls(more)
    requires i < |Run(db, calls).bookings| && Run(db, calls).bookings[i].status.Confirmed?
    ensures ReviveMatch(Run(db, calls + more), t) != Some(i)
  {
    RunLaw(db, calls);
    RunSplit(db, calls, more);
    var a, c := Run(db, calls), Run(db, calls + more);
    RunLaw(a, more);
    assert BookingEvolves(a.bookings[i], c.bookings[i]) && Settled(c.bookings[i]);
    if ReviveMatch(c, t).Some? {
      ReviveMatchIsRevivable(c, t);
    }
  }

  // ── Transfer amounts ────────────────────────────────────────────────────────

  datatype Charged = Charged(terms: Terms, charge: Charge)

  /** How a bot booking is charged, when the player may book at all. */
  function ChargeOf(db: Db, clubId: ClubId, who: Who, priceCents: nat): Option<Charged> {
    var (db1, playerId) := UpsertPlayer(db, clubId, who.phone);
    match PlayerTerms(db1, ClubOf(db, clubId), playerId, priceCents)
    case Err(_) => None
    case Ok(terms) =>
      var known := if terms.depositCents > 0 then KnownPayer(db1.bookings, clubId, who.phone) else None;
      Some(Charged(terms, ChargeFor(db1, ClubOf(db1, clubId), terms, playerId.Some?, known)))
  }

  function BotCharge(db: Db, call: Call): Option<Charged> {
    match call
    case BotBooking(clubId, s, who, now) =>
      if s < |db.slots| && BookPending(db, clubId, s, who, now).result.Ok?
      then ChargeOf(db, clubId, who, db.slots[s].priceCents) else None
    case BotBandBooking(clubId, req, who, now) =>
      if BookBandPending(db, clubId, req, who, now).result.Ok? then ChargeOf(db, clubId, who, req.priceCents) else None
    case _ => None
  }

  /** The call creates a pending booking whose amount the tag allocator picked. */
  predicate Allocates(db: Db, call: Call) {
    BotCharge(db, call).Some? && BotCharge(db, call).value.charge.tagged
  }

  /** Ids of the bookings whose amount came from the allocator. */
  function Tagged(db: Db, calls: seq<Call>): set<BookingId> {
    if calls == [] then {}
    else
      var before := Run(db, calls[..|calls| - 1]);
      Tagged(db, calls[..|calls| - 1]) + (if Allocates(before, calls[|calls| - 1]) then {|before.bookings|} else {})
  }

  /** Whenever the allocator was asked, the deposit's whole-peso bucket had a tag left. */
  ghost predicate AlwaysRoom(db: Db, calls: seq<Call>) {
    forall k :: 0 <= k < |calls| ==> HadRoom(Run(db, calls[..k]), calls[k])
  }

  ghost predicate HadRoom(db: Db, call: Call) {
    Allocates(db, call) ==> BucketHasRoom(db.bookings, BotCharge(db, call).value.terms.depositCents)
  }

  ghost predicate DistinctAmounts(bookings: seq<Booking>, ids: set<BookingId>) {
    forall i, j :: i in ids && j in ids && i < j < |bookings| ==>
      bookings[i].status.PendingPayment? && bookings[j].status.PendingPayment? ==>
        bookings[i].transferAmountCents != bookings[j].transferAmountCents
  }

  /** What an allocating call appends: one booking, waiting for the allocated amount. */
  lemma StartPendingRow(db: Db, clubId: ClubId, who: Who, priceCents: nat, place: Place, now: Instant)
    requires StartPending(db, clubId, who, priceCents, place, now).result.Ok?
    ensures ChargeOf(db, clubId, who, priceCents).Some?
    ensures var c := StartPending(db, clubId, who, priceCents, place, now).db;
      var ch := ChargeOf(db, clubId, who, priceCents).value;
      && |c.bookings| == |db.bookings| + 1
      && c.bookings[|db.bookings|].transferAmountCents == ch.charge.transfer
      && (ch.charge.tagged ==> ch.charge.transfer == Some(AllocateAmount(db.bookings, ch.terms.depositCents))
                               && ch.terms.depositCents > 0)
  {
    var (db1, playerId) := UpsertPlayer(db, clubId, who.phone);
    assert db1.bookings == db.bookings && db1.clubs == db.clubs;
    var terms := PlayerTerms(db1, ClubOf(db, clubId), playerId, priceCents).value;
    var charge := ChargeOf(db, clubId, who, priceCents).value.charge;
    assert ClubOf(db1, clubId) == ClubOf(db, clubId);
    PendingAppends(db1, clubId, who, playerId, terms, place, now);
  }

  lemma PendingAppends(db: Db, clubId: ClubId, who: Who, playerId: Option<PlayerKey>, terms: Terms, place: Place,
                       now: Instant)
    requires playerId.Some? ==> playerId.value in db.players
    requires CreatePending(db, clubId, who, playerId, terms, place, now).result.Ok?
    ensures var known := if terms.depositCents > 0 then KnownPayer(db.bookings, clubId, who.phone) else None;
      var charge := ChargeFor(db, ClubOf(db, clubId), terms, playerId.Some?, known);
      var c := CreatePending(db, clubId, who, playerId, terms, place, now).db;
      |c.bookings| == |db.bookings| + 1 && c.bookings[|db.bookings|].transferAmountCents == charge.transfer
  {
  }

  lemma AllocatingStep(db: Db, call: Call)
    requires Inv(db) && Allocates(db, call)
    ensures var c := Step(db, call);
      var deposit := BotCharge(db, call).value.terms.depositCents;
      && deposit > 0
      && |c.bookings| == |db.bookings| + 1
      && c.bookings[|db.bookings|].transferAmountCents == Some(AllocateAmount(db.bookings, deposit))
  {
    match call
    case BotBooking(clubId, s, who, now) =>
      StartPendingRow(db, clubId, who, db.slots[s].priceCents, Existing(s), now);
    case BotBandBooking(clubId, req, who, now) =>
      var band := CheckBand(db, clubId, req, now).value;
      StartPendingRow(db, clubId, who, req.priceCents, PlaceFor(db, clubId, req.courtId, band, req.priceCents), now);
    case _ => assert false;
  }

  /** Rows that only move forward keep their distinct amounts; a newcomer with an unused one joins them. */
  lemma DistinctGrow(a: Db, c: Db, ids: set<BookingId>, newcomer: bool)
    requires Evolves(a, c) && DistinctAmounts(a.bookings, ids) && forall i :: i in ids ==> i < |a.bookings|
    requires newcomer ==>
               && |c.bookings| == |a.bookings| + 1
               && c.bookings[|a.bookings|].transferAmountCents.Some?
               && !AmountInUse(a.bookings, c.bookings[|a.bookings|].transferAmountCents.value)
    ensures DistinctAmounts(c.bookings, ids + (if newcomer then {|a.bookings|} else {}))
  {
    var n := |a.bookings|;
    forall i, j | i in ids && (j in ids || (newcomer && j == n)) && i < j < |c.bookings|
      ensures c.bookings[i].status.PendingPayment? && c.bookings[j].status.PendingPayment? ==>
                c.bookings[i].transferAmountCents != c.bookings[j].transferAmountCents
    {
      assert BookingEvolves(a.bookings[i], c.bookings[i]);
      if j < n {
        assert BookingEvolves(a.bookings[j], c.bookings[j]);
      } else {
        assert !AwaitsAmount(a.bookings[i], c.bookings[j].transferAmountCents.value);
      }
    }
  }

  lemma DistinctAfterStep(db: Db, call: Call, ids: set<BookingId>)
    requires Inv(db) && GoodCall(call) && HadRoom(db, call)
    requires DistinctAmounts(db.bookings, ids) && forall i :: i in ids ==> i < |db.bookings|
    ensures var grown := ids + (if Allocates(db, call) then {|db.bookings|} else {});
      && DistinctAmounts(Step(db, call).bookings, grown)
      && (forall i :: i in grown ==> i < |Step(db, call).bookings|)
  {
    hide Inv, GoodCall, Step, BotCharge, DistinctAmounts, Evolves, Balance, BucketHasRoom, AmountInUse, AllocateAmount;
    StepLaw(db, call);
    if Allocates(db, call) {
      AllocatingStep(db, call);
      AllocateAmountLaw(db.bookings, BotCharge(db, call).value.terms.depositCents);
    }
    DistinctGrow(db, Step(db, call), ids, Allocates(db, call));
  }

  /**
   * While no allocation met a full bucket, the pending bookings whose amounts the allocator picked
   * all wait for different amounts, whatever else happened in between.
   */
  lemma {:induction false} TaggedAmountsDistinct(db: Db, calls: seq<Call>)
    requires Inv(db) && GoodCalls(calls) && AlwaysRoom(db, calls)
    ensures DistinctAmounts(Run(db, calls).bookings, Tagged(db, calls))
    ensures forall i :: i in Tagged(db, calls) ==> i < |Run(db, calls).bookings|
  {
    if calls != [] {
      hide Inv, AlwaysRoom, HadRoom, Allocates, DistinctAmounts, GoodCall, Step;
      var front, last := calls[..|calls| - 1], calls[|calls| - 1];
      RoomBefore(db, calls);
      assert GoodCalls(front) && GoodCall(last);
      TaggedAmountsDistinct(db, front);
      RunLaw(db, front);
      DistinctAfterStep(Run(db, front), last, Tagged(db, front));
    }
  }

  lemma RoomBefore(db: Db, calls: seq<Call>)
    requires AlwaysRoom(db, calls) && calls != []
    ensures var front := calls[..|calls| - 1]; AlwaysRoom(db, front) && HadRoom(Run(db, front), calls[|calls| - 1])
  {
    hide HadRoom, Run;
    var front := calls[..|calls| - 1];
    forall k | 0 <= k < |front|
      ensures HadRoom(Run(db, front[..k]), front[k])
    {
      assert front[..k] == calls[..k];
      assert HadRoom(Run(db, calls[..k]), calls[k]);
    }
  }

  // ── Removed bookings ────────────────────────────────────────────────────────

  ghost predicate NoneHidden(bookings: seq<Booking>) {
    forall i :: 0 <= i < |bookings| ==> !IsHidden(bookings[i])
  }

  /** A removed booking that expired unpaid, whose court is free, and which the payer alone matches. */
  predicate IsRemovedMatch(db: Db, i: BookingId, t: Transfer) {
    && OnlyExpiredPayer(db, i, t) && db.bookings[i].deleted
    && db.bookings[i].slotId < |db.slots| && db.slots[db.bookings[i].slotId].status.Available?
  }

  /**
   * The transfer was never used, nothing pending waits for it, and the one expired booking its payer
   * matches was removed.
   */
  predicate CallsBackRemoved(db: Db, t: Transfer) {
    && !RefUsed(db.bookings, t.ref)
    && (forall k :: 0 <= k < |db.bookings| ==> !IsCandidate(db, k, t))
    && exists i :: 0 <= i < |db.bookings| && IsRemovedMatch(db, i, t)
  }

  predicate RevivesRemoved(db: Db, call: Call) {
    call.TransferSeen? && CallsBackRemoved(db, call.transfer)
  }

  lemma CallsBackExactly(db: Db, t: Transfer)
    ensures CallsBackRemoved(db, t) <==>
            Revives(db, t) && ReviveMatch(db, t).value < |db.bookings| && db.bookings[ReviveMatch(db, t).value].deleted
  {
    hide Candidates, ReviveMatch, RefUsed, InWindow, OnlyExpiredPayer;
    CandidatesAre(db, t);
    if Candidates(db, t) != [] {
      assert Candidates(db, t)[0] in Candidates(db, t);
    }
    if CallsBackRemoved(db, t) {
      var i :| 0 <= i < |db.bookings| && IsRemovedMatch(db, i, t);
      ReviveMatchExactly(db, t, i);
    }
    if Revives(db, t) {
      var i := ReviveMatch(db, t).value;
      ReviveMatchExactly(db, t, i);
      MatchInside(db, i, t);
      assert db.bookings[i].deleted ==> IsRemovedMatch(db, i, t);
    }
  }

  lemma MatchInside(db: Db, i: BookingId, t: Transfer)
    requires OnlyExpiredPayer(db, i, t)
    ensures i < |db.bookings|
  {
  }

  /**
   * Only a cancelled booking can be removed from the club's lists, but the revive path does not look
   * at removal: a call leaves some removed booking live exactly when it is a transfer that nothing
   * pending waits for and whose payer matches one expired booking alone, a removed one, its court free.
   */
  lemma RemovedStaysDeadUnlessRevived(db: Db, call: Call)
    requires Inv(db) && GoodCall(call) && NoneHidden(db.bookings)
    ensures NoneHidden(Step(db, call).bookings) <==> !RevivesRemoved(db, call)
  {
    hide Inv, Step, ReviveMatch, Keeps, NoneHidden, CallsBackRemoved, Revives;
    if call.TransferSeen? {
      CallsBackExactly(db, call.transfer);
    }
    if IsRevival(db, call) {
      RevivalHides(db, call);
    } else {
      StepKeeps(db, call);
      KeepsHidesNone(db, Step(db, call));
    }
  }

  lemma RevivalHides(db: Db, call: Call)
    requires Inv(db) && IsRevival(db, call) && NoneHidden(db.bookings)
    ensures ReviveMatch(db, call.transfer).value < |db.bookings|
    ensures NoneHidden(Step(db, call).bookings) <==> !db.bookings[ReviveMatch(db, call.transfer).value].deleted
  {
    hide Inv, ReviveMatch, ConfirmByAmount, Evolves, Balance;
    ReviveLaw(db, call.transfer);
    var i := ReviveMatch(db, call.transfer).value;
    assert IsHidden(Step(db, call).bookings[i]) <==> db.bookings[i].deleted;
  }

  /** At no point of the run is a removed booking live. */
  ghost predicate NoneEverHidden(db: Db, calls: seq<Call>) {
    forall n :: 0 <= n <= |calls| ==> NoneHidden(Run(db, calls[..n]).bookings)
  }

  ghost predicate NoneCalledBack(db: Db, calls: seq<Call>) {
    forall n :: 0 <= n < |calls| ==> !RevivesRemoved(Run(db, calls[..n]), calls[n])
  }

  lemma LastPoint(db: Db, calls: seq<Call>)
    requires calls != []
    ensures var front, last := calls[..|calls| - 1], calls[|calls| - 1];
      && (NoneEverHidden(db, calls) <==> NoneEverHidden(db, front) && NoneHidden(Run(db, calls).bookings))
      && (NoneCalledBack(db, calls) <==> NoneCalledBack(db, front) && !RevivesRemoved(Run(db, front), last))
  {
    hide Run, NoneHidden, RevivesRemoved;
    var m := |calls| - 1;
    var front := calls[..m];
    assert forall n :: 0 <= n <= m ==> front[..n] == calls[..n];
    assert calls[..|calls|] == calls;
    if NoneEverHidden(db, calls) {
      assert NoneHidden(Run(db, calls[..|calls|]).bookings);
      forall n | 0 <= n <= m
        ensures NoneHidden(Run(db, front[..n]).bookings)
      {
        assert NoneHidden(Run(db, calls[..n]).bookings);
      }
    }
    if NoneCalledBack(db, calls) {
      assert !RevivesRemoved(Run(db, calls[..m]), calls[m]);
      forall n | 0 <= n < m
        ensures !RevivesRemoved(Run(db, front[..n]), front[n])
      {
        assert !RevivesRemoved(Run(db, calls[..n]), calls[n]);
      }
    }
  }

  /** Over whole runs: no removed booking is ever live exactly when no transfer ever calls one back. */
  lemma {:induction false} RemovedStayDeadExactly(db: Db, calls: seq<Call>)
    requires Inv(db) && GoodCalls(calls) && NoneHidden(db.bookings)
    ensures NoneEverHidden(db, calls) <==> NoneCalledBack(db, calls)
    decreases |calls|
  {
    hide Inv, Step, NoneHidden, RevivesRemoved, GoodCall, NoneCalledBack;
    if calls != [] {
      var m := |calls| - 1;
      var front := calls[..m];
      assert GoodCalls(front) && GoodCall(calls[m]);
      RemovedStayDeadExactly(db, front);
      RunLaw(db, front);
      LastPoint(db, calls);
      assert front[..m] == front;
      if NoneEverHidden(db, front) {
        assert NoneHidden(Run(db, front[..m]).bookings);
        RemovedStaysDeadUnlessRevived(Run(db, front), calls[m]);
      }
    } else {
      NothingCalledBack(db);
    }
  }

  lemma NothingCalledBack(db: Db)
    ensures NoneCalledBack(db, [])
  {
  }

  lemma KeepsHidesNone(db: Db, c: Db)
    requires Keeps(db, c) && NoneHidden(db.bookings)
    ensures NoneHidden(c.bookings)
  {
    hide Inv, Evolves, Balance;
    forall i | 0 <= i < |c.bookings|
      ensures !IsHidden(c.bookings[i])
    {
      assert i < |db.bookings| ==> !IsHidden(db.bookings[i]);
    }
  }

  // ── Credit that comes back twice ────────────────────────────────────────────

  /** An expired booking that carried a player's credit, whose court is free, and which the payer alone matches. */
  predicate IsCreditMatch(db: Db, i: BookingId, t: Transfer) {
    && OnlyExpiredPayer(db, i, t)
    && db.bookings[i].slotId < |db.slots| && db.slots[db.bookings[i].slotId].status.Available?
    && db.bookings[i].playerId.Some? && db.bookings[i].creditAppliedCents > 0
  }

  /**
   * The transfer was never used, nothing pending waits for it, and the one expired booking its payer
   * matches had been paid in part with credit.
   */
  predicate ReattachesCredit(db: Db, t: Transfer) {
    && !RefUsed(db.bookings, t.ref)
    && (forall k :: 0 <= k < |db.bookings| ==> !IsCandidate(db, k, t))
    && exists i :: 0 <= i < |db.bookings| && IsCreditMatch(db, i, t)
  }

  predicate GivesCreditTwice(db: Db, call: Call) {
    call.TransferSeen? && ReattachesCredit(db, call.transfer)
  }

  lemma RevivesExactly(db: Db, t: Transfer)
    ensures Candidates(db, t) == [] <==> forall k :: 0 <= k < |db.bookings| ==> !IsCandidate(db, k, t)
  {
    hide Candidates, InWindow;
    CandidatesAre(db, t);
    if Candidates(db, t) != [] {
      assert Candidates(db, t)[0] in Candidates(db, t);
    }
  }

  lemma CreditIsApplied(db: Db, i: BookingId)
    requires Inv(db) && i < |db.bookings|
    ensures db.bookings[i].creditAppliedCents >= 0
  {
    assert SoundMoney(db.bookings[i], db.players);
    hide Occupancy, RefsSingleUse;
  }

  /** A call re-attaches a player's credit exactly in that case, and never takes any away. */
  lemma ReattachedExactly(db: Db, call: Call)
    requires Inv(db)
    ensures forall p :: ReattachedBy(db, call, p) >= 0
    ensures (exists p :: ReattachedBy(db, call, p) > 0) <==> GivesCreditTwice(db, call)
  {
    if call.TransferSeen? {
      TransferReattachesExactly(db, call.transfer);
      hide Inv, Reattached, ReattachesCredit;
      if ReattachesCredit(db, call.transfer) {
        var p :| Reattached(db, call.transfer, p) > 0;
        assert ReattachedBy(db, call, p) > 0;
      }
    }
  }

  lemma TransferReattachesExactly(db: Db, t: Transfer)
    requires Inv(db)
    ensures forall p :: Reattached(db, t, p) >= 0
    ensures (exists p :: Reattached(db, t, p) > 0) <==> ReattachesCredit(db, t)
  {
    hide Inv, Candidates, ReviveMatch, RefUsed, OnlyExpiredPayer, IsCandidate;
    RevivesExactly(db, t);
    if Revives(db, t) {
      var i := ReviveMatch(db, t).value;
      ReviveMatchExactly(db, t, i);
      MatchInside(db, i, t);
      CreditIsApplied(db, i);
      assert db.bookings[i].playerId.Some? && db.bookings[i].creditAppliedCents > 0 ==> IsCreditMatch(db, i, t);
    }
    if ReattachesCredit(db, t) {
      var i :| 0 <= i < |db.bookings| && IsCreditMatch(db, i, t);
      ReviveMatchExactly(db, t, i);
      assert Reattached(db, t, db.bookings[i].playerId.value) > 0;
    }
  }

  ghost predicate SameBalances(db: Db, c: Db) {
    forall p :: Balance(c, p) == Balance(db, p)
  }

  /** A call leaves every player's balance as it was exactly when it does not give credit a second time. */
  lemma BalancesKeptExactly(db: Db, call: Call)
    requires Inv(db) && GoodCall(call)
    ensures SameBalances(db, Step(db, call)) <==> !GivesCreditTwice(db, call)
  {
    hide Inv, Step, GoodCall, Balance, Evolves, GivesCreditTwice, ReattachedBy;
    StepLaw(db, call);
    ReattachedExactly(db, call);
    if p :| ReattachedBy(db, call, p) > 0 {
      assert Balance(Step(db, call), p) != Balance(db, p);
    }
  }

  ghost predicate NeverTwice(db: Db, calls: seq<Call>) {
    forall n :: 0 <= n < |calls| ==> !GivesCreditTwice(Run(db, calls[..n]), calls[n])
  }

  lemma NeverTwiceStep(db: Db, calls: seq<Call>)
    requires calls != []
    ensures var front, last := calls[..|calls| - 1], calls[|calls| - 1];
            NeverTwice(db, calls) <==> NeverTwice(db, front) && !GivesCreditTwice(Run(db, front), last)
  {
    hide Run, GivesCreditTwice;
    var m := |calls| - 1;
    assert forall n :: 0 <= n <= m ==> calls[..m][..n] == calls[..n];
    if NeverTwice(db, calls) {
      assert !GivesCreditTwice(Run(db, calls[..m]), calls[m]);
      forall n | 0 <= n < m
        ensures !GivesCreditTwice(Run(db, calls[..m][..n]), calls[..m][n])
      {
        assert !GivesCreditTwice(Run(db, calls[..n]), calls[n]);
      }
    }
  }

  ghost predicate NothingReattached(db: Db, calls: seq<Call>) {
    forall p :: TotalReattached(db, calls, p) == 0
  }

  lemma {:induction false} TotalIsNonNegative(db: Db, calls: seq<Call>, p: PlayerKey)
    requires Inv(db) && GoodCalls(calls)
    ensures TotalReattached(db, calls, p) >= 0
  {
    hide Inv, GoodCall, ReattachedBy, Run;
    if calls != [] {
      var front := calls[..|calls| - 1];
      TotalIsNonNegative(db, front, p);
      RunLaw(db, front);
      ReattachedExactly(Run(db, front), calls[|calls| - 1]);
    }
  }

  lemma {:induction false} TotalReattachedExactly(db: Db, calls: seq<Call>)
    requires Inv(db) && GoodCalls(calls)
    ensures NothingReattached(db, calls) <==> NeverTwice(db, calls)
    decreases |calls|
  {
    hide Inv, GoodCall, ReattachedBy, GivesCreditTwice, NeverTwice, NothingReattached, Run;
    if calls == [] {
      NothingTwice(db);
    } else {
      var front, last := calls[..|calls| - 1], calls[|calls| - 1];
      assert GoodCalls(front) && GoodCall(last);
      TotalReattachedExactly(db, front);
      RunLaw(db, front);
      ReattachedExactly(Run(db, front), last);
      NeverTwiceStep(db, calls);
      NothingReattachedStep(db, calls);
    }
  }

  lemma NothingReattachedStep(db: Db, calls: seq<Call>)
    requires Inv(db) && GoodCalls(calls) && calls != []
    ensures var front, last := calls[..|calls| - 1], calls[|calls| - 1];
            NothingReattached(db, calls) <==>
            NothingReattached(db, front) && !exists p :: ReattachedBy(Run(db, front), last, p) > 0
  {
    hide Inv, GoodCall, ReattachedBy, Run;
    var front, last := calls[..|calls| - 1], calls[|calls| - 1];
    assert GoodCalls(front);
    RunLaw(db, front);
    ReattachedExactly(Run(db, front), last);
    forall p: PlayerKey
      ensures TotalReattached(db, calls, p) == TotalReattached(db, front, p) + ReattachedBy(Run(db, front), last, p)
      ensures TotalReattached(db, front, p) >= 0 && ReattachedBy(Run(db, front), last, p) >= 0
    {
      TotalIsNonNegative(db, front, p);
    }
  }

  lemma NothingTwice(db: Db)
    ensures NeverTwice(db, []) && NothingReattached(db, [])
  {
  }

  /**
   * Over whole runs: every player ends with the balance it started with exactly when no transfer ever
   * revives a booking whose credit the cancellation had already given back.
   */
  lemma BalancesConservedExactly(db: Db, calls: seq<Call>)
    requires Inv(db) && GoodCalls(calls)
    ensures SameBalances(db, Run(db, calls)) <==> NeverTwice(db, calls)
  {
    hide Inv, GoodCalls, Balance, TotalReattached, NeverTwice, Run, Evolves;
    RunLaw(db, calls);
    TotalReattachedExactly(db, calls);
    var c := Run(db, calls);
    forall p: PlayerKey
      ensures Balance(c, p) == Balance(db, p) <==> TotalReattached(db, calls, p) == 0
    {
      assert Balance(c, p) == Balance(db, p) + TotalReattached(db, calls, p);
    }
    if SameBalances(db, c) {
      forall p: PlayerKey
        ensures TotalReattached(db, calls, p) == 0
      {
        assert Balance(c, p) == Balance(db, p);
      }
      assert NothingReattached(db, calls);
    }
    if NothingReattached(db, calls) {
      forall p: PlayerKey
        ensures Balance(c, p) == Balance(db, p)
      {
        assert TotalReattached(db, calls, p) == 0;
      }
    }
  }
}
