/**
 * What each call of the bookings service does to the tables (src/bookings/bookings.service.ts).
 * A call that throws after an earlier write keeps that write: the outcome carries both.
 */
module BookingRules {
  import opened Base
  import opened Identity
  import opened ClubData
  import opened RowMoves
  import opened Pricing

  const PAYMENT_WINDOW_MS: int := 30 * 60 * 1000
  const NO_SHOW_FULL_THRESHOLD: nat := 3
  const HOUR_MS: int := 60 * 60 * 1000

  datatype Outcome<T> = Outcome(db: Db, result: Result<T>)

  datatype Who = Who(phone: Option<string>, dni: Option<string>)

  datatype Band = Band(startsAt: Instant, endsAt: Instant)

  /** A band of a court's grid, already looked up (None: no such band) and priced. */
  datatype BandRequest = BandRequest(courtId: CourtId, band: Option<Band>, priceCents: nat)

  /** Identity of who transferred, as MercadoPago reports it. */
  datatype Payer = Payer(cuit: Option<string>, mpUserId: Option<string>)

  // ── Creating bookings ───────────────────────────────────────────────────────

  function UpsertPlayer(db: Db, clubId: ClubId, phone: Option<string>): (r: (Db, Option<PlayerKey>))
    ensures r.1.Some? ==> r.1.value in r.0.players
  {
    var digits := if Truthy(phone) then DigitsOnly(phone.value) else "";
    var key := PlayerKey(clubId, digits);
    if |digits| < 6 then (db, None)
    else if key in db.players then (db, Some(key))
    else (db.(players := db.players[key := Player(0, false, 0)]), Some(key))
  }

  function DepositFor(club: Club, priceCents: nat): nat {
    match club.depositMode
    case DepositNone => 0
    case DepositFull => priceCents
    case DepositPart => (priceCents * club.depositPercent + 99) / 100
  }

  predicate AsksRoundAmount(club: Club) {
    club.requireDniMatch || club.verification.Receipt?
  }

  function NewBooking(clubId: ClubId, who: Who, playerId: Option<PlayerKey>, now: Instant): Booking {
    Booking(0, clubId, who.phone, playerId, who.dni, None, None, None, None, None, PendingPayment,
            0, 0, None, None, None, None, false, 0, 0, 0, 0, false, now)
  }

  /** Where a booking goes: a slot row that exists, or a band still to be materialized. */
  datatype Place = Existing(s: SlotId) | Fresh(slot: Slot)

  function PlaceFor(db: Db, clubId: ClubId, courtId: CourtId, band: Band, priceCents: nat): Place {
    var found := SlotAt(db, clubId, courtId, band.startsAt);
    if found.Some? then Existing(found.value)
    else Fresh(Slot(clubId, courtId, band.startsAt, band.endsAt, priceCents, Booked, None))
  }

  /** The atomic check-and-lock: the conditional flip, or the insert the unique index guards. */
  function Put(db: Db, place: Place, b: Booking): Result<Db> {
    match place
    case Existing(s) =>
      if s < |db.slots| && db.slots[s].status.Available? then Ok(TakeSlot(db, s, b)) else Err(Conflict)
    case Fresh(slot) =>
      if StartTaken(db.slots, slot) then Err(Conflict) else Ok(TakeNewSlot(db, slot, b))
  }

  function PutOrKeep(db: Db, place: Place, b: Booking): Outcome<BookingId> {
    match Put(db, place, b)
    case Ok(c) => Outcome(c, Ok(|db.bookings|))
    case Err(e) => Outcome(db, Err(e))
  }

  function Book(db: Db, clubId: ClubId, s: SlotId, who: Who, bookedBy: Option<int>, now: Instant): Outcome<BookingId> {
    if !(s < |db.slots| && db.slots[s].clubId == clubId) then Outcome(db, Err(NotFound))
    else if !db.slots[s].status.Available? then Outcome(db, Err(Conflict))
    else
      var deposit := DepositFor(ClubOf(db, clubId), db.slots[s].priceCents);
      var (db1, playerId) := UpsertPlayer(db, clubId, who.phone);
      var b := NewBooking(clubId, who, playerId, now).(
        playerDni := None,
        bookedByUserId := bookedBy,
        depositCents := deposit,
        status := if deposit == 0 then Confirmed else PendingPayment);
      PutOrKeep(db1, Existing(s), b)
  }

  predicate IsClubCourt(db: Db, clubId: ClubId, courtId: CourtId) {
    courtId in db.courts && db.courts[courtId].clubId == clubId
  }

  /**
   * The shared checks of the band calls: a band of the court's grid passes exactly when the court is
   * the club's and the band's start is still ahead; what is refused first tells the error.
   */
  function CheckBand(db: Db, clubId: ClubId, req: BandRequest, now: Instant): (r: Result<Band>)
    ensures r.Ok? <==> IsClubCourt(db, clubId, req.courtId) && req.band.Some? && now < req.band.value.startsAt
    ensures r.Ok? ==> req.band == Some(r.value)
    ensures r == Err(NotFound) <==> !IsClubCourt(db, clubId, req.courtId)
    ensures r == Err(BadRequest) <==> IsClubCourt(db, clubId, req.courtId) && req.band.None?
  {
    if !IsClubCourt(db, clubId, req.courtId) then Err(NotFound)
    else if req.band.None? then Err(BadRequest)
    else if req.band.value.startsAt <= now then Err(Conflict)
    else Ok(req.band.value)
  }

  function BookBand(db: Db, clubId: ClubId, req: BandRequest, who: Who, now: Instant): Outcome<BookingId> {
    match CheckBand(db, clubId, req, now)
    case Err(e) => Outcome(db, Err(e))
    case Ok(band) =>
      var (db1, playerId) := UpsertPlayer(db, clubId, who.phone);
      PutOrKeep(db1, PlaceFor(db1, clubId, req.courtId, band, req.priceCents),
                NewBooking(clubId, who, playerId, now).(playerDni := None))
  }

  // ── The transfer amount ─────────────────────────────────────────────────────

  function RoundToWholePesos(cents: Cents): Cents {
    (cents + 50) / 100 * 100
  }

  function WholePesos(cents: Cents): Cents {
    cents / 100 * 100
  }

  /** Some pending booking is waiting for exactly this amount. */
  predicate AmountInUse(bookings: seq<Booking>, cents: Cents) {
    exists i :: 0 <= i < |bookings| && AwaitsAmount(bookings[i], cents)
  }

  predicate AwaitsAmount(b: Booking, cents: Cents) {
    b.status.PendingPayment? && b.transferAmountCents == Some(cents)
  }

  /** First free tag of the bucket from `tag` on. */
  function FirstFreeTag(bookings: seq<Booking>, whole: Cents, tag: nat): Option<nat>
    requires tag <= 100
    decreases 100 - tag
  {
    if tag == 100 then None
    else if !AmountInUse(bookings, whole + tag) then Some(tag)
    else FirstFreeTag(bookings, whole, tag + 1)
  }

  function AllocateAmount(bookings: seq<Booking>, depositCents: Cents): Cents {
    if !AmountInUse(bookings, depositCents) then depositCents
    else
      var free := FirstFreeTag(bookings, WholePesos(depositCents), 0);
      if free.Some? then WholePesos(depositCents) + free.value else depositCents
  }

  // ── Pending bookings ────────────────────────────────────────────────────────

  datatype Pending = Pending(
    bookingId: BookingId,
    depositCents: Cents,
    transferAmountCents: Cents,
    creditAppliedCents: Cents,
    confirmedByCredit: bool,
    confirmedWithoutDeposit: bool)

  /** What the player policy leaves to charge, and the credit there is to charge it to. */
  datatype Terms = Terms(depositCents: Cents, availableCreditCents: Cents)

  function PlayerTerms(db: Db, club: Club, playerId: Option<PlayerKey>, priceCents: nat): Result<Terms>
    requires playerId.Some? ==> playerId.value in db.players
  {
    var deposit := DepositFor(club, priceCents);
    if playerId.None? then Ok(Terms(deposit, 0))
    else
      var player := db.players[playerId.value];
      if player.isBlocked then Err(Forbidden)
      else if player.noShowCount < NO_SHOW_FULL_THRESHOLD then Ok(Terms(deposit, player.creditCents))
      else if club.depositMode.DepositNone? || priceCents == 0 then Err(ReviewRequired)
      else Ok(Terms(priceCents, player.creditCents))
  }

  predicate PaidBefore(b: Booking, clubId: ClubId, phone: string) {
    b.clubId == clubId && b.playerPhone == Some(phone) && b.status.Confirmed? && b.payerMpUserId.Some?
  }

  /** The MercadoPago identity of the phone's newest confirmed booking, if it ever paid. */
  function KnownPayer(bookings: seq<Booking>, clubId: ClubId, phone: Option<string>): Option<string> {
    if bookings == [] || !Truthy(phone) then None
    else
      var last := bookings[|bookings| - 1];
      if PaidBefore(last, clubId, phone.value) then last.payerMpUserId
      else KnownPayer(bookings[..|bookings| - 1], clubId, phone)
  }

  /** How a pending booking is charged: what credit covers, what is left, and by which amount. */
  datatype Charge = Charge(creditApplied: Cents, confirmedNow: bool, coveredByCredit: bool, tagged: bool,
                           transfer: Option<Cents>)

  function ChargeFor(db: Db, club: Club, terms: Terms, hasPlayer: bool, known: Option<string>): Charge {
    var deposit := terms.depositCents;
    var without := deposit <= 0;
    var credit := if hasPlayer && !without then Min(terms.availableCreditCents, deposit) else 0;
    var remaining := deposit - credit;
    var covered := credit > 0 && remaining == 0;
    var tagged := !without && !covered && remaining == deposit && !AsksRoundAmount(club) && !Truthy(known);
    var transfer :=
      if without || covered then None
      else if remaining != deposit then Some(remaining)
      else if tagged then Some(AllocateAmount(db.bookings, deposit))
      else Some(RoundToWholePesos(deposit));
    Charge(credit, without || covered, covered, tagged, transfer)
  }

  function SpendCredit(db: Db, playerId: Option<PlayerKey>, cents: Cents): Db {
    if cents > 0 && playerId.Some? then db.(players := AddCredit(db.players, playerId.value, -cents)) else db
  }

  function PendingRow(clubId: ClubId, who: Who, playerId: Option<PlayerKey>, terms: Terms, charge: Charge,
                      known: Option<string>, now: Instant): Booking
  {
    NewBooking(clubId, who, playerId, now).(
      payerMpUserId := known,
      status := if charge.confirmedNow then Confirmed else PendingPayment,
      depositCents := terms.depositCents,
      creditAppliedCents := charge.creditApplied,
      transferAmountCents := charge.transfer,
      paymentExpiresAt := if charge.confirmedNow then None else Some(now + PAYMENT_WINDOW_MS))
  }

  /** Consumes the credit, then creates the booking; a lost slot rolls both back. */
  function CreatePending(db: Db, clubId: ClubId, who: Who, playerId: Option<PlayerKey>, terms: Terms, place: Place,
                         now: Instant): Outcome<Pending>
    requires playerId.Some? ==> playerId.value in db.players
  {
    var known := if terms.depositCents > 0 then KnownPayer(db.bookings, clubId, who.phone) else None;
    var charge := ChargeFor(db, ClubOf(db, clubId), terms, playerId.Some?, known);
    if charge.creditApplied > 0 && playerId.Some? && db.players[playerId.value].creditCents < charge.creditApplied
    then Outcome(db, Err(Conflict))
    else
      var paid := SpendCredit(db, playerId, charge.creditApplied);
      var b := PendingRow(clubId, who, playerId, terms, charge, known, now);
      match Put(paid, place, b)
      case Err(e) => Outcome(db, Err(e))
      case Ok(c) =>
        Outcome(c, Ok(Pending(|db.bookings|, terms.depositCents,
                              if charge.transfer.Some? then charge.transfer.value else 0,
                              charge.creditApplied, charge.coveredByCredit, terms.depositCents <= 0)))
  }

  function StartPending(db: Db, clubId: ClubId, who: Who, priceCents: nat, place: Place, now: Instant): Outcome<Pending>
  {
    var (db1, playerId) := UpsertPlayer(db, clubId, who.phone);
    match PlayerTerms(db1, ClubOf(db, clubId), playerId, priceCents)
    case Err(e) => Outcome(db1, Err(e))
    case Ok(terms) => CreatePending(db1, clubId, who, playerId, terms, place, now)
  }

  function BookPending(db: Db, clubId: ClubId, s: SlotId, who: Who, now: Instant): Outcome<Pending> {
    if !(s < |db.slots| && db.slots[s].clubId == clubId) then Outcome(db, Err(NotFound))
    else if !db.slots[s].status.Available? then Outcome(db, Err(Conflict))
    else StartPending(db, clubId, who, db.slots[s].priceCents, Existing(s), now)
  }

  function BookBandPending(db: Db, clubId: ClubId, req: BandRequest, who: Who, now: Instant): Outcome<Pending> {
    match CheckBand(db, clubId, req, now)
    case Err(e) => Outcome(db, Err(e))
    case Ok(band) =>
      StartPending(db, clubId, who, req.priceCents, PlaceFor(db, clubId, req.courtId, band, req.priceCents), now)
  }

  // ── Confirming ──────────────────────────────────────────────────────────────

  function WithPayment(b: Booking, ref: Option<string>, payer: Payer): Booking {
    b.(status := Confirmed,
       mpPaymentId := ref,
       payerMpUserId := if Truthy(payer.mpUserId) then payer.mpUserId else b.payerMpUserId,
       receipts := 0)
  }

  function IsPending(db: Db, i: BookingId): bool {
    i < |db.bookings| && db.bookings[i].status.PendingPayment?
  }

  /** Idempotent: anything but a pending booking is left alone. */
  function ConfirmPayment(db: Db, i: BookingId, ref: Option<string>, payer: Payer): (Db, bool) {
    if IsPending(db, i) then (Edit(db, i, WithPayment(db.bookings[i], ref, payer)), true) else (db, false)
  }

  predicate RefUsed(bookings: seq<Booking>, ref: string) {
    exists i :: 0 <= i < |bookings| && bookings[i].mpPaymentId == Some(ref)
  }

  /** Which clubs a transfer may confirm: its own account's club, or those on the shared account. */
  predicate AccountCovers(db: Db, clubId: ClubId, account: Option<ClubId>) {
    if account.Some? then clubId == account.value && ClubOf(db, clubId).verification.Auto?
    else
      var club := ClubOf(db, clubId);
      club.verification.Auto? && !club.ownMpAccount && !club.salesDemo
  }

  datatype Transfer = Transfer(amountCents: Cents, ref: string, paidAt: Instant, account: Option<ClubId>, payer: Payer)

  predicate InWindow(db: Db, b: Booking, t: Transfer) {
    && AccountCovers(db, b.clubId, t.account)
    && b.transferAmountCents == Some(t.amountCents)
    && b.createdAt <= t.paidAt
    && b.paymentExpiresAt.Some? && t.paidAt <= b.paymentExpiresAt.value
  }

  function Candidates(db: Db, t: Transfer): seq<BookingId> {
    Where(db.bookings, (b: Booking) => b.status.PendingPayment? && InWindow(db, b, t))
  }

  /** Cancelled, never paid, no explicit deposit outcome, and the transfer came inside its window. */
  predicate Revivable(db: Db, b: Booking, t: Transfer) {
    b.status.Cancelled? && b.mpPaymentId.None? && b.depositOutcome.None? && InWindow(db, b, t)
  }

  function ExpiredCandidates(db: Db, t: Transfer): seq<BookingId> {
    Where(db.bookings, (b: Booking) => Revivable(db, b, t))
  }

  predicate PayerFits(b: Booking, payer: Payer, readReceipt: bool) {
    var payerDni := DniFromIdentification(payer.cuit);
    var receiptDni := if readReceipt then b.receiptPayerDni else None;
    if b.payerMpUserId.Some? || b.playerDni.Some? || Truthy(receiptDni) then
      (payer.mpUserId.Some? && b.payerMpUserId == payer.mpUserId)
      || DniMatches(b.playerDni, payerDni)
      || DniMatches(receiptDni, payerDni)
    else true
  }

  function Only(ids: seq<BookingId>): (r: Option<BookingId>)
    ensures r.Some? ==> ids == [r.value]
  {
    if |ids| == 1 then Some(ids[0]) else None
  }

  /** The one candidate the payer fits, or None when it stays ambiguous. */
  function DisambiguateByPayer(db: Db, ids: seq<BookingId>, payer: Payer, readReceipt: bool): Option<BookingId> {
    Only(Filter(ids, (i: BookingId) => i < |db.bookings| && PayerFits(db.bookings[i], payer, readReceipt)))
  }

  predicate DniFits(b: Booking, payer: Payer, readReceipt: bool) {
    var payerDni := DniFromIdentification(payer.cuit);
    DniMatches(b.playerDni, payerDni) || (readReceipt && DniMatches(b.receiptPayerDni, payerDni))
  }

  function MatchedByDni(db: Db, ids: seq<BookingId>, payer: Payer, readReceipt: bool): Option<BookingId> {
    Only(Filter(ids, (i: BookingId) => i < |db.bookings| && DniFits(db.bookings[i], payer, readReceipt)))
  }

  predicate StrictDni(db: Db, account: Option<ClubId>) {
    account.Some? && ClubOf(db, account.value).requireDniMatch
  }

  function Choose(db: Db, ids: seq<BookingId>, t: Transfer, readReceipt: bool): Option<BookingId> {
    if StrictDni(db, t.account) then MatchedByDni(db, ids, t.payer, readReceipt)
    else DisambiguateByPayer(db, ids, t.payer, readReceipt)
  }

  function ByOperation(db: Db, ids: seq<BookingId>, ref: string): Option<BookingId> {
    Only(Filter(ids, (i: BookingId) => i < |db.bookings| && db.bookings[i].receiptOperationRef == Some(ref)))
  }

  function PendingMatch(db: Db, t: Transfer): Option<BookingId> {
    var ids := Candidates(db, t);
    var byOperation := ByOperation(db, ids, t.ref);
    if byOperation.Some? then byOperation else Choose(db, ids, t, true)
  }

  /** The booking the revive path would bring back for this transfer, slot still free. */
  function ReviveMatch(db: Db, t: Transfer): Option<BookingId> {
    var chosen := Choose(db, ExpiredCandidates(db, t), t, false);
    if chosen.Some? && chosen.value < |db.bookings|
       && db.bookings[chosen.value].slotId < |db.slots|
       && db.slots[db.bookings[chosen.value].slotId].status.Available?
    then chosen else None
  }

  function Revive(db: Db, i: BookingId, t: Transfer): Db
    requires i < |db.bookings| && db.bookings[i].slotId < |db.slots|
  {
    Reopen(db, i, WithPayment(db.bookings[i], Some(t.ref), t.payer))
  }

  function ConfirmByAmount(db: Db, t: Transfer): (Db, Option<BookingId>) {
    if RefUsed(db.bookings, t.ref) then (db, None)
    else if Candidates(db, t) == [] then
      var back := ReviveMatch(db, t);
      if back.Some? then (Revive(db, back.value, t), back) else (db, None)
    else
      var chosen := PendingMatch(db, t);
      if chosen.Some? && IsPending(db, chosen.value)
      then (ConfirmPayment(db, chosen.value, Some(t.ref), t.payer).0, chosen)
      else (db, None)
  }

  function ConfirmManual(db: Db, clubId: ClubId, i: BookingId, ref: Option<string>,
                         payer: Payer): Outcome<Option<BookingId>> {
    if !(i < |db.bookings| && db.bookings[i].clubId == clubId) then Outcome(db, Err(NotFound))
    else
      var b := db.bookings[i];
      if !b.status.PendingPayment? then Outcome(db, Ok(None))
      else if Truthy(ref) && RefUsed(db.bookings, ref.value) then Outcome(db, Err(BadRequest))
      else if ClubOf(db, clubId).verification.Receipt? && b.receipts == 0 && b.bookedByUserId.None? && !Truthy(ref)
      then Outcome(db, Err(BadRequest))
      else Outcome(ConfirmPayment(db, i, ref, payer).0, Ok(Some(i)))
  }

  // ── Cancelling ──────────────────────────────────────────────────────────────

  function CancellationOutcome(db: Db, b: Booking, now: Instant): (Option<DepositOutcome>, Cents) {
    if !b.status.Confirmed? || b.transferAmountCents.None? then (None, b.creditAppliedCents)
    else if b.slotId < |db.slots| &&
            db.slots[b.slotId].startsAt - now >= ClubOf(db, b.clubId).cancellationWindowHours * HOUR_MS
    then (Some(Credited), b.transferAmountCents.value + b.creditAppliedCents)
    else (Some(Forfeited), 0)
  }

  predicate Visible(db: Db, clubId: ClubId, i: BookingId) {
    i < |db.bookings| && db.bookings[i].clubId == clubId && !db.bookings[i].deleted
  }

  function Cancel(db: Db, clubId: ClubId, i: BookingId, now: Instant): Outcome<()> {
    if !Visible(db, clubId, i) then Outcome(db, Err(NotFound))
    else if db.bookings[i].status.Cancelled? then Outcome(db, Err(BadRequest))
    else
      var b := db.bookings[i];
      var (outcome, refund) := CancellationOutcome(db, b, now);
      Outcome(RepriceSlot(Close(db, i, outcome, refund), b.slotId, Some(clubId)).0, Ok(()))
  }

  /** Only a booking still pending is cancelled: a confirmed one is left untouched. */
  function ReleasePending(db: Db, i: BookingId): (Db, bool) {
    if IsPending(db, i) then
      var b := db.bookings[i];
      (RepriceSlot(Close(db, i, b.depositOutcome, b.creditAppliedCents), b.slotId, None).0, true)
    else (db, false)
  }

  function PurgeReceipts(db: Db, i: BookingId): Db {
    if i < |db.bookings| then Edit(db, i, db.bookings[i].(receipts := 0)) else db
  }

  function CancelPending(db: Db, i: BookingId): (Db, bool) {
    var (released, done) := ReleasePending(db, i);
    if done then (PurgeReceipts(released, i), true) else (db, false)
  }

  function RejectPayment(db: Db, clubId: ClubId, i: BookingId): Outcome<bool> {
    if !(i < |db.bookings| && db.bookings[i].clubId == clubId) then Outcome(db, Err(NotFound))
    else
      var (c, done) := CancelPending(db, i);
      Outcome(c, Ok(done))
  }

  predicate IsExpired(b: Booking, now: Instant) {
    b.status.PendingPayment? && b.paymentExpiresAt.Some? && b.paymentExpiresAt.value < now && !b.receiptUploaded
  }

  function Expired(db: Db, now: Instant): seq<BookingId> {
    Where(db.bookings, (b: Booking) => IsExpired(b, now))
  }

  function ReleaseAll(db: Db, ids: seq<BookingId>): Db {
    if ids == [] then db
    else ReleasePending(ReleaseAll(db, ids[..|ids| - 1]), ids[|ids| - 1]).0
  }

  function SweepExpired(db: Db, now: Instant): Db {
    ReleaseAll(db, Expired(db, now))
  }

  function Remove(db: Db, clubId: ClubId, i: BookingId): Outcome<()> {
    if !Visible(db, clubId, i) then Outcome(db, Err(NotFound))
    else if !db.bookings[i].status.Cancelled? then Outcome(db, Err(BadRequest))
    else Outcome(Edit(db, i, db.bookings[i].(deleted := true)), Ok(()))
  }

  // ── Moving ──────────────────────────────────────────────────────────────────

  function Reschedule(db: Db, clubId: ClubId, i: BookingId, s: SlotId): Outcome<()> {
    if !Visible(db, clubId, i) then Outcome(db, Err(NotFound))
    else if db.bookings[i].status.Cancelled? || db.bookings[i].slotId == s then Outcome(db, Err(BadRequest))
    else if !(s < |db.slots| && db.slots[s].clubId == clubId) then Outcome(db, Err(NotFound))
    else if !db.slots[s].status.Available? || db.bookings[i].slotId >= |db.slots| then Outcome(db, Err(Conflict))
    else
      var moved := MoveTo(db, i, s, db.bookings[i]);
      Outcome(RepriceSlot(moved, db.bookings[i].slotId, Some(clubId)).0, Ok(()))
  }

  predicate OwnLive(db: Db, clubId: ClubId, i: BookingId, phone: string) {
    && i < |db.bookings|
    && db.bookings[i].clubId == clubId
    && db.bookings[i].playerPhone == Some(phone)
    && Live(db.bookings[i])
  }

  /** Materializes the band when it has no slot yet, so that a move always lands on a row. */
  function WithTarget(db: Db, place: Place): Result<(Db, SlotId)> {
    match place
    case Existing(s) =>
      if s < |db.slots| && db.slots[s].status.Available? then Ok((db, s)) else Err(Conflict)
    case Fresh(slot) =>
      if StartTaken(db.slots, slot) then Err(Conflict)
      else Ok((db.(slots := db.slots + [slot.(status := Available, eventId := None)]), |db.slots|))
  }

  function PlayerMove(db: Db, i: BookingId, s: SlotId): Db
    requires i < |db.bookings| && db.bookings[i].slotId < |db.slots| && s < |db.slots|
  {
    MoveTo(db, i, s, db.bookings[i].(rescheduleCount := db.bookings[i].rescheduleCount + 1))
  }

  /** False: the move is no longer possible and nothing changed. */
  function RescheduleByPlayer(db: Db, clubId: ClubId, i: BookingId, phone: string, req: BandRequest, now: Instant):
    (Db, bool)
  {
    if !OwnLive(db, clubId, i, phone) || db.bookings[i].slotId >= |db.slots| then (db, false)
    else match CheckBand(db, clubId, req, now)
      case Err(_) => (db, false)
      case Ok(band) =>
        match WithTarget(db, PlaceFor(db, clubId, req.courtId, band, req.priceCents))
        case Err(_) => (db, false)
        case Ok((db1, s)) =>
          (RepriceSlot(PlayerMove(db1, i, s), db.bookings[i].slotId, Some(clubId)).0, true)
  }

  // ── Details other calls write on a booking ──────────────────────────────────

  datatype Detail =
    | ReceiptAttached
    | ReceiptRead(payerDni: Option<string>, operationRef: Option<string>)
    | DniTyped(dni: string)
    | LocalPayment(cents: nat)
    | PlayerPaid

  function WithDetail(b: Booking, d: Detail): Booking {
    match d
    case ReceiptAttached => b.(receiptUploaded := true, receipts := b.receipts + 1)
    case ReceiptRead(dni, ref) =>
      if !b.status.PendingPayment? then b
      else b.(receiptPayerDni := if Truthy(dni) then dni else b.receiptPayerDni,
              receiptOperationRef := if Truthy(ref) then ref else b.receiptOperationRef)
    case DniTyped(dni) => if b.status.PendingPayment? then b.(playerDni := Some(dni)) else b
    case LocalPayment(cents) => if Live(b) then b.(localPaymentCents := cents) else b
    case PlayerPaid => if Live(b) then b.(playerPayments := b.playerPayments + 1) else b
  }

  function SetDetail(db: Db, i: BookingId, d: Detail): Db {
    if i < |db.bookings| then Edit(db, i, WithDetail(db.bookings[i], d)) else db
  }
}
