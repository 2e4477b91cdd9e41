/**
 * The tables the booking, event, recurring and pricing services share, and the invariants every
 * one of them relies on. A row's id is its position: rows of these tables are never deleted by
 * the modelled services (removing a booking is a soft delete).
 */
module ClubData {
  import opened Base

  type Cents = int
  /** Milliseconds since the epoch. */
  type Instant = int
  type ClubId = string
  type CourtId = string
  type EventId = string
  type FijoId = string
  type SlotId = nat
  type BookingId = nat

  datatype SlotStatus = Available | Booked | Blocked

  datatype Slot = Slot(
    clubId: ClubId,
    courtId: CourtId,
    startsAt: Instant,
    endsAt: Instant,
    priceCents: nat,
    status: SlotStatus,
    eventId: Option<EventId>)

  datatype BookingStatus = PendingPayment | Confirmed | Cancelled

  datatype DepositOutcome = Credited | Forfeited | Refunded

  /** A club's player is found by its phone: (clubId, phone) is unique. */
  datatype PlayerKey = PlayerKey(clubId: ClubId, phone: string)

  datatype Player = Player(creditCents: Cents, isBlocked: bool, noShowCount: nat)

  datatype Booking = Booking(
    slotId: SlotId,
    clubId: ClubId,
    playerPhone: Option<string>,
    playerId: Option<PlayerKey>,
    playerDni: Option<string>,
    payerMpUserId: Option<string>,
    receiptPayerDni: Option<string>,
    receiptOperationRef: Option<string>,
    fijoId: Option<FijoId>,
    bookedByUserId: Option<int>,
    status: BookingStatus,
    depositCents: Cents,
    creditAppliedCents: Cents,
    transferAmountCents: Option<Cents>,
    depositOutcome: Option<DepositOutcome>,
    mpPaymentId: Option<string>,
    paymentExpiresAt: Option<Instant>,
    receiptUploaded: bool,
    receipts: nat,
    localPaymentCents: nat,
    playerPayments: nat,
    rescheduleCount: nat,
    deleted: bool,
    createdAt: Instant)

  datatype DepositMode = DepositPart | DepositFull | DepositNone

  datatype VerificationMode = Auto | Receipt

  datatype Club = Club(
    depositMode: DepositMode,
    depositPercent: nat,
    requireDniMatch: bool,
    verification: VerificationMode,
    cancellationWindowHours: int,
    ownMpAccount: bool,
    salesDemo: bool)

  /** What the services fall back to when the club row is missing. */
  const DEFAULT_CLUB := Club(DepositPart, 25, false, Auto, 24, false, false)

  /** `listPrice` is the court's default price with its per-band exceptions already resolved. */
  datatype Court = Court(clubId: ClubId, priceCents: nat, listPrice: Instant -> nat)

  datatype Db = Db(
    slots: seq<Slot>,
    bookings: seq<Booking>,
    players: map<PlayerKey, Player>,
    clubs: map<ClubId, Club>,
    courts: map<CourtId, Court>,
    fijoPrices: map<FijoId, nat>)

  predicate Live(b: Booking) {
    !b.status.Cancelled?
  }

  predicate HoldsSlot(b: Booking, s: SlotId) {
    Live(b) && b.slotId == s
  }

  predicate SameBand(s: Slot, t: Slot) {
    s.clubId == t.clubId && s.courtId == t.courtId && s.startsAt == t.startsAt && s.endsAt == t.endsAt
  }

  /** The columns of the unique index on slots. */
  predicate SameStart(s: Slot, t: Slot) {
    s.courtId == t.courtId && s.startsAt == t.startsAt
  }

  /** Half-open overlap: touching edges do not overlap. */
  predicate Overlaps(s: Slot, startsAt: Instant, endsAt: Instant) {
    s.startsAt < endsAt && s.endsAt > startsAt
  }

  function ClubOf(db: Db, clubId: ClubId): Club {
    if clubId in db.clubs then db.clubs[clubId] else DEFAULT_CLUB
  }

  function SlotAt(db: Db, clubId: ClubId, courtId: CourtId, startsAt: Instant): (found: Option<SlotId>)
    ensures found.Some? ==> found.value < |db.slots| &&
                            IsSlotAt(db.slots[found.value], clubId, courtId, startsAt)
    ensures found.None? ==> forall s :: s in db.slots ==> !IsSlotAt(s, clubId, courtId, startsAt)
  {
    var ids := Where(db.slots, s => IsSlotAt(s, clubId, courtId, startsAt));
    if ids == [] then None else Some(ids[0])
  }

  predicate IsSlotAt(s: Slot, clubId: ClubId, courtId: CourtId, startsAt: Instant) {
    s.clubId == clubId && s.courtId == courtId && s.startsAt == startsAt
  }

  /** The unique index on (courtId, startsAt) would refuse this row. */
  predicate StartTaken(slots: seq<Slot>, slot: Slot) {
    exists i :: 0 <= i < |slots| && SameStart(slots[i], slot)
  }

  // ── Occupancy ───────────────────────────────────────────────────────────────

  ghost predicate BookingsPointAtSlots(slots: seq<Slot>, bookings: seq<Booking>) {
    forall i :: 0 <= i < |bookings| ==>
      bookings[i].slotId < |slots| && slots[bookings[i].slotId].clubId == bookings[i].clubId
  }

  ghost predicate LiveHoldsBooked(slots: seq<Slot>, bookings: seq<Booking>)
    requires BookingsPointAtSlots(slots, bookings)
  {
    forall i :: 0 <= i < |bookings| && Live(bookings[i]) ==> slots[bookings[i].slotId].status.Booked?
  }

  ghost predicate OneLivePerSlot(bookings: seq<Booking>) {
    forall i, j :: 0 <= i < j < |bookings| && Live(bookings[i]) && Live(bookings[j]) ==>
      bookings[i].slotId != bookings[j].slotId
  }

  ghost predicate IsHeld(bookings: seq<Booking>, s: SlotId) {
    exists i :: 0 <= i < |bookings| && HoldsSlot(bookings[i], s)
  }

  ghost predicate BookedIsHeld(slots: seq<Slot>, bookings: seq<Booking>) {
    forall s :: 0 <= s < |slots| && slots[s].status.Booked? ==> IsHeld(bookings, s)
  }

  ghost predicate UniqueStarts(slots: seq<Slot>) {
    forall s, t :: 0 <= s < t < |slots| ==> !SameStart(slots[s], slots[t])
  }

  ghost predicate SoundSlot(s: Slot) {
    s.startsAt < s.endsAt && (s.eventId.Some? ==> s.status.Blocked?)
  }

  ghost predicate SoundSlots(slots: seq<Slot>) {
    forall s :: 0 <= s < |slots| ==> SoundSlot(slots[s])
  }

  /**
   * A court is taken exactly when one live booking holds it, an event never holds a taken one, and
   * a booking sits on a slot of its own club.
   */
  ghost predicate Occupancy(slots: seq<Slot>, bookings: seq<Booking>) {
    && BookingsPointAtSlots(slots, bookings)
    && LiveHoldsBooked(slots, bookings)
    && OneLivePerSlot(bookings)
    && BookedIsHeld(slots, bookings)
    && UniqueStarts(slots)
    && SoundSlots(slots)
  }

  // ── Money ───────────────────────────────────────────────────────────────────

  ghost predicate SoundMoney(b: Booking, players: map<PlayerKey, Player>) {
    && 0 <= b.creditAppliedCents
    && (b.transferAmountCents.Some? ==> 0 <= b.transferAmountCents.value)
    && (b.playerId.Some? ==> b.playerId.value in players)
    && (b.playerId.None? ==> b.creditAppliedCents == 0)
    && (b.depositOutcome.Some? ==> b.status.Cancelled?)
    && (b.status.PendingPayment? ==> b.mpPaymentId.None?)
  }

  ghost predicate CreditNonNegative(players: map<PlayerKey, Player>) {
    forall p :: p in players ==> 0 <= players[p].creditCents
  }

  ghost predicate UsesRef(b: Booking, ref: string) {
    b.mpPaymentId == Some(ref)
  }

  /** A payment reference is on at most one booking. */
  ghost predicate RefsSingleUse(bookings: seq<Booking>) {
    forall i, j, ref :: 0 <= i < j < |bookings| && ref != "" ==>
      !(UsesRef(bookings[i], ref) && UsesRef(bookings[j], ref))
  }

  ghost predicate Inv(db: Db) {
    && Occupancy(db.slots, db.bookings)
    && CreditNonNegative(db.players)
    && (forall i :: 0 <= i < |db.bookings| ==> SoundMoney(db.bookings[i], db.players))
    && RefsSingleUse(db.bookings)
  }

  // ── What no later step takes back ───────────────────────────────────────────

  /** Paid for, or closed in a way the revive path does not match. */
  predicate Settled(b: Booking) {
    b.status.Confirmed? ||
    (b.status.Cancelled? && (b.transferAmountCents.None? || b.depositOutcome.Some?))
  }

  predicate BookingEvolves(b: Booking, c: Booking) {
    && c.clubId == b.clubId
    && c.playerId == b.playerId
    && c.creditAppliedCents == b.creditAppliedCents
    && c.transferAmountCents == b.transferAmountCents
    && c.createdAt == b.createdAt
    && (b.mpPaymentId.Some? ==> c.mpPaymentId == b.mpPaymentId)
    && (b.depositOutcome.Some? ==> c.depositOutcome == b.depositOutcome && c.status.Cancelled?)
    && (Settled(b) ==> Settled(c))
    && (c.status.PendingPayment? ==> b.status.PendingPayment?)
    && (b.deleted ==> c.deleted)
  }

  /** `b` can come after `a`: what rows keep for ever. */
  ghost predicate Evolves(a: Db, b: Db) {
    && |a.slots| <= |b.slots|
    && |a.bookings| <= |b.bookings|
    && (forall s :: 0 <= s < |a.slots| ==> SameBand(a.slots[s], b.slots[s]))
    && (forall i :: 0 <= i < |a.bookings| ==> BookingEvolves(a.bookings[i], b.bookings[i]))
    && (forall p :: p in a.players ==> p in b.players)
  }

  lemma EvolvesTrans(a: Db, b: Db, c: Db)
    requires Evolves(a, b) && Evolves(b, c)
    ensures Evolves(a, c)
  {
    forall i | 0 <= i < |a.bookings|
      ensures BookingEvolves(a.bookings[i], c.bookings[i])
    {
      assert BookingEvolves(a.bookings[i], b.bookings[i]) && BookingEvolves(b.bookings[i], c.bookings[i]);
    }
    forall s | 0 <= s < |a.slots|
      ensures SameBand(a.slots[s], c.slots[s])
    {
      assert SameBand(a.slots[s], b.slots[s]) && SameBand(b.slots[s], c.slots[s]);
    }
  }

  // ── The credit ledger ───────────────────────────────────────────────────────

  datatype LedgerLine = AppliedLive | AppliedForfeited | TransferCredited

  /** What one booking puts on a line of a player's ledger. */
  function LineOf(b: Booking, p: PlayerKey, line: LedgerLine): Cents {
    if b.playerId != Some(p) then 0
    else match line
      case AppliedLive => if Live(b) then b.creditAppliedCents else 0
      case AppliedForfeited =>
        if !Live(b) && b.depositOutcome == Some(Forfeited) then b.creditAppliedCents else 0
      case TransferCredited =>
        if !Live(b) && b.depositOutcome == Some(Credited) && b.transferAmountCents.Some?
        then b.transferAmountCents.value else 0
  }

  function Total(bookings: seq<Booking>, p: PlayerKey, line: LedgerLine): Cents {
    if bookings == [] then 0
    else Total(bookings[..|bookings| - 1], p, line) + LineOf(bookings[|bookings| - 1], p, line)
  }

  function CreditOf(db: Db, p: PlayerKey): Cents {
    if p in db.players then db.players[p].creditCents else 0
  }

  /** Credit in hand, plus credit sitting on bookings, minus what came in as transfers. */
  function Balance(db: Db, p: PlayerKey): Cents {
    CreditOf(db, p)
    + Total(db.bookings, p, AppliedLive)
    + Total(db.bookings, p, AppliedForfeited)
    - Total(db.bookings, p, TransferCredited)
  }

  /** A booking's weight in its player's balance. */
  function Weight(b: Booking, p: PlayerKey): Cents {
    LineOf(b, p, AppliedLive) + LineOf(b, p, AppliedForfeited) - LineOf(b, p, TransferCredited)
  }

  lemma {:induction false} TotalUpdate(bookings: seq<Booking>, i: nat, b: Booking, p: PlayerKey, line: LedgerLine)
    requires i < |bookings|
    ensures Total(bookings[i := b], p, line) ==
            Total(bookings, p, line) - LineOf(bookings[i], p, line) + LineOf(b, p, line)
  {
    var n := |bookings| - 1;
    if i < n {
      assert bookings[i := b][..n] == bookings[..n][i := b];
      TotalUpdate(bookings[..n], i, b, p, line);
    } else {
      assert bookings[i := b][..n] == bookings[..n];
    }
  }

  lemma BalanceUpdate(db: Db, i: nat, b: Booking, p: PlayerKey)
    requires i < |db.bookings|
    ensures Balance(db.(bookings := db.bookings[i := b]), p) ==
            Balance(db, p) - Weight(db.bookings[i], p) + Weight(b, p)
  {
    TotalUpdate(db.bookings, i, b, p, AppliedLive);
    TotalUpdate(db.bookings, i, b, p, AppliedForfeited);
    TotalUpdate(db.bookings, i, b, p, TransferCredited);
  }

  lemma BalanceAppend(db: Db, b: Booking, p: PlayerKey)
    ensures Balance(db.(bookings := db.bookings + [b]), p) == Balance(db, p) + Weight(b, p)
  {
    var all := db.bookings + [b];
    assert all[..|all| - 1] == db.bookings;
  }
}
