/** Every booking call keeps the shared invariants, and leaves each player's balance where it was. */
module BookingLaws {
  import opened Base
  import opened ClubData
  import opened RowMoves
  import opened Pricing
  import opened BookingRules

  predicate IsHidden(b: Booking) {
    b.deleted && Live(b)
  }

  /** No cancelled booking came back to life, and no new one was born removed. */
  ghost predicate NoneReopened(a: Db, b: Db) {
    && (forall i :: 0 <= i < |a.bookings| && i < |b.bookings| && Live(b.bookings[i]) ==>
          Live(a.bookings[i]) && (b.bookings[i].deleted ==> a.bookings[i].deleted))
    && (forall i :: |a.bookings| <= i < |b.bookings| ==> !IsHidden(b.bookings[i]))
  }

  /** `b` is sound, only moves rows forward, and no player's balance changed on the way. */
  ghost predicate Keeps(a: Db, b: Db) {
    && Inv(b)
    && Evolves(a, b)
    && NoneReopened(a, b)
    && (forall p :: Balance(b, p) == Balance(a, p))
  }

  lemma KeepsTrans(a: Db, b: Db, c: Db)
    requires Keeps(a, b) && Keeps(b, c)
    ensures Keeps(a, c)
  {
    EvolvesTrans(a, b, c);
    assert forall p :: Balance(c, p) == Balance(b, p);
    forall i | |a.bookings| <= i < |c.bookings|
      ensures !IsHidden(c.bookings[i])
    {
      assert i < |b.bookings| ==> BookingEvolves(b.bookings[i], c.bookings[i]) && !IsHidden(b.bookings[i]);
    }
  }

  lemma KeepsSelf(db: Db)
    requires Inv(db)
    ensures Keeps(db, db)
  {
  }

  lemma RepriceAfter(a: Db, b: Db, s: SlotId, clubId: Option<ClubId>)
    requires Keeps(a, b)
    ensures Keeps(a, RepriceSlot(b, s, clubId).0)
  {
    RepriceSlotKeeps(b, s, clubId);
    KeepsTrans(a, b, RepriceSlot(b, s, clubId).0);
  }

  // ── Creating ────────────────────────────────────────────────────────────────

  lemma UpsertKeeps(db: Db, clubId: ClubId, phone: Option<string>)
    requires Inv(db)
    ensures Keeps(db, UpsertPlayer(db, clubId, phone).0)
    ensures UpsertPlayer(db, clubId, phone).0.slots == db.slots
    ensures UpsertPlayer(db, clubId, phone).0.bookings == db.bookings
  {
    hide Occupancy, RefsSingleUse;
    PlayersOnlyKeeps(db, UpsertPlayer(db, clubId, phone).0.players);
  }

  /** A place on the club's own grid. */
  ghost predicate GoodPlace(db: Db, place: Place, clubId: ClubId) {
    match place
    case Existing(s) => s < |db.slots| && db.slots[s].clubId == clubId
    case Fresh(slot) => slot.startsAt < slot.endsAt && slot.clubId == clubId
  }

  lemma PutLaw(db: Db, place: Place, b: Booking)
    requires Inv(db) && NewClaim(db, b) && GoodPlace(db, place, b.clubId) && Put(db, place, b).Ok?
    ensures var c := Put(db, place, b).value;
      && Inv(c) && Evolves(db, c)
      && (forall p :: Balance(c, p) == Balance(db, p) + Weight(b, p))
  {
    match place
    case Existing(s) => TakeSlotKeeps(db, s, b);
    case Fresh(slot) => TakeNewSlotKeeps(db, slot, b);
  }

  lemma PutOrKeepLaw(db: Db, place: Place, b: Booking)
    requires Inv(db) && NewClaim(db, b) && GoodPlace(db, place, b.clubId) && b.creditAppliedCents == 0
    ensures Keeps(db, PutOrKeep(db, place, b).db)
  {
    hide Occupancy, RefsSingleUse;
    if Put(db, place, b).Ok? {
      PutLaw(db, place, b);
    }
  }

  ghost predicate GoodBand(req: BandRequest) {
    req.band.Some? ==> req.band.value.startsAt < req.band.value.endsAt
  }

  lemma BookKeeps(db: Db, clubId: ClubId, s: SlotId, who: Who, bookedBy: Option<int>, now: Instant)
    requires Inv(db)
    ensures Keeps(db, Book(db, clubId, s, who, bookedBy, now).db)
  {
    if s < |db.slots| && db.slots[s].clubId == clubId && db.slots[s].status.Available? {
      var (db1, playerId) := UpsertPlayer(db, clubId, who.phone);
      UpsertKeeps(db, clubId, who.phone);
      var deposit := DepositFor(ClubOf(db, clubId), db.slots[s].priceCents);
      var b := NewBooking(clubId, who, playerId, now).(
        playerDni := None, bookedByUserId := bookedBy, depositCents := deposit,
        status := if deposit == 0 then Confirmed else PendingPayment);
      PutOrKeepLaw(db1, Existing(s), b);
      KeepsTrans(db, db1, PutOrKeep(db1, Existing(s), b).db);
    }
  }

  lemma BookBandKeeps(db: Db, clubId: ClubId, req: BandRequest, who: Who, now: Instant)
    requires Inv(db) && GoodBand(req)
    ensures Keeps(db, BookBand(db, clubId, req, who, now).db)
  {
    if CheckBand(db, clubId, req, now).Ok? {
      var band := CheckBand(db, clubId, req, now).value;
      var (db1, playerId) := UpsertPlayer(db, clubId, who.phone);
      UpsertKeeps(db, clubId, who.phone);
      var place := PlaceFor(db1, clubId, req.courtId, band, req.priceCents);
      var b := NewBooking(clubId, who, playerId, now).(playerDni := None);
      PutOrKeepLaw(db1, place, b);
      KeepsTrans(db, db1, PutOrKeep(db1, place, b).db);
    }
  }

  // ── Charging ────────────────────────────────────────────────────────────────

  predicate TagTaken(bookings: seq<Booking>, whole: Cents, tag: int) {
    AmountInUse(bookings, whole + tag)
  }

  lemma {:induction false} FirstFreeTagRange(bookings: seq<Booking>, whole: Cents, tag: nat)
    requires tag <= 100
    ensures var t := FirstFreeTag(bookings, whole, tag);
      && (t.Some? ==> tag <= t.value < 100 && !AmountInUse(bookings, whole + t.value))
      && (t.None? ==> forall k :: tag <= k < 100 ==> TagTaken(bookings, whole, k))
    decreases 100 - tag
  {
    if tag < 100 {
      FirstFreeTagRange(bookings, whole, tag + 1);
    }
  }

  ghost predicate BucketHasRoom(bookings: seq<Booking>, depositCents: Cents) {
    exists k :: 0 <= k < 100 && !TagTaken(bookings, WholePesos(depositCents), k)
  }

  /**
   * The allocated amount stays within 99 cents of the deposit, is the deposit itself whenever no
   * pending booking waits for that, and is unused by every pending booking exactly when the
   * whole-peso bucket has a tag left.
   */
  lemma AllocateAmountLaw(bookings: seq<Booking>, depositCents: nat)
    ensures var a := AllocateAmount(bookings, depositCents);
      && WholePesos(depositCents) <= a < WholePesos(depositCents) + 100
      && -99 <= a - depositCents <= 99
      && (!AmountInUse(bookings, depositCents) ==> a == depositCents)
      && (!AmountInUse(bookings, a) <==> BucketHasRoom(bookings, depositCents))
  {
    var whole := WholePesos(depositCents);
    assert whole <= depositCents < whole + 100;
    FirstFreeTagRange(bookings, whole, 0);
    var a := AllocateAmount(bookings, depositCents);
    assert TagTaken(bookings, whole, a - whole) <==> AmountInUse(bookings, a);
    assert TagTaken(bookings, whole, depositCents - whole) <==> AmountInUse(bookings, depositCents);
  }

  // ── Pigeonhole: 100 tags cannot all be taken by fewer than 100 bookings ──────

  predicate InBucket(b: Booking, whole: Cents) {
    && b.status.PendingPayment?
    && b.transferAmountCents.Some?
    && whole <= b.transferAmountCents.value < whole + 100
  }

  function CountInBucket(bookings: seq<Booking>, whole: Cents): nat {
    if bookings == [] then 0
    else CountInBucket(bookings[..|bookings| - 1], whole) + (if InBucket(bookings[|bookings| - 1], whole) then 1 else 0)
  }

  function Tags(n: nat): (tags: set<int>)
    ensures |tags| == n && forall k :: k in tags <==> 0 <= k < n
  {
    if n == 0 then {} else Tags(n - 1) + {n - 1}
  }

  function TagsTaken(bookings: seq<Booking>, whole: Cents): set<int> {
    set k | k in Tags(100) && TagTaken(bookings, whole, k)
  }

  lemma TagHolder(bookings: seq<Booking>, whole: Cents, k: int)
    requires bookings != [] && 0 <= k < 100 && TagTaken(bookings, whole, k)
    ensures var last := bookings[|bookings| - 1];
            TagTaken(bookings[..|bookings| - 1], whole, k)
            || (InBucket(last, whole) && last.transferAmountCents.value - whole == k)
  {
    var front := bookings[..|bookings| - 1];
    var i :| 0 <= i < |bookings| && AwaitsAmount(bookings[i], whole + k);
    if i < |front| {
      assert AwaitsAmount(front[i], whole + k);
    }
  }

  function OwnTag(b: Booking, whole: Cents): set<int> {
    if InBucket(b, whole) then {b.transferAmountCents.value - whole} else {}
  }

  lemma TagsGrow(bookings: seq<Booking>, whole: Cents)
    requires bookings != []
    ensures TagsTaken(bookings, whole) <=
            TagsTaken(bookings[..|bookings| - 1], whole) + OwnTag(bookings[|bookings| - 1], whole)
  {
    forall k | k in TagsTaken(bookings, whole)
      ensures k in TagsTaken(bookings[..|bookings| - 1], whole) + OwnTag(bookings[|bookings| - 1], whole)
    {
      TagHolder(bookings, whole, k);
    }
  }

  lemma {:induction false} TagsFewerThanBookings(bookings: seq<Booking>, whole: Cents)
    ensures |TagsTaken(bookings, whole)| <= CountInBucket(bookings, whole)
  {
    if bookings == [] {
      assert TagsTaken(bookings, whole) == {};
    } else {
      var n := |bookings| - 1;
      TagsFewerThanBookings(bookings[..n], whole);
      TagsGrow(bookings, whole);
      hide TagsTaken;
      SubsetSize(TagsTaken(bookings, whole), TagsTaken(bookings[..n], whole) + OwnTag(bookings[n], whole));
    }
  }

  lemma SubsetSize(a: set<int>, b: set<int>)
    requires a <= b
    ensures |a| <= |b|
  {
    assert a + (b - a) == b;
  }

  /** With fewer than 100 pendings in the bucket the search always finds a free tag. */
  lemma RoomWhileUnderHundred(bookings: seq<Booking>, depositCents: nat)
    requires CountInBucket(bookings, WholePesos(depositCents)) < 100
    ensures BucketHasRoom(bookings, depositCents)
    ensures !AmountInUse(bookings, AllocateAmount(bookings, depositCents))
  {
    var whole := WholePesos(depositCents);
    if !BucketHasRoom(bookings, depositCents) {
      assert TagsTaken(bookings, whole) == Tags(100);
      TagsFewerThanBookings(bookings, whole);
      assert false;
    }
    AllocateAmountLaw(bookings, depositCents);
  }

  /** What is charged: credit never exceeds what the player has, and credit plus transfer make the deposit. */
  lemma ChargeLaw(db: Db, club: Club, terms: Terms, hasPlayer: bool, known: Option<string>)
    requires 0 <= terms.depositCents && 0 <= terms.availableCreditCents
    ensures var ch := ChargeFor(db, club, terms, hasPlayer, known);
      && 0 <= ch.creditApplied <= terms.depositCents
      && ch.creditApplied <= terms.availableCreditCents
      && (!hasPlayer ==> ch.creditApplied == 0)
      && (ch.transfer.None? <==> ch.creditApplied == terms.depositCents)
      && (ch.transfer.None? <==> ch.confirmedNow)
      && (ch.transfer.Some? ==>
            0 <= ch.transfer.value && -99 <= ch.creditApplied + ch.transfer.value - terms.depositCents <= 99)
  {
    if terms.depositCents > 0 {
      AllocateAmountLaw(db.bookings, terms.depositCents);
    }
  }

  lemma SpendCreditLaw(db: Db, playerId: Option<PlayerKey>, cents: Cents)
    requires Inv(db) && 0 <= cents
    requires playerId.Some? ==> playerId.value in db.players && cents <= db.players[playerId.value].creditCents
    requires playerId.None? ==> cents == 0
    ensures var paid := SpendCredit(db, playerId, cents);
      && Inv(paid) && Evolves(db, paid)
      && (forall p :: Balance(paid, p) == Balance(db, p) - (if playerId == Some(p) then cents else 0))
  {
    PlayersOnlyKeeps(db, SpendCredit(db, playerId, cents).players);
  }

  lemma PutOpensNone(db: Db, place: Place, b: Booking)
    requires !b.deleted && Put(db, place, b).Ok?
    ensures NoneReopened(db, Put(db, place, b).value)
  {
    hide StartTaken;
  }

  lemma SpendCreditElsewhere(db: Db, playerId: Option<PlayerKey>, cents: Cents, place: Place, b: Booking)
    requires NewClaim(db, b) && GoodPlace(db, place, b.clubId)
    ensures var paid := SpendCredit(db, playerId, cents);
            && paid.slots == db.slots && paid.bookings == db.bookings
            && NewClaim(paid, b) && GoodPlace(paid, place, b.clubId)
  {
  }

  lemma LiveWeight(b: Booking, p: PlayerKey)
    requires Live(b)
    ensures Weight(b, p) == if b.playerId == Some(p) then b.creditAppliedCents else 0
  {
  }

  lemma NewClaimIsLive(db: Db, b: Booking)
    requires NewClaim(db, b)
    ensures Live(b) && !b.deleted
  {
  }

  /** Credit spent and the booking that carries it cancel out. */
  lemma SpendAndPutKeeps(db: Db, playerId: Option<PlayerKey>, cents: Cents, place: Place, b: Booking)
    requires Inv(db) && GoodPlace(db, place, b.clubId) && 0 <= cents
    requires playerId.Some? ==> playerId.value in db.players && cents <= db.players[playerId.value].creditCents
    requires playerId.None? ==> cents == 0
    requires b.playerId == playerId && b.creditAppliedCents == cents && NewClaim(db, b)
    requires Put(SpendCredit(db, playerId, cents), place, b).Ok?
    ensures Keeps(db, Put(SpendCredit(db, playerId, cents), place, b).value)
  {
    hide Inv, Evolves, Balance, Weight, Put, SpendCredit, GoodPlace, NewClaim, Live;
    var paid := SpendCredit(db, playerId, cents);
    var c := Put(paid, place, b).value;
    SpendCreditElsewhere(db, playerId, cents, place, b);
    NewClaimIsLive(db, b);
    PutOpensNone(paid, place, b);
    SpendCreditLaw(db, playerId, cents);
    PutLaw(paid, place, b);
    EvolvesTrans(db, paid, c);
    forall p
      ensures Balance(c, p) == Balance(db, p)
    {
      LiveWeight(b, p);
    }
  }


  lemma CreatePendingKeeps(db: Db, clubId: ClubId, who: Who, playerId: Option<PlayerKey>, terms: Terms, place: Place,
                           now: Instant)
    requires Inv(db) && GoodPlace(db, place, clubId) && 0 <= terms.depositCents
    requires playerId.Some? ==>
               playerId.value in db.players && terms.availableCreditCents == db.players[playerId.value].creditCents
    requires playerId.None? ==> terms.availableCreditCents == 0
    ensures Keeps(db, CreatePending(db, clubId, who, playerId, terms, place, now).db)
  {
    KeepsSelf(db);
    var known := if terms.depositCents > 0 then KnownPayer(db.bookings, clubId, who.phone) else None;
    var charge := ChargeFor(db, ClubOf(db, clubId), terms, playerId.Some?, known);
    ChargeLaw(db, ClubOf(db, clubId), terms, playerId.Some?, known);
    var paid := SpendCredit(db, playerId, charge.creditApplied);
    var b := PendingRow(clubId, who, playerId, terms, charge, known, now);
    if Put(paid, place, b).Ok? {
      SpendAndPutKeeps(db, playerId, charge.creditApplied, place, b);
    }
  }

  lemma StartPendingKeeps(db: Db, clubId: ClubId, who: Who, priceCents: nat, place: Place, now: Instant)
    requires Inv(db) && GoodPlace(db, place, clubId)
    ensures Keeps(db, StartPending(db, clubId, who, priceCents, place, now).db)
  {
    var (db1, playerId) := UpsertPlayer(db, clubId, who.phone);
    UpsertKeeps(db, clubId, who.phone);
    match PlayerTerms(db1, ClubOf(db, clubId), playerId, priceCents)
    case Err(_) =>
    case Ok(terms) =>
      CreatePendingKeeps(db1, clubId, who, playerId, terms, place, now);
      KeepsTrans(db, db1, CreatePending(db1, clubId, who, playerId, terms, place, now).db);
  }

  lemma BookPendingKeeps(db: Db, clubId: ClubId, s: SlotId, who: Who, now: Instant)
    requires Inv(db)
    ensures Keeps(db, BookPending(db, clubId, s, who, now).db)
  {
    if s < |db.slots| && db.slots[s].clubId == clubId && db.slots[s].status.Available? {
      StartPendingKeeps(db, clubId, who, db.slots[s].priceCents, Existing(s), now);
    }
  }

  lemma BookBandPendingKeeps(db: Db, clubId: ClubId, req: BandRequest, who: Who, now: Instant)
    requires Inv(db) && GoodBand(req)
    ensures Keeps(db, BookBandPending(db, clubId, req, who, now).db)
  {
    if CheckBand(db, clubId, req, now).Ok? {
      var band := CheckBand(db, clubId, req, now).value;
      StartPendingKeeps(db, clubId, who, req.priceCents, PlaceFor(db, clubId, req.courtId, band, req.priceCents), now);
    }
  }

  // ── Confirming ──────────────────────────────────────────────────────────────

  lemma ConfirmKeeps(db: Db, i: BookingId, ref: Option<string>, payer: Payer)
    requires Inv(db) && (Truthy(ref) ==> !RefUsed(db.bookings, ref.value))
    ensures Keeps(db, ConfirmPayment(db, i, ref, payer).0)
  {
    if IsPending(db, i) {
      assert SoundMoney(db.bookings[i], db.players);
      EditKeeps(db, i, WithPayment(db.bookings[i], ref, payer));
    }
  }

  lemma ConfirmManualKeeps(db: Db, clubId: ClubId, i: BookingId, ref: Option<string>, payer: Payer)
    requires Inv(db)
    ensures Keeps(db, ConfirmManual(db, clubId, i, ref, payer).db)
  {
    KeepsSelf(db);
    if ConfirmManual(db, clubId, i, ref, payer).result == Ok(Some(i)) {
      ConfirmKeeps(db, i, ref, payer);
    }
  }

  /** The revive path is the one call that moves a balance: the credit it re-attaches was already returned. */
  function Reattached(db: Db, t: Transfer, p: PlayerKey): Cents {
    var back := ReviveMatch(db, t);
    if Revives(db, t) && back.value < |db.bookings| && db.bookings[back.value].playerId == Some(p)
    then db.bookings[back.value].creditAppliedCents else 0
  }

  lemma ReviveMatchIsRevivable(db: Db, t: Transfer)
    requires ReviveMatch(db, t).Some?
    ensures ReviveMatch(db, t).value < |db.bookings|
    ensures Revivable(db, db.bookings[ReviveMatch(db, t).value], t)
  {
    var ids := ExpiredCandidates(db, t);
    var i := ReviveMatch(db, t).value;
    assert i in ids;
  }

  predicate Revives(db: Db, t: Transfer) {
    !RefUsed(db.bookings, t.ref) && Candidates(db, t) == [] && ReviveMatch(db, t).Some?
  }

  lemma ReviveLaw(db: Db, t: Transfer)
    requires Inv(db) && Revives(db, t)
    ensures ReviveMatch(db, t).value < |db.bookings|
    ensures var i := ReviveMatch(db, t).value;
      var c := ConfirmByAmount(db, t).0;
      && Inv(c) && Evolves(db, c)
      && (forall p :: Balance(c, p) == Balance(db, p) + Reattached(db, t, p))
      && c.bookings == db.bookings[i := WithPayment(db.bookings[i], Some(t.ref), t.payer)]
  {
    var i := ReviveMatch(db, t).value;
    ReviveMatchIsRevivable(db, t);
    assert SoundMoney(db.bookings[i], db.players) && db.bookings[i].slotId < |db.slots|;
    assert FreshRef(db.bookings, i, WithPayment(db.bookings[i], Some(t.ref), t.payer));
    hide Occupancy, RefsSingleUse;
    ReopenKeeps(db, i, WithPayment(db.bookings[i], Some(t.ref), t.payer));
  }

  lemma ConfirmByAmountKeeps(db: Db, t: Transfer)
    requires Inv(db) && !Revives(db, t)
    ensures Keeps(db, ConfirmByAmount(db, t).0)
  {
    KeepsSelf(db);
    if !RefUsed(db.bookings, t.ref) && Candidates(db, t) != [] {
      var chosen := PendingMatch(db, t);
      if chosen.Some? && IsPending(db, chosen.value) {
        ConfirmKeeps(db, chosen.value, Some(t.ref), t.payer);
      }
    }
  }

  // ── Cancelling ──────────────────────────────────────────────────────────────

  /** Credited: transfer and credit become credit. Forfeited: recorded. Unpaid: the credit goes back. */
  lemma CancellationIsFair(db: Db, b: Booking, now: Instant)
    requires SoundMoney(b, db.players) && Live(b)
    ensures FairClosing(b, CancellationOutcome(db, b, now).0, CancellationOutcome(db, b, now).1)
  {
  }

  lemma CancelKeeps(db: Db, clubId: ClubId, i: BookingId, now: Instant)
    requires Inv(db)
    ensures Keeps(db, Cancel(db, clubId, i, now).db)
  {
    hide RefsSingleUse, Occupancy;
    KeepsSelf(db);
    if Visible(db, clubId, i) && Live(db.bookings[i]) {
      var b := db.bookings[i];
      assert SoundMoney(b, db.players);
      CancellationIsFair(db, b, now);
      var (outcome, refund) := CancellationOutcome(db, b, now);
      hide CancellationOutcome, FairClosing;
      CloseKeeps(db, i, outcome, refund);
      RepriceAfter(db, Close(db, i, outcome, refund), b.slotId, Some(clubId));
    }
  }

  lemma ReleasePendingKeeps(db: Db, i: BookingId)
    requires Inv(db)
    ensures Keeps(db, ReleasePending(db, i).0)
  {
    hide RefsSingleUse, Occupancy;
    KeepsSelf(db);
    if IsPending(db, i) {
      var b := db.bookings[i];
      assert SoundMoney(b, db.players);
      assert FairClosing(b, b.depositOutcome, b.creditAppliedCents);
      hide FairClosing;
      CloseKeeps(db, i, b.depositOutcome, b.creditAppliedCents);
      RepriceAfter(db, Close(db, i, b.depositOutcome, b.creditAppliedCents), b.slotId, None);
    }
  }

  lemma CancelPendingKeeps(db: Db, i: BookingId)
    requires Inv(db)
    ensures Keeps(db, CancelPending(db, i).0)
  {
    hide Occupancy;
    ReleasePendingKeeps(db, i);
    var released := ReleasePending(db, i).0;
    if i < |released.bookings| {
      var b := released.bookings[i];
      SameRefIsFresh(released.bookings, i, b.(receipts := 0));
      EditKeeps(released, i, b.(receipts := 0));
      KeepsTrans(db, released, PurgeReceipts(released, i));
    }
  }

  lemma RejectKeeps(db: Db, clubId: ClubId, i: BookingId)
    requires Inv(db)
    ensures Keeps(db, RejectPayment(db, clubId, i).db)
  {
    KeepsSelf(db);
    CancelPendingKeeps(db, i);
    hide Keeps;
  }

  lemma {:induction false} ReleaseAllKeeps(db: Db, ids: seq<BookingId>)
    requires Inv(db)
    ensures Keeps(db, ReleaseAll(db, ids))
  {
    if ids == [] {
      KeepsSelf(db);
    } else {
      var before := ReleaseAll(db, ids[..|ids| - 1]);
      ReleaseAllKeeps(db, ids[..|ids| - 1]);
      ReleasePendingKeeps(before, ids[|ids| - 1]);
      KeepsTrans(db, before, ReleaseAll(db, ids));
    }
  }

  // ── Edits and moves ─────────────────────────────────────────────────────────

  lemma SameRefEditKeeps(db: Db, i: BookingId, b: Booking)
    requires Inv(db) && i < |db.bookings| && SameClaim(db.bookings[i], b)
    requires b.mpPaymentId == db.bookings[i].mpPaymentId
    ensures Keeps(db, Edit(db, i, b))
  {
    SameRefIsFresh(db.bookings, i, b);
    EditKeeps(db, i, b);
  }

  lemma RemoveKeeps(db: Db, clubId: ClubId, i: BookingId)
    requires Inv(db)
    ensures Keeps(db, Remove(db, clubId, i).db)
  {
    if Visible(db, clubId, i) && !Live(db.bookings[i]) {
      assert SoundMoney(db.bookings[i], db.players);
      SameRefEditKeeps(db, i, db.bookings[i].(deleted := true));
    }
  }

  lemma SetDetailKeeps(db: Db, i: BookingId, d: Detail)
    requires Inv(db)
    ensures Keeps(db, SetDetail(db, i, d))
  {
    if i < |db.bookings| {
      assert SoundMoney(db.bookings[i], db.players);
      SameRefEditKeeps(db, i, WithDetail(db.bookings[i], d));
    }
  }

  lemma MoveLaw(db: Db, i: BookingId, s: SlotId, b: Booking)
    requires Inv(db) && i < |db.bookings| && Live(db.bookings[i]) && db.bookings[i].slotId < |db.slots|
    requires s < |db.slots| && db.slots[s].status.Available? && db.slots[s].clubId == b.clubId
    requires SameClaim(db.bookings[i], b) && b.mpPaymentId == db.bookings[i].mpPaymentId
    ensures Keeps(db, MoveTo(db, i, s, b))
  {
    MoveToKeeps(db, i, s, b);
    hide Inv, Evolves, Balance;
  }

  lemma RescheduleKeeps(db: Db, clubId: ClubId, i: BookingId, s: SlotId)
    requires Inv(db)
    ensures Keeps(db, Reschedule(db, clubId, i, s).db)
  {
    KeepsSelf(db);
    if Reschedule(db, clubId, i, s).result.Ok? {
      var b := db.bookings[i];
      assert SoundMoney(b, db.players);
      hide Inv, Keeps;
      MoveLaw(db, i, s, b);
      RepriceAfter(db, MoveTo(db, i, s, b), b.slotId, Some(clubId));
    }
  }

  lemma WithTargetKeeps(db: Db, place: Place, clubId: ClubId)
    requires Inv(db) && GoodPlace(db, place, clubId) && WithTarget(db, place).Ok?
    ensures Keeps(db, WithTarget(db, place).value.0)
    ensures WithTarget(db, place).value.0.bookings == db.bookings
    ensures WithTarget(db, place).value.1 < |WithTarget(db, place).value.0.slots|
    ensures var slot := WithTarget(db, place).value.0.slots[WithTarget(db, place).value.1];
            slot.status.Available? && slot.clubId == clubId
  {
    if place.Fresh? {
      SlotsOnlyKeeps(db, WithTarget(db, place).value.0.slots);
    }
  }

  lemma SlotOfBooking(db: Db, i: BookingId)
    requires Inv(db) && i < |db.bookings|
    ensures db.bookings[i].slotId < |db.slots|
  {
    hide LiveHoldsBooked, OneLivePerSlot, BookedIsHeld, UniqueStarts, SoundSlots, RefsSingleUse, SoundMoney;
  }

  lemma CountingKeepsClaim(db: Db, i: BookingId)
    requires Inv(db) && i < |db.bookings| && Live(db.bookings[i])
    ensures var b := db.bookings[i]; SameClaim(b, b.(rescheduleCount := b.rescheduleCount + 1))
  {
    hide Occupancy, RefsSingleUse;
    assert SoundMoney(db.bookings[i], db.players);
  }

  lemma PlayerMoveKeeps(db: Db, i: BookingId, s: SlotId)
    requires Inv(db) && i < |db.bookings| && Live(db.bookings[i])
    requires s < |db.slots| && db.slots[s].status.Available? && db.slots[s].clubId == db.bookings[i].clubId
    ensures db.bookings[i].slotId < |db.slots| && Keeps(db, PlayerMove(db, i, s))
  {
    hide Inv, Keeps, Live, SameClaim;
    var b := db.bookings[i];
    SlotOfBooking(db, i);
    CountingKeepsClaim(db, i);
    MoveLaw(db, i, s, b.(rescheduleCount := b.rescheduleCount + 1));
  }

  lemma RescheduleByPlayerKeeps(db: Db, clubId: ClubId, i: BookingId, phone: string, req: BandRequest, now: Instant)
    requires Inv(db) && GoodBand(req)
    ensures Keeps(db, RescheduleByPlayer(db, clubId, i, phone, req, now).0)
  {
    if RescheduleByPlayer(db, clubId, i, phone, req, now).1 {
      var band := CheckBand(db, clubId, req, now).value;
      var place := PlaceFor(db, clubId, req.courtId, band, req.priceCents);
      WithTargetKeeps(db, place, clubId);
      var (db1, s) := WithTarget(db, place).value;
      PlayerMoveKeeps(db1, i, s);
      KeepsTrans(db, db1, PlayerMove(db1, i, s));
      RepriceAfter(db, PlayerMove(db1, i, s), db.bookings[i].slotId, Some(clubId));
    } else {
      KeepsSelf(db);
    }
  }
}
