/**
 * Calls that ask for a band of a court rather than a slot row: when they go through and where the
 * booking lands, whether the band already had a row or not (src/bookings/bookings.service.ts,
 * bookBand, bookBandPending and rescheduleToBandByPlayer).
 */
module BandCalls {
  import opened Base
  import opened ClubData
  import opened RowMoves
  import opened Pricing
  import opened BookingRules
  import opened BookingLaws
  import opened ReleasedCourts

  /** Every row at that court and start is a free one of the club. */
  ghost predicate BandIsFree(db: Db, clubId: ClubId, courtId: CourtId, startsAt: Instant) {
    forall s :: 0 <= s < |db.slots| && db.slots[s].courtId == courtId && db.slots[s].startsAt == startsAt ==>
      db.slots[s].clubId == clubId && db.slots[s].status.Available?
  }

  /** The slot booking i holds is the club's, on that court, at that start. */
  ghost predicate Lands(c: Db, i: BookingId, clubId: ClubId, courtId: CourtId, startsAt: Instant) {
    && i < |c.bookings| && Live(c.bookings[i]) && c.bookings[i].slotId < |c.slots|
    && IsSlotAt(c.slots[c.bookings[i].slotId], clubId, courtId, startsAt)
    && c.slots[c.bookings[i].slotId].status.Booked?
  }

  /** Slots `db` had, other than `spared`, are as they were. */
  ghost predicate OtherSlotsStay(db: Db, c: Db, spared: set<SlotId>) {
    |db.slots| <= |c.slots| && forall s :: 0 <= s < |db.slots| && s !in spared ==> c.slots[s] == db.slots[s]
  }

  /** One more booking, and no other changed. */
  ghost predicate OneMoreBooking(db: Db, c: Db) {
    |c.bookings| == |db.bookings| + 1 && c.bookings[..|db.bookings|] == db.bookings
  }

  /** Where a band would be placed can take a booking exactly when the band is free. */
  lemma PlaceTakesExactly(db: Db, clubId: ClubId, courtId: CourtId, band: Band, priceCents: nat, b: Booking)
    requires UniqueStarts(db.slots)
    ensures Put(db, PlaceFor(db, clubId, courtId, band, priceCents), b).Ok? <==>
            BandIsFree(db, clubId, courtId, band.startsAt)
  {
    var found := SlotAt(db, clubId, courtId, band.startsAt);
    var place := PlaceFor(db, clubId, courtId, band, priceCents);
    if found.Some? {
      forall s | 0 <= s < |db.slots| && db.slots[s].courtId == courtId && db.slots[s].startsAt == band.startsAt
        ensures s == found.value
      {
        assert SameStart(db.slots[s], db.slots[found.value]) && SameStart(db.slots[found.value], db.slots[s]);
      }
    } else {
      forall s | 0 <= s < |db.slots| && SameStart(db.slots[s], place.slot)
        ensures db.slots[s].clubId != clubId
      {
        assert db.slots[s] in db.slots;
      }
    }
  }

  lemma PlaceLands(db: Db, clubId: ClubId, courtId: CourtId, band: Band, priceCents: nat, b: Booking)
    requires Live(b) && Put(db, PlaceFor(db, clubId, courtId, band, priceCents), b).Ok?
    ensures var c := Put(db, PlaceFor(db, clubId, courtId, band, priceCents), b).value;
            && OneMoreBooking(db, c) && Lands(c, |db.bookings|, clubId, courtId, band.startsAt)
            && OtherSlotsStay(db, c, {c.bookings[|db.bookings|].slotId})
            && c.bookings[|db.bookings|] == b.(slotId := c.bookings[|db.bookings|].slotId)
  {
    hide StartTaken;
  }

  lemma UpsertKeepsRows(db: Db, clubId: ClubId, phone: Option<string>)
    ensures var db1 := UpsertPlayer(db, clubId, phone).0;
            db1.slots == db.slots && db1.bookings == db.bookings && db1.courts == db.courts && db1.clubs == db.clubs
  {
  }

  /**
   * The desk's band booking goes through exactly when the band is of the club's court, ahead and free.
   * The new booking holds that very court and start, and nothing else on the courts changes.
   */
  lemma BookBandExactly(db: Db, clubId: ClubId, req: BandRequest, who: Who, now: Instant)
    requires UniqueStarts(db.slots)
    ensures var c := BookBand(db, clubId, req, who, now);
            var band := CheckBand(db, clubId, req, now);
            && (c.result.Ok? <==> band.Ok? && BandIsFree(db, clubId, req.courtId, band.value.startsAt))
            && (c.result.Err? ==> c.db.slots == db.slots && c.db.bookings == db.bookings)
            && (c.result.Ok? ==>
                  && c.result.value == |db.bookings| && OneMoreBooking(db, c.db)
                  && Lands(c.db, |db.bookings|, clubId, req.courtId, band.value.startsAt)
                  && OtherSlotsStay(db, c.db, {c.db.bookings[|db.bookings|].slotId})
                  && c.db.bookings[|db.bookings|].playerPhone == who.phone)
  {
    hide UniqueStarts, Put, PlaceFor, UpsertPlayer, BandIsFree;
    var checked := CheckBand(db, clubId, req, now);
    if checked.Ok? {
      UpsertKeepsRows(db, clubId, who.phone);
      var (db1, playerId) := UpsertPlayer(db, clubId, who.phone);
      var b := NewBooking(clubId, who, playerId, now).(playerDni := None);
      PlaceTakesExactly(db1, clubId, req.courtId, checked.value, req.priceCents, b);
      SameBandFree(db, db1, clubId, req.courtId, checked.value.startsAt);
      if Put(db1, PlaceFor(db1, clubId, req.courtId, checked.value, req.priceCents), b).Ok? {
        PlaceLands(db1, clubId, req.courtId, checked.value, req.priceCents, b);
      }
    }
  }

  lemma SameBandFree(db: Db, other: Db, clubId: ClubId, courtId: CourtId, startsAt: Instant)
    requires other.slots == db.slots
    ensures BandIsFree(other, clubId, courtId, startsAt) <==> BandIsFree(db, clubId, courtId, startsAt)
  {
  }

  // ── The bot's booking ───────────────────────────────────────────────────────

  /** The club takes this phone's bookings at this price: not blocked, and not sent to a person for review. */
  predicate PlayerAccepted(db: Db, clubId: ClubId, playerId: Option<PlayerKey>, priceCents: nat) {
    if playerId.None? || playerId.value !in db.players then true
    else
      var player := db.players[playerId.value];
      && !player.isBlocked
      && (player.noShowCount < NO_SHOW_FULL_THRESHOLD
          || !(ClubOf(db, clubId).depositMode.DepositNone? || priceCents == 0))
  }

  /** What the player is told is what the row says, and the credit it names left the player's account. */
  ghost predicate QuoteMatches(db: Db, c: Db, p: Pending, playerId: Option<PlayerKey>, now: Instant) {
    && p.bookingId == |db.bookings| && p.bookingId < |c.bookings|
    && var row := c.bookings[p.bookingId];
    && row.depositCents == p.depositCents && row.creditAppliedCents == p.creditAppliedCents && row.playerId == playerId
    && (row.status.Confirmed? <==> p.confirmedByCredit || p.confirmedWithoutDeposit)
    && row.transferAmountCents == (if row.status.Confirmed? then None else Some(p.transferAmountCents))
    && row.paymentExpiresAt == (if row.status.Confirmed? then None else Some(now + PAYMENT_WINDOW_MS))
    && (forall key :: CreditOf(c, key) == CreditOf(db, key) - (if playerId == Some(key) then p.creditAppliedCents
                                                               else 0))
  }

  lemma PlayerAfterUpsert(db: Db, clubId: ClubId, phone: Option<string>, priceCents: nat)
    ensures var (db1, playerId) := UpsertPlayer(db, clubId, phone);
            && (PlayerTerms(db1, ClubOf(db, clubId), playerId, priceCents).Ok? <==>
                PlayerAccepted(db, clubId, playerId, priceCents))
            && (playerId.Some? ==> playerId.value in db1.players)
            && (forall key :: CreditOf(db1, key) == CreditOf(db, key))
            && ClubOf(db1, clubId) == ClubOf(db, clubId)
  {
    hide DepositFor;
  }

  lemma TermsAreTheirs(db: Db, club: Club, playerId: Option<PlayerKey>, priceCents: nat)
    requires playerId.Some? ==> playerId.value in db.players && 0 <= db.players[playerId.value].creditCents
    requires PlayerTerms(db, club, playerId, priceCents).Ok?
    ensures var terms := PlayerTerms(db, club, playerId, priceCents).value;
            && 0 <= terms.depositCents
            && terms.availableCreditCents == (if playerId.Some? then db.players[playerId.value].creditCents else 0)
  {
  }

  lemma CreditSpent(db: Db, playerId: Option<PlayerKey>, cents: Cents)
    requires 0 <= cents && (playerId.None? ==> cents == 0) && (playerId.Some? ==> playerId.value in db.players)
    ensures var paid := SpendCredit(db, playerId, cents);
            && paid.slots == db.slots && paid.bookings == db.bookings && paid.courts == db.courts
            && forall key :: CreditOf(paid, key) == CreditOf(db, key) - (if playerId == Some(key) then cents else 0)
  {
  }

  /** Creating the booking succeeds exactly when the band is free, and what is quoted is what is written. */
  lemma CreateExactly(db: Db, clubId: ClubId, who: Who, playerId: Option<PlayerKey>, terms: Terms, courtId: CourtId,
                      band: Band, priceCents: nat, now: Instant)
    requires UniqueStarts(db.slots) && 0 <= terms.depositCents && 0 <= terms.availableCreditCents
    requires playerId.Some? ==> playerId.value in db.players
    requires terms.availableCreditCents == (if playerId.Some? then db.players[playerId.value].creditCents else 0)
    ensures var c := CreatePending(db, clubId, who, playerId, terms, PlaceFor(db, clubId, courtId, band, priceCents),
                                   now);
            && (c.result.Ok? <==> BandIsFree(db, clubId, courtId, band.startsAt))
            && (c.result.Err? ==> c.db == db)
            && (c.result.Ok? ==>
                  && OneMoreBooking(db, c.db) && Lands(c.db, |db.bookings|, clubId, courtId, band.startsAt)
                  && OtherSlotsStay(db, c.db, {c.db.bookings[|db.bookings|].slotId})
                  && QuoteMatches(db, c.db, c.result.value, playerId, now))
  {
    hide UniqueStarts, BandIsFree, Lands, OtherSlotsStay, OneMoreBooking, PlaceFor, Put, KnownPayer, AllocateAmount,
         AsksRoundAmount, SpendCredit,
         CreditOf;
    var known := if terms.depositCents > 0 then KnownPayer(db.bookings, clubId, who.phone) else None;
    var charge := ChargeFor(db, ClubOf(db, clubId), terms, playerId.Some?, known);
    ChargeLaw(db, ClubOf(db, clubId), terms, playerId.Some?, known);
    var paid := SpendCredit(db, playerId, charge.creditApplied);
    CreditSpent(db, playerId, charge.creditApplied);
    var b := PendingRow(clubId, who, playerId, terms, charge, known, now);
    SamePlace(db, paid, clubId, courtId, band, priceCents);
    SameBandFree(db, paid, clubId, courtId, band.startsAt);
    PlaceTakesExactly(paid, clubId, courtId, band, priceCents, b);
    if Put(paid, PlaceFor(db, clubId, courtId, band, priceCents), b).Ok? {
      var d := Put(paid, PlaceFor(db, clubId, courtId, band, priceCents), b).value;
      PlaceLands(paid, clubId, courtId, band, priceCents, b);
      SameElsewhere(db, paid, d);
      PutKeepsCredit(paid, PlaceFor(db, clubId, courtId, band, priceCents), b);
      GrewByOne(db, d);
      var row := d.bookings[|db.bookings|];
      assert OtherSlotsStay(db, d, {row.slotId});
      assert row == b.(slotId := row.slotId);
    }
  }

  lemma GrewByOne(db: Db, c: Db)
    requires OneMoreBooking(db, c)
    ensures |c.bookings| == |db.bookings| + 1
  {
  }

  lemma SamePlace(db: Db, other: Db, clubId: ClubId, courtId: CourtId, band: Band, priceCents: nat)
    requires other.slots == db.slots
    ensures PlaceFor(other, clubId, courtId, band, priceCents) == PlaceFor(db, clubId, courtId, band, priceCents)
  {
  }

  lemma SameElsewhere(db: Db, other: Db, c: Db)
    requires other.slots == db.slots && other.bookings == db.bookings
    ensures OneMoreBooking(other, c) <==> OneMoreBooking(db, c)
    ensures forall spared :: OtherSlotsStay(other, c, spared) <==> OtherSlotsStay(db, c, spared)
  {
  }

  lemma PutKeepsCredit(db: Db, place: Place, b: Booking)
    requires Put(db, place, b).Ok?
    ensures forall key :: CreditOf(Put(db, place, b).value, key) == CreditOf(db, key)
  {
    hide StartTaken;
  }

  /**
   * The bot's band booking goes through exactly when the band is of the club's court, ahead and free, and
   * the club takes the player. The new booking holds that court and start, what the player is told is what
   * its row says, the credit it names left the player's account, and nothing else changed.
   */
  lemma BotBooksExactly(db: Db, clubId: ClubId, req: BandRequest, who: Who, now: Instant)
    requires Inv(db)
    ensures var c := BookBandPending(db, clubId, req, who, now);
            var band := CheckBand(db, clubId, req, now);
            var playerId := UpsertPlayer(db, clubId, who.phone).1;
            && (c.result.Ok? <==>
                  band.Ok? && PlayerAccepted(db, clubId, playerId, req.priceCents)
                  && BandIsFree(db, clubId, req.courtId, band.value.startsAt))
            && (c.result.Err? ==> c.db.slots == db.slots && c.db.bookings == db.bookings
                                  && (forall key :: CreditOf(c.db, key) == CreditOf(db, key)))
            && (c.result.Ok? ==>
                  && OneMoreBooking(db, c.db) && Lands(c.db, |db.bookings|, clubId, req.courtId, band.value.startsAt)
                  && OtherSlotsStay(db, c.db, {c.db.bookings[|db.bookings|].slotId})
                  && QuoteMatches(db, c.db, c.result.value, playerId, now))
  {
    hide Inv, UniqueStarts, BandIsFree, Lands, OtherSlotsStay, OneMoreBooking, PlaceFor, CreatePending, CreditOf,
         UpsertPlayer, PlayerTerms,
         PlayerAccepted, QuoteMatches;
    var checked := CheckBand(db, clubId, req, now);
    var (db1, playerId) := UpsertPlayer(db, clubId, who.phone);
    StartsAreUnique(db);
    UpsertKeepsRows(db, clubId, who.phone);
    PlayerAfterUpsert(db, clubId, who.phone, req.priceCents);
    CreditAfterUpsert(db, clubId, who.phone);
    var terms := PlayerTerms(db1, ClubOf(db, clubId), playerId, req.priceCents);
    if checked.Ok? && terms.Ok? {
      TermsAreTheirs(db1, ClubOf(db, clubId), playerId, req.priceCents);
      CreateExactly(db1, clubId, who, playerId, terms.value, req.courtId, checked.value, req.priceCents, now);
      SamePlace(db, db1, clubId, req.courtId, checked.value, req.priceCents);
      SameBandFree(db, db1, clubId, req.courtId, checked.value.startsAt);
      var c := BookBandPending(db, clubId, req, who, now);
      if c.result.Ok? {
        SameElsewhere(db, db1, c.db);
        GrewByOne(db, c.db);
        SameQuote(db, db1, c.db, c.result.value, playerId, now);
      }
    }
  }

  lemma CreditAfterUpsert(db: Db, clubId: ClubId, phone: Option<string>)
    requires Inv(db)
    ensures var (db1, playerId) := UpsertPlayer(db, clubId, phone);
            playerId.Some? ==> playerId.value in db1.players && 0 <= db1.players[playerId.value].creditCents
  {
    hide Occupancy, SoundMoney, RefsSingleUse;
  }

  lemma SameQuote(db: Db, other: Db, c: Db, p: Pending, playerId: Option<PlayerKey>, now: Instant)
    requires other.bookings == db.bookings && forall key :: CreditOf(other, key) == CreditOf(db, key)
    ensures QuoteMatches(other, c, p, playerId, now) <==> QuoteMatches(db, c, p, playerId, now)
  {
    hide CreditOf;
  }

  // ── The player's move ───────────────────────────────────────────────────────

  lemma TargetTakesExactly(db: Db, clubId: ClubId, courtId: CourtId, band: Band, priceCents: nat)
    requires UniqueStarts(db.slots)
    ensures WithTarget(db, PlaceFor(db, clubId, courtId, band, priceCents)).Ok? <==>
            BandIsFree(db, clubId, courtId, band.startsAt)
  {
    hide BandIsFree, UniqueStarts, StartTaken, TakeSlot, TakeNewSlot;
    PlaceTakesExactly(db, clubId, courtId, band, priceCents, NewBooking(clubId, Who(None, None), None, 0));
  }

  /** The row a move lands on: the band's own, or a fresh one after all the others. */
  lemma TargetLands(db: Db, clubId: ClubId, courtId: CourtId, band: Band, priceCents: nat)
    requires WithTarget(db, PlaceFor(db, clubId, courtId, band, priceCents)).Ok?
    ensures var (db1, s) := WithTarget(db, PlaceFor(db, clubId, courtId, band, priceCents)).value;
            && s < |db1.slots| && IsSlotAt(db1.slots[s], clubId, courtId, band.startsAt)
               && db1.slots[s].status.Available?
            && |db.slots| <= |db1.slots| && db1.slots[..|db.slots|] == db.slots
            && db1.bookings == db.bookings && db1.courts == db.courts && db1.players == db.players
  {
    hide StartTaken;
  }

  /** After a booking left a slot, nobody holds it. */
  lemma LeftBehind(db: Db, i: BookingId, b: Booking)
    requires Inv(db) && i < |db.bookings| && Live(db.bookings[i]) && b.slotId != db.bookings[i].slotId
    ensures !IsHeld(db.bookings[i := b], db.bookings[i].slotId)
  {
    hide SoundMoney, RefsSingleUse, BookedIsHeld, UniqueStarts, SoundSlots;
  }

  lemma MovedRows(db: Db, i: BookingId, s: SlotId)
    requires i < |db.bookings| && db.bookings[i].slotId < |db.slots| && s < |db.slots| && db.bookings[i].slotId != s
    ensures var b, c := db.bookings[i], PlayerMove(db, i, s);
      && c.slots == db.slots[s := db.slots[s].(status := Booked)][b.slotId := db.slots[b.slotId].(status := Available)]
      && c.bookings == db.bookings[i := b.(slotId := s, rescheduleCount := b.rescheduleCount + 1)]
      && c.courts == db.courts
  {
  }

  /** After the move nobody holds the hour the booking left. */
  lemma MovedLeavesItFree(db: Db, i: BookingId, s: SlotId)
    requires Inv(db) && i < |db.bookings| && Live(db.bookings[i])
    requires s < |db.slots| && db.slots[s].status.Available? && db.slots[s].clubId == db.bookings[i].clubId
    ensures db.bookings[i].slotId < |db.slots| && db.bookings[i].slotId != s
    ensures var c := PlayerMove(db, i, s);
            OneLivePerSlot(c.bookings) && !IsHeld(c.bookings, db.bookings[i].slotId)
  {
    hide Inv, OneLivePerSlot, Keeps, IsHeld, Live, PlayerMove;
    var b := db.bookings[i];
    SlotOfItsClub(db, i);
    HeldIsBooked(db, i);
    LeftBehind(db, i, b.(slotId := s, rescheduleCount := b.rescheduleCount + 1));
    PlayerMoveKeeps(db, i, s);
    MovedRows(db, i, s);
    KeepsMeansInv(db, PlayerMove(db, i, s));
    InvMeansOneLive(PlayerMove(db, i, s));
  }

  /** Moving a booking and repricing what it left: the old hour on sale, the new one booked, the rest as it was. */
  lemma MovedThenRepriced(db: Db, i: BookingId, s: SlotId, clubId: ClubId)
    requires Inv(db) && i < |db.bookings| && Live(db.bookings[i]) && db.bookings[i].clubId == clubId
    requires s < |db.slots| && db.slots[s].status.Available? && db.slots[s].clubId == clubId
    ensures var b := db.bookings[i];
            && b.slotId < |db.slots| && b.slotId != s
            && var c := RepriceSlot(PlayerMove(db, i, s), b.slotId, Some(clubId)).0;
            && c.slots == db.slots[s := db.slots[s].(status := Booked)][b.slotId := OnSale(db, b.slotId)]
            && c.bookings == db.bookings[i := b.(slotId := s, rescheduleCount := b.rescheduleCount + 1)]
  {
    hide Inv, OneLivePerSlot, IsHeld, RepriceSlot, Live, PlayerMove;
    SlotOfItsClub(db, i);
    MovedLeavesItFree(db, i, s);
    MovedRows(db, i, s);
    UnheldIsRequoted(PlayerMove(db, i, s), db.bookings[i].slotId, clubId);
  }

  lemma HeldIsBooked(db: Db, i: BookingId)
    requires Inv(db) && i < |db.bookings| && Live(db.bookings[i])
    ensures db.bookings[i].slotId < |db.slots| && db.slots[db.bookings[i].slotId].status.Booked?
  {
    hide SoundMoney, RefsSingleUse, BookedIsHeld, UniqueStarts, SoundSlots, OneLivePerSlot;
  }

  /** Repricing a slot nobody holds quotes the list price. */
  lemma UnheldIsRequoted(db: Db, s: SlotId, clubId: ClubId)
    requires OneLivePerSlot(db.bookings) && s < |db.slots| && !IsHeld(db.bookings, s) && db.slots[s].clubId == clubId
    ensures var listed := db.slots[s].(priceCents := ListPrice(db, db.slots[s]));
            RepriceSlot(db, s, Some(clubId)).0 == db.(slots := db.slots[s := listed])
  {
    hide OneLivePerSlot, TargetPrice, IsHeld;
    TargetPriceMeaning(db, s);
  }

  lemma InvMeansOneLive(db: Db)
    ensures Inv(db) ==> OneLivePerSlot(db.bookings)
  {
  }

  /**
   * A player's move goes through exactly for a live booking of that phone and a band of the club's court
   * that is ahead and free. The booking then holds that court and start, its old hour is back on sale at the
   * list price, and no other booking and no other hour changed; otherwise nothing changed at all.
   */
  lemma PlayerMovesExactly(db: Db, clubId: ClubId, i: BookingId, phone: string, req: BandRequest, now: Instant)
    requires Inv(db) && GoodBand(req)
    ensures var (c, moved) := RescheduleByPlayer(db, clubId, i, phone, req, now);
            var band := CheckBand(db, clubId, req, now);
            && (moved <==> OwnLive(db, clubId, i, phone) && band.Ok?
                           && BandIsFree(db, clubId, req.courtId, band.value.startsAt))
            && (!moved ==> c == db)
            && (moved ==>
                  && |c.bookings| == |db.bookings| && db.bookings[i].slotId < |db.slots|
                  && Lands(c, i, clubId, req.courtId, band.value.startsAt)
                  && c.bookings == db.bookings[i := c.bookings[i]]
                  && c.slots[db.bookings[i].slotId] == OnSale(db, db.bookings[i].slotId)
                  && OtherSlotsStay(db, c, {db.bookings[i].slotId, c.bookings[i].slotId}))
  {
    hide Inv, UniqueStarts, BandIsFree, PlaceFor, WithTarget, RepriceSlot, OnSale, Lands;
    var checked := CheckBand(db, clubId, req, now);
    if OwnLive(db, clubId, i, phone) && checked.Ok? {
      SlotOfItsClub(db, i);
      StartsAreUnique(db);
      TargetTakesExactly(db, clubId, req.courtId, checked.value, req.priceCents);
      if BandIsFree(db, clubId, req.courtId, checked.value.startsAt) {
        MoveEffect(db, clubId, i, req, checked.value);
      }
    }
  }

  lemma StartsAreUnique(db: Db)
    requires Inv(db)
    ensures UniqueStarts(db.slots)
  {
  }

  lemma MoveEffect(db: Db, clubId: ClubId, i: BookingId, req: BandRequest, band: Band)
    requires Inv(db) && i < |db.bookings| && Live(db.bookings[i]) && db.bookings[i].clubId == clubId
    requires db.bookings[i].slotId < |db.slots| && band.startsAt < band.endsAt
    requires WithTarget(db, PlaceFor(db, clubId, req.courtId, band, req.priceCents)).Ok?
    ensures var (db1, s) := WithTarget(db, PlaceFor(db, clubId, req.courtId, band, req.priceCents)).value;
            s < |db1.slots| && i < |db1.bookings| && db1.bookings[i].slotId < |db1.slots|
            && var c := RepriceSlot(PlayerMove(db1, i, s), db.bookings[i].slotId, Some(clubId)).0;
            && |c.bookings| == |db.bookings| && Lands(c, i, clubId, req.courtId, band.startsAt)
            && c.bookings == db.bookings[i := c.bookings[i]] && |db.slots| <= |c.slots|
            && c.slots[db.bookings[i].slotId] == OnSale(db, db.bookings[i].slotId)
            && OtherSlotsStay(db, c, {db.bookings[i].slotId, c.bookings[i].slotId})
  {
    hide Inv, Keeps, PlaceFor, WithTarget, RepriceSlot, PlayerMove, OnSale, Lands, OtherSlotsStay;
    var place := PlaceFor(db, clubId, req.courtId, band, req.priceCents);
    PlaceIsGood(db, clubId, req, band);
    TargetLands(db, clubId, req.courtId, band, req.priceCents);
    WithTargetKeeps(db, place, clubId);
    var (db1, s) := WithTarget(db, place).value;
    KeepsMeansInv(db, db1);
    MovedThenRepriced(db1, i, s, clubId);
    var c := RepriceSlot(PlayerMove(db1, i, s), db.bookings[i].slotId, Some(clubId)).0;
    MoveSeen(db, db1, c, i, s, clubId, req.courtId, band.startsAt);
  }

  /** The same move seen from before the band had its row. */
  lemma MoveSeen(db: Db, db1: Db, c: Db, i: BookingId, s: SlotId, clubId: ClubId, courtId: CourtId, startsAt: Instant)
    requires i < |db.bookings| && Live(db.bookings[i]) && db.bookings[i].slotId < |db.slots| && db1.courts == db.courts
    requires |db.slots| <= |db1.slots| && db1.slots[..|db.slots|] == db.slots && s < |db1.slots|
             && s != db.bookings[i].slotId
    requires IsSlotAt(db1.slots[s], clubId, courtId, startsAt)
    requires var from := db.bookings[i].slotId;
             c.slots == db1.slots[s := db1.slots[s].(status := Booked)][from := OnSale(db1, from)]
    requires c.bookings == db.bookings[i := db.bookings[i].(slotId := s,
                                                            rescheduleCount := db.bookings[i].rescheduleCount + 1)]
    ensures Lands(c, i, clubId, courtId, startsAt)
    ensures c.slots[db.bookings[i].slotId] == OnSale(db, db.bookings[i].slotId)
    ensures OtherSlotsStay(db, c, {db.bookings[i].slotId, c.bookings[i].slotId})
  {
    hide OnSale;
    var from := db.bookings[i].slotId;
    assert db1.slots[from] == db1.slots[..|db.slots|][from];
    SameListPrice(db, db1, from);
    forall t | 0 <= t < |db.slots|
      ensures db1.slots[t] == db.slots[t]
    {
      assert db1.slots[t] == db1.slots[..|db.slots|][t];
    }
  }

  lemma KeepsMeansInv(db: Db, c: Db)
    requires Keeps(db, c)
    ensures Inv(c)
  {
  }

  lemma PlaceIsGood(db: Db, clubId: ClubId, req: BandRequest, band: Band)
    requires band.startsAt < band.endsAt
    ensures GoodPlace(db, PlaceFor(db, clubId, req.courtId, band, req.priceCents), clubId)
  {
  }
}
