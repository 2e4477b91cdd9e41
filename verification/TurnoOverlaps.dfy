/**
 * When two turnos of one court can overlap in time: the band calls look at the band's exact start and
 * at nothing else (src/bookings/bookings.service.ts, bookBand and bookBandPending).
 */
module TurnoOverlaps {
  import opened Base
  import opened ClubData
  import opened BookingRules
  import opened BookingLaws
  import opened BandCalls

  /** Live bookings of one court never overlap in time. */
  ghost predicate LiveApart(db: Db) {
    forall i, j :: 0 <= i < j < |db.bookings| && Live(db.bookings[i]) && Live(db.bookings[j]) ==>
      !SlotsClash(db.slots, db.bookings[i].slotId, db.bookings[j].slotId)
  }

  predicate SlotsClash(slots: seq<Slot>, s: SlotId, t: SlotId) {
    && s < |slots| && t < |slots| && slots[s].courtId == slots[t].courtId
    && Overlaps(slots[s], slots[t].startsAt, slots[t].endsAt)
  }

  ghost predicate BookedApart(slots: seq<Slot>) {
    forall s, t :: 0 <= s < t < |slots| && slots[s].status.Booked? && slots[t].status.Booked? ==>
      !SlotsClash(slots, s, t)
  }

  lemma BookedHasHolder(db: Db, s: SlotId) returns (i: BookingId)
    requires Inv(db) && s < |db.slots| && db.slots[s].status.Booked?
    ensures i < |db.bookings| && HoldsSlot(db.bookings[i], s)
  {
    hide SoundMoney, RefsSingleUse, LiveHoldsBooked, UniqueStarts, SoundSlots, OneLivePerSlot;
    assert IsHeld(db.bookings, s);
    i :| i < |db.bookings| && HoldsSlot(db.bookings[i], s);
  }

  lemma ClashTurns(slots: seq<Slot>, s: SlotId, t: SlotId)
    requires s < |slots| && t < |slots|
    ensures SlotsClash(slots, s, t) <==> SlotsClash(slots, t, s)
  {
  }

  /** Live bookings stand apart exactly when the BOOKED slots do. */
  lemma ApartOnSlots(db: Db)
    requires Inv(db)
    ensures LiveApart(db) <==> BookedApart(db.slots)
  {
    hide Inv, SlotsClash;
    if LiveApart(db) {
      forall s, t | 0 <= s < t < |db.slots| && db.slots[s].status.Booked? && db.slots[t].status.Booked?
        ensures !SlotsClash(db.slots, s, t)
      {
        var i := BookedHasHolder(db, s);
        var j := BookedHasHolder(db, t);
        ClashTurns(db.slots, s, t);
      }
    }
    if BookedApart(db.slots) {
      forall i, j | 0 <= i < j < |db.bookings| && Live(db.bookings[i]) && Live(db.bookings[j])
        ensures !SlotsClash(db.slots, db.bookings[i].slotId, db.bookings[j].slotId)
      {
        LiveHoldsItsSlot(db, i);
        LiveHoldsItsSlot(db, j);
        HoldersDiffer(db, i, j);
        ClashTurns(db.slots, db.bookings[i].slotId, db.bookings[j].slotId);
      }
    }
  }

  lemma LiveHoldsItsSlot(db: Db, i: BookingId)
    requires Inv(db) && i < |db.bookings| && Live(db.bookings[i])
    ensures db.bookings[i].slotId < |db.slots| && db.slots[db.bookings[i].slotId].status.Booked?
  {
    hide SoundMoney, RefsSingleUse, BookedIsHeld, UniqueStarts, SoundSlots, OneLivePerSlot;
  }

  lemma HoldersDiffer(db: Db, i: BookingId, j: BookingId)
    requires Inv(db) && i < j < |db.bookings| && Live(db.bookings[i]) && Live(db.bookings[j])
    ensures db.bookings[i].slotId != db.bookings[j].slotId
  {
    hide SoundMoney, RefsSingleUse, BookedIsHeld, UniqueStarts, SoundSlots;
  }

  /** When the turno at that start ends: as its row says, or as the band does while there is no row. */
  function EndThere(db: Db, clubId: ClubId, courtId: CourtId, band: Band): Instant {
    var found := SlotAt(db, clubId, courtId, band.startsAt);
    if found.Some? && found.value < |db.slots| then db.slots[found.value].endsAt else band.endsAt
  }

  /** A turno sold on that court runs into the band. */
  predicate RunsIntoBooked(db: Db, clubId: ClubId, courtId: CourtId, band: Band) {
    exists s :: 0 <= s < |db.slots| && db.slots[s].status.Booked? && db.slots[s].courtId == courtId
                && Overlaps(db.slots[s], band.startsAt, EndThere(db, clubId, courtId, band))
  }

  /** `after` has one more slot sold than `slots`: slot l, which was free or was not there. */
  predicate OneMoreSold(slots: seq<Slot>, after: seq<Slot>, l: SlotId) {
    && |slots| <= |after| && l < |after| && (l < |slots| || l == |slots|) && (|after| > |slots| ==> |after| == l + 1)
    && after[l].status.Booked? && (l < |slots| ==> !slots[l].status.Booked?)
    && (forall s :: 0 <= s < |slots| && s != l ==> after[s] == slots[s])
  }

  lemma OneMoreApartExactly(slots: seq<Slot>, after: seq<Slot>, l: SlotId)
    requires BookedApart(slots) && OneMoreSold(slots, after, l)
    ensures BookedApart(after) <==>
            forall s :: 0 <= s < |slots| && slots[s].status.Booked? && slots[s].courtId == after[l].courtId ==>
              !Overlaps(slots[s], after[l].startsAt, after[l].endsAt)
  {
    forall s | 0 <= s < |slots| && slots[s].status.Booked? && s != l
      ensures SlotsClash(after, s, l) <==> slots[s].courtId == after[l].courtId
                                           && Overlaps(slots[s], after[l].startsAt, after[l].endsAt)
      ensures SlotsClash(after, l, s) <==> SlotsClash(after, s, l)
    {
    }
    forall s, t | 0 <= s < t < |after| && after[s].status.Booked? && after[t].status.Booked? && s != l && t != l
      ensures !SlotsClash(after, s, t)
    {
      assert !SlotsClash(slots, s, t);
    }
    hide Overlaps;
  }

  lemma PutSells(db: Db, clubId: ClubId, courtId: CourtId, band: Band, priceCents: nat, b: Booking) returns (l: SlotId)
    requires Put(db, PlaceFor(db, clubId, courtId, band, priceCents), b).Ok?
    ensures var c := Put(db, PlaceFor(db, clubId, courtId, band, priceCents), b).value;
      && OneMoreSold(db.slots, c.slots, l) && c.slots[l].courtId == courtId
      && c.slots[l].startsAt == band.startsAt && c.slots[l].endsAt == EndThere(db, clubId, courtId, band)
  {
    hide StartTaken;
    var found := SlotAt(db, clubId, courtId, band.startsAt);
    l := if found.Some? then found.value else |db.slots|;
  }

  lemma PutKeepsApartExactly(db: Db, clubId: ClubId, courtId: CourtId, band: Band, priceCents: nat, b: Booking)
    requires BookedApart(db.slots) && Put(db, PlaceFor(db, clubId, courtId, band, priceCents), b).Ok?
    ensures BookedApart(Put(db, PlaceFor(db, clubId, courtId, band, priceCents), b).value.slots) <==>
            !RunsIntoBooked(db, clubId, courtId, band)
  {
    hide Put, PlaceFor, BookedApart, OneMoreSold, EndThere, Overlaps;
    var l := PutSells(db, clubId, courtId, band, priceCents, b);
    OneMoreApartExactly(db.slots, Put(db, PlaceFor(db, clubId, courtId, band, priceCents), b).value.slots, l);
  }

  /** The rows a band booking leaves are those of placing some booking there. */
  lemma DeskRows(db: Db, clubId: ClubId, req: BandRequest, who: Who, now: Instant) returns (b: Booking)
    requires BookBand(db, clubId, req, who, now).result.Ok?
    ensures req.band.Some?
    ensures var put := Put(db, PlaceFor(db, clubId, req.courtId, req.band.value, req.priceCents), b);
            put.Ok? && put.value.slots == BookBand(db, clubId, req, who, now).db.slots
  {
    hide StartTaken, SlotAt;
    var (db1, playerId) := UpsertPlayer(db, clubId, who.phone);
    UpsertKeepsRows(db, clubId, who.phone);
    SamePlace(db, db1, clubId, req.courtId, req.band.value, req.priceCents);
    b := NewBooking(clubId, who, playerId, now).(playerDni := None);
  }

  lemma SamePlace(db: Db, other: Db, clubId: ClubId, courtId: CourtId, band: Band, priceCents: nat)
    requires other.slots == db.slots
    ensures PlaceFor(other, clubId, courtId, band, priceCents) == PlaceFor(db, clubId, courtId, band, priceCents)
  {
  }

  lemma BotRows(db: Db, clubId: ClubId, req: BandRequest, who: Who, now: Instant) returns (b: Booking)
    requires BookBandPending(db, clubId, req, who, now).result.Ok?
    ensures req.band.Some?
    ensures var put := Put(db, PlaceFor(db, clubId, req.courtId, req.band.value, req.priceCents), b);
            put.Ok? && put.value.slots == BookBandPending(db, clubId, req, who, now).db.slots
  {
    hide StartTaken, SlotAt, PlaceFor, DepositFor, KnownPayer, AllocateAmount, AsksRoundAmount;
    var (db1, playerId) := UpsertPlayer(db, clubId, who.phone);
    UpsertKeepsRows(db, clubId, who.phone);
    var terms := PlayerTerms(db1, ClubOf(db, clubId), playerId, req.priceCents).value;
    var known := if terms.depositCents > 0 then KnownPayer(db1.bookings, clubId, who.phone) else None;
    var charge := ChargeFor(db1, ClubOf(db1, clubId), terms, playerId.Some?, known);
    b := PendingRow(clubId, who, playerId, terms, charge, known, now);
  }

  /**
   * A band booking that goes through leaves the live turnos of a court apart exactly when no turno sold
   * on that court runs into the band. The call does not look at that.
   */
  lemma DeskKeepsApartExactly(db: Db, clubId: ClubId, req: BandRequest, who: Who, now: Instant)
    requires Inv(db) && GoodBand(req) && LiveApart(db) && BookBand(db, clubId, req, who, now).result.Ok?
    ensures req.band.Some?
    ensures LiveApart(BookBand(db, clubId, req, who, now).db) <==>
            !RunsIntoBooked(db, clubId, req.courtId, req.band.value)
  {
    hide Inv, LiveApart, BookedApart, RunsIntoBooked, Put, PlaceFor, BookBand, Evolves, Balance;
    var b := DeskRows(db, clubId, req, who, now);
    BookBandKeeps(db, clubId, req, who, now);
    ApartOnSlots(db);
    ApartOnSlots(BookBand(db, clubId, req, who, now).db);
    PutKeepsApartExactly(db, clubId, req.courtId, req.band.value, req.priceCents, b);
  }

  lemma BotKeepsApartExactly(db: Db, clubId: ClubId, req: BandRequest, who: Who, now: Instant)
    requires Inv(db) && GoodBand(req) && LiveApart(db) && BookBandPending(db, clubId, req, who, now).result.Ok?
    ensures req.band.Some?
    ensures LiveApart(BookBandPending(db, clubId, req, who, now).db) <==>
            !RunsIntoBooked(db, clubId, req.courtId, req.band.value)
  {
    hide Inv, LiveApart, BookedApart, RunsIntoBooked, Put, PlaceFor, BookBandPending, Evolves, Balance;
    var b := BotRows(db, clubId, req, who, now);
    BookBandPendingKeeps(db, clubId, req, who, now);
    ApartOnSlots(db);
    ApartOnSlots(BookBandPending(db, clubId, req, who, now).db);
    PutKeepsApartExactly(db, clubId, req.courtId, req.band.value, req.priceCents, b);
  }

  // ── An opening time moved by half an hour ───────────────────────────────────

  const EIGHT_TO_HALF_PAST_NINE := Slot("club", "court 1", 480, 570, 500, Booked, None)
  const HELD := Booking(0, "club", None, None, None, None, None, None, None, Some(1), Confirmed, 0, 0, None,
                        None, None, None, false, 0, 0, 0, 0, false, 10)
  const HALF_PAST_EIGHT := BandRequest("court 1", Some(Band(510, 600)), 500)

  /** One court, opened at eight when its first turno was sold and at half past eight now. */
  function OneSold(): Db {
    Db([EIGHT_TO_HALF_PAST_NINE], [HELD], map[], map[], map["court 1" := Court("club", 500, _ => 500)], map[])
  }

  lemma OneSoldIsSound()
    ensures Inv(OneSold()) && LiveApart(OneSold())
  {
    assert HoldsSlot(OneSold().bookings[0], 0);
  }

  /** The desk books half past eight over the turno held from eight, and both are live. */
  lemma HalfPastEightOverEight()
    ensures Inv(OneSold()) && LiveApart(OneSold())
    ensures var c := BookBand(OneSold(), "club", HALF_PAST_EIGHT, Who(None, None), 0);
            c.result.Ok? && !LiveApart(c.db)
  {
    var db := OneSold();
    OneSoldIsSound();
    var band := Band(510, 600);
    assert BandIsFree(db, "club", "court 1", 510);
    BookBandExactly(db, "club", HALF_PAST_EIGHT, Who(None, None), 0);
    hide BookBand, Inv, LiveApart, SlotAt;
    NoRowYet(db);
    assert RunsIntoBooked(db, "club", "court 1", band) by {
      assert db.slots[0].status.Booked? && Overlaps(db.slots[0], 510, 600);
    }
    DeskKeepsApartExactly(db, "club", HALF_PAST_EIGHT, Who(None, None), 0);
  }

  lemma NoRowYet(db: Db)
    requires db.slots == [EIGHT_TO_HALF_PAST_NINE]
    ensures SlotAt(db, "club", "court 1", 510).None?
  {
  }
}
