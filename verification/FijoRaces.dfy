/**
 * Applying a fijo while other calls run: what it read is acted on later, and the free slots it found are
 * flipped without looking at them again (src/recurring-bookings/recurring-bookings.service.ts).
 */
module FijoRaces {
  import opened Base
  import opened ClubData
  import opened RowMoves
  import opened BookingRules
  import opened BookingLaws
  import opened CourtBlocks
  import opened RecurringRules
  import opened RecurringService
  import opened ClubRuns

  /** The writes of an apply that read `read`, done on the tables as they are by then. */
  function LateApply(read: Db, c: Db, clubId: ClubId, fijo: Fijo, occs: seq<Band>, now: Instant): Outcome<nat> {
    var rows, ids := ToCreate(read, clubId, fijo, occs), ToBook(read, clubId, fijo, occs);
    if AnyStartTaken(c.slots, rows) then Outcome(c, Err(Conflict))
    else
      var b := FijoBooking(clubId, fijo, now);
      var created := IdsFrom(|c.slots|, |rows|);
      Outcome(c.(slots := Flipped(c.slots + rows, ids), bookings := c.bookings + BookingsOn(created + ids, b)),
              Ok(|created| + |ids|))
  }

  /** With nothing in between it is the rule. */
  lemma InTimeIsApply(db: Db, clubId: ClubId, fijo: Fijo, occs: seq<Band>, now: Instant)
    ensures LateApply(db, db, clubId, fijo, occs, now) == Apply(db, clubId, fijo, occs, now)
  {
    hide ToCreate, ToBook, AnyStartTaken, TakeAll, TakeAllNew, FijoBooking, Flipped;
    var rows, ids := ToCreate(db, clubId, fijo, occs), ToBook(db, clubId, fijo, occs);
    var b := FijoBooking(clubId, fijo, now);
    var created := IdsFrom(|db.slots|, |rows|);
    ToCreateBooked(db, clubId, fijo, occs);
    ToBookInside(db, clubId, fijo, occs);
    NewInBulk(db, rows, b);
    TakenInBulk(TakeAllNew(db, rows, b), ids, b);
    assert BookingsOn(created + ids, b) == BookingsOn(created, b) + BookingsOn(ids, b);
    assert db.bookings + (BookingsOn(created, b) + BookingsOn(ids, b)) == db.bookings + BookingsOn(created, b) +
           BookingsOn(ids, b);
  }

  // ── When a slot gets two live bookings ──────────────────────────────────────

  /**
   * Bookings added on slots that differ: at most one is live on each slot exactly when none of those slots
   * was held.
   */
  lemma AddedStayAloneExactly(bookings: seq<Booking>, ids: seq<SlotId>, b: Booking)
    requires OneLivePerSlot(bookings) && NoRepeats(ids) && Live(b)
    ensures OneLivePerSlot(bookings + BookingsOn(ids, b)) <==> forall k :: 0 <= k < |ids| ==> !IsHeld(bookings, ids[k])
  {
    var all, n := bookings + BookingsOn(ids, b), |bookings|;
    assert forall k :: 0 <= k < |ids| ==> all[n + k] == b.(slotId := ids[k]);
    if k: nat :| k < |ids| && IsHeld(bookings, ids[k]) {
      var i :| 0 <= i < n && HoldsSlot(bookings[i], ids[k]);
      assert all[i] == bookings[i] && all[n + k].slotId == all[i].slotId;
      assert !OneLivePerSlot(all);
    } else {
      forall i, j | 0 <= i < j < |all| && Live(all[i]) && Live(all[j])
        ensures all[i].slotId != all[j].slotId
      {
        if i < n <= j {
          assert !IsHeld(bookings, ids[j - n]);
          assert HoldsSlot(bookings[i], bookings[i].slotId);
        }
      }
    }
  }

  /** Slots the apply creates are new, and those it flips are old: no id is in both, or twice in one. */
  lemma IdsDiffer(read: Db, c: Db, clubId: ClubId, fijo: Fijo, occs: seq<Band>)
    requires Increasing(occs) && |read.slots| <= |c.slots|
    ensures NoRepeats(IdsFrom(|c.slots|, |ToCreate(read, clubId, fijo, occs)|) + ToBook(read, clubId, fijo, occs))
  {
    hide ToCreate, ToBook;
    ToBookMeaning(read, clubId, fijo, occs);
    ToBookInside(read, clubId, fijo, occs);
  }

  lemma HeldIsBookedExactly(c: Db, s: SlotId)
    requires Inv(c) && s < |c.slots|
    ensures IsHeld(c.bookings, s) <==> c.slots[s].status.Booked?
  {
    hide RefsSingleUse, UniqueStarts, SoundSlots, SoundMoney, OneLivePerSlot;
  }

  lemma NewIsNotHeld(c: Db, s: SlotId)
    requires Inv(c) && s >= |c.slots|
    ensures !IsHeld(c.bookings, s)
  {
    hide RefsSingleUse, UniqueStarts, SoundSlots, SoundMoney, OneLivePerSlot, BookedIsHeld;
  }

  ghost predicate NoneSoldSince(read: Db, c: Db, clubId: ClubId, fijo: Fijo, occs: seq<Band>) {
    forall k :: 0 <= k < |ToBook(read, clubId, fijo, occs)| && ToBook(read, clubId, fijo, occs)[k] < |c.slots| ==>
      !c.slots[ToBook(read, clubId, fijo, occs)[k]].status.Booked?
  }

  lemma LateOnSoundTables(read: Db, c: Db, clubId: ClubId, fijo: Fijo, occs: seq<Band>, now: Instant)
    requires Inv(c) && Increasing(occs) && |read.slots| <= |c.slots|
    requires LateApply(read, c, clubId, fijo, occs, now).result.Ok?
    ensures OneLivePerSlot(LateApply(read, c, clubId, fijo, occs, now).db.bookings) <==>
            NoneSoldSince(read, c, clubId, fijo, occs)
  {
    hide Inv, ToCreate, ToBook, AnyStartTaken, Flipped, OneLivePerSlot, IsHeld;
    var rows, ids := ToCreate(read, clubId, fijo, occs), ToBook(read, clubId, fijo, occs);
    var b := FijoBooking(clubId, fijo, now);
    var created := IdsFrom(|c.slots|, |rows|);
    var all := created + ids;
    IdsDiffer(read, c, clubId, fijo, occs);
    OneLiveInSound(c);
    ToBookInside(read, clubId, fijo, occs);
    AddedStayAloneExactly(c.bookings, all, b);
    forall k | 0 <= k < |all|
      ensures IsHeld(c.bookings, all[k]) <==> k >= |rows| && c.slots[all[k]].status.Booked?
    {
      if k < |rows| {
        NewIsNotHeld(c, all[k]);
      } else {
        assert all[k] == ids[k - |rows|];
        HeldIsBookedExactly(c, all[k]);
      }
    }
    assert forall k :: 0 <= k < |ids| ==> all[|rows| + k] == ids[k];
  }

  lemma OneLiveInSound(c: Db)
    requires Inv(c)
    ensures OneLivePerSlot(c.bookings)
  {
  }

  /**
   * Whatever calls run between the apply's read and its writes: no slot has two live bookings afterwards
   * exactly when none of the slots it read as free was sold meanwhile.
   */
  lemma LateApplyExactly(db: Db, calls: seq<Call>, clubId: ClubId, fijo: Fijo, occs: seq<Band>, now: Instant)
    requires Inv(db) && GoodCalls(calls) && Increasing(occs)
    ensures var c := Run(db, calls);
      var late := LateApply(db, c, clubId, fijo, occs, now);
      && (late.result.Err? ==> late.db == c)
      && (late.result.Ok? ==> (OneLivePerSlot(late.db.bookings) <==> NoneSoldSince(db, c, clubId, fijo, occs)))
  {
    hide Inv, GoodCalls, ToCreate, ToBook, AnyStartTaken, Flipped, OneLivePerSlot, Balance, NoneSoldSince, FijoBooking,
         BookingsOn;
    RunLaw(db, calls);
    var c := Run(db, calls);
    hide Run;
    if LateApply(db, c, clubId, fijo, occs, now).result.Ok? {
      LateOnSoundTables(db, c, clubId, fijo, occs, now);
    }
  }

  lemma SameStartsTaken(slots: seq<Slot>, same: seq<Slot>, rows: seq<Slot>)
    requires |same| == |slots| && forall t :: 0 <= t < |slots| ==> SameBand(slots[t], same[t])
    ensures AnyStartTaken(same, rows) <==> AnyStartTaken(slots, rows)
  {
    forall r | 0 <= r < |rows|
      ensures StartTaken(same, rows[r]) <==> StartTaken(slots, rows[r])
    {
      if StartTaken(slots, rows[r]) {
        var t :| 0 <= t < |slots| && SameStart(slots[t], rows[r]);
        assert SameStart(same[t], rows[r]);
      }
      if StartTaken(same, rows[r]) {
        var t :| 0 <= t < |same| && SameStart(same[t], rows[r]);
        assert SameStart(slots[t], rows[r]);
      }
    }
  }

  /**
   * Any slot the apply read as free: when the desk sells it before the flip, the apply goes through as it
   * would have, and the slot ends with two live bookings.
   */
  lemma SoldMeanwhileIsSoldTwice(db: Db, clubId: ClubId, fijo: Fijo, occs: seq<Band>, k: nat, who: Who,
                                 userId: Option<int>, now: Instant)
    requires Inv(db) && Increasing(occs) && k < |occs| && FindsFree(db, clubId, fijo, occs[k])
    ensures var s := SlotAt(db, clubId, fijo.courtId, occs[k].startsAt).value;
      var c := Step(db, DeskBooking(clubId, s, who, userId, now));
      var late := LateApply(db, c, clubId, fijo, occs, now);
      && Book(db, clubId, s, who, userId, now).result.Ok?
      && (late.result.Ok? <==> Apply(db, clubId, fijo, occs, now).result.Ok?)
      && (late.result.Ok? ==> !OneLivePerSlot(late.db.bookings))
  {
    hide Inv, ToCreate, ToBook, AnyStartTaken, Flipped, OneLivePerSlot, Balance, FijoBooking, BookingsOn, Skipped,
         UpsertPlayer,
         DepositFor, Evolves;
    var s := SlotAt(db, clubId, fijo.courtId, occs[k].startsAt).value;
    var c := Book(db, clubId, s, who, userId, now).db;
    DeskSells(db, clubId, s, who, userId, now);
    SameStartsTaken(db.slots, c.slots, ToCreate(db, clubId, fijo, occs));
    BookKeeps(db, clubId, s, who, userId, now);
    ToBookCovers(db, clubId, fijo, occs, k);
    var ids := ToBook(db, clubId, fijo, occs);
    var r: nat :| r < |ids| && ids[r] == s;
    assert !NoneSoldSince(db, c, clubId, fijo, occs);
    if LateApply(db, c, clubId, fijo, occs, now).result.Ok? {
      LateOnSoundTables(db, c, clubId, fijo, occs, now);
    }
  }

  lemma DeskSells(db: Db, clubId: ClubId, s: SlotId, who: Who, userId: Option<int>, now: Instant)
    requires s < |db.slots| && db.slots[s].clubId == clubId && db.slots[s].status.Available?
    ensures var booked := Book(db, clubId, s, who, userId, now);
      && booked.result.Ok? && |booked.db.slots| == |db.slots| && booked.db.slots[s].status.Booked?
      && (forall t :: 0 <= t < |db.slots| ==> SameBand(db.slots[t], booked.db.slots[t]))
  {
    hide DepositFor;
  }
}
