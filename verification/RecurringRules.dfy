/**
 * The weekly booking of a fijo (src/recurring-bookings/recurring-bookings.service.ts): which
 * dates it falls on, and what applying it does to the slot and booking tables. Club-local dates
 * are day numbers, which compare and shift like the service's ISO date keys.
 */
module RecurringRules {
  import opened Base
  import opened ClubData
  import opened RowMoves
  import opened BookingRules
  import opened BookingLaws
  import opened CourtBlocks
  import opened Schedule

  const WEEKS_AHEAD: nat := 8
  const MAX_WEEKS_AHEAD: nat := 104

  // ── Dates ───────────────────────────────────────────────────────────────────

  function FirstOccurrence(today: Day, dayOfWeek: int): Day {
    today + (dayOfWeek - Weekday(today) + 7) % 7
  }

  function Cap(until: Option<Day>): nat {
    if until.Some? then MAX_WEEKS_AHEAD else WEEKS_AHEAD
  }

  function WeeklyFrom(day: Day, left: nat, until: Option<Day>): seq<Day>
    decreases left
  {
    if left == 0 || (until.Some? && day > until.value) then []
    else [day] + WeeklyFrom(day + 7, left - 1, until)
  }

  function OccurrenceDays(today: Day, dayOfWeek: int, until: Option<Day>): seq<Day> {
    WeeklyFrom(FirstOccurrence(today, dayOfWeek), Cap(until), until)
  }

  lemma {:induction false} WeeklyFromMeaning(day: Day, left: nat, until: Option<Day>)
    ensures var days := WeeklyFrom(day, left, until);
      && |days| <= left
      && (forall k :: 0 <= k < |days| ==> days[k] == day + 7 * k && (until.Some? ==> days[k] <= until.value))
      && (|days| < left ==> until.Some? && day + 7 * |days| > until.value)
    decreases left
  {
    if left != 0 && !(until.Some? && day > until.value) {
      WeeklyFromMeaning(day + 7, left - 1, until);
      var rest := WeeklyFrom(day + 7, left - 1, until);
      assert forall k :: 1 <= k < |rest| + 1 ==> ([day] + rest)[k] == rest[k - 1];
    }
  }

  /**
   * A date is an occurrence exactly when it is a day of that weekday from today on, not past the
   * end date, and among the first `Cap` of them.
   */
  lemma OccurrenceDaysExact(today: Day, dayOfWeek: int, until: Option<Day>, d: Day)
    requires 0 <= dayOfWeek < 7
    ensures d in OccurrenceDays(today, dayOfWeek, until) <==>
            && Weekday(d) == dayOfWeek
            && today <= d < today + 7 * Cap(until)
            && (until.Some? ==> d <= until.value)
  {
    var days := OccurrenceDays(today, dayOfWeek, until);
    var first := FirstOccurrence(today, dayOfWeek);
    WeeklyFromMeaning(first, Cap(until), until);
    FirstOccurrenceMeaning(today, dayOfWeek);
    if d in days {
      var k :| 0 <= k < |days| && days[k] == d;
      SameWeekday(first, d, k);
    }
    if Weekday(d) == dayOfWeek && today <= d {
      var k := WeeksBetween(today, first, d);
      assert k < |days| ==> days[k] == d;
    }
  }

  lemma FirstOccurrenceMeaning(today: Day, dayOfWeek: int)
    requires 0 <= dayOfWeek < 7
    ensures today <= FirstOccurrence(today, dayOfWeek) < today + 7
    ensures Weekday(FirstOccurrence(today, dayOfWeek)) == dayOfWeek
  {
  }

  lemma SameWeekday(first: Day, d: Day, k: int)
    requires d == first + 7 * k
    ensures Weekday(d) == Weekday(first)
  {
  }

  lemma WeeksBetween(today: Day, first: Day, d: Day) returns (k: int)
    requires today <= first < today + 7 && today <= d && Weekday(first) == Weekday(d)
    ensures 0 <= k && d == first + 7 * k
  {
    k := (d - first) / 7;
    assert (d - first) % 7 == 0;
  }

  // ── Applying the fijo ───────────────────────────────────────────────────────

  datatype Fijo = Fijo(id: FijoId, courtId: CourtId, playerPhone: string, priceCents: nat)

  /** A cancelled booking of this fijo sits at that start: the date was deliberately skipped. */
  predicate SkipsStart(db: Db, b: Booking, clubId: ClubId, fijo: FijoId, startsAt: Instant) {
    && b.clubId == clubId
    && b.fijoId == Some(fijo)
    && b.status.Cancelled?
    && b.slotId < |db.slots|
    && db.slots[b.slotId].startsAt == startsAt
  }

  predicate Skipped(db: Db, clubId: ClubId, fijo: FijoId, startsAt: Instant) {
    exists i :: 0 <= i < |db.bookings| && SkipsStart(db, db.bookings[i], clubId, fijo, startsAt)
  }

  function OccurrenceSlot(clubId: ClubId, fijo: Fijo, occ: Band): Slot {
    Slot(clubId, fijo.courtId, occ.startsAt, occ.endsAt, fijo.priceCents, Booked, None)
  }

  predicate NeedsSlot(db: Db, clubId: ClubId, fijo: Fijo, occ: Band) {
    !Skipped(db, clubId, fijo.id, occ.startsAt) && SlotAt(db, clubId, fijo.courtId, occ.startsAt).None?
  }

  predicate FindsFree(db: Db, clubId: ClubId, fijo: Fijo, occ: Band) {
    var found := SlotAt(db, clubId, fijo.courtId, occ.startsAt);
    !Skipped(db, clubId, fijo.id, occ.startsAt) && found.Some? && db.slots[found.value].status.Available?
  }

  function ToCreate(db: Db, clubId: ClubId, fijo: Fijo, occs: seq<Band>): seq<Slot> {
    if occs == [] then []
    else
      var occ := occs[|occs| - 1];
      ToCreate(db, clubId, fijo, occs[..|occs| - 1])
      + (if NeedsSlot(db, clubId, fijo, occ) then [OccurrenceSlot(clubId, fijo, occ)] else [])
  }

  function ToBook(db: Db, clubId: ClubId, fijo: Fijo, occs: seq<Band>): seq<SlotId> {
    if occs == [] then []
    else
      var occ := occs[|occs| - 1];
      ToBook(db, clubId, fijo, occs[..|occs| - 1])
      + (if FindsFree(db, clubId, fijo, occ) then [SlotAt(db, clubId, fijo.courtId, occ.startsAt).value] else [])
  }

  /** Fijos are confirmed on creation: nothing is charged up front and nothing expires. */
  function FijoBooking(clubId: ClubId, fijo: Fijo, now: Instant): Booking {
    NewBooking(clubId, Who(Some(fijo.playerPhone), None), None, now).(fijoId := Some(fijo.id), status := Confirmed)
  }

  function TakeAllNew(db: Db, rows: seq<Slot>, b: Booking): Db {
    if rows == [] then db else TakeNewSlot(TakeAllNew(db, rows[..|rows| - 1], b), rows[|rows| - 1], b)
  }

  function TakeAll(db: Db, ids: seq<SlotId>, b: Booking): Db {
    if ids == [] then db
    else
      var before := TakeAll(db, ids[..|ids| - 1], b);
      if ids[|ids| - 1] < |before.slots| then TakeSlot(before, ids[|ids| - 1], b) else before
  }

  function Apply(db: Db, clubId: ClubId, fijo: Fijo, occs: seq<Band>, now: Instant): Outcome<nat> {
    var rows, ids := ToCreate(db, clubId, fijo, occs), ToBook(db, clubId, fijo, occs);
    if AnyStartTaken(db.slots, rows) then Outcome(db, Err(Conflict))
    else
      var b := FijoBooking(clubId, fijo, now);
      Outcome(TakeAll(TakeAllNew(db, rows, b), ids, b), Ok(|rows| + |ids|))
  }

  // ── Laws ────────────────────────────────────────────────────────────────────

  ghost predicate Increasing(occs: seq<Band>) {
    && (forall j, k :: 0 <= j < k < |occs| ==> occs[j].startsAt < occs[k].startsAt)
    && (forall k :: 0 <= k < |occs| ==> occs[k].startsAt < occs[k].endsAt)
  }

  ghost predicate IsOccurrenceRow(row: Slot, db: Db, clubId: ClubId, fijo: Fijo, occs: seq<Band>) {
    exists k :: 0 <= k < |occs| && NeedsSlot(db, clubId, fijo, occs[k]) && row == OccurrenceSlot(clubId, fijo, occs[k])
  }

  ghost predicate IsFreeOccurrence(s: SlotId, db: Db, clubId: ClubId, fijo: Fijo, occs: seq<Band>) {
    exists k :: 0 <= k < |occs| && FindsFree(db, clubId, fijo, occs[k])
                && SlotAt(db, clubId, fijo.courtId, occs[k].startsAt) == Some(s)
  }

  /** The same new row, seen from a longer list of dates. */
  lemma RowInLonger(row: Slot, db: Db, clubId: ClubId, fijo: Fijo, occs: seq<Band>)
    requires Increasing(occs) && occs != [] && IsOccurrenceRow(row, db, clubId, fijo, occs[..|occs| - 1])
    ensures IsOccurrenceRow(row, db, clubId, fijo, occs) && row.startsAt < occs[|occs| - 1].startsAt
  {
    var n := |occs| - 1;
    var k :| 0 <= k < n && NeedsSlot(db, clubId, fijo, occs[..n][k])
             && row == OccurrenceSlot(clubId, fijo, occs[..n][k]);
    assert NeedsSlot(db, clubId, fijo, occs[k]);
  }

  lemma {:induction false} ToCreateMeaning(db: Db, clubId: ClubId, fijo: Fijo, occs: seq<Band>)
    requires Increasing(occs)
    ensures var rows := ToCreate(db, clubId, fijo, occs);
      && DistinctStarts(rows)
      && (forall r :: 0 <= r < |rows| ==> IsOccurrenceRow(rows[r], db, clubId, fijo, occs))
  {
    if occs != [] {
      var n := |occs| - 1;
      ToCreateMeaning(db, clubId, fijo, occs[..n]);
      var before := ToCreate(db, clubId, fijo, occs[..n]);
      forall r | 0 <= r < |before|
        ensures before[r].startsAt < occs[n].startsAt && IsOccurrenceRow(before[r], db, clubId, fijo, occs)
      {
        RowInLonger(before[r], db, clubId, fijo, occs);
      }
      assert NeedsSlot(db, clubId, fijo, occs[n]) ==>
               IsOccurrenceRow(OccurrenceSlot(clubId, fijo, occs[n]), db, clubId, fijo, occs);
      hide NeedsSlot, IsOccurrenceRow;
    }
  }

  lemma {:induction false} ToCreateCovers(db: Db, clubId: ClubId, fijo: Fijo, occs: seq<Band>, k: nat)
    requires k < |occs| && NeedsSlot(db, clubId, fijo, occs[k])
    ensures OccurrenceSlot(clubId, fijo, occs[k]) in ToCreate(db, clubId, fijo, occs)
  {
    if k < |occs| - 1 {
      ToCreateCovers(db, clubId, fijo, occs[..|occs| - 1], k);
    }
  }

  lemma DifferentDates(db: Db, clubId: ClubId, courtId: CourtId, a: Instant, b: Instant)
    requires a != b && SlotAt(db, clubId, courtId, a).Some?
    ensures SlotAt(db, clubId, courtId, b) != SlotAt(db, clubId, courtId, a)
  {
  }

  /** The same free slots, seen from a longer list of dates. */
  lemma FreeInLonger(s: SlotId, db: Db, clubId: ClubId, fijo: Fijo, occs: seq<Band>)
    requires Increasing(occs) && occs != [] && IsFreeOccurrence(s, db, clubId, fijo, occs[..|occs| - 1])
    ensures IsFreeOccurrence(s, db, clubId, fijo, occs)
    ensures SlotAt(db, clubId, fijo.courtId, occs[|occs| - 1].startsAt) != Some(s)
  {
    var n := |occs| - 1;
    var k :| 0 <= k < n && FindsFree(db, clubId, fijo, occs[..n][k])
             && SlotAt(db, clubId, fijo.courtId, occs[..n][k].startsAt) == Some(s);
    assert FindsFree(db, clubId, fijo, occs[k]);
    DifferentDates(db, clubId, fijo.courtId, occs[k].startsAt, occs[n].startsAt);
  }

  ghost predicate FreeOccurrences(ids: seq<SlotId>, db: Db, clubId: ClubId, fijo: Fijo, occs: seq<Band>) {
    forall r :: 0 <= r < |ids| ==> IsFreeOccurrence(ids[r], db, clubId, fijo, occs)
  }

  lemma {:induction false} ToBookMeaning(db: Db, clubId: ClubId, fijo: Fijo, occs: seq<Band>)
    requires Increasing(occs)
    ensures FreeOccurrences(ToBook(db, clubId, fijo, occs), db, clubId, fijo, occs)
    ensures NoRepeats(ToBook(db, clubId, fijo, occs))
  {
    if occs != [] {
      var n := |occs| - 1;
      var front, before := occs[..n], ToBook(db, clubId, fijo, occs[..n]);
      ToBookMeaning(db, clubId, fijo, front);
      forall r | 0 <= r < |before|
        ensures SlotAt(db, clubId, fijo.courtId, occs[n].startsAt) != Some(before[r])
        ensures IsFreeOccurrence(before[r], db, clubId, fijo, occs)
      {
        assert IsFreeOccurrence(before[r], db, clubId, fijo, front);
        FreeInLonger(before[r], db, clubId, fijo, occs);
      }
      assert FindsFree(db, clubId, fijo, occs[n]) ==>
               IsFreeOccurrence(SlotAt(db, clubId, fijo.courtId, occs[n].startsAt).value, db, clubId, fijo, occs);
    }
  }

  lemma {:induction false} ToBookCovers(db: Db, clubId: ClubId, fijo: Fijo, occs: seq<Band>, k: nat)
    requires k < |occs| && FindsFree(db, clubId, fijo, occs[k])
    ensures SlotAt(db, clubId, fijo.courtId, occs[k].startsAt).value in ToBook(db, clubId, fijo, occs)
  {
    if k < |occs| - 1 {
      ToBookCovers(db, clubId, fijo, occs[..|occs| - 1], k);
    }
  }

  lemma FijoClaim(db: Db, clubId: ClubId, fijo: Fijo, now: Instant)
    ensures NewClaim(db, FijoBooking(clubId, fijo, now)) && FijoBooking(clubId, fijo, now).creditAppliedCents == 0
  {
  }

  predicate BookedRow(row: Slot, clubId: ClubId) {
    row.startsAt < row.endsAt && row.status.Booked? && row.eventId.None? && row.clubId == clubId
  }

  ghost predicate FreshRows(db: Db, rows: seq<Slot>, clubId: ClubId) {
    && DistinctStarts(rows)
    && !AnyStartTaken(db.slots, rows)
    && (forall r :: 0 <= r < |rows| ==> BookedRow(rows[r], clubId))
  }

  /** `c` has the same bookings plus some of this fijo's. */
  ghost predicate AddsFijoBookings(db: Db, c: Db, b: Booking) {
    && |db.bookings| <= |c.bookings|
    && c.bookings[..|db.bookings|] == db.bookings
    && (forall i :: |db.bookings| <= i < |c.bookings| ==> c.bookings[i] == b.(slotId := c.bookings[i].slotId))
  }

  lemma OneNewSlot(db: Db, mid: Db, row: Slot, clubId: ClubId, fijo: Fijo, now: Instant)
    requires Keeps(db, mid) && AddsFijoBookings(db, mid, FijoBooking(clubId, fijo, now))
    requires !StartTaken(mid.slots, row) && BookedRow(row, clubId)
    ensures var b := FijoBooking(clubId, fijo, now);
      var c := TakeNewSlot(mid, row, b);
      && Keeps(db, c)
      && AddsFijoBookings(db, c, b)
      && c.slots == mid.slots + [row]
      && |c.bookings| == |mid.bookings| + 1
  {
    var b := FijoBooking(clubId, fijo, now);
    FijoClaim(mid, clubId, fijo, now);
    TakeNewSlotKeeps(mid, row, b);
    var c := TakeNewSlot(mid, row, b);
    KeepsTrans(db, mid, c);
    AddsOne(db, mid, c, b);
  }

  lemma OneFreeSlot(db: Db, mid: Db, s: SlotId, clubId: ClubId, fijo: Fijo, now: Instant)
    requires Keeps(db, mid) && AddsFijoBookings(db, mid, FijoBooking(clubId, fijo, now))
    requires s < |mid.slots| && mid.slots[s].status.Available? && mid.slots[s].clubId == clubId
    ensures var b := FijoBooking(clubId, fijo, now);
      var c := TakeSlot(mid, s, b);
      && Keeps(db, c)
      && AddsFijoBookings(db, c, b)
      && |c.bookings| == |mid.bookings| + 1
  {
    var b := FijoBooking(clubId, fijo, now);
    FijoClaim(mid, clubId, fijo, now);
    TakeSlotKeeps(mid, s, b);
    var c := TakeSlot(mid, s, b);
    KeepsTrans(db, mid, c);
    AddsOne(db, mid, c, b);
  }

  lemma AddsOne(db: Db, mid: Db, c: Db, b: Booking)
    requires AddsFijoBookings(db, mid, b) && |c.bookings| == |mid.bookings| + 1
    requires c.bookings == mid.bookings + [b.(slotId := c.bookings[|mid.bookings|].slotId)]
    ensures AddsFijoBookings(db, c, b)
  {
    assert c.bookings[..|db.bookings|] == mid.bookings[..|db.bookings|];
  }

  lemma FreshPrefix(db: Db, rows: seq<Slot>, clubId: ClubId)
    requires rows != [] && FreshRows(db, rows, clubId)
    ensures FreshRows(db, rows[..|rows| - 1], clubId)
    ensures var n := |rows| - 1;
            !StartTaken(db.slots + rows[..n], rows[n])
  {
    var n := |rows| - 1;
    var front, all := rows[..n], db.slots + rows[..n];
    forall k | 0 <= k < n
      ensures !StartTaken(db.slots, front[k])
    {
      assert !StartTaken(db.slots, rows[k]);
    }
    forall s | 0 <= s < |all|
      ensures !SameStart(all[s], rows[n])
    {
      if s < |db.slots| {
        assert !StartTaken(db.slots, rows[n]);
      } else {
        assert all[s] == rows[s - |db.slots|];
      }
    }
  }

  lemma {:induction false} TakeAllNewLaw(db: Db, rows: seq<Slot>, clubId: ClubId, fijo: Fijo, now: Instant)
    requires Inv(db) && FreshRows(db, rows, clubId)
    ensures var b := FijoBooking(clubId, fijo, now);
      var c := TakeAllNew(db, rows, b);
      && Keeps(db, c)
      && c.slots == db.slots + rows
      && |c.bookings| == |db.bookings| + |rows|
      && AddsFijoBookings(db, c, b)
  {
    hide Occupancy, RefsSingleUse;
    if rows == [] {
      KeepsSelf(db);
    } else {
      var n := |rows| - 1;
      FreshPrefix(db, rows, clubId);
      TakeAllNewLaw(db, rows[..n], clubId, fijo, now);
      OneNewSlot(db, TakeAllNew(db, rows[..n], FijoBooking(clubId, fijo, now)), rows[n], clubId, fijo, now);
      assert rows == rows[..n] + [rows[n]];
    }
  }

  lemma AddsTrans(db: Db, mid: Db, c: Db, b: Booking)
    requires AddsFijoBookings(db, mid, b) && AddsFijoBookings(mid, c, b)
    ensures AddsFijoBookings(db, c, b)
  {
    assert c.bookings[..|db.bookings|] == c.bookings[..|mid.bookings|][..|db.bookings|];
    forall i | |db.bookings| <= i < |mid.bookings|
      ensures c.bookings[i] == b.(slotId := c.bookings[i].slotId)
    {
      assert c.bookings[i] == c.bookings[..|mid.bookings|][i];
    }
  }

  predicate IsFree(slots: seq<Slot>, s: SlotId, clubId: ClubId) {
    s < |slots| && slots[s].status.Available? && slots[s].clubId == clubId
  }

  ghost predicate BooksExactly(before: seq<Slot>, after: seq<Slot>, ids: seq<SlotId>) {
    && |after| == |before|
    && (forall s :: 0 <= s < |before| ==>
          after[s] == if s in ids then before[s].(status := Booked) else before[s])
  }

  lemma {:induction false} TakeAllLaw(db: Db, ids: seq<SlotId>, clubId: ClubId, fijo: Fijo, now: Instant)
    requires Inv(db)
    requires NoRepeats(ids)
    requires forall r :: 0 <= r < |ids| ==> IsFree(db.slots, ids[r], clubId)
    ensures var b := FijoBooking(clubId, fijo, now);
      var c := TakeAll(db, ids, b);
      && Keeps(db, c)
      && BooksExactly(db.slots, c.slots, ids)
      && |c.bookings| == |db.bookings| + |ids|
      && AddsFijoBookings(db, c, b)
  {
    hide Inv, Keeps, AddsFijoBookings, FijoBooking, IsFree, BooksExactly, TakeSlot;
    var b := FijoBooking(clubId, fijo, now);
    if ids == [] {
      KeepsSelf(db);
      AddsNone(db, b);
      BooksNone(db.slots);
    } else {
      var n := |ids| - 1;
      TakeAllLaw(db, ids[..n], clubId, fijo, now);
      var before := TakeAll(db, ids[..n], b);
      BooksOne(db.slots, before.slots, ids, clubId);
      OneFreeSlot(db, before, ids[n], clubId, fijo, now);
      SlotTaken(before, ids[n], b);
    }
  }

  lemma AddsNone(db: Db, b: Booking)
    ensures AddsFijoBookings(db, db, b)
  {
  }

  lemma BooksNone(slots: seq<Slot>)
    ensures BooksExactly(slots, slots, [])
  {
  }

  lemma SlotTaken(db: Db, s: SlotId, b: Booking)
    requires s < |db.slots|
    ensures TakeSlot(db, s, b).slots == db.slots[s := db.slots[s].(status := Booked)]
  {
  }

  /** Booking the last slot after all the others. */
  lemma BooksOne(slots: seq<Slot>, mid: seq<Slot>, ids: seq<SlotId>, clubId: ClubId)
    requires ids != [] && NoRepeats(ids) && BooksExactly(slots, mid, ids[..|ids| - 1])
             && IsFree(slots, ids[|ids| - 1], clubId)
    ensures var s := ids[|ids| - 1];
            && s < |mid| && mid[s].status.Available? && mid[s].clubId == clubId
            && BooksExactly(slots, mid[s := mid[s].(status := Booked)], ids)
  {
    var n := |ids| - 1;
    assert ids == ids[..n] + [ids[n]];
    assert ids[n] !in ids[..n];
  }

  lemma SlotAtIs(db: Db, clubId: ClubId, courtId: CourtId, startsAt: Instant, s: SlotId)
    requires UniqueStarts(db.slots) && s < |db.slots| && IsSlotAt(db.slots[s], clubId, courtId, startsAt)
    ensures SlotAt(db, clubId, courtId, startsAt) == Some(s)
  {
    var found := SlotAt(db, clubId, courtId, startsAt);
    assert db.slots[s] in db.slots;
    assert SameStart(db.slots[found.value], db.slots[s]);
  }

  /** The two batches of writes a successful apply is made of. */
  lemma ApplySteps(db: Db, clubId: ClubId, fijo: Fijo, occs: seq<Band>, now: Instant)
    requires Inv(db) && Increasing(occs) && Apply(db, clubId, fijo, occs, now).result.Ok?
    ensures var c := Apply(db, clubId, fijo, occs, now);
      var rows, ids := ToCreate(db, clubId, fijo, occs), ToBook(db, clubId, fijo, occs);
      && Keeps(db, c.db)
      && BooksExactly(db.slots + rows, c.db.slots, ids)
      && |c.db.bookings| == |db.bookings| + c.result.value
      && AddsFijoBookings(db, c.db, FijoBooking(clubId, fijo, now))
  {
    var rows, ids := ToCreate(db, clubId, fijo, occs), ToBook(db, clubId, fijo, occs);
    ToCreateMeaning(db, clubId, fijo, occs);
    ToBookMeaning(db, clubId, fijo, occs);
    var b := FijoBooking(clubId, fijo, now);
    forall r | 0 <= r < |rows|
      ensures BookedRow(rows[r], clubId)
    {
      assert IsOccurrenceRow(rows[r], db, clubId, fijo, occs);
    }
    TakeAllNewLaw(db, rows, clubId, fijo, now);
    var mid := TakeAllNew(db, rows, b);
    forall r | 0 <= r < |ids|
      ensures IsFree(mid.slots, ids[r], clubId)
    {
      assert IsFreeOccurrence(ids[r], db, clubId, fijo, occs);
    }
    TakeAllLaw(mid, ids, clubId, fijo, now);
    KeepsTrans(db, mid, TakeAll(mid, ids, b));
    AddsTrans(db, mid, TakeAll(mid, ids, b), b);
  }

  /** Where an apply may write: new rows at dates that need one, and free rows at dates that have one. */
  ghost predicate ApplyTouched(db: Db, c: Db, clubId: ClubId, fijo: Fijo, occs: seq<Band>, s: SlotId)
    requires s < |c.slots|
  {
    if s >= |db.slots| then IsOccurrenceRow(c.slots[s], db, clubId, fijo, occs)
    else c.slots[s] == db.slots[s]
         || (c.slots[s] == db.slots[s].(status := Booked) && IsFreeOccurrence(s, db, clubId, fijo, occs))
  }

  lemma StepsTouch(db: Db, c: Db, rows: seq<Slot>, ids: seq<SlotId>, clubId: ClubId, fijo: Fijo, occs: seq<Band>,
                   s: SlotId)
    requires BooksExactly(db.slots + rows, c.slots, ids) && s < |c.slots|
    requires forall r :: 0 <= r < |rows| ==> IsOccurrenceRow(rows[r], db, clubId, fijo, occs)
    requires FreeOccurrences(ids, db, clubId, fijo, occs)
    ensures ApplyTouched(db, c, clubId, fijo, occs, s)
  {
    var all := db.slots + rows;
    assert all[s] == if s < |db.slots| then db.slots[s] else rows[s - |db.slots|];
    if s in ids {
      var r :| 0 <= r < |ids| && ids[r] == s;
      assert IsFreeOccurrence(ids[r], db, clubId, fijo, occs);
    }
  }

  /**
   * Applying a fijo keeps every shared invariant. What it creates are slots at unskipped dates
   * that had none, what it flips are free slots at unskipped dates; every other slot, booked and
   * blocked ones included, is untouched, and it adds one booking of the fijo per slot taken.
   */
  lemma ApplyLaw(db: Db, clubId: ClubId, fijo: Fijo, occs: seq<Band>, now: Instant)
    requires Inv(db) && Increasing(occs)
    ensures var c := Apply(db, clubId, fijo, occs, now);
      && Keeps(db, c.db)
      && (forall s: nat :: s < |c.db.slots| ==> ApplyTouched(db, c.db, clubId, fijo, occs, s))
      && AddsFijoBookings(db, c.db, FijoBooking(clubId, fijo, now))
      && (c.result.Ok? ==> |c.db.bookings| == |db.bookings| + c.result.value)
  {
    var c := Apply(db, clubId, fijo, occs, now);
    if c.result.Err? {
      KeepsSelf(db);
    } else {
      ApplySteps(db, clubId, fijo, occs, now);
      ToCreateMeaning(db, clubId, fijo, occs);
      ToBookMeaning(db, clubId, fijo, occs);
      forall s: nat | s < |c.db.slots|
        ensures ApplyTouched(db, c.db, clubId, fijo, occs, s)
      {
        StepsTouch(db, c.db, ToCreate(db, clubId, fijo, occs), ToBook(db, clubId, fijo, occs), clubId, fijo, occs, s);
      }
    }
  }

  /** After an apply a date is skipped, or its slot exists and is not free. */
  ghost predicate Handled(db: Db, c: Db, clubId: ClubId, fijo: Fijo, occ: Band) {
    var found := SlotAt(c, clubId, fijo.courtId, occ.startsAt);
    Skipped(db, clubId, fijo.id, occ.startsAt) || (found.Some? && !c.slots[found.value].status.Available?)
  }

  lemma HandledBy(db: Db, c: Db, clubId: ClubId, fijo: Fijo, occ: Band, s: SlotId)
    requires UniqueStarts(c.slots) && s < |c.slots| && IsSlotAt(c.slots[s], clubId, fijo.courtId, occ.startsAt)
    requires !c.slots[s].status.Available?
    ensures Handled(db, c, clubId, fijo, occ)
  {
    SlotAtIs(c, clubId, fijo.courtId, occ.startsAt, s);
  }

  lemma StepsHandle(db: Db, c: Db, rows: seq<Slot>, ids: seq<SlotId>, clubId: ClubId, fijo: Fijo, occ: Band)
    requires BooksExactly(db.slots + rows, c.slots, ids) && UniqueStarts(c.slots)
    requires NeedsSlot(db, clubId, fijo, occ) ==> OccurrenceSlot(clubId, fijo, occ) in rows
    requires FindsFree(db, clubId, fijo, occ) ==> SlotAt(db, clubId, fijo.courtId, occ.startsAt).value in ids
    ensures Handled(db, c, clubId, fijo, occ)
  {
    hide Skipped, UniqueStarts;
    var found := SlotAt(db, clubId, fijo.courtId, occ.startsAt);
    var all := db.slots + rows;
    if Skipped(db, clubId, fijo.id, occ.startsAt) {
    } else if found.Some? {
      assert all[found.value] == db.slots[found.value];
      HandledBy(db, c, clubId, fijo, occ, found.value);
    } else {
      var r :| 0 <= r < |rows| && rows[r] == OccurrenceSlot(clubId, fijo, occ);
      assert all[|db.slots| + r] == rows[r];
      HandledBy(db, c, clubId, fijo, occ, |db.slots| + r);
    }
  }

  lemma OccurrenceHandled(db: Db, clubId: ClubId, fijo: Fijo, occs: seq<Band>, now: Instant, k: nat)
    requires Inv(db) && Increasing(occs) && Apply(db, clubId, fijo, occs, now).result.Ok? && k < |occs|
    ensures Handled(db, Apply(db, clubId, fijo, occs, now).db, clubId, fijo, occs[k])
  {
    ApplySteps(db, clubId, fijo, occs, now);
    var c := Apply(db, clubId, fijo, occs, now).db;
    var rows, ids := ToCreate(db, clubId, fijo, occs), ToBook(db, clubId, fijo, occs);
    assert UniqueStarts(c.slots);
    hide *;
    if FindsFree(db, clubId, fijo, occs[k]) {
      ToBookCovers(db, clubId, fijo, occs, k);
    }
    if NeedsSlot(db, clubId, fijo, occs[k]) {
      ToCreateCovers(db, clubId, fijo, occs, k);
    }
    StepsHandle(db, c, rows, ids, clubId, fijo, occs[k]);
  }

  lemma {:induction false} NothingToDo(c: Db, clubId: ClubId, fijo: Fijo, occs: seq<Band>)
    requires forall k :: 0 <= k < |occs| ==>
               !NeedsSlot(c, clubId, fijo, occs[k]) && !FindsFree(c, clubId, fijo, occs[k])
    ensures ToCreate(c, clubId, fijo, occs) == [] && ToBook(c, clubId, fijo, occs) == []
  {
    if occs != [] {
      var n := |occs| - 1;
      assert forall k :: 0 <= k < n ==> occs[..n][k] == occs[k];
      NothingToDo(c, clubId, fijo, occs[..n]);
      assert !NeedsSlot(c, clubId, fijo, occs[n]);
    }
  }

  /** Applying the same fijo again with the same dates books nothing and writes nothing. */
  lemma ApplyTwice(db: Db, clubId: ClubId, fijo: Fijo, occs: seq<Band>, now: Instant, later: Instant)
    requires Inv(db) && Increasing(occs) && Apply(db, clubId, fijo, occs, now).result.Ok?
    ensures var c := Apply(db, clubId, fijo, occs, now).db;
            Apply(c, clubId, fijo, occs, later) == Outcome(c, Ok(0))
  {
    var c := Apply(db, clubId, fijo, occs, now).db;
    ApplyLaw(db, clubId, fijo, occs, now);
    forall k | 0 <= k < |occs|
      ensures !NeedsSlot(c, clubId, fijo, occs[k]) && !FindsFree(c, clubId, fijo, occs[k])
    {
      OccurrenceHandled(db, clubId, fijo, occs, now, k);
      if Skipped(db, clubId, fijo.id, occs[k].startsAt) {
        SkippedStays(db, c, clubId, fijo.id, occs[k].startsAt);
      }
    }
    NothingToDo(c, clubId, fijo, occs);
  }

  lemma SkippedStays(db: Db, c: Db, clubId: ClubId, fijo: FijoId, startsAt: Instant)
    requires Skipped(db, clubId, fijo, startsAt) && Evolves(db, c)
    requires |db.bookings| <= |c.bookings| && c.bookings[..|db.bookings|] == db.bookings
    ensures Skipped(c, clubId, fijo, startsAt)
  {
    var i :| 0 <= i < |db.bookings| && SkipsStart(db, db.bookings[i], clubId, fijo, startsAt);
    assert c.bookings[i] == c.bookings[..|db.bookings|][i];
    assert SameBand(db.slots[db.bookings[i].slotId], c.slots[db.bookings[i].slotId]);
    assert SkipsStart(c, c.bookings[i], clubId, fijo, startsAt);
  }

  /** A date whose booking was cancelled is never booked again: its slot, if any, is left as it was. */
  lemma SkippedNeverRebooked(db: Db, clubId: ClubId, fijo: Fijo, occs: seq<Band>, now: Instant, s: SlotId)
    requires Inv(db) && Increasing(occs)
    requires s < |Apply(db, clubId, fijo, occs, now).db.slots|
    requires Skipped(db, clubId, fijo.id, Apply(db, clubId, fijo, occs, now).db.slots[s].startsAt)
    ensures s < |db.slots| && Apply(db, clubId, fijo, occs, now).db.slots[s] == db.slots[s]
  {
    ApplyLaw(db, clubId, fijo, occs, now);
    var c := Apply(db, clubId, fijo, occs, now).db;
    assert ApplyTouched(db, c, clubId, fijo, occs, s);
    if s < |db.slots| {
      assert SameBand(db.slots[s], c.slots[s]);
      forall k | 0 <= k < |occs| && SlotAt(db, clubId, fijo.courtId, occs[k].startsAt) == Some(s)
        ensures !FindsFree(db, clubId, fijo, occs[k])
      {
      }
      assert !IsFreeOccurrence(s, db, clubId, fijo, occs);
    }
  }
}
