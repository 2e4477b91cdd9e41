/** Applying a fijo's weeks ahead, as the service writes it (src/recurring-bookings/recurring-bookings.service.ts). */
module RecurringService {
  import opened Base
  import opened ClubData
  import opened BookingRules
  import opened CourtBlocks
  import opened Schedule
  import opened RecurringRules
  import opened Tables

  lemma WeeklyStops(day: Day, left: nat, until: Option<Day>)
    requires left == 0 || (until.Some? && day > until.value)
    ensures WeeklyFrom(day, left, until) == []
  {
  }

  lemma WeeklyGoesOn(day: Day, left: nat, until: Option<Day>)
    requires left > 0 && !(until.Some? && day > until.value)
    ensures WeeklyFrom(day, left, until) == [day] + WeeklyFrom(day + 7, left - 1, until)
  {
  }

  /** Advances a date cursor week by week. */
  method NextOccurrences(today: Day, dayOfWeek: int, until: Option<Day>) returns (days: seq<Day>)
    ensures days == OccurrenceDays(today, dayOfWeek, until)
  {
    hide WeeklyFrom;
    var daysUntil := (dayOfWeek - Weekday(today) + 7) % 7;
    var cursor := today + daysUntil;
    var left: nat := if until.Some? then MAX_WEEKS_AHEAD else WEEKS_AHEAD;
    ghost var all := OccurrenceDays(today, dayOfWeek, until);
    days := [];
    while left > 0
      invariant days + WeeklyFrom(cursor, left, until) == all
    {
      if until.Some? && cursor > until.value {
        WeeklyStops(cursor, left, until);
        return;
      }
      WeeklyGoesOn(cursor, left, until);
      days := days + [cursor];
      cursor := cursor + 7;
      left := left - 1;
    }
    WeeklyStops(cursor, left, until);
  }

  /** The instants of the occurrences: the band on each of the days. */
  function OccurrenceBands(clock: int -> Instant, days: seq<Day>, band: ScheduleBand): (occs: seq<Band>)
    ensures |occs| == |days|
  {
    seq(|days|, k requires 0 <= k < |days| =>
          Band(TimesOf(clock, days[k], band).startsAt, TimesOf(clock, days[k], band).endsAt))
  }

  /** One minute before another on the wall, one instant before another. */
  lemma ClockRuns(clock: int -> Instant, m: int, n: int)
    requires IsClock(clock) && m < n
    ensures clock(m) < clock(n)
  {
  }

  lemma OccurrenceAt(clock: int -> Instant, days: seq<Day>, band: ScheduleBand, k: nat)
    requires k < |days|
    ensures OccurrenceBands(clock, days, band)[k] ==
            Band(clock(days[k] * MINUTES_A_DAY + BandSortMinutes(band)),
                 clock(days[k] * MINUTES_A_DAY + BandEndMinutes(band)))
  {
    TimesAre(clock, days[k], band);
  }

  lemma LaterMinute(d: Day, e: Day, minute: nat)
    requires d < e
    ensures d * MINUTES_A_DAY + minute < e * MINUTES_A_DAY + minute
  {
  }

  /** Occurrences are in order and never empty, as applying them expects. */
  lemma OccurrencesIncrease(clock: int -> Instant, today: Day, dayOfWeek: int, until: Option<Day>, band: ScheduleBand)
    requires IsClock(clock) && BandSortMinutes(band) < BandEndMinutes(band)
    ensures Increasing(OccurrenceBands(clock, OccurrenceDays(today, dayOfWeek, until), band))
  {
    hide IsClock, WeeklyFrom, OccurrenceBands, BandSortMinutes, BandEndMinutes, Cap, FirstOccurrence;
    var days := OccurrenceDays(today, dayOfWeek, until);
    var occs := OccurrenceBands(clock, days, band);
    WeeklyFromMeaning(FirstOccurrence(today, dayOfWeek), Cap(until), until);
    forall k | 0 <= k < |occs|
      ensures occs[k].startsAt < occs[k].endsAt
    {
      OccurrenceAt(clock, days, band, k);
      ClockRuns(clock, days[k] * MINUTES_A_DAY + BandSortMinutes(band), days[k] * MINUTES_A_DAY + BandEndMinutes(band));
    }
    forall j, k | 0 <= j < k < |occs|
      ensures occs[j].startsAt < occs[k].startsAt
    {
      OccurrenceAt(clock, days, band, j);
      OccurrenceAt(clock, days, band, k);
      LaterMinute(days[j], days[k], BandSortMinutes(band));
      ClockRuns(clock, days[j] * MINUTES_A_DAY + BandSortMinutes(band), days[k] * MINUTES_A_DAY +
                BandSortMinutes(band));
    }
  }

  // ── The writes, in bulk ─────────────────────────────────────────────────────

  function BookingsOn(ids: seq<SlotId>, b: Booking): (bs: seq<Booking>)
    ensures |bs| == |ids|
  {
    seq(|ids|, k requires 0 <= k < |ids| => b.(slotId := ids[k]))
  }

  function IdsFrom(first: SlotId, n: nat): (ids: seq<SlotId>)
    ensures |ids| == n && forall k :: 0 <= k < n ==> ids[k] == first + k
  {
    seq(n, k requires 0 <= k < n => first + k)
  }

  predicate AllBookedRows(rows: seq<Slot>) {
    forall r :: 0 <= r < |rows| ==> rows[r].status.Booked? && rows[r].eventId.None?
  }

  function Flipped(slots: seq<Slot>, ids: seq<SlotId>): (r: seq<Slot>)
    ensures |r| == |slots|
  {
    if ids == [] then slots
    else
      var n := |ids| - 1;
      var before := Flipped(slots, ids[..n]);
      if ids[n] < |before| then before[ids[n] := before[ids[n]].(status := Booked)] else before
  }

  /** Creating all the slots and then all their bookings is creating them one pair at a time. */
  lemma {:induction false} NewInBulk(db: Db, rows: seq<Slot>, b: Booking)
    requires AllBookedRows(rows)
    ensures TakeAllNew(db, rows, b) ==
            db.(slots := db.slots + rows, bookings := db.bookings + BookingsOn(IdsFrom(|db.slots|, |rows|), b))
  {
    if rows == [] {
      assert db.slots + rows == db.slots;
      assert db.bookings + BookingsOn(IdsFrom(|db.slots|, 0), b) == db.bookings;
    } else {
      var n := |rows| - 1;
      NewInBulk(db, rows[..n], b);
      assert rows == rows[..n] + [rows[n]];
      assert BookingsOn(IdsFrom(|db.slots|, n + 1), b) == BookingsOn(IdsFrom(|db.slots|, n), b) +
             [b.(slotId := |db.slots| + n)];
      assert db.slots + rows == db.slots + rows[..n] + [rows[n]];
    }
  }

  lemma {:induction false} TakenInBulk(db: Db, ids: seq<SlotId>, b: Booking)
    requires forall k :: 0 <= k < |ids| ==> ids[k] < |db.slots|
    ensures TakeAll(db, ids, b) == db.(slots := Flipped(db.slots, ids), bookings := db.bookings + BookingsOn(ids, b))
  {
    if ids == [] {
      assert db.bookings + BookingsOn(ids, b) == db.bookings;
    } else {
      var n := |ids| - 1;
      TakenInBulk(db, ids[..n], b);
      assert BookingsOn(ids, b) == BookingsOn(ids[..n], b) + [b.(slotId := ids[n])];
    }
  }

  lemma {:induction false} ToCreateBooked(db: Db, clubId: ClubId, fijo: Fijo, occs: seq<Band>)
    ensures AllBookedRows(ToCreate(db, clubId, fijo, occs))
  {
    if occs != [] {
      ToCreateBooked(db, clubId, fijo, occs[..|occs| - 1]);
      hide NeedsSlot;
    }
  }

  lemma {:induction false} ToBookInside(db: Db, clubId: ClubId, fijo: Fijo, occs: seq<Band>)
    ensures forall k :: 0 <= k < |ToBook(db, clubId, fijo, occs)| ==> ToBook(db, clubId, fijo, occs)[k] < |db.slots|
  {
    if occs != [] {
      ToBookInside(db, clubId, fijo, occs[..|occs| - 1]);
    }
  }

  class RecurringBookingsService {
    const prisma: Database

    constructor (prisma: Database)
      ensures this.prisma == prisma
    {
      this.prisma := prisma;
    }

    /** One pass over the occurrences: what to create, what to flip. */
    method PlanOccurrences(clubId: ClubId, fijo: Fijo, occs: seq<Band>) returns (toCreate: seq<Slot>,
                                                                                 toBook: seq<SlotId>)
      ensures toCreate == ToCreate(prisma.Rows(), clubId, fijo, occs)
      ensures toBook == ToBook(prisma.Rows(), clubId, fijo, occs)
    {
      toCreate, toBook := [], [];
      for k := 0 to |occs|
        invariant toCreate == ToCreate(prisma.Rows(), clubId, fijo, occs[..k])
        invariant toBook == ToBook(prisma.Rows(), clubId, fijo, occs[..k])
      {
        hide Skipped, SlotAt;
        var occ := occs[k];
        assert occs[..k + 1][..k] == occs[..k];
        if !Skipped(prisma.Rows(), clubId, fijo.id, occ.startsAt) {
          var found := SlotAt(prisma.Rows(), clubId, fijo.courtId, occ.startsAt);
          if found.None? {
            toCreate := toCreate + [Slot(clubId, fijo.courtId, occ.startsAt, occ.endsAt, fijo.priceCents, Booked,
                                         None)];
          } else if prisma.slots[found.value].status.Available? {
            toBook := toBook + [found.value];
          }
        }
      }
      assert occs[..|occs|] == occs;
    }

    method FlipToBooked(ids: seq<SlotId>)
      modifies prisma`slots
      ensures prisma.slots == Flipped(old(prisma.slots), ids)
    {
      for k := 0 to |ids|
        invariant prisma.slots == Flipped(old(prisma.slots), ids[..k])
      {
        assert ids[..k + 1][..k] == ids[..k];
        if ids[k] < |prisma.slots| {
          prisma.slots := prisma.slots[ids[k] := prisma.slots[ids[k]].(status := Booked)];
        }
      }
      assert ids[..|ids|] == ids;
    }

    method CreateBookings(ids: seq<SlotId>, b: Booking)
      modifies prisma`bookings
      ensures prisma.bookings == old(prisma.bookings) + BookingsOn(ids, b)
    {
      for k := 0 to |ids|
        invariant prisma.bookings == old(prisma.bookings) + BookingsOn(ids[..k], b)
      {
        assert BookingsOn(ids[..k + 1], b) == BookingsOn(ids[..k], b) + [b.(slotId := ids[k])];
        prisma.bookings := prisma.bookings + [b.(slotId := ids[k])];
      }
      assert ids[..|ids|] == ids;
    }

    /** Missing slots created, free ones flipped, then a confirmed booking on each. */
    method ApplyForWeeksAhead(clubId: ClubId, fijo: Fijo, occs: seq<Band>, now: Instant) returns (r: Result<nat>)
      modifies prisma
      ensures var rule := Apply(old(prisma.Rows()), clubId, fijo, occs, now);
              prisma.Rows() == rule.db && r == rule.result
    {
      hide ToCreate, ToBook, AnyStartTaken, TakeAll, TakeAllNew, FijoBooking, Flipped;
      var before := prisma.Rows();
      var toCreate, toBook := PlanOccurrences(clubId, fijo, occs);
      if AnyStartTaken(prisma.slots, toCreate) {
        return Err(Conflict);
      }
      var b := FijoBooking(clubId, fijo, now);
      ToCreateBooked(before, clubId, fijo, occs);
      ToBookInside(before, clubId, fijo, occs);
      NewInBulk(before, toCreate, b);
      TakenInBulk(TakeAllNew(before, toCreate, b), toBook, b);
      prisma.slots := prisma.slots + toCreate;
      FlipToBooked(toBook);
      var created := IdsFrom(|before.slots|, |toCreate|);
      CreateBookings(created + toBook, b);
      assert BookingsOn(created + toBook, b) == BookingsOn(created, b) + BookingsOn(toBook, b);
      assert before.bookings + (BookingsOn(created, b) + BookingsOn(toBook, b)) == before.bookings +
             BookingsOn(created, b) + BookingsOn(toBook, b);
      return Ok(|created| + |toBook|);
    }
  }
}
