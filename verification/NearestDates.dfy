/**
 * The nearest days with something free, and the cheaper count behind them
 * (src/availability/availability.service.ts).
 */
module NearestDates {
  import opened Base
  import opened ClubData
  import opened Schedule
  import opened Availability

  /** An occupied slot of the court starts exactly there. */
  predicate IsTaken(slots: seq<Slot>, clubId: ClubId, courtId: CourtId, startsAt: Instant) {
    exists i :: 0 <= i < |slots| && IsOn(slots[i], clubId, courtId) && !slots[i].status.Available?
                && slots[i].startsAt == startsAt
  }

  predicate CountsFree(slots: seq<Slot>, court: CourtRow,
                       clock: int -> Instant, day: Day, now: Instant, band: ScheduleBand) {
    var t := TimesOf(clock, day, band);
    t.startsAt > now && !IsTaken(slots, court.clubId, court.id, t.startsAt)
  }

  /** Bands ahead whose exact start is not taken. */
  function FreeStarts(slots: seq<Slot>, court: CourtRow,
                      clock: int -> Instant, day: Day, now: Instant, bands: seq<ScheduleBand>): nat {
    if bands == [] then 0
    else
      var n := |bands| - 1;
      FreeStarts(slots, court, clock, day, now, bands[..n]) +
      (if CountsFree(slots, court, clock, day, now, bands[n]) then 1 else 0)
  }

  function FreeOnDay(slots: seq<Slot>, courts: seq<CourtRow>, clock: int -> Instant, day: Day, now: Instant): nat
    requires GoodCourts(courts)
  {
    if courts == [] then 0
    else
      var n := |courts| - 1;
      FreeOnDay(slots, courts[..n], clock, day, now) +
      FreeStarts(slots, courts[n], clock, day, now, BandsForDate(courts[n].schedule, day))
  }

  datatype AvailableDate = AvailableDate(day: Day, count: nat)

  predicate IsOpen(slots: seq<Slot>, courts: seq<CourtRow>,
                   clock: int -> Instant, day: Day, now: Instant, exclude: Option<Day>)
    requires GoodCourts(courts)
  {
    exclude != Some(day) && FreeOnDay(slots, courts, clock, day, now) > 0
  }

  /** The first `room` open days from day `from + i` on, within the horizon. */
  function FirstDates(slots: seq<Slot>, courts: seq<CourtRow>,
                      clock: int -> Instant, from: Day, i: nat, horizon: nat, room: nat,
                      exclude: Option<Day>, now: Instant): seq<AvailableDate>
    requires GoodCourts(courts)
    decreases horizon - i
  {
    if i >= horizon || room == 0 then []
    else if IsOpen(slots, courts, clock, from + i, now, exclude)
    then [AvailableDate(from + i, FreeOnDay(slots, courts, clock, from + i, now))] +
         FirstDates(slots, courts, clock, from, i + 1, horizon, room - 1, exclude, now)
    else FirstDates(slots, courts, clock, from, i + 1, horizon, room, exclude, now)
  }

  // ── The method ──────────────────────────────────────────────────────────────

  datatype StartKey = StartKey(courtId: CourtId, startsAt: Instant)

  method FetchOccupied(slots: seq<Slot>, clubId: ClubId, from: Instant, to: Instant) returns (keys: set<StartKey>)
    ensures IsOccupiedSet(keys, slots, clubId, from, to)
  {
    keys := {};
    for i := 0 to |slots|
      invariant forall k :: k in keys <==>
                  (exists j :: 0 <= j < i && IsKeyOf(slots[j], clubId, k)) && from <= k.startsAt < to
    {
      var s := slots[i];
      if s.clubId == clubId && !s.status.Available? && from <= s.startsAt < to {
        keys := keys + {StartKey(s.courtId, s.startsAt)};
      }
    }
  }

  predicate IsKeyOf(s: Slot, clubId: ClubId, k: StartKey) {
    IsOn(s, clubId, k.courtId) && !s.status.Available? && s.startsAt == k.startsAt
  }

  /** Bands of the last grid day still start inside the window, past midnight included. */
  lemma WindowHoldsStart(clock: int -> Instant, from: Day, horizon: nat, i: nat, bands: seq<ScheduleBand>, b: nat)
    requires IsClock(clock) && i < horizon && GoodGrid(bands) && b < |bands|
    ensures var t := TimesOf(clock, from + i, bands[b]);
            DayStart(clock, from) <= t.startsAt < DayStart(clock, from + horizon + 1)
  {
    TimesAre(clock, from + i, bands[b]);
    var m := (from + i) * MINUTES_A_DAY + BandSortMinutes(bands[b]);
    assert from * MINUTES_A_DAY <= m < (from + horizon + 1) * MINUTES_A_DAY;
    if from * MINUTES_A_DAY < m {
      assert clock(from * MINUTES_A_DAY) < clock(m);
    }
  }

  /** What the window query returns: the exact starts of the club's occupied slots inside it. */
  ghost predicate IsOccupiedSet(keys: set<StartKey>, slots: seq<Slot>, clubId: ClubId, from: Instant, to: Instant) {
    forall k :: k in keys <==> (exists i :: 0 <= i < |slots| && IsKeyOf(slots[i], clubId, k)) && from <= k.startsAt < to
  }

  lemma KeyMeansTaken(keys: set<StartKey>, slots: seq<Slot>, clubId: ClubId, courtId: CourtId, from: Instant,
                      to: Instant, startsAt: Instant)
    requires IsOccupiedSet(keys, slots, clubId, from, to) && from <= startsAt < to
    ensures StartKey(courtId, startsAt) in keys <==> IsTaken(slots, clubId, courtId, startsAt)
  {
    var key := StartKey(courtId, startsAt);
    if IsTaken(slots, clubId, courtId, startsAt) {
      var i :| 0 <= i < |slots| && IsOn(slots[i], clubId, courtId) && !slots[i].status.Available?
               && slots[i].startsAt == startsAt;
      assert IsKeyOf(slots[i], clubId, key);
    }
    if key in keys {
      var i :| 0 <= i < |slots| && IsKeyOf(slots[i], clubId, key);
    }
  }

  lemma FreeStep(slots: seq<Slot>, court: CourtRow,
                 clock: int -> Instant, day: Day, now: Instant, bands: seq<ScheduleBand>, b: nat)
    requires b < |bands|
    ensures FreeStarts(slots, court, clock, day, now, bands[..b + 1]) ==
            FreeStarts(slots, court, clock, day, now, bands[..b]) +
            (if CountsFree(slots, court, clock, day, now, bands[b]) then 1 else 0)
  {
    assert bands[..b + 1][..b] == bands[..b];
    hide CountsFree;
  }

  method CountCourt(keys: set<StartKey>, court: CourtRow,
                    clock: int -> Instant, from: Day, i: nat, horizon: nat, now: Instant,
                    ghost slots: seq<Slot>) returns (free: nat)
    requires court.schedule.slotDurationMinutes > 0 && IsClock(clock) && i < horizon
    requires IsOccupiedSet(keys, slots, court.clubId, DayStart(clock, from), DayStart(clock, from + horizon + 1))
    ensures free == FreeStarts(slots, court, clock, from + i, now, BandsForDate(court.schedule, from + i))
  {
    hide IsOccupiedSet, IsClock, GoodGrid, BandsForDate, IsTaken, TimesOf, DayStart, FreeStarts;
    var bands := BandsForDate(court.schedule, from + i);
    GridIsGood(court.schedule, from + i);
    free := 0;
    NoBandsFree(slots, court, clock, from + i, now, bands);
    for b := 0 to |bands|
      invariant free == FreeStarts(slots, court, clock, from + i, now, bands[..b])
    {
      WindowHoldsStart(clock, from, horizon, i, bands, b);
      var t := TimesOf(clock, from + i, bands[b]);
      KeyMeansTaken(keys, slots, court.clubId, court.id, DayStart(clock, from), DayStart(clock, from + horizon + 1),
                    t.startsAt);
      FreeStep(slots, court, clock, from + i, now, bands, b);
      if t.startsAt > now && StartKey(court.id, t.startsAt) !in keys {
        free := free + 1;
      }
    }
    assert bands[..|bands|] == bands;
  }

  lemma NoBandsFree(slots: seq<Slot>, court: CourtRow,
                    clock: int -> Instant, day: Day, now: Instant, bands: seq<ScheduleBand>)
    ensures FreeStarts(slots, court, clock, day, now, bands[..0]) == 0
  {
  }

  lemma DayStep(slots: seq<Slot>, courts: seq<CourtRow>, clock: int -> Instant, day: Day, now: Instant, c: nat)
    requires GoodCourts(courts) && c < |courts|
    ensures FreeOnDay(slots, courts[..c + 1], clock, day, now) ==
            FreeOnDay(slots, courts[..c], clock, day, now) +
            FreeStarts(slots, courts[c], clock, day, now, BandsForDate(courts[c].schedule, day))
  {
    assert courts[..c + 1][..c] == courts[..c];
    hide FreeStarts, BandsForDate;
  }

  lemma NoCourtsFree(slots: seq<Slot>, courts: seq<CourtRow>, clock: int -> Instant, day: Day, now: Instant)
    requires GoodCourts(courts)
    ensures FreeOnDay(slots, courts[..0], clock, day, now) == 0
  {
  }

  predicate AllOfClub(courts: seq<CourtRow>, clubId: ClubId) {
    forall c :: 0 <= c < |courts| ==> courts[c].clubId == clubId
  }

  method CountDay(keys: set<StartKey>, courts: seq<CourtRow>, clubId: ClubId, clock: int -> Instant, from: Day, i: nat,
                  horizon: nat, now: Instant, ghost slots: seq<Slot>) returns (free: nat)
    requires GoodCourts(courts) && IsClock(clock) && i < horizon && AllOfClub(courts, clubId)
    requires IsOccupiedSet(keys, slots, clubId, DayStart(clock, from), DayStart(clock, from + horizon + 1))
    ensures free == FreeOnDay(slots, courts, clock, from + i, now)
  {
    hide IsOccupiedSet, IsClock, FreeStarts, BandsForDate, FreeOnDay, DayStart;
    free := 0;
    NoCourtsFree(slots, courts, clock, from + i, now);
    for c := 0 to |courts|
      invariant free == FreeOnDay(slots, courts[..c], clock, from + i, now)
    {
      DayStep(slots, courts, clock, from + i, now, c);
      var here := CountCourt(keys, courts[c], clock, from, i, horizon, now, slots);
      free := free + here;
    }
    assert courts[..|courts|] == courts;
  }

  /** One turn of the loop over days. */
  lemma DatesStep(slots: seq<Slot>, courts: seq<CourtRow>,
                  clock: int -> Instant, from: Day, i: nat, horizon: nat, room: nat,
                  exclude: Option<Day>, now: Instant)
    requires GoodCourts(courts) && i < horizon && room > 0
    ensures FirstDates(slots, courts, clock, from, i, horizon, room, exclude, now) ==
            if IsOpen(slots, courts, clock, from + i, now, exclude)
            then [AvailableDate(from + i, FreeOnDay(slots, courts, clock, from + i, now))] +
                 FirstDates(slots, courts, clock, from, i + 1, horizon, room - 1, exclude, now)
            else FirstDates(slots, courts, clock, from, i + 1, horizon, room, exclude, now)
  {
  }

  lemma DatesEnd(slots: seq<Slot>, courts: seq<CourtRow>,
                 clock: int -> Instant, from: Day, i: nat, horizon: nat, room: nat,
                 exclude: Option<Day>, now: Instant)
    requires GoodCourts(courts) && (i >= horizon || room == 0)
    ensures FirstDates(slots, courts, clock, from, i, horizon, room, exclude, now) == []
  {
  }

  method NextAvailableDates(slots: seq<Slot>, courts: seq<CourtRow>, clubId: ClubId, from: Day, horizon: nat,
                            limit: nat, exclude: Option<Day>, clock: int -> Instant,
                            now: Instant) returns (results: seq<AvailableDate>)
    requires GoodCourts(courts) && IsClock(clock) && AllOfClub(courts, clubId)
    ensures results == FirstDates(slots, courts, clock, from, 0, horizon, limit, exclude, now)
  {
    hide FirstDates, FreeOnDay, IsClock, IsOccupiedSet, GoodCourts, AllOfClub, DayStart;
    results := [];
    if courts == [] {
      NothingOpen(slots, courts, clock, from, 0, horizon, limit, exclude, now);
      return;
    }
    var keys := FetchOccupied(slots, clubId, DayStart(clock, from), DayStart(clock, from + horizon + 1));
    ghost var all := FirstDates(slots, courts, clock, from, 0, horizon, limit, exclude, now);
    var i := 0;
    while i < horizon && |results| < limit
      invariant 0 <= i <= horizon && |results| <= limit
      invariant results + FirstDates(slots, courts, clock, from, i, horizon, limit - |results|, exclude, now) == all
    {
      var day := from + i;
      DatesStep(slots, courts, clock, from, i, horizon, limit - |results|, exclude, now);
      if exclude != Some(day) {
        var free := CountDay(keys, courts, clubId, clock, from, i, horizon, now, slots);
        if free > 0 {
          ghost var rest := FirstDates(slots, courts, clock, from, i + 1, horizon, limit - |results| - 1, exclude, now);
          assert results + ([AvailableDate(day, free)] + rest) == results + [AvailableDate(day, free)] + rest;
          results := results + [AvailableDate(day, free)];
        }
      }
      i := i + 1;
    }
    DatesEnd(slots, courts, clock, from, i, horizon, limit - |results|, exclude, now);
  }

  lemma {:induction false} NothingOpen(slots: seq<Slot>, courts: seq<CourtRow>, clock: int -> Instant, from: Day,
                                       i: nat, horizon: nat, room: nat, exclude: Option<Day>, now: Instant)
    requires courts == []
    ensures FirstDates(slots, courts, clock, from, i, horizon, room, exclude, now) == []
    decreases horizon - i
  {
    if i < horizon && room > 0 {
      NothingOpen(slots, courts, clock, from, i + 1, horizon, room, exclude, now);
    }
  }

  // ── Which days are listed ───────────────────────────────────────────────────

  /** Open days among from + i .. from + j. */
  function OpenDays(slots: seq<Slot>, courts: seq<CourtRow>,
                    clock: int -> Instant, from: Day, i: nat, j: nat, exclude: Option<Day>,
                    now: Instant): nat
    requires GoodCourts(courts)
    decreases j - i
  {
    if i >= j then 0
    else (if IsOpen(slots, courts, clock, from + i, now, exclude) then 1 else 0) +
         OpenDays(slots, courts, clock, from, i + 1, j, exclude, now)
  }

  /**
   * A day is listed, with its count, exactly when it is open, inside the horizon, and among the first `room`
   * open ones.
   */
  lemma {:induction false} DatesExactly(slots: seq<Slot>, courts: seq<CourtRow>, clock: int -> Instant, from: Day,
                                        i: nat, horizon: nat, room: nat, exclude: Option<Day>, now: Instant,
                                        d: AvailableDate)
    requires GoodCourts(courts)
    ensures d in FirstDates(slots, courts, clock, from, i, horizon, room, exclude, now) <==>
            && from + i <= d.day < from + horizon
            && IsOpen(slots, courts, clock, d.day, now, exclude)
            && d.count == FreeOnDay(slots, courts, clock, d.day, now)
            && OpenDays(slots, courts, clock, from, i, d.day - from, exclude, now) < room
    decreases horizon - i
  {
    hide IsOpen, FreeOnDay, GoodCourts;
    if i < horizon && room > 0 {
      var open := IsOpen(slots, courts, clock, from + i, now, exclude);
      DatesExactly(slots, courts, clock, from, i + 1, horizon, if open then room - 1 else room, exclude, now, d);
    }
  }

  // ── The count against what the day really offers ────────────────────────────

  /** If the band is still ahead and some slot occupies it, one that starts with the band does. */
  predicate ClashIsExact(slots: seq<Slot>, court: CourtRow, clock: int -> Instant, day: Day, now: Instant,
                         band: ScheduleBand)
  {
    var t := TimesOf(clock, day, band);
    t.startsAt > now && (exists i :: 0 <= i < |slots| && Occupies(slots[i], court.clubId, court.id, t)) ==>
      exists j :: 0 <= j < |slots| && Occupies(slots[j], court.clubId, court.id, t) && slots[j].startsAt == t.startsAt
  }

  predicate ClashesAreExact(slots: seq<Slot>, court: CourtRow,
                            clock: int -> Instant, day: Day, now: Instant, bands: seq<ScheduleBand>) {
    forall b :: 0 <= b < |bands| ==> ClashIsExact(slots, court, clock, day, now, bands[b])
  }

  /** At one band: the two counts agree on it exactly when its clash, if any, is exact. */
  lemma ClashTells(slots: seq<Slot>, court: CourtRow,
                   clock: int -> Instant, day: Day, now: Instant, bands: seq<ScheduleBand>, b: nat)
    requires SoundSlots(slots) && IsClock(clock) && GoodGrid(bands) && b < |bands|
    ensures ClashIsExact(slots, court, clock, day, now, bands[b]) <==>
            (CountsFree(slots, court, clock, day, now, bands[b]) ==> IsOffered(slots, court, clock, day, now, bands[b]))
  {
    hide IsClock, GoodGrid, TimesOf, BandsForDate;
    var t := TimesOf(clock, day, bands[b]);
    WindowHoldsBands(clock, day, bands, b);
    if IsTaken(slots, court.clubId, court.id, t.startsAt) {
      var i :| 0 <= i < |slots| && IsOn(slots[i], court.clubId, court.id) && !slots[i].status.Available?
               && slots[i].startsAt == t.startsAt;
      assert SoundSlot(slots[i]);
      assert Occupies(slots[i], court.clubId, court.id, t);
    }
  }

  lemma OfferedCounts(slots: seq<Slot>, court: CourtRow,
                      clock: int -> Instant, day: Day, now: Instant, bands: seq<ScheduleBand>, b: nat)
    requires SoundSlots(slots) && IsClock(clock) && GoodGrid(bands) && b < |bands|
    requires IsOffered(slots, court, clock, day, now, bands[b])
    ensures CountsFree(slots, court, clock, day, now, bands[b])
  {
    var t := TimesOf(clock, day, bands[b]);
    WindowHoldsBands(clock, day, bands, b);
    forall i | 0 <= i < |slots| && IsOn(slots[i], court.clubId, court.id) && !slots[i].status.Available?
      ensures slots[i].startsAt != t.startsAt
    {
      assert SoundSlot(slots[i]) && !Occupies(slots[i], court.clubId, court.id, t);
    }
  }

  lemma NothingToCount(slots: seq<Slot>, court: CourtRow,
                       clock: int -> Instant, day: Day, now: Instant, bands: seq<ScheduleBand>)
    ensures |OffersOf(slots, court, clock, day, now, bands[..0])| == 0 == FreeStarts(slots, court, clock, day, now,
                                                                                     bands[..0])
    ensures ClashesAreExact(slots, court, clock, day, now, bands[..0])
  {
  }

  lemma {:induction false} CountBelow(slots: seq<Slot>, court: CourtRow, clock: int -> Instant, day: Day, now: Instant,
                                      bands: seq<ScheduleBand>, n: nat)
    requires SoundSlots(slots) && IsClock(clock) && GoodGrid(bands) && n <= |bands|
    ensures |OffersOf(slots, court, clock, day, now, bands[..n])| <= FreeStarts(slots, court, clock, day, now,
                                                                                bands[..n])
    ensures |OffersOf(slots, court, clock, day, now, bands[..n])| == FreeStarts(slots, court, clock, day, now,
                                                                                bands[..n]) <==>
            ClashesAreExact(slots, court, clock, day, now, bands[..n])
  {
    hide *;
    if n == 0 {
      NothingToCount(slots, court, clock, day, now, bands);
    } else {
      CountBelow(slots, court, clock, day, now, bands, n - 1);
      OffersStep(slots, court, clock, day, now, bands, n - 1);
      FreeStep(slots, court, clock, day, now, bands, n - 1);
      ExactStep(slots, court, clock, day, now, bands, n - 1);
      ClashTells(slots, court, clock, day, now, bands, n - 1);
      if IsOffered(slots, court, clock, day, now, bands[n - 1]) {
        OfferedCounts(slots, court, clock, day, now, bands, n - 1);
      }
    }
  }

  lemma ExactStep(slots: seq<Slot>, court: CourtRow,
                  clock: int -> Instant, day: Day, now: Instant, bands: seq<ScheduleBand>, n: nat)
    requires n < |bands|
    ensures ClashesAreExact(slots, court, clock, day, now, bands[..n + 1]) <==>
            && ClashesAreExact(slots, court, clock, day, now, bands[..n])
            && ClashIsExact(slots, court, clock, day, now, bands[n])
  {
    hide ClashIsExact;
    var more, fewer := bands[..n + 1], bands[..n];
    assert more[n] == bands[n];
    assert forall b :: 0 <= b < n ==> more[b] == fewer[b];
  }

  /** How many bands the day offers across the club's courts. */
  function OfferedOnDay(slots: seq<Slot>, courts: seq<CourtRow>, clock: int -> Instant, day: Day, now: Instant): nat
    requires GoodCourts(courts)
  {
    if courts == [] then 0
    else
      var n := |courts| - 1;
      OfferedOnDay(slots, courts[..n], clock, day, now) + |Offers(slots, courts[n], clock, day, now)|
  }

  predicate ExactEverywhere(slots: seq<Slot>, courts: seq<CourtRow>, clock: int -> Instant, day: Day, now: Instant)
    requires GoodCourts(courts)
  {
    forall c :: 0 <= c < |courts| ==>
      ClashesAreExact(slots, courts[c], clock, day, now, BandsForDate(courts[c].schedule, day))
  }

  /**
   * The cheap count is never below what the day really offers, and equals it exactly when every
   * occupied band ahead is occupied by a slot that starts with it.
   */
  lemma {:induction false} CheapCountExactly(slots: seq<Slot>, courts: seq<CourtRow>,
                                             clock: int -> Instant, day: Day, now: Instant)
    requires SoundSlots(slots) && IsClock(clock) && GoodCourts(courts)
    ensures OfferedOnDay(slots, courts, clock, day, now) <= FreeOnDay(slots, courts, clock, day, now)
    ensures OfferedOnDay(slots, courts, clock, day, now) == FreeOnDay(slots, courts, clock, day, now) <==>
            ExactEverywhere(slots, courts, clock, day, now)
  {
    if courts != [] {
      var n := |courts| - 1;
      var bands := BandsForDate(courts[n].schedule, day);
      CheapCountExactly(slots, courts[..n], clock, day, now);
      GridIsGood(courts[n].schedule, day);
      CountBelow(slots, courts[n], clock, day, now, bands, |bands|);
      assert bands[..|bands|] == bands;
      EverywhereStep(slots, courts, clock, day, now);
      hide ExactEverywhere, ClashesAreExact, SoundSlots, FreeStarts, OffersOf, BandsForDate;
    }
  }

  lemma EverywhereStep(slots: seq<Slot>, courts: seq<CourtRow>, clock: int -> Instant, day: Day, now: Instant)
    requires GoodCourts(courts) && courts != []
    ensures var n := |courts| - 1;
            ExactEverywhere(slots, courts, clock, day, now) <==>
            && ExactEverywhere(slots, courts[..n], clock, day, now)
            && ClashesAreExact(slots, courts[n], clock, day, now, BandsForDate(courts[n].schedule, day))
  {
    hide ClashesAreExact, BandsForDate;
    var n := |courts| - 1;
    assert forall c :: 0 <= c < n ==> courts[..n][c] == courts[c];
  }

  /** Occupied slots of the court sit on this day's grid, or touch none of its bands. */
  ghost predicate OnTheGrid(slots: seq<Slot>, court: CourtRow,
                            clock: int -> Instant, day: Day, bands: seq<ScheduleBand>) {
    forall i, b :: 0 <= i < |slots| && 0 <= b < |bands|
                   && Occupies(slots[i], court.clubId, court.id, TimesOf(clock, day, bands[b])) ==>
      exists c :: 0 <= c < |bands| && SitsOn(slots[i], clock, day, bands[c])
  }

  predicate SitsOn(s: Slot, clock: int -> Instant, day: Day, band: ScheduleBand) {
    s.startsAt == TimesOf(clock, day, band).startsAt && s.endsAt == TimesOf(clock, day, band).endsAt
  }

  lemma GridClashIsExact(slots: seq<Slot>, court: CourtRow,
                         clock: int -> Instant, day: Day, now: Instant, bands: seq<ScheduleBand>,
                         i: nat, b: nat)
    requires IsClock(clock) && GoodGrid(bands) && OnTheGrid(slots, court, clock, day, bands) && i < |slots|
             && b < |bands|
    requires Occupies(slots[i], court.clubId, court.id, TimesOf(clock, day, bands[b]))
    ensures slots[i].startsAt == TimesOf(clock, day, bands[b]).startsAt
  {
    var c :| 0 <= c < |bands| && SitsOn(slots[i], clock, day, bands[c]);
    hide IsClock, GoodGrid, OnTheGrid, TimesOf;
    BandsApart(clock, day, bands, b, c);
  }

  /** On the grid the bands are disjoint, so a slot that touches a band is the band. */
  lemma GridClashesAreExact(slots: seq<Slot>, court: CourtRow,
                            clock: int -> Instant, day: Day, now: Instant, bands: seq<ScheduleBand>)
    requires IsClock(clock) && GoodGrid(bands) && OnTheGrid(slots, court, clock, day, bands)
    ensures ClashesAreExact(slots, court, clock, day, now, bands)
  {
    hide IsClock, GoodGrid, OnTheGrid, TimesOf, Occupies;
    forall b | 0 <= b < |bands|
      ensures ClashIsExact(slots, court, clock, day, now, bands[b])
    {
      var t := TimesOf(clock, day, bands[b]);
      if exists i :: 0 <= i < |slots| && Occupies(slots[i], court.clubId, court.id, t) {
        var i :| 0 <= i < |slots| && Occupies(slots[i], court.clubId, court.id, t);
        GridClashIsExact(slots, court, clock, day, now, bands, i, b);
      }
    }
  }

  lemma BandsApart(clock: int -> Instant, day: Day, bands: seq<ScheduleBand>, b: nat, c: nat)
    requires IsClock(clock) && GoodGrid(bands) && b < |bands| && c < |bands|
    ensures var s, t := TimesOf(clock, day, bands[c]), TimesOf(clock, day, bands[b]);
            s.startsAt < t.endsAt && s.endsAt > t.startsAt ==> b == c
  {
    TimesAre(clock, day, bands[b]);
    TimesAre(clock, day, bands[c]);
    if b < c {
      NotAfter(clock, day * MINUTES_A_DAY + BandEndMinutes(bands[b]), day * MINUTES_A_DAY + BandSortMinutes(bands[c]));
    } else if c < b {
      NotAfter(clock, day * MINUTES_A_DAY + BandEndMinutes(bands[c]), day * MINUTES_A_DAY + BandSortMinutes(bands[b]));
    }
  }

  lemma NotAfter(clock: int -> Instant, m: int, n: int)
    requires IsClock(clock) && m <= n
    ensures clock(m) <= clock(n)
  {
  }

  ghost predicate AllOnTheGrid(slots: seq<Slot>, courts: seq<CourtRow>, clock: int -> Instant, day: Day)
    requires GoodCourts(courts)
  {
    forall c :: 0 <= c < |courts| ==> OnTheGrid(slots, courts[c], clock, day, BandsForDate(courts[c].schedule, day))
  }

  /** When occupied slots sit on the day's grid, the cheap count is what the day offers. */
  lemma CheapCountOnTheGrid(slots: seq<Slot>, courts: seq<CourtRow>, clock: int -> Instant, day: Day, now: Instant)
    requires SoundSlots(slots) && IsClock(clock) && GoodCourts(courts) && AllOnTheGrid(slots, courts, clock, day)
    ensures OfferedOnDay(slots, courts, clock, day, now) == FreeOnDay(slots, courts, clock, day, now)
  {
    hide IsClock, SoundSlots, OnTheGrid, ClashesAreExact, GoodGrid, BandsForDate;
    forall c | 0 <= c < |courts|
      ensures ClashesAreExact(slots, courts[c], clock, day, now, BandsForDate(courts[c].schedule, day))
    {
      GridIsGood(courts[c].schedule, day);
      GridClashesAreExact(slots, courts[c], clock, day, now, BandsForDate(courts[c].schedule, day));
    }
    CheapCountExactly(slots, courts, clock, day, now);
  }

  /** A slot blocked half a band off the grid hides a band the cheap count still counts. */
  lemma OffGridSlotOverCounts(court: CourtRow, slot: Slot)
    requires court.schedule == CourtSchedule(DayHours(600, 690), 90, map[])
    requires slot.clubId == court.clubId && slot.courtId == court.id && slot.status.Blocked? && slot.eventId.None?
    requires slot.startsAt == 615 && slot.endsAt == 705
    ensures var clock := (m: int) => m;
            IsClock(clock) && SoundSlots([slot]) && GoodCourts([court])
            && OfferedOnDay([slot], [court], clock, 0, 0) < FreeOnDay([slot], [court], clock, 0, 0)
  {
    var clock := (m: int) => m;
    var bands := BandsForDate(court.schedule, 0);
    var band := BandAt(600, 90);
    assert BandsFrom(600, 690, 90) == [band] + BandsFrom(690, 690, 90) == [band];
    assert bands == [band];
    CheapCountExactly([slot], [court], clock, 0, 0);
    assert Occupies([slot][0], court.clubId, court.id, TimesOf(clock, 0, band));
    assert !ClashIsExact([slot], court, clock, 0, 0, bands[0]);
    assert !ClashesAreExact([slot], court, clock, 0, 0, bands);
    assert !ExactEverywhere([slot], [court], clock, 0, 0) by {
      assert [court][0] == court;
    }
  }
}
