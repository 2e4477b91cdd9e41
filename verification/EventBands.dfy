/**
 * Which turnos an event takes: every band of its courts' grids that overlaps one of its sessions
 * (src/competitions/lib/blocks.ts, src/competitions/competitions.service.ts).
 */
module EventBands {
  import opened Base
  import opened ClubData
  import opened Schedule
  import opened CourtBlocks

  /** A session on a club-local day; an end at or before the start falls on the next day. */
  datatype Session = Session(day: Day, start: MinuteOfDay, end: MinuteOfDay)

  datatype TimeWindow = TimeWindow(startsAt: Instant, endsAt: Instant)

  function SessionWindow(clock: int -> Instant, s: Session): Result<TimeWindow> {
    if s.start == s.end then Err(BadRequest)
    else Ok(TimeWindow(WallTime(clock, s.day, s.start),
                       WallTime(clock, if s.end <= s.start then s.day + 1 else s.day, s.end)))
  }

  predicate Meets(t: BandTimes, w: TimeWindow) {
    t.startsAt < w.endsAt && t.endsAt > w.startsAt
  }

  /** Bands kept so far, keyed by start: a later one with the same start replaces the earlier. */
  function Keep(kept: seq<TimeWindow>, t: BandTimes): seq<TimeWindow> {
    if kept == [] then [TimeWindow(t.startsAt, t.endsAt)]
    else
      var n := |kept| - 1;
      if kept[n].startsAt == t.startsAt then kept[..n] + [TimeWindow(t.startsAt, t.endsAt)]
      else Keep(kept[..n], t) + [kept[n]]
  }

  function KeepBands(kept: seq<TimeWindow>,
                     clock: int -> Instant, day: Day, bands: seq<ScheduleBand>, w: TimeWindow): seq<TimeWindow> {
    if bands == [] then kept
    else
      var n := |bands| - 1;
      var before := KeepBands(kept, clock, day, bands[..n], w);
      var t := TimesOf(clock, day, bands[n]);
      if Meets(t, w) then Keep(before, t) else before
  }

  predicate StartsNoLater(x: TimeWindow, y: TimeWindow) {
    x.startsAt <= y.startsAt
  }

  /** Looks at the grids of the window's day, the one before and the one after. */
  function BandsOverlapping(court: CourtSchedule, clock: int -> Instant, day: Day, w: TimeWindow): seq<TimeWindow>
    requires court.slotDurationMinutes > 0
  {
    var first := KeepBands([], clock, day - 1, BandsForDate(court, day - 1), w);
    var second := KeepBands(first, clock, day, BandsForDate(court, day), w);
    SortBy(KeepBands(second, clock, day + 1, BandsForDate(court, day + 1), w), StartsNoLater)
  }

  method KeepOverlapping(before: seq<TimeWindow>, court: CourtSchedule,
                         clock: int -> Instant, day: Day, w: TimeWindow) returns (kept: seq<TimeWindow>)
    requires court.slotDurationMinutes > 0
    ensures kept == KeepBands(before, clock, day, BandsForDate(court, day), w)
  {
    kept := before;
    var bands := BandsForDate(court, day);
    for i := 0 to |bands|
      invariant kept == KeepBands(before, clock, day, bands[..i], w)
    {
      assert bands[..i + 1][..i] == bands[..i];
      var t := TimesOf(clock, day, bands[i]);
      if t.startsAt < w.endsAt && t.endsAt > w.startsAt {
        kept := Keep(kept, t);
      }
    }
    assert bands[..|bands|] == bands;
  }

  method FindBandsOverlapping(court: CourtSchedule,
                              clock: int -> Instant, day: Day, w: TimeWindow) returns (bands: seq<TimeWindow>)
    requires court.slotDurationMinutes > 0
    ensures bands == BandsOverlapping(court, clock, day, w)
  {
    bands := [];
    bands := KeepOverlapping(bands, court, clock, day - 1, w);
    bands := KeepOverlapping(bands, court, clock, day, w);
    bands := KeepOverlapping(bands, court, clock, day + 1, w);
    bands := SortBy(bands, StartsNoLater);
  }

  // ── Nothing missed, nothing twice ───────────────────────────────────────────

  predicate HasStart(kept: seq<TimeWindow>, startsAt: Instant) {
    exists i :: 0 <= i < |kept| && kept[i].startsAt == startsAt
  }

  /** Distinct starts, and every window kept is one that meets `w`. */
  ghost predicate GoodKept(kept: seq<TimeWindow>, w: TimeWindow) {
    && (forall i, j :: 0 <= i < j < |kept| ==> kept[i].startsAt != kept[j].startsAt)
    && (forall i :: 0 <= i < |kept| ==>
          kept[i].startsAt < kept[i].endsAt && kept[i].startsAt < w.endsAt && kept[i].endsAt > w.startsAt)
  }

  lemma {:induction false} KeepStarts(kept: seq<TimeWindow>, t: BandTimes, start: Instant)
    ensures HasStart(Keep(kept, t), start) <==> HasStart(kept, start) || start == t.startsAt
  {
    var after := Keep(kept, t);
    if kept == [] {
      assert after[0].startsAt == t.startsAt;
    } else {
      var n := |kept| - 1;
      KeepStarts(kept[..n], t, start);
      StartsAppend(kept[..n], kept[n], start);
      assert kept == kept[..n] + [kept[n]];
      if kept[n].startsAt == t.startsAt {
        StartsAppend(kept[..n], TimeWindow(t.startsAt, t.endsAt), start);
      } else {
        StartsAppend(Keep(kept[..n], t), kept[n], start);
      }
    }
  }

  lemma StartsAppend(kept: seq<TimeWindow>, x: TimeWindow, start: Instant)
    ensures HasStart(kept + [x], start) <==> HasStart(kept, start) || x.startsAt == start
  {
    var more := kept + [x];
    if HasStart(kept, start) {
      var i :| 0 <= i < |kept| && kept[i].startsAt == start;
      assert more[i].startsAt == start;
    }
    assert more[|kept|] == x;
  }

  lemma {:induction false} KeepGood(kept: seq<TimeWindow>, t: BandTimes, w: TimeWindow)
    requires GoodKept(kept, w) && t.startsAt < t.endsAt && Meets(t, w)
    ensures GoodKept(Keep(kept, t), w)
  {
    if kept != [] {
      var n := |kept| - 1;
      if kept[n].startsAt != t.startsAt {
        KeepGood(kept[..n], t, w);
        var front := Keep(kept[..n], t);
        forall i | 0 <= i < |front|
          ensures front[i].startsAt != kept[n].startsAt
        {
          KeepStarts(kept[..n], t, front[i].startsAt);
          assert HasStart(front, front[i].startsAt);
          if HasStart(kept[..n], front[i].startsAt) {
            var j :| 0 <= j < n && kept[..n][j].startsAt == front[i].startsAt;
          }
        }
      }
    }
  }

  lemma {:induction false} KeepBandsLaw(kept: seq<TimeWindow>, clock: int -> Instant, day: Day,
                                        bands: seq<ScheduleBand>, n: nat, w: TimeWindow)
    requires IsClock(clock) && GoodGrid(bands) && n <= |bands| && GoodKept(kept, w)
    ensures GoodKept(KeepBands(kept, clock, day, bands[..n], w), w)
    ensures forall start :: HasStart(kept, start) ==> HasStart(KeepBands(kept, clock, day, bands[..n], w), start)
    ensures forall i: nat :: i < n && Meets(TimesOf(clock, day, bands[i]), w) ==>
              HasStart(KeepBands(kept, clock, day, bands[..n], w), TimesOf(clock, day, bands[i]).startsAt)
  {
    hide Meets, TimesOf, GoodGrid, IsClock, GoodKept, Keep, HasStart;
    if n == 0 {
      assert KeepBands(kept, clock, day, bands[..0], w) == kept;
    } else {
      KeepBandsLaw(kept, clock, day, bands, n - 1, w);
      KeepBandsStep(kept, clock, day, bands, n - 1, w);
      var before := KeepBands(kept, clock, day, bands[..n - 1], w);
      var t := TimesOf(clock, day, bands[n - 1]);
      if Meets(t, w) {
        BandIsReal(clock, day, bands, n - 1);
        KeepGood(before, t, w);
        forall start {
          KeepStarts(before, t, start);
        }
      }
    }
  }

  lemma BandIsReal(clock: int -> Instant, day: Day, bands: seq<ScheduleBand>, i: nat)
    requires IsClock(clock) && GoodGrid(bands) && i < |bands|
    ensures TimesOf(clock, day, bands[i]).startsAt < TimesOf(clock, day, bands[i]).endsAt
  {
    TimesAre(clock, day, bands[i]);
  }

  lemma KeepBandsStep(kept: seq<TimeWindow>,
                      clock: int -> Instant, day: Day, bands: seq<ScheduleBand>, i: nat, w: TimeWindow)
    requires i < |bands|
    ensures var before, t := KeepBands(kept, clock, day, bands[..i], w), TimesOf(clock, day, bands[i]);
            KeepBands(kept, clock, day, bands[..i + 1], w) == if Meets(t, w) then Keep(before, t) else before
  {
    hide Keep, TimesOf, Meets;
    assert bands[..i + 1][..i] == bands[..i];
  }

  /** What three days of grids leave: every meeting band of each of them, each start once. */
  lemma ThreeDays(court: CourtSchedule, clock: int -> Instant, day: Day, w: TimeWindow, d: Day, i: nat)
    requires court.slotDurationMinutes > 0 && IsClock(clock) && day - 1 <= d <= day + 1 && i < |BandsForDate(court, d)|
    ensures Meets(TimesOf(clock, d, BandsForDate(court, d)[i]), w) ==>
              HasStart(BandsOverlapping(court, clock, day, w), TimesOf(clock, d, BandsForDate(court, d)[i]).startsAt)
  {
    hide Meets, TimesOf, GoodGrid, IsClock, GoodKept, KeepBands, HasStart, BandsForDate;
    NothingKept(w);
    var b0, b1, b2 := BandsForDate(court, day - 1), BandsForDate(court, day), BandsForDate(court, day + 1);
    GridIsGood(court, day - 1);
    GridIsGood(court, day);
    GridIsGood(court, day + 1);
    assert b0[..|b0|] == b0 && b1[..|b1|] == b1 && b2[..|b2|] == b2;
    KeepBandsLaw([], clock, day - 1, b0, |b0|, w);
    var first := KeepBands([], clock, day - 1, b0, w);
    KeepBandsLaw(first, clock, day, b1, |b1|, w);
    var second := KeepBands(first, clock, day, b1, w);
    KeepBandsLaw(second, clock, day + 1, b2, |b2|, w);
    var third := KeepBands(second, clock, day + 1, b2, w);
    var start := TimesOf(clock, d, BandsForDate(court, d)[i]).startsAt;
    SortedKeeps(third, w, start);
  }

  lemma NothingKept(w: TimeWindow)
    ensures GoodKept([], w)
  {
  }

  lemma SortedKeeps(kept: seq<TimeWindow>, w: TimeWindow, start: Instant)
    requires GoodKept(kept, w)
    ensures GoodKept(SortBy(kept, StartsNoLater), w)
    ensures HasStart(kept, start) ==> HasStart(SortBy(kept, StartsNoLater), start)
  {
    var sorted := SortBy(kept, StartsNoLater);
    SortBySound(kept, StartsNoLater);
    forall x
      ensures x in kept <==> x in sorted
    {
      assert x in multiset(kept) <==> x in multiset(sorted);
    }
    if HasStart(kept, start) {
      var i :| 0 <= i < |kept| && kept[i].startsAt == start;
      assert kept[i] in sorted;
      var j :| 0 <= j < |sorted| && sorted[j] == kept[i];
    }
    DistinctSorted(kept, sorted, w);
  }

  lemma DistinctSorted(kept: seq<TimeWindow>, sorted: seq<TimeWindow>, w: TimeWindow)
    requires GoodKept(kept, w) && multiset(sorted) == multiset(kept) && forall x :: x in kept <==> x in sorted
    ensures GoodKept(sorted, w)
  {
    PermutedNoRepeats(kept, sorted);
    forall i | 0 <= i < |sorted|
      ensures sorted[i].startsAt < sorted[i].endsAt && sorted[i].startsAt < w.endsAt && sorted[i].endsAt > w.startsAt
    {
      assert sorted[i] in kept;
    }
    forall i, j | 0 <= i < j < |sorted|
      ensures sorted[i].startsAt != sorted[j].startsAt
    {
      assert sorted[i] in kept && sorted[j] in kept && sorted[i] != sorted[j];
    }
  }

  /**
   * Three days of grids are enough: a band of any day's grid that overlaps a session is among the
   * bands found for it.
   */
  lemma NoBandMissed(court: CourtSchedule, clock: int -> Instant, s: Session, d: Day, i: nat)
    requires court.slotDurationMinutes > 0 && IsClock(clock) && SessionWindow(clock, s).Ok?
             && i < |BandsForDate(court, d)|
    requires Meets(TimesOf(clock, d, BandsForDate(court, d)[i]), SessionWindow(clock, s).value)
    ensures HasStart(BandsOverlapping(court, clock, s.day, SessionWindow(clock, s).value),
                     TimesOf(clock, d, BandsForDate(court, d)[i]).startsAt)
  {
    var w := SessionWindow(clock, s).value;
    OnlyNearbyDays(court, clock, s, d, i);
    hide Meets, TimesOf, IsClock, BandsForDate, HasStart, BandsOverlapping, SessionWindow;
    ThreeDays(court, clock, s.day, w, d, i);
  }

  lemma OnlyNearbyDays(court: CourtSchedule, clock: int -> Instant, s: Session, d: Day, i: nat)
    requires court.slotDurationMinutes > 0 && IsClock(clock) && SessionWindow(clock, s).Ok?
             && i < |BandsForDate(court, d)|
    requires Meets(TimesOf(clock, d, BandsForDate(court, d)[i]), SessionWindow(clock, s).value)
    ensures s.day - 1 <= d <= s.day + 1
  {
    var band := BandsForDate(court, d)[i];
    TimesAre(clock, d, band);
    var hours := HoursForWeekday(court, Weekday(d));
    BandsInside(hours.value.open, ClosingMinute(hours.value), court.slotDurationMinutes, i);
    assert BandEndMinutes(band) < 2 * MINUTES_A_DAY;
    var endDay := if s.end <= s.start then s.day + 1 else s.day;
    if d < s.day - 1 {
      LaterMinute(clock, d * MINUTES_A_DAY + BandEndMinutes(band), s.day * MINUTES_A_DAY + s.start);
    }
    if d > s.day + 1 {
      LaterMinute(clock, endDay * MINUTES_A_DAY + s.end, d * MINUTES_A_DAY + BandSortMinutes(band));
    }
  }

  lemma LaterMinute(clock: int -> Instant, m: int, n: int)
    requires IsClock(clock) && m <= n
    ensures clock(m) <= clock(n)
  {
  }

  // ── Nothing more ────────────────────────────────────────────────────────────

  /** The window is that of a band of the day's grid which meets `w`. */
  predicate IsMeetingBand(x: TimeWindow, court: CourtSchedule, clock: int -> Instant, d: Day, w: TimeWindow)
    requires court.slotDurationMinutes > 0
  {
    exists i :: 0 <= i < |BandsForDate(court, d)| && Meets(TimesOf(clock, d, BandsForDate(court, d)[i]), w)
                && x == WindowOf(TimesOf(clock, d, BandsForDate(court, d)[i]))
  }

  function WindowOf(t: BandTimes): TimeWindow {
    TimeWindow(t.startsAt, t.endsAt)
  }

  lemma {:induction false} KeepHolds(kept: seq<TimeWindow>, t: BandTimes, x: TimeWindow)
    ensures x in Keep(kept, t) ==> x in kept || x == WindowOf(t)
  {
    if kept != [] && kept[|kept| - 1].startsAt != t.startsAt {
      KeepHolds(kept[..|kept| - 1], t, x);
    }
  }

  lemma {:induction false} KeptFrom(kept: seq<TimeWindow>, court: CourtSchedule,
                                    clock: int -> Instant, day: Day, n: nat, w: TimeWindow, x: TimeWindow)
    requires court.slotDurationMinutes > 0 && n <= |BandsForDate(court, day)|
    requires x in KeepBands(kept, clock, day, BandsForDate(court, day)[..n], w)
    ensures x in kept || IsMeetingBand(x, court, clock, day, w)
  {
    hide Meets, TimesOf, Keep, BandsForDate;
    var bands := BandsForDate(court, day);
    if n > 0 {
      KeepBandsStep(kept, clock, day, bands, n - 1, w);
      var before, t := KeepBands(kept, clock, day, bands[..n - 1], w), TimesOf(clock, day, bands[n - 1]);
      KeepHolds(before, t, x);
      if x in before {
        KeptFrom(kept, court, clock, day, n - 1, w, x);
      }
    }
  }

  /** Whatever is found is a band of one of the three grids, and meets the window. */
  lemma OnlyMeetingBands(court: CourtSchedule, clock: int -> Instant, day: Day, w: TimeWindow, x: TimeWindow)
    requires court.slotDurationMinutes > 0 && x in BandsOverlapping(court, clock, day, w)
    ensures exists d :: day - 1 <= d <= day + 1 && IsMeetingBand(x, court, clock, d, w)
  {
    hide Meets, TimesOf, KeepBands, BandsForDate, IsMeetingBand;
    var b0, b1, b2 := BandsForDate(court, day - 1), BandsForDate(court, day), BandsForDate(court, day + 1);
    assert b0[..|b0|] == b0 && b1[..|b1|] == b1 && b2[..|b2|] == b2;
    var first := KeepBands([], clock, day - 1, b0, w);
    var second := KeepBands(first, clock, day, b1, w);
    var third := KeepBands(second, clock, day + 1, b2, w);
    SortByContents(third, StartsNoLater);
    assert x in multiset(third);
    KeptFrom(second, court, clock, day + 1, |b2|, w, x);
    if x in second {
      KeptFrom(first, court, clock, day, |b1|, w, x);
      if x in first {
        KeptFrom([], court, clock, day - 1, |b0|, w, x);
      }
    }
  }

  // ── Targets ─────────────────────────────────────────────────────────────────

  datatype EventCourt = EventCourt(id: CourtId, schedule: CourtSchedule, priceCents: nat)

  /** One target per court and start: a later one replaces the earlier. */
  function PutTarget(targets: seq<Target>, t: Target): seq<Target> {
    if targets == [] then [t]
    else
      var n := |targets| - 1;
      if SameKey(targets[n], t) then targets[..n] + [t] else PutTarget(targets[..n], t) + [targets[n]]
  }

  predicate HasTarget(targets: seq<Target>, courtId: CourtId, startsAt: Instant) {
    exists k :: 0 <= k < |targets| && targets[k].courtId == courtId && targets[k].startsAt == startsAt
  }

  lemma TargetAppend(targets: seq<Target>, x: Target, courtId: CourtId, startsAt: Instant)
    ensures HasTarget(targets + [x], courtId, startsAt) <==>
            HasTarget(targets, courtId, startsAt) || (x.courtId == courtId && x.startsAt == startsAt)
  {
    var more := targets + [x];
    if HasTarget(targets, courtId, startsAt) {
      var k :| 0 <= k < |targets| && targets[k].courtId == courtId && targets[k].startsAt == startsAt;
      assert more[k] == targets[k];
    }
    assert more[|targets|] == x;
  }

  lemma {:induction false} PutHas(targets: seq<Target>, t: Target, courtId: CourtId, startsAt: Instant)
    ensures HasTarget(PutTarget(targets, t), courtId, startsAt) <==>
            HasTarget(targets, courtId, startsAt) || (t.courtId == courtId && t.startsAt == startsAt)
  {
    if targets == [] {
      assert PutTarget(targets, t)[0] == t;
    } else {
      var n := |targets| - 1;
      PutHas(targets[..n], t, courtId, startsAt);
      TargetAppend(targets[..n], targets[n], courtId, startsAt);
      assert targets == targets[..n] + [targets[n]];
      if SameKey(targets[n], t) {
        TargetAppend(targets[..n], t, courtId, startsAt);
      } else {
        TargetAppend(PutTarget(targets[..n], t), targets[n], courtId, startsAt);
      }
    }
  }

  lemma {:induction false} PutHolds(targets: seq<Target>, t: Target, x: Target)
    ensures x in PutTarget(targets, t) ==> x in targets || x == t
  {
    if targets != [] && !SameKey(targets[|targets| - 1], t) {
      PutHolds(targets[..|targets| - 1], t, x);
    }
  }

  lemma {:induction false} PutGood(targets: seq<Target>, t: Target)
    requires GoodTargets(targets) && t.startsAt < t.endsAt
    ensures GoodTargets(PutTarget(targets, t))
  {
    if targets != [] {
      var n := |targets| - 1;
      if !SameKey(targets[n], t) {
        PutGood(targets[..n], t);
        var front := PutTarget(targets[..n], t);
        forall k | 0 <= k < |front|
          ensures !SameKey(front[k], targets[n])
        {
          PutHas(targets[..n], t, front[k].courtId, front[k].startsAt);
          assert HasTarget(front, front[k].courtId, front[k].startsAt);
          if HasTarget(targets[..n], front[k].courtId, front[k].startsAt) {
            var j :| 0 <= j < n && targets[..n][j].courtId == front[k].courtId
                     && targets[..n][j].startsAt == front[k].startsAt;
            assert !SameKey(targets[j], targets[n]);
          }
        }
      }
    }
  }

  ghost predicate AllSessionsValid(clock: int -> Instant, sessions: seq<Session>) {
    forall s :: 0 <= s < |sessions| ==> SessionWindow(clock, sessions[s]).Ok?
  }

  predicate GoodEventCourts(courts: seq<EventCourt>) {
    forall c :: 0 <= c < |courts| ==> courts[c].schedule.slotDurationMinutes > 0
  }

  /** Every band of the court's grids that overlaps the session is a target. */
  ghost predicate Covers(targets: seq<Target>, court: EventCourt, clock: int -> Instant, s: Session)
    requires court.schedule.slotDurationMinutes > 0 && SessionWindow(clock, s).Ok?
  {
    forall d: Day, i: nat {:trigger BandStart(court, clock, d, i)} ::
      IsBand(court, d, i) && BandMeets(court, clock, d, i, SessionWindow(clock, s).value) ==>
      HasTarget(targets, court.id, BandStart(court, clock, d, i))
  }

  predicate IsBand(court: EventCourt, d: Day, i: nat)
    requires court.schedule.slotDurationMinutes > 0
  {
    i < |BandsForDate(court.schedule, d)|
  }

  function BandStart(court: EventCourt, clock: int -> Instant, d: Day, i: nat): Instant
    requires court.schedule.slotDurationMinutes > 0
  {
    if IsBand(court, d, i) then TimesOf(clock, d, BandsForDate(court.schedule, d)[i]).startsAt else 0
  }

  predicate BandMeets(court: EventCourt, clock: int -> Instant, d: Day, i: nat, w: TimeWindow)
    requires court.schedule.slotDurationMinutes > 0 && IsBand(court, d, i)
  {
    Meets(TimesOf(clock, d, BandsForDate(court.schedule, d)[i]), w)
  }

  /** The target is a band of the court's grids, at the court's price, that overlaps the session. */
  ghost predicate IsTaken(t: Target, court: EventCourt, clock: int -> Instant, s: Session)
    requires court.schedule.slotDurationMinutes > 0 && SessionWindow(clock, s).Ok?
  {
    && t.courtId == court.id && t.priceCents == court.priceCents
    && exists d :: s.day - 1 <= d <= s.day + 1 &&
         IsMeetingBand(TimeWindow(t.startsAt, t.endsAt), court.schedule, clock, d, SessionWindow(clock, s).value)
  }

  /** One of the sessions takes the target from one of the courts. */
  ghost predicate IsTakenBySome(t: Target, courts: seq<EventCourt>, clock: int -> Instant, sessions: seq<Session>)
    requires GoodEventCourts(courts) && AllSessionsValid(clock, sessions)
  {
    exists c, s :: 0 <= c < |courts| && 0 <= s < |sessions| && IsTaken(t, courts[c], clock, sessions[s])
  }

  lemma FoundIsTaken(court: EventCourt, clock: int -> Instant, s: Session, x: TimeWindow)
    requires court.schedule.slotDurationMinutes > 0 && SessionWindow(clock, s).Ok?
    requires x in BandsOverlapping(court.schedule, clock, s.day, SessionWindow(clock, s).value)
    ensures IsTaken(Target(court.id, x.startsAt, x.endsAt, court.priceCents), court, clock, s)
  {
    hide IsMeetingBand, BandsOverlapping, SessionWindow;
    OnlyMeetingBands(court.schedule, clock, s.day, SessionWindow(clock, s).value, x);
    assert x == TimeWindow(x.startsAt, x.endsAt);
  }

  lemma FoundBandsCover(court: EventCourt, clock: int -> Instant, s: Session, targets: seq<Target>)
    requires court.schedule.slotDurationMinutes > 0 && IsClock(clock) && SessionWindow(clock, s).Ok?
    requires var bands := BandsOverlapping(court.schedule, clock, s.day, SessionWindow(clock, s).value);
             forall b :: 0 <= b < |bands| ==> HasTarget(targets, court.id, bands[b].startsAt)
    ensures Covers(targets, court, clock, s)
  {
    hide BandsOverlapping, Meets, IsClock, SessionWindow, HasTarget, BandsForDate, TimesOf;
    forall d: Day, i: nat | IsBand(court, d, i) && BandMeets(court, clock, d, i, SessionWindow(clock, s).value)
      ensures HasTarget(targets, court.id, BandStart(court, clock, d, i))
    {
      NoBandMissed(court.schedule, clock, s, d, i);
      var bands := BandsOverlapping(court.schedule, clock, s.day, SessionWindow(clock, s).value);
      var b :| 0 <= b < |bands| && bands[b].startsAt == BandStart(court, clock, d, i);
    }
  }

  /** Adding targets keeps what was covered. */
  lemma CoversMore(targets: seq<Target>, more: seq<Target>, court: EventCourt, clock: int -> Instant, s: Session)
    requires court.schedule.slotDurationMinutes > 0 && SessionWindow(clock, s).Ok? && Covers(targets, court, clock, s)
    requires forall courtId, startsAt :: HasTarget(targets, courtId, startsAt) ==> HasTarget(more, courtId, startsAt)
    ensures Covers(more, court, clock, s)
  {
    hide HasTarget, BandStart, IsBand, BandMeets;
  }

  method AddBands(before: seq<Target>, court: EventCourt,
                  clock: int -> Instant, s: Session) returns (targets: seq<Target>)
    requires court.schedule.slotDurationMinutes > 0 && IsClock(clock) && SessionWindow(clock, s).Ok?
             && GoodTargets(before)
    ensures GoodTargets(targets) && Covers(targets, court, clock, s)
    ensures forall courtId, startsAt :: HasTarget(before, courtId, startsAt) ==> HasTarget(targets, courtId, startsAt)
    ensures forall x :: x in targets ==> x in before || IsTaken(x, court, clock, s)
  {
    hide BandsOverlapping, GoodTargets, IsClock, SessionWindow, HasTarget, PutTarget, Covers, IsTaken;
    var w := SessionWindow(clock, s).value;
    var bands := FindBandsOverlapping(court.schedule, clock, s.day, w);
    BandsAreGood(court.schedule, clock, s.day, w);
    targets := before;
    for b := 0 to |bands|
      invariant GoodTargets(targets)
      invariant forall courtId, startsAt :: HasTarget(before, courtId, startsAt) ==>
                  HasTarget(targets, courtId, startsAt)
      invariant forall c :: 0 <= c < b ==> HasTarget(targets, court.id, bands[c].startsAt)
      invariant forall x :: x in targets ==> x in before || IsTaken(x, court, clock, s)
    {
      var t := Target(court.id, bands[b].startsAt, bands[b].endsAt, court.priceCents);
      PutGood(targets, t);
      FoundIsTaken(court, clock, s, bands[b]);
      forall x {
        PutHolds(targets, t, x);
      }
      forall courtId, startsAt {
        PutHas(targets, t, courtId, startsAt);
      }
      targets := PutTarget(targets, t);
    }
    FoundBandsCover(court, clock, s, targets);
  }

  lemma BandsAreGood(court: CourtSchedule, clock: int -> Instant, day: Day, w: TimeWindow)
    requires court.slotDurationMinutes > 0 && IsClock(clock)
    ensures var bands := BandsOverlapping(court, clock, day, w); forall b :: 0 <= b < |bands| ==>
              bands[b].startsAt < bands[b].endsAt
  {
    var bands := BandsOverlapping(court, clock, day, w);
    assert GoodKept(bands, w) by {
      KeptIsGood(court, clock, day, w);
    }
  }

  lemma KeptIsGood(court: CourtSchedule, clock: int -> Instant, day: Day, w: TimeWindow)
    requires court.slotDurationMinutes > 0 && IsClock(clock)
    ensures GoodKept(BandsOverlapping(court, clock, day, w), w)
  {
    hide Meets, TimesOf, GoodGrid, IsClock, GoodKept, KeepBands, HasStart, BandsForDate;
    NothingKept(w);
    var b0, b1, b2 := BandsForDate(court, day - 1), BandsForDate(court, day), BandsForDate(court, day + 1);
    GridIsGood(court, day - 1);
    GridIsGood(court, day);
    GridIsGood(court, day + 1);
    assert b0[..|b0|] == b0 && b1[..|b1|] == b1 && b2[..|b2|] == b2;
    KeepBandsLaw([], clock, day - 1, b0, |b0|, w);
    var first := KeepBands([], clock, day - 1, b0, w);
    KeepBandsLaw(first, clock, day, b1, |b1|, w);
    var second := KeepBands(first, clock, day, b1, w);
    KeepBandsLaw(second, clock, day + 1, b2, |b2|, w);
    SortedKeeps(KeepBands(second, clock, day + 1, b2, w), w, 0);
  }

  ghost predicate CoversSessions(targets: seq<Target>, court: EventCourt,
                                 clock: int -> Instant, sessions: seq<Session>, n: nat)
    requires court.schedule.slotDurationMinutes > 0 && AllSessionsValid(clock, sessions) && n <= |sessions|
  {
    forall s :: 0 <= s < n ==> Covers(targets, court, clock, sessions[s])
  }

  /** The targets of an event: distinct court starts, and exactly the bands that any session takes from any court. */
  method EventTargets(courts: seq<EventCourt>, sessions: seq<Session>,
                      clock: int -> Instant) returns (targets: seq<Target>)
    requires GoodEventCourts(courts) && IsClock(clock) && AllSessionsValid(clock, sessions)
    ensures GoodTargets(targets)
    ensures forall c :: 0 <= c < |courts| ==> CoversSessions(targets, courts[c], clock, sessions, |sessions|)
    ensures forall x :: x in targets ==> IsTakenBySome(x, courts, clock, sessions)
  {
    hide GoodTargets, IsClock, SessionWindow, HasTarget, Covers, IsTaken;
    targets := [];
    NoTargetsGood();
    for c := 0 to |courts|
      invariant GoodTargets(targets)
      invariant forall d :: 0 <= d < c ==> CoversSessions(targets, courts[d], clock, sessions, |sessions|)
      invariant forall x :: x in targets ==> IsTakenBySome(x, courts, clock, sessions)
    {
      for s := 0 to |sessions|
        invariant GoodTargets(targets)
        invariant forall d :: 0 <= d < c ==> CoversSessions(targets, courts[d], clock, sessions, |sessions|)
        invariant CoversSessions(targets, courts[c], clock, sessions, s)
        invariant forall x :: x in targets ==> IsTakenBySome(x, courts, clock, sessions)
      {
        var more := AddBands(targets, courts[c], clock, sessions[s]);
        forall d, u | 0 <= d < |courts| && 0 <= u < |sessions| && Covers(targets, courts[d], clock, sessions[u])
          ensures Covers(more, courts[d], clock, sessions[u])
        {
          CoversMore(targets, more, courts[d], clock, sessions[u]);
        }
        targets := more;
      }
    }
  }

  lemma NoTargetsGood()
    ensures GoodTargets([])
  {
  }
}
