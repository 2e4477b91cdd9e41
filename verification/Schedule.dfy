/**
 * A court's grid: opening hours, the bands they give, and when those bands are
 * (src/availability/lib/schedule.ts, src/availability/lib/pricing.ts). Times of day are minutes,
 * club-local days are day numbers, and the club's time zone is an increasing function from
 * absolute wall-clock minutes to instants.
 */
module Schedule {
  import opened Base

  type Instant = int

  /** Days since 1970-01-01, which was a Thursday (4). */
  type Day = int

  const MINUTES_A_DAY := 1440

  function Weekday(d: Day): (w: nat)
    ensures w < 7
  {
    (d + 4) % 7
  }

  type MinuteOfDay = m: int | 0 <= m < 1440

  /** A band as the grid shows it: wall-clock edges, and how many days past the grid's day they fall. */
  datatype ScheduleBand = ScheduleBand(start: MinuteOfDay, end: MinuteOfDay, startOffset: nat, endOffset: nat)

  datatype DayHours = DayHours(open: MinuteOfDay, close: MinuteOfDay)

  /** A missing weekday falls back to the default hours; an explicit None closes that day. */
  datatype CourtSchedule = CourtSchedule(hours: DayHours, slotDurationMinutes: nat, weekly: map<nat, Option<DayHours>>)

  function HoursForWeekday(court: CourtSchedule, weekday: nat): Option<DayHours> {
    if weekday in court.weekly then court.weekly[weekday] else Some(court.hours)
  }

  /** Closing at or before the opening time means past midnight. */
  function ClosingMinute(hours: DayHours): nat {
    if hours.close <= hours.open then hours.close + MINUTES_A_DAY else hours.close
  }

  /** The band from minute `cursor` of the grid day. */
  function BandAt(cursor: nat, duration: nat): ScheduleBand {
    ScheduleBand(cursor % MINUTES_A_DAY, (cursor + duration) % MINUTES_A_DAY, cursor / MINUTES_A_DAY,
                 (cursor + duration) / MINUTES_A_DAY)
  }

  function BandsFrom(cursor: nat, close: nat, duration: nat): seq<ScheduleBand>
    requires duration > 0
    decreases close - cursor
  {
    if cursor + duration > close then [] else [BandAt(cursor, duration)] + BandsFrom(cursor + duration, close, duration)
  }

  method GenerateBands(open: MinuteOfDay, closeTime: MinuteOfDay, duration: nat) returns (bands: seq<ScheduleBand>)
    requires duration > 0
    ensures bands == BandsFrom(open, ClosingMinute(DayHours(open, closeTime)), duration)
  {
    var close: int := closeTime;
    if close <= open {
      close := close + 1440;
    }
    bands := [];
    var cursor: int := open;
    while cursor + duration <= close
      invariant open <= cursor && close == ClosingMinute(DayHours(open, closeTime))
      invariant bands + BandsFrom(cursor, close, duration) == BandsFrom(open, close, duration)
      decreases close - cursor
    {
      var next := cursor + duration;
      assert bands + BandsFrom(cursor, close, duration) == bands + [BandAt(cursor, duration)] +
             BandsFrom(next, close, duration);
      bands := bands + [ScheduleBand(cursor % 1440, next % 1440, cursor / 1440, next / 1440)];
      cursor := next;
    }
  }

  /** Minutes from the grid day's midnight to the band's start and end. */
  function BandSortMinutes(band: ScheduleBand): nat {
    band.startOffset * MINUTES_A_DAY + band.start
  }

  function BandEndMinutes(band: ScheduleBand): nat {
    band.endOffset * MINUTES_A_DAY + band.end
  }

  /** Closed on days without hours. */
  function BandsForWeekday(court: CourtSchedule, weekday: nat): seq<ScheduleBand>
    requires court.slotDurationMinutes > 0
  {
    var hours := HoursForWeekday(court, weekday);
    if hours.None? then [] else BandsFrom(hours.value.open, ClosingMinute(hours.value), court.slotDurationMinutes)
  }

  function BandsForDate(court: CourtSchedule, day: Day): seq<ScheduleBand>
    requires court.slotDurationMinutes > 0
  {
    BandsForWeekday(court, Weekday(day))
  }

  /** Bands one after another: each starts where the last one ended, none is cut short, none is left out. */
  lemma {:induction false} BandsTile(cursor: nat, close: nat, duration: nat)
    requires duration > 0
    ensures var bands := BandsFrom(cursor, close, duration);
      && (forall i :: 0 <= i < |bands| ==> BandEndMinutes(bands[i]) == BandSortMinutes(bands[i]) + duration)
      && (forall i :: 0 <= i < |bands| - 1 ==> BandSortMinutes(bands[i + 1]) == BandEndMinutes(bands[i]))
      && (bands != [] ==> BandSortMinutes(bands[0]) == cursor && BandEndMinutes(bands[|bands| - 1]) <= close)
      && close < (if bands == [] then cursor else BandEndMinutes(bands[|bands| - 1])) + duration
    decreases close - cursor
  {
    if cursor + duration <= close {
      BandsTile(cursor + duration, close, duration);
      var rest := BandsFrom(cursor + duration, close, duration);
      var bands := BandsFrom(cursor, close, duration);
      assert forall i :: 1 <= i < |bands| ==> bands[i] == rest[i - 1];
      assert BandSortMinutes(bands[0]) == cursor && BandEndMinutes(bands[0]) == cursor + duration;
    }
  }

  /** Later bands start no earlier than earlier ones end. */
  lemma {:induction false} BandsInOrder(cursor: nat, close: nat, duration: nat, i: nat, j: nat)
    requires duration > 0 && i < j < |BandsFrom(cursor, close, duration)|
    ensures var bands := BandsFrom(cursor, close, duration);
            BandEndMinutes(bands[i]) <= BandSortMinutes(bands[j])
  {
    BandsTile(cursor, close, duration);
    if i + 1 < j {
      BandsInOrder(cursor, close, duration, i, j - 1);
    }
  }

  lemma BandsInside(cursor: nat, close: nat, duration: nat, i: nat)
    requires duration > 0 && i < |BandsFrom(cursor, close, duration)|
    ensures var bands := BandsFrom(cursor, close, duration);
            cursor <= BandSortMinutes(bands[i]) < BandEndMinutes(bands[i]) <= close
  {
    BandsTile(cursor, close, duration);
    var bands := BandsFrom(cursor, close, duration);
    if 0 < i {
      BandsInOrder(cursor, close, duration, 0, i);
    }
    if i < |bands| - 1 {
      BandsInOrder(cursor, close, duration, i, |bands| - 1);
    }
  }

  /** What the grid of a court promises on any weekday. */
  ghost predicate GoodGrid(bands: seq<ScheduleBand>) {
    && (forall i :: 0 <= i < |bands| ==>
          BandSortMinutes(bands[i]) < BandEndMinutes(bands[i]) && BandSortMinutes(bands[i]) < 2 * MINUTES_A_DAY)
    && (forall i, j :: 0 <= i < j < |bands| ==>
          BandEndMinutes(bands[i]) <= BandSortMinutes(bands[j]) && bands[i].start != bands[j].start)
  }

  /** The bands of a court-day are disjoint, in order, and no two show the same wall-clock start. */
  lemma GridIsGood(court: CourtSchedule, day: Day)
    requires court.slotDurationMinutes > 0
    ensures GoodGrid(BandsForDate(court, day))
  {
    var hours := HoursForWeekday(court, Weekday(day));
    if hours.Some? {
      var open, close, duration := hours.value.open, ClosingMinute(hours.value), court.slotDurationMinutes;
      var bands := BandsFrom(open, close, duration);
      forall i | 0 <= i < |bands|
        ensures open <= BandSortMinutes(bands[i]) < BandEndMinutes(bands[i]) <= close
      {
        BandsInside(open, close, duration, i);
      }
      forall i, j | 0 <= i < j < |bands|
        ensures BandEndMinutes(bands[i]) <= BandSortMinutes(bands[j]) && bands[i].start != bands[j].start
      {
        BandsInOrder(open, close, duration, i, j);
        assert BandSortMinutes(bands[j]) < BandSortMinutes(bands[i]) + MINUTES_A_DAY;
      }
    }
  }

  // ── Instants ────────────────────────────────────────────────────────────────

  /** The club's clock: absolute wall-clock minutes to instants, strictly increasing. */
  ghost predicate IsClock(clock: int -> Instant) {
    forall m, n {:trigger clock(m), clock(n)} :: m < n ==> clock(m) < clock(n)
  }

  function DayStart(clock: int -> Instant, day: Day): Instant {
    clock(day * MINUTES_A_DAY)
  }

  function WallTime(clock: int -> Instant, day: Day, minute: MinuteOfDay): Instant {
    clock(day * MINUTES_A_DAY + minute)
  }

  datatype BandTimes = BandTimes(startsAt: Instant, endsAt: Instant)

  function TimesOf(clock: int -> Instant, day: Day, band: ScheduleBand): BandTimes {
    BandTimes(WallTime(clock, day + band.startOffset, band.start), WallTime(clock, day + band.endOffset, band.end))
  }

  lemma TimesAre(clock: int -> Instant, day: Day, band: ScheduleBand)
    ensures TimesOf(clock, day, band) ==
            BandTimes(clock(day * MINUTES_A_DAY + BandSortMinutes(band)),
                      clock(day * MINUTES_A_DAY + BandEndMinutes(band)))
  {
  }

  // ── Prices ──────────────────────────────────────────────────────────────────

  /** A price exception: for one weekday, or for every day. */
  datatype PriceRule = PriceRule(dayOfWeek: Option<nat>, startTime: MinuteOfDay, priceCents: nat)

  predicate RuleFor(rule: PriceRule, weekday: Option<nat>, start: MinuteOfDay) {
    rule.startTime == start && rule.dayOfWeek == weekday
  }

  /** The last exception for that weekday and start, if any. */
  function LastRule(rules: seq<PriceRule>, weekday: Option<nat>, start: MinuteOfDay): (r: Option<PriceRule>)
    ensures r.Some? ==> r.value in rules && RuleFor(r.value, weekday, start)
    ensures r.None? <==> forall rule :: rule in rules ==> !RuleFor(rule, weekday, start)
  {
    if rules == [] then None
    else if RuleFor(rules[|rules| - 1], weekday, start) then Some(rules[|rules| - 1])
    else
      assert rules == rules[..|rules| - 1] + [rules[|rules| - 1]];
      LastRule(rules[..|rules| - 1], weekday, start)
  }

  /** The weekday's own exception wins over the every-day one, which wins over the default. */
  function BandPrice(defaultCents: nat, rules: seq<PriceRule>, day: Day, start: MinuteOfDay): nat {
    var own, everyDay := LastRule(rules, Some(Weekday(day)), start), LastRule(rules, None, start);
    if own.Some? then own.value.priceCents else if everyDay.Some? then everyDay.value.priceCents else defaultCents
  }

  method ResolveBandPriceCents(defaultCents: nat, rules: seq<PriceRule>, day: Day,
                               start: MinuteOfDay) returns (cents: nat)
    ensures cents == BandPrice(defaultCents, rules, day, start)
  {
    var weekday := Weekday(day);
    var dayRule: Option<PriceRule>, allDaysRule: Option<PriceRule> := None, None;
    for i := 0 to |rules|
      invariant dayRule == LastRule(rules[..i], Some(weekday), start)
      invariant allDaysRule == LastRule(rules[..i], None, start)
    {
      var rule := rules[i];
      assert rules[..i + 1][..i] == rules[..i];
      if rule.startTime == start {
        if rule.dayOfWeek == Some(weekday) {
          dayRule := Some(rule);
        } else if rule.dayOfWeek.None? {
          allDaysRule := Some(rule);
        }
      }
    }
    assert rules[..|rules|] == rules;
    cents := if dayRule.Some? then dayRule.value.priceCents else if allDaysRule.Some? then allDaysRule.value.priceCents
             else defaultCents;
  }
}
