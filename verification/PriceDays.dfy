/**
 * Two readings of one price list: a band is offered at the price of its grid's day
 * (src/availability/availability.service.ts), and its slot is repriced by the calendar day it starts
 * on (src/pricing/slot-pricing.service.ts, targetPriceCents).
 */
module PriceDays {
  import opened Base
  import opened ClubData
  import opened Pricing
  import opened Schedule
  import opened BandCalls
  import Availability

  /** The prices of a court: its default and its exceptions. */
  datatype PriceList = PriceList(defaultCents: nat, rules: seq<PriceRule>)

  /** What the list says for a start on a weekday: its own exception, else the every-day one, else the default. */
  function PriceOn(list: PriceList, weekday: nat, start: MinuteOfDay): nat {
    var own, everyDay := LastRule(list.rules, Some(weekday), start), LastRule(list.rules, None, start);
    if own.Some? then own.value.priceCents else if everyDay.Some? then everyDay.value.priceCents else list.defaultCents
  }

  /** The price of an instant, read off the club's calendar and wall clock. */
  ghost predicate PricesByStart(listPrice: Instant -> nat, clock: int -> Instant, list: PriceList) {
    forall m: int {:trigger clock(m)} ::
      listPrice(clock(m)) == BandPrice(list.defaultCents, list.rules, m / MINUTES_A_DAY, m % MINUTES_A_DAY)
  }

  function NextWeekday(weekday: nat): nat {
    (weekday + 1) % 7
  }

  /** The band's start shows one price on the grid's weekday and on the weekday it falls on. */
  predicate OnePrice(list: PriceList, day: Day, band: ScheduleBand) {
    band.startOffset == 0 || PriceOn(list, Weekday(day), band.start) == PriceOn(list, NextWeekday(Weekday(day)),
                                                                                band.start)
  }

  lemma StartsOn(clock: int -> Instant, day: Day, band: ScheduleBand, listPrice: Instant -> nat, list: PriceList)
    requires PricesByStart(listPrice, clock, list)
    ensures listPrice(TimesOf(clock, day, band).startsAt) ==
            BandPrice(list.defaultCents, list.rules, day + band.startOffset, band.start)
  {
    var m := (day + band.startOffset) * MINUTES_A_DAY + band.start;
    assert m / MINUTES_A_DAY == day + band.startOffset && m % MINUTES_A_DAY == band.start;
    assert TimesOf(clock, day, band).startsAt == clock(m);
    hide BandPrice, LastRule;
  }

  /** On a band of the grid the two readings agree exactly when the list gives both weekdays one price there. */
  lemma ReadingsAgreeExactly(clock: int -> Instant, day: Day, band: ScheduleBand, listPrice: Instant -> nat,
                             list: PriceList)
    requires PricesByStart(listPrice, clock, list) && BandSortMinutes(band) < 2 * MINUTES_A_DAY
    ensures listPrice(TimesOf(clock, day, band).startsAt) == BandPrice(list.defaultCents, list.rules, day,
                                                                       band.start) <==>
            OnePrice(list, day, band)
  {
    hide LastRule, PricesByStart, TimesOf, Weekday;
    StartsOn(clock, day, band, listPrice, list);
    WeekdayAfter(day);
    assert band.startOffset == 0 || band.startOffset == 1;
  }

  lemma WeekdayAfter(day: Day)
    ensures Weekday(day + 1) == NextWeekday(Weekday(day))
  {
  }

  /**
   * A free slot on a band of the grid, put back on sale, costs what the band is offered at exactly when the
   * price list gives the grid's weekday and the weekday it starts on one price for that start.
   */
  lemma RepricedAsOfferedExactly(db: Db, s: SlotId, clubId: ClubId, schedule: CourtSchedule, clock: int -> Instant,
                                 day: Day, i: nat, list: PriceList)
    requires OneLivePerSlot(db.bookings) && s < |db.slots| && !IsHeld(db.bookings, s) && db.slots[s].clubId == clubId
    requires db.slots[s].courtId in db.courts && PricesByStart(db.courts[db.slots[s].courtId].listPrice, clock, list)
    requires schedule.slotDurationMinutes > 0 && i < |BandsForDate(schedule, day)|
    requires db.slots[s].startsAt == TimesOf(clock, day, BandsForDate(schedule, day)[i]).startsAt
    ensures var band := BandsForDate(schedule, day)[i];
            RepriceSlot(db, s, Some(clubId)).1 == Some(BandPrice(list.defaultCents, list.rules, day, band.start)) <==>
            OnePrice(list, day, band)
  {
    hide BandsForDate, BandPrice, OnePrice, PricesByStart, OneLivePerSlot, IsHeld, TargetPrice;
    var band := BandsForDate(schedule, day)[i];
    GridIsGood(schedule, day);
    ReadingsAgreeExactly(clock, day, band, db.courts[db.slots[s].courtId].listPrice, list);
    UnheldIsRequoted(db, s, clubId);
    QuotedPrice(db, s, clubId);
  }

  lemma QuotedPrice(db: Db, s: SlotId, clubId: ClubId)
    requires s < |db.slots| && db.slots[s].clubId == clubId
    ensures var (after, priceCents) := RepriceSlot(db, s, Some(clubId));
            |after.slots| == |db.slots| && priceCents == Some(after.slots[s].priceCents)
  {
    hide TargetPrice;
  }

  /** Every grid day and every band of it. */
  ghost predicate AlwaysOnePrice(list: PriceList, schedule: CourtSchedule)
    requires schedule.slotDurationMinutes > 0
  {
    forall w: nat, i: nat {:trigger BandsForWeekday(schedule, w)[i]} ::
      w < 7 && i < |BandsForWeekday(schedule, w)| && BandsForWeekday(schedule, w)[i].startOffset > 0 ==>
        var start := BandsForWeekday(schedule, w)[i].start;
        PriceOn(list, w, start) == PriceOn(list, NextWeekday(w), start)
  }

  ghost predicate AgreeOn(listPrice: Instant -> nat, clock: int -> Instant, list: PriceList, schedule: CourtSchedule,
                          day: Day)
    requires schedule.slotDurationMinutes > 0
  {
    forall i :: 0 <= i < |BandsForDate(schedule, day)| ==>
      var band := BandsForDate(schedule, day)[i];
      listPrice(TimesOf(clock, day, band).startsAt) == BandPrice(list.defaultCents, list.rules, day, band.start)
  }

  lemma DayOf(weekday: nat) returns (day: Day)
    requires weekday < 7
    ensures Weekday(day) == weekday
  {
    day := weekday - 4;
  }

  /**
   * A court's two readings agree on every band of every day exactly when its list gives each past-midnight
   * band of each weekday the price of the weekday after too.
   */
  lemma AlwaysAgreeExactly(listPrice: Instant -> nat, clock: int -> Instant, list: PriceList, schedule: CourtSchedule)
    requires schedule.slotDurationMinutes > 0 && PricesByStart(listPrice, clock, list)
    ensures (forall day :: AgreeOn(listPrice, clock, list, schedule, day)) <==> AlwaysOnePrice(list, schedule)
  {
    hide BandsForWeekday, PricesByStart, BandPrice, PriceOn, TimesOf;
    forall day: Day, i: nat | i < |BandsForDate(schedule, day)|
      ensures var band := BandsForDate(schedule, day)[i];
              listPrice(TimesOf(clock, day, band).startsAt) == BandPrice(list.defaultCents, list.rules, day,
                                                                         band.start) <==>
              OnePrice(list, day, band)
    {
      GridIsGood(schedule, day);
      ReadingsAgreeExactly(clock, day, BandsForDate(schedule, day)[i], listPrice, list);
    }
    if forall day :: AgreeOn(listPrice, clock, list, schedule, day) {
      forall w: nat, i: nat | w < 7 && i < |BandsForWeekday(schedule, w)|
      && BandsForWeekday(schedule, w)[i].startOffset > 0
        ensures var start := BandsForWeekday(schedule, w)[i].start;
                PriceOn(list, w, start) == PriceOn(list, NextWeekday(w), start)
      {
        var day := DayOf(w);
        assert AgreeOn(listPrice, clock, list, schedule, day);
        assert BandsForDate(schedule, day)[i] == BandsForWeekday(schedule, w)[i];
      }
    }
  }

  // ── A Saturday night ────────────────────────────────────────────────────────

  /** Half past midnight costs more on Saturdays than on the other days. */
  const SATURDAY_NIGHT := PriceList(500, [PriceRule(Some(6), 30, 900)])
  const UNTIL_TWO := CourtSchedule(DayHours(1110, 120), 90, map[])

  lemma SaturdayPrices()
    ensures PriceOn(SATURDAY_NIGHT, 6, 30) == 900 && PriceOn(SATURDAY_NIGHT, 0, 30) == 500
    ensures BandPrice(500, SATURDAY_NIGHT.rules, 2, 30) == 900
  {
    var rules := SATURDAY_NIGHT.rules;
    assert rules == [rules[0]] && rules[..0] == [];
    assert LastRule(rules, Some(6), 30) == Some(rules[0]);
    assert LastRule(rules, Some(0), 30).None? && LastRule(rules, None, 30).None?;
  }

  /** Saturday's last band is offered at Saturday's price, and repriced, being Sunday's first hour, at the default. */
  lemma SaturdayNightRepricedAsSunday(listPrice: Instant -> nat, clock: int -> Instant)
    requires PricesByStart(listPrice, clock, SATURDAY_NIGHT)
    ensures Weekday(2) == 6 && |BandsForDate(UNTIL_TWO, 2)| > 4
    ensures var band := BandsForDate(UNTIL_TWO, 2)[4];
      && BandPrice(500, SATURDAY_NIGHT.rules, 2, band.start) == 900
      && listPrice(TimesOf(clock, 2, band).startsAt) == 500
  {
    FifthBand();
    SaturdayPrices();
    var band := BandAt(1470, 90);
    assert band.start == 30 && band.startOffset == 1;
    StartsOn(clock, 2, band, listPrice, SATURDAY_NIGHT);
    assert Weekday(3) == 0;
    hide PricesByStart, LastRule, TimesOf;
  }

  lemma FifthBand()
    ensures |BandsForDate(UNTIL_TWO, 2)| > 4 && BandsForDate(UNTIL_TWO, 2)[4] == BandAt(1470, 90)
  {
    Availability.BandsFromAt(1110, 1560, 90, 4);
    hide BandsFrom;
  }
}
