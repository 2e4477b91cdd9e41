/** What a player can book, from the grids and the slot table (src/availability/availability.service.ts). */
module Availability {
  import opened Base
  import opened ClubData
  import opened Schedule

  datatype CourtRow = CourtRow(id: CourtId, clubId: ClubId, name: string, schedule: CourtSchedule, priceCents: nat,
                               rules: seq<PriceRule>)

  /** A free band of a court; `slotId` when its slot row already exists. */
  datatype SlotOption = SlotOption(
    bandStart: MinuteOfDay,
    slotId: Option<SlotId>,
    startsAt: Instant,
    endsAt: Instant,
    price: nat,
    sortMinutes: nat)

  // ── The simple definition ───────────────────────────────────────────────────

  predicate IsOn(s: Slot, clubId: ClubId, courtId: CourtId) {
    s.clubId == clubId && s.courtId == courtId
  }

  predicate Occupies(s: Slot, clubId: ClubId, courtId: CourtId, t: BandTimes) {
    IsOn(s, clubId, courtId) && !s.status.Available? && Overlaps(s, t.startsAt, t.endsAt)
  }

  /** No slot of the whole table that is not AVAILABLE overlaps the band. */
  predicate IsFree(slots: seq<Slot>, clubId: ClubId, courtId: CourtId, t: BandTimes) {
    forall i :: 0 <= i < |slots| ==> !Occupies(slots[i], clubId, courtId, t)
  }

  predicate IsAvailableAt(s: Slot, clubId: ClubId, courtId: CourtId, startsAt: Instant) {
    IsOn(s, clubId, courtId) && s.status.Available? && s.startsAt == startsAt
  }

  /** The AVAILABLE slot that starts exactly there. */
  function AvailableAt(slots: seq<Slot>, n: nat, clubId: ClubId, courtId: CourtId,
                       startsAt: Instant): (found: Option<SlotId>)
    requires n <= |slots|
    ensures found.Some? ==> found.value < n && IsAvailableAt(slots[found.value], clubId, courtId, startsAt)
    ensures found.None? ==> forall i :: 0 <= i < n ==> !IsAvailableAt(slots[i], clubId, courtId, startsAt)
  {
    if n == 0 then None
    else if IsAvailableAt(slots[n - 1], clubId, courtId, startsAt) then Some(n - 1)
    else AvailableAt(slots, n - 1, clubId, courtId, startsAt)
  }

  function OptionFor(slots: seq<Slot>, court: CourtRow, clock: int -> Instant, day: Day, band: ScheduleBand): SlotOption
  {
    var t := TimesOf(clock, day, band);
    var found := AvailableAt(slots, |slots|, court.clubId, court.id, t.startsAt);
    if found.Some?
    then SlotOption(band.start, found, slots[found.value].startsAt, slots[found.value].endsAt,
                    slots[found.value].priceCents, BandSortMinutes(band))
    else SlotOption(band.start, None, t.startsAt, t.endsAt, BandPrice(court.priceCents, court.rules, day, band.start),
                    BandSortMinutes(band))
  }

  predicate IsOffered(slots: seq<Slot>, court: CourtRow,
                      clock: int -> Instant, day: Day, now: Instant, band: ScheduleBand) {
    var t := TimesOf(clock, day, band);
    t.startsAt > now && IsFree(slots, court.clubId, court.id, t)
  }

  function OffersOf(slots: seq<Slot>, court: CourtRow,
                    clock: int -> Instant, day: Day, now: Instant, bands: seq<ScheduleBand>): seq<SlotOption> {
    if bands == [] then []
    else
      var n := |bands| - 1;
      OffersOf(slots, court, clock, day, now, bands[..n]) +
      (if IsOffered(slots, court, clock, day, now, bands[n]) then [OptionFor(slots, court, clock, day, bands[n])]
       else [])
  }

  function Offers(slots: seq<Slot>, court: CourtRow, clock: int -> Instant, day: Day, now: Instant): seq<SlotOption>
    requires court.schedule.slotDurationMinutes > 0
  {
    OffersOf(slots, court, clock, day, now, BandsForDate(court.schedule, day))
  }

  function FindCourt(courts: seq<CourtRow>, clubId: ClubId, courtId: CourtId): (found: Option<CourtRow>)
    ensures found.Some? ==> found.value in courts && found.value.id == courtId && found.value.clubId == clubId
  {
    if courts == [] then None
    else if courts[0].id == courtId && courts[0].clubId == clubId then Some(courts[0])
    else FindCourt(courts[1..], clubId, courtId)
  }

  function OffersAt(slots: seq<Slot>, courts: seq<CourtRow>, clubId: ClubId, courtId: CourtId, clock: int -> Instant,
                    day: Day, now: Instant): seq<SlotOption>
    requires GoodCourts(courts)
  {
    var court := FindCourt(courts, clubId, courtId);
    if court.None? then [] else Offers(slots, court.value, clock, day, now)
  }

  predicate GoodCourts(courts: seq<CourtRow>) {
    forall i :: 0 <= i < |courts| ==> courts[i].schedule.slotDurationMinutes > 0
  }

  // ── slotsForDate: a window read once, then one pass over the bands ───────────

  /** The day's window holds every band, so no slot outside it can touch one. */
  lemma WindowHoldsBands(clock: int -> Instant, day: Day, bands: seq<ScheduleBand>, i: nat)
    requires IsClock(clock) && GoodGrid(bands) && i < |bands|
    ensures var t := TimesOf(clock, day, bands[i]);
            DayStart(clock, day) <= t.startsAt < t.endsAt
  {
    TimesAre(clock, day, bands[i]);
    if BandSortMinutes(bands[i]) == 0 {
      assert day * MINUTES_A_DAY + BandSortMinutes(bands[i]) == day * MINUTES_A_DAY;
    }
  }

  method LastEnd(times: seq<BandTimes>) returns (last: Instant)
    requires times != []
    ensures forall i :: 0 <= i < |times| ==> times[i].endsAt <= last
  {
    last := times[0].endsAt;
    for i := 1 to |times|
      invariant forall j :: 0 <= j < i ==> times[j].endsAt <= last
    {
      if times[i].endsAt > last {
        last := times[i].endsAt;
      }
    }
  }

  /** The query behind the window: which slots of the court overlap it. */
  method FetchWindow(slots: seq<Slot>, clubId: ClubId, courtId: CourtId, from: Instant,
                     to: Instant) returns (ids: seq<SlotId>)
    ensures forall k :: 0 <= k < |ids| ==> ids[k] < |slots|
    ensures forall i: nat :: i in ids <==>
              i < |slots| && IsOn(slots[i], clubId, courtId) && slots[i].startsAt < to && slots[i].endsAt > from
  {
    ids := [];
    for i := 0 to |slots|
      invariant forall k :: 0 <= k < |ids| ==> ids[k] < i
      invariant forall j: nat :: j in ids <==>
                  j < i && IsOn(slots[j], clubId, courtId) && slots[j].startsAt < to && slots[j].endsAt > from
    {
      if IsOn(slots[i], clubId, courtId) && slots[i].startsAt < to && slots[i].endsAt > from {
        ids := ids + [i];
      }
    }
  }

  /** One pass of the loop: the option for a band, if it is offered. */
  method OfferBand(slots: seq<Slot>, existing: seq<SlotId>, court: CourtRow, clock: int -> Instant, day: Day,
                   now: Instant, band: ScheduleBand, t: BandTimes, ghost from: Instant,
                   ghost to: Instant) returns (option: seq<SlotOption>)
    requires SoundSlots(slots) && UniqueStarts(slots) && IsFetched(slots, existing, court.clubId, court.id, from, to)
    requires t == TimesOf(clock, day, band) && from <= t.startsAt < t.endsAt <= to
    ensures option == if IsOffered(slots, court, clock, day, now, band) then [OptionFor(slots, court, clock, day, band)]
                      else []
  {
    if t.startsAt <= now {
      return [];
    }
    var blocked := AnyOccupies(slots, existing, t);
    SameAsWholeTable(slots, existing, court.clubId, court.id, from, to, t);
    if blocked {
      return [];
    }
    var slotId := FindAvailable(slots, existing, t.startsAt);
    SameAvailable(slots, existing, court.clubId, court.id, from, to, t, slotId);
    if slotId.Some? {
      var s := slots[slotId.value];
      return [SlotOption(band.start, slotId, s.startsAt, s.endsAt, s.priceCents, BandSortMinutes(band))];
    }
    var price := ResolveBandPriceCents(court.priceCents, court.rules, day, band.start);
    return [SlotOption(band.start, None, t.startsAt, t.endsAt, price, BandSortMinutes(band))];
  }

  lemma OffersStep(slots: seq<Slot>, court: CourtRow,
                   clock: int -> Instant, day: Day, now: Instant, bands: seq<ScheduleBand>, i: nat)
    requires i < |bands|
    ensures OffersOf(slots, court, clock, day, now, bands[..i + 1]) ==
            OffersOf(slots, court, clock, day, now, bands[..i]) +
            (if IsOffered(slots, court, clock, day, now, bands[i]) then [OptionFor(slots, court, clock, day, bands[i])]
             else [])
  {
    assert bands[..i + 1][..i] == bands[..i];
    hide IsOffered, OptionFor;
  }

  method SlotsForDate(slots: seq<Slot>, courts: seq<CourtRow>, clubId: ClubId, day: Day, courtId: CourtId,
                      clock: int -> Instant, now: Instant)
    returns (options: seq<SlotOption>)
    requires SoundSlots(slots) && UniqueStarts(slots) && GoodCourts(courts) && IsClock(clock)
    ensures options == OffersAt(slots, courts, clubId, courtId, clock, day, now)
  {
    var found := FindCourt(courts, clubId, courtId);
    if found.None? {
      return [];
    }
    var court := found.value;
    var bands := BandsForDate(court.schedule, day);
    if bands == [] {
      return [];
    }
    GridIsGood(court.schedule, day);
    var times := seq(|bands|, i requires 0 <= i < |bands| => TimesOf(clock, day, bands[i]));
    var gte := DayStart(clock, day);
    var lastEnd := LastEnd(times);
    var existing := FetchWindow(slots, clubId, courtId, gte, lastEnd);
    options := [];
    hide SoundSlots, UniqueStarts, IsOffered, OptionFor, BandsForDate, IsClock, GoodGrid, TimesOf;
    for i := 0 to |bands|
      invariant options == OffersOf(slots, court, clock, day, now, bands[..i])
    {
      WindowHoldsBands(clock, day, bands, i);
      var option := OfferBand(slots, existing, court, clock, day, now, bands[i], times[i], gte, lastEnd);
      OffersStep(slots, court, clock, day, now, bands, i);
      options := options + option;
    }
    assert bands[..|bands|] == bands;
  }

  predicate FetchedOccupies(slots: seq<Slot>, existing: seq<SlotId>, t: BandTimes)
    requires forall k :: 0 <= k < |existing| ==> existing[k] < |slots|
  {
    exists k :: 0 <= k < |existing| && !slots[existing[k]].status.Available?
                && Overlaps(slots[existing[k]], t.startsAt, t.endsAt)
  }

  method AnyOccupies(slots: seq<Slot>, existing: seq<SlotId>, t: BandTimes) returns (blocked: bool)
    requires forall k :: 0 <= k < |existing| ==> existing[k] < |slots|
    ensures blocked == FetchedOccupies(slots, existing, t)
  {
    for k := 0 to |existing|
      invariant forall j :: 0 <= j < k ==>
                  slots[existing[j]].status.Available? || !Overlaps(slots[existing[j]], t.startsAt, t.endsAt)
    {
      var s := slots[existing[k]];
      if !s.status.Available? && s.startsAt < t.endsAt && s.endsAt > t.startsAt {
        return true;
      }
    }
    return false;
  }

  /** The fetched AVAILABLE slot that starts there; a later row would win, were there two. */
  method FindAvailable(slots: seq<Slot>, existing: seq<SlotId>, startsAt: Instant) returns (found: Option<SlotId>)
    requires forall k :: 0 <= k < |existing| ==> existing[k] < |slots|
    ensures found.Some? ==> found.value in existing && slots[found.value].status.Available?
                            && slots[found.value].startsAt == startsAt
    ensures found.None? ==> forall k :: 0 <= k < |existing| ==>
              !(slots[existing[k]].status.Available? && slots[existing[k]].startsAt == startsAt)
  {
    found := None;
    for k := 0 to |existing|
      invariant found.Some? ==> found.value in existing && slots[found.value].status.Available?
                                && slots[found.value].startsAt == startsAt
      invariant found.None? ==> forall j :: 0 <= j < k ==>
                  !(slots[existing[j]].status.Available? && slots[existing[j]].startsAt == startsAt)
    {
      if slots[existing[k]].status.Available? && slots[existing[k]].startsAt == startsAt {
        found := Some(existing[k]);
      }
    }
  }

  /** `existing` is what the window query returns. */
  ghost predicate IsFetched(slots: seq<Slot>, existing: seq<SlotId>, clubId: ClubId, courtId: CourtId, from: Instant,
                            to: Instant) {
    && (forall k :: 0 <= k < |existing| ==> existing[k] < |slots|)
    && (forall i: nat :: i in existing <==>
          i < |slots| && IsOn(slots[i], clubId, courtId) && slots[i].startsAt < to && slots[i].endsAt > from)
  }

  lemma SameAsWholeTable(slots: seq<Slot>, existing: seq<SlotId>, clubId: ClubId, courtId: CourtId, from: Instant,
                         to: Instant, t: BandTimes)
    requires IsFetched(slots, existing, clubId, courtId, from, to) && from <= t.startsAt && t.endsAt <= to
    ensures FetchedOccupies(slots, existing, t) <==> !IsFree(slots, clubId, courtId, t)
  {
    if !IsFree(slots, clubId, courtId, t) {
      var i :| 0 <= i < |slots| && Occupies(slots[i], clubId, courtId, t);
      assert i in existing;
      var k :| 0 <= k < |existing| && existing[k] == i;
    }
    if FetchedOccupies(slots, existing, t) {
      var k :| 0 <= k < |existing| && !slots[existing[k]].status.Available?
               && Overlaps(slots[existing[k]], t.startsAt, t.endsAt);
      assert existing[k] in existing;
      assert Occupies(slots[existing[k]], clubId, courtId, t);
    }
  }

  lemma AvailableOnce(slots: seq<Slot>, i: SlotId, j: SlotId, clubId: ClubId, courtId: CourtId, startsAt: Instant)
    requires UniqueStarts(slots) && i < |slots| && j < |slots|
    requires IsAvailableAt(slots[i], clubId, courtId, startsAt) && IsAvailableAt(slots[j], clubId, courtId, startsAt)
    ensures i == j
  {
    assert i < j ==> SameStart(slots[i], slots[j]);
    assert j < i ==> SameStart(slots[j], slots[i]);
  }

  lemma SameAvailable(slots: seq<Slot>, existing: seq<SlotId>, clubId: ClubId, courtId: CourtId, from: Instant,
                      to: Instant, t: BandTimes, found: Option<SlotId>)
    requires SoundSlots(slots) && UniqueStarts(slots)
    requires IsFetched(slots, existing, clubId, courtId, from, to) && from <= t.startsAt < t.endsAt <= to
    requires found.Some? ==> found.value in existing && slots[found.value].status.Available?
                             && slots[found.value].startsAt == t.startsAt
    requires found.None? ==> forall k :: 0 <= k < |existing| ==>
               !(slots[existing[k]].status.Available? && slots[existing[k]].startsAt == t.startsAt)
    ensures found == AvailableAt(slots, |slots|, clubId, courtId, t.startsAt)
  {
    var whole := AvailableAt(slots, |slots|, clubId, courtId, t.startsAt);
    if whole.Some? {
      assert SoundSlot(slots[whole.value]);
      assert whole.value in existing;
      var k :| 0 <= k < |existing| && existing[k] == whole.value;
      AvailableOnce(slots, found.value, whole.value, clubId, courtId, t.startsAt);
    }
  }

  predicate StartsIn(bands: seq<ScheduleBand>, start: MinuteOfDay) {
    exists j :: 0 <= j < |bands| && bands[j].start == start
  }

  lemma {:induction false} OffersAreBands(slots: seq<Slot>, court: CourtRow, clock: int -> Instant, day: Day,
                                          now: Instant, bands: seq<ScheduleBand>, n: nat, o: SlotOption)
    requires n <= |bands| && o in OffersOf(slots, court, clock, day, now, bands[..n])
    ensures StartsIn(bands[..n], o.bandStart)
  {
    if n > 0 {
      OffersStep(slots, court, clock, day, now, bands, n - 1);
      if o in OffersOf(slots, court, clock, day, now, bands[..n - 1]) {
        OffersAreBands(slots, court, clock, day, now, bands, n - 1, o);
        var j :| 0 <= j < n - 1 && bands[..n - 1][j].start == o.bandStart;
        assert bands[..n][j].start == o.bandStart;
      } else {
        assert bands[..n][n - 1].start == o.bandStart;
      }
    }
  }

  lemma {:induction false} OffersBelow(slots: seq<Slot>, court: CourtRow, clock: int -> Instant, day: Day, now: Instant,
                                       bands: seq<ScheduleBand>, n: nat, i: nat)
    requires GoodGrid(bands) && i < n <= |bands|
    ensures OptionFor(slots, court, clock, day, bands[i]) in OffersOf(slots, court, clock, day, now, bands[..n]) <==>
            IsOffered(slots, court, clock, day, now, bands[i])
  {
    hide *;
    var o := OptionFor(slots, court, clock, day, bands[i]);
    OptionStart(slots, court, clock, day, bands[i]);
    OptionStart(slots, court, clock, day, bands[n - 1]);
    OffersStep(slots, court, clock, day, now, bands, n - 1);
    NoneStartsAlike(bands, n - 1);
    if i < n - 1 {
      OffersBelow(slots, court, clock, day, now, bands, n - 1, i);
      StartsInHere(bands[..n - 1], i);
    } else if o in OffersOf(slots, court, clock, day, now, bands[..n - 1]) {
      OffersAreBands(slots, court, clock, day, now, bands, n - 1, o);
    }
  }

  lemma OptionStart(slots: seq<Slot>, court: CourtRow, clock: int -> Instant, day: Day, band: ScheduleBand)
    ensures OptionFor(slots, court, clock, day, band).bandStart == band.start
  {
  }

  lemma StartsInHere(bands: seq<ScheduleBand>, i: nat)
    requires i < |bands|
    ensures StartsIn(bands, bands[i].start)
  {
  }

  lemma NoneStartsAlike(bands: seq<ScheduleBand>, n: nat)
    requires GoodGrid(bands) && n < |bands|
    ensures !StartsIn(bands[..n], bands[n].start)
  {
    assert forall j :: 0 <= j < n ==> bands[..n][j].start != bands[n].start;
  }

  /** A band of the day is in the answer exactly when it is ahead and nothing occupies it. */
  lemma OffersExactly(slots: seq<Slot>, court: CourtRow, clock: int -> Instant, day: Day, now: Instant, i: nat)
    requires court.schedule.slotDurationMinutes > 0 && i < |BandsForDate(court.schedule, day)|
    ensures var band := BandsForDate(court.schedule, day)[i];
            OptionFor(slots, court, clock, day, band) in Offers(slots, court, clock, day, now) <==>
            IsOffered(slots, court, clock, day, now, band)
  {
    var bands := BandsForDate(court.schedule, day);
    GridIsGood(court.schedule, day);
    OffersBelow(slots, court, clock, day, now, bands, |bands|, i);
    assert bands[..|bands|] == bands;
    hide OptionFor, IsOffered, OffersOf, GoodGrid, BandsForDate;
  }

  // ── The day's bands across courts ───────────────────────────────────────────

  /** One free band of one court. */
  datatype Offer = Offer(bandStart: MinuteOfDay, sortMinutes: nat, courtId: CourtId, slotId: Option<SlotId>, price: nat)

  datatype CourtOffer = CourtOffer(courtId: CourtId, slotId: Option<SlotId>, price: nat)

  datatype BandOption = BandOption(bandStart: MinuteOfDay, courts: seq<CourtOffer>, sortMinutes: nat)

  function AsOffer(courtId: CourtId, o: SlotOption): Offer {
    Offer(o.bandStart, o.sortMinutes, courtId, o.slotId, o.price)
  }

  function AsOffers(courtId: CourtId, options: seq<SlotOption>): (r: seq<Offer>)
    ensures |r| == |options|
  {
    seq(|options|, i requires 0 <= i < |options| => AsOffer(courtId, options[i]))
  }

  /** Everything `slotsForDate` offers, court by court. */
  function AllOffers(slots: seq<Slot>, courts: seq<CourtRow>, clubId: ClubId, listed: seq<CourtRow>,
                     clock: int -> Instant, day: Day, now: Instant): seq<Offer>
    requires GoodCourts(courts)
  {
    if listed == [] then []
    else
      var n := |listed| - 1;
      AllOffers(slots, courts, clubId, listed[..n], clock, day, now) +
      AsOffers(listed[n].id, OffersAt(slots, courts, clubId, listed[n].id, clock, day, now))
  }

  function PlaceOfBand(groups: seq<BandOption>, start: MinuteOfDay): (g: Option<nat>)
    ensures g.Some? ==> g.value < |groups| && groups[g.value].bandStart == start
    ensures g.None? ==> forall h :: 0 <= h < |groups| ==> groups[h].bandStart != start
  {
    if groups == [] then None
    else if groups[|groups| - 1].bandStart == start then Some(|groups| - 1)
    else PlaceOfBand(groups[..|groups| - 1], start)
  }

  function Added(groups: seq<BandOption>, o: Offer): seq<BandOption> {
    var g := PlaceOfBand(groups, o.bandStart);
    var offer := CourtOffer(o.courtId, o.slotId, o.price);
    if g.Some? then groups[g.value := groups[g.value].(courts := groups[g.value].courts + [offer])]
    else groups + [BandOption(o.bandStart, [offer], o.sortMinutes)]
  }

  function Grouped(offers: seq<Offer>): seq<BandOption> {
    if offers == [] then [] else Added(Grouped(offers[..|offers| - 1]), offers[|offers| - 1])
  }

  predicate Earlier(x: BandOption, y: BandOption) {
    x.sortMinutes <= y.sortMinutes
  }

  method AvailableBandsForDate(slots: seq<Slot>, courts: seq<CourtRow>, clubId: ClubId, listed: seq<CourtRow>, day: Day,
                               clock: int -> Instant, now: Instant) returns (result: seq<BandOption>)
    requires SoundSlots(slots) && UniqueStarts(slots) && GoodCourts(courts) && IsClock(clock)
    ensures result == SortBy(Grouped(AllOffers(slots, courts, clubId, listed, clock, day, now)), Earlier)
  {
    var groups: seq<BandOption> := [];
    for c := 0 to |listed|
      invariant groups == Grouped(AllOffers(slots, courts, clubId, listed[..c], clock, day, now))
    {
      ghost var before := AllOffers(slots, courts, clubId, listed[..c], clock, day, now);
      var options := SlotsForDate(slots, courts, clubId, day, listed[c].id, clock, now);
      assert listed[..c + 1][..c] == listed[..c];
      groups := GroupCourt(groups, listed[c].id, options, before);
    }
    assert listed[..|listed|] == listed;
    result := SortBy(groups, Earlier);
  }

  method AddOffer(before: seq<BandOption>, courtId: CourtId, o: SlotOption) returns (groups: seq<BandOption>)
    ensures groups == Added(before, AsOffer(courtId, o))
  {
    var g := PlaceOfBand(before, o.bandStart);
    var offer := CourtOffer(courtId, o.slotId, o.price);
    if g.Some? {
      groups := before[g.value := before[g.value].(courts := before[g.value].courts + [offer])];
    } else {
      groups := before + [BandOption(o.bandStart, [offer], o.sortMinutes)];
    }
  }

  lemma GroupedStep(offers: seq<Offer>, o: Offer)
    ensures Grouped(offers + [o]) == Added(Grouped(offers), o)
  {
    assert (offers + [o])[..|offers|] == offers;
    hide Added;
  }

  method GroupCourt(before: seq<BandOption>, courtId: CourtId, options: seq<SlotOption>,
                    ghost offers: seq<Offer>) returns (groups: seq<BandOption>)
    requires before == Grouped(offers)
    ensures groups == Grouped(offers + AsOffers(courtId, options))
  {
    hide Grouped, Added;
    groups := before;
    ghost var added := AsOffers(courtId, options);
    assert offers + added[..0] == offers;
    for i := 0 to |options|
      invariant groups == Grouped(offers + added[..i])
    {
      groups := AddOffer(groups, courtId, options[i]);
      GroupedStep(offers + added[..i], added[i]);
      assert offers + added[..i + 1] == offers + added[..i] + [added[i]];
    }
    assert added[..|options|] == added;
  }

  /** The court offers at one wall-clock start, in order. */
  function CourtsAt(offers: seq<Offer>, start: MinuteOfDay): seq<CourtOffer> {
    if offers == [] then []
    else
      var n := |offers| - 1;
      CourtsAt(offers[..n], start) +
      (if offers[n].bandStart == start then [CourtOffer(offers[n].courtId, offers[n].slotId, offers[n].price)] else [])
  }

  function FirstAt(offers: seq<Offer>, start: MinuteOfDay): Option<Offer> {
    if offers == [] then None
    else
      var before := FirstAt(offers[..|offers| - 1], start);
      if before.Some? then before else if offers[|offers| - 1].bandStart == start then Some(offers[|offers| - 1])
                                       else None
  }

  ghost predicate DistinctBands(groups: seq<BandOption>) {
    forall g, h :: 0 <= g < h < |groups| ==> groups[g].bandStart != groups[h].bandStart
  }

  /** A group is exactly the offers at its start, and shows the time of the first of them. */
  predicate GroupsThem(group: BandOption, offers: seq<Offer>) {
    && group.courts == CourtsAt(offers, group.bandStart)
    && FirstAt(offers, group.bandStart).Some?
    && group.sortMinutes == FirstAt(offers, group.bandStart).value.sortMinutes
  }

  predicate HasBand(groups: seq<BandOption>, start: MinuteOfDay) {
    exists g :: 0 <= g < |groups| && groups[g].bandStart == start
  }

  /** One group per start, holding exactly its offers, and a group for every offer. */
  ghost predicate IsGrouping(groups: seq<BandOption>, offers: seq<Offer>) {
    && DistinctBands(groups)
    && (forall g :: 0 <= g < |groups| ==> GroupsThem(groups[g], offers))
    && (forall i :: 0 <= i < |offers| ==> HasBand(groups, offers[i].bandStart))
  }

  lemma OfferAppended(offers: seq<Offer>, o: Offer, start: MinuteOfDay)
    ensures CourtsAt(offers + [o], start) ==
            CourtsAt(offers, start) + (if o.bandStart == start then [CourtOffer(o.courtId, o.slotId, o.price)] else [])
    ensures FirstAt(offers + [o], start) ==
            if FirstAt(offers, start).Some? then FirstAt(offers, start) else if o.bandStart == start then Some(o)
                                                                             else None
  {
    assert (offers + [o])[..|offers|] == offers;
  }

  lemma {:induction false} NothingAt(offers: seq<Offer>, start: MinuteOfDay)
    requires forall i :: 0 <= i < |offers| ==> offers[i].bandStart != start
    ensures FirstAt(offers, start).None? && CourtsAt(offers, start) == []
  {
    if offers != [] {
      NothingAt(offers[..|offers| - 1], start);
    }
  }

  lemma AddedHasBands(groups: seq<BandOption>, o: Offer, start: MinuteOfDay)
    requires HasBand(groups, start) || start == o.bandStart
    ensures HasBand(Added(groups, o), start)
  {
    var after := Added(groups, o);
    if HasBand(groups, start) {
      var g :| 0 <= g < |groups| && groups[g].bandStart == start;
      assert after[g].bandStart == start;
    } else {
      assert PlaceOfBand(groups, o.bandStart).None?;
      assert after[|groups|].bandStart == start;
    }
  }

  lemma AddedGroups(groups: seq<BandOption>, offers: seq<Offer>, o: Offer, g: nat)
    requires IsGrouping(groups, offers) && g < |Added(groups, o)|
    ensures GroupsThem(Added(groups, o)[g], offers + [o])
  {
    var after := Added(groups, o);
    OfferAppended(offers, o, after[g].bandStart);
    if g < |groups| {
      assert GroupsThem(groups[g], offers);
    } else {
      assert after[g].bandStart == o.bandStart && PlaceOfBand(groups, o.bandStart).None?;
      forall i | 0 <= i < |offers|
        ensures offers[i].bandStart != o.bandStart
      {
        assert HasBand(groups, offers[i].bandStart);
      }
      NothingAt(offers, o.bandStart);
    }
    hide CourtsAt, FirstAt, HasBand;
  }

  lemma AddedDistinct(groups: seq<BandOption>, o: Offer)
    requires DistinctBands(groups)
    ensures DistinctBands(Added(groups, o))
  {
  }

  /** Grouping by band loses and duplicates nothing. */
  lemma {:induction false} GroupedLaw(offers: seq<Offer>)
    ensures IsGrouping(Grouped(offers), offers)
  {
    if offers != [] {
      var n := |offers| - 1;
      var before, o := Grouped(offers[..n]), offers[n];
      GroupedLaw(offers[..n]);
      GroupedStep(offers[..n], o);
      assert offers == offers[..n] + [o];
      AddedDistinct(before, o);
      forall g | 0 <= g < |Added(before, o)| {
        AddedGroups(before, offers[..n], o, g);
      }
      forall i | 0 <= i < |offers|
        ensures HasBand(Added(before, o), offers[i].bandStart)
      {
        assert i < n ==> HasBand(before, offers[..n][i].bandStart);
        AddedHasBands(before, o, offers[i].bandStart);
      }
      hide Grouped, Added, GroupsThem, HasBand, DistinctBands;
    }
  }

  /** The day's bands come out in grid order, none lost or repeated. */
  lemma BandsComeSorted(offers: seq<Offer>)
    ensures SortedBy(SortBy(Grouped(offers), Earlier), Earlier)
    ensures multiset(SortBy(Grouped(offers), Earlier)) == multiset(Grouped(offers))
  {
    SortBySound(Grouped(offers), Earlier);
  }

  /** No two offers show the same wall-clock start on different days of the grid. */
  predicate SameStartSameTime(offers: seq<Offer>) {
    forall i, j :: 0 <= i < |offers| && 0 <= j < |offers| && offers[i].bandStart == offers[j].bandStart ==>
      offers[i].sortMinutes == offers[j].sortMinutes
  }

  /** Every offer is listed under a group that shows its own time. */
  predicate ListedAtItsTime(offers: seq<Offer>) {
    forall i :: 0 <= i < |offers| ==>
      var g := PlaceOfBand(Grouped(offers), offers[i].bandStart);
      g.Some? && Grouped(offers)[g.value].sortMinutes == offers[i].sortMinutes
  }

  /** A group shows the time of its first offer: right for all of them exactly when they agree. */
  lemma ListedAtItsTimeExactly(offers: seq<Offer>)
    ensures ListedAtItsTime(offers) <==> SameStartSameTime(offers)
  {
    GroupedLaw(offers);
    forall i | 0 <= i < |offers|
      ensures var g := PlaceOfBand(Grouped(offers), offers[i].bandStart);
              g.Some? && FirstAt(offers, offers[i].bandStart).Some?
              && Grouped(offers)[g.value].sortMinutes == FirstAt(offers, offers[i].bandStart).value.sortMinutes
    {
      assert HasBand(Grouped(offers), offers[i].bandStart);
      var g := PlaceOfBand(Grouped(offers), offers[i].bandStart).value;
      assert GroupsThem(Grouped(offers)[g], offers);
    }
    hide Grouped;
    if SameStartSameTime(offers) {
      forall i | 0 <= i < |offers|
        ensures FirstAt(offers, offers[i].bandStart).value.sortMinutes == offers[i].sortMinutes
      {
        FirstIsOne(offers, offers[i].bandStart);
      }
    }
  }

  lemma {:induction false} FirstIsOne(offers: seq<Offer>, start: MinuteOfDay)
    requires FirstAt(offers, start).Some?
    ensures exists i :: 0 <= i < |offers| && offers[i] == FirstAt(offers, start).value && offers[i].bandStart == start
  {
    var n := |offers| - 1;
    if FirstAt(offers[..n], start).Some? {
      FirstIsOne(offers[..n], start);
      var i :| 0 <= i < n && offers[..n][i] == FirstAt(offers, start).value && offers[..n][i].bandStart == start;
      assert offers[i] == FirstAt(offers, start).value;
    }
  }

  // the same, on the courts' grids and the list the caller gets

  /** One question to the service: the club's tables, its clock, a day, and the time it is asked. */
  datatype Query = Query(slots: seq<Slot>, courts: seq<CourtRow>, clubId: ClubId, clock: int -> Instant, day: Day,
                         now: Instant)

  function GridOf(q: Query, id: CourtId): seq<ScheduleBand>
    requires GoodCourts(q.courts)
  {
    var court := FindCourt(q.courts, q.clubId, id);
    if court.None? then [] else BandsForDate(court.value.schedule, q.day)
  }

  /** Band `i` of the court's day is ahead and nothing occupies it. */
  predicate FreeOn(q: Query, id: CourtId, i: nat): (free: bool)
    requires GoodCourts(q.courts)
    ensures free ==> i < |GridOf(q, id)|
  {
    i < |GridOf(q, id)| && IsOffered(q.slots, FindCourt(q.courts, q.clubId, id).value, q.clock, q.day, q.now,
                                     GridOf(q, id)[i])
  }

  function OfferFor(q: Query, id: CourtId, i: nat): Offer
    requires GoodCourts(q.courts) && i < |GridOf(q, id)|
  {
    AsOffer(id, OptionFor(q.slots, FindCourt(q.courts, q.clubId, id).value, q.clock, q.day, GridOf(q, id)[i]))
  }

  function OffersFor(q: Query, listed: seq<CourtRow>): seq<Offer>
    requires GoodCourts(q.courts)
  {
    AllOffers(q.slots, q.courts, q.clubId, listed, q.clock, q.day, q.now)
  }

  /** What `availableBandsForDate` returns. */
  function Answer(q: Query, listed: seq<CourtRow>): seq<BandOption>
    requires GoodCourts(q.courts)
  {
    SortBy(Grouped(OffersFor(q, listed)), Earlier)
  }

  lemma OfferForIs(q: Query, id: CourtId, i: nat)
    requires GoodCourts(q.courts) && i < |GridOf(q, id)|
    ensures var o := OfferFor(q, id, i);
            o.bandStart == GridOf(q, id)[i].start && o.sortMinutes == BandSortMinutes(GridOf(q, id)[i])
            && o.courtId == id
  {
  }

  predicate OfferedBy(slots: seq<Slot>, court: CourtRow,
                      clock: int -> Instant, day: Day, now: Instant, bands: seq<ScheduleBand>, o: SlotOption) {
    exists i :: 0 <= i < |bands| && IsOffered(slots, court, clock, day, now, bands[i])
                && o == OptionFor(slots, court, clock, day, bands[i])
  }

  lemma {:induction false} OffersOfHold(slots: seq<Slot>, court: CourtRow,
                                        clock: int -> Instant, day: Day, now: Instant, bands: seq<ScheduleBand>,
                                        o: SlotOption)
    ensures o in OffersOf(slots, court, clock, day, now, bands) <==> OfferedBy(slots, court, clock, day, now, bands, o)
  {
    hide IsOffered, OptionFor;
    if bands != [] {
      var n := |bands| - 1;
      OffersOfHold(slots, court, clock, day, now, bands[..n], o);
      if OfferedBy(slots, court, clock, day, now, bands[..n], o) {
        var i :| 0 <= i < n && IsOffered(slots, court, clock, day, now, bands[..n][i])
                 && o == OptionFor(slots, court, clock, day, bands[..n][i]);
        assert bands[i] == bands[..n][i];
      }
      if OfferedBy(slots, court, clock, day, now, bands, o) {
        var i :| 0 <= i < |bands| && IsOffered(slots, court, clock, day, now, bands[i])
                 && o == OptionFor(slots, court, clock, day, bands[i]);
        assert i < n ==> bands[..n][i] == bands[i];
      }
    }
  }

  ghost predicate OfferedOn(q: Query, id: CourtId, o: Offer)
    requires GoodCourts(q.courts)
  {
    exists i: nat :: FreeOn(q, id, i) && o == OfferFor(q, id, i)
  }

  lemma OfferedOnHolds(q: Query, id: CourtId, o: Offer)
    requires GoodCourts(q.courts)
    ensures o in AsOffers(id, OffersAt(q.slots, q.courts, q.clubId, id, q.clock, q.day, q.now)) <==> OfferedOn(q, id, o)
  {
    hide IsOffered, OptionFor, BandsForDate, OffersOf;
    var found := FindCourt(q.courts, q.clubId, id);
    var options := OffersAt(q.slots, q.courts, q.clubId, id, q.clock, q.day, q.now);
    if found.Some? {
      var bands := GridOf(q, id);
      assert options == OffersOf(q.slots, found.value, q.clock, q.day, q.now, bands);
      if o in AsOffers(id, options) {
        var k :| 0 <= k < |options| && o == AsOffer(id, options[k]);
        OffersOfHold(q.slots, found.value, q.clock, q.day, q.now, bands, options[k]);
        var i: nat :| i < |bands| && IsOffered(q.slots, found.value, q.clock, q.day, q.now, bands[i])
          && options[k] == OptionFor(q.slots, found.value, q.clock, q.day, bands[i]);
        assert FreeOn(q, id, i) && o == OfferFor(q, id, i);
      }
      if OfferedOn(q, id, o) {
        var i: nat :| FreeOn(q, id, i) && o == OfferFor(q, id, i);
        var option := OptionFor(q.slots, found.value, q.clock, q.day, bands[i]);
        OffersOfHold(q.slots, found.value, q.clock, q.day, q.now, bands, option);
        var k :| 0 <= k < |options| && options[k] == option;
        assert AsOffers(id, options)[k] == o;
      }
    }
  }

  /** The offers are the free bands of the listed courts. */
  lemma {:induction false} OffersForHold(q: Query, listed: seq<CourtRow>, o: Offer)
    requires GoodCourts(q.courts)
    ensures o in OffersFor(q, listed) <==> exists c :: 0 <= c < |listed| && OfferedOn(q, listed[c].id, o)
  {
    hide OfferedOn, OffersAt;
    if listed != [] {
      var n := |listed| - 1;
      OffersForHold(q, listed[..n], o);
      OfferedOnHolds(q, listed[n].id, o);
      assert forall c :: 0 <= c < n ==> listed[..n][c] == listed[c];
      if exists c :: 0 <= c < |listed| && OfferedOn(q, listed[c].id, o) {
        var c :| 0 <= c < |listed| && OfferedOn(q, listed[c].id, o);
        assert c < n ==> OfferedOn(q, listed[..n][c].id, o);
      }
    }
  }

  /** The list has an entry with the offer's start and time that holds the offer. */
  predicate ShownAtItsTime(answer: seq<BandOption>, o: Offer) {
    exists g :: 0 <= g < |answer| && answer[g].bandStart == o.bandStart && answer[g].sortMinutes == o.sortMinutes
                && CourtOffer(o.courtId, o.slotId, o.price) in answer[g].courts
  }

  /** Every free band of every listed court is in the returned list, under its own time. */
  ghost predicate EveryBandAtItsTime(q: Query, listed: seq<CourtRow>)
    requires GoodCourts(q.courts)
  {
    forall c, i: nat {:trigger FreeOn(q, listed[c].id, i)} :: 0 <= c < |listed| && FreeOn(q, listed[c].id, i) ==>
      ShownAtItsTime(Answer(q, listed), OfferFor(q, listed[c].id, i))
  }

  /** No two free bands of the listed courts start at the same hour of different days. */
  ghost predicate OneDayPerHour(q: Query, listed: seq<CourtRow>)
    requires GoodCourts(q.courts)
  {
    forall c, d, i: nat, j: nat {:trigger FreeOn(q, listed[c].id, i), FreeOn(q, listed[d].id, j)} ::
      0 <= c < |listed| && 0 <= d < |listed| && FreeOn(q, listed[c].id, i) && FreeOn(q, listed[d].id, j)
      && GridOf(q, listed[c].id)[i].start == GridOf(q, listed[d].id)[j].start ==>
        BandSortMinutes(GridOf(q, listed[c].id)[i]) == BandSortMinutes(GridOf(q, listed[d].id)[j])
  }

  lemma FreeIsOffered(q: Query, listed: seq<CourtRow>, c: nat, i: nat) returns (k: nat)
    requires GoodCourts(q.courts) && c < |listed| && FreeOn(q, listed[c].id, i)
    ensures k < |OffersFor(q, listed)| && OffersFor(q, listed)[k] == OfferFor(q, listed[c].id, i)
  {
    hide FreeOn, OfferFor, OffersFor;
    var o := OfferFor(q, listed[c].id, i);
    assert OfferedOn(q, listed[c].id, o);
    OffersForHold(q, listed, o);
    k :| 0 <= k < |OffersFor(q, listed)| && OffersFor(q, listed)[k] == o;
  }

  lemma OfferedIsFree(q: Query, listed: seq<CourtRow>, k: nat) returns (c: nat, i: nat)
    requires GoodCourts(q.courts) && k < |OffersFor(q, listed)|
    ensures c < |listed| && FreeOn(q, listed[c].id, i) && OfferFor(q, listed[c].id, i) == OffersFor(q, listed)[k]
  {
    hide FreeOn, OfferFor, OffersFor;
    var o := OffersFor(q, listed)[k];
    OffersForHold(q, listed, o);
    c :| 0 <= c < |listed| && OfferedOn(q, listed[c].id, o);
    i :| FreeOn(q, listed[c].id, i) && o == OfferFor(q, listed[c].id, i);
  }

  lemma SameStartsOnTheGrids(q: Query, listed: seq<CourtRow>)
    requires GoodCourts(q.courts)
    ensures OneDayPerHour(q, listed) <==> SameStartSameTime(OffersFor(q, listed))
  {
    hide OffersFor, GridOf, OfferFor, FreeOn;
    var offers := OffersFor(q, listed);
    if OneDayPerHour(q, listed) {
      forall k, l | 0 <= k < |offers| && 0 <= l < |offers| && offers[k].bandStart == offers[l].bandStart
        ensures offers[k].sortMinutes == offers[l].sortMinutes
      {
        var c, i := OfferedIsFree(q, listed, k);
        var d, j := OfferedIsFree(q, listed, l);
        OfferForIs(q, listed[c].id, i);
        OfferForIs(q, listed[d].id, j);
      }
    }
    if SameStartSameTime(offers) {
      forall c, d, i: nat, j: nat | 0 <= c < |listed| && 0 <= d < |listed| && FreeOn(q, listed[c].id, i)
      && FreeOn(q, listed[d].id, j)
        && GridOf(q, listed[c].id)[i].start == GridOf(q, listed[d].id)[j].start
        ensures BandSortMinutes(GridOf(q, listed[c].id)[i]) == BandSortMinutes(GridOf(q, listed[d].id)[j])
      {
        var k := FreeIsOffered(q, listed, c, i);
        var l := FreeIsOffered(q, listed, d, j);
        OfferForIs(q, listed[c].id, i);
        OfferForIs(q, listed[d].id, j);
      }
    }
  }

  lemma {:induction false} CourtsAtHold(offers: seq<Offer>, k: nat)
    requires k < |offers|
    ensures CourtOffer(offers[k].courtId, offers[k].slotId, offers[k].price) in CourtsAt(offers, offers[k].bandStart)
  {
    if k < |offers| - 1 {
      CourtsAtHold(offers[..|offers| - 1], k);
    }
  }

  /** In the sorted list, as in the groups it was sorted from, an offer's own start has one entry. */
  lemma ShownExactly(offers: seq<Offer>, k: nat)
    requires k < |offers|
    ensures PlaceOfBand(Grouped(offers), offers[k].bandStart).Some?
    ensures ShownAtItsTime(SortBy(Grouped(offers), Earlier), offers[k]) <==>
            Grouped(offers)[PlaceOfBand(Grouped(offers),
                                        offers[k].bandStart).value].sortMinutes == offers[k].sortMinutes
  {
    var groups, o := Grouped(offers), offers[k];
    var answer := SortBy(groups, Earlier);
    GroupedLaw(offers);
    BandsComeSorted(offers);
    CourtsAtHold(offers, k);
    assert HasBand(groups, o.bandStart);
    hide Grouped, CourtsAt, FirstAt, SortBy;
    var g := PlaceOfBand(groups, o.bandStart).value;
    assert GroupsThem(groups[g], offers);
    assert groups[g] in multiset(groups) && groups[g] in multiset(answer);
    var h :| 0 <= h < |answer| && answer[h] == groups[g];
    if ShownAtItsTime(answer, o) {
      var a :| 0 <= a < |answer| && answer[a].bandStart == o.bandStart && answer[a].sortMinutes == o.sortMinutes;
      assert answer[a] in multiset(answer) && answer[a] in multiset(groups);
      var b :| 0 <= b < |groups| && groups[b] == answer[a];
      assert b == g;
    }
  }

  /**
   * Bands are grouped by their wall-clock start alone, so the returned list shows every free band of
   * every listed court under its own time exactly when no two of those bands start at the same hour
   * of different days: one court's early band and another's past-midnight one.
   */
  lemma {:induction false} BandsAtTheirTimeExactly(q: Query, listed: seq<CourtRow>)
    requires GoodCourts(q.courts)
    ensures EveryBandAtItsTime(q, listed) <==> OneDayPerHour(q, listed)
  {
    hide OffersFor, FreeOn, OfferFor, Grouped, OneDayPerHour, SameStartSameTime, ShownAtItsTime;
    var offers := OffersFor(q, listed);
    SameStartsOnTheGrids(q, listed);
    ListedAtItsTimeExactly(offers);
    if ListedAtItsTime(offers) {
      forall c, i: nat | 0 <= c < |listed| && FreeOn(q, listed[c].id, i)
        ensures ShownAtItsTime(Answer(q, listed), OfferFor(q, listed[c].id, i))
      {
        var k := FreeIsOffered(q, listed, c, i);
        ShownExactly(offers, k);
      }
    }
    if EveryBandAtItsTime(q, listed) {
      forall k | 0 <= k < |offers|
        ensures ShownAtItsTime(Answer(q, listed), offers[k])
        ensures var g := PlaceOfBand(Grouped(offers), offers[k].bandStart);
                g.Some? && Grouped(offers)[g.value].sortMinutes == offers[k].sortMinutes
      {
        var c, i := OfferedIsFree(q, listed, k);
        ShownExactly(offers, k);
      }
    }
  }

  /** One court opens half an hour after midnight; the other opens at half past six and closes at two. */
  function TwoMidnights(clubId: ClubId): seq<CourtRow> {
    [CourtRow("1", clubId, "Cancha 1", CourtSchedule(DayHours(30, 1380), 90, map[]), 1000, []),
     CourtRow("2", clubId, "Cancha 2", CourtSchedule(DayHours(1110, 120), 90, map[]), 1000, [])]
  }

  lemma {:induction false} BandsFromAt(cursor: nat, close: nat, duration: nat, i: nat)
    requires duration > 0 && cursor + (i + 1) * duration <= close
    ensures i < |BandsFrom(cursor, close, duration)|
    ensures BandsFrom(cursor, close, duration)[i] == BandAt(cursor + i * duration, duration)
    decreases i
  {
    if i > 0 {
      BandsFromAt(cursor + duration, close, duration, i - 1);
    }
  }

  /**
   * Whatever the day and the clock, with no slot rows yet: the first band of court 1 and the last of
   * court 2 both start at half past twelve, a day apart, and the list shows one of them a day off.
   */
  lemma TwoMidnightsInOneBand(clubId: ClubId, day: Day, clock: int -> Instant, now: Instant)
    requires IsClock(clock) && now < DayStart(clock, day)
    ensures GoodCourts(TwoMidnights(clubId))
    ensures var courts := TwoMidnights(clubId);
            var q := Query([], courts, clubId, clock, day, now);
      && FreeOn(q, "1", 0) && FreeOn(q, "2", 4)
      && OfferFor(q, "1", 0) == Offer(30, 30, "1", None, 1000)
         && OfferFor(q, "2", 4) == Offer(30, 1470, "2", None, 1000)
      && OfferFor(q, "1", 0) in OffersFor(q, courts) && OfferFor(q, "2", 4) in OffersFor(q, courts)
      && !EveryBandAtItsTime(q, courts)
  {
    hide FreeOn, OfferFor, GridOf, EveryBandAtItsTime, OneDayPerHour, OffersFor, FindCourt, IsClock;
    var courts := TwoMidnights(clubId);
    var q := Query([], courts, clubId, clock, day, now);
    TwoGrids(q);
    FreeWithNoRows(q, courts[0], 0, 30);
    FreeWithNoRows(q, courts[1], 4, 1470);
    var k := FreeIsOffered(q, courts, 0, 0);
    var l := FreeIsOffered(q, courts, 1, 4);
    BandsAtTheirTimeExactly(q, courts);
    NotOneDay(q, courts);
  }

  lemma FreeWithNoRows(q: Query, court: CourtRow, i: nat, minute: nat)
    requires GoodCourts(q.courts) && q.slots == [] && IsClock(q.clock) && q.now < DayStart(q.clock, q.day)
    requires FindCourt(q.courts, q.clubId, court.id) == Some(court) && court.rules == []
    requires i < |GridOf(q, court.id)| && GridOf(q, court.id)[i] == BandAt(minute, court.schedule.slotDurationMinutes)
    ensures FreeOn(q, court.id, i)
    ensures OfferFor(q, court.id, i) == Offer(minute % MINUTES_A_DAY, minute, court.id, None, court.priceCents)
  {
    var band := GridOf(q, court.id)[i];
    TimesAre(q.clock, q.day, band);
    assert BandSortMinutes(band) == minute;
    var dawn := q.day * MINUTES_A_DAY;
    assert q.clock(dawn + minute) >= q.clock(dawn) by {
      if minute == 0 {
        assert dawn + minute == dawn;
      }
    }
    hide GridOf, IsClock;
  }

  lemma TwoGrids(q: Query)
    requires q.courts == TwoMidnights(q.clubId)
    ensures GoodCourts(q.courts)
    ensures FindCourt(q.courts, q.clubId, "1") == Some(q.courts[0])
            && FindCourt(q.courts, q.clubId, "2") == Some(q.courts[1])
    ensures |GridOf(q, "1")| > 0 && GridOf(q, "1")[0] == BandAt(30, 90)
    ensures |GridOf(q, "2")| > 4 && GridOf(q, "2")[4] == BandAt(1470, 90)
  {
    BandsFromAt(30, 1380, 90, 0);
    BandsFromAt(1110, 1560, 90, 4);
    assert FindCourt(q.courts, q.clubId, "2") == FindCourt(q.courts[1..], q.clubId, "2");
    hide BandsFrom, BandAt;
  }

  lemma NotOneDay(q: Query, listed: seq<CourtRow>)
    requires GoodCourts(q.courts) && |listed| == 2 && FreeOn(q, listed[0].id, 0) && FreeOn(q, listed[1].id, 4)
    requires GridOf(q, listed[0].id)[0].start == GridOf(q, listed[1].id)[4].start
    requires BandSortMinutes(GridOf(q, listed[0].id)[0]) != BandSortMinutes(GridOf(q, listed[1].id)[4])
    ensures !OneDayPerHour(q, listed)
  {
    hide FreeOn, GridOf;
  }
}
