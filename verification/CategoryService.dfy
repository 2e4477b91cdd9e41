/**
 * Drawing a category, undoing the draw, seeding its bracket and loading its results, as the service
 * writes them (src/competitions/competitions.service.ts). The database's ids are a counter.
 */
module CategoryService {
  import opened Base
  import opened Score
  import opened Draw
  import opened RoundRobin
  import opened Zonas
  import opened Standings
  import opened Bracket
  import opened BracketService
  import opened Categories
  import opened CategoryLaws

  // ── Match rows of a round robin ─────────────────────────────────────────────

  predicate Inside(pairings: seq<Pairing>, count: nat) {
    forall k :: 0 <= k < |pairings| ==> pairings[k].a < count && pairings[k].b < count
  }

  /** One row per pairing; a map counts the matches of each round so far. */
  method PairingRows(members: seq<Pair>, pairings: seq<Pairing>, zona: Option<GroupId>) returns (rows: seq<Match>)
    requires Inside(pairings, |members|)
    ensures rows == GroupRows(members, pairings, zona)
  {
    rows := [];
    var positions: map<nat, nat> := map[];
    for k := 0 to |pairings|
      invariant rows == GroupRows(members, pairings, zona)[..k]
      invariant forall round :: (if round in positions then positions[round] else 0) == InRound(pairings, k, round)
    {
      assert GroupRows(members, pairings, zona)[..k + 1] == GroupRows(members, pairings, zona)[..k] +
             [GroupRows(members, pairings, zona)[k]];
      var p := pairings[k];
      var position := if p.round in positions then positions[p.round] else 0;
      positions := positions[p.round := position + 1];
      rows := rows + [UnplayedMatch().(group := zona, round := p.round, position := position,
                               pairA := Some(members[p.a].id), pairB := Some(members[p.b].id))];
    }
  }

  lemma AllInside(count: nat)
    ensures Inside(AllPairings(count), count)
  {
    PairingsAreComplete(count);
  }

  /** Every pairing as a row, in the order the circle draws them. */
  method CircleRows(members: seq<Pair>, zona: Option<GroupId>) returns (rows: seq<Match>)
    ensures rows == ZonaRows(members, zona)
  {
    var pairings := RoundRobinPairings(|members|);
    AllInside(|members|);
    rows := PairingRows(members, pairings, zona);
  }

  /** Every placed pairing as a row on its wave's court. */
  method PlacedRows(members: seq<Pair>, placed: seq<Placed>, courts: seq<CourtId>) returns (rows: seq<Match>)
    requires forall k :: 0 <= k < |placed| ==>
      placed[k].pairing.a < |members| && placed[k].pairing.b < |members| && placed[k].court < |courts|
    ensures rows == WaveRows(members, placed, courts)
  {
    var waved := seq(|placed|, k requires 0 <= k < |placed| => placed[k].pairing.(round := placed[k].wave));
    var plain := PairingRows(members, waved, None);
    rows := seq(|placed|, k requires 0 <= k < |placed| => plain[k].(courtId := Some(courts[placed[k].court])));
  }

  /** Waves over the courts, or the circle's own rounds when there are none. */
  method WavesOrRounds(members: seq<Pair>, courts: seq<CourtId>) returns (rows: seq<Match>, placed: seq<Placed>)
    ensures courts == [] ==> rows == ZonaRows(members, None)
    ensures courts != [] ==> multiset(Pairings(placed)) == multiset(AllPairings(|members|))
                             && SoundWaves(placed, |courts|)
    ensures courts != [] ==> PlacedInside(placed, |members|, |courts|) && rows == WaveRows(members, placed, courts)
  {
    hide AllPairings, WaveRows, GroupRows;
    placed := [];
    if courts == [] {
      rows := CircleRows(members, None);
    } else {
      var pairings := RoundRobinPairings(|members|);
      var packed := PackIntoWaves(pairings, |courts|);
      placed := packed.value;
      PlacedFits(members, placed);
      CourtsInside(placed, |courts|);
      rows := PlacedRows(members, placed, courts);
    }
  }

  predicate PlacedInside(placed: seq<Placed>, members: nat, courts: nat) {
    forall k :: 0 <= k < |placed| ==>
      placed[k].pairing.a < members && placed[k].pairing.b < members && placed[k].court < courts
  }

  lemma CourtsInside(placed: seq<Placed>, courts: nat)
    requires SoundWaves(placed, courts)
    ensures forall k :: 0 <= k < |placed| ==> placed[k].court < courts
  {
  }

  // ── Zonas, one after another ────────────────────────────────────────────────

  /** Adding the rows of one more zona to those of the zonas before it. */
  lemma MoreZonaRows(groups: seq<seq<Pair>>, zonas: seq<Zona>, g: nat)
    requires |zonas| == |groups| && g < |groups|
    ensures AllZonaRows(groups[..g + 1], zonas[..g + 1]) ==
            AllZonaRows(groups[..g], zonas[..g]) + ZonaRows(groups[g], Some(zonas[g].id))
  {
    assert groups[..g + 1][..g] == groups[..g] && zonas[..g + 1][..g] == zonas[..g];
  }

  lemma PartsDiffer(ids: seq<nat>, more: seq<nat>)
    requires NoRepeats(ids + more)
    ensures NoRepeats(ids) && NoRepeats(more)
    ensures forall i, j :: 0 <= i < |ids| && 0 <= j < |more| ==> ids[i] != more[j]
  {
    var all := ids + more;
    assert forall i :: 0 <= i < |ids| ==> all[i] == ids[i];
    assert forall i :: 0 <= i < |more| ==> all[|ids| + i] == more[i];
  }

  lemma MoreInserted(rows: seq<Match>, ids: seq<MatchId>, moreRows: seq<Match>, moreIds: seq<MatchId>)
    requires |ids| == |rows| && |moreIds| == |moreRows| && NoRepeats(ids + moreIds)
    ensures NoRepeats(ids) && NoRepeats(moreIds)
    ensures Inserted(rows + moreRows, ids + moreIds) == Inserted(rows, ids) + Inserted(moreRows, moreIds)
  {
    hide Inserted, NoRepeats;
    PartsDiffer(ids, moreIds);
    var whole, first, second := Inserted(rows + moreRows, ids +
                                         moreIds), Inserted(rows, ids), Inserted(moreRows, moreIds);
    forall i | 0 <= i < |ids|
      ensures whole[ids[i]] == first[ids[i]] && ids[i] !in second
    {
      assert (ids + moreIds)[i] == ids[i] && (rows + moreRows)[i] == rows[i];
    }
    forall i | 0 <= i < |moreIds|
      ensures whole[moreIds[i]] == second[moreIds[i]]
    {
      assert (ids + moreIds)[|ids| + i] == moreIds[i] && (rows + moreRows)[|ids| + i] == moreRows[i];
    }
  }

  lemma {:induction false} InSomeZona(groups: seq<seq<Pair>>, zonas: seq<Zona>, p: Pair)
    requires |zonas| == |groups| && p in Flatten(groups)
    ensures ZonaOf(groups, zonas, p.id).Some?
  {
    var n := |groups| - 1;
    if p in groups[n] {
      var i :| 0 <= i < |groups[n]| && groups[n][i] == p;
      assert HasId(groups[n], p.id);
    } else {
      InSomeZona(groups[..n], zonas[..n], p);
    }
  }

  /** The pairs once the first zonas claimed their members: the rest are as they were. */
  ghost predicate Regrouped(pairs: seq<Pair>, before: seq<Pair>, groups: seq<seq<Pair>>, zonas: seq<Zona>)
    requires |zonas| == |groups|
  {
    && |pairs| == |before|
    && (forall i :: 0 <= i < |pairs| ==>
          var zona := ZonaOf(groups, zonas, before[i].id);
          pairs[i] == (if zona.Some? then before[i].(group := zona) else before[i]))
  }

  /** The update that puts a zona's members in it. */
  function Claimed(pairs: seq<Pair>, members: seq<Pair>, zona: GroupId): seq<Pair> {
    seq(|pairs|, i requires 0 <= i < |pairs| =>
          if HasId(members, pairs[i].id) then pairs[i].(group := Some(zona)) else pairs[i])
  }

  lemma RegroupOne(pairs: seq<Pair>, before: seq<Pair>, groups: seq<seq<Pair>>, zonas: seq<Zona>, g: nat)
    requires |zonas| == |groups| && g < |groups| && Regrouped(pairs, before, groups[..g], zonas[..g])
    ensures Regrouped(Claimed(pairs, groups[g], zonas[g].id), before, groups[..g + 1], zonas[..g + 1])
  {
    assert groups[..g + 1][..g] == groups[..g] && zonas[..g + 1][..g] == zonas[..g];
    hide HasId;
  }

  lemma AllRegrouped(cat: Category, pairs: seq<Pair>, zonas: seq<Zona>)
    requires cat.groupSize >= 2 && DistinctPairIds(cat.pairs) && |zonas| == |GroupsOf(cat)|
    requires Regrouped(pairs, cat.pairs, GroupsOf(cat), zonas)
    ensures pairs == InZonas(cat.pairs, GroupsOf(cat), zonas)
  {
    hide DistinctPairIds, GroupsOf, ZonaOf;
    GroupsHoldEveryone(cat);
    forall i | 0 <= i < |pairs|
      ensures ZonaOf(GroupsOf(cat), zonas, cat.pairs[i].id).Some?
    {
      InSomeZona(GroupsOf(cat), zonas, cat.pairs[i]);
    }
  }

  lemma GroupsAre(cat: Category)
    requires cat.groupSize >= 2
    ensures Split(Seeded(cat.pairs), cat.groupSize) == Ok(GroupsOf(cat))
  {
  }

  lemma NoZonasYet(pairs: seq<Pair>, rows: seq<Match>, ids: seq<MatchId>)
    requires rows == [] && ids == []
    ensures Regrouped(pairs, pairs, [], []) && rows == AllZonaRows([], []) && Inserted(rows, ids) == map[]
  {
  }

  /** Different ids, all handed out since `from`. */
  ghost predicate Numbered(ids: seq<nat>, from: nat, to: nat) {
    NoRepeats(ids) && forall i :: 0 <= i < |ids| ==> from <= ids[i] < to
  }

  lemma MoreNumbers(ids: seq<nat>, more: seq<nat>, from: nat, mid: nat, to: nat)
    requires Numbered(ids, from, mid) && Numbered(more, mid, to) && from <= mid <= to
    ensures Numbered(ids + more, from, to)
  {
  }

  lemma InsertedBelow(rows: seq<Match>, ids: seq<MatchId>, from: nat, to: nat)
    requires |ids| == |rows| && Numbered(ids, from, to)
    ensures AllBelow(Inserted(rows, ids), to)
  {
  }

  lemma FixtureOfAll(cat: Category, courts: seq<CourtId>, rows: seq<Match>, ids: seq<MatchId>, placed: seq<Placed>,
                     from: nat)
    requires cat.format.AllPlayAll? && |cat.pairs| >= 2 && cat.groupSize >= 2 && cat.matches == map[]
    requires |ids| == |rows| && NoRepeats(ids) && forall i :: 0 <= i < |ids| ==> ids[i] == from + i
    requires courts == [] ==> rows == ZonaRows(Seeded(cat.pairs), None)
    requires courts != [] ==>
               multiset(Pairings(placed)) == multiset(AllPairings(|Seeded(cat.pairs)|)) && SoundWaves(placed, |courts|)
    requires courts != [] ==> PlacedInside(placed, |Seeded(cat.pairs)|, |courts|)
                              && rows == WaveRows(Seeded(cat.pairs), placed, courts)
    ensures var given := Given([], ids, map[], placed);
            && GivenFits(cat, courts, given)
            && WithFixture(cat, courts, given) == cat.(hasFixture := true, matches := cat.matches + Inserted(rows, ids))
    ensures AllBelow(cat.matches + Inserted(rows, ids), from + |rows|)
  {
    hide AllPairings, WaveRows, GroupRows, SoundWaves;
    assert |Seeded(cat.pairs)| == |cat.pairs|;
  }

  // ── The service ─────────────────────────────────────────────────────────────

  predicate AllBelow(ms: Matches, n: nat) {
    forall id :: id in ms ==> id < n
  }

  /** Ids in use are below the counter, pairs have their own ids, and an undrawn category has no matches. */
  ghost predicate SoundTables(e: Event, n: nat) {
    forall c {:trigger e.categories[c]} :: c in e.categories ==>
      && AllBelow(e.categories[c].matches, n) && DistinctPairIds(e.categories[c].pairs)
      && (!e.categories[c].hasFixture ==> e.categories[c].matches == map[])
      && e.categories[c].groupSize >= 2
  }

  lemma SeededCount(pairs: seq<Pair>)
    ensures |Seeded(pairs)| == |pairs|
  {
  }

  lemma StraightFixture(cat: Category, given: Given, rows: Matches)
    requires cat.format.StraightBracket? && |cat.pairs| >= 2 && cat.groupSize >= 2 && cat.matches == map[]
    requires given.rows == [] && given.zonas == [] && |AsEntrants(Seeded(cat.pairs))| == |cat.pairs|
    requires FreshIds(cat.matches.Keys, RoundsFor(|cat.pairs|), given.spots)
    requires rows == cat.matches + Created(Drawn(AsEntrants(Seeded(cat.pairs))), RoundsFor(|cat.pairs|), given.spots)
    ensures GivenFits(cat, [], given)
    ensures WithFixture(cat, [], given) == cat.(hasFixture := true, hasBracket := true, matches := rows)
  {
    hide RoundsFor, Drawn, FreshIds, Created, Seeded;
    assert cat.matches.Keys == {};
  }

  lemma CourtsOnlyForAll(cat: Category, courts: seq<CourtId>, given: Given)
    requires |cat.pairs| >= 2 && cat.groupSize >= 2 && !cat.format.AllPlayAll? && GivenFits(cat, [], given)
    ensures GivenFits(cat, courts, given) && WithFixture(cat, courts, given) == WithFixture(cat, [], given)
  {
  }

  lemma DrawnStillSound(cat: Category, courts: seq<CourtId>, given: Given)
    requires |cat.pairs| >= 2 && cat.groupSize >= 2 && DistinctPairIds(cat.pairs) && GivenFits(cat, courts, given)
    ensures var drawn := WithFixture(cat, courts, given);
            DistinctPairIds(drawn.pairs) && drawn.groupSize == cat.groupSize && drawn.hasFixture
  {
    hide GivenFits, AllZonaRows, RoundRobinRows, GroupsOf, ZonaOf;
  }

  lemma TablesAfter(e: Event, n: nat, c: CategoryId, cat: Category, more: nat)
    requires SoundTables(e, n) && n <= more && AllBelow(cat.matches, more) && DistinctPairIds(cat.pairs)
             && cat.groupSize >= 2
    requires !cat.hasFixture ==> cat.matches == map[]
    ensures SoundTables(e.(categories := e.categories[c := cat]), more)
  {
    hide DistinctPairIds;
  }

  lemma UngroupedDistinct(pairs: seq<Pair>)
    requires DistinctPairIds(pairs)
    ensures DistinctPairIds(Ungrouped(pairs))
  {
  }

  lemma NothingBelow(n: nat)
    ensures AllBelow(map[], n)
  {
  }

  lemma UndrawnStaysEmpty(cat: Category, id: MatchId, edit: MatchEdit, format: MatchFormat, courts: set<CourtId>)
    requires !cat.hasFixture ==> cat.matches == map[]
    requires UpdateMatch(cat.matches, id, edit, format, cat.format.ZonasThenBracket? && cat.hasBracket, courts).Ok?
    ensures cat.hasFixture
  {
  }

  /** The call did what the rule says: its outcome when it succeeds, nothing when it refuses. */
  ghost predicate Answers(r: Result<()>, before: Event, rule: Result<Event>, after: Event) {
    match rule
    case Ok(e) => r.Ok? && after == e
    case Err(error) => r == Err(error) && after == before
  }

  ghost predicate AreTables(tables: seq<seq<PairId>>, cat: Category, listing: seq<MatchId>, g: nat) {
    g <= |cat.zonas| && |tables| == g
    && forall h :: 0 <= h < g ==> tables[h] == ZonaTable(cat, listing, cat.zonas[h].id)
  }

  class CategoriesService {
    var event: Event
    var nextId: nat

    ghost predicate Valid()
      reads this
    {
      SoundTables(event, nextId)
    }

    constructor (event: Event, nextId: nat)
      requires SoundTables(event, nextId)
      ensures Valid() && this.event == event
    {
      this.event := event;
      this.nextId := nextId;
    }

    /** Ids nothing has yet. */
    method NewIds(count: nat) returns (ids: seq<nat>)
      modifies this`nextId
      ensures nextId == old(nextId) + count && |ids| == count && NoRepeats(ids)
      ensures forall i :: 0 <= i < count ==> ids[i] == old(nextId) + i
    {
      var from := nextId;
      ids := seq(count, i requires 0 <= i < count => from + i);
      nextId := nextId + count;
    }

    /** Everyone against everyone, in waves over the event's courts when it has any. */
    method DrawAllPlayAll(cat: Category, courts: seq<CourtId>) returns (drawn: Category, given: Given)
      requires cat.format.AllPlayAll? && |cat.pairs| >= 2 && cat.groupSize >= 2 && cat.matches == map[]
      modifies this`nextId
      ensures nextId >= old(nextId) && AllBelow(drawn.matches, nextId)
      ensures GivenFits(cat, courts, given) && drawn == WithFixture(cat, courts, given)
    {
      hide *;
      var rows, placed := WavesOrRounds(Seeded(cat.pairs), courts);
      ghost var from := nextId;
      var ids := NewIds(|rows|);
      given := Given([], ids, map[], placed);
      FixtureOfAll(cat, courts, rows, ids, placed, from);
      drawn := cat.(hasFixture := true, matches := cat.matches + Inserted(rows, ids));
    }

    /** The zonas one after another: the row, its members, its round robin. */
    method DrawZonas(cat: Category) returns (drawn: Category, given: Given)
      requires cat.format.ZonasThenBracket? && |cat.pairs| >= 2 && cat.groupSize >= 2 && DistinctPairIds(cat.pairs)
               && cat.matches == map[]
      modifies this`nextId
      ensures nextId >= old(nextId) && AllBelow(drawn.matches, nextId)
      ensures GivenFits(cat, [], given) && drawn == WithFixture(cat, [], given)
    {
      hide HasId, ZonaOf, AllZonaRows, ZonaRows, DistinctPairIds, Inserted, GroupsOf, InZonas;
      var split := SplitIntoGroups(Seeded(cat.pairs), cat.groupSize);
      var groups := split.value;
      assert groups == GroupsOf(cat) by { GroupsAre(cat); }
      var zonaIds := NewIds(|groups|);
      var zonas := NewZonas(zonaIds);
      var pairs, matches := cat.pairs, cat.matches;
      var rows: seq<Match>, rowIds: seq<MatchId> := [], [];
      NoZonasYet(pairs, rows, rowIds);
      assert groups[..0] == [] && zonas[..0] == [];
      ghost var from := nextId;
      for g := 0 to |groups|
        invariant nextId >= from && Regrouped(pairs, cat.pairs, groups[..g], zonas[..g])
        invariant rows == AllZonaRows(groups[..g], zonas[..g])
        invariant |rowIds| == |rows| && Numbered(rowIds, from, nextId)
        invariant matches == Inserted(rows, rowIds)
      {
        RegroupOne(pairs, cat.pairs, groups, zonas, g);
        MoreZonaRows(groups, zonas, g);
        pairs := Claimed(pairs, groups[g], zonas[g].id);
        var zonaRows := CircleRows(groups[g], Some(zonas[g].id));
        ghost var before := nextId;
        var ids := NewIds(|zonaRows|);
        MoreNumbers(rowIds, ids, from, before, nextId);
        MoreInserted(rows, rowIds, zonaRows, ids);
        matches := matches + Inserted(zonaRows, ids);
        rows, rowIds := rows + zonaRows, rowIds + ids;
      }
      assert groups[..|groups|] == groups && zonas[..|groups|] == zonas;
      AllRegrouped(cat, pairs, zonas);
      given := Given(zonaIds, rowIds, map[], []);
      drawn := cat.(hasFixture := true, zonas := zonas, pairs := pairs, matches := matches);
      InsertedBelow(rows, rowIds, from, nextId);
    }

    /** The bracket straight from the registered pairs. */
    method DrawStraight(cat: Category) returns (drawn: Category, given: Given)
      requires cat.format.StraightBracket? && |cat.pairs| >= 2 && cat.groupSize >= 2 && cat.matches == map[]
      modifies this`nextId
      ensures nextId >= old(nextId) && AllBelow(drawn.matches, nextId)
      ensures GivenFits(cat, [], given) && drawn == WithFixture(cat, [], given)
    {
      hide RoundsFor, Drawn, FreshIds, Created, Seeded;
      var entrants := AsEntrants(Seeded(cat.pairs));
      assert |entrants| == |cat.pairs| by { SeededCount(cat.pairs); }
      var table := new CompetitionMatches.Of(cat.matches, nextId);
      var made := table.CreateBracket(entrants);
      nextId := table.nextId;
      given := Given([], [], made.value, []);
      drawn := cat.(hasFixture := true, hasBracket := true, matches := table.rows);
      StraightFixture(cat, given, table.rows);
    }

    /**
     * Draws a category's fixture. The ids handed out are returned; whatever ids there had been, a
     * refusal would have been the same, and it writes nothing.
     */
    method GenerateFixture(c: CategoryId, courts: seq<CourtId>) returns (r: Result<Given>)
      requires Valid()
      modifies this
      ensures Valid()
      ensures r.Ok? ==> FixtureFits(old(event), c, courts, r.value)
                        && Categories.GenerateFixture(old(event), c, courts, r.value) == Ok(event)
      ensures r.Err? ==> event == old(event)
      ensures r.Err? ==> forall given :: FixtureFits(old(event), c, courts, given) ==>
                           Categories.GenerateFixture(old(event), c, courts, given) == Err(r.error)
    {
      hide GivenFits, WithFixture, GroupsOf, DistinctPairIds, AllBelow;
      if !OpenForChanges(event) {
        return Err(Conflict);
      }
      if c !in event.categories {
        return Err(NotFound);
      }
      var cat := event.categories[c];
      if cat.hasFixture {
        return Err(Conflict);
      }
      if |cat.pairs| < 2 {
        return Err(BadRequest);
      }
      if cat.format.ZonasThenBracket? {
        var split := SplitIntoGroups(Seeded(cat.pairs), cat.groupSize);
        GroupsAre(cat);
        if |split.value| * Min(cat.advancePerGroup, cat.groupSize) < 2 {
          return Err(BadRequest);
        }
      }
      var drawn: Category, given: Given;
      ghost var before := nextId;
      match cat.format {
        case AllPlayAll => drawn, given := DrawAllPlayAll(cat, courts);
        case ZonasThenBracket => drawn, given := DrawZonas(cat);
        case StraightBracket => drawn, given := DrawStraight(cat);
      }
      if !cat.format.AllPlayAll? {
        CourtsOnlyForAll(cat, courts, given);
      }
      DrawnStillSound(cat, courts, given);
      TablesAfter(event, before, c, drawn, nextId);
      event := event.(categories := event.categories[c := drawn]);
      if event.status.Open? {
        event := event.(status := InProgress);
      }
      return Ok(given);
    }

    /** Undoes the fixture while no result has been loaded. */
    method DeleteFixture(c: CategoryId) returns (r: Result<()>)
      requires Valid()
      modifies this`event
      ensures Valid() && Answers(r, old(event), Categories.DeleteFixture(old(event), c), event)
    {
      hide DistinctPairIds, AllBelow;
      if event.status.Cancelled? {
        return Err(Conflict);
      }
      if c !in event.categories {
        return Err(NotFound);
      }
      var cat := event.categories[c];
      if HasResults(cat.matches, None) {
        return Err(Conflict);
      }
      var undone := cat.(matches := map[], pairs := Ungrouped(cat.pairs), zonas := [], hasFixture := false,
                         hasBracket := false);
      UngroupedDistinct(cat.pairs);
      NothingBelow(nextId);
      TablesAfter(event, nextId, c, undone, nextId);
      event := event.(categories := event.categories[c := undone]);
      if !AnyFixture(event) && event.status.InProgress? {
        event := event.(status := Open);
      }
      return Ok(());
    }

    /** The zonas' final tables, in the order of the zonas. */
    method ZonaTables(cat: Category, listing: seq<MatchId>) returns (tables: seq<seq<PairId>>)
      requires DistinctPairIds(cat.pairs)
      ensures AreTables(tables, cat, listing, |cat.zonas|)
    {
      tables := [];
      SeededSame(cat.pairs);
      hide Ranked, DistinctPairIds, Seeded;
      var pairs := Seeded(cat.pairs);
      for g := 0 to |cat.zonas|
        invariant AreTables(tables, cat, listing, g)
      {
        MembersSize(pairs, cat.zonas[g].id);
        var table, ranked := ComputeStandings(IdsOf(MembersOf(pairs, cat.zonas[g].id)),
                                              PlayedIn(cat.matches, listing, cat.zonas[g].id));
        tables := tables + [ranked];
      }
    }

    /** First of each zona, then second of each, and so on. */
    method QualifiedEntrants(cat: Category, tables: seq<seq<PairId>>,
                             ghost listing: seq<MatchId>) returns (entrants: seq<Entrant>)
      requires AreTables(tables, cat, listing, |cat.zonas|)
      ensures entrants == Qualified(cat, listing, cat.advancePerGroup)
    {
      hide ZonaTable, Decimal;
      entrants := [];
      for place := 0 to cat.advancePerGroup
        invariant entrants == Qualified(cat, listing, place)
      {
        for g := 0 to |cat.zonas|
          invariant entrants == Qualified(cat, listing, place) + PlacedAt(cat, listing, place, g)
        {
          if place < |tables[g]| {
            entrants := entrants + [Entrant(tables[g][place], Decimal(place + 1) + "° " +
                                            cat.zonas[g].name, Some(cat.zonas[g].id))];
          }
        }
      }
    }

    /** Seeds the bracket from the zonas; as when drawing, the new ids are returned and a refusal writes nothing. */
    method GenerateBracket(c: CategoryId, listing: seq<MatchId>) returns (r: Result<map<Spot, MatchId>>)
      requires Valid()
      modifies this
      ensures Valid()
      ensures r.Ok? ==> BracketFits(old(event), c, listing, r.value)
                        && Categories.GenerateBracket(old(event), c, listing, r.value) == Ok(event)
      ensures r.Err? ==> event == old(event)
      ensures r.Err? ==> forall spots :: BracketFits(old(event), c, listing, spots) ==>
                           Categories.GenerateBracket(old(event), c, listing, spots) == Err(r.error)
    {
      hide DistinctPairIds, FreshIds, RoundsFor, Created, Drawn, Qualified;
      if !OpenForChanges(event) {
        return Err(Conflict);
      }
      if c !in event.categories {
        return Err(NotFound);
      }
      var cat := event.categories[c];
      if !cat.format.ZonasThenBracket? {
        return Err(BadRequest);
      }
      if !cat.hasFixture {
        return Err(Conflict);
      }
      if cat.hasBracket {
        return Err(Conflict);
      }
      if ZonasPending(cat.matches) {
        return Err(Conflict);
      }
      var tables := ZonaTables(cat, listing);
      var entrants := QualifiedEntrants(cat, tables, listing);
      var table := new CompetitionMatches.Of(cat.matches, nextId);
      var made := table.CreateBracket(entrants);
      if made.Err? {
        return Err(made.error);
      }
      var seeded := cat.(hasBracket := true, matches := table.rows);
      TablesAfter(event, nextId, c, seeded, table.nextId);
      nextId := table.nextId;
      event := event.(categories := event.categories[c := seeded]);
      return Ok(made.value);
    }

    /** Undoes the bracket of a zonas category, the zonas staying, while it has no results. */
    method DeleteBracket(c: CategoryId) returns (r: Result<()>)
      requires Valid()
      modifies this`event
      ensures Valid() && Answers(r, old(event), Categories.DeleteBracket(old(event), c), event)
    {
      hide DistinctPairIds;
      if event.status.Cancelled? {
        return Err(Conflict);
      }
      if c !in event.categories {
        return Err(NotFound);
      }
      var cat := event.categories[c];
      if !cat.format.ZonasThenBracket? {
        return Err(BadRequest);
      }
      if HasResults(cat.matches, Some(KnockoutStage)) {
        return Err(Conflict);
      }
      var undone := cat.(matches := ZonaPart(cat.matches), hasBracket := false);
      TablesAfter(event, nextId, c, undone, nextId);
      event := event.(categories := event.categories[c := undone]);
      return Ok(());
    }

    /** Loads, changes or clears the result of a match of the category. */
    method LoadResult(c: CategoryId, id: MatchId, edit: MatchEdit, courts: set<CourtId>) returns (r: Result<()>)
      requires Valid()
      modifies this`event
      ensures Valid() && Answers(r, old(event), Categories.LoadResult(old(event), c, id, edit, courts), event)
    {
      hide DistinctPairIds, Bracket.UpdateMatch;
      if !OpenForChanges(event) {
        return Err(Conflict);
      }
      if c !in event.categories {
        return Err(NotFound);
      }
      var cat := event.categories[c];
      var table := new CompetitionMatches.Of(cat.matches, nextId);
      var updated := table.UpdateMatch(id, edit, event.matchFormat, cat.format.ZonasThenBracket?
                                       && cat.hasBracket, courts);
      if updated.Err? {
        return Err(updated.error);
      }
      var loaded := cat.(matches := table.rows);
      UndrawnStaysEmpty(cat, id, edit, event.matchFormat, courts);
      TablesAfter(event, nextId, c, loaded, nextId);
      event := event.(categories := event.categories[c := loaded]);
      return Ok(());
    }
  }
}
