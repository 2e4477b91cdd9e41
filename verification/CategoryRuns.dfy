/** Every run of an event: what each call keeps, and what no run of calls can do. */
module CategoryRuns {
  import opened Base
  import opened Score
  import opened Draw
  import opened RoundRobin
  import opened Zonas
  import opened Bracket
  import opened Categories
  import opened CategoryLaws

  // ── The invariant of a category ─────────────────────────────────────────────

  /** A zona or round-robin match is between two registered pairs and decided exactly when loaded. */
  predicate SoundGroupMatch(m: Match, pairs: seq<Pair>) {
    && m.next.None?
    && m.pairA.Some? && m.pairB.Some? && m.pairA != m.pairB
    && HasId(pairs, m.pairA.value) && HasId(pairs, m.pairB.value)
    && (m.winner.Some? <==> m.sets.Some?)
  }

  ghost predicate SoundGroupMatches(ms: Matches, pairs: seq<Pair>) {
    forall id {:trigger ms[id]} :: id in ms && ms[id].stage.GroupStage? ==> SoundGroupMatch(ms[id], pairs)
  }

  /** The knockout matches are a sound bracket drawn from registered pairs. */
  ghost predicate DrawnBracket(ms: Matches, pairs: seq<Pair>, format: MatchFormat, k: nat, ids: map<Spot, MatchId>,
                               draw: seq<Option<Entrant>>) {
    && Playable(draw, k) && DistinctDraw(draw)
    && (forall d :: 0 <= d < |draw| && draw[d].Some? ==> HasId(pairs, draw[d].value.pairId))
    && Sound(Play(ms, format), k, ids, draw)
  }

  ghost predicate HasDrawnBracket(ms: Matches, pairs: seq<Pair>, format: MatchFormat) {
    exists k, ids, draw :: DrawnBracket(ms, pairs, format, k, ids, draw)
  }

  /** What the flags promise about the rows. */
  ghost predicate FlagsHold(cat: Category) {
    && (cat.hasBracket ==> cat.hasFixture)
    && (cat.hasFixture ==> |cat.pairs| >= 2)
    && (cat.format.StraightBracket? && cat.hasFixture ==> cat.hasBracket)
    && (cat.format.AllPlayAll? ==> !cat.hasBracket)
    && (!cat.hasFixture ==> cat.matches == map[])
    && (!cat.hasBracket ==> OnlyZonas(cat.matches))
    && (cat.format.ZonasThenBracket? && cat.hasFixture ==> ZonasStand(cat))
    && (cat.format.ZonasThenBracket? && cat.hasBracket ==> !ZonasPending(cat.matches))
  }

  ghost predicate CatInv(cat: Category, format: MatchFormat) {
    && cat.groupSize >= 2
    && DistinctPairIds(cat.pairs)
    && FlagsHold(cat)
    && SoundGroupMatches(cat.matches, cat.pairs)
    && SoundResults(cat.matches, format)
    && (cat.hasBracket ==> HasDrawnBracket(cat.matches, cat.pairs, format))
  }

  /** No pair is in two categories. */
  ghost predicate PairsApart(categories: map<CategoryId, Category>) {
    forall c, d, id {:trigger HasId(categories[c].pairs, id), HasId(categories[d].pairs, id)} ::
      c in categories && d in categories && c != d && HasId(categories[c].pairs, id) ==> !HasId(categories[d].pairs, id)
  }

  ghost predicate EventInv(e: Event) {
    && (forall c {:trigger e.categories[c]} :: c in e.categories ==> CatInv(e.categories[c], e.matchFormat))
    && PairsApart(e.categories)
  }

  // ── Calls ───────────────────────────────────────────────────────────────────

  datatype Call =
    | AddCategoryCall(c: CategoryId, settings: Settings)
    | UpdateCategoryCall(c: CategoryId, settings: Settings)
    | RemoveCategoryCall(c: CategoryId)
    | AddPairCall(c: CategoryId, pair: Pair)
    | UpdatePairCall(c: CategoryId, pair: Pair, to: Option<CategoryId>)
    | RemovePairCall(c: CategoryId, pairId: PairId)
    | GenerateFixtureCall(c: CategoryId, courts: seq<CourtId>, given: Given)
    | DeleteFixtureCall(c: CategoryId)
    | GenerateBracketCall(c: CategoryId, listing: seq<MatchId>, spots: map<Spot, MatchId>)
    | DeleteBracketCall(c: CategoryId)
    | LoadResultCall(c: CategoryId, id: MatchId, edit: MatchEdit, courtIds: set<CourtId>)
    | UpdateEventCall(format: Option<MatchFormat>, status: Option<Status>)
    | CancelEventCall

  ghost predicate IsNewPair(e: Event, id: PairId) {
    forall c :: c in e.categories ==> !HasId(e.categories[c].pairs, id)
  }

  /** Requests the HTTP layer lets through, with ids that are new and rows listed as they are. */
  ghost predicate WellFormed(e: Event, call: Call) {
    match call
    case AddCategoryCall(c, s) => InRange(s) && c !in e.categories
    case UpdateCategoryCall(_, s) => InRange(s)
    case AddPairCall(_, p) => IsNewPair(e, p.id)
    case GenerateFixtureCall(c, courts, given) => FixtureFits(e, c, courts, given)
    case GenerateBracketCall(c, listing, spots) => BracketFits(e, c, listing, spots)
    case UpdateEventCall(_, status) => status != Some(Status.Cancelled)
    case _ => true
  }

  function Outcome(e: Event, call: Call): Result<Event>
    requires WellFormed(e, call)
  {
    hide FreshIds, GivenFits, Qualified;
    match call
    case AddCategoryCall(c, s) => AddCategory(e, c, s)
    case UpdateCategoryCall(c, s) => UpdateCategory(e, c, s)
    case RemoveCategoryCall(c) => RemoveCategory(e, c)
    case AddPairCall(c, p) => AddPair(e, c, p)
    case UpdatePairCall(c, p, to) => UpdatePair(e, c, p, to)
    case RemovePairCall(c, id) => RemovePair(e, c, id)
    case GenerateFixtureCall(c, courts, given) => GenerateFixture(e, c, courts, given)
    case DeleteFixtureCall(c) => DeleteFixture(e, c)
    case GenerateBracketCall(c, listing, spots) => GenerateBracket(e, c, listing, spots)
    case DeleteBracketCall(c) => DeleteBracket(e, c)
    case LoadResultCall(c, id, edit, courts) => LoadResult(e, c, id, edit, courts)
    case UpdateEventCall(format, status) => UpdateEvent(e, format, status)
    case CancelEventCall => CancelEvent(e)
  }

  /** A refused call changes nothing. */
  function Next(e: Event, call: Call): Event
    requires WellFormed(e, call)
  {
    match Outcome(e, call)
    case Ok(after) => after
    case Err(_) => e
  }

  // ── Drawing ─────────────────────────────────────────────────────────────────

  lemma DrawnPlayable(entrants: seq<Entrant>)
    requires |entrants| >= 2
    ensures Playable(Drawn(entrants), RoundsFor(|entrants|))
  {
    var k, draw := RoundsFor(|entrants|), Drawn(entrants);
    DrawnLaw(entrants);
    assert Pow2(1) == 2 * Pow2(0);
    forall p: nat | IsBye(draw, p)
      ensures k > 1 && (draw[2 * p].Some? || draw[2 * p + 1].Some?)
    {
      assert Pow2(k) == 2 * Pow2(k - 1);
      assert FirstRoundSound(entrants, p);
      RoundsForLeast(|entrants|);
    }
  }

  /** Every drawn pair was an entrant. */
  lemma DrawnFrom(entrants: seq<Entrant>, d: nat)
    requires d < |Drawn(entrants)| && Drawn(entrants)[d].Some?
    ensures Drawn(entrants)[d].value in entrants
  {
    var seeded := SeededDraw(entrants);
    ApartIsFair(seeded, |seeded| / 2);
    assert Drawn(entrants)[d] in multiset(Drawn(entrants));
    assert Drawn(entrants)[d] in seeded;
    hide Apart;
  }

  /** createBracket on distinct registered entrants leaves a sound bracket. */
  lemma BracketDrawn(zonas: Matches, pairs: seq<Pair>, format: MatchFormat, entrants: seq<Entrant>,
                     ids: map<Spot, MatchId>)
    requires |entrants| >= 2 && DistinctEntrants(entrants) && OnlyZonas(zonas) && SoundResults(zonas, format)
    requires FreshIds(zonas.Keys, RoundsFor(|entrants|), ids)
    requires forall i :: 0 <= i < |entrants| ==> HasId(pairs, entrants[i].pairId)
    ensures var ms := zonas + Created(Drawn(entrants), RoundsFor(|entrants|), ids);
      && DrawnBracket(ms, pairs, format, RoundsFor(|entrants|), ids, Drawn(entrants))
      && ByesHeld(ms, RoundsFor(|entrants|), ids, Drawn(entrants))
  {
    var draw := Drawn(entrants);
    DrawnPlayable(entrants);
    DrawnDistinct(entrants);
    CreatedSound(zonas, draw, RoundsFor(|entrants|), ids, format);
    forall d | 0 <= d < |draw| && draw[d].Some?
      ensures HasId(pairs, draw[d].value.pairId)
    {
      DrawnFrom(entrants, d);
    }
    hide Drawn, Created, FreshIds, Sound, DistinctEntrants, ByesHeld;
  }

  lemma HasIdWhere(pairs: seq<Pair>, p: Pair)
    requires p in pairs
    ensures HasId(pairs, p.id)
  {
    var i :| 0 <= i < |pairs| && pairs[i] == p;
    assert pairs[i].id == p.id;
  }

  lemma GroupRowsSound(members: seq<Pair>, pairings: seq<Pairing>, zona: Option<GroupId>, pairs: seq<Pair>, k: nat)
    requires forall k :: 0 <= k < |pairings| ==> pairings[k].a < pairings[k].b < |members|
    requires DistinctPairIds(members) && (forall p :: p in members ==> HasId(pairs, p.id)) && k < |pairings|
    ensures var m := GroupRows(members, pairings, zona)[k];
            m.stage.GroupStage? && m.sets.None? && SoundGroupMatch(m, pairs)
  {
    assert members[pairings[k].a] in members && members[pairings[k].b] in members;
  }

  ghost predicate UnplayedRows(rows: seq<Match>, pairs: seq<Pair>) {
    forall i :: 0 <= i < |rows| ==> rows[i].stage.GroupStage? && rows[i].sets.None? && SoundGroupMatch(rows[i], pairs)
  }

  lemma ZonaRowsSound(members: seq<Pair>, zona: Option<GroupId>, pairs: seq<Pair>)
    requires DistinctPairIds(members) && forall p :: p in members ==> HasId(pairs, p.id)
    ensures UnplayedRows(ZonaRows(members, zona), pairs)
  {
    PairingsAreComplete(|members|);
    forall k | 0 <= k < |AllPairings(|members|)| {
      GroupRowsSound(members, AllPairings(|members|), zona, pairs, k);
    }
    hide GroupRows, AllPairings, SoundGroupMatch;
  }

  lemma PartsDistinct(front: seq<Pair>, last: seq<Pair>)
    requires DistinctPairIds(front + last)
    ensures DistinctPairIds(front) && DistinctPairIds(last)
  {
    var all := front + last;
    assert forall i, j :: 0 <= i < j < |front| ==> front[i] == all[i] && front[j] == all[j];
    assert forall i, j :: 0 <= i < j < |last| ==> last[i] == all[|front| + i] && last[j] == all[|front| + j];
  }

  lemma RowsJoin(front: seq<Match>, last: seq<Match>, pairs: seq<Pair>)
    requires UnplayedRows(front, pairs) && UnplayedRows(last, pairs)
    ensures UnplayedRows(front + last, pairs)
  {
  }

  lemma {:induction false} AllZonaRowsSound(groups: seq<seq<Pair>>, zonas: seq<Zona>, pairs: seq<Pair>)
    requires |groups| == |zonas| && DistinctPairIds(Flatten(groups))
             && forall p :: p in Flatten(groups) ==> HasId(pairs, p.id)
    ensures UnplayedRows(AllZonaRows(groups, zonas), pairs)
  {
    if groups != [] {
      var n := |groups| - 1;
      var front := Flatten(groups[..n]);
      assert Flatten(groups) == front + groups[n];
      PartsDistinct(front, groups[n]);
      AllZonaRowsSound(groups[..n], zonas[..n], pairs);
      ZonaRowsSound(groups[n], Some(zonas[n].id), pairs);
      RowsJoin(AllZonaRows(groups[..n], zonas[..n]), ZonaRows(groups[n], Some(zonas[n].id)), pairs);
      hide ZonaRows, UnplayedRows, DistinctPairIds;
    }
  }

  lemma WaveRowsSound(members: seq<Pair>, placed: seq<Placed>, courts: seq<CourtId>, pairs: seq<Pair>)
    requires forall k :: 0 <= k < |placed| ==>
               placed[k].pairing.a < placed[k].pairing.b < |members| && placed[k].court < |courts|
    requires DistinctPairIds(members) && forall p :: p in members ==> HasId(pairs, p.id)
    ensures UnplayedRows(WaveRows(members, placed, courts), pairs)
  {
    var waved := seq(|placed|, k requires 0 <= k < |placed| => placed[k].pairing.(round := placed[k].wave));
    forall k | 0 <= k < |placed| {
      GroupRowsSound(members, waved, None, pairs, k);
    }
  }

  lemma InsertedSound(rows: seq<Match>, ids: seq<MatchId>, pairs: seq<Pair>, format: MatchFormat)
    requires |ids| == |rows| && NoRepeats(ids) && UnplayedRows(rows, pairs)
    ensures OnlyZonas(Inserted(rows, ids)) && SoundGroupMatches(Inserted(rows, ids), pairs)
            && SoundResults(Inserted(rows, ids), format)
  {
    var ms := Inserted(rows, ids);
    forall id | id in ms
      ensures ms[id].stage.GroupStage? && ms[id].sets.None? && SoundGroupMatch(ms[id], pairs)
    {
      var i :| 0 <= i < |ids| && ids[i] == id;
      assert ms[ids[i]] == rows[i];
    }
  }

  lemma RoundRobinDrawn(cat: Category, courts: seq<CourtId>, given: Given, format: MatchFormat)
    requires CatInv(cat, format) && cat.format.AllPlayAll? && GivenFits(cat, courts, given) && |cat.pairs| >= 2
             && !cat.hasFixture
    ensures CatInv(WithFixture(cat, courts, given), format)
  {
    SeededSame(cat.pairs);
    var seeded := Seeded(cat.pairs);
    forall p | p in seeded {
      HasIdWhere(cat.pairs, p);
    }
    if courts == [] {
      ZonaRowsSound(seeded, None, cat.pairs);
    } else {
      PlacedFits(seeded, given.placed);
      WaveRowsSound(seeded, given.placed, courts, cat.pairs);
    }
    InsertedSound(RoundRobinRows(cat, courts, given), given.rows, cat.pairs, format);
  }

  lemma InZonasSame(pairs: seq<Pair>, groups: seq<seq<Pair>>, zonas: seq<Zona>)
    requires |groups| == |zonas| && DistinctPairIds(pairs)
    ensures DistinctPairIds(InZonas(pairs, groups, zonas))
    ensures forall id :: HasId(pairs, id) <==> HasId(InZonas(pairs, groups, zonas), id)
  {
    SameIdsHave(pairs, InZonas(pairs, groups, zonas));
  }

  lemma SameIdsHave(pairs: seq<Pair>, same: seq<Pair>)
    requires |same| == |pairs| && forall i :: 0 <= i < |pairs| ==> same[i].id == pairs[i].id
    ensures forall id :: HasId(pairs, id) <==> HasId(same, id)
    ensures DistinctPairIds(pairs) ==> DistinctPairIds(same)
  {
    forall id
      ensures HasId(pairs, id) <==> HasId(same, id)
    {
      if HasId(pairs, id) {
        var i :| 0 <= i < |pairs| && pairs[i].id == id;
        assert same[i].id == id;
      }
      if HasId(same, id) {
        var i :| 0 <= i < |same| && same[i].id == id;
        assert pairs[i].id == id;
      }
    }
  }

  lemma ZonasDrawn(cat: Category, courts: seq<CourtId>, given: Given, format: MatchFormat)
    requires CatInv(cat, format) && cat.format.ZonasThenBracket? && GivenFits(cat, courts, given) && |cat.pairs| >= 2
             && !cat.hasFixture
    requires |GroupsOf(cat)| * Min(cat.advancePerGroup, cat.groupSize) >= 2
    ensures CatInv(WithFixture(cat, courts, given), format)
  {
    hide SoundGroupMatches, SoundResults, DistinctPairIds, AllZonaRows, ZonaOf, HasId;
    var groups, zonas := GroupsOf(cat), NewZonas(given.zonas);
    var placed := InZonas(cat.pairs, groups, zonas);
    var after := WithFixture(cat, courts, given);
    GroupsHoldEveryone(cat);
    SeededSame(cat.pairs);
    InZonasSame(cat.pairs, groups, zonas);
    forall p: Pair | p in Flatten(groups)
      ensures HasId(placed, p.id)
    {
      HasIdWhere(cat.pairs, p);
    }
    AllZonaRowsSound(groups, zonas, placed);
    InsertedSound(AllZonaRows(groups, zonas), given.rows, placed, format);
    forall g | 0 <= g < |zonas|
      ensures |ZonaIds(placed, zonas[g].id)| >= Min(|cat.pairs|, cat.groupSize)
    {
      ZonaHasItsShare(cat, zonas, g);
    }
    assert ZonasStand(after);
  }

  lemma CreatedIsKnockout(taken: set<MatchId>, draw: seq<Option<Entrant>>, k: nat, ids: map<Spot, MatchId>)
    requires |draw| == Pow2(k) && FreshIds(taken, k, ids)
    ensures forall id :: id in Created(draw, k, ids) ==> Created(draw, k, ids)[id].stage.KnockoutStage?
  {
    forall id | id in Created(draw, k, ids)
      ensures Created(draw, k, ids)[id].stage.KnockoutStage?
    {
      var s :| s in ids && ids[s] == id;
    }
  }

  lemma BracketResultsSound(ms: Matches, pairs: seq<Pair>, format: MatchFormat, k: nat, ids: map<Spot, MatchId>,
                            draw: seq<Option<Entrant>>)
    requires DrawnBracket(ms, pairs, format, k, ids, draw)
    ensures HasDrawnBracket(ms, pairs, format) && SoundResults(ms, format)
  {
    assert Sound(Play(ms, format), k, ids, draw);
    hide Progress;
  }

  lemma RegisteredEntrants(pairs: seq<Pair>)
    requires DistinctPairIds(pairs)
    ensures var entrants := AsEntrants(Seeded(pairs));
      && |entrants| == |pairs| && DistinctEntrants(entrants)
      && (forall i :: 0 <= i < |entrants| ==> HasId(pairs, entrants[i].pairId))
  {
    SeededSame(pairs);
    var entrants := AsEntrants(Seeded(pairs));
    forall i | 0 <= i < |entrants|
      ensures HasId(pairs, entrants[i].pairId)
    {
      HasIdWhere(pairs, Seeded(pairs)[i]);
    }
  }

  lemma NothingBeside(ms: Matches)
    ensures map[] + ms == ms
  {
  }

  lemma BracketDrawnAlone(pairs: seq<Pair>, format: MatchFormat, entrants: seq<Entrant>, ids: map<Spot, MatchId>)
    requires |entrants| >= 2 && DistinctEntrants(entrants) && FreshIds({}, RoundsFor(|entrants|), ids)
    requires forall i :: 0 <= i < |entrants| ==> HasId(pairs, entrants[i].pairId)
    ensures var made := Created(Drawn(entrants), RoundsFor(|entrants|), ids);
            HasDrawnBracket(made, pairs, format) && SoundResults(made, format) && SoundGroupMatches(made, pairs)
  {
    var none: Matches := map[];
    var k, draw := RoundsFor(|entrants|), Drawn(entrants);
    var made := Created(draw, k, ids);
    CreatedIsKnockout({}, draw, k, ids);
    NothingBeside(made);
    assert none.Keys == {};
    BracketDrawn(none, pairs, format, entrants, ids);
    hide *;
    BracketResultsSound(made, pairs, format, k, ids, draw);
    OnlyKnockoutSound(made, pairs);
  }

  /** A bracket drawn straight from the registered pairs, with no zonas before it. */
  lemma StraightBracketDrawn(pairs: seq<Pair>, format: MatchFormat, ids: map<Spot, MatchId>)
    requires DistinctPairIds(pairs) && |pairs| >= 2 && FreshIds({}, RoundsFor(|pairs|), ids)
    ensures |AsEntrants(Seeded(pairs))| == |pairs|
    ensures var entrants := AsEntrants(Seeded(pairs));
            var made := Created(Drawn(entrants), RoundsFor(|entrants|), ids);
            HasDrawnBracket(made, pairs, format) && SoundResults(made, format) && SoundGroupMatches(made, pairs)
  {
    RegisteredEntrants(pairs);
    BracketDrawnAlone(pairs, format, AsEntrants(Seeded(pairs)), ids);
  }

  lemma OnlyKnockoutSound(ms: Matches, pairs: seq<Pair>)
    requires forall id :: id in ms ==> ms[id].stage.KnockoutStage?
    ensures SoundGroupMatches(ms, pairs)
  {
  }

  lemma StraightDrawn(cat: Category, courts: seq<CourtId>, given: Given, format: MatchFormat)
    requires CatInv(cat, format) && cat.format.StraightBracket? && GivenFits(cat, courts, given) && |cat.pairs| >= 2
             && !cat.hasFixture
    ensures CatInv(WithFixture(cat, courts, given), format)
  {
    StraightBracketDrawn(cat.pairs, format, given.spots);
    SeededSame(cat.pairs);
    hide HasDrawnBracket, SoundResults, SoundGroupMatches, Created, FreshIds, Drawn, DistinctPairIds;
  }

  // ── Each call keeps the invariant ───────────────────────────────────────────

  /** Replacing a category by a sound one, with no pair of another category in it. */
  lemma ReplaceKeeps(e: Event, c: CategoryId, cat: Category)
    requires EventInv(e) && CatInv(cat, e.matchFormat)
    requires forall d, id :: d in e.categories && d != c && HasId(cat.pairs, id) ==> !HasId(e.categories[d].pairs, id)
    ensures EventInv(With(e, c, cat))
  {
    hide CatInv;
  }

  lemma ReplaceSamePairs(e: Event, c: CategoryId, cat: Category)
    requires EventInv(e) && c in e.categories && CatInv(cat, e.matchFormat)
    requires forall id :: HasId(cat.pairs, id) ==> HasId(e.categories[c].pairs, id)
    ensures EventInv(With(e, c, cat))
  {
    ReplaceKeeps(e, c, cat);
  }

  lemma SettingsKeep(cat: Category, s: Settings, format: MatchFormat)
    requires CatInv(cat, format) && !cat.hasFixture && InRange(s)
    ensures CatInv(cat.(format := s.format, groupSize := s.groupSize, advancePerGroup := s.advancePerGroup,
                        maxPairs := s.maxPairs), format)
  {
  }

  lemma UndrawnPairsKeep(cat: Category, pairs: seq<Pair>, format: MatchFormat)
    requires CatInv(cat, format) && !cat.hasFixture && DistinctPairIds(pairs)
    ensures CatInv(cat.(pairs := pairs), format)
  {
  }

  /** New names or a new seed: same ids, same zonas. */
  lemma RenamedKeeps(cat: Category, i: nat, p: Pair, format: MatchFormat)
    requires CatInv(cat, format) && i < |cat.pairs| && p.id == cat.pairs[i].id && p.group == cat.pairs[i].group
    ensures CatInv(cat.(pairs := cat.pairs[i := p]), format)
    ensures forall id :: HasId(cat.pairs[i := p], id) <==> HasId(cat.pairs, id)
  {
    var pairs := cat.pairs[i := p];
    SameIdsHave(cat.pairs, pairs);
    forall zona
      ensures ZonaIds(pairs, zona) == ZonaIds(cat.pairs, zona)
    {
      ZonaIdsUpdate(cat.pairs, i, p, zona);
    }
    if cat.hasBracket {
      var k, ids, draw :| DrawnBracket(cat.matches, cat.pairs, format, k, ids, draw);
      assert DrawnBracket(cat.matches, pairs, format, k, ids, draw);
    }
    assert SoundGroupMatches(cat.matches, pairs);
    hide ZonaIds, HasId, DrawnBracket, DistinctPairIds, SoundGroupMatches, SoundResults, OnlyZonas;
  }

  lemma ZonaIdsUpdate(pairs: seq<Pair>, i: nat, p: Pair, zona: GroupId)
    requires i < |pairs| && p.id == pairs[i].id && p.group == pairs[i].group
    ensures ZonaIds(pairs[i := p], zona) == ZonaIds(pairs, zona)
  {
    var after := pairs[i := p];
    forall id
      ensures id in ZonaIds(after, zona) <==> id in ZonaIds(pairs, zona)
    {
      if id in ZonaIds(pairs, zona) {
        var q :| q in pairs && q.group == Some(zona) && q.id == id;
        var j :| 0 <= j < |pairs| && pairs[j] == q;
        assert after[j] in after && after[j].group == Some(zona) && after[j].id == id;
      }
      if id in ZonaIds(after, zona) {
        var q :| q in after && q.group == Some(zona) && q.id == id;
        var j :| 0 <= j < |after| && after[j] == q;
        assert pairs[j] in pairs && pairs[j].group == Some(zona) && pairs[j].id == id;
      }
    }
  }

  lemma WithoutKeeps(pairs: seq<Pair>, i: nat)
    requires i < |pairs| && DistinctPairIds(pairs)
    ensures DistinctPairIds(Without(pairs, i))
    ensures forall id :: HasId(Without(pairs, i), id) <==> HasId(pairs, id) && id != pairs[i].id
  {
    var rest := Without(pairs, i);
    assert forall j :: 0 <= j < |rest| ==> rest[j] == pairs[if j < i then j else j + 1];
    forall id
      ensures HasId(rest, id) <==> HasId(pairs, id) && id != pairs[i].id
    {
      if HasId(pairs, id) && id != pairs[i].id {
        var j :| 0 <= j < |pairs| && pairs[j].id == id;
        assert rest[if j < i then j else j - 1].id == id;
      }
    }
  }

  lemma AppendKeeps(pairs: seq<Pair>, p: Pair)
    requires DistinctPairIds(pairs) && !HasId(pairs, p.id)
    ensures DistinctPairIds(pairs + [p])
    ensures forall id :: HasId(pairs + [p], id) <==> HasId(pairs, id) || id == p.id
  {
    var more := pairs + [p];
    forall id
      ensures HasId(more, id) <==> HasId(pairs, id) || id == p.id
    {
      assert more[|pairs|].id == p.id;
      if HasId(pairs, id) {
        var j :| 0 <= j < |pairs| && pairs[j].id == id;
        assert more[j].id == id;
      }
    }
  }

  lemma UndoneKeeps(cat: Category, format: MatchFormat)
    requires CatInv(cat, format)
    ensures var pairs := Ungrouped(cat.pairs);
      && CatInv(cat.(hasFixture := false, hasBracket := false, pairs := pairs, zonas := [], matches := map[]), format)
      && (forall id :: HasId(pairs, id) ==> HasId(cat.pairs, id))
  {
    SameIdsHave(cat.pairs, Ungrouped(cat.pairs));
  }

  lemma QualifiedFit(cat: Category, listing: seq<MatchId>, format: MatchFormat)
    requires CatInv(cat, format) && cat.format.ZonasThenBracket? && cat.hasFixture
    ensures var entrants := Qualified(cat, listing, cat.advancePerGroup);
      && |entrants| >= 2 && DistinctEntrants(entrants)
      && (forall i :: 0 <= i < |entrants| ==> HasId(cat.pairs, entrants[i].pairId))
  {
    var entrants := Qualified(cat, listing, cat.advancePerGroup);
    EnoughQualify(cat, listing);
    QualifiedLaw(cat, listing, cat.advancePerGroup);
    forall i | 0 <= i < |entrants|
      ensures HasId(cat.pairs, entrants[i].pairId)
    {
      QualifiedAreRegistered(cat, listing, cat.advancePerGroup, i);
    }
  }

  lemma BracketSeeded(cat: Category, listing: seq<MatchId>, spots: map<Spot, MatchId>, format: MatchFormat)
    requires CatInv(cat, format) && cat.format.ZonasThenBracket? && cat.hasFixture && !cat.hasBracket
             && !ZonasPending(cat.matches)
    requires FreshIds(cat.matches.Keys, RoundsFor(|Qualified(cat, listing, cat.advancePerGroup)|), spots)
    ensures var entrants := Qualified(cat, listing, cat.advancePerGroup);
      && |entrants| >= 2
      && CatInv(cat.(hasBracket := true, matches := cat.matches +
                                                    Created(Drawn(entrants), RoundsFor(|entrants|), spots)), format)
  {
    var entrants := Qualified(cat, listing, cat.advancePerGroup);
    QualifiedFit(cat, listing, format);
    var k := RoundsFor(|entrants|);
    var made := Created(Drawn(entrants), k, spots);
    BracketDrawn(cat.matches, cat.pairs, format, entrants, spots);
    CreatedIsKnockout(cat.matches.Keys, Drawn(entrants), k, spots);
    assert SoundResults(cat.matches + made, format) by {
      assert Sound(Play(cat.matches + made, format), k, spots, Drawn(entrants));
    }
    BesideZonas(cat.matches, made, cat.pairs);
    hide DrawnBracket, SoundResults, SoundGroupMatches, Created, FreshIds, Drawn, Qualified, DistinctPairIds, OnlyZonas,
         ZonasPending;
  }

  lemma BesideZonas(zonas: Matches, made: Matches, pairs: seq<Pair>)
    requires SoundGroupMatches(zonas, pairs) && forall id :: id in made ==> made[id].stage.KnockoutStage?
    ensures SoundGroupMatches(zonas + made, pairs)
    ensures ZonasPending(zonas + made) ==> ZonasPending(zonas)
  {
    var ms := zonas + made;
    if ZonasPending(ms) {
      var id :| id in ms && ms[id].stage.GroupStage? && ms[id].winner.None?;
      assert id in zonas && zonas[id].stage.GroupStage? && zonas[id].winner.None?;
    }
  }

  lemma BracketUndone(cat: Category, format: MatchFormat)
    requires CatInv(cat, format) && cat.format.ZonasThenBracket?
    ensures CatInv(cat.(hasBracket := false, matches := ZonaPart(cat.matches)), format)
  {
    var zonas := ZonaPart(cat.matches);
    forall id | id in zonas
      ensures SoundGroupMatch(zonas[id], cat.pairs) && SoundResult(zonas[id], format)
    {
      assert cat.matches[id] == zonas[id];
      assert SoundResult(cat.matches[id], format);
    }
    assert !cat.hasFixture ==> zonas == map[];
    hide SoundResult, ZonasStand, DistinctPairIds;
  }

  /** A loaded, changed or cleared result of a group match touches that match alone. */
  lemma GroupResultKeeps(ms: Matches, id: MatchId, n: Match, pairs: seq<Pair>, format: MatchFormat)
    requires SoundGroupMatches(ms, pairs) && SoundResults(ms, format) && id in ms && ms[id].stage.GroupStage?
    requires SamePlace(ms[id], n) && n.pairA == ms[id].pairA && n.pairB == ms[id].pairB
    requires SoundResult(n, format) && (n.winner.Some? <==> n.sets.Some?)
    ensures SoundGroupMatches(ms[id := n], pairs) && SoundResults(ms[id := n], format)
    ensures OnlyZonas(ms) ==> OnlyZonas(ms[id := n])
  {
    hide Evaluated;
  }

  /** A knockout update never reaches a zona match. */
  lemma KnockoutResultSparesGroups(ms: Matches, id: MatchId, edit: MatchEdit, format: MatchFormat, locked: bool,
                                   courts: set<CourtId>, k: nat, ids: map<Spot, MatchId>)
    requires Wired(ms, k, ids) && id in ms && ms[id].stage.KnockoutStage?
    requires UpdateMatch(ms, id, edit, format, locked, courts).Ok?
    ensures var after := UpdateMatch(ms, id, edit, format, locked, courts).value;
            forall j :: j in ms && ms[j].stage.GroupStage? ==> j in after && after[j] == ms[j]
  {
    var r, p := ms[id].round, ms[id].position;
    assert Linked(ms[IdAt(ids, r, p)], k, ids, r, p);
    if r < k {
      NextOnBoard(k, r, p);
      assert Linked(ms[IdAt(ids, r + 1, p / 2)], k, ids, r + 1, p / 2);
    }
    hide Wired, Evaluated, OnBoard;
  }

  lemma GroupUpdateShape(ms: Matches, id: MatchId, edit: MatchEdit, format: MatchFormat, locked: bool,
                         courts: set<CourtId>, pairs: seq<Pair>)
    requires SoundGroupMatches(ms, pairs) && SoundResults(ms, format) && id in ms && ms[id].stage.GroupStage?
    requires UpdateMatch(ms, id, edit, format, locked, courts).Ok?
    ensures var after := UpdateMatch(ms, id, edit, format, locked, courts).value;
      && SoundGroupMatches(after, pairs) && SoundResults(after, format) && (OnlyZonas(ms) ==> OnlyZonas(after))
      && (locked ==> forall j :: j in ms ==> j in after && SameResult(ms[j], after[j]))
  {
    var m := ms[id];
    assert SoundGroupMatch(m, pairs) && SoundResult(m, format);
    var n := if edit.sets.None? then Planned(m, edit)
             else Planned(m, edit).(sets := edit.sets.value, winner := NewWinner(m, edit.sets.value, format).value);
    assert UpdateMatch(ms, id, edit, format, locked, courts).value == ms[id := n];
    assert SoundResult(n, format) && (n.winner.Some? <==> n.sets.Some?);
    GroupResultKeeps(ms, id, n, pairs, format);
    hide UpdateMatch, SoundGroupMatches, SoundResults, OnlyZonas;
  }

  /** Same pairs and same result: the court and the time may differ. */
  predicate SameResult(m: Match, n: Match) {
    n.pairA == m.pairA && n.pairB == m.pairB && n.sets == m.sets && n.winner == m.winner && n.stage == m.stage
  }

  lemma KnockoutUpdateShape(ms: Matches, id: MatchId, edit: MatchEdit, format: MatchFormat, locked: bool,
                            courts: set<CourtId>, pairs: seq<Pair>, k: nat, ids: map<Spot, MatchId>,
                            draw: seq<Option<Entrant>>)
    requires SoundGroupMatches(ms, pairs) && DrawnBracket(ms, pairs, format, k, ids, draw) && id in ms
    requires UpdateMatch(ms, id, edit, format, locked, courts).Ok?
    ensures DrawnBracket(UpdateMatch(ms, id, edit, format, locked, courts).value, pairs, format, k, ids, draw)
  {
    assert Sound(Play(ms, format), k, ids, draw);
    UpdateKeeps(ms, id, edit, format, locked, courts, k, ids, draw);
    hide UpdateMatch, Progress, SoundResults, DistinctDraw, Playable;
  }

  lemma GroupsSpared(ms: Matches, after: Matches, pairs: seq<Pair>)
    requires SoundGroupMatches(ms, pairs) && after.Keys == ms.Keys
    requires forall j :: j in ms && ms[j].stage.GroupStage? ==> j in after && after[j] == ms[j]
    requires SamePlaces(ms, after)
    ensures SoundGroupMatches(after, pairs)
    ensures ZonasPending(after) ==> ZonasPending(ms)
  {
    forall j | j in after && after[j].stage.GroupStage?
      ensures after[j] == ms[j] && ms[j].stage.GroupStage?
    {
      assert SamePlace(ms[j], after[j]);
    }
    if ZonasPending(after) {
      var j :| j in after && after[j].stage.GroupStage? && after[j].winner.None?;
      assert ms[j].winner.None?;
    }
  }

  lemma SameResultsDecided(ms: Matches, after: Matches)
    requires after.Keys == ms.Keys && forall j :: j in ms ==> SameResult(ms[j], after[j])
    ensures ZonasPending(after) ==> ZonasPending(ms)
  {
    if ZonasPending(after) {
      var j :| j in after && after[j].stage.GroupStage? && after[j].winner.None?;
      assert SameResult(ms[j], after[j]);
    }
  }

  /** The zonas are closed once the bracket is seeded from them. */
  predicate Locked(cat: Category) {
    cat.format.ZonasThenBracket? && cat.hasBracket
  }

  lemma LoadedKeeps(cat: Category, id: MatchId, edit: MatchEdit, format: MatchFormat, courts: set<CourtId>)
    requires CatInv(cat, format)
    requires UpdateMatch(cat.matches, id, edit, format, cat.format.ZonasThenBracket? && cat.hasBracket, courts).Ok?
    ensures CatInv(cat.(matches := UpdateMatch(cat.matches, id, edit, format, cat.format.ZonasThenBracket?
                                               && cat.hasBracket, courts).value), format)
  {
    var ms, locked := cat.matches, cat.format.ZonasThenBracket? && cat.hasBracket;
    var after := UpdateMatch(ms, id, edit, format, locked, courts).value;
    UpdateKeepsPlaces(ms, id, edit, format, locked, courts);
    if ms[id].stage.GroupStage? {
      GroupUpdateShape(ms, id, edit, format, locked, courts, cat.pairs);
    }
    if cat.hasBracket {
      var k, ids, draw :| DrawnBracket(ms, cat.pairs, format, k, ids, draw);
      KnockoutUpdateShape(ms, id, edit, format, locked, courts, cat.pairs, k, ids, draw);
      BracketResultsSound(after, cat.pairs, format, k, ids, draw);
      if ms[id].stage.KnockoutStage? {
        assert Wired(ms, k, ids) by {
          assert Sound(Play(ms, format), k, ids, draw);
        }
        KnockoutResultSparesGroups(ms, id, edit, format, locked, courts, k, ids);
        GroupsSpared(ms, after, cat.pairs);
      } else if locked {
        SameResultsDecided(ms, after);
      }
    } else {
      assert OnlyZonas(ms);
    }
    hide UpdateMatch, DrawnBracket, SoundGroupMatches, SoundResults, ZonasPending, ZonasStand, SamePlaces,
         DistinctPairIds, OnlyZonas, Wired;
  }

  lemma ReformattedKeeps(cat: Category, format: MatchFormat, other: MatchFormat)
    requires CatInv(cat, format) && !AnyPlayed(cat.matches)
    ensures CatInv(cat, other)
  {
    var play := Play(cat.matches, format);
    if other != format {
      FormatKeeps(play, other);
    }
    if cat.hasBracket {
      var k, ids, draw :| DrawnBracket(cat.matches, cat.pairs, format, k, ids, draw);
      assert Sound(play, k, ids, draw);
      assert DrawnBracket(cat.matches, cat.pairs, other, k, ids, draw);
    }
    hide SoundResults, FlagsHold, DistinctPairIds, SoundGroupMatches, Progress;
  }

  predicate IsPairCall(call: Call) {
    call.AddPairCall? || call.RemovePairCall? || call.UpdatePairCall?
  }

  predicate IsDrawCall(call: Call) {
    call.GenerateFixtureCall? || call.DeleteFixtureCall? || call.GenerateBracketCall? || call.DeleteBracketCall?
  }

  lemma PairCallsKeep(e: Event, call: Call)
    requires EventInv(e) && WellFormed(e, call) && IsPairCall(call)
    ensures EventInv(Next(e, call))
  {
    if Outcome(e, call).Ok? {
      match call
      case AddPairCall(c, p) =>
        AppendKeeps(e.categories[c].pairs, p.(group := None));
        UndrawnPairsKeep(e.categories[c], e.categories[c].pairs + [p.(group := None)], e.matchFormat);
        ReplaceKeeps(e, c, e.categories[c].(pairs := e.categories[c].pairs + [p.(group := None)]));
      case RemovePairCall(c, id) =>
        var i := PlaceOf(e.categories[c].pairs, id).value;
        WithoutKeeps(e.categories[c].pairs, i);
        UndrawnPairsKeep(e.categories[c], Without(e.categories[c].pairs, i), e.matchFormat);
        ReplaceSamePairs(e, c, e.categories[c].(pairs := Without(e.categories[c].pairs, i)));
      case UpdatePairCall(c, p, to) => UpdatePairKeeps(e, c, p, to);
    }
  }

  lemma UpdatePairKeeps(e: Event, c: CategoryId, p: Pair, to: Option<CategoryId>)
    requires EventInv(e) && UpdatePair(e, c, p, to).Ok?
    ensures EventInv(UpdatePair(e, c, p, to).value)
  {
    var cat := e.categories[c];
    var i := PlaceOf(cat.pairs, p.id).value;
    var pair := cat.pairs[i].(seed := p.seed, shown := p.shown);
    if to.None? || to.value == c {
      RenamedKeeps(cat, i, pair, e.matchFormat);
      ReplaceSamePairs(e, c, cat.(pairs := cat.pairs[i := pair]));
    } else {
      var left := cat.(pairs := Without(cat.pairs, i));
      WithoutKeeps(cat.pairs, i);
      UndrawnPairsKeep(cat, left.pairs, e.matchFormat);
      ReplaceSamePairs(e, c, left);
      var target := e.categories[to.value];
      assert HasId(cat.pairs, p.id);
      AppendKeeps(target.pairs, pair);
      UndrawnPairsKeep(target, target.pairs + [pair], e.matchFormat);
      MovedKeeps(e, c, left, to.value, target.(pairs := target.pairs + [pair]), p.id);
    }
  }

  /** The pair leaves one category and enters another: it is still in only one. */
  lemma MovedKeeps(e: Event, c: CategoryId, left: Category, d: CategoryId, entered: Category, id: PairId)
    requires EventInv(e) && c in e.categories && d in e.categories && c != d
    requires CatInv(left, e.matchFormat) && CatInv(entered, e.matchFormat) && HasId(e.categories[c].pairs, id)
    requires forall j :: HasId(left.pairs, j) <==> HasId(e.categories[c].pairs, j) && j != id
    requires forall j :: HasId(entered.pairs, j) <==> HasId(e.categories[d].pairs, j) || j == id
    ensures EventInv(With(With(e, c, left), d, entered))
  {
    hide CatInv, HasId;
  }

  lemma DrawCallsKeep(e: Event, call: Call)
    requires EventInv(e) && WellFormed(e, call)
    requires IsDrawCall(call)
    ensures EventInv(Next(e, call))
  {
    if Outcome(e, call).Ok? {
      var cat := e.categories[call.c];
      match call
      case GenerateFixtureCall(c, courts, given) =>
        FixtureKeeps(cat, courts, given, e.matchFormat);
        ReplaceSamePairs(e, c, WithFixture(cat, courts, given));
        hide CatInv;
      case DeleteFixtureCall(c) =>
        UndoneKeeps(cat, e.matchFormat);
        ReplaceSamePairs(e, c, cat.(hasFixture := false, hasBracket := false, pairs := Ungrouped(cat.pairs),
                                    zonas := [], matches := map[]));
        hide CatInv;
      case GenerateBracketCall(c, listing, spots) =>
        BracketSeeded(cat, listing, spots, e.matchFormat);
        var entrants := Qualified(cat, listing, cat.advancePerGroup);
        ReplaceSamePairs(e, c, cat.(hasBracket := true,
                                    matches := cat.matches + Created(Drawn(entrants), RoundsFor(|entrants|), spots)));
        hide CatInv;
      case DeleteBracketCall(c) =>
        BracketUndone(cat, e.matchFormat);
        ReplaceSamePairs(e, c, cat.(hasBracket := false, matches := ZonaPart(cat.matches)));
        hide CatInv;
    }
  }

  lemma FixtureKeeps(cat: Category, courts: seq<CourtId>, given: Given, format: MatchFormat)
    requires CatInv(cat, format) && GivenFits(cat, courts, given) && |cat.pairs| >= 2 && !cat.hasFixture
    requires cat.format.ZonasThenBracket? ==> |GroupsOf(cat)| * Min(cat.advancePerGroup, cat.groupSize) >= 2
    ensures CatInv(WithFixture(cat, courts, given), format)
    ensures forall id :: HasId(WithFixture(cat, courts, given).pairs, id) <==> HasId(cat.pairs, id)
  {
    match cat.format
    case AllPlayAll => RoundRobinDrawn(cat, courts, given, format);
    case ZonasThenBracket =>
      ZonasDrawn(cat, courts, given, format);
      InZonasSame(cat.pairs, GroupsOf(cat), NewZonas(given.zonas));
    case StraightBracket => StraightDrawn(cat, courts, given, format);
  }

  lemma OtherCallsKeep(e: Event, call: Call)
    requires EventInv(e) && WellFormed(e, call)
    requires !IsPairCall(call) && !IsDrawCall(call) && !call.LoadResultCall?
    ensures EventInv(Next(e, call))
  {
    if Outcome(e, call).Ok? {
      match call
      case AddCategoryCall(c, s) =>
        NewCategoryKeeps(e, c, s);
      case UpdateCategoryCall(c, s) =>
        SettingsKeep(e.categories[c], s, e.matchFormat);
        ReplaceSamePairs(e, c, Outcome(e, call).value.categories[c]);
        hide CatInv;
      case RemoveCategoryCall(c) =>
        hide CatInv;
      case UpdateEventCall(format, _) =>
        ReformatKeeps(e, format);
      case CancelEventCall =>
        hide CatInv;
    }
  }

  lemma LoadCallKeeps(e: Event, call: Call)
    requires EventInv(e) && call.LoadResultCall?
    ensures EventInv(Next(e, call))
  {
    if Outcome(e, call).Ok? {
      LoadedKeeps(e.categories[call.c], call.id, call.edit, e.matchFormat, call.courtIds);
      ReplaceSamePairs(e, call.c, Outcome(e, call).value.categories[call.c]);
      hide CatInv, UpdateMatch;
    }
  }

  lemma NewCategoryKeeps(e: Event, c: CategoryId, s: Settings)
    requires EventInv(e) && InRange(s) && c !in e.categories && AddCategory(e, c, s).Ok?
    ensures EventInv(AddCategory(e, c, s).value)
  {
    var cat := Category(s.format, s.groupSize, s.advancePerGroup, s.maxPairs, false, false, [], [], map[]);
    assert CatInv(cat, e.matchFormat);
    ReplaceKeeps(e, c, cat);
  }

  lemma ReformatKeeps(e: Event, format: Option<MatchFormat>)
    requires EventInv(e) && (format.Some? && format.value != e.matchFormat ==> !AnyResult(e))
    ensures format.Some? ==> EventInv(e.(matchFormat := format.value))
  {
    if format.Some? && format.value != e.matchFormat {
      forall c | c in e.categories
        ensures CatInv(e.categories[c], format.value)
      {
        ReformattedKeeps(e.categories[c], e.matchFormat, format.value);
      }
      hide CatInv;
    }
  }

  lemma NextKeeps(e: Event, call: Call)
    requires EventInv(e) && WellFormed(e, call)
    ensures EventInv(Next(e, call))
  {
    if IsPairCall(call) {
      PairCallsKeep(e, call);
    } else if IsDrawCall(call) {
      DrawCallsKeep(e, call);
    } else if call.LoadResultCall? {
      LoadCallKeeps(e, call);
    } else {
      OtherCallsKeep(e, call);
    }
    hide EventInv, Outcome;
  }

  // ── Runs ────────────────────────────────────────────────────────────────────

  /** `trace` is a run: each state follows from the one before by one call. */
  ghost predicate IsRun(trace: seq<Event>, calls: seq<Call>) {
    && |trace| == |calls| + 1
    && (forall k :: 0 <= k < |calls| ==> WellFormed(trace[k], calls[k]) && trace[k + 1] == Next(trace[k], calls[k]))
  }

  lemma {:induction false} RunKeeps(trace: seq<Event>, calls: seq<Call>, n: nat)
    requires IsRun(trace, calls) && EventInv(trace[0]) && n < |trace|
    ensures EventInv(trace[n])
  {
    if n > 0 {
      hide EventInv, WellFormed, Next;
      RunKeeps(trace, calls, n - 1);
      NextKeeps(trace[n - 1], calls[n - 1]);
    }
  }

  predicate HasFixture(e: Event, c: CategoryId) {
    c in e.categories && e.categories[c].hasFixture
  }

  predicate ZonasClosed(e: Event, c: CategoryId) {
    c in e.categories && e.categories[c].format.ZonasThenBracket? && e.categories[c].hasBracket
  }

  /** A drawn category has its pairs: nothing removes it. */
  lemma DrawnIsNotRemoved(e: Event, c: CategoryId)
    requires EventInv(e) && HasFixture(e, c)
    ensures RemoveCategory(e, c) == Err(if e.kind.Pena? then BadRequest else Conflict)
  {
    assert CatInv(e.categories[c], e.matchFormat);
  }

  predicate SamePairIds(x: Category, y: Category) {
    |x.pairs| == |y.pairs| && forall i :: 0 <= i < |x.pairs| ==> x.pairs[i].id == y.pairs[i].id
  }

  /** The category is in both states with the same pairs, in the same order, and the same format. */
  predicate SamePairsIn(x: Event, y: Event, c: CategoryId) {
    c in x.categories && c in y.categories && SamePairIds(x.categories[c], y.categories[c])
    && x.categories[c].format == y.categories[c].format
  }

  lemma DrawnPairCall(e: Event, call: Call, c: CategoryId)
    requires EventInv(e) && WellFormed(e, call) && IsPairCall(call) && HasFixture(e, c)
    ensures SamePairsIn(e, Next(e, call), c) && Next(e, call).categories[c].matches == e.categories[c].matches
    ensures Next(e, call).categories[c].hasBracket == e.categories[c].hasBracket
  {
    hide EventInv;
    match call
    case AddPairCall(_, _) =>
    case RemovePairCall(_, _) =>
    case UpdatePairCall(_, _, _) =>
  }

  lemma DrawnDrawCall(e: Event, call: Call, c: CategoryId)
    requires EventInv(e) && WellFormed(e, call) && IsDrawCall(call) && HasFixture(e, c)
    ensures SamePairsIn(e, Next(e, call), c)
  {
    hide EventInv, ZonasPending, Qualified, HasResults, GroupsOf, WithFixture, FreshIds, GivenFits, AnyFixture, Created,
         Drawn;
    match call
    case GenerateFixtureCall(_, _, _) =>
    case GenerateBracketCall(_, _, _) =>
    case DeleteFixtureCall(_) =>
    case DeleteBracketCall(_) =>
  }

  lemma DrawnOtherCall(e: Event, call: Call, c: CategoryId)
    requires EventInv(e) && WellFormed(e, call) && !IsPairCall(call) && !IsDrawCall(call) && HasFixture(e, c)
    ensures SamePairsIn(e, Next(e, call), c)
  {
    SeededFlags(e, c);
    hide EventInv, ZonasStand, ZonasPending, OnlyZonas, UpdateMatch;
  }

  lemma DrawnStep(e: Event, call: Call, c: CategoryId)
    requires EventInv(e) && WellFormed(e, call) && HasFixture(e, c)
    ensures SamePairsIn(e, Next(e, call), c)
  {
    if IsPairCall(call) {
      DrawnPairCall(e, call, c);
    } else if IsDrawCall(call) {
      DrawnDrawCall(e, call, c);
    } else {
      DrawnOtherCall(e, call, c);
    }
    hide EventInv, WellFormed, Next;
  }

  /** While a fixture exists the category's pairs are those it was drawn with, in the same order. */
  lemma {:induction false} DrawnPairsStay(trace: seq<Event>, calls: seq<Call>, from: nat, n: nat, c: CategoryId)
    requires IsRun(trace, calls) && EventInv(trace[0]) && from <= n < |trace|
    requires forall k :: from <= k <= n ==> HasFixture(trace[k], c)
    ensures SamePairsIn(trace[from], trace[n], c)
  {
    hide EventInv, WellFormed, Next;
    assert HasFixture(trace[n], c);
    if from < n {
      DrawnPairsStay(trace, calls, from, n - 1, c);
      RunKeeps(trace, calls, n - 1);
      assert HasFixture(trace[n - 1], c);
      DrawnStep(trace[n - 1], calls[n - 1], c);
    }
  }

  /** Every zona match of `x` is still there in `y` with the same pairs and the same result. */
  predicate SameZonaResults(x: Matches, y: Matches) {
    forall id :: id in x && x[id].stage.GroupStage? ==> id in y && SameResult(x[id], y[id])
  }

  predicate SameZonasIn(x: Event, y: Event, c: CategoryId) {
    c in x.categories && c in y.categories && SameZonaResults(x.categories[c].matches, y.categories[c].matches)
  }

  lemma SeededLoad(e: Event, c: CategoryId, id: MatchId, edit: MatchEdit, courts: set<CourtId>)
    requires EventInv(e) && ZonasClosed(e, c)
    requires UpdateMatch(e.categories[c].matches, id, edit, e.matchFormat, true, courts).Ok?
    ensures SameZonaResults(e.categories[c].matches,
                            UpdateMatch(e.categories[c].matches, id, edit, e.matchFormat, true, courts).value)
  {
    var cat, format := e.categories[c], e.matchFormat;
    var ms := cat.matches;
    assert CatInv(cat, format);
    var k, ids, draw :| DrawnBracket(ms, cat.pairs, format, k, ids, draw);
    assert Wired(ms, k, ids) by {
      assert Sound(Play(ms, format), k, ids, draw);
    }
    if ms[id].stage.GroupStage? {
      GroupUpdateShape(ms, id, edit, format, true, courts, cat.pairs);
    } else {
      KnockoutResultSparesGroups(ms, id, edit, format, true, courts, k, ids);
    }
    hide UpdateMatch, Wired, CatInv;
  }

  lemma SeededLoadStep(e: Event, call: Call, c: CategoryId)
    requires EventInv(e) && call.LoadResultCall? && ZonasClosed(e, c)
    ensures SameZonasIn(e, Next(e, call), c)
  {
    if Outcome(e, call).Ok? && call.c == c {
      SeededLoad(e, c, call.id, call.edit, call.courtIds);
    }
    hide UpdateMatch, EventInv, CatInv;
  }

  lemma FixtureElsewhere(e: Event, d: CategoryId, courts: seq<CourtId>, given: Given, c: CategoryId)
    requires WellFormed(e, GenerateFixtureCall(d, courts, given)) && HasFixture(e, c)
             && GenerateFixture(e, d, courts, given).Ok?
    ensures var after := GenerateFixture(e, d, courts, given).value;
            c in after.categories && after.categories[c] == e.categories[c]
  {
    hide WithFixture, GroupsOf;
  }

  lemma BracketElsewhere(e: Event, d: CategoryId, listing: seq<MatchId>, spots: map<Spot, MatchId>, c: CategoryId)
    requires WellFormed(e, GenerateBracketCall(d, listing, spots)) && ZonasClosed(e, c)
             && GenerateBracket(e, d, listing, spots).Ok?
    ensures var after := GenerateBracket(e, d, listing, spots).value;
            c in after.categories && after.categories[c] == e.categories[c]
  {
    hide Qualified, ZonasPending;
  }

  lemma SeededFlags(e: Event, c: CategoryId)
    requires EventInv(e) && c in e.categories
    ensures FlagsHold(e.categories[c])
  {
    hide FlagsHold;
    assert CatInv(e.categories[c], e.matchFormat);
  }

  lemma SeededDrawStep(e: Event, call: Call, c: CategoryId)
    requires EventInv(e) && WellFormed(e, call) && ZonasClosed(e, c) && ZonasClosed(Next(e, call), c)
             && IsDrawCall(call)
    ensures SameZonasIn(e, Next(e, call), c)
  {
    hide EventInv, ZonasStand, ZonasPending, OnlyZonas, GenerateFixture, GenerateBracket, HasResults, AnyFixture,
         GivenFits, FreshIds;
    SeededFlags(e, c);
    if Outcome(e, call).Ok? {
      match call
      case GenerateFixtureCall(d, courts, given) => FixtureElsewhere(e, d, courts, given, c);
      case GenerateBracketCall(d, listing, spots) => BracketElsewhere(e, d, listing, spots, c);
      case DeleteFixtureCall(d) =>
      case DeleteBracketCall(d) =>
    }
  }

  lemma SeededEventStep(e: Event, call: Call, c: CategoryId)
    requires EventInv(e) && WellFormed(e, call) && ZonasClosed(e, c) && ZonasClosed(Next(e, call), c)
    requires !IsDrawCall(call) && !IsPairCall(call) && !call.LoadResultCall?
    ensures SameZonasIn(e, Next(e, call), c)
  {
    assert FlagsHold(e.categories[c]) by {
      assert CatInv(e.categories[c], e.matchFormat);
    }
    hide EventInv, ZonasStand, ZonasPending, OnlyZonas;
  }

  lemma SeededStep(e: Event, call: Call, c: CategoryId)
    requires EventInv(e) && WellFormed(e, call) && ZonasClosed(e, c) && ZonasClosed(Next(e, call), c)
    ensures SameZonasIn(e, Next(e, call), c)
  {
    if IsPairCall(call) {
      assert CatInv(e.categories[c], e.matchFormat);
      DrawnPairCall(e, call, c);
    } else if call.LoadResultCall? {
      SeededLoadStep(e, call, c);
    } else if IsDrawCall(call) {
      SeededDrawStep(e, call, c);
    } else {
      SeededEventStep(e, call, c);
    }
    hide EventInv, WellFormed, Next;
  }

  predicate ZonasDecided(e: Event, c: CategoryId) {
    c in e.categories && !ZonasPending(e.categories[c].matches)
  }

  lemma {:induction false} ZonaResultsKept(trace: seq<Event>, calls: seq<Call>, from: nat, n: nat, c: CategoryId)
    requires IsRun(trace, calls) && EventInv(trace[0]) && from <= n < |trace|
    requires forall k :: from <= k <= n ==> ZonasClosed(trace[k], c)
    ensures SameZonasIn(trace[from], trace[n], c)
  {
    hide EventInv, WellFormed, Next, SameZonasIn;
    assert ZonasClosed(trace[n], c);
    if from == n {
      SameZonasAsIs(trace[n], c);
    } else {
      ZonaResultsKept(trace, calls, from, n - 1, c);
      RunKeeps(trace, calls, n - 1);
      assert ZonasClosed(trace[n - 1], c);
      SeededStep(trace[n - 1], calls[n - 1], c);
      SameZonasOn(trace[from], trace[n - 1], trace[n], c);
    }
  }

  /** While a zonas category has its bracket, every zona match stays decided with its result unchanged. */
  lemma ZonaResultsFrozen(trace: seq<Event>, calls: seq<Call>, from: nat, n: nat, c: CategoryId)
    requires IsRun(trace, calls) && EventInv(trace[0]) && from <= n < |trace|
    requires forall k :: from <= k <= n ==> ZonasClosed(trace[k], c)
    ensures SameZonasIn(trace[from], trace[n], c)
    ensures ZonasDecided(trace[n], c)
  {
    ZonaResultsKept(trace, calls, from, n, c);
    RunKeeps(trace, calls, n);
    assert ZonasClosed(trace[n], c);
    hide EventInv, WellFormed, Next, SameZonasIn, ZonasDecided;
    ClosedZonasDecided(trace[n], c);
  }

  lemma ClosedZonasDecided(e: Event, c: CategoryId)
    requires EventInv(e) && ZonasClosed(e, c)
    ensures ZonasDecided(e, c)
  {
    assert CatInv(e.categories[c], e.matchFormat);
    hide ZonasPending;
  }

  lemma SameZonasAsIs(e: Event, c: CategoryId)
    requires c in e.categories
    ensures SameZonasIn(e, e, c)
  {
  }

  lemma SameZonasOn(x: Event, y: Event, z: Event, c: CategoryId)
    requires SameZonasIn(x, y, c) && SameZonasIn(y, z, c)
    ensures SameZonasIn(x, z, c)
  {
    forall id | id in x.categories[c].matches && x.categories[c].matches[id].stage.GroupStage?
      ensures id in z.categories[c].matches && SameResult(x.categories[c].matches[id], z.categories[c].matches[id])
    {
      assert SameResult(x.categories[c].matches[id], y.categories[c].matches[id]);
    }
  }

  /** With the zonas decided, the bracket is always seeded: it never lacks entrants. */
  lemma DecidedZonasSeedABracket(e: Event, c: CategoryId, listing: seq<MatchId>, spots: map<Spot, MatchId>)
    requires EventInv(e) && WellFormed(e, GenerateBracketCall(c, listing, spots)) && OpenForChanges(e)
             && HasFixture(e, c)
    requires e.categories[c].format.ZonasThenBracket? && !e.categories[c].hasBracket
    ensures GenerateBracket(e, c, listing, spots).Ok? <==> !ZonasPending(e.categories[c].matches)
  {
    assert CatInv(e.categories[c], e.matchFormat);
    EnoughQualify(e.categories[c], listing);
  }

  /** The champion, if any, is a registered pair that won a match of every round of the bracket. */
  ghost predicate WorthyChampion(cat: Category, k: nat, ids: map<Spot, MatchId>, draw: seq<Option<Entrant>>) {
    var champion := Champion(cat.matches, k, ids);
    champion.Some? ==>
      && HasId(cat.pairs, champion.value)
      && exists e: nat :: WonThrough(cat.matches, ids, draw, e, k) && PairOf(draw[e]) == champion
  }

  /**
   * In any event reached by calls, a category's champion is one of its registered pairs, and won a
   * match of every round of the bracket, from its place in the draw to the final.
   */
  lemma ChampionOfTheCategory(trace: seq<Event>, calls: seq<Call>, n: nat, c: CategoryId)
    returns (k: nat, ids: map<Spot, MatchId>, draw: seq<Option<Entrant>>)
    requires IsRun(trace, calls) && EventInv(trace[0]) && n < |trace| && c in trace[n].categories
             && trace[n].categories[c].hasBracket
    ensures var cat := trace[n].categories[c];
            DrawnBracket(cat.matches, cat.pairs, trace[n].matchFormat, k, ids, draw)
            && WorthyChampion(cat, k, ids, draw)
  {
    RunKeeps(trace, calls, n);
    var cat, format := trace[n].categories[c], trace[n].matchFormat;
    assert CatInv(cat, format);
    k, ids, draw :| DrawnBracket(cat.matches, cat.pairs, format, k, ids, draw);
    if Champion(cat.matches, k, ids).Some? {
      assert Sound(Play(cat.matches, format), k, ids, draw);
      var e := ChampionWonEveryRound(cat.matches, k, ids, draw);
    }
  }
}
