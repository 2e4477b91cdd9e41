/** What holds of a category at every moment, and who the zonas send to the bracket. */
module CategoryLaws {
  import opened Base
  import opened Score
  import opened Draw
  import opened Zonas
  import opened Standings
  import opened Bracket
  import opened Categories

  // ── Sets of pairs ───────────────────────────────────────────────────────────

  predicate DistinctPairIds(pairs: seq<Pair>) {
    forall i, j :: 0 <= i < j < |pairs| ==> pairs[i].id != pairs[j].id
  }

  function ZonaIds(pairs: seq<Pair>, zona: GroupId): set<PairId> {
    set p | p in pairs && p.group == Some(zona) :: p.id
  }

  function Elements<T(==)>(xs: seq<T>): set<T> {
    set x | x in xs
  }

  lemma {:induction false} DistinctSize(ids: seq<nat>)
    requires NoRepeats(ids)
    ensures |Elements(ids)| == |ids|
  {
    if ids != [] {
      var n := |ids| - 1;
      DistinctSize(ids[..n]);
      assert ids == ids[..n] + [ids[n]];
      assert Elements(ids) == Elements(ids[..n]) + {ids[n]};
    }
  }

  lemma DistinctWhenPermuted(pairs: seq<Pair>, same: seq<Pair>)
    requires DistinctPairIds(pairs) && multiset(same) == multiset(pairs)
    ensures DistinctPairIds(same)
    ensures forall p :: p in same <==> p in pairs
  {
    PermutedNoRepeats(pairs, same);
    forall i, j | 0 <= i < j < |same|
      ensures same[i].id != same[j].id
    {
      assert same[i] in pairs && same[j] in pairs && same[i] != same[j];
    }
  }

  lemma SeededSame(pairs: seq<Pair>)
    requires DistinctPairIds(pairs)
    ensures |Seeded(pairs)| == |pairs| && DistinctPairIds(Seeded(pairs))
    ensures forall p :: p in Seeded(pairs) <==> p in pairs
  {
    SortByContents(pairs, SeedsBefore);
    DistinctWhenPermuted(pairs, Seeded(pairs));
  }

  lemma {:induction false} MembersAre(pairs: seq<Pair>, zona: GroupId)
    requires DistinctPairIds(pairs)
    ensures var ms := MembersOf(pairs, zona);
      && (forall p :: p in ms <==> p in pairs && p.group == Some(zona))
      && DistinctPairIds(ms)
  {
    if pairs != [] {
      var n := |pairs| - 1;
      MembersAre(pairs[..n], zona);
      assert pairs == pairs[..n] + [pairs[n]];
    }
  }

  lemma MembersSize(pairs: seq<Pair>, zona: GroupId)
    requires DistinctPairIds(pairs)
    ensures NoRepeats(IdsOf(MembersOf(pairs, zona)))
    ensures Elements(IdsOf(MembersOf(pairs, zona))) == ZonaIds(pairs, zona)
    ensures |MembersOf(pairs, zona)| == |ZonaIds(pairs, zona)|
  {
    MembersAre(pairs, zona);
    var ms := MembersOf(pairs, zona);
    var ids := IdsOf(ms);
    DistinctSize(ids);
    forall id
      ensures id in Elements(ids) <==> id in ZonaIds(pairs, zona)
    {
      if id in ZonaIds(pairs, zona) {
        var p :| p in pairs && p.group == Some(zona) && p.id == id;
        assert p in ms;
        var i :| 0 <= i < |ms| && ms[i] == p;
        assert ids[i] == id;
      }
      if id in ids {
        var i :| 0 <= i < |ids| && ids[i] == id;
        assert ms[i] in ms;
      }
    }
    assert Elements(ids) == ZonaIds(pairs, zona);
  }

  // ── The zonas as drawn ──────────────────────────────────────────────────────

  lemma {:induction false} FlattenHas(groups: seq<seq<Pair>>, g: nat, i: nat)
    requires g < |groups| && i < |groups[g]|
    ensures groups[g][i] in Flatten(groups)
  {
    var n := |groups| - 1;
    if g < n {
      FlattenHas(groups[..n], g, i);
    }
  }

  /** No pair id is in two zonas, or twice in one. */
  lemma {:induction false} FlattenApart(groups: seq<seq<Pair>>, g: nat, i: nat, h: nat, j: nat)
    requires DistinctPairIds(Flatten(groups)) && g < |groups| && i < |groups[g]| && h < |groups| && j < |groups[h]|
    requires g < h || (g == h && i < j)
    ensures groups[g][i].id != groups[h][j].id
  {
    var n := |groups| - 1;
    var front, last := Flatten(groups[..n]), groups[n];
    assert Flatten(groups) == front + last;
    if h < n {
      assert forall a, b :: 0 <= a < b < |front| ==> front[a] == Flatten(groups)[a] && front[b] == Flatten(groups)[b];
      FlattenApart(groups[..n], g, i, h, j);
    } else if g < n {
      FlattenHas(groups[..n], g, i);
      var a :| 0 <= a < |front| && front[a] == groups[g][i];
      assert Flatten(groups)[a] == front[a] && Flatten(groups)[|front| + j] == last[j];
    } else {
      assert Flatten(groups)[|front| + i] == last[i] && Flatten(groups)[|front| + j] == last[j];
    }
  }

  lemma {:induction false} ZonaOfMember(groups: seq<seq<Pair>>, zonas: seq<Zona>, g: nat, i: nat)
    requires |groups| == |zonas| && DistinctPairIds(Flatten(groups)) && g < |groups| && i < |groups[g]|
    ensures ZonaOf(groups, zonas, groups[g][i].id) == Some(zonas[g].id)
  {
    var n := |groups| - 1;
    if g < n {
      if HasId(groups[n], groups[g][i].id) {
        var j :| 0 <= j < |groups[n]| && groups[n][j].id == groups[g][i].id;
        FlattenApart(groups, g, i, n, j);
        assert false;
      }
      assert forall a, b :: 0 <= a < b < |Flatten(groups[..n])| ==>
        Flatten(groups[..n])[a] == Flatten(groups)[a] && Flatten(groups[..n])[b] == Flatten(groups)[b];
      ZonaOfMember(groups[..n], zonas[..n], g, i);
    }
  }

  lemma GroupsHoldEveryone(cat: Category)
    requires cat.groupSize >= 2 && DistinctPairIds(cat.pairs)
    ensures multiset(Flatten(GroupsOf(cat))) == multiset(Seeded(cat.pairs))
    ensures DistinctPairIds(Flatten(GroupsOf(cat)))
    ensures forall p :: p in Flatten(GroupsOf(cat)) <==> p in cat.pairs
  {
    var seeded := Seeded(cat.pairs);
    SeededSame(cat.pairs);
    DealtHoldsEveryone(seeded, GroupCount(|seeded|, cat.groupSize), |seeded|);
    assert seeded[..|seeded|] == seeded;
    DistinctWhenPermuted(seeded, Flatten(GroupsOf(cat)));
  }

  /** Each zona holds at least its share of the pairs. */
  lemma ZonaHasItsShare(cat: Category, zonas: seq<Zona>, g: nat)
    requires cat.groupSize >= 2 && DistinctPairIds(cat.pairs) && |zonas| == |GroupsOf(cat)| && g < |zonas|
    ensures |ZonaIds(InZonas(cat.pairs, GroupsOf(cat), zonas), zonas[g].id)| >= Min(|cat.pairs|, cat.groupSize)
  {
    var groups, placed := GroupsOf(cat), InZonas(cat.pairs, GroupsOf(cat), zonas);
    SeededSame(cat.pairs);
    GroupsHoldEveryone(cat);
    SizesBalanced(Seeded(cat.pairs), cat.groupSize, g, g);
    var ids := IdsOf(groups[g]);
    forall i, j | 0 <= i < j < |ids|
      ensures ids[i] != ids[j]
    {
      FlattenApart(groups, g, i, g, j);
    }
    DistinctSize(ids);
    forall id | id in Elements(ids)
      ensures id in ZonaIds(placed, zonas[g].id)
    {
      var i :| 0 <= i < |ids| && ids[i] == id;
      FlattenHas(groups, g, i);
      ZonaOfMember(groups, zonas, g, i);
      var j :| 0 <= j < |cat.pairs| && cat.pairs[j] == groups[g][i];
      assert placed[j].id == id && placed[j].group == Some(zonas[g].id);
    }
    Contained(Elements(ids), ZonaIds(placed, zonas[g].id));
  }

  lemma {:induction false} Contained<T>(a: set<T>, b: set<T>)
    requires a <= b
    ensures |a| <= |b|
    decreases a
  {
    if a != {} {
      var x :| x in a;
      Contained(a - {x}, b - {x});
    }
  }

  // ── Who goes through to the bracket ─────────────────────────────────────────

  ghost predicate DistinctZonas(zonas: seq<Zona>) {
    forall g, h :: 0 <= g < h < |zonas| ==> zonas[g].id != zonas[h].id
  }

  function TableAt(cat: Category, listing: seq<MatchId>, g: nat): seq<PairId>
    requires g < |cat.zonas|
  {
    ZonaTable(cat, listing, cat.zonas[g].id)
  }

  /** A zona's table lists its pairs, each once. */
  lemma TableIsTheZona(cat: Category, listing: seq<MatchId>, g: nat)
    requires DistinctPairIds(cat.pairs) && g < |cat.zonas|
    ensures NoRepeats(TableAt(cat, listing, g))
    ensures forall id :: id in TableAt(cat, listing, g) <==> id in ZonaIds(cat.pairs, cat.zonas[g].id)
    ensures |TableAt(cat, listing, g)| == |ZonaIds(cat.pairs, cat.zonas[g].id)|
  {
    var zona := cat.zonas[g].id;
    var seeded := Seeded(cat.pairs);
    SeededSame(cat.pairs);
    MembersSize(seeded, zona);
    assert ZonaIds(seeded, zona) == ZonaIds(cat.pairs, zona);
    var ids := IdsOf(MembersOf(seeded, zona));
    var matches := PlayedIn(cat.matches, listing, zona);
    var le := (x, y) => NotAfter(ids, matches, x, y);
    SortByContents(ids, le);
    SamePermuted(ids, TableAt(cat, listing, g));
  }

  lemma SamePermuted(ids: seq<nat>, same: seq<nat>)
    requires NoRepeats(ids) && multiset(same) == multiset(ids) && |same| == |ids|
    ensures NoRepeats(same)
    ensures forall id :: id in same <==> id in Elements(ids)
  {
    PermutedNoRepeats(ids, same);
  }

  /** An entrant is the pair at one place of one zona's table. */
  predicate EntersFrom(cat: Category, listing: seq<MatchId>, e: Entrant, place: nat, g: nat) {
    g < |cat.zonas| && place < |TableAt(cat, listing, g)| && e.pairId == TableAt(cat, listing, g)[place]
  }

  /** Places before (place, g), zona by zona within a place. */
  ghost predicate EntersBefore(cat: Category, listing: seq<MatchId>, e: Entrant, place: nat, g: nat) {
    exists q: nat, h: nat :: EntersFrom(cat, listing, e, q, h) && (q < place || (q == place && h < g))
  }

  lemma OnePlaceEach(cat: Category, listing: seq<MatchId>, d: Entrant, e: Entrant, q: nat, h: nat, place: nat, g: nat)
    requires DistinctPairIds(cat.pairs) && DistinctZonas(cat.zonas)
    requires EntersFrom(cat, listing, d, q, h) && EntersFrom(cat, listing, e, place, g) && d.pairId == e.pairId
    ensures q == place && h == g
  {
    TableIsTheZona(cat, listing, g);
    TableIsTheZona(cat, listing, h);
    assert d.pairId in ZonaIds(cat.pairs, cat.zonas[h].id) && d.pairId in ZonaIds(cat.pairs, cat.zonas[g].id);
    var a :| a in cat.pairs && a.group == Some(cat.zonas[h].id) && a.id == d.pairId;
    var b :| b in cat.pairs && b.group == Some(cat.zonas[g].id) && b.id == d.pairId;
    assert a == b;
    assert h == g;
    hide TableAt;
  }

  ghost predicate EntersAt(cat: Category, listing: seq<MatchId>, e: Entrant, place: nat, g: nat) {
    exists h: nat :: h < g && EntersFrom(cat, listing, e, place, h)
  }

  ghost predicate AllEnterAt(cat: Category, listing: seq<MatchId>, entrants: seq<Entrant>, place: nat, g: nat) {
    DistinctEntrants(entrants) && forall i :: 0 <= i < |entrants| ==> EntersAt(cat, listing, entrants[i], place, g)
  }

  lemma NobodyPlaced(cat: Category, listing: seq<MatchId>, place: nat)
    ensures PlacedAt(cat, listing, place, 0) == [] && AllEnterAt(cat, listing, [], place, 0)
  {
  }

  lemma PlacedStep(cat: Category, listing: seq<MatchId>, place: nat, g: nat) returns (e: Entrant)
    requires g < |cat.zonas|
    ensures var before, now := PlacedAt(cat, listing, place, g), PlacedAt(cat, listing, place, g + 1);
            if place < |TableAt(cat, listing, g)| then now == before + [e]
               && EntersFrom(cat, listing, e, place, g) else now == before
  {
    hide ZonaTable;
    if place < |TableAt(cat, listing, g)| {
      e := PlacedAt(cat, listing, place, g + 1)[|PlacedAt(cat, listing, place, g)|];
    } else {
      e := Entrant(0, "", None);
    }
  }

  lemma PlaceNext(cat: Category, listing: seq<MatchId>, place: nat, g: nat, before: seq<Entrant>, added: seq<Entrant>)
    requires DistinctPairIds(cat.pairs) && DistinctZonas(cat.zonas) && AllEnterAt(cat, listing, before, place, g)
    requires |added| <= 1 && (added != [] ==> EntersFrom(cat, listing, added[0], place, g))
    ensures AllEnterAt(cat, listing, before + added, place, g + 1)
  {
    var now := before + added;
    hide EntersFrom, TableAt;
    forall i | 0 <= i < |now|
      ensures EntersAt(cat, listing, now[i], place, g + 1)
    {
      assert i < |before| ==> EntersAt(cat, listing, before[i], place, g);
    }
    forall i | 0 <= i < |before| && added != []
      ensures before[i].pairId != added[0].pairId
    {
      assert EntersAt(cat, listing, before[i], place, g);
      var h: nat :| h < g && EntersFrom(cat, listing, before[i], place, h);
      if before[i].pairId == added[0].pairId {
        OnePlaceEach(cat, listing, before[i], added[0], place, h, place, g);
        assert false;
      }
    }
  }

  lemma {:induction false} PlacedAtLaw(cat: Category, listing: seq<MatchId>, place: nat, g: nat)
    requires DistinctPairIds(cat.pairs) && DistinctZonas(cat.zonas) && g <= |cat.zonas|
    ensures AllEnterAt(cat, listing, PlacedAt(cat, listing, place, g), place, g)
  {
    hide *;
    if g == 0 {
      NobodyPlaced(cat, listing, place);
    } else {
      PlacedAtLaw(cat, listing, place, g - 1);
      var e := PlacedStep(cat, listing, place, g - 1);
      var before := PlacedAt(cat, listing, place, g - 1);
      var added := if place < |TableAt(cat, listing, g - 1)| then [e] else [];
      PlaceNext(cat, listing, place, g - 1, before, added);
      assert PlacedAt(cat, listing, place, g) == before + added;
    }
  }

  lemma {:induction false} QualifiedLaw(cat: Category, listing: seq<MatchId>, places: nat)
    requires DistinctPairIds(cat.pairs) && DistinctZonas(cat.zonas)
    ensures forall i :: 0 <= i < |Qualified(cat, listing, places)| ==>
              EntersBefore(cat, listing, Qualified(cat, listing, places)[i], places, 0)
    ensures DistinctEntrants(Qualified(cat, listing, places))
  {
    hide EntersBefore, EntersAt, EntersFrom, PlacedAt, TableAt, DistinctPairIds, DistinctZonas;
    if places > 0 {
      var q := places - 1;
      var before, now := Qualified(cat, listing, q), PlacedAt(cat, listing, q, |cat.zonas|);
      QualifiedLaw(cat, listing, q);
      PlacedAtLaw(cat, listing, q, |cat.zonas|);
      NextPlaceEnters(cat, listing, before, now, q);
      assert Qualified(cat, listing, places) == before + now;
    }
  }

  lemma NextPlaceEnters(cat: Category, listing: seq<MatchId>, before: seq<Entrant>, now: seq<Entrant>, q: nat)
    requires DistinctPairIds(cat.pairs) && DistinctZonas(cat.zonas)
    requires DistinctEntrants(before) && AllEnterAt(cat, listing, now, q, |cat.zonas|)
    requires forall i :: 0 <= i < |before| ==> EntersBefore(cat, listing, before[i], q, 0)
    ensures DistinctEntrants(before + now)
    ensures forall i :: 0 <= i < |before + now| ==> EntersBefore(cat, listing, (before + now)[i], q + 1, 0)
  {
    hide EntersBefore, EntersAt, EntersFrom, DistinctPairIds, DistinctZonas;
    var all := before + now;
    forall i | 0 <= i < |all|
      ensures EntersBefore(cat, listing, all[i], q + 1, 0)
    {
      EntersSooner(cat, listing, all[i], q);
    }
    forall i, j | 0 <= i < |before| && 0 <= j < |now|
      ensures before[i].pairId != now[j].pairId
    {
      EarlierAndNowDiffer(cat, listing, before[i], now[j], q);
    }
  }

  lemma EntersSooner(cat: Category, listing: seq<MatchId>, e: Entrant, q: nat)
    requires EntersBefore(cat, listing, e, q, 0) || EntersAt(cat, listing, e, q, |cat.zonas|)
    ensures EntersBefore(cat, listing, e, q + 1, 0)
  {
    hide EntersFrom;
  }

  lemma EarlierAndNowDiffer(cat: Category, listing: seq<MatchId>, d: Entrant, e: Entrant, q: nat)
    requires DistinctPairIds(cat.pairs) && DistinctZonas(cat.zonas)
    requires EntersBefore(cat, listing, d, q, 0) && EntersAt(cat, listing, e, q, |cat.zonas|)
    ensures d.pairId != e.pairId
  {
    hide EntersFrom, DistinctPairIds, DistinctZonas;
    var p: nat, h: nat :| EntersFrom(cat, listing, d, p, h) && p < q;
    var h2: nat :| h2 < |cat.zonas| && EntersFrom(cat, listing, e, q, h2);
    if d.pairId == e.pairId {
      OnePlaceEach(cat, listing, d, e, p, h, q, h2);
    }
  }

  /** The zonas as they stand while the fixture exists. */
  ghost predicate ZonasStand(cat: Category) {
    && cat.groupSize >= 2
    && DistinctZonas(cat.zonas)
    && |cat.zonas| == GroupCount(|cat.pairs|, cat.groupSize)
    && |cat.zonas| * Min(cat.advancePerGroup, cat.groupSize) >= 2
    && (forall g :: 0 <= g < |cat.zonas| ==> |ZonaIds(cat.pairs, cat.zonas[g].id)| >= Min(|cat.pairs|, cat.groupSize))
  }

  lemma {:induction false} FullPlace(cat: Category, listing: seq<MatchId>, place: nat, g: nat)
    requires DistinctPairIds(cat.pairs) && g <= |cat.zonas|
    requires forall h :: 0 <= h < g ==> |ZonaIds(cat.pairs, cat.zonas[h].id)| > place
    ensures |PlacedAt(cat, listing, place, g)| == g
  {
    hide *;
    if g == 0 {
      NobodyPlaced(cat, listing, place);
    } else {
      FullPlace(cat, listing, place, g - 1);
      TableIsTheZona(cat, listing, g - 1);
      var e := PlacedStep(cat, listing, place, g - 1);
    }
  }

  lemma {:induction false} QualifiedGrows(cat: Category, listing: seq<MatchId>, places: nat, fewer: nat)
    requires fewer <= places
    ensures |Qualified(cat, listing, fewer)| <= |Qualified(cat, listing, places)|
  {
    if fewer < places {
      QualifiedGrows(cat, listing, places - 1, fewer);
    }
  }

  /** The zonas always send at least two pairs: seeding the bracket cannot fail for lack of entrants. */
  lemma EnoughQualify(cat: Category, listing: seq<MatchId>)
    requires DistinctPairIds(cat.pairs) && ZonasStand(cat) && |cat.pairs| >= 2
    ensures |Qualified(cat, listing, cat.advancePerGroup)| >= 2
  {
    var n := |cat.zonas|;
    FullPlace(cat, listing, 0, n);
    assert cat.advancePerGroup == 0 ==> n * Min(cat.advancePerGroup, cat.groupSize) == 0;
    assert Qualified(cat, listing, 1) == Qualified(cat, listing, 0) + PlacedAt(cat, listing, 0, n);
    if n >= 2 {
      QualifiedGrows(cat, listing, cat.advancePerGroup, 1);
    } else {
      assert n * Min(cat.advancePerGroup, cat.groupSize) == Min(cat.advancePerGroup, cat.groupSize);
      FullPlace(cat, listing, 1, n);
      assert Qualified(cat, listing, 2) == Qualified(cat, listing, 1) + PlacedAt(cat, listing, 1, n);
      QualifiedGrows(cat, listing, cat.advancePerGroup, 2);
    }
  }

  lemma QualifiedAreRegistered(cat: Category, listing: seq<MatchId>, places: nat, i: nat)
    requires DistinctPairIds(cat.pairs) && DistinctZonas(cat.zonas) && i < |Qualified(cat, listing, places)|
    ensures HasId(cat.pairs, Qualified(cat, listing, places)[i].pairId)
  {
    QualifiedLaw(cat, listing, places);
    var e := Qualified(cat, listing, places)[i];
    assert EntersBefore(cat, listing, e, places, 0);
    var q: nat, h: nat :| EntersFrom(cat, listing, e, q, h) && q < places;
    TableIsTheZona(cat, listing, h);
    assert e.pairId in ZonaIds(cat.pairs, cat.zonas[h].id);
    var p :| p in cat.pairs && p.group == Some(cat.zonas[h].id) && p.id == e.pairId;
    var j :| 0 <= j < |cat.pairs| && cat.pairs[j] == p;
    assert cat.pairs[j].id == e.pairId;
  }
}
