/**
 * What a drawn fixture still holds after any run of calls: every two pairs of a group have exactly
 * one match, everyone registered is in the straight draw, and the zonas' tables follow their rules
 * (src/competitions/competitions.service.ts).
 */
module FixtureRuns {
  import opened Base
  import opened Score
  import opened Draw
  import opened RoundRobin
  import opened Zonas
  import opened Standings
  import opened Bracket
  import opened Categories
  import opened CategoryLaws
  import opened CategoryRuns

  // ── One match for every two pairs ───────────────────────────────────────────

  predicate Faces(m: Match, x: PairId, y: PairId) {
    (m.pairA == Some(x) && m.pairB == Some(y)) || (m.pairA == Some(y) && m.pairB == Some(x))
  }

  predicate IsFacing(ms: Matches, group: Option<GroupId>, id: MatchId, x: PairId, y: PairId) {
    id in ms && ms[id].stage.GroupStage? && ms[id].group == group && Faces(ms[id], x, y)
  }

  ghost predicate FaceOnce(ms: Matches, group: Option<GroupId>, x: PairId, y: PairId) {
    exists id :: IsFacing(ms, group, id, x, y) && forall j :: IsFacing(ms, group, j, x, y) ==> j == id
  }

  /** Any two of these pairs have exactly one match in the group. */
  ghost predicate AllFaceOnce(ms: Matches, group: Option<GroupId>, members: set<PairId>) {
    forall x, y {:trigger FaceOnce(ms, group, x, y)} :: x in members && y in members && x != y ==>
      FaceOnce(ms, group, x, y)
  }

  predicate RowFaces(rows: seq<Match>, group: Option<GroupId>, k: nat, x: PairId, y: PairId) {
    k < |rows| && rows[k].stage.GroupStage? && rows[k].group == group && Faces(rows[k], x, y)
  }

  ghost predicate RowsFaceOnce(rows: seq<Match>, group: Option<GroupId>, x: PairId, y: PairId) {
    exists k :: RowFaces(rows, group, k, x, y) && forall l :: RowFaces(rows, group, l, x, y) ==> l == k
  }

  /** Every two seats below `count` are listed together exactly once, lower first. */
  ghost predicate SeatsMeetOnce(pairings: seq<Pairing>, count: nat) {
    && (forall x: nat, y: nat {:trigger Meets(pairings, x, y)} :: x < y < count ==> Meets(pairings, x, y))
    && (forall k :: 0 <= k < |pairings| ==> pairings[k].a < pairings[k].b < count)
    && (forall j, k :: 0 <= j < k < |pairings| ==> pairings[j].a != pairings[k].a || pairings[j].b != pairings[k].b)
  }

  lemma RoundRobinMeetsOnce(count: nat)
    ensures SeatsMeetOnce(AllPairings(count), count)
  {
    hide AllPairings;
    PairingsAreComplete(count);
  }

  lemma SeatOf(members: seq<Pair>, x: PairId) returns (i: nat)
    requires HasId(members, x)
    ensures i < |members| && members[i].id == x
  {
    i :| i < |members| && members[i].id == x;
  }

  lemma GroupRowsFaceOnce(members: seq<Pair>, pairings: seq<Pairing>, zona: Option<GroupId>, x: PairId, y: PairId)
    requires SeatsMeetOnce(pairings, |members|) && DistinctPairIds(members)
    requires HasId(members, x) && HasId(members, y) && x != y
    ensures RowsFaceOnce(GroupRows(members, pairings, zona), zona, x, y)
  {
    hide InRound;
    var rows := GroupRows(members, pairings, zona);
    var i := SeatOf(members, x);
    var j := SeatOf(members, y);
    var a, b := if i < j then i else j, if i < j then j else i;
    assert Meets(pairings, a, b);
    var k: nat :| k < |pairings| && pairings[k].a == a && pairings[k].b == b;
    assert RowFaces(rows, zona, k, x, y);
    forall l: nat | RowFaces(rows, zona, l, x, y)
      ensures l == k
    {
      var low, high := pairings[l].a, pairings[l].b;
      assert {low, high} == {a, b};
    }
  }

  /** Two lists of rows between the same pairs in the same group, whatever their rounds and courts. */
  predicate SamePairings(rows: seq<Match>, same: seq<Match>) {
    |same| == |rows| && forall k :: 0 <= k < |rows| ==>
      same[k].stage == rows[k].stage && same[k].group == rows[k].group && same[k].pairA == rows[k].pairA
      && same[k].pairB == rows[k].pairB
  }

  lemma SamePairingsFaceOnce(rows: seq<Match>, same: seq<Match>, group: Option<GroupId>, x: PairId, y: PairId)
    requires SamePairings(rows, same) && RowsFaceOnce(rows, group, x, y)
    ensures RowsFaceOnce(same, group, x, y)
  {
    var k: nat :| RowFaces(rows, group, k, x, y) && forall l :: RowFaces(rows, group, l, x, y) ==> l == k;
    assert RowFaces(same, group, k, x, y);
    forall l: nat | RowFaces(same, group, l, x, y)
      ensures l == k
    {
      assert RowFaces(rows, group, l, x, y);
    }
  }

  lemma InsertedFaceOnce(rows: seq<Match>, ids: seq<MatchId>, group: Option<GroupId>, x: PairId, y: PairId)
    requires |ids| == |rows| && NoRepeats(ids) && RowsFaceOnce(rows, group, x, y)
    ensures FaceOnce(Inserted(rows, ids), group, x, y)
  {
    var ms := Inserted(rows, ids);
    var k: nat :| RowFaces(rows, group, k, x, y) && forall l :: RowFaces(rows, group, l, x, y) ==> l == k;
    assert ms[ids[k]] == rows[k];
    assert IsFacing(ms, group, ids[k], x, y);
    forall id | IsFacing(ms, group, id, x, y)
      ensures id == ids[k]
    {
      var l: nat :| l < |ids| && ids[l] == id;
      assert ms[ids[l]] == rows[l];
      assert RowFaces(rows, group, l, x, y);
    }
  }

  // ── Each way of drawing ─────────────────────────────────────────────────────

  /** A packing in waves lists the same pairings, each once. */
  lemma PlacedMeetOnce(placed: seq<Placed>, count: nat)
    requires multiset(Pairings(placed)) == multiset(AllPairings(count))
    ensures SeatsMeetOnce(Pairings(placed), count)
  {
    hide AllPairings;
    var all, ps := AllPairings(count), Pairings(placed);
    RoundRobinMeetsOnce(count);
    assert NoRepeats(all);
    PermutedNoRepeats(all, ps);
    forall x: nat, y: nat | x < y < count
      ensures Meets(ps, x, y)
    {
      assert Meets(all, x, y);
      var k :| 0 <= k < |all| && all[k].a == x && all[k].b == y;
      assert all[k] in ps;
      var l :| 0 <= l < |ps| && ps[l] == all[k];
    }
    forall k | 0 <= k < |ps|
      ensures ps[k].a < ps[k].b < count
    {
      assert ps[k] in all;
    }
    forall j, k | 0 <= j < k < |ps|
      ensures ps[j].a != ps[k].a || ps[j].b != ps[k].b
    {
      assert ps[j] in all && ps[k] in all && ps[j] != ps[k];
    }
  }

  lemma RoundsDoNotMatter(members: seq<Pair>, pairings: seq<Pairing>, other: seq<Pairing>, zona: Option<GroupId>)
    requires |other| == |pairings|
    requires forall k :: 0 <= k < |pairings| ==> pairings[k].a < |members| && pairings[k].b < |members|
    requires forall k :: 0 <= k < |pairings| ==> other[k].a == pairings[k].a && other[k].b == pairings[k].b
    ensures SamePairings(GroupRows(members, pairings, zona), GroupRows(members, other, zona))
  {
    hide InRound;
  }

  lemma WaveRowsSame(members: seq<Pair>, placed: seq<Placed>, courts: seq<CourtId>)
    requires forall k :: 0 <= k < |placed| ==>
      placed[k].pairing.a < |members| && placed[k].pairing.b < |members| && placed[k].court < |courts|
    ensures SamePairings(GroupRows(members, Pairings(placed), None), WaveRows(members, placed, courts))
  {
    hide InRound;
    var waved := seq(|placed|, k requires 0 <= k < |placed| => placed[k].pairing.(round := placed[k].wave));
    RoundsDoNotMatter(members, Pairings(placed), waved, None);
  }

  function Ids(pairs: seq<Pair>): (ids: set<PairId>)
    ensures forall id :: id in ids <==> HasId(pairs, id)
  {
    var ids := set i | 0 <= i < |pairs| :: pairs[i].id;
    assert forall id :: HasId(pairs, id) ==> id in ids;
    ids
  }

  lemma RoundRobinHolds(cat: Category, courts: seq<CourtId>, given: Given)
    requires cat.format.AllPlayAll? && GivenFits(cat, courts, given) && DistinctPairIds(cat.pairs)
    ensures AllFaceOnce(Inserted(RoundRobinRows(cat, courts, given), given.rows), None, Ids(cat.pairs))
  {
    SeededSame(cat.pairs);
    var seeded := Seeded(cat.pairs);
    SortByContents(cat.pairs, SeedsBefore);
    var rows := RoundRobinRows(cat, courts, given);
    forall x, y | x in Ids(cat.pairs) && y in Ids(cat.pairs) && x != y
      ensures FaceOnce(Inserted(rows, given.rows), None, x, y)
    {
      SeededHas(cat.pairs, x);
      SeededHas(cat.pairs, y);
      if courts == [] {
        RoundRobinMeetsOnce(|seeded|);
        GroupRowsFaceOnce(seeded, AllPairings(|seeded|), None, x, y);
      } else {
        PlacedFits(seeded, given.placed);
        PlacedMeetOnce(given.placed, |seeded|);
        GroupRowsFaceOnce(seeded, Pairings(given.placed), None, x, y);
        WaveRowsSame(seeded, given.placed, courts);
        SamePairingsFaceOnce(GroupRows(seeded, Pairings(given.placed), None), rows, None, x, y);
      }
      InsertedFaceOnce(rows, given.rows, None, x, y);
    }
  }

  lemma SeededHas(pairs: seq<Pair>, id: PairId)
    requires DistinctPairIds(pairs) && HasId(pairs, id)
    ensures HasId(Seeded(pairs), id)
  {
    SeededSame(pairs);
    var i :| 0 <= i < |pairs| && pairs[i].id == id;
    HasIdWhere(Seeded(pairs), pairs[i]);
  }

  // zonas

  lemma {:induction false} AllZonaRowsFaceOnce(groups: seq<seq<Pair>>, zonas: seq<Zona>, g: nat, x: PairId, y: PairId)
    requires |groups| == |zonas| && g < |groups| && DistinctZonas(zonas) && DistinctPairIds(Flatten(groups))
    requires HasId(groups[g], x) && HasId(groups[g], y) && x != y
    ensures RowsFaceOnce(AllZonaRows(groups, zonas), Some(zonas[g].id), x, y)
  {
    hide ZonaRows, DistinctPairIds, HasId;
    var n := |groups| - 1;
    var front, last := AllZonaRows(groups[..n], zonas[..n]), ZonaRows(groups[n], Some(zonas[n].id));
    assert Flatten(groups) == Flatten(groups[..n]) + groups[n];
    PartsDistinct(Flatten(groups[..n]), groups[n]);
    if g < n {
      AllZonaRowsFaceOnce(groups[..n], zonas[..n], g, x, y);
      ZonaRowsGroup(groups[n], Some(zonas[n].id));
      FrontFaceOnce(front, last, Some(zonas[g].id), Some(zonas[n].id), x, y);
    } else {
      RoundRobinMeetsOnce(|groups[n]|);
      GroupRowsFaceOnce(groups[n], AllPairings(|groups[n]|), Some(zonas[n].id), x, y);
      ZonaRowsAre(groups[n], Some(zonas[n].id));
      AllZonaRowsGroups(groups[..n], zonas[..n]);
      LastFaceOnce(front, last, zonas[..n], Some(zonas[n].id), x, y);
    }
  }

  lemma ZonaRowsAre(members: seq<Pair>, zona: Option<GroupId>)
    ensures forall k :: 0 <= k < |AllPairings(|members|)| ==>
      AllPairings(|members|)[k].a < |members| && AllPairings(|members|)[k].b < |members|
    ensures ZonaRows(members, zona) == GroupRows(members, AllPairings(|members|), zona)
  {
    hide AllPairings;
    PairingsAreComplete(|members|);
  }

  lemma ZonaRowsGroup(members: seq<Pair>, zona: Option<GroupId>)
    ensures forall k :: 0 <= k < |ZonaRows(members, zona)| ==> ZonaRows(members, zona)[k].group == zona
  {
    hide AllPairings, InRound;
    PairingsAreComplete(|members|);
  }

  predicate InSome(group: Option<GroupId>, zonas: seq<Zona>) {
    exists g :: 0 <= g < |zonas| && group == Some(zonas[g].id)
  }

  lemma {:induction false} AllZonaRowsGroups(groups: seq<seq<Pair>>, zonas: seq<Zona>)
    requires |groups| == |zonas|
    ensures forall k :: 0 <= k < |AllZonaRows(groups, zonas)| ==> InSome(AllZonaRows(groups, zonas)[k].group, zonas)
  {
    hide ZonaRows;
    if groups != [] {
      var n := |groups| - 1;
      AllZonaRowsGroups(groups[..n], zonas[..n]);
      ZonaRowsGroup(groups[n], Some(zonas[n].id));
      assert forall g :: 0 <= g < n ==> zonas[..n][g] == zonas[g];
      forall k | 0 <= k < |AllZonaRows(groups[..n], zonas[..n])|
        ensures InSome(AllZonaRows(groups[..n], zonas[..n])[k].group, zonas)
      {
        var g :| 0 <= g < n && AllZonaRows(groups[..n], zonas[..n])[k].group == Some(zonas[..n][g].id);
        assert zonas[g].id == zonas[..n][g].id;
      }
    }
  }

  lemma FrontFaceOnce(front: seq<Match>, last: seq<Match>, group: Option<GroupId>, other: Option<GroupId>, x: PairId,
                      y: PairId)
    requires RowsFaceOnce(front, group, x, y) && group != other
             && forall k :: 0 <= k < |last| ==> last[k].group == other
    ensures RowsFaceOnce(front + last, group, x, y)
  {
    var k: nat :| RowFaces(front, group, k, x, y) && forall l :: RowFaces(front, group, l, x, y) ==> l == k;
    assert RowFaces(front + last, group, k, x, y);
    forall l: nat | RowFaces(front + last, group, l, x, y)
      ensures l == k
    {
      assert l < |front| ==> RowFaces(front, group, l, x, y);
    }
  }

  lemma LastFaceOnce(front: seq<Match>, last: seq<Match>, before: seq<Zona>, group: Option<GroupId>, x: PairId,
                     y: PairId)
    requires RowsFaceOnce(last, group, x, y) && !InSome(group, before)
    requires forall k :: 0 <= k < |front| ==> InSome(front[k].group, before)
    ensures RowsFaceOnce(front + last, group, x, y)
  {
    var k: nat :| RowFaces(last, group, k, x, y) && forall l :: RowFaces(last, group, l, x, y) ==> l == k;
    var all := front + last;
    assert RowFaces(all, group, |front| + k, x, y);
    forall l: nat | RowFaces(all, group, l, x, y)
      ensures l == |front| + k
    {
      assert l >= |front| ==> RowFaces(last, group, l - |front|, x, y);
    }
  }

  /** A pair carries a zona's id only if it was dealt to it. */
  lemma {:induction false} ZonaOfTells(groups: seq<seq<Pair>>, zonas: seq<Zona>, g: nat, id: PairId)
    requires |groups| == |zonas| && g < |groups| && DistinctZonas(zonas)
             && ZonaOf(groups, zonas, id) == Some(zonas[g].id)
    ensures HasId(groups[g], id)
  {
    hide HasId;
    var n := |groups| - 1;
    if !HasId(groups[n], id) {
      ZonaOfIsListed(groups[..n], zonas[..n], id);
      if g < n {
        ZonaOfTells(groups[..n], zonas[..n], g, id);
      }
    }
  }

  lemma {:induction false} ZonaOfIsListed(groups: seq<seq<Pair>>, zonas: seq<Zona>, id: PairId)
    requires |groups| == |zonas|
    ensures ZonaOf(groups, zonas, id).Some? ==> InSome(ZonaOf(groups, zonas, id), zonas)
  {
    hide HasId;
    if groups != [] && !HasId(groups[|groups| - 1], id) {
      var n := |groups| - 1;
      ZonaOfIsListed(groups[..n], zonas[..n], id);
      if ZonaOf(groups, zonas, id).Some? {
        var g :| 0 <= g < n && ZonaOf(groups[..n], zonas[..n], id) == Some(zonas[..n][g].id);
        assert zonas[g] == zonas[..n][g];
      }
    }
  }

  lemma ZonasHold(cat: Category, courts: seq<CourtId>, given: Given, g: nat)
    requires cat.format.ZonasThenBracket? && GivenFits(cat, courts, given) && DistinctPairIds(cat.pairs)
    requires cat.groupSize >= 2 && g < |given.zonas|
    ensures var groups, zonas := GroupsOf(cat), NewZonas(given.zonas);
            AllFaceOnce(Inserted(AllZonaRows(groups, zonas), given.rows), Some(zonas[g].id),
                        ZonaIds(InZonas(cat.pairs, groups, zonas), zonas[g].id))
  {
    hide GroupsOf, AllZonaRows, HasId, DistinctPairIds;
    var groups, zonas := GroupsOf(cat), NewZonas(given.zonas);
    var placed := InZonas(cat.pairs, groups, zonas);
    GroupsHoldEveryone(cat);
    forall x, y | x in ZonaIds(placed, zonas[g].id) && y in ZonaIds(placed, zonas[g].id) && x != y
      ensures FaceOnce(Inserted(AllZonaRows(groups, zonas), given.rows), Some(zonas[g].id), x, y)
    {
      ZonaOfTells(groups, zonas, g, x);
      ZonaOfTells(groups, zonas, g, y);
      AllZonaRowsFaceOnce(groups, zonas, g, x, y);
      InsertedFaceOnce(AllZonaRows(groups, zonas), given.rows, Some(zonas[g].id), x, y);
    }
  }

  // the straight bracket

  predicate InDraw(draw: seq<Option<Entrant>>, id: PairId) {
    exists d :: 0 <= d < |draw| && draw[d].Some? && draw[d].value.pairId == id
  }

  /** The bracket is a sound one out of a draw that holds every registered pair, and nobody else. */
  ghost predicate StraightFrom(cat: Category, format: MatchFormat, k: nat, ids: map<Spot, MatchId>,
                               draw: seq<Option<Entrant>>) {
    && DrawnBracket(cat.matches, cat.pairs, format, k, ids, draw)
    && (forall id {:trigger InDraw(draw, id)} :: HasId(cat.pairs, id) ==> InDraw(draw, id))
  }

  ghost predicate StraightHolds(cat: Category, format: MatchFormat) {
    exists k, ids, draw :: StraightFrom(cat, format, k, ids, draw)
  }

  lemma EveryoneInTheDraw(pairs: seq<Pair>, id: PairId)
    requires DistinctPairIds(pairs) && |pairs| >= 2 && HasId(pairs, id)
    ensures InDraw(Drawn(AsEntrants(Seeded(pairs))), id)
  {
    hide Drawn, Seeded, DistinctPairIds, HasId;
    SeededHas(pairs, id);
    var i := SeatOf(Seeded(pairs), id);
    var entrants := AsEntrants(Seeded(pairs));
    SeededSame(pairs);
    DrawnLaw(entrants);
    var d :| 0 <= d < |Drawn(entrants)| && Drawn(entrants)[d] == Some(entrants[i]);
  }

  lemma StraightDrawHolds(cat: Category, courts: seq<CourtId>, given: Given, format: MatchFormat)
    requires CatInv(cat, format) && cat.format.StraightBracket? && GivenFits(cat, courts, given) && |cat.pairs| >= 2
    ensures StraightHolds(WithFixture(cat, courts, given), format)
  {
    hide Created, Drawn, Seeded, DrawnBracket, DistinctEntrants, HasId, InDraw, FlagsHold, DistinctPairIds, OnBoard;
    RegisteredEntrants(cat.pairs);
    var entrants := AsEntrants(Seeded(cat.pairs));
    var k := RoundsFor(|entrants|);
    var none: Matches := map[];
    assert none.Keys == {};
    BracketDrawn(none, cat.pairs, format, entrants, given.spots);
    NothingBeside(Created(Drawn(entrants), k, given.spots));
    forall id | HasId(cat.pairs, id)
      ensures InDraw(Drawn(entrants), id)
    {
      EveryoneInTheDraw(cat.pairs, id);
    }
    assert StraightFrom(WithFixture(cat, courts, given), format, k, given.spots, Drawn(entrants));
  }

  // ── What every call keeps ───────────────────────────────────────────────────

  /** What the draw of a category promised, for as long as the fixture exists. */
  ghost predicate FixtureHolds(cat: Category, format: MatchFormat) {
    cat.hasFixture ==>
      match cat.format
      case AllPlayAll => AllFaceOnce(cat.matches, None, Ids(cat.pairs))
      case ZonasThenBracket =>
        forall g :: 0 <= g < |cat.zonas| ==>
          AllFaceOnce(cat.matches, Some(cat.zonas[g].id), ZonaIds(cat.pairs, cat.zonas[g].id))
      case StraightBracket => StraightHolds(cat, format)
  }

  ghost predicate FixturesHold(e: Event) {
    forall c {:trigger e.categories[c]} :: c in e.categories ==> FixtureHolds(e.categories[c], e.matchFormat)
  }

  /** The same group matches between the same pairs, whatever their results. */
  ghost predicate SameGroupMatches(ms: Matches, after: Matches) {
    && (forall id :: id in ms && ms[id].stage.GroupStage? <==> id in after && after[id].stage.GroupStage?)
    && (forall id :: id in ms && ms[id].stage.GroupStage? ==>
          after[id].group == ms[id].group && after[id].pairA == ms[id].pairA && after[id].pairB == ms[id].pairB)
  }

  lemma SameMatchesFaceOnce(ms: Matches, after: Matches, group: Option<GroupId>, members: set<PairId>)
    requires SameGroupMatches(ms, after) && AllFaceOnce(ms, group, members)
    ensures AllFaceOnce(after, group, members)
  {
    forall x, y | x in members && y in members && x != y
      ensures FaceOnce(after, group, x, y)
    {
      assert FaceOnce(ms, group, x, y);
      var id :| IsFacing(ms, group, id, x, y) && forall j :: IsFacing(ms, group, j, x, y) ==> j == id;
      assert IsFacing(after, group, id, x, y);
      forall j | IsFacing(after, group, j, x, y)
        ensures j == id
      {
        assert IsFacing(ms, group, j, x, y);
      }
    }
  }

  /** The same pairs in the same zonas with the same group matches. */
  ghost predicate SameGroups(x: Category, y: Category) {
    && y.format == x.format && !x.format.StraightBracket? && (y.hasFixture ==> x.hasFixture) && y.zonas == x.zonas
    && Ids(y.pairs) == Ids(x.pairs) && (forall zona :: ZonaIds(y.pairs, zona) == ZonaIds(x.pairs, zona))
    && SameGroupMatches(x.matches, y.matches)
  }

  lemma SameGroupsHold(x: Category, y: Category, format: MatchFormat, other: MatchFormat)
    requires SameGroups(x, y) && FixtureHolds(x, format)
    ensures FixtureHolds(y, other)
  {
    hide SameGroupMatches, AllFaceOnce;
    if y.hasFixture {
      if x.format.AllPlayAll? {
        SameMatchesFaceOnce(x.matches, y.matches, None, Ids(x.pairs));
      } else {
        forall g | 0 <= g < |y.zonas|
          ensures AllFaceOnce(y.matches, Some(y.zonas[g].id), ZonaIds(y.pairs, y.zonas[g].id))
        {
          SameMatchesFaceOnce(x.matches, y.matches, Some(x.zonas[g].id), ZonaIds(x.pairs, x.zonas[g].id));
        }
      }
    }
  }

  lemma WithHolds(e: Event, c: CategoryId, cat: Category)
    requires FixturesHold(e) && FixtureHolds(cat, e.matchFormat)
    ensures FixturesHold(With(e, c, cat))
  {
    hide FixtureHolds;
  }

  lemma DrawnHolds(cat: Category, courts: seq<CourtId>, given: Given, format: MatchFormat)
    requires CatInv(cat, format) && GivenFits(cat, courts, given) && |cat.pairs| >= 2 && !cat.hasFixture
    ensures FixtureHolds(WithFixture(cat, courts, given), format)
  {
    hide AllFaceOnce, StraightHolds, RoundRobinRows, GroupsOf, AllZonaRows, ZonaIds, Inserted, Created, Drawn;
    match cat.format
    case AllPlayAll => RoundRobinHolds(cat, courts, given);
    case ZonasThenBracket =>
      forall g | 0 <= g < |given.zonas| {
        ZonasHold(cat, courts, given, g);
      }
    case StraightBracket => StraightDrawHolds(cat, courts, given, format);
  }

  lemma RenamedIds(pairs: seq<Pair>, i: nat, p: Pair)
    requires i < |pairs| && p.id == pairs[i].id
    ensures Ids(pairs[i := p]) == Ids(pairs)
  {
    SameIdsHave(pairs, pairs[i := p]);
  }

  lemma RenamedHolds(cat: Category, i: nat, p: Pair, format: MatchFormat)
    requires CatInv(cat, format) && FixtureHolds(cat, format)
    requires i < |cat.pairs| && p.id == cat.pairs[i].id && p.group == cat.pairs[i].group
    ensures FixtureHolds(cat.(pairs := cat.pairs[i := p]), format)
  {
    var after := cat.(pairs := cat.pairs[i := p]);
    SameIdsHave(cat.pairs, after.pairs);
    if cat.format.StraightBracket? {
      if cat.hasFixture {
        var k, ids, draw :| StraightFrom(cat, format, k, ids, draw);
        assert DrawnBracket(after.matches, after.pairs, format, k, ids, draw);
        assert StraightFrom(after, format, k, ids, draw);
      }
    } else {
      RenamedIds(cat.pairs, i, p);
      forall zona {
        ZonaIdsUpdate(cat.pairs, i, p, zona);
      }
      SameGroupsHold(cat, after, format, format);
    }
    hide CatInv, HasId, ZonaIds, AllFaceOnce, InDraw, Sound, Playable, DistinctDraw;
  }

  lemma GroupLoadSameGroups(ms: Matches, id: MatchId, edit: MatchEdit, format: MatchFormat, locked: bool,
                            courts: set<CourtId>)
    requires UpdateMatch(ms, id, edit, format, locked, courts).Ok? && ms[id].stage.GroupStage? && ms[id].next.None?
    ensures SameGroupMatches(ms, UpdateMatch(ms, id, edit, format, locked, courts).value)
  {
    hide NewWinner;
    var m := ms[id];
    var n := if edit.sets.None? then Planned(m, edit)
             else Planned(m, edit).(sets := edit.sets.value, winner := NewWinner(m, edit.sets.value, format).value);
    assert UpdateMatch(ms, id, edit, format, locked, courts).value == ms[id := n];
  }

  lemma KnockoutLoadSameGroups(ms: Matches, id: MatchId, edit: MatchEdit, format: MatchFormat, locked: bool,
                               courts: set<CourtId>, k: nat, ids: map<Spot, MatchId>)
    requires Wired(ms, k, ids) && id in ms && ms[id].stage.KnockoutStage?
    requires UpdateMatch(ms, id, edit, format, locked, courts).Ok?
    ensures SameGroupMatches(ms, UpdateMatch(ms, id, edit, format, locked, courts).value)
  {
    hide Wired, UpdateMatch;
    var after := UpdateMatch(ms, id, edit, format, locked, courts).value;
    UpdateKeepsPlaces(ms, id, edit, format, locked, courts);
    assert forall j :: j in ms ==> SamePlace(ms[j], after[j]);
    KnockoutResultSparesGroups(ms, id, edit, format, locked, courts, k, ids);
  }

  lemma LoadedGroups(cat: Category, id: MatchId, edit: MatchEdit, format: MatchFormat, locked: bool,
                     courts: set<CourtId>)
    requires CatInv(cat, format) && UpdateMatch(cat.matches, id, edit, format, locked, courts).Ok?
    ensures id in cat.matches
            && SameGroupMatches(cat.matches, UpdateMatch(cat.matches, id, edit, format, locked, courts).value)
  {
    hide SoundResults, DrawnBracket, SameGroupMatches, Evaluated, NewWinner, ZonasStand, ZonasPending, DistinctPairIds;
    var ms := cat.matches;
    if ms[id].stage.GroupStage? {
      assert SoundGroupMatch(ms[id], cat.pairs);
      GroupLoadSameGroups(ms, id, edit, format, locked, courts);
    } else {
      assert cat.hasBracket;
      var k, ids, draw :| DrawnBracket(ms, cat.pairs, format, k, ids, draw);
      BracketIsWired(ms, cat.pairs, format, k, ids, draw);
      KnockoutLoadSameGroups(ms, id, edit, format, locked, courts, k, ids);
    }
  }

  lemma BracketIsWired(ms: Matches, pairs: seq<Pair>, format: MatchFormat, k: nat, ids: map<Spot, MatchId>,
                       draw: seq<Option<Entrant>>)
    requires DrawnBracket(ms, pairs, format, k, ids, draw)
    ensures Wired(ms, k, ids)
  {
    assert Sound(Play(ms, format), k, ids, draw);
    hide Wired;
  }

  lemma LoadedHolds(cat: Category, id: MatchId, edit: MatchEdit, format: MatchFormat, courts: set<CourtId>)
    requires CatInv(cat, format) && FixtureHolds(cat, format)
    requires UpdateMatch(cat.matches, id, edit, format, Locked(cat), courts).Ok?
    ensures FixtureHolds(cat.(matches := UpdateMatch(cat.matches, id, edit, format, Locked(cat), courts).value), format)
  {
    hide UpdateMatch, DrawnBracket, SoundResults, FlagsHold, AllFaceOnce, InDraw, HasId;
    var after := cat.(matches := UpdateMatch(cat.matches, id, edit, format, Locked(cat), courts).value);
    if cat.format.StraightBracket? {
      if cat.hasFixture {
        var k, ids, draw :| StraightFrom(cat, format, k, ids, draw);
        LoadedStraight(cat, id, edit, format, courts, k, ids, draw);
        assert StraightFrom(after, format, k, ids, draw);
      }
    } else {
      LoadedGroups(cat, id, edit, format, Locked(cat), courts);
      SameGroupsHold(cat, after, format, format);
    }
  }

  lemma LoadedStraight(cat: Category, id: MatchId, edit: MatchEdit, format: MatchFormat, courts: set<CourtId>,
                       k: nat, ids: map<Spot, MatchId>, draw: seq<Option<Entrant>>)
    requires CatInv(cat, format) && DrawnBracket(cat.matches, cat.pairs, format, k, ids, draw)
    requires UpdateMatch(cat.matches, id, edit, format, Locked(cat), courts).Ok?
    ensures DrawnBracket(UpdateMatch(cat.matches, id, edit, format, Locked(cat), courts).value, cat.pairs, format, k,
                         ids, draw)
  {
    hide DrawnBracket, SoundResults, FlagsHold, Evaluated;
    assert id in cat.matches;
    KnockoutUpdateShape(cat.matches, id, edit, format, Locked(cat), courts, cat.pairs, k, ids, draw);
  }

  lemma ReformattedHolds(cat: Category, format: MatchFormat, other: MatchFormat)
    requires CatInv(cat, format) && FixtureHolds(cat, format) && !AnyPlayed(cat.matches)
    ensures FixtureHolds(cat, other)
  {
    if cat.format.StraightBracket? && cat.hasFixture && other != format {
      var k, ids, draw :| StraightFrom(cat, format, k, ids, draw);
      FormatKeeps(Play(cat.matches, format), other);
      assert Sound(Play(cat.matches, format), k, ids, draw);
      assert DrawnBracket(cat.matches, cat.pairs, other, k, ids, draw);
      assert StraightFrom(cat, other, k, ids, draw);
    }
    hide CatInv, AllFaceOnce, Progress, SoundResults, InDraw, HasId;
  }

  lemma SeededHolds(cat: Category, spots: map<Spot, MatchId>, draw: seq<Option<Entrant>>, k: nat, format: MatchFormat)
    requires FixtureHolds(cat, format) && cat.format.ZonasThenBracket? && |draw| == Pow2(k)
    requires FreshIds(cat.matches.Keys, k, spots)
    ensures FixtureHolds(cat.(hasBracket := true, matches := cat.matches + Created(draw, k, spots)), format)
  {
    var made := Created(draw, k, spots);
    CreatedIsKnockout(cat.matches.Keys, draw, k, spots);
    MadeApart(cat.matches, draw, k, spots);
    BesideGroups(cat.matches, made);
    hide FixtureHolds, SameGroupMatches, FreshIds, Created;
    SameGroupsHold(cat, cat.(hasBracket := true, matches := cat.matches + made), format, format);
  }

  lemma MadeApart(ms: Matches, draw: seq<Option<Entrant>>, k: nat, spots: map<Spot, MatchId>)
    requires |draw| == Pow2(k) && FreshIds(ms.Keys, k, spots)
    ensures forall id :: id in ms ==> id !in Created(draw, k, spots)
  {
    hide FreshRow, OnBoard;
    forall id | id in Created(draw, k, spots)
      ensures id !in ms
    {
      assert id in spots.Values;
      var s :| s in spots && spots[s] == id;
      assert spots[s] !in ms.Keys;
    }
  }

  lemma BesideGroups(ms: Matches, made: Matches)
    requires (forall id :: id in made ==> made[id].stage.KnockoutStage?) && forall id :: id in ms ==> id !in made
    ensures SameGroupMatches(ms, ms + made)
  {
  }

  lemma UnseededHolds(cat: Category, format: MatchFormat)
    requires FixtureHolds(cat, format) && cat.format.ZonasThenBracket?
    ensures FixtureHolds(cat.(hasBracket := false, matches := ZonaPart(cat.matches)), format)
  {
    assert SameGroupMatches(cat.matches, ZonaPart(cat.matches));
    hide FixtureHolds, SameGroupMatches;
    SameGroupsHold(cat, cat.(hasBracket := false, matches := ZonaPart(cat.matches)), format, format);
  }

  lemma CategoryOf(e: Event, c: CategoryId)
    requires EventInv(e) && FixturesHold(e) && c in e.categories
    ensures CatInv(e.categories[c], e.matchFormat) && FixtureHolds(e.categories[c], e.matchFormat)
  {
    hide CatInv, FixtureHolds;
  }

  lemma PairCallHolds(e: Event, call: Call)
    requires EventInv(e) && FixturesHold(e) && WellFormed(e, call) && IsPairCall(call)
    ensures FixturesHold(Next(e, call))
  {
    hide EventInv, FixturesHold, AllFaceOnce, StraightHolds, CatInv;
    if Outcome(e, call).Ok? {
      CategoryOf(e, call.c);
      var cat := e.categories[call.c];
      match call
      case AddPairCall(c, p) => WithHolds(e, c, cat.(pairs := cat.pairs + [p.(group := None)]));
      case RemovePairCall(c, id) => WithHolds(e, c, cat.(pairs := Without(cat.pairs, PlaceOf(cat.pairs, id).value)));
      case UpdatePairCall(c, p, to) =>
        var i := PlaceOf(cat.pairs, p.id).value;
        var pair := cat.pairs[i].(seed := p.seed, shown := p.shown);
        if to.None? || to.value == c {
          RenamedHolds(cat, i, pair, e.matchFormat);
          WithHolds(e, c, cat.(pairs := cat.pairs[i := pair]));
        } else {
          var left := cat.(pairs := Without(cat.pairs, i));
          WithHolds(e, c, left);
          CategoryOf(e, to.value);
          var target := e.categories[to.value];
          WithHolds(With(e, c, left), to.value, target.(pairs := target.pairs + [pair]));
        }
    }
  }

  lemma FixtureCallHolds(e: Event, c: CategoryId, courts: seq<CourtId>, given: Given)
    requires EventInv(e) && FixturesHold(e) && WellFormed(e, GenerateFixtureCall(c, courts, given))
    requires GenerateFixture(e, c, courts, given).Ok?
    ensures FixturesHold(GenerateFixture(e, c, courts, given).value)
  {
    hide EventInv, CatInv, FixtureHolds, GivenFits, WithFixture, GroupsOf;
    CategoryOf(e, c);
    DrawnHolds(e.categories[c], courts, given, e.matchFormat);
    WithHolds(e, c, WithFixture(e.categories[c], courts, given));
  }

  lemma BracketCallHolds(e: Event, c: CategoryId, listing: seq<MatchId>, spots: map<Spot, MatchId>)
    requires EventInv(e) && FixturesHold(e) && WellFormed(e, GenerateBracketCall(c, listing, spots))
    requires GenerateBracket(e, c, listing, spots).Ok?
    ensures FixturesHold(GenerateBracket(e, c, listing, spots).value)
  {
    hide EventInv, CatInv, FixtureHolds, Created, Drawn, Qualified, ZonasPending, FixturesHold, OnBoard;
    CategoryOf(e, c);
    var cat := e.categories[c];
    var entrants := Qualified(cat, listing, cat.advancePerGroup);
    SeededHolds(cat, spots, Drawn(entrants), RoundsFor(|entrants|), e.matchFormat);
    WithHolds(e, c, GenerateBracket(e, c, listing, spots).value.categories[c]);
  }

  lemma UndoCallHolds(e: Event, call: Call)
    requires EventInv(e) && FixturesHold(e) && (call.DeleteFixtureCall? || call.DeleteBracketCall?)
    ensures FixturesHold(Next(e, call))
  {
    hide EventInv, CatInv, FixtureHolds, HasResults, AnyFixture;
    if Outcome(e, call).Ok? {
      CategoryOf(e, call.c);
      var cat := e.categories[call.c];
      if call.DeleteFixtureCall? {
        var undone := cat.(hasFixture := false, hasBracket := false, pairs := Ungrouped(cat.pairs), zonas := [],
                           matches := map[]);
        NothingToHold(undone, e.matchFormat);
        WithHolds(e, call.c, undone);
      } else {
        UnseededHolds(cat, e.matchFormat);
        WithHolds(e, call.c, cat.(hasBracket := false, matches := ZonaPart(cat.matches)));
      }
    }
  }

  lemma DrawCallHolds(e: Event, call: Call)
    requires EventInv(e) && FixturesHold(e) && WellFormed(e, call) && IsDrawCall(call)
    ensures FixturesHold(Next(e, call))
  {
    hide EventInv, FixturesHold, GenerateFixture, GenerateBracket;
    match call
    case GenerateFixtureCall(c, courts, given) =>
      if GenerateFixture(e, c, courts, given).Ok? {
        FixtureCallHolds(e, c, courts, given);
      }
    case GenerateBracketCall(c, listing, spots) =>
      if GenerateBracket(e, c, listing, spots).Ok? {
        BracketCallHolds(e, c, listing, spots);
      }
    case _ => UndoCallHolds(e, call);
  }

  lemma NothingToHold(cat: Category, format: MatchFormat)
    requires !cat.hasFixture
    ensures FixtureHolds(cat, format)
  {
  }

  lemma LoadCallHolds(e: Event, call: Call)
    requires EventInv(e) && FixturesHold(e) && call.LoadResultCall?
    ensures FixturesHold(Next(e, call))
  {
    hide EventInv, CatInv, FixtureHolds, UpdateMatch, FixturesHold;
    if Outcome(e, call).Ok? {
      CategoryOf(e, call.c);
      LoadedHolds(e.categories[call.c], call.id, call.edit, e.matchFormat, call.courtIds);
      WithHolds(e, call.c, Outcome(e, call).value.categories[call.c]);
    }
  }

  lemma OtherCallHolds(e: Event, call: Call)
    requires EventInv(e) && FixturesHold(e) && WellFormed(e, call)
    requires !IsPairCall(call) && !IsDrawCall(call) && !call.LoadResultCall?
    ensures FixturesHold(Next(e, call))
  {
    hide EventInv, CatInv, FixtureHolds, AnyPlayed;
    if Outcome(e, call).Ok? {
      match call
      case AddCategoryCall(c, _) => NothingToHold(Outcome(e, call).value.categories[c], e.matchFormat);
      case UpdateCategoryCall(c, _) => NothingToHold(Outcome(e, call).value.categories[c], e.matchFormat);
      case RemoveCategoryCall(_) =>
      case UpdateEventCall(format, _) =>
        if format.Some? && format.value != e.matchFormat {
          forall c | c in e.categories
            ensures FixtureHolds(e.categories[c], format.value)
          {
            CategoryOf(e, c);
            ReformattedHolds(e.categories[c], e.matchFormat, format.value);
          }
        }
      case CancelEventCall =>
    }
  }

  lemma NextHolds(e: Event, call: Call)
    requires EventInv(e) && FixturesHold(e) && WellFormed(e, call)
    ensures FixturesHold(Next(e, call))
  {
    hide EventInv, FixturesHold, Outcome, WellFormed;
    if IsPairCall(call) {
      PairCallHolds(e, call);
    } else if IsDrawCall(call) {
      DrawCallHolds(e, call);
    } else if call.LoadResultCall? {
      LoadCallHolds(e, call);
    } else {
      OtherCallHolds(e, call);
    }
  }

  /**
   * Over any run: while a category has its fixture, every two pairs of its round robin, or of one of
   * its zonas, have exactly one match there, and its straight bracket is drawn from all its pairs.
   */
  lemma {:induction false} FixturesStay(trace: seq<Event>, calls: seq<Call>, n: nat)
    requires IsRun(trace, calls) && EventInv(trace[0]) && FixturesHold(trace[0]) && n < |trace|
    ensures FixturesHold(trace[n])
  {
    hide EventInv, FixturesHold, WellFormed, Next;
    if n > 0 {
      FixturesStay(trace, calls, n - 1);
      RunKeeps(trace, calls, n - 1);
      NextHolds(trace[n - 1], calls[n - 1]);
    }
  }

  // ── The zonas' tables ───────────────────────────────────────────────────────

  /** Every played zona match is between two pairs, one of which is its winner. */
  lemma {:induction false} ZonaWinnersPlayed(cat: Category, format: MatchFormat, listing: seq<MatchId>, zona: GroupId)
    requires CatInv(cat, format)
    ensures WinnersPlayed(PlayedIn(cat.matches, listing, zona))
  {
    hide CatInv, SoundGroupMatch, SoundResult;
    if listing != [] {
      var n := |listing| - 1;
      var last := listing[n];
      ZonaWinnersPlayed(cat, format, listing[..n], zona);
      if last in cat.matches && cat.matches[last].stage.GroupStage? {
        MatchIsSound(cat, format, last);
      }
    }
  }

  lemma MatchIsSound(cat: Category, format: MatchFormat, id: MatchId)
    requires CatInv(cat, format) && id in cat.matches && cat.matches[id].stage.GroupStage?
    ensures var m := cat.matches[id];
            m.pairA.Some? && m.pairB.Some? && m.pairA != m.pairB
            && (m.sets.Some? ==> m.winner == m.pairA || m.winner == m.pairB)
  {
    hide FlagsHold, DistinctPairIds, HasDrawnBracket;
    var m := cat.matches[id];
    assert SoundGroupMatch(m, cat.pairs) && SoundResult(m, format);
  }

  /**
   * In any event reached by calls, a zona's table follows the rules exactly when some listing of its
   * pairs does, which is when no three of them are level and beat each other in a circle.
   */
  lemma ZonaTableByTheRules(trace: seq<Event>, calls: seq<Call>, n: nat, c: CategoryId, listing: seq<MatchId>, g: nat)
    requires IsRun(trace, calls) && EventInv(trace[0]) && n < |trace| && c in trace[n].categories
    requires g < |trace[n].categories[c].zonas|
    ensures var cat := trace[n].categories[c];
      var zona := cat.zonas[g].id;
      var ids, played := IdsOf(MembersOf(Seeded(cat.pairs), zona)), PlayedIn(cat.matches, listing, zona);
      && (FollowsTheRules(ids, played, TableAt(cat, listing, g)) <==> !HasLevelCircle(ids, played))
      && ((exists ranked :: FollowsTheRules(ids, played, ranked)) <==> !HasLevelCircle(ids, played))
  {
    hide EventInv, CatInv, HasLevelCircle, FollowsTheRules, Ranked, WinnersPlayed, PlayedIn;
    RunKeeps(trace, calls, n);
    var cat := trace[n].categories[c];
    CatInvAt(trace[n], c);
    var zona := cat.zonas[g].id;
    ZonaWinnersPlayed(cat, trace[n].matchFormat, listing, zona);
    ZonaListedOnce(cat, trace[n].matchFormat, zona);
    ListingExistsExactly(IdsOf(MembersOf(Seeded(cat.pairs), zona)), PlayedIn(cat.matches, listing, zona));
  }

  lemma CatInvAt(e: Event, c: CategoryId)
    requires EventInv(e) && c in e.categories
    ensures CatInv(e.categories[c], e.matchFormat)
  {
    hide CatInv;
  }

  lemma ZonaListedOnce(cat: Category, format: MatchFormat, zona: GroupId)
    requires CatInv(cat, format)
    ensures NoRepeats(IdsOf(MembersOf(Seeded(cat.pairs), zona)))
  {
    SeededSame(cat.pairs);
    MembersSize(Seeded(cat.pairs), zona);
    hide CatInv;
  }
}
