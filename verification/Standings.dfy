/** The table of a zona or a peña (src/competitions/lib/standings.ts). */
module Standings {
  import opened Base
  import opened Score

  datatype PlayedMatch = PlayedMatch(pairA: Option<PairId>, pairB: Option<PairId>, sets: Option<seq<SetScore>>,
                                     winner: Option<PairId>)

  datatype Row = Row(played: nat, won: nat, lost: nat, setsWon: nat, setsLost: nat, gamesWon: int, gamesLost: int)

  type Table = map<PairId, Row>

  const NO_RESULTS := Row(0, 0, 0, 0, 0, 0, 0)

  /** Both pairs known, a winner and its sets: only such matches count. */
  predicate IsPlayed(m: PlayedMatch) {
    m.pairA.Some? && m.pairB.Some? && m.winner.Some? && m.sets.Some?
  }

  predicate Counts(table: Table, m: PlayedMatch) {
    IsPlayed(m) && m.pairA.value in table && m.pairB.value in table
  }

  function Bump(table: Table, pair: PairId, won: bool): Table
    requires pair in table
  {
    var row := table[pair];
    table[pair := if won then row.(won := row.won + 1) else row.(lost := row.lost + 1)]
  }

  function BumpPlayed(table: Table, pair: PairId): Table
    requires pair in table
  {
    table[pair := table[pair].(played := table[pair].played + 1)]
  }

  function Decided(table: Table, a: PairId, b: PairId, aWon: bool): (t: Table)
    requires a in table && b in table
    ensures t.Keys == table.Keys
  {
    if aWon then Bump(Bump(table, a, true), b, false) else Bump(Bump(table, b, true), a, false)
  }

  function AddSet(table: Table, pair: PairId, mine: int, theirs: int, won: bool): Table
    requires pair in table
  {
    var row := table[pair];
    table[pair := row.(gamesWon := row.gamesWon + mine, gamesLost := row.gamesLost + theirs,
                       setsWon := row.setsWon + (if won then 1 else 0), setsLost := row.setsLost +
                                                                                    (if won then 0 else 1))]
  }

  function AddSets(table: Table, a: PairId, b: PairId, sets: seq<SetScore>): (t: Table)
    requires a in table && b in table
    ensures t.Keys == table.Keys
  {
    if sets == [] then table
    else
      var s := sets[|sets| - 1];
      var aWon := s.gamesA > s.gamesB;
      var before := AddSets(table, a, b, sets[..|sets| - 1]);
      AddSet(AddSet(before, a, s.gamesA, s.gamesB, aWon), b, s.gamesB, s.gamesA, !aWon)
  }

  function Tally(table: Table, m: PlayedMatch): (t: Table)
    ensures t.Keys == table.Keys
  {
    if !Counts(table, m) then table
    else
      var a, b := m.pairA.value, m.pairB.value;
      var aWon := m.winner.value == a;
      AddSets(Decided(BumpPlayed(BumpPlayed(table, a), b), a, b, aWon), a, b, m.sets.value)
  }

  function TallyAll(table: Table, matches: seq<PlayedMatch>): (t: Table)
    ensures t.Keys == table.Keys
  {
    if matches == [] then table else Tally(TallyAll(table, matches[..|matches| - 1]), matches[|matches| - 1])
  }

  function Blank(pairIds: seq<PairId>): (t: Table)
    ensures forall p :: p in t <==> p in pairIds
  {
    map p | p in pairIds :: NO_RESULTS
  }

  function TableOf(pairIds: seq<PairId>, matches: seq<PlayedMatch>): (t: Table)
    ensures forall p :: p in t <==> p in pairIds
  {
    TallyAll(Blank(pairIds), matches)
  }

  // ── What a row counts ───────────────────────────────────────────────────────

  /** What one match adds to a pair's row, from the match alone. */
  function Share(m: PlayedMatch, p: PairId): Row
    requires IsPlayed(m) && m.pairA != m.pairB
  {
    var isA, isB := m.pairA == Some(p), m.pairB == Some(p);
    var aWon := m.winner == m.pairA;
    if !isA && !isB then NO_RESULTS
    else
      var won := aWon == isA;
      var (setsA, setsB) := (SetsTo(m.sets.value, true), SetsTo(m.sets.value, false));
      var (gamesA, gamesB) := (GamesTo(m.sets.value, true), GamesTo(m.sets.value, false));
      Row(1, if won then 1 else 0, if won then 0 else 1,
          if isA then setsA else setsB, if isA then setsB else setsA,
          if isA then gamesA else gamesB, if isA then gamesB else gamesA)
  }

  function SetsTo(sets: seq<SetScore>, sideA: bool): nat {
    if sets == [] then 0
    else SetsTo(sets[..|sets| - 1], sideA) +
         (if (sets[|sets| - 1].gamesA > sets[|sets| - 1].gamesB) == sideA then 1 else 0)
  }

  function GamesTo(sets: seq<SetScore>, sideA: bool): int {
    if sets == [] then 0
    else GamesTo(sets[..|sets| - 1], sideA) + (if sideA then sets[|sets| - 1].gamesA else sets[|sets| - 1].gamesB)
  }

  function Plus(x: Row, y: Row): Row {
    Row(x.played + y.played, x.won + y.won, x.lost + y.lost, x.setsWon + y.setsWon, x.setsLost + y.setsLost,
        x.gamesWon + y.gamesWon, x.gamesLost + y.gamesLost)
  }

  /** A counted match between two listed pairs. */
  predicate IsListed(ids: seq<PairId>, m: PlayedMatch) {
    IsPlayed(m) && m.pairA != m.pairB && m.pairA.value in ids && m.pairB.value in ids
  }

  /** The sum of a pair's shares over the matches between listed pairs. */
  function Record(pairIds: seq<PairId>, matches: seq<PlayedMatch>, p: PairId): Row {
    if matches == [] then NO_RESULTS
    else
      var m := matches[|matches| - 1];
      var before := Record(pairIds, matches[..|matches| - 1], p);
      if IsListed(pairIds, m) then Plus(before, Share(m, p)) else before
  }

  lemma {:induction false} AddSetsShare(table: Table, a: PairId, b: PairId, sets: seq<SetScore>, p: PairId)
    requires a in table && b in table && a != b && p in table
    ensures var t, row := AddSets(table, a, b, sets), table[p];
      t[p] == if p == a then Plus(row, Row(0, 0, 0, SetsTo(sets, true), SetsTo(sets, false), GamesTo(sets, true),
                                           GamesTo(sets, false)))
              else if p == b then Plus(row, Row(0, 0, 0, SetsTo(sets, false), SetsTo(sets, true), GamesTo(sets, false),
                                                GamesTo(sets, true)))
              else row
  {
    if sets != [] {
      AddSetsShare(table, a, b, sets[..|sets| - 1], p);
    }
  }

  /** No match is between a pair and itself. */
  predicate RealMatches(matches: seq<PlayedMatch>) {
    forall i :: 0 <= i < |matches| && IsPlayed(matches[i]) ==> matches[i].pairA != matches[i].pairB
  }

  lemma TallyAddsShare(table: Table, m: PlayedMatch, p: PairId)
    requires p in table && (IsPlayed(m) ==> m.pairA != m.pairB)
    ensures Tally(table, m)[p] == if Counts(table, m) then Plus(table[p], Share(m, p)) else table[p]
  {
    if Counts(table, m) {
      var a, b := m.pairA.value, m.pairB.value;
      var decided := Decided(BumpPlayed(BumpPlayed(table, a), b), a, b, m.winner.value == a);
      AddSetsShare(decided, a, b, m.sets.value, p);
      hide AddSets, SetsTo, GamesTo;
    }
  }

  /** A row is the sum of what each of the pair's counted matches contributes, and nothing else. */
  lemma {:induction false} RowIsRecord(pairIds: seq<PairId>, matches: seq<PlayedMatch>, p: PairId)
    requires RealMatches(matches) && p in pairIds
    ensures TableOf(pairIds, matches)[p] == Record(pairIds, matches, p)
  {
    if matches != [] {
      var n := |matches| - 1;
      RowIsRecord(pairIds, matches[..n], p);
      TallyAddsShare(TableOf(pairIds, matches[..n]), matches[n], p);
      hide Tally, Share, Plus;
    }
  }

  // ── Conservation ────────────────────────────────────────────────────────────

  datatype Measure = Matches | Sets | Games

  /** Won minus lost. */
  function Net(row: Row, what: Measure): int {
    match what
    case Matches => row.won - row.lost
    case Sets => row.setsWon - row.setsLost
    case Games => row.gamesWon - row.gamesLost
  }

  function NetOf(pairIds: seq<PairId>, table: Table, what: Measure): int
    requires forall p :: p in pairIds ==> p in table
  {
    if pairIds == [] then 0
    else NetOf(pairIds[..|pairIds| - 1], table, what) + Net(table[pairIds[|pairIds| - 1]], what)
  }

  lemma {:induction false} NetUpdate(pairIds: seq<PairId>, table: Table, p: PairId, row: Row, what: Measure)
    requires NoRepeats(pairIds) && (forall q :: q in pairIds ==> q in table) && p in table
    ensures NetOf(pairIds, table[p := row], what) ==
            NetOf(pairIds, table, what) + (if p in pairIds then Net(row, what) - Net(table[p], what) else 0)
  {
    if pairIds != [] {
      NetUpdate(pairIds[..|pairIds| - 1], table, p, row, what);
      assert pairIds == pairIds[..|pairIds| - 1] + [pairIds[|pairIds| - 1]];
    }
  }

  lemma {:induction false} AddSetsNet(pairIds: seq<PairId>, table: Table, a: PairId, b: PairId, sets: seq<SetScore>,
                                      what: Measure)
    requires NoRepeats(pairIds) && (forall q :: q in pairIds <==> q in table) && a in table && b in table
    ensures NetOf(pairIds, AddSets(table, a, b, sets), what) == NetOf(pairIds, table, what)
  {
    if sets != [] {
      var s := sets[|sets| - 1];
      var aWon := s.gamesA > s.gamesB;
      var before := AddSets(table, a, b, sets[..|sets| - 1]);
      AddSetsNet(pairIds, table, a, b, sets[..|sets| - 1], what);
      var half := AddSet(before, a, s.gamesA, s.gamesB, aWon);
      NetUpdate(pairIds, before, a, half[a], what);
      NetUpdate(pairIds, half, b, AddSet(half, b, s.gamesB, s.gamesA, !aWon)[b], what);
    }
  }

  lemma TallyNet(pairIds: seq<PairId>, table: Table, m: PlayedMatch, what: Measure)
    requires NoRepeats(pairIds) && forall q :: q in pairIds <==> q in table
    ensures NetOf(pairIds, Tally(table, m), what) == NetOf(pairIds, table, what)
  {
    if Counts(table, m) {
      var a, b := m.pairA.value, m.pairB.value;
      var aWon := m.winner.value == a;
      var t1 := BumpPlayed(table, a);
      var t2 := BumpPlayed(t1, b);
      var (winner, loser) := if aWon then (a, b) else (b, a);
      var t3 := Bump(t2, winner, true);
      var t4 := Bump(t3, loser, false);
      NetUpdate(pairIds, table, a, t1[a], what);
      NetUpdate(pairIds, t1, b, t2[b], what);
      NetUpdate(pairIds, t2, winner, t3[winner], what);
      NetUpdate(pairIds, t3, loser, t4[loser], what);
      AddSetsNet(pairIds, t4, a, b, m.sets.value, what);
    }
  }

  lemma {:induction false} BlankNet(pairIds: seq<PairId>, table: Table, what: Measure)
    requires forall p :: p in pairIds ==> p in table && table[p] == NO_RESULTS
    ensures NetOf(pairIds, table, what) == 0
  {
    if pairIds != [] {
      BlankNet(pairIds[..|pairIds| - 1], table, what);
    }
  }

  /** Over the whole table every match, set and game won by someone was lost by someone else. */
  lemma {:induction false} WonEqualsLost(pairIds: seq<PairId>, matches: seq<PlayedMatch>, what: Measure)
    requires NoRepeats(pairIds)
    ensures NetOf(pairIds, TableOf(pairIds, matches), what) == 0
  {
    if matches == [] {
      BlankNet(pairIds, Blank(pairIds), what);
    } else {
      WonEqualsLost(pairIds, matches[..|matches| - 1], what);
      TallyNet(pairIds, TableOf(pairIds, matches[..|matches| - 1]), matches[|matches| - 1], what);
    }
  }

  // ── The order of the table ──────────────────────────────────────────────────

  predicate Between(m: PlayedMatch, x: PairId, y: PairId) {
    IsPlayed(m) && ((m.pairA == Some(x) && m.pairB == Some(y)) || (m.pairA == Some(y) && m.pairB == Some(x)))
  }

  /** Negative when x won the first match between the two, positive when it lost it, 0 without one. */
  function HeadToHead(matches: seq<PlayedMatch>, x: PairId, y: PairId): int {
    if matches == [] then 0
    else if Between(matches[0], x, y) then (if matches[0].winner == Some(x) then -1 else 1)
    else HeadToHead(matches[1..], x, y)
  }

  function IndexOf(pairIds: seq<PairId>, p: PairId): int {
    if pairIds == [] || pairIds[0] == p then 0 else 1 + IndexOf(pairIds[1..], p)
  }

  predicate Level(x: Row, y: Row) {
    x.won == y.won && x.setsWon - x.setsLost == y.setsWon - y.setsLost
    && x.gamesWon - x.gamesLost == y.gamesWon - y.gamesLost
  }

  /** Best first: wins, then set difference, then game difference; 0 when level. */
  function CompareRows(x: Row, y: Row): int {
    if y.won != x.won then y.won - x.won
    else if y.setsWon - y.setsLost != x.setsWon - x.setsLost then y.setsWon - y.setsLost - (x.setsWon - x.setsLost)
    else y.gamesWon - y.gamesLost - (x.gamesWon - x.gamesLost)
  }

  function Compare(pairIds: seq<PairId>, matches: seq<PlayedMatch>, x: PairId, y: PairId): int
    requires x in pairIds && y in pairIds
  {
    var table := TableOf(pairIds, matches);
    var rows, direct := CompareRows(table[x], table[y]), HeadToHead(matches, x, y);
    if rows != 0 then rows
    else if direct != 0 then direct
    else IndexOf(pairIds, x) - IndexOf(pairIds, y)
  }

  predicate NotAfter(pairIds: seq<PairId>, matches: seq<PlayedMatch>, x: PairId, y: PairId) {
    x in pairIds && y in pairIds && Compare(pairIds, matches, x, y) <= 0
  }

  function Ranked(pairIds: seq<PairId>, matches: seq<PlayedMatch>): seq<PairId> {
    SortBy(pairIds, (x, y) => NotAfter(pairIds, matches, x, y))
  }

  method TallyMatch(before: Table, m: PlayedMatch) returns (table: Table)
    ensures table == Tally(before, m)
  {
    table := before;
    if m.pairA.Some? && m.pairB.Some? && m.winner.Some? && m.sets.Some? && m.pairA.value in table
       && m.pairB.value in table {
      var a, b := m.pairA.value, m.pairB.value;
      table := BumpPlayed(table, a);
      table := BumpPlayed(table, b);
      if m.winner.value == a {
        table := Bump(table, a, true);
        table := Bump(table, b, false);
      } else {
        table := Bump(table, b, true);
        table := Bump(table, a, false);
      }
      table := TallySets(table, a, b, m.sets.value);
    }
  }

  method ComputeStandings(pairIds: seq<PairId>, matches: seq<PlayedMatch>) returns (table: Table, ranked: seq<PairId>)
    requires NoRepeats(pairIds)
    ensures table == TableOf(pairIds, matches) && ranked == Ranked(pairIds, matches)
  {
    table := map p | p in pairIds :: NO_RESULTS;
    for i := 0 to |matches|
      invariant table == TallyAll(Blank(pairIds), matches[..i])
    {
      assert matches[..i + 1][..i] == matches[..i];
      table := TallyMatch(table, matches[i]);
    }
    assert matches[..|matches|] == matches;
    ranked := SortBy(pairIds, (x, y) => NotAfter(pairIds, matches, x, y));
  }

  method TallySets(before: Table, a: PairId, b: PairId, sets: seq<SetScore>) returns (table: Table)
    requires a in before && b in before
    ensures table == AddSets(before, a, b, sets)
  {
    table := before;
    for i := 0 to |sets|
      invariant table == AddSets(before, a, b, sets[..i])
    {
      var gamesA, gamesB := sets[i].gamesA, sets[i].gamesB;
      assert sets[..i + 1][..i] == sets[..i];
      table := AddSet(table, a, gamesA, gamesB, gamesA > gamesB);
      table := AddSet(table, b, gamesB, gamesA, !(gamesA > gamesB));
    }
    assert sets[..|sets|] == sets;
  }

  /** Every recorded winner is one of the two pairs. */
  predicate WinnersPlayed(matches: seq<PlayedMatch>) {
    forall i :: 0 <= i < |matches| && IsPlayed(matches[i]) ==>
      matches[i].pairA != matches[i].pairB
      && (matches[i].winner == matches[i].pairA || matches[i].winner == matches[i].pairB)
  }

  lemma {:induction false} HeadToHeadTurns(matches: seq<PlayedMatch>, x: PairId, y: PairId)
    requires WinnersPlayed(matches) && x != y
    ensures HeadToHead(matches, y, x) == -HeadToHead(matches, x, y)
  {
    if matches != [] && !Between(matches[0], x, y) {
      HeadToHeadTurns(matches[1..], x, y);
    }
  }

  lemma {:induction false} HeadToHeadSelf(matches: seq<PlayedMatch>, x: PairId)
    requires WinnersPlayed(matches)
    ensures HeadToHead(matches, x, x) == 0
  {
    if matches != [] {
      HeadToHeadSelf(matches[1..], x);
    }
  }

  lemma {:induction false} IndexTells(pairIds: seq<PairId>, x: PairId)
    requires x in pairIds
    ensures 0 <= IndexOf(pairIds, x) < |pairIds| && pairIds[IndexOf(pairIds, x)] == x
  {
    if pairIds[0] != x {
      IndexTells(pairIds[1..], x);
    }
  }

  /** x is placed above y: level rows are split by their match, then by seed. */
  predicate Above(pairIds: seq<PairId>, matches: seq<PlayedMatch>, x: PairId, y: PairId) {
    x in pairIds && y in pairIds && Compare(pairIds, matches, x, y) < 0
  }

  lemma ComparesBothWays(pairIds: seq<PairId>, matches: seq<PlayedMatch>, x: PairId, y: PairId)
    requires WinnersPlayed(matches) && x in pairIds && y in pairIds
    ensures Compare(pairIds, matches, y, x) == -Compare(pairIds, matches, x, y)
    ensures Compare(pairIds, matches, x, y) == 0 <==> x == y
  {
    HeadToHeadSelf(matches, x);
    if x != y {
      HeadToHeadTurns(matches, x, y);
    }
    IndexTells(pairIds, x);
    IndexTells(pairIds, y);
  }

  /** Three pairs level on wins, sets and games, each placed above the next by match or seed. */
  predicate LevelCircle(pairIds: seq<PairId>, matches: seq<PlayedMatch>, x: PairId, y: PairId, z: PairId) {
    && Above(pairIds, matches, x, y) && Above(pairIds, matches, y, z) && Above(pairIds, matches, z, x)
    && Level(TableOf(pairIds, matches)[x], TableOf(pairIds, matches)[y])
    && Level(TableOf(pairIds, matches)[y], TableOf(pairIds, matches)[z])
  }

  ghost predicate HasLevelCircle(pairIds: seq<PairId>, matches: seq<PlayedMatch>) {
    exists x, y, z :: LevelCircle(pairIds, matches, x, y, z)
  }

  /** Only rows that are level can chase each other: wins, sets and games compare as numbers. */
  lemma CirclesAreLevel(pairIds: seq<PairId>, matches: seq<PlayedMatch>, x: PairId, y: PairId, z: PairId)
    requires Above(pairIds, matches, x, y) && Above(pairIds, matches, y, z) && Above(pairIds, matches, z, x)
    ensures LevelCircle(pairIds, matches, x, y, z)
  {
    hide TableOf;
  }

  /** The comparison puts the pairs in order exactly when no three level pairs beat each other in a circle. */
  lemma TableHasAnOrderExactly(pairIds: seq<PairId>, matches: seq<PlayedMatch>)
    requires NoRepeats(pairIds) && WinnersPlayed(matches)
    ensures Orders(pairIds, (x, y) => NotAfter(pairIds, matches, x, y)) <==> !HasLevelCircle(pairIds, matches)
  {
    var le := (x, y) => NotAfter(pairIds, matches, x, y);
    forall x, y | x in pairIds && y in pairIds
      ensures le(x, y) || le(y, x)
      ensures Above(pairIds, matches, x, y) <==> le(x, y) && x != y
      ensures le(x, y) && le(y, x) ==> x == y
    {
      ComparesBothWays(pairIds, matches, x, y);
    }
    if HasLevelCircle(pairIds, matches) {
      var x, y, z :| LevelCircle(pairIds, matches, x, y, z);
      assert le(x, y) && le(y, z) && le(z, x) && x != z;
    } else {
      forall x, y, z | x in pairIds && y in pairIds && z in pairIds && le(x, y) && le(y, z)
        ensures le(x, z)
      {
        if !le(x, z) {
          assert Above(pairIds, matches, z, x) && x != y && y != z;
          CirclesAreLevel(pairIds, matches, x, y, z);
          assert false;
        }
      }
    }
  }

  /** A listing of the pairs in which nobody is below a pair that should be below them. */
  ghost predicate FollowsTheRules(pairIds: seq<PairId>, matches: seq<PlayedMatch>, ranked: seq<PairId>) {
    && multiset(ranked) == multiset(pairIds)
    && (forall i, j :: 0 <= i < j < |ranked| ==> NotAfter(pairIds, matches, ranked[i], ranked[j]))
  }

  /** Without such a circle the table follows the rules; it never loses or repeats anybody. */
  lemma RankedByTheRules(pairIds: seq<PairId>, matches: seq<PlayedMatch>)
    requires NoRepeats(pairIds) && WinnersPlayed(matches)
    ensures multiset(Ranked(pairIds, matches)) == multiset(pairIds)
    ensures !HasLevelCircle(pairIds, matches) ==> FollowsTheRules(pairIds, matches, Ranked(pairIds, matches))
  {
    var le := (x, y) => NotAfter(pairIds, matches, x, y);
    SortByContents(pairIds, le);
    TableHasAnOrderExactly(pairIds, matches);
    if !HasLevelCircle(pairIds, matches) {
      SortBySound(pairIds, le);
    }
  }

  /** In a listing that follows the rules, who is above comes first. */
  lemma AboveComesFirst(pairIds: seq<PairId>, matches: seq<PlayedMatch>, ranked: seq<PairId>, i: nat, j: nat)
    requires WinnersPlayed(matches) && FollowsTheRules(pairIds, matches, ranked) && i < |ranked| && j < |ranked|
    requires Above(pairIds, matches, ranked[i], ranked[j])
    ensures i < j
  {
    hide Compare;
    ComparesBothWays(pairIds, matches, ranked[i], ranked[j]);
    assert !NotAfter(pairIds, matches, ranked[j], ranked[i]);
  }

  lemma Listed(pairIds: seq<PairId>, ranked: seq<PairId>, x: PairId) returns (i: nat)
    requires multiset(ranked) == multiset(pairIds) && x in pairIds
    ensures i < |ranked| && ranked[i] == x
  {
    assert x in multiset(ranked);
    i :| i < |ranked| && ranked[i] == x;
  }

  /** Some listing follows the rules exactly when there is no circle of level pairs; then the table is one. */
  lemma ListingExistsExactly(pairIds: seq<PairId>, matches: seq<PlayedMatch>)
    requires NoRepeats(pairIds) && WinnersPlayed(matches)
    ensures (exists ranked :: FollowsTheRules(pairIds, matches, ranked)) <==> !HasLevelCircle(pairIds, matches)
    ensures FollowsTheRules(pairIds, matches, Ranked(pairIds, matches)) <==> !HasLevelCircle(pairIds, matches)
  {
    hide Ranked, Above, FollowsTheRules;
    RankedByTheRules(pairIds, matches);
    if HasLevelCircle(pairIds, matches) {
      var x, y, z :| LevelCircle(pairIds, matches, x, y, z);
      forall ranked
        ensures !FollowsTheRules(pairIds, matches, ranked)
      {
        CircleContradicts(pairIds, matches, ranked, x, y, z);
      }
    }
  }

  lemma CircleContradicts(pairIds: seq<PairId>, matches: seq<PlayedMatch>, ranked: seq<PairId>, x: PairId, y: PairId,
                          z: PairId)
    requires WinnersPlayed(matches) && LevelCircle(pairIds, matches, x, y, z)
    ensures !FollowsTheRules(pairIds, matches, ranked)
  {
    hide Compare;
    if FollowsTheRules(pairIds, matches, ranked) {
      var i := Listed(pairIds, ranked, x);
      var j := Listed(pairIds, ranked, y);
      var k := Listed(pairIds, ranked, z);
      AboveComesFirst(pairIds, matches, ranked, i, j);
      AboveComesFirst(pairIds, matches, ranked, j, k);
      AboveComesFirst(pairIds, matches, ranked, k, i);
    }
  }

  function Single(x: PairId, y: PairId): PlayedMatch {
    PlayedMatch(Some(x), Some(y), Some([SetScore(6, 4)]), Some(x))
  }

  function CircleMatches(x: PairId, y: PairId, z: PairId): seq<PlayedMatch> {
    [Single(x, y), Single(y, z), Single(z, x)]
  }

  /**
   * Three pairs that beat each other 6-4 in a circle: whatever the order, some pair is listed above
   * one that should be above it.
   */
  lemma CircleHasNoOrder(x: PairId, y: PairId, z: PairId, ranked: seq<PairId>)
    requires x != y && y != z && x != z && multiset(ranked) == multiset{x, y, z}
    ensures WinnersPlayed(CircleMatches(x, y, z))
    ensures exists i, j :: 0 <= i < j < |ranked| && Above([x, y, z], CircleMatches(x, y, z), ranked[j], ranked[i])
  {
    var ids, matches := [x, y, z], CircleMatches(x, y, z);
    CircleOfThree(x, y, z);
    assert |ranked| == |multiset(ranked)| == 3;
    assert ranked[0] in multiset(ranked) && ranked[1] in multiset(ranked) && ranked[2] in multiset(ranked);
    assert multiset(ranked)[x] == 1 && multiset(ranked)[y] == 1 && multiset(ranked)[z] == 1;
    assert ranked == [ranked[0], ranked[1], ranked[2]];
    assert ranked[0] != ranked[1] && ranked[1] != ranked[2] && ranked[0] != ranked[2];
    hide Above, CircleMatches;
    if Above(ids, matches, ranked[1], ranked[0]) {
    } else if Above(ids, matches, ranked[2], ranked[1]) {
    } else {
      assert Above(ids, matches, ranked[2], ranked[0]);
    }
  }

  lemma SingleShare(x: PairId, y: PairId, p: PairId)
    requires x != y
    ensures var r := Share(Single(x, y), p);
      && r.won == (if p == x then 1 else 0)
      && Net(r, Sets) == (if p == x then 1 else if p == y then -1 else 0)
      && Net(r, Games) == (if p == x then 2 else if p == y then -2 else 0)
  {
    var one := [SetScore(6, 4)];
    assert one[..0] == [];
    assert SetsTo(one, true) == 1 && SetsTo(one, false) == 0 && GamesTo(one, true) == 6 && GamesTo(one, false) == 4;
  }

  lemma RecordOfThree(ids: seq<PairId>, m0: PlayedMatch, m1: PlayedMatch, m2: PlayedMatch, p: PairId)
    requires IsListed(ids, m0) && IsListed(ids, m1) && IsListed(ids, m2)
    ensures Record(ids, [m0, m1, m2], p) == Plus(Plus(Plus(NO_RESULTS, Share(m0, p)), Share(m1, p)), Share(m2, p))
  {
    hide Share, Plus;
    assert Record(ids, [], p) == NO_RESULTS;
    assert [m0][..0] == [] && [m0, m1][..1] == [m0] && [m0, m1, m2][..2] == [m0, m1];
    assert Record(ids, [m0], p) == Plus(NO_RESULTS, Share(m0, p));
    assert Record(ids, [m0, m1], p) == Plus(Record(ids, [m0], p), Share(m1, p));
  }

  lemma RowOfThree(ids: seq<PairId>, m0: PlayedMatch, m1: PlayedMatch, m2: PlayedMatch, p: PairId)
    requires IsListed(ids, m0) && IsListed(ids, m1) && IsListed(ids, m2) && p in ids
    ensures TableOf(ids, [m0, m1, m2])[p] == Plus(Plus(Plus(NO_RESULTS, Share(m0, p)), Share(m1, p)), Share(m2, p))
  {
    hide TableOf, Record, Share, Plus;
    RowIsRecord(ids, [m0, m1, m2], p);
    RecordOfThree(ids, m0, m1, m2, p);
  }

  lemma CircleRow(x: PairId, y: PairId, z: PairId, p: PairId)
    requires x != y && y != z && x != z && (p == x || p == y || p == z)
    ensures p in [x, y, z]
    ensures var r := TableOf([x, y, z], CircleMatches(x, y, z))[p];
            r.won == 1 && Net(r, Sets) == 0 && Net(r, Games) == 0
  {
    RowOfThree([x, y, z], Single(x, y), Single(y, z), Single(z, x), p);
    SingleShare(x, y, p);
    SingleShare(y, z, p);
    SingleShare(z, x, p);
    hide TableOf, Share;
  }

  lemma CircleOfThree(x: PairId, y: PairId, z: PairId)
    requires x != y && y != z && x != z
    ensures var ids, matches := [x, y, z], CircleMatches(x, y, z);
      && WinnersPlayed(matches)
      && Above(ids, matches, x, y) && Above(ids, matches, y, z) && Above(ids, matches, z, x)
  {
    CircleRow(x, y, z, x);
    CircleRow(x, y, z, y);
    CircleRow(x, y, z, z);
    hide TableOf;
    var m0, m1, m2 := Single(x, y), Single(y, z), Single(z, x);
    assert [m0, m1, m2][1..] == [m1, m2] && [m1, m2][1..] == [m2];
    assert HeadToHead([m2], z, x) == -1;
    assert HeadToHead([m1, m2], y, z) == -1 && HeadToHead([m1, m2], z, x) == -1;
    assert HeadToHead([m0, m1, m2], x, y) == -1 && HeadToHead([m0, m1, m2], y, z) == -1
           && HeadToHead([m0, m1, m2], z, x) == -1;
  }
}
