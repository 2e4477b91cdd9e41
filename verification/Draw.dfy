/**
 * The single-elimination draw: bracket size, seed order, byes, first-round clashes and the list
 * of linked matches (src/competitions/lib/bracket.ts).
 */
module Draw {
  import opened Base
  import opened Score

  type GroupId = nat

  datatype Entrant = Entrant(pairId: PairId, shown: string, group: Option<GroupId>)

  /** Where a winner goes. */
  datatype Feed = Feed(position: nat, slot: Side)

  datatype BracketMatch = BracketMatch(round: nat, position: nat, a: Option<Entrant>, b: Option<Entrant>,
                                       next: Option<Feed>)

  // ── Powers of two and ancestors ─────────────────────────────────────────────

  function Pow2(k: nat): (p: nat)
    ensures p >= 1
  {
    if k == 0 then 1 else 2 * Pow2(k - 1)
  }

  /** The match of round `r` that draw entry `e` belongs to. */
  function Up(e: nat, r: nat): nat {
    if r == 0 then e else Up(e, r - 1) / 2
  }

  lemma {:induction false} UpFromSecond(e: nat, r: nat)
    ensures Up(e, r + 1) == Up(e / 2, r)
  {
    if r > 0 {
      UpFromSecond(e, r - 1);
    }
  }

  lemma {:induction false} UpBelow(e: nat, k: nat, r: nat)
    requires e < Pow2(k) && r <= k
    ensures Up(e, r) < Pow2(k - r)
  {
    if r > 0 {
      UpBelow(e, k, r - 1);
    }
  }

  lemma {:induction false} UpMerged(d: nat, e: nat, r: nat, q: nat)
    requires r <= q && Up(d, r) == Up(e, r)
    ensures Up(d, q) == Up(e, q)
    decreases q - r
  {
    if r < q {
      UpMerged(d, e, r + 1, q);
    }
  }

  lemma {:induction false} Pow2Mono(j: nat, k: nat)
    requires j <= k
    ensures Pow2(j) <= Pow2(k)
  {
    if j < k {
      Pow2Mono(j, k - 1);
    }
  }

  // ── Bracket size ────────────────────────────────────────────────────────────

  /** Rounds of the smallest bracket that fits `count` entrants. */
  function RoundsFor(count: nat): (k: nat)
    ensures k >= 1
  {
    if count <= 2 then 1 else 1 + RoundsFor((count + 1) / 2)
  }

  lemma {:induction false} RoundsForLeast(count: nat)
    ensures var k := RoundsFor(count);
            count <= Pow2(k) && (k > 1 ==> Pow2(k - 1) < count)
  {
    if count > 2 {
      RoundsForLeast((count + 1) / 2);
    }
  }

  method BracketSize(count: nat) returns (size: nat)
    ensures size == Pow2(RoundsFor(count))
  {
    size := 2;
    ghost var k := 1;
    RoundsForLeast(count);
    while size < count
      invariant k >= 1 && size == Pow2(k)
      invariant k <= RoundsFor(count)
      decreases RoundsFor(count) - k
    {
      if k == RoundsFor(count) {
        assert false;
      }
      size := size * 2;
      k := k + 1;
    }
    if k < RoundsFor(count) {
      Pow2Mono(k, RoundsFor(count) - 1);
      assert false;
    }
  }

  // ── Seed order ──────────────────────────────────────────────────────────────

  /** Each seed followed by the one that meets it when the better seeds always win. */
  function Spread(order: seq<nat>, total: nat): (r: seq<nat>)
    requires forall i :: 0 <= i < |order| ==> order[i] <= total
    ensures |r| == 2 * |order|
  {
    seq(2 * |order|, i requires 0 <= i < 2 * |order| => if i % 2 == 0 then order[i / 2] else total - order[i / 2])
  }

  function SeedOrder(k: nat): (order: seq<nat>)
    ensures |order| == Pow2(k)
    ensures forall i :: 0 <= i < |order| ==> 1 <= order[i] <= Pow2(k)
  {
    if k == 0 then [1] else Spread(SeedOrder(k - 1), Pow2(k) + 1)
  }

  method Spreading(order: seq<nat>, total: nat) returns (spread: seq<nat>)
    requires forall i :: 0 <= i < |order| ==> order[i] <= total
    ensures spread == Spread(order, total)
  {
    spread := [];
    for i := 0 to |order|
      invariant spread == Spread(order[..i], total)
    {
      spread := spread + [order[i], total - order[i]];
    }
    assert order[..|order|] == order;
  }

  method SeedOrderOf(size: nat, ghost k: nat) returns (order: seq<nat>)
    requires size == Pow2(k)
    ensures order == SeedOrder(k)
  {
    order := [1];
    ghost var j := 0;
    while |order| < size
      invariant j <= k && order == SeedOrder(j)
      decreases k - j
    {
      if j == k {
        assert false;
      }
      order := Spreading(order, |order| * 2 + 1);
      j := j + 1;
    }
    if j < k {
      Pow2Mono(j + 1, k);
      assert false;
    }
  }

  /** Where seed `s` stands in the order. */
  function SeedPosition(k: nat, s: nat): (e: nat)
    requires 1 <= s <= Pow2(k)
    ensures e < Pow2(k)
  {
    if k == 0 then 0
    else if s <= Pow2(k - 1) then 2 * SeedPosition(k - 1, s)
    else 2 * SeedPosition(k - 1, Pow2(k) + 1 - s) + 1
  }

  lemma SpreadAt(order: seq<nat>, total: nat, i: nat)
    requires forall j :: 0 <= j < |order| ==> order[j] <= total
    requires i < |order|
    ensures Spread(order, total)[2 * i] == order[i] && Spread(order, total)[2 * i + 1] == total - order[i]
  {
  }

  lemma SeedOrderStep(k: nat, i: nat)
    requires k > 0 && i < Pow2(k - 1)
    ensures Pow2(k) == 2 * Pow2(k - 1)
    ensures SeedOrder(k)[2 * i] == SeedOrder(k - 1)[i] && SeedOrder(k)[2 * i + 1] == Pow2(k) + 1 - SeedOrder(k - 1)[i]
  {
    SpreadAt(SeedOrder(k - 1), Pow2(k) + 1, i);
  }

  lemma {:induction false} SeedAt(k: nat, s: nat)
    requires 1 <= s <= Pow2(k)
    ensures SeedOrder(k)[SeedPosition(k, s)] == s
  {
    if k > 0 {
      var t := if s <= Pow2(k - 1) then s else Pow2(k) + 1 - s;
      var q := SeedPosition(k - 1, t);
      assert SeedPosition(k, s) == if s <= Pow2(k - 1) then 2 * q else 2 * q + 1;
      SeedAt(k - 1, t);
      SeedOrderStep(k, q);
      hide SeedOrder, Pow2, SeedPosition;
    }
  }

  lemma {:induction false} SeedPlace(k: nat, e: nat)
    requires e < Pow2(k)
    ensures SeedPosition(k, SeedOrder(k)[e]) == e
  {
    if k > 0 {
      var half := SeedOrder(k - 1);
      SeedPlace(k - 1, e / 2);
      assert 1 <= half[e / 2] <= Pow2(k - 1);
      assert SeedOrder(k)[e] == if e % 2 == 0 then half[e / 2] else Pow2(k) + 1 - half[e / 2];
    }
  }

  /** The order is a permutation of the seeds: position and seed determine each other. */
  lemma SeedOrderPermutes(k: nat)
    ensures forall s: nat :: 1 <= s <= Pow2(k) ==> SeedOrder(k)[SeedPosition(k, s)] == s
    ensures forall e: nat :: e < Pow2(k) ==> SeedPosition(k, SeedOrder(k)[e]) == e
  {
    forall s: nat | 1 <= s <= Pow2(k) {
      SeedAt(k, s);
    }
    forall e: nat | e < Pow2(k) {
      SeedPlace(k, e);
    }
  }

  lemma {:induction false} SeedPositionUp(k: nat, j: nat, s: nat)
    requires j <= k && 1 <= s <= Pow2(j)
    ensures Pow2(j) <= Pow2(k)
    ensures Up(SeedPosition(k, s), k - j) == SeedPosition(j, s)
  {
    Pow2Mono(j, k);
    if j < k {
      Pow2Mono(j, k - 1);
      SeedPositionUp(k - 1, j, s);
      UpFromSecond(SeedPosition(k, s), k - 1 - j);
    }
  }

  /** The top 2^j seeds are in different matches until only 2^j entrants are left. */
  lemma TopSeedsMeetLate(k: nat, j: nat, s: nat, t: nat, r: nat)
    requires j <= k && 1 <= s < t <= Pow2(j) && r <= k - j
    ensures Pow2(j) <= Pow2(k)
    ensures Up(SeedPosition(k, s), r) != Up(SeedPosition(k, t), r)
  {
    SeedPositionUp(k, j, s);
    SeedPositionUp(k, j, t);
    SeedOrderPermutes(j);
    if Up(SeedPosition(k, s), r) == Up(SeedPosition(k, t), r) {
      UpMerged(SeedPosition(k, s), SeedPosition(k, t), r, k - j);
      assert false;
    }
  }

  // ── The draw before clashes ─────────────────────────────────────────────────

  function EntrantOf(entrants: seq<Entrant>, seed: nat): Option<Entrant> {
    if 1 <= seed <= |entrants| then Some(entrants[seed - 1]) else None
  }

  function SeededDraw(entrants: seq<Entrant>): (draw: seq<Option<Entrant>>)
    ensures |draw| == Pow2(RoundsFor(|entrants|))
  {
    var order := SeedOrder(RoundsFor(|entrants|));
    seq(|order|, e requires 0 <= e < |order| => EntrantOf(entrants, order[e]))
  }

  /** The first entrant of a first-round match is a top-half seed; the second meets it from the end. */
  lemma SeededMatch(k: nat, m: nat)
    requires k >= 1 && m < Pow2(k - 1)
    ensures var order := SeedOrder(k);
      && 1 <= order[2 * m] <= Pow2(k - 1)
      && order[2 * m + 1] == Pow2(k) + 1 - order[2 * m]
  {
    var half := SeedOrder(k - 1);
    assert (2 * m) / 2 == m && (2 * m + 1) / 2 == m;
    assert 1 <= half[m] <= Pow2(k - 1);
  }

  /**
   * Byes fall on the top seeds: a first-round match always has its first entrant, and lacks the
   * second exactly when the first is one of the best `size - count` seeds.
   */
  lemma ByesGoToTopSeeds(entrants: seq<Entrant>, m: nat)
    requires |entrants| >= 2 && m < Pow2(RoundsFor(|entrants|) - 1)
    ensures var k := RoundsFor(|entrants|);
      && 2 * m + 1 < |SeededDraw(entrants)|
      && SeededDraw(entrants)[2 * m].Some?
      && (SeededDraw(entrants)[2 * m + 1].None? <==> SeedOrder(k)[2 * m] <= Pow2(k) - |entrants|)
  {
    hide SeedOrder, RoundsFor;
    var k := RoundsFor(|entrants|);
    RoundsForLeast(|entrants|);
    SeededMatch(k, m);
  }

  /** No pair stands at two places of the draw. */
  ghost predicate DistinctDraw(draw: seq<Option<Entrant>>) {
    forall d, e :: 0 <= d < e < |draw| && draw[d].Some? && draw[e].Some? ==>
      draw[d].value.pairId != draw[e].value.pairId
  }

  ghost predicate DistinctEntrants(entrants: seq<Entrant>) {
    forall i, j :: 0 <= i < j < |entrants| ==> entrants[i].pairId != entrants[j].pairId
  }

  lemma SeededDrawDistinct(entrants: seq<Entrant>)
    requires DistinctEntrants(entrants)
    ensures DistinctDraw(SeededDraw(entrants))
  {
    var k := RoundsFor(|entrants|);
    SeedOrderPermutes(k);
    var order, draw := SeedOrder(k), SeededDraw(entrants);
    forall d, e | 0 <= d < e < |draw| && draw[d].Some? && draw[e].Some?
      ensures draw[d].value.pairId != draw[e].value.pairId
    {
      assert SeedPosition(k, order[d]) == d && SeedPosition(k, order[e]) == e;
    }
  }

  // ── Keeping zona-mates apart ────────────────────────────────────────────────

  predicate SameGroup(x: Option<Entrant>, y: Option<Entrant>) {
    x.Some? && x.value.group.Some? && y.Some? && x.value.group == y.value.group
  }

  /** The two entrants of first-round match `m` come from the same zona. */
  predicate Clashes(draw: seq<Option<Entrant>>, m: nat) {
    2 * m + 1 < |draw| && SameGroup(draw[2 * m], draw[2 * m + 1])
  }

  /** Match `other` can take the second entrant of match `m` and give its own, clearing both. */
  predicate CanTrade(draw: seq<Option<Entrant>>, m: nat, other: nat) {
    && 2 * m + 1 < |draw| && 2 * other + 1 < |draw| && other != m
    && draw[2 * other + 1].Some?
    && !SameGroup(draw[2 * m], draw[2 * other + 1])
    && !SameGroup(draw[2 * other], draw[2 * m + 1])
  }

  function FirstTrade(draw: seq<Option<Entrant>>, m: nat, other: nat): (r: Option<nat>)
    ensures r.Some? ==> other <= r.value && CanTrade(draw, m, r.value)
    ensures r.None? ==> forall o: nat :: other <= o ==> !CanTrade(draw, m, o)
    decreases |draw| - 2 * other
  {
    if 2 * other + 1 >= |draw| then None
    else if CanTrade(draw, m, other) then Some(other)
    else FirstTrade(draw, m, other + 1)
  }

  function Trade(draw: seq<Option<Entrant>>, m: nat, other: nat): (r: seq<Option<Entrant>>)
    requires 2 * m + 1 < |draw| && 2 * other + 1 < |draw|
    ensures |r| == |draw|
  {
    draw[2 * other + 1 := draw[2 * m + 1]][2 * m + 1 := draw[2 * other + 1]]
  }

  function Cleared(draw: seq<Option<Entrant>>, m: nat): (r: seq<Option<Entrant>>)
    ensures |r| == |draw|
  {
    if Clashes(draw, m) && FirstTrade(draw, m, 0).Some? then Trade(draw, m, FirstTrade(draw, m, 0).value) else draw
  }

  /** The draw after visiting the first `n` matches in order. */
  function Apart(draw: seq<Option<Entrant>>, n: nat): (r: seq<Option<Entrant>>)
    ensures |r| == |draw|
  {
    if n == 0 then draw else Cleared(Apart(draw, n - 1), n - 1)
  }

  method ClearClash(draw: array<Option<Entrant>>, m: nat)
    requires draw.Length % 2 == 0 && Clashes(draw[..], m)
    modifies draw
    ensures draw[..] == Cleared(old(draw[..]), m)
  {
    ghost var before := draw[..];
    var other := 0;
    while 2 * other < draw.Length
      invariant 0 <= 2 * other <= draw.Length
      invariant draw[..] == before && FirstTrade(before, m, 0) == FirstTrade(before, m, other)
    {
      var candidate := draw[2 * other + 1];
      if other != m && candidate.Some? && !SameGroup(draw[2 * m], candidate)
         && !SameGroup(draw[2 * other], draw[2 * m + 1]) {
        draw[2 * other + 1] := draw[2 * m + 1];
        draw[2 * m + 1] := candidate;
        return;
      }
      other := other + 1;
    }
  }

  method AvoidGroupClashes(draw: array<Option<Entrant>>)
    requires draw.Length % 2 == 0
    modifies draw
    ensures draw[..] == Apart(old(draw[..]), draw.Length / 2)
  {
    for m := 0 to draw.Length / 2
      invariant draw[..] == Apart(old(draw[..]), m)
    {
      if SameGroup(draw[2 * m], draw[2 * m + 1]) {
        ClearClash(draw, m);
      }
    }
  }

  /** What separating zona-mates may do to a draw. */
  ghost predicate FairReshuffle(before: seq<Option<Entrant>>, after: seq<Option<Entrant>>) {
    && |after| == |before|
    && multiset(after) == multiset(before)
    && (forall m: nat :: 2 * m + 1 < |before| ==>
          after[2 * m] == before[2 * m] && (after[2 * m + 1].None? <==> before[2 * m + 1].None?))
    && (forall m: nat :: Clashes(after, m) ==> Clashes(before, m))
    && (DistinctDraw(before) ==> DistinctDraw(after))
  }

  /** First entrants and byes stay put, and both matches of the trade end up clear. */
  lemma TradeMoves(draw: seq<Option<Entrant>>, m: nat, other: nat, n: nat)
    requires Clashes(draw, m) && CanTrade(draw, m, other) && 2 * n + 1 < |draw|
    ensures var after := Trade(draw, m, other);
            && after[2 * n] == draw[2 * n] && (after[2 * n + 1].None? <==> draw[2 * n + 1].None?)
            && (Clashes(after, n) ==> Clashes(draw, n) && n != m)
  {
    assert 2 * n + 1 == 2 * m + 1 <==> n == m;
    assert 2 * n + 1 == 2 * other + 1 <==> n == other;
  }

  lemma TradeFair(draw: seq<Option<Entrant>>, m: nat, other: nat)
    requires Clashes(draw, m) && CanTrade(draw, m, other)
    ensures FairReshuffle(draw, Trade(draw, m, other))
    ensures !Clashes(Trade(draw, m, other), m)
  {
    hide DistinctDraw, Trade, SameGroup;
    var after := Trade(draw, m, other);
    TradeContents(draw, m, other);
    if DistinctDraw(draw) {
      TradeKeepsDistinct(draw, m, other);
    }
    forall n: nat | 2 * n + 1 < |draw|
      ensures after[2 * n] == draw[2 * n] && (after[2 * n + 1].None? <==> draw[2 * n + 1].None?)
      ensures Clashes(after, n) ==> Clashes(draw, n) && n != m
    {
      TradeMoves(draw, m, other, n);
    }
  }

  lemma TradeContents(draw: seq<Option<Entrant>>, m: nat, other: nat)
    requires 2 * m + 1 < |draw| && 2 * other + 1 < |draw|
    ensures multiset(Trade(draw, m, other)) == multiset(draw)
  {
    SwapMultiset(draw, 2 * other + 1, 2 * m + 1);
  }

  lemma TradeKeepsDistinct(draw: seq<Option<Entrant>>, m: nat, other: nat)
    requires DistinctDraw(draw) && 2 * m + 1 < |draw| && 2 * other + 1 < |draw|
    ensures DistinctDraw(Trade(draw, m, other))
  {
  }

  lemma SwapMultiset<T>(s: seq<T>, i: nat, j: nat)
    requires i < |s| && j < |s|
    ensures multiset(s[i := s[j]][j := s[i]]) == multiset(s)
  {
  }

  lemma FairTwice(a: seq<Option<Entrant>>, b: seq<Option<Entrant>>, c: seq<Option<Entrant>>)
    requires FairReshuffle(a, b) && FairReshuffle(b, c)
    ensures FairReshuffle(a, c)
  {
    forall m: nat | 2 * m + 1 < |a|
      ensures c[2 * m] == a[2 * m] && (c[2 * m + 1].None? <==> a[2 * m + 1].None?)
    {
      assert b[2 * m] == a[2 * m];
    }
  }

  lemma ClearedFair(draw: seq<Option<Entrant>>, m: nat)
    ensures FairReshuffle(draw, Cleared(draw, m))
    ensures Clashes(Cleared(draw, m), m) ==> FirstTrade(draw, m, 0).None?
  {
    if Clashes(draw, m) && FirstTrade(draw, m, 0).Some? {
      TradeFair(draw, m, FirstTrade(draw, m, 0).value);
    }
  }

  /**
   * Separating zona-mates keeps everyone in the draw, moves no first entrant and no bye, and never
   * makes a clash: the clashes left are among those there were.
   */
  lemma {:induction false} ApartIsFair(draw: seq<Option<Entrant>>, n: nat)
    ensures FairReshuffle(draw, Apart(draw, n))
  {
    hide FairReshuffle, Cleared;
    if n == 0 {
      FairAsIs(draw);
    } else {
      ApartIsFair(draw, n - 1);
      ClearedFair(Apart(draw, n - 1), n - 1);
      FairTwice(draw, Apart(draw, n - 1), Apart(draw, n));
    }
  }

  lemma FairAsIs(draw: seq<Option<Entrant>>)
    ensures FairReshuffle(draw, draw)
  {
  }

  /** A clash is left at a match only if no trade could clear it when that match was visited. */
  lemma {:induction false} ApartClearsWhatItCan(draw: seq<Option<Entrant>>, n: nat, m: nat)
    requires m < n && Clashes(Apart(draw, n), m)
    ensures FirstTrade(Apart(draw, m), m, 0).None?
  {
    hide Cleared, FairReshuffle, FirstTrade, Clashes;
    ClearedFair(Apart(draw, n - 1), n - 1);
    if m < n - 1 {
      NoNewClash(Apart(draw, n - 1), Apart(draw, n), m);
      ApartClearsWhatItCan(draw, n - 1, m);
    }
  }

  lemma NoNewClash(before: seq<Option<Entrant>>, after: seq<Option<Entrant>>, m: nat)
    requires FairReshuffle(before, after) && Clashes(after, m)
    ensures Clashes(before, m)
  {
    hide DistinctDraw;
  }

  // ── The linked matches ──────────────────────────────────────────────────────

  function Drawn(entrants: seq<Entrant>): (draw: seq<Option<Entrant>>)
    ensures |draw| == Pow2(RoundsFor(|entrants|))
  {
    var draw := SeededDraw(entrants);
    Apart(draw, |draw| / 2)
  }

  function MatchAt(draw: seq<Option<Entrant>>, k: nat, r: nat, p: nat): BracketMatch
    requires |draw| == Pow2(k) && 1 <= r <= k && p < Pow2(k - r)
  {
    BracketMatch(r, p,
                 if r == 1 then draw[2 * p] else None,
                 if r == 1 then draw[2 * p + 1] else None,
                 if r < k then Some(Feed(p / 2, if p % 2 == 0 then SideA else SideB)) else None)
  }

  function RoundOf(draw: seq<Option<Entrant>>, k: nat, r: nat, n: nat): (ms: seq<BracketMatch>)
    requires |draw| == Pow2(k) && 1 <= r <= k && n <= Pow2(k - r)
    ensures |ms| == n
  {
    seq(n, p requires 0 <= p < n => MatchAt(draw, k, r, p))
  }

  /** The matches of the first `r` rounds, in order. */
  function Rounds(draw: seq<Option<Entrant>>, k: nat, r: nat): seq<BracketMatch>
    requires |draw| == Pow2(k) && r <= k
  {
    if r == 0 then [] else Rounds(draw, k, r - 1) + RoundOf(draw, k, r, Pow2(k - r))
  }

  function Bracket(entrants: seq<Entrant>): Result<seq<BracketMatch>> {
    if |entrants| < 2 then Err(BadRequest)
    else Ok(Rounds(Drawn(entrants), RoundsFor(|entrants|), RoundsFor(|entrants|)))
  }

  method DrawEntrants(entrants: seq<Entrant>) returns (draw: array<Option<Entrant>>)
    ensures fresh(draw) && draw[..] == Drawn(entrants)
  {
    ghost var k := RoundsFor(|entrants|);
    var size := BracketSize(|entrants|);
    var order := SeedOrderOf(size, k);
    draw := new Option<Entrant>[size](e requires 0 <= e < size => EntrantOf(entrants, order[e]));
    assert draw[..] == SeededDraw(entrants);
    AvoidGroupClashes(draw);
    hide Apart, SeededDraw;
  }

  method RoundMatches(draw: array<Option<Entrant>>, ghost k: nat, round: nat,
                      roundSize: nat) returns (matches: seq<BracketMatch>)
    requires draw.Length == Pow2(k) && 1 <= round <= k && roundSize == Pow2(k - round)
    ensures matches == RoundOf(draw[..], k, round, roundSize)
  {
    matches := [];
    for position := 0 to roundSize
      invariant matches == RoundOf(draw[..], k, round, position)
    {
      PlacesInside(k, round, position);
      matches := matches + [BracketMatch(
        round,
        position,
        if round == 1 then draw[position * 2] else None,
        if round == 1 then draw[position * 2 + 1] else None,
        if roundSize > 1 then Some(Feed(position / 2, if position % 2 == 0 then SideA else SideB)) else None)];
    }
  }

  method BuildBracket(entrants: seq<Entrant>) returns (r: Result<seq<BracketMatch>>)
    ensures r == Bracket(entrants)
  {
    if |entrants| < 2 {
      return Err(BadRequest);
    }
    ghost var k := RoundsFor(|entrants|);
    var draw := DrawEntrants(entrants);
    ghost var final := Drawn(entrants);
    var matches: seq<BracketMatch> := [];
    var roundSize := draw.Length / 2;
    var round := 1;
    while roundSize >= 1
      invariant 1 <= round <= k + 1
      invariant roundSize == if round <= k then Pow2(k - round) else 0
      invariant draw[..] == final
      invariant matches == Rounds(final, k, round - 1)
      decreases k + 1 - round
    {
      var added := RoundMatches(draw, k, round, roundSize);
      matches := matches + added;
      roundSize := roundSize / 2;
      round := round + 1;
    }
    return Ok(matches);
  }

  lemma PlacesInside(k: nat, r: nat, p: nat)
    requires 1 <= r <= k && p < Pow2(k - r)
    ensures r == 1 ==> 2 * p + 1 < Pow2(k)
    ensures r < k <==> Pow2(k - r) > 1
  {
  }

  lemma DrawnDistinct(entrants: seq<Entrant>)
    requires DistinctEntrants(entrants)
    ensures DistinctDraw(Drawn(entrants))
  {
    SeededDrawDistinct(entrants);
    ApartIsFair(SeededDraw(entrants), |SeededDraw(entrants)| / 2);
    hide SeededDraw, Apart, DistinctDraw, DistinctEntrants, Clashes;
  }

  /**
   * The finished draw: everyone is in it once, every first-round match has its first entrant, and
   * only the matches of the best seeds lack the second.
   */
  lemma DrawnLaw(entrants: seq<Entrant>)
    requires |entrants| >= 2
    ensures DistinctEntrants(entrants) ==> DistinctDraw(Drawn(entrants))
    ensures forall i: nat :: i < |entrants| ==> Some(entrants[i]) in Drawn(entrants)
    ensures forall m: nat :: m < Pow2(RoundsFor(|entrants|) - 1) ==> FirstRoundSound(entrants, m)
  {
    hide *;
    if DistinctEntrants(entrants) {
      DrawnDistinct(entrants);
    }
    forall i: nat | i < |entrants| {
      EveryoneDrawn(entrants, i);
    }
    forall m: nat | m < Pow2(RoundsFor(|entrants|) - 1) {
      FirstRoundIsSound(entrants, m);
    }
  }

  /** A first-round match has its first entrant, and lacks the second exactly at the top seeds. */
  predicate FirstRoundSound(entrants: seq<Entrant>, m: nat) {
    var k := RoundsFor(|entrants|);
    && 2 * m + 1 < |Drawn(entrants)|
    && Drawn(entrants)[2 * m].Some?
    && (Drawn(entrants)[2 * m + 1].None? <==> SeedOrder(k)[2 * m] <= Pow2(k) - |entrants|)
  }

  lemma FirstRoundIsSound(entrants: seq<Entrant>, m: nat)
    requires |entrants| >= 2 && m < Pow2(RoundsFor(|entrants|) - 1)
    ensures FirstRoundSound(entrants, m)
  {
    var seeded := SeededDraw(entrants);
    ByesGoToTopSeeds(entrants, m);
    ApartIsFair(seeded, |seeded| / 2);
    assert 2 * m + 1 < |seeded|;
    hide SeededDraw, Apart, SeedOrder, DistinctDraw, Clashes;
  }

  lemma EveryoneDrawn(entrants: seq<Entrant>, i: nat)
    requires i < |entrants|
    ensures Some(entrants[i]) in Drawn(entrants)
  {
    EveryoneSeeded(entrants, i);
    var seeded, drawn := SeededDraw(entrants), Drawn(entrants);
    ApartIsFair(seeded, |seeded| / 2);
    assert multiset(drawn) == multiset(seeded);
    hide *;
    assert Some(entrants[i]) in multiset(drawn);
  }

  lemma EveryoneSeeded(entrants: seq<Entrant>, i: nat)
    requires i < |entrants|
    ensures Some(entrants[i]) in SeededDraw(entrants)
  {
    var k := RoundsFor(|entrants|);
    RoundsForLeast(|entrants|);
    SeedAt(k, i + 1);
    assert SeededDraw(entrants)[SeedPosition(k, i + 1)] == Some(entrants[i]);
  }
}
