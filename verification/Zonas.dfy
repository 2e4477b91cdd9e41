/** Dealing seeded entrants into zonas, in a snake (src/competitions/lib/groups.ts). */
module Zonas {
  import opened Base

  function GroupCount(n: nat, groupSize: nat): (count: nat)
    requires groupSize >= 2
    ensures count >= 1
  {
    Max(1, n / groupSize)
  }

  /** The lap and the place in it of the i-th deal. */
  function LapOf(count: nat, i: nat): (at: (nat, nat))
    requires count >= 1
    ensures at.1 < count
  {
    if i == 0 then (0, 0)
    else
      var (lap, offset) := LapOf(count, i - 1);
      if offset + 1 < count then (lap, offset + 1) else (lap + 1, 0)
  }

  /** Entrants dealt in the first `lap` laps. */
  function Start(count: nat, lap: nat): nat {
    if lap == 0 then 0 else Start(count, lap - 1) + count
  }

  lemma {:induction false} StartIs(count: nat, lap: nat)
    ensures Start(count, lap) == lap * count
  {
    if lap > 0 {
      StartIs(count, lap - 1);
    }
  }

  lemma {:induction false} LapStarts(count: nat, i: nat)
    requires count >= 1
    ensures i == Start(count, LapOf(count, i).0) + LapOf(count, i).1
  {
    if i > 0 {
      LapStarts(count, i - 1);
    }
  }

  lemma LapByDivision(count: nat, i: nat)
    requires count >= 1
    ensures LapOf(count, i).0 == i / count && LapOf(count, i).1 == i % count
  {
    LapStarts(count, i);
    StartIs(count, LapOf(count, i).0);
    DivisionIs(i, count, LapOf(count, i).0, LapOf(count, i).1);
  }

  lemma DivisionIs(v: nat, d: nat, q: nat, r: nat)
    requires d >= 1 && r < d && v == q * d + r
    ensures v / d == q && v % d == r
  {
    var k := v / d;
    assert v == k * d + v % d;
    assert k < q ==> (k + 1) * d <= q * d;
    assert k > q ==> (q + 1) * d <= k * d;
  }

  /** Whose turn it is after `offset` deals of a lap. */
  function Turn(count: nat, lap: nat, offset: nat): nat
    requires offset < count
  {
    if lap % 2 == 0 then offset else count - 1 - offset
  }

  /** Who gets the i-th entrant: laps go A to the last zona and back. */
  function SnakeGroup(count: nat, i: nat): (g: nat)
    requires count >= 1
    ensures g < count
  {
    var (lap, offset) := LapOf(count, i);
    Turn(count, lap, offset)
  }

  function NoneYet<T>(count: nat): (groups: seq<seq<T>>)
    ensures |groups| == count && forall g :: 0 <= g < count ==> groups[g] == []
  {
    seq(count, _ => [])
  }

  /** The zonas after dealing the first `i` entrants. */
  function Dealt<T>(seeded: seq<T>, count: nat, i: nat): (groups: seq<seq<T>>)
    requires count >= 1 && i <= |seeded|
    ensures |groups| == count
  {
    if i == 0 then NoneYet(count)
    else
      var groups := Dealt(seeded, count, i - 1);
      var g := SnakeGroup(count, i - 1);
      groups[g := groups[g] + [seeded[i - 1]]]
  }

  function Split<T>(seeded: seq<T>, groupSize: nat): Result<seq<seq<T>>> {
    if groupSize < 2 then Err(BadRequest)
    else Ok(Dealt(seeded, GroupCount(|seeded|, groupSize), |seeded|))
  }

  method SplitIntoGroups<T>(seeded: seq<T>, groupSize: nat) returns (r: Result<seq<seq<T>>>)
    ensures r == Split(seeded, groupSize)
  {
    if groupSize < 2 {
      return Err(BadRequest);
    }
    var groupCount := Max(1, |seeded| / groupSize);
    var groups := new seq<T>[groupCount](_ => []);
    for i := 0 to |seeded|
      invariant groups[..] == Dealt(seeded, groupCount, i)
    {
      var lap, offset := i / groupCount, i % groupCount;
      LapByDivision(groupCount, i);
      var g := if lap % 2 == 0 then offset else groupCount - 1 - offset;
      groups[g] := groups[g] + [seeded[i]];
    }
    return Ok(groups[..]);
  }

  function Flatten<T>(groups: seq<seq<T>>): seq<T> {
    if groups == [] then [] else Flatten(groups[..|groups| - 1]) + groups[|groups| - 1]
  }

  lemma {:induction false} FlattenGrows<T>(groups: seq<seq<T>>, g: nat, x: T)
    requires g < |groups|
    ensures multiset(Flatten(groups[g := groups[g] + [x]])) == multiset(Flatten(groups)) + multiset{x}
  {
    var n := |groups| - 1;
    var more := groups[g := groups[g] + [x]];
    if g < n {
      FlattenGrows(groups[..n], g, x);
      assert more[..n] == groups[..n][g := groups[g] + [x]];
    } else {
      assert more[..n] == groups[..n];
    }
  }

  lemma {:induction false} FlattenEmpty<T>(groups: seq<seq<T>>)
    requires forall g :: 0 <= g < |groups| ==> groups[g] == []
    ensures Flatten(groups) == []
  {
    if groups != [] {
      FlattenEmpty(groups[..|groups| - 1]);
    }
  }

  lemma NobodyDealt<T>(seeded: seq<T>, count: nat)
    requires count >= 1
    ensures multiset(Flatten(Dealt(seeded, count, 0))) == multiset(seeded[..0])
  {
    FlattenEmpty(Dealt(seeded, count, 0));
  }

  lemma DealtStep<T>(seeded: seq<T>, count: nat, i: nat)
    requires count >= 1 && i < |seeded|
    ensures var groups, g := Dealt(seeded, count, i), SnakeGroup(count, i);
            Dealt(seeded, count, i + 1) == groups[g := groups[g] + [seeded[i]]]
  {
  }

  /** Dealing puts every entrant in exactly one zona. */
  lemma {:induction false} DealtHoldsEveryone<T>(seeded: seq<T>, count: nat, i: nat)
    requires count >= 1 && i <= |seeded|
    ensures multiset(Flatten(Dealt(seeded, count, i))) == multiset(seeded[..i])
  {
    hide *;
    if i == 0 {
      NobodyDealt(seeded, count);
    } else {
      DealtHoldsEveryone(seeded, count, i - 1);
      DealtStep(seeded, count, i - 1);
      FlattenGrows(Dealt(seeded, count, i - 1), SnakeGroup(count, i - 1), seeded[i - 1]);
      assert seeded[..i] == seeded[..i - 1] + [seeded[i - 1]];
    }
  }

  // ── Balance ─────────────────────────────────────────────────────────────────

  /** Where the `lap`-th entrant of zona g stood in the seeding. */
  function SnakeIndex(count: nat, g: nat, lap: nat): nat
    requires g < count
  {
    Start(count, lap) + Turn(count, lap, g)
  }

  /** After `lap` laps and `offset` deals zona g has one entrant of each lap, the one the snake says. */
  ghost predicate Snaked<T>(seeded: seq<T>, count: nat, lap: nat, offset: nat, group: seq<T>, g: nat)
    requires g < count && offset < count
  {
    && |group| == lap + (if Turn(count, lap, g) < offset then 1 else 0)
    && Start(count, lap) + offset <= |seeded|
    && (forall l: nat :: l < |group| ==>
          SnakeIndex(count, g, l) < |seeded| && group[l] == seeded[SnakeIndex(count, g, l)])
  }

  /** One more deal. */
  lemma SnakeStep<T>(seeded: seq<T>, count: nat, i: nat, group: seq<T>, g: nat)
    requires count >= 1 && i < |seeded| && g < count
    requires Snaked(seeded, count, LapOf(count, i).0, LapOf(count, i).1, group, g)
    ensures Snaked(seeded, count, LapOf(count, i + 1).0, LapOf(count, i + 1).1,
                   if g == SnakeGroup(count, i) then group + [seeded[i]] else group, g)
  {
    LapStarts(count, i);
    var (lap, offset) := LapOf(count, i);
    assert Start(count, lap + 1) == Start(count, lap) + count;
  }

  lemma NothingDealt<T>(seeded: seq<T>, count: nat, g: nat)
    requires g < count
    ensures Snaked(seeded, count, 0, 0, Dealt(seeded, count, 0)[g], g)
  {
  }

  lemma {:induction false} DealtSnakes<T>(seeded: seq<T>, count: nat, i: nat, g: nat)
    requires count >= 1 && i <= |seeded| && g < count
    ensures Snaked(seeded, count, LapOf(count, i).0, LapOf(count, i).1, Dealt(seeded, count, i)[g], g)
  {
    if i == 0 {
      hide Snaked, Dealt;
      NothingDealt(seeded, count, g);
    } else {
      hide *;
      DealtSnakes(seeded, count, i - 1, g);
      SnakeStep(seeded, count, i - 1, Dealt(seeded, count, i - 1)[g], g);
      DealtStep(seeded, count, i - 1);
    }
  }

  /** Zona sizes differ by at most one, and with at least one full zona none is short of the target. */
  lemma SizesBalanced<T>(seeded: seq<T>, groupSize: nat, g: nat, h: nat)
    requires groupSize >= 2
    requires g < GroupCount(|seeded|, groupSize) && h < GroupCount(|seeded|, groupSize)
    ensures var groups := Split(seeded, groupSize).value;
      && |groups| == GroupCount(|seeded|, groupSize)
      && |groups[g]| <= |groups[h]| + 1
      && |groups[g]| >= Min(|seeded|, groupSize)
  {
    var count := GroupCount(|seeded|, groupSize);
    DealtSnakes(seeded, count, |seeded|, g);
    DealtSnakes(seeded, count, |seeded|, h);
    LapByDivision(count, |seeded|);
    FullZonas(|seeded|, groupSize);
    hide SnakeIndex;
  }

  lemma AtLeast(n: nat, count: nat, size: nat)
    requires count >= 1 && count * size <= n
    ensures n / count >= size
  {
    var q := n / count;
    assert n == q * count + n % count;
    assert q < size ==> (q + 1) * count <= size * count;
  }

  lemma FullZonas(n: nat, groupSize: nat)
    requires groupSize >= 2
    ensures n / GroupCount(n, groupSize) >= Min(n, groupSize)
  {
    var whole := n / groupSize;
    assert n == whole * groupSize + n % groupSize;
    if whole >= 1 {
      AtLeast(n, whole, groupSize);
    }
  }

  /** The best seeds are in different zonas: zona g is headed by seed g. */
  lemma BestSeedsApart<T>(seeded: seq<T>, groupSize: nat, g: nat)
    requires groupSize >= 2 && g < GroupCount(|seeded|, groupSize) <= |seeded|
    ensures var groups := Split(seeded, groupSize).value;
            |groups| == GroupCount(|seeded|, groupSize) && groups[g] != [] && groups[g][0] == seeded[g]
  {
    var count := GroupCount(|seeded|, groupSize);
    DealtSnakes(seeded, count, |seeded|, g);
    SizesBalanced(seeded, groupSize, g, g);
    assert SnakeIndex(count, g, 0) == g;
  }
}
