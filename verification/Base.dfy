/** Vocabulary shared by every module: optional values, refusals, queries over rows, stable sorting. */
module Base {

  datatype Option<+T> = None | Some(value: T)

  /** The exceptions the services throw, one constructor per HTTP status. */
  datatype Error = NotFound | BadRequest | Conflict | Forbidden | ReviewRequired

  datatype Result<+T> = Ok(value: T) | Err(error: Error)

  /** JavaScript truthiness of an optional string. */
  predicate Truthy(s: Option<string>) {
    s.Some? && s.value != ""
  }

  function Min(a: int, b: int): int {
    if a <= b then a else b
  }

  function Max(a: int, b: int): int {
    if a >= b then a else b
  }

  /** The ids below `n` of the rows a query selects, in table order. */
  function WhereBelow<T>(rows: seq<T>, n: nat, p: T -> bool): (ids: seq<nat>)
    requires n <= |rows|
    ensures forall k :: 0 <= k < |ids| ==> ids[k] < n && p(rows[ids[k]])
    ensures forall i: nat :: i < n && p(rows[i]) ==> i in ids
    ensures forall j, k :: 0 <= j < k < |ids| ==> ids[j] < ids[k]
  {
    if n == 0 then []
    else if p(rows[n - 1]) then WhereBelow(rows, n - 1, p) + [n - 1]
    else WhereBelow(rows, n - 1, p)
  }

  function Where<T>(rows: seq<T>, p: T -> bool): (ids: seq<nat>)
    ensures forall k :: 0 <= k < |ids| ==> ids[k] < |rows| && p(rows[ids[k]])
    ensures forall i: nat :: i < |rows| && p(rows[i]) ==> i in ids
    ensures forall j, k :: 0 <= j < k < |ids| ==> ids[j] < ids[k]
  {
    WhereBelow(rows, |rows|, p)
  }

  function Filter<T(!new)>(xs: seq<T>, p: T -> bool): (ys: seq<T>)
    ensures forall x :: x in ys <==> x in xs && p(x)
  {
    if xs == [] then [] else
      var rest := Filter(xs[1..], p);
      assert xs == [xs[0]] + xs[1..];
      if p(xs[0]) then [xs[0]] + rest else rest
  }

  // ── Stable sorting, as Array.prototype.sort does it ─────────────────────────

  /** `le` orders these elements: any two compare, and comparisons chain. */
  ghost predicate Orders<T(!new)>(xs: seq<T>, le: (T, T) -> bool) {
    && (forall x, y :: x in xs && y in xs ==> le(x, y) || le(y, x))
    && (forall x, y, z :: x in xs && y in xs && z in xs && le(x, y) && le(y, z) ==> le(x, z))
  }

  ghost predicate SortedBy<T>(xs: seq<T>, le: (T, T) -> bool) {
    forall i, j :: 0 <= i < j < |xs| ==> le(xs[i], xs[j])
  }

  /** Puts x after every element it does not come strictly before. */
  function Insert<T>(x: T, xs: seq<T>, le: (T, T) -> bool): (ys: seq<T>)
    ensures |ys| == |xs| + 1
  {
    if xs == [] then [x]
    else if le(xs[|xs| - 1], x) then xs + [x]
    else Insert(x, xs[..|xs| - 1], le) + [xs[|xs| - 1]]
  }

  function SortBy<T>(xs: seq<T>, le: (T, T) -> bool): (ys: seq<T>)
    ensures |ys| == |xs|
  {
    if xs == [] then [] else Insert(xs[|xs| - 1], SortBy(xs[..|xs| - 1], le), le)
  }

  lemma {:induction false} InsertContents<T>(x: T, xs: seq<T>, le: (T, T) -> bool)
    ensures multiset(Insert(x, xs, le)) == multiset(xs) + multiset{x}
  {
    if xs != [] && !le(xs[|xs| - 1], x) {
      InsertContents(x, xs[..|xs| - 1], le);
      assert xs == xs[..|xs| - 1] + [xs[|xs| - 1]];
    }
  }

  lemma {:induction false} InsertSorted<T(!new)>(x: T, xs: seq<T>, le: (T, T) -> bool)
    requires Orders(xs + [x], le) && SortedBy(xs, le)
    ensures SortedBy(Insert(x, xs, le), le)
  {
    if xs != [] {
      var n := |xs| - 1;
      if le(xs[n], x) {
        forall i | 0 <= i < |xs|
          ensures le(xs[i], x)
        {
          assert xs[i] in xs + [x] && xs[n] in xs + [x] && x in xs + [x];
        }
      } else {
        OrdersFewer(xs[..n] + [x], xs + [x], le);
        InsertSorted(x, xs[..n], le);
        var front := Insert(x, xs[..n], le);
        forall i | 0 <= i < |front|
          ensures le(front[i], xs[n])
        {
          InsertMember(x, xs[..n], le, i);
          assert xs[n] in xs + [x] && x in xs + [x];
        }
      }
    }
  }

  lemma OrdersFewer<T(!new)>(xs: seq<T>, ys: seq<T>, le: (T, T) -> bool)
    requires Orders(ys, le) && forall x :: x in xs ==> x in ys
    ensures Orders(xs, le)
  {
  }

  lemma InsertMember<T>(x: T, xs: seq<T>, le: (T, T) -> bool, i: nat)
    requires i < |Insert(x, xs, le)|
    ensures Insert(x, xs, le)[i] == x || Insert(x, xs, le)[i] in xs
  {
    InsertContents(x, xs, le);
    assert Insert(x, xs, le)[i] in multiset(Insert(x, xs, le));
  }

  lemma {:induction false} SortByContents<T>(xs: seq<T>, le: (T, T) -> bool)
    ensures multiset(SortBy(xs, le)) == multiset(xs)
  {
    if xs != [] {
      var n := |xs| - 1;
      assert xs == xs[..n] + [xs[n]];
      SortByContents(xs[..n], le);
      InsertContents(xs[n], SortBy(xs[..n], le), le);
    }
  }

  /** Sorting leaves the rows in order whenever there is one; it never loses or duplicates any. */
  lemma {:induction false} SortBySound<T(!new)>(xs: seq<T>, le: (T, T) -> bool)
    requires Orders(xs, le)
    ensures SortedBy(SortBy(xs, le), le)
    ensures multiset(SortBy(xs, le)) == multiset(xs)
  {
    SortByContents(xs, le);
    if xs != [] {
      var n := |xs| - 1;
      var rest := SortBy(xs[..n], le);
      SortByContents(xs[..n], le);
      OrdersFewer(xs[..n], xs, le);
      SortBySound(xs[..n], le);
      forall x | x in rest + [xs[n]]
        ensures x in xs
      {
        assert x in rest ==> x in multiset(rest);
      }
      OrdersFewer(rest + [xs[n]], xs, le);
      InsertSorted(xs[n], rest, le);
    }
  }

  // ── Sequences that repeat nothing ───────────────────────────────────────────

  ghost predicate NoRepeats<T(!new)>(xs: seq<T>) {
    forall i, j :: 0 <= i < j < |xs| ==> xs[i] != xs[j]
  }

  lemma {:induction false} OnceEach<T(!new)>(xs: seq<T>, x: T)
    requires NoRepeats(xs)
    ensures multiset(xs)[x] <= 1
  {
    if xs != [] {
      var n := |xs| - 1;
      OnceEach(xs[..n], x);
      assert xs == xs[..n] + [xs[n]];
      if x == xs[n] {
        assert x !in xs[..n];
      }
    }
  }

  lemma TwiceInside<T>(xs: seq<T>, i: nat, j: nat)
    requires i < j < |xs| && xs[i] == xs[j]
    ensures multiset(xs)[xs[i]] >= 2
  {
    assert xs == xs[..j] + [xs[j]] + xs[j + 1..];
    assert xs[i] in xs[..j];
    assert xs[i] in multiset(xs[..j]);
  }

  /** Reordering repeats nothing either, and holds the same elements. */
  lemma PermutedNoRepeats<T(!new)>(xs: seq<T>, same: seq<T>)
    requires NoRepeats(xs) && multiset(same) == multiset(xs)
    ensures NoRepeats(same)
    ensures forall x :: x in same <==> x in xs
  {
    forall x
      ensures x in same <==> x in xs
    {
      assert x in multiset(same) <==> x in multiset(xs);
    }
    forall i, j | 0 <= i < j < |same|
      ensures same[i] != same[j]
    {
      if same[i] == same[j] {
        TwiceInside(same, i, j);
        OnceEach(xs, same[i]);
        assert false;
      }
    }
  }
}
