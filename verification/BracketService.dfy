/**
 * Creating and updating a knockout tree, match row by match row (src/competitions/competitions.service.ts,
 * createBracket and updateMatch).
 */
module BracketService {
  import opened Base
  import opened Score
  import opened Draw
  import opened Bracket

  // ── The matches of a draw, final first ──────────────────────────────────────

  /** Later rounds first, then by position: every match comes after the one its winner goes to. */
  predicate FinalFirst(x: BracketMatch, y: BracketMatch) {
    x.round > y.round || (x.round == y.round && x.position <= y.position)
  }

  /** Every match of the draw is listed, and nothing else. */
  ghost predicate Lists(ms: seq<BracketMatch>, draw: seq<Option<Entrant>>, k: nat, rounds: nat) {
    && |draw| == Pow2(k) && rounds <= k
    && (forall i :: 0 <= i < |ms| ==> OnBoard(k, ms[i].round, ms[i].position) && ms[i].round <= rounds
                                      && ms[i] == MatchAt(draw, k, ms[i].round, ms[i].position))
    && (forall r: nat, p: nat {:trigger OnBoard(k, r, p)} :: OnBoard(k, r, p) && r <= rounds ==>
          MatchAt(draw, k, r, p) in ms)
  }

  ghost predicate NoSpotTwice(ms: seq<BracketMatch>) {
    forall i, j :: 0 <= i < j < |ms| ==> ms[i].round != ms[j].round || ms[i].position != ms[j].position
  }

  lemma {:induction false} RoundsList(draw: seq<Option<Entrant>>, k: nat, rounds: nat)
    requires |draw| == Pow2(k) && rounds <= k
    ensures Lists(Rounds(draw, k, rounds), draw, k, rounds) && NoSpotTwice(Rounds(draw, k, rounds))
  {
    if rounds > 0 {
      RoundsList(draw, k, rounds - 1);
      OneMoreRound(draw, k, rounds, Rounds(draw, k, rounds - 1), RoundOf(draw, k, rounds, Pow2(k - rounds)));
      hide Lists, NoSpotTwice, MatchAt, Pow2;
    }
  }

  lemma OneMoreRound(draw: seq<Option<Entrant>>, k: nat, rounds: nat, before: seq<BracketMatch>, now: seq<BracketMatch>)
    requires |draw| == Pow2(k) && 1 <= rounds <= k && |now| == Pow2(k - rounds)
    requires Lists(before, draw, k, rounds - 1) && NoSpotTwice(before)
    requires forall p :: 0 <= p < |now| ==> now[p] == MatchAt(draw, k, rounds, p)
    ensures Lists(before + now, draw, k, rounds) && NoSpotTwice(before + now)
  {
    hide Pow2;
    var all := before + now;
    forall p | 0 <= p < |now|
      ensures now[p].round == rounds && now[p].position == p
    {
    }
    hide MatchAt;
    forall r: nat, p: nat | OnBoard(k, r, p) && r <= rounds
      ensures MatchAt(draw, k, r, p) in all
    {
      if r == rounds {
        assert all[|before| + p] == MatchAt(draw, k, r, p);
      }
    }
  }

  lemma ReorderedLists(ms: seq<BracketMatch>, same: seq<BracketMatch>, draw: seq<Option<Entrant>>, k: nat)
    requires Lists(ms, draw, k, k) && NoSpotTwice(ms) && multiset(same) == multiset(ms)
    ensures Lists(same, draw, k, k) && NoSpotTwice(same)
  {
    PermutedNoRepeats(ms, same);
    forall i | 0 <= i < |same|
      ensures OnBoard(k, same[i].round, same[i].position)
              && same[i] == MatchAt(draw, k, same[i].round, same[i].position)
    {
      assert same[i] in ms;
    }
    hide MatchAt, OnBoard;
    forall i, j | 0 <= i < j < |same|
      ensures same[i].round != same[j].round || same[i].position != same[j].position
    {
      assert same[i] != same[j];
    }
  }

  lemma FinalFirstOrders(ms: seq<BracketMatch>)
    ensures SortedBy(SortBy(ms, FinalFirst), FinalFirst)
  {
    SortBySound(ms, FinalFirst);
  }

  /** The match a winner goes to is created before the match it comes from. */
  lemma NextComesFirst(todo: seq<BracketMatch>, draw: seq<Option<Entrant>>, k: nat, i: nat)
    requires Lists(todo, draw, k, k) && SortedBy(todo, FinalFirst) && i < |todo| && todo[i].round < k
    ensures exists j :: 0 <= j < i && todo[j].round == todo[i].round + 1 && todo[j].position == todo[i].position / 2
  {
    var r, p := todo[i].round, todo[i].position;
    NextOnBoard(k, r, p);
    assert MatchAt(draw, k, r + 1, p / 2) in todo;
    var j :| 0 <= j < |todo| && todo[j] == MatchAt(draw, k, r + 1, p / 2);
    if j > i {
      assert FinalFirst(todo[i], todo[j]);
    }
  }

  // ── The rows while the bracket is being created ─────────────────────────────

  function SpotOf(m: BracketMatch): Spot {
    Spot(m.round, m.position)
  }

  /** The spots with a row are those of the first `n` matches of `todo`. */
  ghost predicate Placed(ids: map<Spot, MatchId>, todo: seq<BracketMatch>, n: nat) {
    && n <= |todo|
    && (forall i :: 0 <= i < n ==> SpotOf(todo[i]) in ids)
    && (forall s {:trigger s in ids} :: s in ids ==> exists i :: 0 <= i < n && SpotOf(todo[i]) == s)
  }

  /** Once a match has its row, so does the one its winner goes to. */
  ghost predicate Upwards(ids: map<Spot, MatchId>, k: nat) {
    forall s {:trigger s in ids} :: s in ids ==>
      OnBoard(k, s.round, s.position) && (s.round < k ==> Spot(s.round + 1, s.position / 2) in ids)
  }

  /** The row at a spot once the byes before position `n` have been sent on. */
  function MidRow(draw: seq<Option<Entrant>>, k: nat, ids: map<Spot, MatchId>, r: nat, p: nat, n: nat): Match
    requires |draw| == Pow2(k) && OnBoard(k, r, p)
  {
    var row := RowOf(MatchAt(draw, k, r, p), ids);
    if r == 1 then row.(winner := if p < n then ByeWinner(draw, k, p) else None)
    else if r == 2 then
      row.(pairA := if 2 * p < n then ByeAdvance(draw, k, r, p, SideA) else None,
           pairB := if 2 * p + 1 < n then ByeAdvance(draw, k, r, p, SideB) else None)
    else row
  }

  ghost predicate NewIds(base: Matches, ids: map<Spot, MatchId>) {
    && DistinctIds(ids)
    && (forall s {:trigger s in ids} :: s in ids ==> ids[s] !in base)
  }

  /** The rows are those there were plus, at each spot, its own. */
  ghost predicate Stored(base: Matches, rows: Matches, ids: map<Spot, MatchId>, draw: seq<Option<Entrant>>, k: nat,
                         n: nat) {
    && |draw| == Pow2(k) && Upwards(ids, k) && NewIds(base, ids)
    && (forall s {:trigger s in ids} :: s in ids ==>
          ids[s] in rows && rows[ids[s]] == MidRow(draw, k, ids, s.round, s.position, n))
    && (forall id {:trigger id in rows} {:trigger id in base} :: id in base ==> id in rows && rows[id] == base[id])
    && (forall id {:trigger id in rows} :: id in rows && id !in base ==> id in ids.Values)
  }

  lemma SpotIsNew(ids: map<Spot, MatchId>, todo: seq<BracketMatch>, n: nat)
    requires Placed(ids, todo, n) && n < |todo| && NoSpotTwice(todo)
    ensures SpotOf(todo[n]) !in ids
  {
  }

  lemma PlaceOne(ids: map<Spot, MatchId>, todo: seq<BracketMatch>, n: nat, id: MatchId)
    requires Placed(ids, todo, n) && n < |todo|
    ensures Placed(ids[SpotOf(todo[n]) := id], todo, n + 1)
  {
    var more := ids[SpotOf(todo[n]) := id];
    forall s | s in more
      ensures exists i :: 0 <= i < n + 1 && SpotOf(todo[i]) == s
    {
      if s in ids {
        var i :| 0 <= i < n && SpotOf(todo[i]) == s;
        assert 0 <= i < n + 1;
      } else {
        assert SpotOf(todo[n]) == s;
      }
    }
  }

  lemma NextIsPlaced(ids: map<Spot, MatchId>, todo: seq<BracketMatch>, draw: seq<Option<Entrant>>, k: nat, n: nat)
    requires Placed(ids, todo, n) && n < |todo|
    requires Lists(todo, draw, k, k) && SortedBy(todo, FinalFirst)
    ensures todo[n].round < k ==> Spot(todo[n].round + 1, todo[n].position / 2) in ids
  {
    hide Lists, SortedBy, FinalFirst, OnBoard, Pow2;
    if todo[n].round < k {
      NextComesFirst(todo, draw, k, n);
      var j :| 0 <= j < n && todo[j].round == todo[n].round + 1 && todo[j].position == todo[n].position / 2;
      assert SpotOf(todo[j]) in ids;
    }
  }

  lemma MidRowStable(draw: seq<Option<Entrant>>, k: nat, ids: map<Spot, MatchId>, more: map<Spot, MatchId>, r: nat,
                     p: nat, n: nat)
    requires |draw| == Pow2(k) && OnBoard(k, r, p)
    requires r < k ==> Spot(r + 1, p / 2) in ids && Spot(r + 1, p / 2) in more
                       && more[Spot(r + 1, p / 2)] == ids[Spot(r + 1, p / 2)]
    ensures MidRow(draw, k, ids, r, p, n) == MidRow(draw, k, more, r, p, n)
  {
    hide ByeWinner, ByeAdvance, Pow2;
  }

  lemma UnplayedRow(draw: seq<Option<Entrant>>, k: nat, ids: map<Spot, MatchId>, r: nat, p: nat)
    requires |draw| == Pow2(k) && OnBoard(k, r, p)
    ensures MidRow(draw, k, ids, r, p, 0) == RowOf(MatchAt(draw, k, r, p), ids)
  {
    hide ByeWinner, ByeAdvance, Pow2;
  }

  lemma NewIdsStep(base: Matches, rows: Matches, ids: map<Spot, MatchId>, spot: Spot, id: MatchId)
    requires NewIds(base, ids) && spot !in ids && id !in base
    requires forall s {:trigger s in ids} :: s in ids ==> ids[s] != id
    ensures NewIds(base, ids[spot := id])
  {
  }

  lemma UpwardsStep(ids: map<Spot, MatchId>, k: nat, spot: Spot, id: MatchId)
    requires Upwards(ids, k) && spot !in ids && OnBoard(k, spot.round, spot.position)
    requires spot.round < k ==> Spot(spot.round + 1, spot.position / 2) in ids
    ensures Upwards(ids[spot := id], k)
  {
    hide OnBoard;
  }

  lemma StoredRow(draw: seq<Option<Entrant>>, k: nat, ids: map<Spot, MatchId>, spot: Spot, id: MatchId, s: Spot)
    requires |draw| == Pow2(k) && OnBoard(k, s.round, s.position)
    requires spot !in ids && (s.round < k ==> Spot(s.round + 1, s.position / 2) in ids)
    ensures MidRow(draw, k, ids[spot := id], s.round, s.position, 0) == MidRow(draw, k, ids, s.round, s.position, 0)
    ensures MidRow(draw, k, ids, s.round, s.position, 0) == RowOf(MatchAt(draw, k, s.round, s.position), ids)
  {
    hide MidRow, RowOf, MatchAt, Pow2;
    MidRowStable(draw, k, ids, ids[spot := id], s.round, s.position, 0);
    UnplayedRow(draw, k, ids, s.round, s.position);
  }

  lemma StoreOne(base: Matches, rows: Matches, ids: map<Spot, MatchId>, draw: seq<Option<Entrant>>, k: nat, spot: Spot,
                 id: MatchId, row: Match)
    requires Stored(base, rows, ids, draw, k, 0) && id !in rows && spot !in ids
    requires OnBoard(k, spot.round, spot.position) && row == RowOf(MatchAt(draw, k, spot.round, spot.position), ids)
    requires spot.round < k ==> Spot(spot.round + 1, spot.position / 2) in ids
    ensures Stored(base, rows[id := row], ids[spot := id], draw, k, 0)
  {
    hide MidRow, RowOf, MatchAt, Pow2, OnBoard, Upwards, NewIds, DistinctIds;
    NewIdsStep(base, rows, ids, spot, id);
    UpwardsStep(ids, k, spot, id);
    var rows', ids' := rows[id := row], ids[spot := id];
    forall s | s in ids'
      ensures OnBoard(k, s.round, s.position) && (s.round < k ==> Spot(s.round + 1, s.position / 2) in ids)
    {
      if s in ids {
        UpwardsAt(ids, k, s);
      }
    }
    forall s | s in ids'
      ensures ids'[s] in rows' && rows'[ids'[s]] == MidRow(draw, k, ids', s.round, s.position, 0)
    {
      StoredRow(draw, k, ids, spot, id, s);
    }
    assert ids'[spot] == id;
    forall i | i in rows' && i !in base
      ensures i in ids'.Values
    {
      if i != id {
        var s :| s in ids && ids[s] == i;
        assert ids'[s] == i;
      }
    }
  }

  lemma UpwardsAt(ids: map<Spot, MatchId>, k: nat, s: Spot)
    requires Upwards(ids, k) && s in ids
    ensures OnBoard(k, s.round, s.position) && (s.round < k ==> Spot(s.round + 1, s.position / 2) in ids)
  {
  }

  // ── The byes ────────────────────────────────────────────────────────────────

  /** Sends the lone pair of a first-round match on, as the two updates do. */
  function ByeSent(rows: Matches, ids: map<Spot, MatchId>, m: BracketMatch): Matches {
    var lone := if m.a.Some? then m.a else m.b;
    if m.round != 1 || (m.a.Some? && m.b.Some?) || lone.None? || m.next.None? then rows
    else
      var own, next := IdAt(ids, 1, m.position), IdAt(ids, 2, m.next.value.position);
      if own !in rows || next !in rows then rows
      else
        var won := rows[own := rows[own].(winner := Some(lone.value.pairId))];
        won[next := WithPairOn(won[next], m.next.value.slot, Some(lone.value.pairId))]
  }

  lemma MidRowStep(draw: seq<Option<Entrant>>, k: nat, ids: map<Spot, MatchId>, r: nat, p: nat, n: nat)
    requires |draw| == Pow2(k) && OnBoard(k, r, p) && OnBoard(k, 1, n)
    ensures var row := MidRow(draw, k, ids, r, p, n);
            var winner := ByeWinner(draw, k, n);
            MidRow(draw, k, ids, r, p, n + 1) ==
              if winner.None? then row
              else if r == 1 && p == n then row.(winner := winner)
              else if r == 2 && p == n / 2 then WithPairOn(row, SlotSide(n), winner)
              else row
  {
    hide RowOf, Pow2;
  }

  lemma ByeOf(draw: seq<Option<Entrant>>, k: nat, n: nat)
    requires |draw| == Pow2(k) && OnBoard(k, 1, n)
    ensures var m := MatchAt(draw, k, 1, n);
            var lone := if m.a.Some? then m.a else m.b;
            && m.round == 1 && m.position == n
            && ByeWinner(draw, k, n) == (if (m.a.Some? && m.b.Some?) || m.next.None? then None else PairOf(lone))
            && (m.next.Some? <==> k > 1) && (m.next.Some? ==> m.next.value == Feed(n / 2, SlotSide(n)))
  {
    hide Pow2;
  }

  /** What the two updates leave at every spot. */
  lemma ByeSentAt(rows: Matches, ids: map<Spot, MatchId>, m: BracketMatch, s: Spot)
    requires DistinctIds(ids) && s in ids && (forall t {:trigger t in ids} :: t in ids ==> ids[t] in rows)
    requires Spot(1, m.position) in ids && m.round == 1
    requires m.next.Some? ==> Spot(2, m.next.value.position) in ids
    ensures var lone := if m.a.Some? then m.a else m.b;
            ids[s] in ByeSent(rows, ids, m) && ByeSent(rows, ids, m)[ids[s]] ==
              if (m.a.Some? && m.b.Some?) || lone.None? || m.next.None? then rows[ids[s]]
              else if s == Spot(1, m.position) then rows[ids[s]].(winner := Some(lone.value.pairId))
              else if s == Spot(2, m.next.value.position)
              then WithPairOn(rows[ids[s]], m.next.value.slot, Some(lone.value.pairId))
              else rows[ids[s]]
  {
    hide WithPairOn;
  }

  lemma ByeSentElsewhere(rows: Matches, ids: map<Spot, MatchId>, m: BracketMatch)
    requires Spot(1, m.position) in ids && (m.next.Some? ==> Spot(2, m.next.value.position) in ids)
    ensures ByeSent(rows, ids, m).Keys == rows.Keys
    ensures forall id :: id in rows && id !in ids.Values ==> ByeSent(rows, ids, m)[id] == rows[id]
  {
    hide WithPairOn;
  }

  lemma SentAt(rows: Matches, ids: map<Spot, MatchId>, draw: seq<Option<Entrant>>, k: nat, n: nat, s: Spot)
    requires |draw| == Pow2(k) && OnBoard(k, 1, n) && OnBoard(k, s.round, s.position) && DistinctIds(ids) && s in ids
    requires forall t {:trigger t in ids} :: t in ids ==> ids[t] in rows
    requires Spot(1, n) in ids && (k > 1 ==> Spot(2, n / 2) in ids)
    requires rows[ids[s]] == MidRow(draw, k, ids, s.round, s.position, n)
    ensures var sent := ByeSent(rows, ids, MatchAt(draw, k, 1, n));
            ids[s] in sent && sent[ids[s]] == MidRow(draw, k, ids, s.round, s.position, n + 1)
  {
    hide MidRow, MatchAt, ByeWinner, Pow2, ByeSent, WithPairOn, DistinctIds;
    ByeOf(draw, k, n);
    MidRowStep(draw, k, ids, s.round, s.position, n);
    ByeSentAt(rows, ids, MatchAt(draw, k, 1, n), s);
  }

  lemma SendOne(base: Matches, rows: Matches, ids: map<Spot, MatchId>, draw: seq<Option<Entrant>>, k: nat, n: nat)
    requires Stored(base, rows, ids, draw, k, n) && OnBoard(k, 1, n) && Spot(1, n) in ids
    ensures Stored(base, ByeSent(rows, ids, MatchAt(draw, k, 1, n)), ids, draw, k, n + 1)
  {
    hide MidRow, MatchAt, ByeWinner, Pow2, ByeSent, WithPairOn, DistinctIds;
    var m := MatchAt(draw, k, 1, n);
    var rows' := ByeSent(rows, ids, m);
    ByeOf(draw, k, n);
    ByeSentElsewhere(rows, ids, m);
    forall id | id in base
      ensures id in rows' && rows'[id] == base[id]
    {
      assert id in rows && id !in ids.Values;
    }
    forall s | s in ids
      ensures ids[s] in rows' && rows'[ids[s]] == MidRow(draw, k, ids, s.round, s.position, n + 1)
    {
      SentAt(rows, ids, draw, k, n, s);
    }
  }

  lemma SentRow(draw: seq<Option<Entrant>>, k: nat, ids: map<Spot, MatchId>, r: nat, p: nat)
    requires k >= 1 && |draw| == Pow2(k) && OnBoard(k, r, p)
    ensures MidRow(draw, k, ids, r, p, Pow2(k - 1)) == FreshRow(draw, k, ids, r, p)
  {
    if r == 2 {
      assert Pow2(k - 1) == 2 * Pow2(k - 2);
    }
    hide ByeWinner, Pow2;
  }

  lemma WholeMap(base: Matches, rows: Matches, made: Matches)
    requires forall id :: id in rows <==> id in base || id in made
    requires forall id :: id in made ==> rows[id] == made[id]
    requires forall id :: id in base && id !in made ==> rows[id] == base[id]
    ensures rows == base + made
  {
  }

  lemma AllNew(base: Matches, ids: map<Spot, MatchId>, k: nat)
    requires Upwards(ids, k) && NewIds(base, ids)
    requires forall r: nat, p: nat {:trigger OnBoard(k, r, p)} :: OnBoard(k, r, p) ==> Spot(r, p) in ids
    ensures FreshIds(base.Keys, k, ids)
    ensures forall s {:trigger s in ids} :: s in ids ==> OnBoard(k, s.round, s.position)
  {
    hide OnBoard, DistinctIds;
  }

  /** All byes sent: the rows are the ones the bracket is created with. */
  lemma AllSent(base: Matches, rows: Matches, ids: map<Spot, MatchId>, draw: seq<Option<Entrant>>, k: nat)
    requires k >= 1 && Stored(base, rows, ids, draw, k, Pow2(k - 1))
    requires forall r: nat, p: nat {:trigger OnBoard(k, r, p)} :: OnBoard(k, r, p) ==> Spot(r, p) in ids
    ensures FreshIds(base.Keys, k, ids) && rows == base + Created(draw, k, ids)
  {
    hide MidRow, FreshRow, OnBoard, Pow2, Upwards, NewIds, FreshIds, DistinctIds, Created;
    AllNew(base, ids, k);
    NewIdsAt(base, ids);
    var made := Created(draw, k, ids);
    forall s | s in ids
      ensures rows[ids[s]] == made[ids[s]]
    {
      SentRow(draw, k, ids, s.round, s.position);
    }
    WholeMap(base, rows, made);
  }

  lemma NewIdsAt(base: Matches, ids: map<Spot, MatchId>)
    requires NewIds(base, ids)
    ensures DistinctIds(ids) && forall s {:trigger s in ids} :: s in ids ==> ids[s] !in base
  {
  }

  // ── The first round comes first in the list the draw returns ────────────────

  /** A prefix of `ms` that holds the first-round matches in order, and nothing of the first round after it. */
  ghost predicate FirstRoundFirst(ms: seq<BracketMatch>, draw: seq<Option<Entrant>>, k: nat) {
    && k >= 1 && |draw| == Pow2(k) && Pow2(k - 1) <= |ms|
    && (forall i :: 0 <= i < Pow2(k - 1) ==> ms[i] == MatchAt(draw, k, 1, i))
    && (forall i :: Pow2(k - 1) <= i < |ms| ==> ms[i].round != 1)
  }

  lemma {:induction false} RoundsStartWithTheFirst(draw: seq<Option<Entrant>>, k: nat, r: nat)
    requires |draw| == Pow2(k) && 1 <= r <= k
    ensures FirstRoundFirst(Rounds(draw, k, r), draw, k)
  {
    if r == 1 {
      assert Rounds(draw, k, 1) == Rounds(draw, k, 0) + RoundOf(draw, k, 1, Pow2(k - 1));
      assert Rounds(draw, k, 0) == [];
    } else {
      RoundsStartWithTheFirst(draw, k, r - 1);
    }
  }

  // ── The loops, step by step ─────────────────────────────────────────────────

  lemma InCreationOrder(bracket: seq<BracketMatch>, todo: seq<BracketMatch>, draw: seq<Option<Entrant>>, k: nat)
    requires Lists(bracket, draw, k, k) && NoSpotTwice(bracket) && todo == SortBy(bracket, FinalFirst)
    ensures Lists(todo, draw, k, k) && NoSpotTwice(todo) && SortedBy(todo, FinalFirst)
  {
    hide Lists, NoSpotTwice, SortBy, FinalFirst, SortedBy;
    FinalFirstOrders(bracket);
    SortByContents(bracket, FinalFirst);
    ReorderedLists(bracket, todo, draw, k);
  }

  lemma NothingStored(base: Matches, todo: seq<BracketMatch>, draw: seq<Option<Entrant>>, k: nat)
    requires |draw| == Pow2(k)
    ensures Placed(map[], todo, 0) && Stored(base, base, map[], draw, k, 0)
  {
  }

  lemma LaidAt(todo: seq<BracketMatch>, draw: seq<Option<Entrant>>, k: nat, i: nat)
    requires Lists(todo, draw, k, k) && i < |todo|
    ensures |draw| == Pow2(k) && OnBoard(k, todo[i].round, todo[i].position)
    ensures todo[i] == MatchAt(draw, k, todo[i].round, todo[i].position)
  {
  }

  lemma AllPlaced(ids: map<Spot, MatchId>, todo: seq<BracketMatch>, draw: seq<Option<Entrant>>, k: nat)
    requires Placed(ids, todo, |todo|) && Lists(todo, draw, k, k)
    ensures forall r: nat, p: nat {:trigger OnBoard(k, r, p)} :: OnBoard(k, r, p) ==> Spot(r, p) in ids
  {
    forall r: nat, p: nat | OnBoard(k, r, p)
      ensures Spot(r, p) in ids
    {
      assert MatchAt(draw, k, r, p) in todo;
      var i :| 0 <= i < |todo| && todo[i] == MatchAt(draw, k, r, p);
      assert SpotOf(todo[i]) == Spot(r, p);
    }
  }

  lemma ListsFit(ms: seq<BracketMatch>, draw: seq<Option<Entrant>>, k: nat)
    requires Lists(ms, draw, k, k)
    ensures |draw| == Pow2(k)
  {
  }

  lemma FirstRoundFits(bracket: seq<BracketMatch>, draw: seq<Option<Entrant>>, k: nat)
    requires FirstRoundFirst(bracket, draw, k)
    ensures k >= 1 && |draw| == Pow2(k) && Pow2(k - 1) <= |bracket|
  {
  }

  lemma FirstRoundAt(bracket: seq<BracketMatch>, draw: seq<Option<Entrant>>, k: nat, i: nat)
    requires FirstRoundFirst(bracket, draw, k) && i < Pow2(k - 1)
    ensures i < |bracket| && |draw| == Pow2(k) && OnBoard(k, 1, i) && bracket[i] == MatchAt(draw, k, 1, i)
            && bracket[i].round == 1
  {
    hide Pow2;
  }

  lemma LaterRoundAt(bracket: seq<BracketMatch>, draw: seq<Option<Entrant>>, k: nat, i: nat)
    requires FirstRoundFirst(bracket, draw, k) && Pow2(k - 1) <= i < |bracket|
    ensures bracket[i].round != 1
  {
    hide Pow2;
  }

  lemma ByeTargets(base: Matches, rows: Matches, ids: map<Spot, MatchId>, draw: seq<Option<Entrant>>, k: nat, n: nat)
    requires Stored(base, rows, ids, draw, k, n) && OnBoard(k, 1, n) && Spot(1, n) in ids
    ensures var m := MatchAt(draw, k, 1, n);
            && Spot(1, m.position) in ids && ids[Spot(1, m.position)] in rows
            && (m.next.Some? ==> Spot(2, m.next.value.position) in ids && ids[Spot(2, m.next.value.position)] in rows)
  {
    ByeOf(draw, k, n);
    hide MatchAt, Pow2, MidRow;
  }

  // ── The table ───────────────────────────────────────────────────────────────

  /** The rows of one category's matches. */
  class CompetitionMatches {
    var rows: Matches
    var nextId: MatchId

    ghost predicate Valid()
      reads this
    {
      forall id :: id in rows ==> id < nextId
    }

    constructor ()
      ensures Valid() && rows == map[]
    {
      rows := map[];
      nextId := 0;
    }

    /** The rows there already are, with the next id to hand out. */
    constructor Of(rows: Matches, nextId: MatchId)
      requires forall id :: id in rows ==> id < nextId
      ensures Valid() && this.rows == rows && this.nextId == nextId
    {
      this.rows := rows;
      this.nextId := nextId;
    }

    method Create(row: Match) returns (id: MatchId)
      requires Valid()
      modifies this
      ensures nextId >= old(nextId)
      ensures Valid() && id !in old(rows) && rows == old(rows)[id := row]
    {
      id := nextId;
      rows := rows[id := row];
      nextId := nextId + 1;
    }

    method Update(id: MatchId, row: Match)
      requires Valid() && id in rows
      modifies this`rows
      ensures Valid() && rows == old(rows)[id := row]
    {
      rows := rows[id := row];
    }

    /** Creates the rows from the final backwards, so that every match knows the id of its next one. */
    method CreateRows(bracket: seq<BracketMatch>, ghost draw: seq<Option<Entrant>>,
                      ghost k: nat) returns (ids: map<Spot, MatchId>)
      requires Valid() && Lists(bracket, draw, k, k) && NoSpotTwice(bracket)
      modifies this
      ensures nextId >= old(nextId)
      ensures Valid() && Stored(old(rows), rows, ids, draw, k, 0)
      ensures forall r: nat, p: nat {:trigger OnBoard(k, r, p)} :: OnBoard(k, r, p) ==> Spot(r, p) in ids
    {
      hide Lists, NoSpotTwice, SortedBy, SortBy, FinalFirst, Placed, Stored, RowOf, MatchAt, OnBoard, Pow2;
      var todo := SortBy(bracket, FinalFirst);
      InCreationOrder(bracket, todo, draw, k);
      ids := map[];
      ghost var base := rows;
      assert |draw| == Pow2(k) by { ListsFit(bracket, draw, k); }
      NothingStored(base, todo, draw, k);
      for i := 0 to |todo|
        invariant nextId >= old(nextId)
        invariant Valid() && Placed(ids, todo, i) && Stored(base, rows, ids, draw, k, 0)
      {
        var m := todo[i];
        LaidAt(todo, draw, k, i);
        SpotIsNew(ids, todo, i);
        NextIsPlaced(ids, todo, draw, k, i);
        ghost var before := rows;
        var id := Create(RowOf(m, ids));
        StoreOne(base, before, ids, draw, k, SpotOf(m), id, RowOf(m, ids));
        PlaceOne(ids, todo, i, id);
        ids := ids[SpotOf(m) := id];
      }
      AllPlaced(ids, todo, draw, k);
    }

    /** First-round matches with nobody on one side are won by the other, who takes its place in the second. */
    method SendByes(bracket: seq<BracketMatch>, ids: map<Spot, MatchId>, ghost base: Matches,
                    ghost draw: seq<Option<Entrant>>, ghost k: nat)
      requires Valid() && FirstRoundFirst(bracket, draw, k) && Stored(base, rows, ids, draw, k, 0)
      requires forall r: nat, p: nat {:trigger OnBoard(k, r, p)} :: OnBoard(k, r, p) ==> Spot(r, p) in ids
      modifies this`rows
      ensures Valid() && FreshIds(base.Keys, k, ids) && rows == base + Created(draw, k, ids)
    {
      hide Stored, MatchAt, Pow2, FreshIds, MidRow, OnBoard, RowOf, FirstRoundFirst, WithPairOn;
      FirstRoundFits(bracket, draw, k);
      ghost var first := Pow2(k - 1);
      for i := 0 to |bracket|
        invariant Valid() && Stored(base, rows, ids, draw, k, if i < first then i else first)
      {
        var m := bracket[i];
        ghost var before := rows;
        if i < first {
          FirstRoundAt(bracket, draw, k, i);
          ByeTargets(base, rows, ids, draw, k, i);
          SendOne(base, rows, ids, draw, k, i);
        } else {
          LaterRoundAt(bracket, draw, k, i);
        }
        if m.round == 1 && (m.a.None? || m.b.None?) {
          var lone := if m.a.Some? then m.a else m.b;
          if lone.Some? && m.next.Some? {
            var own, next := ids[Spot(1, m.position)], ids[Spot(2, m.next.value.position)];
            Update(own, rows[own].(winner := Some(lone.value.pairId)));
            Update(next, WithPairOn(rows[next], m.next.value.slot, Some(lone.value.pairId)));
          }
        }
        assert rows == ByeSent(before, ids, m);
      }
      AllSent(base, rows, ids, draw, k);
    }

    /**
     * Builds the bracket of `entrants` and creates its rows; too few entrants are refused and nothing is written.
     * The rows there were stay as they are.
     */
    method CreateBracket(entrants: seq<Entrant>) returns (r: Result<map<Spot, MatchId>>)
      requires Valid()
      modifies this
      ensures nextId >= old(nextId)
      ensures Valid() && (r.Err? <==> |entrants| < 2)
      ensures r.Err? ==> r.error == BadRequest && rows == old(rows)
      ensures r.Ok? ==> FreshIds(old(rows).Keys, RoundsFor(|entrants|), r.value)
      ensures r.Ok? ==> rows == old(rows) + Created(Drawn(entrants), RoundsFor(|entrants|), r.value)
    {
      hide Rounds, Drawn, Pow2, Lists, NoSpotTwice, FirstRoundFirst, Stored, FreshIds, OnBoard, RoundsFor;
      var built := BuildBracket(entrants);
      if built.Err? {
        return Err(built.error);
      }
      ghost var base, draw, k := rows, Drawn(entrants), RoundsFor(|entrants|);
      RoundsList(draw, k, k);
      RoundsStartWithTheFirst(draw, k, k);
      var ids := CreateRows(built.value, draw, k);
      SendByes(built.value, ids, base, draw, k);
      return Ok(ids);
    }

    /** Loads or clears a result and sets the court and time; a knockout winner moves on. */
    method UpdateMatch(id: MatchId, edit: MatchEdit, format: MatchFormat, zonasLocked: bool, courts: set<CourtId>)
      returns (r: Result<()>)
      requires Valid()
      modifies this`rows
      ensures Valid()
      ensures var spec := Bracket.UpdateMatch(old(rows), id, edit, format, zonasLocked, courts);
              (r.Ok? <==> spec.Ok?) && rows == (if spec.Ok? then spec.value else old(rows))
              && (r.Err? ==> r.error == spec.error)
    {
      hide Evaluated, Pow2, WithPairOn;
      if id !in rows {
        return Err(NotFound);
      }
      var m := rows[id];
      if edit.courtId.Some? && edit.courtId.value.Some? && edit.courtId.value.value !in courts {
        return Err(BadRequest);
      }
      var data := m;
      if edit.courtId.Some? {
        data := data.(courtId := edit.courtId.value);
      }
      if edit.startsAt.Some? {
        data := data.(startsAt := edit.startsAt.value);
      }
      var winner: Option<PairId> := None;
      if edit.sets.Some? {
        if m.stage.GroupStage? && zonasLocked {
          return Err(Conflict);
        }
        if edit.sets.value.Some? {
          if m.pairA.None? || m.pairB.None? {
            return Err(BadRequest);
          }
          var score := EvaluateScore(edit.sets.value.value, format);
          if score.Err? {
            return Err(score.error);
          }
          winner := if score.value == SideA then m.pairA else m.pairB;
        }
        if m.next.Some? && m.next.value in rows && rows[m.next.value].winner.Some? && winner != m.winner {
          return Err(Conflict);
        }
        data := data.(sets := edit.sets.value, winner := winner);
      }
      Update(id, data);
      if edit.sets.Some? && m.next.Some? && m.next.value in rows && m.nextSlot.Some? {
        Update(m.next.value, WithPairOn(rows[m.next.value], m.nextSlot.value, winner));
      }
      return Ok(());
    }
  }
}
