/**
 * The knockout tree as linked matches: its creation from the draw, and results that are loaded,
 * changed and cleared (src/competitions/competitions.service.ts, createBracket and updateMatch).
 */
module Bracket {
  import opened Base
  import opened Score
  import opened Draw

  type MatchId = nat
  type CourtId = string
  type Instant = int

  datatype Stage = GroupStage | KnockoutStage

  datatype Match = Match(
    stage: Stage,
    group: Option<GroupId>,
    round: nat,
    position: nat,
    pairA: Option<PairId>,
    pairB: Option<PairId>,
    placeholderA: Option<string>,
    placeholderB: Option<string>,
    next: Option<MatchId>,
    nextSlot: Option<Side>,
    sets: Option<seq<SetScore>>,
    winner: Option<PairId>,
    courtId: Option<CourtId>,
    startsAt: Option<Instant>)

  /** The matches of one category, by id. */
  type Matches = map<MatchId, Match>

  datatype Spot = Spot(round: nat, position: nat)

  function PairOn(m: Match, side: Side): Option<PairId> {
    match side
    case SideA => m.pairA
    case SideB => m.pairB
  }

  function WithPairOn(m: Match, side: Side, pair: Option<PairId>): Match {
    match side
    case SideA => m.(pairA := pair)
    case SideB => m.(pairB := pair)
  }

  // ── Creation ────────────────────────────────────────────────────────────────

  function PairOf(e: Option<Entrant>): Option<PairId> {
    if e.Some? then Some(e.value.pairId) else None
  }

  function PlaceholderOf(bm: BracketMatch, e: Option<Entrant>): Option<string> {
    if bm.round == 1 then Some(if e.Some? then e.value.shown else "Libre") else None
  }

  /** The row created for a match of the draw, given the ids of the rounds after it. */
  function RowOf(bm: BracketMatch, ids: map<Spot, MatchId>): Match {
    Match(KnockoutStage, None, bm.round, bm.position, PairOf(bm.a), PairOf(bm.b),
          PlaceholderOf(bm, bm.a), PlaceholderOf(bm, bm.b),
          if bm.next.Some? && Spot(bm.round + 1, bm.next.value.position) in ids
          then Some(ids[Spot(bm.round + 1, bm.next.value.position)]) else None,
          if bm.next.Some? then Some(bm.next.value.slot) else None,
          None, None, None, None)
  }

  predicate OnBoard(k: nat, r: nat, p: nat) {
    1 <= r <= k && p < Pow2(k - r)
  }

  /** Nobody to play against in the first round: the winner is known before any game. */
  function ByeWinner(draw: seq<Option<Entrant>>, k: nat, p: nat): Option<PairId>
    requires |draw| == Pow2(k) && OnBoard(k, 1, p)
  {
    if k == 1 || (draw[2 * p].Some? && draw[2 * p + 1].Some?) then None
    else if draw[2 * p].Some? then PairOf(draw[2 * p])
    else PairOf(draw[2 * p + 1])
  }

  function ByeAdvance(draw: seq<Option<Entrant>>, k: nat, r: nat, p: nat, side: Side): Option<PairId>
    requires |draw| == Pow2(k) && OnBoard(k, r, p)
  {
    if r == 2 then ByeWinner(draw, k, if side == SideA then 2 * p else 2 * p + 1) else None
  }

  /** The row at a spot once the byes have been sent on. */
  function FreshRow(draw: seq<Option<Entrant>>, k: nat, ids: map<Spot, MatchId>, r: nat, p: nat): Match
    requires |draw| == Pow2(k) && OnBoard(k, r, p)
  {
    var row := RowOf(MatchAt(draw, k, r, p), ids);
    if r == 1 then row.(winner := ByeWinner(draw, k, p))
    else row.(pairA := ByeAdvance(draw, k, r, p, SideA), pairB := ByeAdvance(draw, k, r, p, SideB))
  }

  // ── The shape of a drawn bracket ────────────────────────────────────────────

  function IdAt(ids: map<Spot, MatchId>, r: nat, p: nat): MatchId {
    if Spot(r, p) in ids then ids[Spot(r, p)] else 0
  }

  function SlotSide(p: nat): Side {
    if p % 2 == 0 then SideA else SideB
  }

  /** Where a match stands and where its winner goes: what no update changes. */
  predicate Linked(m: Match, k: nat, ids: map<Spot, MatchId>, r: nat, p: nat) {
    && m.stage.KnockoutStage? && m.round == r && m.position == p
    && m.next == (if r < k then Some(IdAt(ids, r + 1, p / 2)) else None)
    && m.nextSlot == (if r < k then Some(SlotSide(p)) else None)
  }

  /** Exactly one match at every spot of the board, each linked to the one its winner plays next. */
  ghost predicate Wired(ms: Matches, k: nat, ids: map<Spot, MatchId>) {
    && k >= 1
    && (forall r: nat, p: nat {:trigger OnBoard(k, r, p)} :: OnBoard(k, r, p) ==>
          IdAt(ids, r, p) in ms && Linked(ms[IdAt(ids, r, p)], k, ids, r, p))
    && (forall id {:trigger ms[id]} :: id in ms ==>
          if ms[id].stage.KnockoutStage?
          then OnBoard(k, ms[id].round, ms[id].position) && IdAt(ids, ms[id].round, ms[id].position) == id
          else ms[id].next.None?)
  }

  /** Who won, and who stands on each side of, the match at a spot. */
  function WinnerAt(ms: Matches, ids: map<Spot, MatchId>, r: nat, p: nat): Option<PairId> {
    if IdAt(ids, r, p) in ms then ms[IdAt(ids, r, p)].winner else None
  }

  function PairAt(ms: Matches, ids: map<Spot, MatchId>, r: nat, p: nat, side: Side): Option<PairId> {
    if IdAt(ids, r, p) in ms then PairOn(ms[IdAt(ids, r, p)], side) else None
  }

  // ── What every reachable bracket satisfies ──────────────────────────────────

  /** The winner is one of the two pairs, and past the first round nobody wins alone. */
  predicate SoundWinner(m: Match) {
    m.winner.Some? ==> (m.winner == m.pairA || m.winner == m.pairB)
                       && (m.round >= 2 ==> m.pairA.Some? && m.pairB.Some?)
  }

  /** A loaded result is a finished match of the event's format, won by the recorded winner. */
  predicate SoundResult(m: Match, format: MatchFormat) {
    m.sets.Some? ==>
      && m.pairA.Some? && m.pairB.Some?
      && Evaluated(m.sets.value, format).Ok?
      && m.winner == PairOn(m, Evaluated(m.sets.value, format).value)
  }

  /** The position, one round earlier, that feeds a side. */
  function Feeder(p: nat, side: Side): nat {
    if side == SideA then 2 * p else 2 * p + 1
  }

  /** The pair that must stand on a side: drawn there, or the current winner of the match that feeds it. */
  function Due(ms: Matches, ids: map<Spot, MatchId>, draw: seq<Option<Entrant>>, r: nat, p: nat,
               side: Side): Option<PairId> {
    var q := Feeder(p, side);
    if r >= 2 then WinnerAt(ms, ids, r - 1, q)
    else if q < |draw| then PairOf(draw[q])
    else None
  }

  ghost predicate Fed(ms: Matches, k: nat, ids: map<Spot, MatchId>, draw: seq<Option<Entrant>>) {
    forall r: nat, p: nat, side: Side {:trigger PairAt(ms, ids, r, p, side)} :: OnBoard(k, r, p) ==>
      PairAt(ms, ids, r, p, side) == Due(ms, ids, draw, r, p, side)
  }

  ghost predicate SoundWinners(ms: Matches) {
    forall id :: id in ms && ms[id].stage.KnockoutStage? ==> SoundWinner(ms[id])
  }

  ghost predicate Progress(ms: Matches, k: nat, ids: map<Spot, MatchId>, draw: seq<Option<Entrant>>) {
    Wired(ms, k, ids) && |draw| == Pow2(k) && Fed(ms, k, ids, draw) && SoundWinners(ms)
  }

  lemma FeedersOnBoard(k: nat, r: nat, p: nat)
    requires OnBoard(k, r, p) && r >= 2
    ensures OnBoard(k, r - 1, 2 * p) && OnBoard(k, r - 1, 2 * p + 1)
  {
    assert Pow2(k - (r - 1)) == 2 * Pow2(k - r);
  }

  lemma NextOnBoard(k: nat, r: nat, p: nat)
    requires OnBoard(k, r, p) && r < k
    ensures OnBoard(k, r + 1, p / 2)
  {
    assert Pow2(k - r) == 2 * Pow2(k - (r + 1));
  }

  ghost predicate SoundResults(ms: Matches, format: MatchFormat) {
    forall id :: id in ms ==> SoundResult(ms[id], format)
  }

  // ── Updating a match ────────────────────────────────────────────────────────

  /** A field left out of the request is None; Some(None) clears it. */
  datatype MatchEdit = MatchEdit(
    courtId: Option<Option<CourtId>>,
    startsAt: Option<Option<Instant>>,
    sets: Option<Option<seq<SetScore>>>)

  function Planned(m: Match, edit: MatchEdit): Match {
    m.(courtId := if edit.courtId.Some? then edit.courtId.value else m.courtId,
       startsAt := if edit.startsAt.Some? then edit.startsAt.value else m.startsAt)
  }

  /** Who wins with these sets; clearing them leaves nobody. */
  function NewWinner(m: Match, sets: Option<seq<SetScore>>, format: MatchFormat): Result<Option<PairId>> {
    if sets.None? then Ok(None)
    else if m.pairA.None? || m.pairB.None? then Err(BadRequest)
    else match Evaluated(sets.value, format)
      case Err(e) => Err(e)
      case Ok(side) => Ok(PairOn(m, side))
  }

  predicate NextDecided(ms: Matches, m: Match) {
    m.next.Some? && m.next.value in ms && ms[m.next.value].winner.Some?
  }

  /** Writes the winner on the side of the next match it feeds. */
  function PassedOn(ms: Matches, m: Match, winner: Option<PairId>): Matches {
    if m.next.Some? && m.next.value in ms && m.nextSlot.Some?
    then ms[m.next.value := WithPairOn(ms[m.next.value], m.nextSlot.value, winner)]
    else ms
  }

  function UpdateMatch(ms: Matches, id: MatchId, edit: MatchEdit, format: MatchFormat, zonasLocked: bool,
                       courts: set<CourtId>): Result<Matches>
  {
    if id !in ms then Err(NotFound)
    else if edit.courtId.Some? && edit.courtId.value.Some? && edit.courtId.value.value !in courts then Err(BadRequest)
    else
      var m := ms[id];
      if edit.sets.None? then Ok(ms[id := Planned(m, edit)])
      else if m.stage.GroupStage? && zonasLocked then Err(Conflict)
      else match NewWinner(m, edit.sets.value, format)
        case Err(e) => Err(e)
        case Ok(winner) =>
          if NextDecided(ms, m) && winner != m.winner then Err(Conflict)
          else Ok(PassedOn(ms[id := Planned(m, edit).(sets := edit.sets.value, winner := winner)], m, winner))
  }

  // ── Every update keeps the bracket sound ────────────────────────────────────

  predicate SamePlace(m: Match, n: Match) {
    n.stage == m.stage && n.round == m.round && n.position == m.position && n.next == m.next && n.nextSlot == m.nextSlot
  }

  ghost predicate SamePlaces(ms: Matches, after: Matches) {
    after.Keys == ms.Keys && (forall id :: id in ms ==> SamePlace(ms[id], after[id]))
  }

  lemma SamePlacesKeepWiring(ms: Matches, after: Matches, k: nat, ids: map<Spot, MatchId>)
    requires Wired(ms, k, ids) && SamePlaces(ms, after)
    ensures Wired(after, k, ids)
  {
    forall r: nat, p: nat | OnBoard(k, r, p)
      ensures IdAt(ids, r, p) in after && Linked(after[IdAt(ids, r, p)], k, ids, r, p)
    {
      assert Linked(ms[IdAt(ids, r, p)], k, ids, r, p);
      assert SamePlace(ms[IdAt(ids, r, p)], after[IdAt(ids, r, p)]);
    }
    forall id | id in after
      ensures if after[id].stage.KnockoutStage?
              then OnBoard(k, after[id].round, after[id].position)
                   && IdAt(ids, after[id].round, after[id].position) == id
              else after[id].next.None?
    {
      assert SamePlace(ms[id], after[id]);
    }
  }

  lemma UpdateKeepsPlaces(ms: Matches, id: MatchId, edit: MatchEdit, format: MatchFormat, zonasLocked: bool,
                          courts: set<CourtId>)
    requires UpdateMatch(ms, id, edit, format, zonasLocked, courts).Ok?
    ensures SamePlaces(ms, UpdateMatch(ms, id, edit, format, zonasLocked, courts).value)
  {
    hide Evaluated;
  }

  /** `n` is the match at (r, p) with a new result, its pairs and place as they were. */
  ghost predicate Rewrites(ms: Matches, k: nat, ids: map<Spot, MatchId>, r: nat, p: nat, n: Match) {
    Wired(ms, k, ids) && OnBoard(k, r, p) &&
    var m := ms[IdAt(ids, r, p)];
    SamePlace(m, n) && n.pairA == m.pairA && n.pairB == m.pairB
  }

  function WithResult(ms: Matches, ids: map<Spot, MatchId>, r: nat, p: nat, n: Match): Matches {
    PassedOn(ms[IdAt(ids, r, p) := n], n, n.winner)
  }

  lemma SpotsDiffer(ms: Matches, k: nat, ids: map<Spot, MatchId>, r: nat, p: nat, r': nat, p': nat)
    requires Wired(ms, k, ids) && OnBoard(k, r, p) && OnBoard(k, r', p') && (r != r' || p != p')
    ensures IdAt(ids, r, p) != IdAt(ids, r', p')
  {
    assert Linked(ms[IdAt(ids, r, p)], k, ids, r, p);
  }

  /** A new result changes the winner at its own spot and nowhere else. */
  lemma WinnerAfter(ms: Matches, k: nat, ids: map<Spot, MatchId>, r: nat, p: nat, n: Match, r': nat, p': nat)
    requires Rewrites(ms, k, ids, r, p, n) && OnBoard(k, r', p')
    ensures WinnerAt(WithResult(ms, ids, r, p, n), ids, r', p') ==
            if r' == r && p' == p then n.winner else WinnerAt(ms, ids, r', p')
  {
    assert Linked(ms[IdAt(ids, r, p)], k, ids, r, p);
    assert IdAt(ids, r', p') in ms;
    if r' != r || p' != p {
      SpotsDiffer(ms, k, ids, r, p, r', p');
    }
    if r < k {
      NextOnBoard(k, r, p);
      SpotsDiffer(ms, k, ids, r, p, r + 1, p / 2);
    }
    hide Wired, OnBoard, IdAt;
  }

  /** It changes the pair on the side it feeds of the next match and no other. */
  lemma PairAfter(ms: Matches, k: nat, ids: map<Spot, MatchId>, r: nat, p: nat, n: Match, r': nat, p': nat, side: Side)
    requires Rewrites(ms, k, ids, r, p, n) && OnBoard(k, r', p')
    ensures PairAt(WithResult(ms, ids, r, p, n), ids, r', p', side) ==
            if r' == r + 1 && p' == p / 2 && side == SlotSide(p) then n.winner else PairAt(ms, ids, r', p', side)
  {
    assert Linked(ms[IdAt(ids, r, p)], k, ids, r, p);
    assert IdAt(ids, r', p') in ms && IdAt(ids, r, p) in ms;
    assert r' <= k by { assert OnBoard(k, r', p'); }
    if r' != r || p' != p {
      SpotsDiffer(ms, k, ids, r, p, r', p');
    }
    if r < k {
      NextOnBoard(k, r, p);
      SpotsDiffer(ms, k, ids, r, p, r + 1, p / 2);
      assert IdAt(ids, r + 1, p / 2) in ms;
      if r' != r + 1 || p' != p / 2 {
        SpotsDiffer(ms, k, ids, r + 1, p / 2, r', p');
      }
    }
    hide Wired, OnBoard, IdAt;
  }

  lemma ResultKeepsFed(ms: Matches, k: nat, ids: map<Spot, MatchId>, draw: seq<Option<Entrant>>, r: nat, p: nat,
                       n: Match)
    requires Fed(ms, k, ids, draw) && Rewrites(ms, k, ids, r, p, n)
    ensures Fed(WithResult(ms, ids, r, p, n), k, ids, draw)
  {
    var after := WithResult(ms, ids, r, p, n);
    forall r': nat, p': nat, side: Side | OnBoard(k, r', p')
      ensures PairAt(after, ids, r', p', side) == Due(after, ids, draw, r', p', side)
    {
      assert PairAt(ms, ids, r', p', side) == Due(ms, ids, draw, r', p', side);
      PairAfter(ms, k, ids, r, p, n, r', p', side);
      if r' >= 2 {
        FeedersOnBoard(k, r', p');
        WinnerAfter(ms, k, ids, r, p, n, r' - 1, Feeder(p', side));
      }
      hide WithResult, PairAt, WinnerAt, Rewrites, OnBoard, Fed;
    }
  }

  /** The next match may only be rewritten while it has no winner, so its own result stays sound. */
  lemma ResultKeepsWinners(ms: Matches, k: nat, ids: map<Spot, MatchId>, draw: seq<Option<Entrant>>, r: nat, p: nat,
                           n: Match)
    requires Progress(ms, k, ids, draw) && Rewrites(ms, k, ids, r, p, n) && SoundWinner(n)
    requires NextDecided(ms, n) ==> n.winner == ms[IdAt(ids, r, p)].winner
    ensures SoundWinners(WithResult(ms, ids, r, p, n))
  {
    var m := ms[IdAt(ids, r, p)];
    assert Linked(m, k, ids, r, p);
    if r < k {
      NextOnBoard(k, r, p);
      FedSide(ms, k, ids, draw, r, p);
    }
    hide Wired, Fed, OnBoard, IdAt;
  }

  /** The slot a match feeds holds its winner. */
  lemma FedSide(ms: Matches, k: nat, ids: map<Spot, MatchId>, draw: seq<Option<Entrant>>, r: nat, p: nat)
    requires Wired(ms, k, ids) && Fed(ms, k, ids, draw) && OnBoard(k, r, p) && r < k
    ensures IdAt(ids, r + 1, p / 2) in ms
    ensures PairOn(ms[IdAt(ids, r + 1, p / 2)], SlotSide(p)) == ms[IdAt(ids, r, p)].winner
  {
    NextOnBoard(k, r, p);
    assert PairAt(ms, ids, r + 1, p / 2, SlotSide(p)) == Due(ms, ids, draw, r + 1, p / 2, SlotSide(p));
    assert p == if SlotSide(p) == SideA then 2 * (p / 2) else 2 * (p / 2) + 1;
    assert IdAt(ids, r, p) in ms;
  }

  lemma ResultKeepsResults(ms: Matches, k: nat, ids: map<Spot, MatchId>, draw: seq<Option<Entrant>>, r: nat, p: nat,
                           n: Match, format: MatchFormat)
    requires Progress(ms, k, ids, draw) && SoundResults(ms, format) && Rewrites(ms, k, ids, r, p, n)
             && SoundResult(n, format)
    requires NextDecided(ms, n) ==> n.winner == ms[IdAt(ids, r, p)].winner
    ensures SoundResults(WithResult(ms, ids, r, p, n), format)
  {
    assert Linked(ms[IdAt(ids, r, p)], k, ids, r, p);
    if r < k {
      NextOnBoard(k, r, p);
      FedSide(ms, k, ids, draw, r, p);
    }
    hide Wired, Fed, OnBoard, IdAt, Evaluated;
  }

  lemma PlanKeeps(ms: Matches, k: nat, ids: map<Spot, MatchId>, draw: seq<Option<Entrant>>, format: MatchFormat,
                  id: MatchId, n: Match)
    requires Progress(ms, k, ids, draw) && SoundResults(ms, format) && id in ms && SamePlace(ms[id], n)
    requires n.pairA == ms[id].pairA && n.pairB == ms[id].pairB && SoundResult(n, format)
    requires n.stage.KnockoutStage? ==> n.winner == ms[id].winner
    ensures Progress(ms[id := n], k, ids, draw) && SoundResults(ms[id := n], format)
  {
    var after := ms[id := n];
    SamePlacesKeepWiring(ms, after, k, ids);
    forall r: nat, p: nat, side: Side | OnBoard(k, r, p)
      ensures PairAt(after, ids, r, p, side) == Due(after, ids, draw, r, p, side)
    {
      assert PairAt(ms, ids, r, p, side) == Due(ms, ids, draw, r, p, side);
      assert Linked(ms[IdAt(ids, r, p)], k, ids, r, p);
      if r >= 2 {
        FeedersOnBoard(k, r, p);
        assert Linked(ms[IdAt(ids, r - 1, 2 * p)], k, ids, r - 1, 2 * p);
        assert Linked(ms[IdAt(ids, r - 1, 2 * p + 1)], k, ids, r - 1, 2 * p + 1);
      }
      hide Wired, OnBoard, IdAt, Fed;
    }
    hide Wired, Fed, OnBoard, IdAt, Evaluated;
  }

  lemma {:induction false} UpdateKeeps(ms: Matches, id: MatchId, edit: MatchEdit, format: MatchFormat,
                                       zonasLocked: bool, courts: set<CourtId>, k: nat, ids: map<Spot, MatchId>,
                                       draw: seq<Option<Entrant>>)
    requires Progress(ms, k, ids, draw) && SoundResults(ms, format)
    requires UpdateMatch(ms, id, edit, format, zonasLocked, courts).Ok?
    ensures var after := UpdateMatch(ms, id, edit, format, zonasLocked, courts).value;
            Progress(after, k, ids, draw) && SoundResults(after, format)
  {
    var m := ms[id];
    if edit.sets.None? {
      PlanKeeps(ms, k, ids, draw, format, id, Planned(m, edit));
    } else {
      var winner := NewWinner(m, edit.sets.value, format).value;
      var n := Planned(m, edit).(sets := edit.sets.value, winner := winner);
      if m.stage.GroupStage? {
        PlanKeeps(ms, k, ids, draw, format, id, n);
      } else {
        var r, p := m.round, m.position;
        assert SoundWinner(n);
        assert SoundResult(n, format);
        UpdateKeepsPlaces(ms, id, edit, format, zonasLocked, courts);
        var after := WithResult(ms, ids, r, p, n);
        SamePlacesKeepWiring(ms, after, k, ids);
        ResultKeepsFed(ms, k, ids, draw, r, p, n);
        ResultKeepsWinners(ms, k, ids, draw, r, p, n);
        ResultKeepsResults(ms, k, ids, draw, r, p, n, format);
      }
    }
  }

  // ── Runs ────────────────────────────────────────────────────────────────────

  /** What happens to a drawn category while it is played. */
  datatype Change =
    | Update(id: MatchId, edit: MatchEdit, zonasLocked: bool, courts: set<CourtId>)
    | SetFormat(format: MatchFormat)

  datatype Play = Play(matches: Matches, format: MatchFormat)

  predicate AnyPlayed(ms: Matches) {
    exists id :: id in ms && ms[id].winner.Some? && ms[id].sets.Some?
  }

  /** A refused call changes nothing. */
  function After(play: Play, e: Change): Play {
    match e
    case Update(id, edit, zonasLocked, courts) =>
      var r := UpdateMatch(play.matches, id, edit, play.format, zonasLocked, courts);
      if r.Ok? then play.(matches := r.value) else play
    case SetFormat(format) =>
      if format != play.format && AnyPlayed(play.matches) then play else play.(format := format)
  }

  function Played(play: Play, events: seq<Change>): Play {
    if events == [] then play else After(Played(play, events[..|events| - 1]), events[|events| - 1])
  }

  /** Bracket progress, and every loaded result a finished match of the event's current format. */
  ghost predicate Sound(play: Play, k: nat, ids: map<Spot, MatchId>, draw: seq<Option<Entrant>>) {
    Progress(play.matches, k, ids, draw) && SoundResults(play.matches, play.format)
  }

  lemma {:induction false} PlayKeeps(play: Play, events: seq<Change>, k: nat, ids: map<Spot, MatchId>,
                                     draw: seq<Option<Entrant>>)
    requires Sound(play, k, ids, draw)
    ensures Sound(Played(play, events), k, ids, draw)
  {
    if events != [] {
      var before, e := Played(play, events[..|events| - 1]), events[|events| - 1];
      PlayKeeps(play, events[..|events| - 1], k, ids, draw);
      match e
      case Update(id, edit, zonasLocked, courts) =>
        if UpdateMatch(before.matches, id, edit, before.format, zonasLocked, courts).Ok? {
          UpdateKeeps(before.matches, id, edit, before.format, zonasLocked, courts, k, ids, draw);
        }
        hide Progress, SoundResults, UpdateMatch;
      case SetFormat(format) => FormatKeeps(before, format);
        hide Progress, SoundResults;
    }
  }

  /** The format only changes while no result is loaded, so no result is left judged by another one. */
  lemma FormatKeeps(play: Play, format: MatchFormat)
    requires SoundResults(play.matches, play.format)
    ensures SoundResults(After(play, SetFormat(format)).matches, After(play, SetFormat(format)).format)
  {
    if format != play.format && !AnyPlayed(play.matches) {
      forall id | id in play.matches
        ensures SoundResult(play.matches[id], format)
      {
        assert SoundResult(play.matches[id], play.format);
      }
    }
  }

  // ── What a bracket means ────────────────────────────────────────────────────

  /** Entry `e` of the draw won every match on its way through round `r`. */
  ghost predicate WonThrough(ms: Matches, ids: map<Spot, MatchId>, draw: seq<Option<Entrant>>, e: nat, r: nat) {
    e < |draw| && draw[e].Some? && forall q: nat :: 1 <= q <= r ==> WinnerAt(ms, ids, q, Up(e, q)) == PairOf(draw[e])
  }

  /** Entry `e` stands on this side of match (r, p), having won its way there inside that side's subtree. */
  ghost predicate Reached(ms: Matches, ids: map<Spot, MatchId>, draw: seq<Option<Entrant>>, e: nat, r: nat, p: nat,
                          side: Side) {
    && r >= 1
    && WonThrough(ms, ids, draw, e, r - 1)
    && Up(e, r - 1) == Feeder(p, side)
    && PairAt(ms, ids, r, p, side) == PairOf(draw[e])
  }

  /** Whoever stands in a match came from a first-round entry of that slot's own subtree. */
  lemma {:induction false} PairCameUp(ms: Matches, k: nat, ids: map<Spot, MatchId>, draw: seq<Option<Entrant>>,
                                      r: nat, p: nat, side: Side)
    returns (e: nat)
    requires Progress(ms, k, ids, draw) && OnBoard(k, r, p) && PairAt(ms, ids, r, p, side).Some?
    ensures Reached(ms, ids, draw, e, r, p, side)
    decreases r, 0
  {
    var q := Feeder(p, side);
    assert PairAt(ms, ids, r, p, side) == Due(ms, ids, draw, r, p, side);
    if r == 1 {
      e := q;
    } else {
      FeedersOnBoard(k, r, p);
      e := WinnerCameUp(ms, k, ids, draw, r - 1, q);
    }
  }

  lemma {:induction false} WinnerCameUp(ms: Matches, k: nat, ids: map<Spot, MatchId>, draw: seq<Option<Entrant>>,
                                        r: nat, p: nat)
    returns (e: nat)
    requires Progress(ms, k, ids, draw) && OnBoard(k, r, p) && WinnerAt(ms, ids, r, p).Some?
    ensures WonThrough(ms, ids, draw, e, r) && Up(e, r) == p
    ensures WinnerAt(ms, ids, r, p) == PairOf(draw[e])
    decreases r, 1
  {
    var m := ms[IdAt(ids, r, p)];
    assert Linked(m, k, ids, r, p) && SoundWinner(m);
    var side := if m.winner == m.pairA then SideA else SideB;
    assert PairAt(ms, ids, r, p, side) == m.winner;
    e := PairCameUp(ms, k, ids, draw, r, p, side);
    hide Progress, OnBoard;
  }

  /** The two pairs of a match are different pairs, out of disjoint halves of its subtree. */
  lemma PairsDiffer(ms: Matches, k: nat, ids: map<Spot, MatchId>, draw: seq<Option<Entrant>>, r: nat, p: nat)
    requires Progress(ms, k, ids, draw) && DistinctDraw(draw) && OnBoard(k, r, p)
    requires PairAt(ms, ids, r, p, SideA).Some? && PairAt(ms, ids, r, p, SideB).Some?
    ensures PairAt(ms, ids, r, p, SideA) != PairAt(ms, ids, r, p, SideB)
    ensures exists d, e :: Reached(ms, ids, draw, d, r, p, SideA) && Reached(ms, ids, draw, e, r, p, SideB) && d != e
  {
    var d := PairCameUp(ms, k, ids, draw, r, p, SideA);
    var e := PairCameUp(ms, k, ids, draw, r, p, SideB);
    assert d != e by {
      assert Up(d, r - 1) == 2 * p && Up(e, r - 1) == 2 * p + 1;
    }
  }

  function Champion(ms: Matches, k: nat, ids: map<Spot, MatchId>): Option<PairId> {
    WinnerAt(ms, ids, k, 0)
  }

  /** A champion won one match of every round, from its place in the draw up to the final. */
  lemma ChampionWonEveryRound(ms: Matches, k: nat, ids: map<Spot, MatchId>, draw: seq<Option<Entrant>>) returns (e: nat)
    requires Progress(ms, k, ids, draw) && Champion(ms, k, ids).Some?
    ensures WonThrough(ms, ids, draw, e, k) && Champion(ms, k, ids) == PairOf(draw[e])
    ensures DistinctDraw(draw) ==> forall d :: WonThrough(ms, ids, draw, d, k) ==> d == e
  {
    assert OnBoard(k, k, 0);
    e := WinnerCameUp(ms, k, ids, draw, k, 0);
    forall d: nat | DistinctDraw(draw) && WonThrough(ms, ids, draw, d, k)
      ensures d == e
    {
      UpBelow(d, k, k);
      assert WinnerAt(ms, ids, k, Up(d, k)) == PairOf(draw[d]);
    }
  }

  /** Nobody is champion while any match of the bracket is undecided. */
  lemma {:induction false} ChampionMeansAllDecided(ms: Matches, k: nat, ids: map<Spot, MatchId>,
                                                   draw: seq<Option<Entrant>>, r: nat, p: nat)
    requires Progress(ms, k, ids, draw) && Champion(ms, k, ids).Some? && OnBoard(k, r, p)
    ensures WinnerAt(ms, ids, r, p).Some?
    decreases k - r
  {
    if r < k {
      NextOnBoard(k, r, p);
      ChampionMeansAllDecided(ms, k, ids, draw, r + 1, p / 2);
      FedSide(ms, k, ids, draw, r, p);
      var next := ms[IdAt(ids, r + 1, p / 2)];
      assert Linked(next, k, ids, r + 1, p / 2) && SoundWinner(next);
    }
  }

  // ── Byes ────────────────────────────────────────────────────────────────────

  /** First-round match `p` lacks an entrant: it can never be played. */
  predicate IsBye(draw: seq<Option<Entrant>>, p: nat) {
    2 * p + 1 < |draw| && (draw[2 * p].None? || draw[2 * p + 1].None?)
  }

  /** No bye has had its winner cleared. */
  ghost predicate ByesHeld(ms: Matches, k: nat, ids: map<Spot, MatchId>, draw: seq<Option<Entrant>>) {
    forall p: nat {:trigger IsBye(draw, p)} :: OnBoard(k, 1, p) && IsBye(draw, p) ==> WinnerAt(ms, ids, 1, p).Some?
  }

  lemma ClearedByeStays(play: Play, e: Change, k: nat, ids: map<Spot, MatchId>, draw: seq<Option<Entrant>>, p: nat)
    requires Sound(play, k, ids, draw) && OnBoard(k, 1, p) && IsBye(draw, p) && WinnerAt(play.matches, ids, 1, p).None?
    ensures WinnerAt(After(play, e).matches, ids, 1, p).None?
  {
    var ms := play.matches;
    var m := ms[IdAt(ids, 1, p)];
    assert Linked(m, k, ids, 1, p);
    assert PairAt(ms, ids, 1, p, SideA) == Due(ms, ids, draw, 1, p, SideA);
    assert PairAt(ms, ids, 1, p, SideB) == Due(ms, ids, draw, 1, p, SideB);
    match e
    case SetFormat(_) =>
    case Update(id, edit, zonasLocked, courts) =>
      if UpdateMatch(ms, id, edit, play.format, zonasLocked, courts).Ok? && edit.sets.Some?
         && ms[id].stage.KnockoutStage? {
        var winner := NewWinner(ms[id], edit.sets.value, play.format).value;
        var n := Planned(ms[id], edit).(sets := edit.sets.value, winner := winner);
        WinnerAfter(ms, k, ids, ms[id].round, ms[id].position, n, 1, p);
      }
  }

  lemma {:induction false} ClearedByeStaysCleared(play: Play, events: seq<Change>, k: nat, ids: map<Spot, MatchId>,
                                                  draw: seq<Option<Entrant>>, p: nat)
    requires Sound(play, k, ids, draw) && OnBoard(k, 1, p) && IsBye(draw, p) && WinnerAt(play.matches, ids, 1, p).None?
    ensures WinnerAt(Played(play, events).matches, ids, 1, p).None?
  {
    if events != [] {
      var fewer := events[..|events| - 1];
      ClearedByeStaysCleared(play, fewer, k, ids, draw, p);
      PlayKeeps(play, fewer, k, ids, draw);
      ClearedByeStays(Played(play, fewer), events[|events| - 1], k, ids, draw, p);
    }
  }

  lemma {:induction false} PlayedOn(play: Play, first: seq<Change>, rest: seq<Change>)
    ensures Played(play, first + rest) == Played(Played(play, first), rest)
  {
    if rest == [] {
      assert first + rest == first;
    } else {
      var n := |rest| - 1;
      PlayedOn(play, first, rest[..n]);
      assert (first + rest)[..|first + rest| - 1] == first + rest[..n];
    }
  }

  /** Every match before (r, p), round by round, has a winner. */
  ghost predicate DecidedBefore(ms: Matches, k: nat, ids: map<Spot, MatchId>, r: nat, p: nat) {
    forall r': nat, p': nat {:trigger OnBoard(k, r', p')} :: OnBoard(k, r', p') && (r' < r || (r' == r && p' < p)) ==>
      WinnerAt(ms, ids, r', p').Some?
  }

  function StraightSets(format: MatchFormat): seq<SetScore> {
    match format
    case OneSet => [SetScore(6, 0)]
    case BestOfThree => [SetScore(6, 0), SetScore(6, 0)]
  }

  lemma StraightSetsWin(format: MatchFormat)
    ensures Evaluated(StraightSets(format), format) == Ok(SideA)
  {
    SetsWonShort(StraightSets(format), SideA);
  }

  /** The first pair wins in straight sets; `locked` says whether the zonas are closed. */
  function LoadWin(id: MatchId, format: MatchFormat, locked: bool): Change {
    Update(id, MatchEdit(None, None, Some(Some(StraightSets(format)))), locked, {})
  }

  function ClearResult(id: MatchId, locked: bool): Change {
    Update(id, MatchEdit(None, None, Some(None)), locked, {})
  }

  /** Updates alone, all with the zonas as closed as they are. */
  predicate Loads(events: seq<Change>, locked: bool) {
    forall i :: 0 <= i < |events| ==> events[i].Update? && events[i].zonasLocked == locked
  }

  /** With everything before it decided, an undecided match has both its pairs, or is a bye. */
  lemma ReadyToPlay(play: Play, k: nat, ids: map<Spot, MatchId>, draw: seq<Option<Entrant>>, r: nat, p: nat)
    requires Sound(play, k, ids, draw) && ByesHeld(play.matches, k, ids, draw) && OnBoard(k, r, p)
    requires DecidedBefore(play.matches, k, ids, r, p) && WinnerAt(play.matches, ids, r, p).None?
    ensures PairAt(play.matches, ids, r, p, SideA).Some? && PairAt(play.matches, ids, r, p, SideB).Some?
    ensures !NextDecided(play.matches, play.matches[IdAt(ids, r, p)])
  {
    var ms := play.matches;
    assert PairAt(ms, ids, r, p, SideA) == Due(ms, ids, draw, r, p, SideA);
    assert PairAt(ms, ids, r, p, SideB) == Due(ms, ids, draw, r, p, SideB);
    assert Linked(ms[IdAt(ids, r, p)], k, ids, r, p);
    if r >= 2 {
      FeedersOnBoard(k, r, p);
    } else {
      assert Pow2(k) == 2 * Pow2(k - 1);
      assert !IsBye(draw, p);
    }
    if r < k {
      NextOnBoard(k, r, p);
      FedSide(ms, k, ids, draw, r, p);
      var next := ms[IdAt(ids, r + 1, p / 2)];
      assert Linked(next, k, ids, r + 1, p / 2) && SoundWinner(next);
    }
  }

  lemma PlayOne(play: Play, k: nat, ids: map<Spot, MatchId>, draw: seq<Option<Entrant>>, r: nat, p: nat, locked: bool)
    requires Sound(play, k, ids, draw) && ByesHeld(play.matches, k, ids, draw) && OnBoard(k, r, p)
    requires DecidedBefore(play.matches, k, ids, r, p) && WinnerAt(play.matches, ids, r, p).None?
    ensures var after := After(play, LoadWin(IdAt(ids, r, p), play.format, locked));
      && Sound(after, k, ids, draw) && ByesHeld(after.matches, k, ids, draw)
      && DecidedBefore(after.matches, k, ids, r, p + 1)
  {
    var ms, id := play.matches, IdAt(ids, r, p);
    ReadyToPlay(play, k, ids, draw, r, p);
    StraightSetsWin(play.format);
    var m := ms[id];
    assert Linked(m, k, ids, r, p);
    var n := m.(sets := Some(StraightSets(play.format)), winner := m.pairA);
    assert PairAt(ms, ids, r, p, SideA) == m.pairA && PairAt(ms, ids, r, p, SideB) == m.pairB;
    var e := LoadWin(id, play.format, locked);
    assert UpdateMatch(ms, id, e.edit, play.format, locked, {}) == Ok(WithResult(ms, ids, r, p, n));
    UpdateKeeps(ms, id, e.edit, play.format, locked, {}, k, ids, draw);
    var after := WithResult(ms, ids, r, p, n);
    assert Rewrites(ms, k, ids, r, p, n);
    hide Evaluated, UpdateMatch, Progress, Rewrites, WithResult, WinnerAt, PairAt;
    forall r': nat, p': nat | OnBoard(k, r', p') && (r' < r || (r' == r && p' < p + 1))
      ensures WinnerAt(after, ids, r', p').Some?
    {
      WinnerAfter(ms, k, ids, r, p, n, r', p');
    }
    forall p': nat | OnBoard(k, 1, p') && IsBye(draw, p')
      ensures WinnerAt(after, ids, 1, p').Some?
    {
      WinnerAfter(ms, k, ids, r, p, n, 1, p');
    }
  }

  lemma {:induction false} PlayOut(play: Play, k: nat, ids: map<Spot, MatchId>, draw: seq<Option<Entrant>>, r: nat,
                                   p: nat, locked: bool)
    returns (events: seq<Change>)
    requires Sound(play, k, ids, draw) && ByesHeld(play.matches, k, ids, draw)
    requires 1 <= r <= k && p <= Pow2(k - r) && DecidedBefore(play.matches, k, ids, r, p)
    ensures Champion(Played(play, events).matches, k, ids).Some? && Loads(events, locked)
    decreases k - r, Pow2(k - r) - p
  {
    if p == Pow2(k - r) {
      if r == k {
        events := [];
        assert OnBoard(k, k, 0);
      } else {
        events := PlayOut(play, k, ids, draw, r + 1, 0, locked);
      }
    } else {
      assert OnBoard(k, r, p);
      if WinnerAt(play.matches, ids, r, p).Some? {
        events := PlayOut(play, k, ids, draw, r, p + 1, locked);
      } else {
        PlayOne(play, k, ids, draw, r, p, locked);
        var e := LoadWin(IdAt(ids, r, p), play.format, locked);
        var rest := PlayOut(After(play, e), k, ids, draw, r, p + 1, locked);
        events := [e] + rest;
        PlayedOn(play, [e], rest);
        assert Played(play, [e]) == After(play, e) by {
          assert [e][..0] == [];
        }
      }
    }
  }

  /** Neither sets nor a winner at the spot. */
  predicate NoResult(ms: Matches, ids: map<Spot, MatchId>, r: nat, p: nat) {
    IdAt(ids, r, p) in ms && ms[IdAt(ids, r, p)].sets.None? && ms[IdAt(ids, r, p)].winner.None?
  }

  lemma NoResultAfter(ms: Matches, k: nat, ids: map<Spot, MatchId>, r: nat, p: nat, n: Match, r': nat, p': nat)
    requires Rewrites(ms, k, ids, r, p, n) && OnBoard(k, r', p') && n.sets.None? && n.winner.None?
    requires (r' == r && p' == p) || NoResult(ms, ids, r', p')
    ensures NoResult(WithResult(ms, ids, r, p, n), ids, r', p')
  {
    assert Linked(ms[IdAt(ids, r, p)], k, ids, r, p);
    if r < k {
      NextOnBoard(k, r, p);
      SpotsDiffer(ms, k, ids, r, p, r + 1, p / 2);
    }
    hide Wired, OnBoard, IdAt;
  }

  /** Clearing the result of a match whose next one is undecided: accepted, and the match is blank. */
  lemma ClearOne(play: Play, k: nat, ids: map<Spot, MatchId>, draw: seq<Option<Entrant>>, r: nat, p: nat, locked: bool)
    requires Sound(play, k, ids, draw) && OnBoard(k, r, p)
    requires !NextDecided(play.matches, play.matches[IdAt(ids, r, p)])
    ensures var e := ClearResult(IdAt(ids, r, p), locked);
      && UpdateMatch(play.matches, e.id, e.edit, play.format, locked, {}).Ok?
      && Sound(After(play, e), k, ids, draw)
      && NoResult(After(play, e).matches, ids, r, p)
      && (forall r': nat, p': nat :: OnBoard(k, r', p') && NoResult(play.matches, ids, r', p') ==>
            NoResult(After(play, e).matches, ids, r', p'))
  {
    var ms, id := play.matches, IdAt(ids, r, p);
    var m := ms[id];
    assert Linked(m, k, ids, r, p);
    var n := m.(sets := None, winner := None);
    var e := ClearResult(id, locked);
    var after := WithResult(ms, ids, r, p, n);
    assert UpdateMatch(ms, id, e.edit, play.format, locked, {}) == Ok(after);
    UpdateKeeps(ms, id, e.edit, play.format, locked, {}, k, ids, draw);
    hide Evaluated, UpdateMatch, Progress, SoundResults;
    NoResultAfter(ms, k, ids, r, p, n, r, p);
    forall r': nat, p': nat | OnBoard(k, r', p') && NoResult(ms, ids, r', p')
      ensures NoResult(after, ids, r', p')
    {
      NoResultAfter(ms, k, ids, r, p, n, r', p');
    }
  }

  /**
   * From any reachable state, results and format changes alone can still crown a champion exactly
   * when no bye has had its winner cleared.
   */
  lemma ChampionReachableExactly(play: Play, k: nat, ids: map<Spot, MatchId>, draw: seq<Option<Entrant>>)
    requires Sound(play, k, ids, draw)
    ensures (exists events :: Champion(Played(play, events).matches, k, ids).Some?) <==>
            ByesHeld(play.matches, k, ids, draw)
  {
    if ByesHeld(play.matches, k, ids, draw) {
      assert Progress(play.matches, k, ids, draw);
      var events := PlayOut(play, k, ids, draw, 1, 0, false);
    } else {
      var p: nat :| OnBoard(k, 1, p) && IsBye(draw, p) && WinnerAt(play.matches, ids, 1, p).None?;
      forall events
        ensures Champion(Played(play, events).matches, k, ids).None?
      {
        ClearedByeStaysCleared(play, events, k, ids, draw, p);
        PlayKeeps(play, events, k, ids, draw);
        if Champion(Played(play, events).matches, k, ids).Some? {
          ChampionMeansAllDecided(Played(play, events).matches, k, ids, draw, 1, p);
          assert false;
        }
      }
    }
  }

  /**
   * A bye's result can be cleared while the match it feeds is undecided: the call is accepted, the
   * pair is taken out of the second round, and no updates or format changes crown a champion after it.
   */
  lemma ClearingAByeIsAccepted(play: Play, k: nat, ids: map<Spot, MatchId>, draw: seq<Option<Entrant>>, p: nat,
                               locked: bool)
    requires Sound(play, k, ids, draw) && OnBoard(k, 1, p) && IsBye(draw, p)
    requires !NextDecided(play.matches, play.matches[IdAt(ids, 1, p)])
    ensures UpdateMatch(play.matches, IdAt(ids, 1, p), MatchEdit(None, None, Some(None)), play.format, locked, {}).Ok?
    ensures var after := After(play, ClearResult(IdAt(ids, 1, p), locked));
      && Sound(after, k, ids, draw) && !ByesHeld(after.matches, k, ids, draw)
      && (k > 1 ==> PairAt(after.matches, ids, 2, p / 2, SlotSide(p)).None?)
      && forall events :: Champion(Played(after, events).matches, k, ids).None?
  {
    ClearOne(play, k, ids, draw, 1, p, locked);
    var after := After(play, ClearResult(IdAt(ids, 1, p), locked));
    if k > 1 {
      FedSide(after.matches, k, ids, draw, 1, p);
    }
    assert WinnerAt(after.matches, ids, 1, p).None?;
    ChampionReachableExactly(after, k, ids, draw);
    hide UpdateMatch, Progress, SoundResults, Played;
  }

  // ── A bracket just created ──────────────────────────────────────────────────

  /** One id for every spot of the board, all of them new. */
  ghost predicate FreshIds(taken: set<MatchId>, k: nat, ids: map<Spot, MatchId>) {
    && (forall r: nat, p: nat {:trigger OnBoard(k, r, p)} :: OnBoard(k, r, p) ==> Spot(r, p) in ids)
    && (forall s {:trigger s in ids} :: s in ids ==> OnBoard(k, s.round, s.position))
    && DistinctIds(ids)
    && (forall s {:trigger s in ids} :: s in ids ==> ids[s] !in taken)
  }

  ghost predicate DistinctIds(ids: map<Spot, MatchId>) {
    forall s, t {:trigger s in ids, t in ids} :: s in ids && t in ids && s != t ==> ids[s] != ids[t]
  }

  /** The rows createBracket leaves. */
  function Created(draw: seq<Option<Entrant>>, k: nat, ids: map<Spot, MatchId>): (ms: Matches)
    requires |draw| == Pow2(k) && DistinctIds(ids)
    requires forall s {:trigger s in ids} :: s in ids ==> OnBoard(k, s.round, s.position)
    ensures ms.Keys == ids.Values
    ensures forall s :: s in ids ==> ms[ids[s]] == FreshRow(draw, k, ids, s.round, s.position)
  {
    map s | s in ids :: ids[s] := FreshRow(draw, k, ids, s.round, s.position)
  }

  /** The state of the category's matches right after its bracket was drawn. */
  ghost predicate JustDrawn(ms: Matches, draw: seq<Option<Entrant>>, k: nat, ids: map<Spot, MatchId>) {
    && |draw| == Pow2(k)
    && (forall r: nat, p: nat {:trigger OnBoard(k, r, p)} :: OnBoard(k, r, p) ==>
          Spot(r, p) in ids && IdAt(ids, r, p) in ms && ms[IdAt(ids, r, p)] == FreshRow(draw, k, ids, r, p))
    && (forall id {:trigger ms[id]} :: id in ms ==>
          if ms[id].stage.KnockoutStage?
          then OnBoard(k, ms[id].round, ms[id].position) && IdAt(ids, ms[id].round, ms[id].position) == id
          else ms[id].next.None?)
  }

  /** Only zona matches, none of which feeds another match. */
  ghost predicate OnlyZonas(ms: Matches) {
    forall id {:trigger ms[id]} :: id in ms ==> ms[id].stage.GroupStage? && ms[id].next.None?
  }

  lemma CreatedJustDrawn(zonas: Matches, draw: seq<Option<Entrant>>, k: nat, ids: map<Spot, MatchId>)
    requires |draw| == Pow2(k) && FreshIds(zonas.Keys, k, ids) && OnlyZonas(zonas)
    ensures JustDrawn(zonas + Created(draw, k, ids), draw, k, ids)
  {
    var made := Created(draw, k, ids);
    var ms := zonas + made;
    forall r: nat, p: nat | OnBoard(k, r, p)
      ensures Spot(r, p) in ids && IdAt(ids, r, p) in ms && ms[IdAt(ids, r, p)] == FreshRow(draw, k, ids, r, p)
    {
      assert ids[Spot(r, p)] in ids.Values;
    }
    forall id | id in ms
      ensures if ms[id].stage.KnockoutStage?
              then OnBoard(k, ms[id].round, ms[id].position) && IdAt(ids, ms[id].round, ms[id].position) == id
              else ms[id].next.None?
    {
      if id in made {
        var s :| s in ids && ids[s] == id;
        assert OnBoard(k, s.round, s.position) && made[id] == FreshRow(draw, k, ids, s.round, s.position);
      } else {
        assert zonas[id].stage.GroupStage?;
      }
    }
  }

  /** Every first-round match has somebody in it, and a two-entrant bracket has both. */
  ghost predicate Playable(draw: seq<Option<Entrant>>, k: nat) {
    && k >= 1 && |draw| == Pow2(k)
    && (forall p: nat {:trigger IsBye(draw, p)} :: IsBye(draw, p) ==>
          k > 1 && (draw[2 * p].Some? || draw[2 * p + 1].Some?))
  }

  lemma FreshRowLinked(draw: seq<Option<Entrant>>, k: nat, ids: map<Spot, MatchId>, r: nat, p: nat)
    requires |draw| == Pow2(k) && OnBoard(k, r, p) && (r < k ==> Spot(r + 1, p / 2) in ids)
    ensures Linked(FreshRow(draw, k, ids, r, p), k, ids, r, p)
  {
  }

  lemma JustDrawnWired(ms: Matches, draw: seq<Option<Entrant>>, k: nat, ids: map<Spot, MatchId>)
    requires k >= 1 && JustDrawn(ms, draw, k, ids)
    ensures Wired(ms, k, ids)
  {
    forall r: nat, p: nat | OnBoard(k, r, p)
      ensures IdAt(ids, r, p) in ms && Linked(ms[IdAt(ids, r, p)], k, ids, r, p)
    {
      if r < k {
        NextOnBoard(k, r, p);
      }
      FreshRowLinked(draw, k, ids, r, p);
      hide FreshRow, Pow2, Linked;
    }
  }

  lemma FreshRowFed(draw: seq<Option<Entrant>>, k: nat, ids: map<Spot, MatchId>, r: nat, p: nat, side: Side)
    requires |draw| == Pow2(k) && OnBoard(k, r, p) && r >= 2
    ensures OnBoard(k, r - 1, Feeder(p, side))
    ensures PairOn(FreshRow(draw, k, ids, r, p), side) == FreshRow(draw, k, ids, r - 1, Feeder(p, side)).winner
  {
    FeedersOnBoard(k, r, p);
    hide Pow2;
  }

  lemma FreshRowDrawn(draw: seq<Option<Entrant>>, k: nat, ids: map<Spot, MatchId>, p: nat, side: Side)
    requires |draw| == Pow2(k) && OnBoard(k, 1, p)
    ensures Feeder(p, side) < |draw|
    ensures PairOn(FreshRow(draw, k, ids, 1, p), side) == PairOf(draw[Feeder(p, side)])
  {
    assert Pow2(k) == 2 * Pow2(k - 1);
    hide Pow2;
  }

  lemma JustDrawnFed(ms: Matches, draw: seq<Option<Entrant>>, k: nat, ids: map<Spot, MatchId>)
    requires JustDrawn(ms, draw, k, ids)
    ensures Fed(ms, k, ids, draw)
  {
    hide FreshRow, Pow2, PairOn, IdAt;
    forall r: nat, p: nat, side: Side | OnBoard(k, r, p)
      ensures PairAt(ms, ids, r, p, side) == Due(ms, ids, draw, r, p, side)
    {
      if r >= 2 {
        FreshRowFed(draw, k, ids, r, p, side);
        assert IdAt(ids, r - 1, Feeder(p, side)) in ms;
      } else {
        FreshRowDrawn(draw, k, ids, p, side);
      }
    }
  }

  lemma FreshRowSound(draw: seq<Option<Entrant>>, k: nat, ids: map<Spot, MatchId>, r: nat, p: nat, format: MatchFormat)
    requires |draw| == Pow2(k) && OnBoard(k, r, p)
    ensures var m := FreshRow(draw, k, ids, r, p); SoundWinner(m) && SoundResult(m, format)
  {
  }

  lemma JustDrawnSound(ms: Matches, draw: seq<Option<Entrant>>, k: nat, ids: map<Spot, MatchId>, format: MatchFormat)
    requires JustDrawn(ms, draw, k, ids)
    requires forall id :: id in ms && ms[id].stage.GroupStage? ==> SoundResult(ms[id], format)
    ensures SoundWinners(ms) && SoundResults(ms, format)
  {
    forall id | id in ms && ms[id].stage.KnockoutStage?
      ensures SoundWinner(ms[id]) && SoundResult(ms[id], format)
    {
      FreshRowSound(draw, k, ids, ms[id].round, ms[id].position, format);
      hide FreshRow, SoundWinner, SoundResult, Pow2;
    }
  }

  lemma JustDrawnByesHeld(ms: Matches, draw: seq<Option<Entrant>>, k: nat, ids: map<Spot, MatchId>)
    requires JustDrawn(ms, draw, k, ids) && Playable(draw, k)
    ensures ByesHeld(ms, k, ids, draw)
  {
    forall p: nat | OnBoard(k, 1, p) && IsBye(draw, p)
      ensures WinnerAt(ms, ids, 1, p).Some?
    {
      assert ms[IdAt(ids, 1, p)] == FreshRow(draw, k, ids, 1, p);
      assert ByeWinner(draw, k, p).Some?;
    }
  }

  lemma ZonaResultsStay(zonas: Matches, draw: seq<Option<Entrant>>, k: nat, ids: map<Spot, MatchId>,
                        format: MatchFormat)
    requires |draw| == Pow2(k) && FreshIds(zonas.Keys, k, ids) && SoundResults(zonas, format)
    ensures var ms := zonas + Created(draw, k, ids);
            forall id :: id in ms && ms[id].stage.GroupStage? ==> SoundResult(ms[id], format)
  {
    hide SoundResult, Pow2, OnBoard;
    var made := Created(draw, k, ids);
    forall id | id in made
      ensures made[id].stage.KnockoutStage?
    {
      var s :| s in ids && ids[s] == id;
      assert OnBoard(k, s.round, s.position) && made[id] == FreshRow(draw, k, ids, s.round, s.position);
    }
  }

  /** What createBracket leaves is a sound bracket that can be played out to a champion. */
  lemma CreatedSound(zonas: Matches, draw: seq<Option<Entrant>>, k: nat, ids: map<Spot, MatchId>, format: MatchFormat)
    requires Playable(draw, k) && FreshIds(zonas.Keys, k, ids) && OnlyZonas(zonas) && SoundResults(zonas, format)
    ensures Sound(Play(zonas + Created(draw, k, ids), format), k, ids, draw)
    ensures ByesHeld(zonas + Created(draw, k, ids), k, ids, draw)
  {
    hide JustDrawn, Created, OnlyZonas, SoundResults, Wired, Fed, SoundWinners, ByesHeld, Pow2, OnBoard;
    var ms := zonas + Created(draw, k, ids);
    CreatedJustDrawn(zonas, draw, k, ids);
    ZonaResultsStay(zonas, draw, k, ids, format);
    JustDrawnWired(ms, draw, k, ids);
    JustDrawnFed(ms, draw, k, ids);
    JustDrawnSound(ms, draw, k, ids, format);
    JustDrawnByesHeld(ms, draw, k, ids);
  }

  /** In a bracket just created, the first thing done can be to clear a bye: then nobody can win it. */
  lemma FreshByeCanBeCleared(zonas: Matches, draw: seq<Option<Entrant>>, k: nat, ids: map<Spot, MatchId>,
                             format: MatchFormat, p: nat, locked: bool)
    requires Playable(draw, k) && FreshIds(zonas.Keys, k, ids) && OnlyZonas(zonas) && SoundResults(zonas, format)
    requires IsBye(draw, p)
    ensures IdAt(ids, 1, p) in zonas + Created(draw, k, ids)
    ensures var play := Play(zonas + Created(draw, k, ids), format);
      && ByesHeld(play.matches, k, ids, draw)
      && UpdateMatch(play.matches, IdAt(ids, 1, p), MatchEdit(None, None, Some(None)), format, locked, {}).Ok?
      && forall events :: Champion(Played(After(play, ClearResult(IdAt(ids, 1, p), locked)), events).matches, k,
                                   ids).None?
  {
    var ms := zonas + Created(draw, k, ids);
    assert Pow2(k) == 2 * Pow2(k - 1);
    assert OnBoard(k, 1, p);
    CreatedJustDrawn(zonas, draw, k, ids);
    CreatedSound(zonas, draw, k, ids, format);
    NextOnBoard(k, 1, p);
    FedByFresh(ms, draw, k, ids, p);
    ClearingAByeIsAccepted(Play(ms, format), k, ids, draw, p, locked);
    hide *;
  }

  lemma FedByFresh(ms: Matches, draw: seq<Option<Entrant>>, k: nat, ids: map<Spot, MatchId>, p: nat)
    requires k > 1 && JustDrawn(ms, draw, k, ids) && OnBoard(k, 1, p) && OnBoard(k, 2, p / 2)
    ensures IdAt(ids, 1, p) in ms && !NextDecided(ms, ms[IdAt(ids, 1, p)])
  {
    FreshRowLinked(draw, k, ids, 1, p);
    assert ms[IdAt(ids, 2, p / 2)] == FreshRow(draw, k, ids, 2, p / 2);
  }
}
