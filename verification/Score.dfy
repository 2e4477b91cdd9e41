/** Who won a match, from its sets (src/competitions/lib/score.ts). */
module Score {
  import opened Base

  /** Row ids are opaque keys: only their equality is used. */
  type PairId = nat

  datatype Side = SideA | SideB

  /** Games of one set, pair A's first. */
  datatype SetScore = SetScore(gamesA: int, gamesB: int)

  datatype MatchFormat = OneSet | BestOfThree

  const MAX_GAMES := 99

  predicate ValidSet(s: SetScore) {
    0 <= s.gamesA <= MAX_GAMES && 0 <= s.gamesB <= MAX_GAMES && s.gamesA != s.gamesB
  }

  function SetWinner(s: SetScore): Side {
    if s.gamesA > s.gamesB then SideA else SideB
  }

  function SetsWon(sets: seq<SetScore>, side: Side): nat {
    if sets == [] then 0
    else SetsWon(sets[..|sets| - 1], side) + (if SetWinner(sets[|sets| - 1]) == side then 1 else 0)
  }

  /** Refuses what is not a finished match of this format; otherwise names its one winner. */
  method EvaluateScore(sets: seq<SetScore>, format: MatchFormat) returns (r: Result<Side>)
    ensures r == Evaluated(sets, format)
  {
    for i := 0 to |sets|
      invariant forall j :: 0 <= j < i ==> ValidSet(sets[j])
    {
      if !(0 <= sets[i].gamesA <= MAX_GAMES && 0 <= sets[i].gamesB <= MAX_GAMES) {
        return Err(BadRequest);
      }
      if sets[i].gamesA == sets[i].gamesB {
        return Err(BadRequest);
      }
    }
    var winners := seq(|sets|, i requires 0 <= i < |sets| => SetWinner(sets[i]));
    if format.OneSet? {
      if |sets| != 1 {
        return Err(BadRequest);
      }
      return Ok(winners[0]);
    }
    if |sets| < 2 || |sets| > 3 {
      return Err(BadRequest);
    }
    var setsA := 0;
    for i := 0 to |winners|
      invariant setsA == SetsWon(sets[..i], SideA)
    {
      assert sets[..i + 1][..i] == sets[..i];
      if winners[i] == SideA {
        setsA := setsA + 1;
      }
    }
    assert sets[..|sets|] == sets;
    var setsB := |winners| - setsA;
    if |sets| == 2 && setsA != 2 && setsB != 2 {
      return Err(BadRequest);
    }
    if |sets| == 3 && (setsA == 3 || setsB == 3 || winners[0] == winners[1]) {
      return Err(BadRequest);
    }
    return Ok(if setsA > setsB then SideA else SideB);
  }

  function Evaluated(sets: seq<SetScore>, format: MatchFormat): Result<Side> {
    if exists i :: 0 <= i < |sets| && !ValidSet(sets[i]) then Err(BadRequest)
    else match format
      case OneSet => if |sets| == 1 then Ok(SetWinner(sets[0])) else Err(BadRequest)
      case BestOfThree =>
        if |sets| < 2 || |sets| > 3 then Err(BadRequest)
        else
          var setsA := SetsWon(sets, SideA);
          var setsB := |sets| - setsA;
          if |sets| == 2 && setsA != 2 && setsB != 2 then Err(BadRequest)
          else if |sets| == 3 && (setsA == 3 || setsB == 3
                                  || SetWinner(sets[0]) == SetWinner(sets[1])) then Err(BadRequest)
          else Ok(if setsA > setsB then SideA else SideB)
  }

  function Needed(format: MatchFormat): nat {
    match format
    case OneSet => 1
    case BestOfThree => 2
  }

  /** The rule of the game: `side` reaches the sets it needs with the last set, nobody sooner. */
  ghost predicate FinishedBy(sets: seq<SetScore>, format: MatchFormat, side: Side) {
    && sets != []
    && (forall i :: 0 <= i < |sets| ==> ValidSet(sets[i]))
    && SetsWon(sets, side) == Needed(format)
    && SetsWon(sets[..|sets| - 1], SideA) < Needed(format)
    && SetsWon(sets[..|sets| - 1], SideB) < Needed(format)
  }

  lemma SetsWonShort(sets: seq<SetScore>, s: Side)
    requires |sets| <= 3
    ensures SetsWon(sets, s) ==
            (if |sets| > 0 && SetWinner(sets[0]) == s then 1 else 0)
            + (if |sets| > 1 && SetWinner(sets[1]) == s then 1 else 0)
            + (if |sets| > 2 && SetWinner(sets[2]) == s then 1 else 0)
  {
    if |sets| > 0 {
      SetsWonShort(sets[..|sets| - 1], s);
    }
  }

  lemma {:induction false} SetsShared(sets: seq<SetScore>)
    ensures SetsWon(sets, SideA) + SetsWon(sets, SideB) == |sets|
  {
    if sets != [] {
      SetsShared(sets[..|sets| - 1]);
    }
  }

  /** A result is accepted with a winner exactly when that side finished the match by the rule. */
  lemma EvaluatedExactly(sets: seq<SetScore>, format: MatchFormat, side: Side)
    ensures Evaluated(sets, format) == Ok(side) <==> FinishedBy(sets, format, side)
  {
    SetsShared(sets);
    if |sets| <= 3 {
      SetsWonShort(sets, SideA);
      SetsWonShort(sets, SideB);
      if sets != [] {
        SetsWonShort(sets[..|sets| - 1], SideA);
        SetsWonShort(sets[..|sets| - 1], SideB);
      }
    } else {
      SetsShared(sets[..|sets| - 1]);
    }
  }
}
