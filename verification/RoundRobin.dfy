/**
 * Everyone against everyone: the circle method, and packing its matches into waves over the
 * courts in play (src/competitions/lib/round-robin.ts).
 */
module RoundRobin {
  import opened Base

  /** A pairing between two entrants, by index; rounds are 1-based. */
  datatype Pairing = Pairing(round: nat, a: nat, b: nat)

  // ── The circle ──────────────────────────────────────────────────────────────

  /** Seats at the table: an odd count gets one more, the ghost's. */
  function Seats(count: nat): nat {
    if count % 2 == 1 then count + 1 else count
  }

  /** Who sits at `seat` after `t` rotations: the first seat is fixed and the rest move one step each. */
  function Sitter(n: nat, seat: nat, t: nat): nat
    requires seat < n && t < n
  {
    if seat == 0 then 0
    else if seat - 1 - t >= 0 then seat - t
    else seat - t + (n - 1)
  }

  function SeatOf(n: nat, x: nat, t: nat): nat
    requires x < n && t < n
  {
    if x == 0 then 0
    else if x + t <= n - 1 then x + t
    else x + t - (n - 1)
  }

  /** The one round in which x and y face each other. */
  function MeetRound(n: nat, x: nat, y: nat): nat
    requires x < y < n
  {
    if x == 0 then n - y
    else
      var h := x + y - 2;
      if h % 2 == 0 then n - 1 - h / 2
      else if h < n - 1 then n - 1 - (h + n - 1) / 2
      else n - 1 - (h - (n - 1)) / 2
  }

  lemma SeatAndSitter(n: nat, x: nat, t: nat)
    requires x < n && t < n - 1
    ensures SeatOf(n, x, t) < n && Sitter(n, x, t) < n
    ensures Sitter(n, SeatOf(n, x, t), t) == x && SeatOf(n, Sitter(n, x, t), t) == x
  {
  }

  /** In round t + 1 x and y sit face to face exactly when that is their round. */
  lemma FaceToFace(n: nat, x: nat, y: nat, t: nat)
    requires n % 2 == 0 && x < y < n && t < n - 1
    ensures 1 <= MeetRound(n, x, y) <= n - 1
    ensures SeatOf(n, x, t) + SeatOf(n, y, t) == n - 1 <==> MeetRound(n, x, y) == t + 1
  {
  }

  /** Nobody has two opponents in one round. */
  lemma OneOpponentARound(n: nat, x: nat, y: nat, v: nat, w: nat)
    requires n % 2 == 0 && x < y < n && v < w < n && MeetRound(n, x, y) == MeetRound(n, v, w)
    requires x == v || x == w || y == v || y == w
    ensures x == v && y == w
  {
    FaceToFace(n, x, y, 0);
    var t := MeetRound(n, x, y) - 1;
    FaceToFace(n, x, y, t);
    FaceToFace(n, v, w, t);
    SeatAndSitter(n, x, t);
    SeatAndSitter(n, y, t);
    SeatAndSitter(n, v, t);
    SeatAndSitter(n, w, t);
  }

  function Seated(count: nat, x: nat): Option<nat> {
    if x < count then Some(x) else None
  }

  function Circle(count: nat, t: nat): (slots: seq<Option<nat>>)
    requires t < Seats(count)
    ensures |slots| == Seats(count)
  {
    seq(Seats(count), seat requires 0 <= seat < Seats(count) => Seated(count, Sitter(Seats(count), seat, t)))
  }

  lemma Rotate(count: nat, t: nat)
    requires count >= 2 && t + 1 < Seats(count)
    ensures var s := Circle(count, t);
            Circle(count, t + 1) == [s[0], s[|s| - 1]] + s[1..|s| - 1]
  {
  }

  // ── The pairings ────────────────────────────────────────────────────────────

  /** Every listed pairing is of two real entrants, in the round they meet. */
  ghost predicate RightRounds(pairings: seq<Pairing>, count: nat) {
    forall k :: 0 <= k < |pairings| ==>
      && pairings[k].a < pairings[k].b < count
      && pairings[k].round == MeetRound(Seats(count), pairings[k].a, pairings[k].b)
  }

  predicate Meets(pairings: seq<Pairing>, x: nat, y: nat) {
    exists k :: 0 <= k < |pairings| && pairings[k].a == x && pairings[k].b == y
  }

  predicate Disjoint(p: Pairing, q: Pairing) {
    p.a != q.a && p.a != q.b && p.b != q.a && p.b != q.b
  }

  /** Everyone meets everyone else exactly once, in rounds where nobody plays twice. */
  ghost predicate EveryoneMeetsOnce(pairings: seq<Pairing>, count: nat) {
    && (forall x: nat, y: nat {:trigger Meets(pairings, x, y)} :: x < y < count ==> Meets(pairings, x, y))
    && (forall k :: 0 <= k < |pairings| ==> pairings[k].a < pairings[k].b < count)
    && (forall j, k :: 0 <= j < k < |pairings| ==> pairings[j].a != pairings[k].a || pairings[j].b != pairings[k].b)
    && (forall j, k :: 0 <= j < k < |pairings| && pairings[j].round == pairings[k].round ==>
          Disjoint(pairings[j], pairings[k]))
    && (forall k :: 0 <= k < |pairings| ==> 1 <= pairings[k].round <= Seats(count) - 1)
    && (forall j, k :: 0 <= j < k < |pairings| ==> pairings[j].round <= pairings[k].round)
  }

  /** The lower of the two facing seats of a pairing in its round. */
  function Face(n: nat, p: Pairing): nat
    requires p.a < n && p.b < n && 1 <= p.round <= n
  {
    if SeatOf(n, p.a, p.round - 1) <= SeatOf(n, p.b, p.round - 1) then SeatOf(n, p.a, p.round - 1)
       else SeatOf(n, p.b, p.round - 1)
  }

  /** Listed so far: all rounds before `round`, and of `round` the faces below `i`, in that order. */
  ghost predicate ListedTo(pairings: seq<Pairing>, count: nat, round: nat, i: nat) {
    var n := Seats(count);
    && RightRounds(pairings, count)
    && (forall k :: 0 <= k < |pairings| ==> 1 <= pairings[k].round <= n - 1 && Before(n, pairings[k], round, i))
    && (forall x: nat, y: nat {:trigger Meets(pairings, x, y)} :: x < y < count && DueBefore(n, x, y, round, i) ==>
          Meets(pairings, x, y))
    && (forall j, k :: 0 <= j < k < |pairings| ==> Before(n, pairings[j], pairings[k].round, Face(n, pairings[k])))
  }

  predicate Before(n: nat, p: Pairing, round: nat, i: nat)
    requires p.a < n && p.b < n && 1 <= p.round <= n
  {
    p.round < round || (p.round == round && Face(n, p) < i)
  }

  predicate DueBefore(n: nat, x: nat, y: nat, round: nat, i: nat)
    requires x < y < n
  {
    var p := Pairing(MeetRound(n, x, y), x, y);
    1 <= p.round <= n && Before(n, p, round, i)
  }

  /** The two sitters of faces i and n - 1 - i, lower first, with the round they are in. */
  function PairingAt(n: nat, round: nat, i: nat): Pairing
    requires n % 2 == 0 && 1 <= round < n && i < n / 2
  {
    var x, y := Sitter(n, i, round - 1), Sitter(n, n - 1 - i, round - 1);
    Pairing(round, if x < y then x else y, if x < y then y else x)
  }

  /** Adds the pairings of one round: everyone faces the seat opposite. */
  method ListRound(listed: seq<Pairing>, slots: seq<Option<nat>>, round: nat,
                   ghost count: nat) returns (pairings: seq<Pairing>)
    requires count >= 2 && 1 <= round < Seats(count) && slots == Circle(count, round - 1)
    ensures pairings == listed + RoundTo(count, round, Seats(count) / 2)
  {
    pairings := listed;
    var n := |slots|;
    hide PairingAt, Circle;
    for i := 0 to n / 2
      invariant pairings == listed + RoundTo(count, round, i)
    {
      var a, b := slots[i], slots[n - 1 - i];
      FacingSeats(count, round, i);
      if a.Some? && b.Some? {
        pairings := pairings + [Pairing(round, Min(a.value, b.value), Max(a.value, b.value))];
      }
    }
  }

  method SeatEveryone(count: nat) returns (slots: seq<Option<nat>>)
    requires count >= 2
    ensures slots == Circle(count, 0)
  {
    slots := seq(count, i requires 0 <= i < count => Some(i));
    if count % 2 == 1 {
      slots := slots + [None];
    }
  }

  method RoundRobinPairings(count: nat) returns (pairings: seq<Pairing>)
    ensures pairings == AllPairings(count)
  {
    pairings := [];
    if count < 2 {
      return;
    }
    var slots := SeatEveryone(count);
    var n := |slots|;
    assert RoundsTo(count, 0) == [] && AllPairings(count) == RoundsTo(count, n - 1);
    hide RoundTo, RoundsTo, Circle, Seats, AllPairings;
    for round := 1 to n
      invariant slots == Circle(count, round - 1)
      invariant pairings == RoundsTo(count, round - 1)
    {
      pairings := ListRound(pairings, slots, round, count);
      RoundsStep(count, round);
      Rotate(count, round - 1);
      slots := [slots[0], slots[n - 1]] + slots[1..n - 1];
    }
  }

  /** The pairings of a round's first `i` faces, without those against the ghost. */
  function RoundTo(count: nat, round: nat, i: nat): seq<Pairing>
    requires count >= 2 && 1 <= round < Seats(count) && i <= Seats(count) / 2
  {
    if i == 0 then []
    else
      var p := PairingAt(Seats(count), round, i - 1);
      RoundTo(count, round, i - 1) + (if p.b < count then [p] else [])
  }

  function RoundsTo(count: nat, rounds: nat): seq<Pairing>
    requires count >= 2 && rounds < Seats(count)
  {
    if rounds == 0 then [] else RoundsTo(count, rounds - 1) + RoundTo(count, rounds, Seats(count) / 2)
  }

  lemma RoundsStep(count: nat, rounds: nat)
    requires count >= 2 && 1 <= rounds < Seats(count)
    ensures RoundsTo(count, rounds) == RoundsTo(count, rounds - 1) + RoundTo(count, rounds, Seats(count) / 2)
  {
  }

  function AllPairings(count: nat): seq<Pairing> {
    if count < 2 then [] else RoundsTo(count, Seats(count) - 1)
  }

  lemma {:induction false} RoundToListed(count: nat, round: nat, i: nat)
    requires count >= 2 && 1 <= round < Seats(count) && i <= Seats(count) / 2
    ensures ListedTo(RoundsTo(count, round - 1) + RoundTo(count, round, i), count, round, i)
    decreases round, i
  {
    hide ListedTo, PairingAt;
    var before := RoundsTo(count, round - 1);
    if i == 0 {
      assert before + RoundTo(count, round, 0) == before;
      if round == 1 {
        NothingListed(count);
      } else {
        RoundToListed(count, round - 1, Seats(count) / 2);
        RoundListed(before, count, round - 1);
      }
    } else {
      RoundToListed(count, round, i - 1);
      var listed := before + RoundTo(count, round, i - 1);
      var p := PairingAt(Seats(count), round, i - 1);
      if p.b < count {
        ListOne(listed, count, round, i - 1);
        assert before + RoundTo(count, round, i) == listed + [p];
      } else {
        NobodyToList(listed, count, round, i - 1);
        assert before + RoundTo(count, round, i) == listed;
      }
    }
  }

  lemma RoundsAreComplete(count: nat, n: nat)
    requires count >= 2 && n == Seats(count) && n >= 2
    ensures EveryoneMeetsOnce(RoundsTo(count, n - 1), count)
  {
    hide *;
    RoundToListed(count, n - 1, n / 2);
    RoundsStep(count, n - 1);
    RoundListed(RoundsTo(count, n - 1), count, n - 1);
    AllListed(RoundsTo(count, n - 1), count);
  }

  /** The circle method draws a complete round robin. */
  lemma PairingsAreComplete(count: nat)
    ensures EveryoneMeetsOnce(AllPairings(count), count)
  {
    hide *;
    if count < 2 {
      NobodyToMeet(count);
    } else {
      AllRounds(count);
      RoundsAreComplete(count, Seats(count));
    }
  }

  lemma NobodyToMeet(count: nat)
    requires count < 2
    ensures EveryoneMeetsOnce(AllPairings(count), count)
  {
  }

  lemma AllRounds(count: nat)
    requires count >= 2
    ensures Seats(count) >= 2 && AllPairings(count) == RoundsTo(count, Seats(count) - 1)
  {
    hide RoundsTo;
  }

  lemma NothingListed(count: nat)
    requires count >= 2
    ensures ListedTo([], count, 1, 0)
  {
    forall x: nat, y: nat | x < y < count
      ensures !DueBefore(Seats(count), x, y, 1, 0)
    {
      FaceToFace(Seats(count), x, y, 0);
    }
  }

  lemma PairingMeets(n: nat, round: nat, i: nat)
    requires n % 2 == 0 && 1 <= round < n && i < n / 2
    ensures var p := PairingAt(n, round, i);
            p.a < p.b < n && MeetRound(n, p.a, p.b) == round && Face(n, p) == i
  {
    var p := PairingAt(n, round, i);
    SeatAndSitter(n, i, round - 1);
    SeatAndSitter(n, n - 1 - i, round - 1);
    FaceToFace(n, p.a, p.b, round - 1);
    hide Sitter, MeetRound, SeatOf;
  }

  /** It is the only pairing of that round with that face. */
  lemma OnlyPairingAt(n: nat, round: nat, i: nat, x: nat, y: nat)
    requires n % 2 == 0 && 1 <= round < n && i < n / 2 && x < y < n
    requires MeetRound(n, x, y) == round && Face(n, Pairing(round, x, y)) == i
    ensures PairingAt(n, round, i) == Pairing(round, x, y)
  {
    hide Sitter, MeetRound, SeatOf;
    SeatAndSitter(n, x, round - 1);
    SeatAndSitter(n, y, round - 1);
    FaceToFace(n, x, y, round - 1);
  }

  /** The circle's facing seats hold the pairing, unless one of them is the ghost's. */
  lemma FacingSeats(count: nat, round: nat, i: nat)
    requires count >= 2 && 1 <= round < Seats(count) && i < Seats(count) / 2
    ensures var n, s, p := Seats(count), Circle(count, round - 1), PairingAt(Seats(count), round, i);
      && p.a < p.b
      && (s[i].Some? && s[n - 1 - i].Some? <==> p.b < count)
      && (p.b < count ==> p == Pairing(round, Min(s[i].value, s[n - 1 - i].value), Max(s[i].value, s[n - 1 - i].value)))
  {
    PairingMeets(Seats(count), round, i);
    hide MeetRound, SeatOf;
  }

  lemma StillMeets(pairings: seq<Pairing>, p: Pairing, x: nat, y: nat)
    ensures Meets(pairings + [p], x, y) <==> Meets(pairings, x, y) || (x == p.a && y == p.b)
  {
    var more := pairings + [p];
    if Meets(pairings, x, y) {
      var k :| 0 <= k < |pairings| && pairings[k].a == x && pairings[k].b == y;
      assert more[k].a == x && more[k].b == y;
    }
    assert more[|pairings|] == p;
  }

  lemma ListOne(pairings: seq<Pairing>, count: nat, round: nat, i: nat)
    requires count >= 2 && 1 <= round < Seats(count) && i < Seats(count) / 2 && ListedTo(pairings, count, round, i)
    requires PairingAt(Seats(count), round, i).b < count
    ensures ListedTo(pairings + [PairingAt(Seats(count), round, i)], count, round, i + 1)
  {
    var n := Seats(count);
    var p := PairingAt(n, round, i);
    var more := pairings + [p];
    PairingMeets(n, round, i);
    hide Sitter, MeetRound, Face, Seats, PairingAt;
    forall x: nat, y: nat | x < y < count && DueBefore(n, x, y, round, i + 1)
      ensures Meets(more, x, y)
    {
      if !DueBefore(n, x, y, round, i) {
        OnlyPairingAt(n, round, i, x, y);
      }
      StillMeets(pairings, p, x, y);
    }
  }

  lemma NobodyToList(pairings: seq<Pairing>, count: nat, round: nat, i: nat)
    requires count >= 2 && 1 <= round < Seats(count) && i < Seats(count) / 2 && ListedTo(pairings, count, round, i)
    requires PairingAt(Seats(count), round, i).b >= count
    ensures ListedTo(pairings, count, round, i + 1)
  {
    var n := Seats(count);
    assert n % 2 == 0 && count <= n;
    hide Sitter, MeetRound, Face, Seats, PairingAt;
    forall x: nat, y: nat | x < y < count && DueBefore(n, x, y, round, i + 1)
      ensures Meets(pairings, x, y)
    {
      if !DueBefore(n, x, y, round, i) {
        OnlyPairingAt(n, round, i, x, y);
      }
    }
  }

  lemma RoundListed(pairings: seq<Pairing>, count: nat, round: nat)
    requires count >= 2 && 1 <= round < Seats(count) && ListedTo(pairings, count, round, Seats(count) / 2)
    ensures ListedTo(pairings, count, round + 1, 0)
  {
    var n := Seats(count);
    forall x: nat, y: nat | x < y < count && DueBefore(n, x, y, round + 1, 0)
      ensures Meets(pairings, x, y)
    {
      FaceToFace(n, x, y, round - 1);
    }
  }

  lemma AllListed(pairings: seq<Pairing>, count: nat)
    requires count >= 2 && ListedTo(pairings, count, Seats(count), 0)
    ensures EveryoneMeetsOnce(pairings, count)
  {
    var n := Seats(count);
    forall x: nat, y: nat | x < y < count
      ensures Meets(pairings, x, y)
    {
      FaceToFace(n, x, y, 0);
      assert DueBefore(n, x, y, n, 0);
    }
    forall j, k | 0 <= j < k < |pairings|
      ensures pairings[j].round <= pairings[k].round
      ensures pairings[j].a != pairings[k].a || pairings[j].b != pairings[k].b
      ensures pairings[j].round == pairings[k].round ==> Disjoint(pairings[j], pairings[k])
    {
      ListedApart(pairings, count, j, k);
    }
  }

  lemma ListedApart(pairings: seq<Pairing>, count: nat, j: nat, k: nat)
    requires count >= 2 && ListedTo(pairings, count, Seats(count), 0) && j < k < |pairings|
    ensures pairings[j].round <= pairings[k].round
    ensures pairings[j].a != pairings[k].a || pairings[j].b != pairings[k].b
    ensures pairings[j].round == pairings[k].round ==> Disjoint(pairings[j], pairings[k])
  {
    var n, p, q := Seats(count), pairings[j], pairings[k];
    assert n % 2 == 0 && count <= n;
    assert p.a < p.b < count && q.a < q.b < count && 1 <= q.round <= n - 1;
    assert Before(n, p, q.round, Face(n, q));
    hide ListedTo, RightRounds, Seats;
    if p.round == q.round && !Disjoint(p, q) {
      OneOpponentARound(n, p.a, p.b, q.a, q.b);
    }
    hide Face, MeetRound;
  }

  // ── Waves ───────────────────────────────────────────────────────────────────

  /** A pairing put on a court in a wave of simultaneous matches. */
  datatype Placed = Placed(pairing: Pairing, wave: nat, court: nat)

  function Pairings(placed: seq<Placed>): (ps: seq<Pairing>)
    ensures |ps| == |placed|
  {
    seq(|placed|, k requires 0 <= k < |placed| => placed[k].pairing)
  }

  /** Nobody plays twice in a wave and no court hosts two of its matches. */
  ghost predicate SoundWaves(placed: seq<Placed>, courts: nat) {
    && (forall k :: 0 <= k < |placed| ==> placed[k].wave >= 1 && placed[k].court < courts)
    && (forall j, k :: 0 <= j < k < |placed| && placed[j].wave == placed[k].wave ==>
          placed[j].court < placed[k].court && Disjoint(placed[j].pairing, placed[k].pairing))
    && (forall j, k :: 0 <= j < k < |placed| ==> placed[j].wave <= placed[k].wave)
  }

  predicate IsFull(placed: seq<Placed>, wave: nat, courts: nat) {
    exists j :: 0 <= j < |placed| && placed[j].wave == wave && placed[j].court == courts - 1
  }

  predicate IsBusyFor(placed: seq<Placed>, wave: nat, p: Pairing) {
    exists j :: 0 <= j < |placed| && placed[j].wave == wave && !Disjoint(placed[j].pairing, p)
  }

  /** The wave could not take this pairing: every court is used, or one of its entrants is playing. */
  predicate NoRoom(placed: seq<Placed>, wave: nat, p: Pairing, courts: nat) {
    IsFull(placed, wave, courts) || IsBusyFor(placed, wave, p)
  }

  /** A match waits for a later wave only when no earlier one had room for it. */
  ghost predicate NoIdleCourts(placed: seq<Placed>, courts: nat) {
    forall k, v: nat :: 0 <= k < |placed| && 1 <= v < placed[k].wave ==> NoRoom(placed, v, placed[k].pairing, courts)
  }

  lemma NoRoomStays(placed: seq<Placed>, x: Placed, wave: nat, p: Pairing, courts: nat)
    requires NoRoom(placed, wave, p, courts)
    ensures NoRoom(placed + [x], wave, p, courts)
  {
    var more := placed + [x];
    if IsFull(placed, wave, courts) {
      var j :| 0 <= j < |placed| && placed[j].wave == wave && placed[j].court == courts - 1;
      assert more[j] == placed[j];
    } else {
      var j :| 0 <= j < |placed| && placed[j].wave == wave && !Disjoint(placed[j].pairing, p);
      assert more[j] == placed[j];
    }
  }

  /** Entrants playing in a wave. */
  ghost predicate BusyIn(placed: seq<Placed>, wave: nat, busy: set<nat>) {
    && (forall j :: 0 <= j < |placed| && placed[j].wave == wave ==>
          placed[j].pairing.a in busy && placed[j].pairing.b in busy)
    && (forall x :: x in busy ==> PlaysIn(placed, wave, x))
  }

  predicate PlaysIn(placed: seq<Placed>, wave: nat, x: nat) {
    exists j :: 0 <= j < |placed| && placed[j].wave == wave && (placed[j].pairing.a == x || placed[j].pairing.b == x)
  }

  /** Everything still to place was turned away by every wave so far. */
  ghost predicate Waiting(placed: seq<Placed>, remaining: seq<Pairing>, wave: nat, courts: nat) {
    forall q, v: nat :: 0 <= q < |remaining| && 1 <= v <= wave ==> NoRoom(placed, v, remaining[q], courts)
  }

  /** Every pairing, placed or still waiting. */
  ghost function AllOf(placed: seq<Placed>, remaining: seq<Pairing>): multiset<Pairing> {
    multiset(Pairings(placed)) + multiset(remaining)
  }

  /** The state of a wave half filled: the first `i` waiting pairings were turned away, `court` courts are taken. */
  ghost predicate Filling(placed: seq<Placed>, remaining: seq<Pairing>, wave: nat, courts: nat, i: nat, court: nat,
                          busy: set<nat>) {
    && wave >= 1 && courts >= 1 && i <= |remaining| && court <= courts
    && SoundWaves(placed, courts) && NoIdleCourts(placed, courts) && Waiting(placed, remaining, wave - 1, courts)
    && (forall q :: 0 <= q < i ==> IsBusyFor(placed, wave, remaining[q]))
    && (forall k :: 0 <= k < |placed| ==>
          placed[k].wave <= wave && (placed[k].wave == wave ==> placed[k].court < court))
    && (court > 0 ==> placed != [] && placed[|placed| - 1].wave == wave && placed[|placed| - 1].court == court - 1)
    && BusyIn(placed, wave, busy)
  }

  /** Fills one wave greedily, in order. */
  method FillWave(before: seq<Placed>, waiting: seq<Pairing>, wave: nat, courts: nat)
    returns (placed: seq<Placed>, remaining: seq<Pairing>)
    requires Filling(before, waiting, wave, courts, 0, 0, {}) && waiting != []
    ensures SoundWaves(placed, courts) && NoIdleCourts(placed, courts) && Waiting(placed, remaining, wave, courts)
    ensures forall k :: 0 <= k < |placed| ==> placed[k].wave <= wave
    ensures AllOf(placed, remaining) == AllOf(before, waiting)
    ensures |remaining| < |waiting|
  {
    placed, remaining := before, waiting;
    var busy := {};
    var court, i := 0, 0;
    while i < |remaining| && court < courts
      invariant Filling(placed, remaining, wave, courts, i, court, busy)
      invariant i <= |remaining| <= |waiting| && court <= courts
                && (|remaining| == |waiting| ==> i == 0 && busy == {} && court == 0)
      invariant AllOf(placed, remaining) == AllOf(before, waiting)
      decreases |remaining| - i
    {
      hide AllOf, Filling;
      var p := remaining[i];
      if p.a in busy || p.b in busy {
        SkipOne(placed, remaining, wave, courts, i, court, busy);
        i := i + 1;
      } else {
        PlaceOne(placed, remaining, wave, courts, i, court, busy);
        busy := busy + {p.a, p.b};
        placed := placed + [Placed(p, wave, court)];
        remaining := remaining[..i] + remaining[i + 1..];
        court := court + 1;
      }
    }
    assert courts >= 1;
    WaveDone(placed, remaining, wave, courts, i, court, busy);
  }

  lemma SkipOne(placed: seq<Placed>, remaining: seq<Pairing>, wave: nat, courts: nat, i: nat, court: nat,
                busy: set<nat>)
    requires Filling(placed, remaining, wave, courts, i, court, busy) && i < |remaining|
    requires remaining[i].a in busy || remaining[i].b in busy
    ensures Filling(placed, remaining, wave, courts, i + 1, court, busy)
  {
    hide SoundWaves, NoIdleCourts, Waiting, BusyIn, IsBusyFor;
    BusyMeansNoRoom(placed, wave, busy, remaining[i]);
  }

  lemma PlaceOne(placed: seq<Placed>, remaining: seq<Pairing>, wave: nat, courts: nat, i: nat, court: nat,
                 busy: set<nat>)
    requires Filling(placed, remaining, wave, courts, i, court, busy) && i < |remaining| && court < courts
    requires remaining[i].a !in busy && remaining[i].b !in busy
    ensures var more, rest := placed + [Placed(remaining[i], wave, court)], remaining[..i] + remaining[i + 1..];
      && Filling(more, rest, wave, courts, i, court + 1, busy + {remaining[i].a, remaining[i].b})
      && AllOf(more, rest) == AllOf(placed, remaining)
  {
    var x := Placed(remaining[i], wave, court);
    PlacedSound(placed, remaining, i, x, courts, busy);
    WithoutPlaced(placed, remaining, i, x, courts);
    BusyGrows(placed, x, busy);
    hide SoundWaves, NoIdleCourts, Waiting, BusyIn, IsBusyFor;
  }

  lemma BusyMeansNoRoom(placed: seq<Placed>, wave: nat, busy: set<nat>, p: Pairing)
    requires BusyIn(placed, wave, busy) && (p.a in busy || p.b in busy)
    ensures IsBusyFor(placed, wave, p)
  {
    var x := if p.a in busy then p.a else p.b;
    assert PlaysIn(placed, wave, x);
    var j :| 0 <= j < |placed| && placed[j].wave == wave && (placed[j].pairing.a == x || placed[j].pairing.b == x);
    assert !Disjoint(placed[j].pairing, p);
  }

  lemma BusyGrows(placed: seq<Placed>, x: Placed, busy: set<nat>)
    requires BusyIn(placed, x.wave, busy)
    ensures BusyIn(placed + [x], x.wave, busy + {x.pairing.a, x.pairing.b})
  {
    var more := placed + [x];
    assert more[|placed|] == x;
    forall y | y in busy
      ensures PlaysIn(more, x.wave, y)
    {
      assert PlaysIn(placed, x.wave, y);
      var j :| 0 <= j < |placed| && placed[j].wave == x.wave && (placed[j].pairing.a == y || placed[j].pairing.b == y);
      assert more[j] == placed[j];
    }
  }

  /** Placing x keeps the waves sound, and keeps the reasons why earlier waves had no room. */
  lemma PlacedSound(placed: seq<Placed>, remaining: seq<Pairing>, i: nat, x: Placed, courts: nat, busy: set<nat>)
    requires SoundWaves(placed, courts) && NoIdleCourts(placed, courts) && i < |remaining| && x.wave >= 1
    requires Waiting(placed, remaining, x.wave - 1, courts) && BusyIn(placed, x.wave, busy)
    requires x.pairing == remaining[i] && x.court < courts && x.pairing.a !in busy && x.pairing.b !in busy
    requires forall k :: 0 <= k < |placed| ==>
               placed[k].wave <= x.wave && (placed[k].wave == x.wave ==> placed[k].court < x.court)
    ensures SoundWaves(placed + [x], courts) && NoIdleCourts(placed + [x], courts)
  {
    var more := placed + [x];
    forall k, v: nat | 0 <= k < |more| && 1 <= v < more[k].wave
      ensures NoRoom(more, v, more[k].pairing, courts)
    {
      if k == |placed| {
        assert NoRoom(placed, v, remaining[i], courts);
      }
      NoRoomStays(placed, x, v, more[k].pairing, courts);
    }
    hide NoRoom;
  }

  lemma WithoutPlaced(placed: seq<Placed>, remaining: seq<Pairing>, i: nat, x: Placed, courts: nat)
    requires i < |remaining| && x.wave >= 1 && x.pairing == remaining[i]
             && Waiting(placed, remaining, x.wave - 1, courts)
    requires forall q :: 0 <= q < i ==> IsBusyFor(placed, x.wave, remaining[q])
    ensures var more, rest := placed + [x], remaining[..i] + remaining[i + 1..];
      && Waiting(more, rest, x.wave - 1, courts)
      && (forall q :: 0 <= q < i ==> IsBusyFor(more, x.wave, rest[q]))
      && multiset(Pairings(more)) + multiset(rest) == multiset(Pairings(placed)) + multiset(remaining)
  {
    var more, rest := placed + [x], remaining[..i] + remaining[i + 1..];
    assert Pairings(more) == Pairings(placed) + [x.pairing];
    assert remaining == remaining[..i] + [remaining[i]] + remaining[i + 1..];
    forall q, v: nat | 0 <= q < |rest| && 1 <= v <= x.wave - 1
      ensures NoRoom(more, v, rest[q], courts)
    {
      assert rest[q] == remaining[if q < i then q else q + 1];
      NoRoomStays(placed, x, v, rest[q], courts);
    }
    forall q | 0 <= q < i
      ensures IsBusyFor(more, x.wave, rest[q])
    {
      var j :| 0 <= j < |placed| && placed[j].wave == x.wave && !Disjoint(placed[j].pairing, remaining[q]);
      assert more[j] == placed[j];
    }
  }

  lemma WaveDone(placed: seq<Placed>, remaining: seq<Pairing>, wave: nat, courts: nat, i: nat, court: nat,
                 busy: set<nat>)
    requires Filling(placed, remaining, wave, courts, i, court, busy) && (i == |remaining| || court == courts)
    ensures SoundWaves(placed, courts) && NoIdleCourts(placed, courts) && Waiting(placed, remaining, wave, courts)
    ensures forall k :: 0 <= k < |placed| ==> placed[k].wave <= wave
  {
    hide SoundWaves, NoIdleCourts, BusyIn;
  }

  method PackIntoWaves(pairings: seq<Pairing>, courts: nat) returns (r: Result<seq<Placed>>)
    ensures r.Err? <==> courts < 1
    ensures r.Ok? ==> multiset(Pairings(r.value)) == multiset(pairings)
    ensures r.Ok? ==> SoundWaves(r.value, courts) && NoIdleCourts(r.value, courts)
  {
    if courts < 1 {
      return Err(BadRequest);
    }
    var placed: seq<Placed>, remaining, wave := [], pairings, 0;
    assert Pairings(placed) == [];
    while remaining != []
      invariant SoundWaves(placed, courts) && NoIdleCourts(placed, courts)
      invariant Waiting(placed, remaining, wave, courts)
      invariant forall k :: 0 <= k < |placed| ==> placed[k].wave <= wave
      invariant multiset(Pairings(placed)) + multiset(remaining) == multiset(pairings)
      decreases |remaining|
    {
      wave := wave + 1;
      assert BusyIn(placed, wave, {});
      hide SoundWaves, NoIdleCourts, Waiting, BusyIn;
      placed, remaining := FillWave(placed, remaining, wave, courts);
    }
    return Ok(placed);
  }
}
