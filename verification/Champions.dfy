/**
 * Which events can still crown a champion: the calls that clear results, undo a draw and draw it
 * again (src/competitions/competitions.service.ts) put back what a cleared bye took away.
 */
module Champions {
  import opened Base
  import opened Score
  import opened Draw
  import opened Bracket
  import opened Categories
  import opened CategoryLaws
  import opened CategoryRuns

  // ── Clearing every result ───────────────────────────────────────────────────

  /** Every match after (r, p), counting rounds from the final down, is blank. */
  ghost predicate ClearedFrom(ms: Matches, k: nat, ids: map<Spot, MatchId>, r: nat, p: nat) {
    forall r': nat, p': nat {:trigger OnBoard(k, r', p')} :: OnBoard(k, r', p') && (r' > r || (r' == r && p' < p)) ==>
      NoResult(ms, ids, r', p')
  }

  lemma NextCleared(ms: Matches, k: nat, ids: map<Spot, MatchId>, r: nat, p: nat)
    requires Wired(ms, k, ids) && OnBoard(k, r, p) && ClearedFrom(ms, k, ids, r, p)
    ensures !NextDecided(ms, ms[IdAt(ids, r, p)])
  {
    assert Linked(ms[IdAt(ids, r, p)], k, ids, r, p);
    if r < k {
      NextOnBoard(k, r, p);
      assert NoResult(ms, ids, r + 1, p / 2);
    }
  }

  lemma ClearStep(play: Play, k: nat, ids: map<Spot, MatchId>, draw: seq<Option<Entrant>>, r: nat, p: nat, locked: bool)
    requires Sound(play, k, ids, draw) && OnBoard(k, r, p) && ClearedFrom(play.matches, k, ids, r, p)
    ensures var after := After(play, ClearResult(IdAt(ids, r, p), locked));
            Sound(after, k, ids, draw) && ClearedFrom(after.matches, k, ids, r, p + 1)
  {
    hide UpdateMatch, SoundResults, Fed, SoundWinners, NoResult, After;
    NextCleared(play.matches, k, ids, r, p);
    ClearOne(play, k, ids, draw, r, p, locked);
  }

  lemma RoundCleared(ms: Matches, k: nat, ids: map<Spot, MatchId>, r: nat)
    requires 0 < r <= k && ClearedFrom(ms, k, ids, r, Pow2(k - r))
    ensures ClearedFrom(ms, k, ids, r - 1, 0)
  {
    hide NoResult;
  }

  lemma PlayedFirst(play: Play, e: Change, rest: seq<Change>)
    ensures Played(play, [e] + rest) == Played(After(play, e), rest)
  {
    hide After;
    PlayedOn(play, [e], rest);
    assert [e][..0] == [];
  }

  lemma {:induction false} ClearOut(play: Play, k: nat, ids: map<Spot, MatchId>, draw: seq<Option<Entrant>>, r: nat,
                                    p: nat, locked: bool)
    returns (events: seq<Change>)
    requires Sound(play, k, ids, draw) && r <= k && p <= Pow2(k - r) && ClearedFrom(play.matches, k, ids, r, p)
    ensures Loads(events, locked) && Sound(Played(play, events), k, ids, draw)
    ensures ClearedFrom(Played(play, events).matches, k, ids, 0, 0)
    decreases r, Pow2(k - r) - p
  {
    hide Sound, ClearedFrom, After;
    if r == 0 {
      events := [];
      NothingLeft(play.matches, k, ids, p);
    } else if p == Pow2(k - r) {
      RoundCleared(play.matches, k, ids, r);
      events := ClearOut(play, k, ids, draw, r - 1, 0, locked);
    } else {
      ClearStep(play, k, ids, draw, r, p, locked);
      var e := ClearResult(IdAt(ids, r, p), locked);
      var rest := ClearOut(After(play, e), k, ids, draw, r, p + 1, locked);
      events := [e] + rest;
      PlayedFirst(play, e, rest);
    }
  }

  lemma NothingLeft(ms: Matches, k: nat, ids: map<Spot, MatchId>, p: nat)
    requires ClearedFrom(ms, k, ids, 0, p)
    ensures ClearedFrom(ms, k, ids, 0, 0)
  {
  }

  function Loaded(ms: Matches): set<MatchId> {
    set id | id in ms && ms[id].sets.Some?
  }

  /** The loaded results are all of matches that feed no other. */
  ghost predicate LoadedLooseEnds(ms: Matches) {
    forall id {:trigger ms[id]} :: id in ms && ms[id].sets.Some? ==> ms[id].next.None?
  }

  lemma ClearLoose(play: Play, id: MatchId)
    requires LoadedLooseEnds(play.matches) && id in play.matches && play.matches[id].next.None?
    requires play.matches[id].sets.Some?
    ensures var after := After(play, ClearResult(id, false));
      && LoadedLooseEnds(after.matches) && Loaded(after.matches) == Loaded(play.matches) - {id}
      && after.format == play.format && ClearResult(id, false).edit == MatchEdit(None, None, Some(None))
  {
    var ms := play.matches;
    var after := After(play, ClearResult(id, false)).matches;
    assert UpdateMatch(ms, id, MatchEdit(None, None, Some(None)), play.format, false, {})
        == Ok(ms[id := ms[id].(sets := None, winner := None)]);
    assert after == ms[id := ms[id].(sets := None, winner := None)];
  }

  lemma {:induction false} ClearLooseOnes(play: Play) returns (events: seq<Change>)
    requires LoadedLooseEnds(play.matches)
    ensures Loads(events, false) && Loaded(Played(play, events).matches) == {}
    decreases |Loaded(play.matches)|
  {
    if Loaded(play.matches) == {} {
      events := [];
    } else {
      var id :| id in Loaded(play.matches);
      ClearLoose(play, id);
      var e := ClearResult(id, false);
      var rest := ClearLooseOnes(After(play, e));
      events := [e] + rest;
      PlayedFirst(play, e, rest);
    }
  }

  // ── Runs that reach an event ────────────────────────────────────────────────

  /** A call that seeds a bracket is given every match of the category, once. */
  ghost predicate ListsAll(e: Event, call: Call) {
    call.GenerateBracketCall? && call.c in e.categories ==>
      NoRepeats(call.listing) && (forall id :: id in call.listing <==> id in e.categories[call.c].matches)
  }

  ghost predicate RunBetween(trace: seq<Event>, calls: seq<Call>, e: Event, f: Event) {
    && IsRun(trace, calls) && trace[0] == e && trace[|trace| - 1] == f
    && (forall i :: 0 <= i < |calls| ==> ListsAll(trace[i], calls[i]))
  }

  /** Some run of calls leads from one event to the other. */
  ghost predicate Reaches(e: Event, f: Event) {
    exists trace, calls :: RunBetween(trace, calls, e, f)
  }

  lemma ReachesItself(e: Event)
    ensures Reaches(e, e)
  {
    assert RunBetween([e], [], e, e);
  }

  lemma ReachesOn(e: Event, f: Event, call: Call)
    requires Reaches(e, f) && WellFormed(f, call) && ListsAll(f, call)
    ensures Reaches(e, Next(f, call))
  {
    hide WellFormed, Next, ListsAll;
    var trace, calls :| RunBetween(trace, calls, e, f);
    var longer, more := trace + [Next(f, call)], calls + [call];
    assert IsRun(longer, more);
    assert RunBetween(longer, more, e, Next(f, call));
  }

  lemma ReachedKeeps(e: Event, f: Event)
    requires EventInv(e) && Reaches(e, f)
    ensures EventInv(f)
  {
    hide EventInv;
    var trace, calls :| RunBetween(trace, calls, e, f);
    RunKeeps(trace, calls, |trace| - 1);
  }

  function WithMatches(e: Event, c: CategoryId, ms: Matches): Event
    requires c in e.categories
  {
    With(e, c, e.categories[c].(matches := ms))
  }

  lemma LoadsKeepFormat(play: Play, events: seq<Change>, locked: bool)
    requires Loads(events, locked)
    ensures Played(play, events).format == play.format
  {
    if events != [] {
      LoadsKeepFormat(play, events[..|events| - 1], locked);
    }
  }

  /** Updates of a category's matches are calls of the event. */
  lemma {:induction false} LoadsAreCalls(start: Event, e: Event, c: CategoryId, events: seq<Change>)
    requires Reaches(start, e) && c in e.categories && OpenForChanges(e) && Loads(events, Locked(e.categories[c]))
    ensures Reaches(start, WithMatches(e, c, Played(Play(e.categories[c].matches, e.matchFormat), events).matches))
  {
    var cat := e.categories[c];
    var play := Play(cat.matches, e.matchFormat);
    if events == [] {
      assert WithMatches(e, c, cat.matches) == e by {
        assert e.categories[c := cat] == e.categories;
      }
    } else {
      var n := |events| - 1;
      var fewer := events[..n];
      LoadsAreCalls(start, e, c, fewer);
      LoadsKeepFormat(play, fewer, Locked(cat));
      var before := Played(play, fewer);
      var f := WithMatches(e, c, before.matches);
      var call := LoadResultCall(c, events[n].id, events[n].edit, events[n].courts);
      ReachesOn(start, f, call);
      LoadIsChange(e, c, before, events[n]);
      hide Reaches, UpdateMatch;
    }
  }

  lemma LoadIsChange(e: Event, c: CategoryId, play: Play, change: Change)
    requires c in e.categories && OpenForChanges(e) && play.format == e.matchFormat
    requires change.Update? && change.zonasLocked == Locked(e.categories[c])
    ensures var call := LoadResultCall(c, change.id, change.edit, change.courts);
            WellFormed(WithMatches(e, c, play.matches), call) &&
            Next(WithMatches(e, c, play.matches), call) == WithMatches(e, c, After(play, change).matches)
  {
    hide UpdateMatch;
    var f := WithMatches(e, c, play.matches);
    var call := LoadResultCall(c, change.id, change.edit, change.courts);
    var after := After(play, change).matches;
    var cat := e.categories[c].(matches := after);
    assert f.categories[c := cat] == e.categories[c := cat];
  }

  // ── Undo and draw again ─────────────────────────────────────────────────────

  /** The category's bracket has a champion. */
  ghost predicate Crowned(e: Event, c: CategoryId) {
    c in e.categories && e.categories[c].hasBracket &&
    exists k, ids, draw :: CrownedIn(e.categories[c], e.matchFormat, k, ids, draw)
  }

  ghost predicate CrownedIn(cat: Category, format: MatchFormat, k: nat, ids: map<Spot, MatchId>,
                            draw: seq<Option<Entrant>>) {
    DrawnBracket(cat.matches, cat.pairs, format, k, ids, draw) && Champion(cat.matches, k, ids).Some?
  }

  // ids the database could hand out

  lemma {:induction false} AboveAll(taken: set<MatchId>) returns (top: nat)
    ensures forall id :: id in taken ==> id < top
  {
    if taken == {} {
      top := 0;
    } else {
      var id :| id in taken;
      var below := AboveAll(taken - {id});
      top := if id < below then below else id + 1;
      assert taken == (taken - {id}) + {id};
    }
  }

  function Board(k: nat): (b: set<Spot>)
    ensures forall s :: s in b <==> OnBoard(k, s.round, s.position)
  {
    var b := set r, p | 1 <= r <= k && 0 <= p < Pow2(k - r) :: Spot(r, p);
    assert forall s: Spot :: OnBoard(k, s.round, s.position) ==> s == Spot(s.round, s.position);
    b
  }

  lemma {:induction false} HandOut(spots: set<Spot>, taken: set<MatchId>) returns (ids: map<Spot, MatchId>)
    ensures ids.Keys == spots && DistinctIds(ids) && forall s {:trigger s in ids} :: s in ids ==> ids[s] !in taken
  {
    if spots == {} {
      ids := map[];
    } else {
      var s :| s in spots;
      var rest := HandOut(spots - {s}, taken);
      var id := AboveAll(taken + rest.Values);
      ids := rest[s := id];
      assert forall t :: t in rest ==> rest[t] in rest.Values;
    }
  }

  lemma IdsToHandOut(taken: set<MatchId>, k: nat) returns (ids: map<Spot, MatchId>)
    ensures FreshIds(taken, k, ids)
  {
    ids := HandOut(Board(k), taken);
    assert forall s :: s in ids <==> s in ids.Keys;
    forall r: nat, p: nat | OnBoard(k, r, p)
      ensures Spot(r, p) in ids
    {
      assert Spot(r, p) in Board(k);
    }
  }

  lemma {:induction false} ListingOf(ids: set<MatchId>) returns (listing: seq<MatchId>)
    ensures NoRepeats(listing) && forall id :: id in listing <==> id in ids
  {
    if ids == {} {
      listing := [];
    } else {
      var id :| id in ids;
      var rest := ListingOf(ids - {id});
      listing := rest + [id];
    }
  }

  // ── Every drawn knockout can still be won ───────────────────────────────────

  /** A finished event can be opened again; a cancelled one cannot. */
  lemma OpenUp(e: Event) returns (f: Event)
    requires !e.status.Cancelled?
    ensures Reaches(e, f) && OpenForChanges(f) && f.categories == e.categories && f.matchFormat == e.matchFormat
  {
    ReachesItself(e);
    if e.status.Finished? {
      var call := UpdateEventCall(None, Some(InProgress));
      ReachesOn(e, e, call);
      f := Next(e, call);
    } else {
      f := e;
    }
  }

  lemma BoardCleared(ms: Matches, k: nat, ids: map<Spot, MatchId>)
    requires Wired(ms, k, ids) && ClearedFrom(ms, k, ids, 0, 0)
    ensures !HasResults(ms, Some(KnockoutStage)) && LoadedLooseEnds(ms)
  {
    forall id | id in ms && ms[id].stage.KnockoutStage?
      ensures ms[id].sets.None?
    {
      assert NoResult(ms, ids, ms[id].round, ms[id].position);
    }
    hide OnBoard;
  }

  /** Every knockout result of a drawn category can be cleared, from the final down. */
  lemma ClearKnockout(start: Event, e: Event, c: CategoryId) returns (ms: Matches)
    requires Reaches(start, e) && EventInv(e) && OpenForChanges(e) && c in e.categories && e.categories[c].hasBracket
    ensures Reaches(start, WithMatches(e, c, ms)) && !HasResults(ms, Some(KnockoutStage)) && LoadedLooseEnds(ms)
  {
    hide Reaches, HasResults, LoadedLooseEnds, Played;
    var cat := e.categories[c];
    assert CatInv(cat, e.matchFormat);
    var k, ids, draw :| DrawnBracket(cat.matches, cat.pairs, e.matchFormat, k, ids, draw);
    var play := Play(cat.matches, e.matchFormat);
    NothingAfterTheFinal(cat.matches, k, ids);
    var events := ClearOut(play, k, ids, draw, k, 0, Locked(cat));
    ms := Played(play, events).matches;
    BoardCleared(ms, k, ids);
    LoadsAreCalls(start, e, c, events);
  }

  lemma NothingAfterTheFinal(ms: Matches, k: nat, ids: map<Spot, MatchId>)
    ensures ClearedFrom(ms, k, ids, k, 0)
  {
  }

  /** Whatever else a straight category has loaded can be cleared too. */
  lemma ClearRest(start: Event, e: Event, c: CategoryId) returns (ms: Matches)
    requires Reaches(start, e) && OpenForChanges(e) && c in e.categories && !Locked(e.categories[c])
    requires LoadedLooseEnds(e.categories[c].matches)
    ensures Reaches(start, WithMatches(e, c, ms)) && !HasResults(ms, None)
  {
    hide Reaches, LoadedLooseEnds, Played;
    var play := Play(e.categories[c].matches, e.matchFormat);
    var events := ClearLooseOnes(play);
    ms := Played(play, events).matches;
    assert forall id :: id in ms && ms[id].sets.Some? ==> id in Loaded(ms);
    LoadsAreCalls(start, e, c, events);
  }

  /** From a bracket with every bye held, results alone crown a champion. */
  lemma CrownFrom(start: Event, e: Event, c: CategoryId, k: nat, ids: map<Spot, MatchId>, draw: seq<Option<Entrant>>)
    returns (f: Event)
    requires Reaches(start, e) && OpenForChanges(e) && c in e.categories && e.categories[c].hasBracket
    requires DrawnBracket(e.categories[c].matches, e.categories[c].pairs, e.matchFormat, k, ids, draw)
    requires ByesHeld(e.categories[c].matches, k, ids, draw)
    ensures Reaches(start, f) && Crowned(f, c)
  {
    hide Reaches, Played, Progress, SoundResults, ByesHeld, Playable, DistinctDraw;
    var cat := e.categories[c];
    var play := Play(cat.matches, e.matchFormat);
    var events := PlayOutAll(play, k, ids, draw, Locked(cat));
    LoadsAreCalls(start, e, c, events);
    LoadsKeepFormat(play, events, Locked(cat));
    PlayKeeps(play, events, k, ids, draw);
    f := WithMatches(e, c, Played(play, events).matches);
    assert CrownedIn(f.categories[c], f.matchFormat, k, ids, draw);
  }

  lemma PlayOutAll(play: Play, k: nat, ids: map<Spot, MatchId>, draw: seq<Option<Entrant>>, locked: bool)
    returns (events: seq<Change>)
    requires Sound(play, k, ids, draw) && ByesHeld(play.matches, k, ids, draw)
    ensures Champion(Played(play, events).matches, k, ids).Some? && Loads(events, locked)
  {
    events := PlayOut(play, k, ids, draw, 1, 0, locked);
  }

  // the zonas' bracket

  lemma Reseed(start: Event, e: Event, c: CategoryId) returns (f: Event)
    requires Reaches(start, e) && EventInv(e) && OpenForChanges(e) && c in e.categories
    requires e.categories[c].format.ZonasThenBracket? && e.categories[c].hasBracket
    requires !HasResults(e.categories[c].matches, Some(KnockoutStage))
    ensures Reaches(start, f) && Crowned(f, c)
  {
    hide Reaches, EventInv, CatInv, HasResults, ListsAll, Crowned;
    var undone := UndoBracket(start, e, c);
    f := SeedAndCrown(start, undone, c);
  }

  lemma UndoBracket(start: Event, e: Event, c: CategoryId) returns (f: Event)
    requires Reaches(start, e) && EventInv(e) && OpenForChanges(e) && c in e.categories
    requires e.categories[c].format.ZonasThenBracket? && e.categories[c].hasBracket
    requires !HasResults(e.categories[c].matches, Some(KnockoutStage))
    ensures Reaches(start, f) && EventInv(f) && OpenForChanges(f) && ReadyToSeed(f, c)
  {
    hide Reaches, EventInv, HasResults, ZonasStand;
    SeededFlags(e, c);
    var call := DeleteBracketCall(c);
    ReachesOn(start, e, call);
    f := Next(e, call);
    NextKeeps(e, call);
  }

  predicate ReadyToSeed(e: Event, c: CategoryId) {
    && HasFixture(e, c) && e.categories[c].format.ZonasThenBracket? && !e.categories[c].hasBracket
    && !ZonasPending(e.categories[c].matches)
  }

  lemma SeedAndCrown(start: Event, e: Event, c: CategoryId) returns (f: Event)
    requires Reaches(start, e) && EventInv(e) && OpenForChanges(e) && ReadyToSeed(e, c)
    ensures Reaches(start, f) && Crowned(f, c)
  {
    hide Reaches, Crowned, EventInv, CatInv, ZonasPending, FreshIds, Created, Drawn, Qualified, DrawnBracket, ByesHeld;
    var cat := e.categories[c];
    assert CatInv(cat, e.matchFormat) by {
      CatInvOf(e, c);
    }
    var listing := ListingOf(cat.matches.Keys);
    var entrants := Qualified(cat, listing, cat.advancePerGroup);
    var k := RoundsFor(|entrants|);
    var spots := IdsToHandOut(cat.matches.Keys, k);
    QualifiedFit(cat, listing, e.matchFormat);
    ZonasAlone(cat, e.matchFormat);
    BracketDrawn(cat.matches, cat.pairs, e.matchFormat, entrants, spots);
    var call := GenerateBracketCall(c, listing, spots);
    ReachesOn(start, e, call);
    f := CrownFrom(start, Next(e, call), c, k, spots, Drawn(entrants));
  }

  lemma CatInvOf(e: Event, c: CategoryId)
    requires EventInv(e) && c in e.categories
    ensures CatInv(e.categories[c], e.matchFormat)
  {
    hide CatInv;
  }

  lemma ZonasAlone(cat: Category, format: MatchFormat)
    requires CatInv(cat, format) && !cat.hasBracket
    ensures OnlyZonas(cat.matches) && SoundResults(cat.matches, format)
  {
  }

  // the straight bracket

  lemma Redraw(start: Event, e: Event, c: CategoryId) returns (f: Event)
    requires Reaches(start, e) && EventInv(e) && OpenForChanges(e) && c in e.categories
    requires e.categories[c].format.StraightBracket? && e.categories[c].hasBracket
    requires !HasResults(e.categories[c].matches, None)
    ensures Reaches(start, f) && Crowned(f, c)
  {
    hide Reaches, EventInv, CatInv, HasResults, Crowned;
    var undone := UndoFixture(start, e, c);
    f := DrawAndCrown(start, undone, c);
  }

  predicate ReadyToDraw(e: Event, c: CategoryId) {
    c in e.categories && e.categories[c].format.StraightBracket? && !e.categories[c].hasFixture
    && |e.categories[c].pairs| >= 2
  }

  lemma UndoFixture(start: Event, e: Event, c: CategoryId) returns (f: Event)
    requires Reaches(start, e) && EventInv(e) && OpenForChanges(e) && c in e.categories
    requires e.categories[c].format.StraightBracket? && e.categories[c].hasBracket
    requires !HasResults(e.categories[c].matches, None)
    ensures Reaches(start, f) && EventInv(f) && OpenForChanges(f) && ReadyToDraw(f, c)
  {
    hide Reaches, EventInv, HasResults, ZonasStand, AnyFixture;
    SeededFlags(e, c);
    var call := DeleteFixtureCall(c);
    ReachesOn(start, e, call);
    f := Next(e, call);
    NextKeeps(e, call);
  }

  lemma DrawAndCrown(start: Event, e: Event, c: CategoryId) returns (f: Event)
    requires Reaches(start, e) && EventInv(e) && OpenForChanges(e) && ReadyToDraw(e, c)
    ensures Reaches(start, f) && Crowned(f, c)
  {
    hide Reaches, Crowned, EventInv, FreshIds, Created, Drawn, Seeded, DrawnBracket, ByesHeld, DistinctEntrants;
    var cat := e.categories[c];
    CatInvOf(e, c);
    RegisteredEntrants(cat.pairs);
    var entrants := AsEntrants(Seeded(cat.pairs));
    var k := RoundsFor(|cat.pairs|);
    var spots := IdsToHandOut({}, k);
    var none: Matches := map[];
    assert none.Keys == {};
    BracketDrawn(none, cat.pairs, e.matchFormat, entrants, spots);
    NothingBeside(Created(Drawn(entrants), k, spots));
    var call := GenerateFixtureCall(c, [], Given([], [], spots, []));
    ReachesOn(start, e, call);
    f := CrownFrom(start, Next(e, call), c, k, spots, Drawn(entrants));
  }

  lemma CrownReachable(e: Event, c: CategoryId) returns (f: Event)
    requires EventInv(e) && c in e.categories && e.categories[c].hasBracket && !e.status.Cancelled?
    ensures Reaches(e, f) && Crowned(f, c)
  {
    hide Reaches, EventInv, HasResults, Crowned, LoadedLooseEnds;
    var running := OpenUp(e);
    ReachedKeeps(e, running);
    var ms := ClearKnockout(e, running, c);
    var cleared := WithMatches(running, c, ms);
    ReachedKeeps(e, cleared);
    SeededFlags(cleared, c);
    if cleared.categories[c].format.ZonasThenBracket? {
      f := Reseed(e, cleared, c);
    } else {
      var none := ClearRest(e, cleared, c);
      var empty := WithMatches(cleared, c, none);
      ReachedKeeps(e, empty);
      f := Redraw(e, empty, c);
    }
  }

  // ── A cancelled event ───────────────────────────────────────────────────────

  predicate StandsStill(e: Event, f: Event, c: CategoryId) {
    f.status.Cancelled? && f.matchFormat == e.matchFormat && c in e.categories && c in f.categories
    && f.categories[c] == e.categories[c]
  }

  lemma CancelledStep(e: Event, call: Call, c: CategoryId)
    requires EventInv(e) && WellFormed(e, call) && e.status.Cancelled? && HasFixture(e, c)
    ensures StandsStill(e, Next(e, call), c)
  {
    SeededFlags(e, c);
    hide EventInv, ZonasStand, ZonasPending, OnlyZonas, UpdateMatch, HasResults, GivenFits, FreshIds, GroupsOf,
         WithFixture, Qualified;
    match call
    case GenerateFixtureCall(_, _, _) =>
    case GenerateBracketCall(_, _, _) =>
    case _ =>
  }

  lemma {:induction false} CancelledStands(trace: seq<Event>, calls: seq<Call>, n: nat, c: CategoryId)
    requires IsRun(trace, calls) && EventInv(trace[0]) && n < |trace| && trace[0].status.Cancelled?
             && HasFixture(trace[0], c)
    ensures StandsStill(trace[0], trace[n], c)
  {
    hide EventInv, WellFormed, Next;
    if n > 0 {
      CancelledStands(trace, calls, n - 1, c);
      RunKeeps(trace, calls, n - 1);
      CancelledStep(trace[n - 1], calls[n - 1], c);
    }
  }

  /**
   * From any reachable event with a drawn knockout, some run of calls crowns its champion exactly
   * when the event is not cancelled, or the champion is already there. A cleared bye is no obstacle:
   * results can be cleared, the bracket undone, and the same pairs drawn again.
   */
  lemma ChampionReachableByCallsExactly(e: Event, c: CategoryId)
    requires EventInv(e) && c in e.categories && e.categories[c].hasBracket
    ensures (exists f :: Reaches(e, f) && Crowned(f, c)) <==> (!e.status.Cancelled? || Crowned(e, c))
  {
    if !e.status.Cancelled? {
      var f := CrownReachable(e, c);
    } else {
      ReachesItself(e);
      SeededFlags(e, c);
      forall f | Reaches(e, f) && Crowned(f, c)
        ensures Crowned(e, c)
      {
        var trace, calls :| RunBetween(trace, calls, e, f);
        CancelledStands(trace, calls, |trace| - 1, c);
        hide EventInv;
      }
    }
  }
}
