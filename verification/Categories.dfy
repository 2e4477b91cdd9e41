/**
 * An event's categories: registration, drawing the fixture, undoing it, seeding the bracket from
 * the zonas, and results (src/competitions/competitions.service.ts). Ids the database hands out
 * and the order it lists rows in are inputs.
 */
module Categories {
  import opened Base
  import opened Score
  import opened Draw
  import opened RoundRobin
  import opened Zonas
  import opened Standings
  import opened Bracket

  type CategoryId = nat

  datatype Format = AllPlayAll | ZonasThenBracket | StraightBracket

  datatype Kind = Torneo | Pena

  datatype Status = Open | InProgress | Finished | Cancelled

  datatype Pair = Pair(id: PairId, shown: string, seed: Option<int>, createdAt: int, group: Option<GroupId>)

  datatype Zona = Zona(id: GroupId, name: string)

  datatype Category = Category(
    format: Format,
    groupSize: nat,
    advancePerGroup: nat,
    maxPairs: Option<nat>,
    hasFixture: bool,
    hasBracket: bool,
    pairs: seq<Pair>,
    zonas: seq<Zona>,
    matches: Matches)

  datatype Event = Event(kind: Kind, status: Status, matchFormat: MatchFormat, categories: map<CategoryId, Category>)

  // ── Registration ────────────────────────────────────────────────────────────

  /** The request as the HTTP layer lets it through: sizes in range. */
  datatype Settings = Settings(format: Format, groupSize: nat, advancePerGroup: nat, maxPairs: Option<nat>)

  predicate InRange(s: Settings) {
    s.groupSize >= 2 && s.advancePerGroup >= 1
  }

  /** No more pairs go through than a zona has. */
  predicate GoodShape(s: Settings) {
    s.format.ZonasThenBracket? ==> s.advancePerGroup <= s.groupSize
  }

  predicate OpenForChanges(e: Event) {
    !e.status.Cancelled? && !e.status.Finished?
  }

  function With(e: Event, c: CategoryId, cat: Category): Event {
    e.(categories := e.categories[c := cat])
  }

  function AddCategory(e: Event, c: CategoryId, s: Settings): Result<Event> {
    if e.status.Cancelled? then Err(Conflict)
    else if e.kind.Pena? then Err(BadRequest)
    else if !GoodShape(s) then Err(BadRequest)
    else Ok(With(e, c, Category(s.format, s.groupSize, s.advancePerGroup, s.maxPairs, false, false, [], [], map[])))
  }

  function UpdateCategory(e: Event, c: CategoryId, s: Settings): Result<Event> {
    if c !in e.categories then Err(NotFound)
    else if e.categories[c].hasFixture then Err(Conflict)
    else if !GoodShape(s) then Err(BadRequest)
    else if s.maxPairs.Some? && s.maxPairs.value < |e.categories[c].pairs| then Err(BadRequest)
    else Ok(With(e, c, e.categories[c].(format := s.format, groupSize := s.groupSize,
                                        advancePerGroup := s.advancePerGroup, maxPairs := s.maxPairs)))
  }

  function RemoveCategory(e: Event, c: CategoryId): Result<Event> {
    if c !in e.categories then Err(NotFound)
    else if e.kind.Pena? then Err(BadRequest)
    else if |e.categories[c].pairs| > 0 then Err(Conflict)
    else Ok(e.(categories := e.categories - {c}))
  }

  function TakesPairs(cat: Category): Result<()> {
    if cat.hasFixture then Err(Conflict)
    else if cat.maxPairs.Some? && |cat.pairs| >= cat.maxPairs.value then Err(Conflict)
    else Ok(())
  }

  function AddPair(e: Event, c: CategoryId, p: Pair): Result<Event> {
    if !OpenForChanges(e) then Err(Conflict)
    else if c !in e.categories then Err(NotFound)
    else match TakesPairs(e.categories[c])
      case Err(error) => Err(error)
      case Ok(_) => Ok(With(e, c, e.categories[c].(pairs := e.categories[c].pairs + [p.(group := None)])))
  }

  function PlaceOf(pairs: seq<Pair>, id: PairId): (i: Option<nat>)
    ensures i.Some? ==> i.value < |pairs| && pairs[i.value].id == id
    ensures i.None? ==> forall j :: 0 <= j < |pairs| ==> pairs[j].id != id
  {
    if pairs == [] then None
    else if pairs[|pairs| - 1].id == id then Some(|pairs| - 1)
    else PlaceOf(pairs[..|pairs| - 1], id)
  }

  function Without(pairs: seq<Pair>, i: nat): seq<Pair>
    requires i < |pairs|
  {
    pairs[..i] + pairs[i + 1..]
  }

  /** `p` carries the pair's new seed and names; `to` is the category asked for, if any. */
  function UpdatePair(e: Event, c: CategoryId, p: Pair, to: Option<CategoryId>): Result<Event> {
    if !OpenForChanges(e) then Err(Conflict)
    else if c !in e.categories || PlaceOf(e.categories[c].pairs, p.id).None? then Err(NotFound)
    else
      var cat := e.categories[c];
      var i := PlaceOf(cat.pairs, p.id).value;
      var pair := cat.pairs[i].(seed := p.seed, shown := p.shown);
      if to.None? || to.value == c then Ok(With(e, c, cat.(pairs := cat.pairs[i := pair])))
      else if cat.hasFixture then Err(Conflict)
      else if to.value !in e.categories then Err(NotFound)
      else match TakesPairs(e.categories[to.value])
        case Err(error) => Err(error)
        case Ok(_) =>
          var target := e.categories[to.value];
          Ok(With(With(e, c, cat.(pairs := Without(cat.pairs, i))), to.value, target.(pairs := target.pairs + [pair])))
  }

  function RemovePair(e: Event, c: CategoryId, id: PairId): Result<Event> {
    if c !in e.categories || PlaceOf(e.categories[c].pairs, id).None? then Err(NotFound)
    else if e.categories[c].hasFixture then Err(Conflict)
    else
      var cat := e.categories[c];
      Ok(With(e, c, cat.(pairs := Without(cat.pairs, PlaceOf(cat.pairs, id).value))))
  }

  // ── The fixture ─────────────────────────────────────────────────────────────

  /** Seed first (unseeded last), then registration order. */
  predicate SeedsBefore(x: Pair, y: Pair) {
    match (x.seed, y.seed)
    case (Some(s), Some(t)) => s < t || (s == t && x.createdAt <= y.createdAt)
    case (Some(_), None) => true
    case (None, Some(_)) => false
    case (None, None) => x.createdAt <= y.createdAt
  }

  function Seeded(pairs: seq<Pair>): seq<Pair> {
    SortBy(pairs, SeedsBefore)
  }

  function UnplayedMatch(): Match {
    Match(GroupStage, None, 0, 0, None, None, None, None, None, None, None, None, None, None)
  }

  /** How many of the first `k` pairings are of this round. */
  function InRound(pairings: seq<Pairing>, k: nat, round: nat): nat
    requires k <= |pairings|
  {
    if k == 0 then 0 else InRound(pairings, k - 1, round) + (if pairings[k - 1].round == round then 1 else 0)
  }

  /** One match per pairing, numbered inside its round. */
  function GroupRows(members: seq<Pair>, pairings: seq<Pairing>, zona: Option<GroupId>): (rows: seq<Match>)
    requires forall k :: 0 <= k < |pairings| ==> pairings[k].a < |members| && pairings[k].b < |members|
    ensures |rows| == |pairings|
  {
    seq(|pairings|, k requires 0 <= k < |pairings| =>
          UnplayedMatch().(group := zona, round := pairings[k].round,
                           position := InRound(pairings, k, pairings[k].round),
                   pairA := Some(members[pairings[k].a].id), pairB := Some(members[pairings[k].b].id)))
  }

  function ZonaRows(members: seq<Pair>, zona: Option<GroupId>): seq<Match> {
    PairingsAreComplete(|members|);
    GroupRows(members, AllPairings(|members|), zona)
  }

  function AllZonaRows(groups: seq<seq<Pair>>, zonas: seq<Zona>): seq<Match>
    requires |groups| == |zonas|
  {
    if groups == [] then []
    else AllZonaRows(groups[..|groups| - 1], zonas[..|zonas| - 1]) +
         ZonaRows(groups[|groups| - 1], Some(zonas[|zonas| - 1].id))
  }

  /** Round robin with courts: the wave is the round, each match on its wave's court. */
  function WaveRows(members: seq<Pair>, placed: seq<Placed>, courts: seq<CourtId>): (rows: seq<Match>)
    requires forall k :: 0 <= k < |placed| ==>
      placed[k].pairing.a < |members| && placed[k].pairing.b < |members| && placed[k].court < |courts|
    ensures |rows| == |placed|
  {
    var waved := seq(|placed|, k requires 0 <= k < |placed| => placed[k].pairing.(round := placed[k].wave));
    var rows := GroupRows(members, waved, None);
    seq(|placed|, k requires 0 <= k < |placed| => rows[k].(courtId := Some(courts[placed[k].court])))
  }

  function Inserted(rows: seq<Match>, ids: seq<MatchId>): (ms: Matches)
    requires |ids| == |rows| && forall i, j :: 0 <= i < j < |ids| ==> ids[i] != ids[j]
    ensures forall id :: id in ms <==> id in ids
    ensures forall i :: 0 <= i < |ids| ==> ms[ids[i]] == rows[i]
  {
    map i | 0 <= i < |ids| :: ids[i] := rows[i]
  }

  function GroupName(index: nat): string {
    var letter := "ABCDEFGHIJKLMNOPQRSTUVWXYZ"[index % 26];
    "Zona " + seq(index / 26 + 1, _ => letter)
  }

  predicate HasId(members: seq<Pair>, id: PairId) {
    exists i :: 0 <= i < |members| && members[i].id == id
  }

  /** The zona whose members include the pair. */
  function ZonaOf(groups: seq<seq<Pair>>, zonas: seq<Zona>, id: PairId): Option<GroupId>
    requires |groups| == |zonas|
  {
    if groups == [] then None
    else if HasId(groups[|groups| - 1], id) then Some(zonas[|zonas| - 1].id)
    else ZonaOf(groups[..|groups| - 1], zonas[..|zonas| - 1], id)
  }

  function InZonas(pairs: seq<Pair>, groups: seq<seq<Pair>>, zonas: seq<Zona>): (r: seq<Pair>)
    requires |groups| == |zonas|
    ensures |r| == |pairs| && forall i :: 0 <= i < |r| ==>
              r[i] == pairs[i].(group := ZonaOf(groups, zonas, pairs[i].id))
  {
    seq(|pairs|, i requires 0 <= i < |pairs| => pairs[i].(group := ZonaOf(groups, zonas, pairs[i].id)))
  }

  /** What the database and the court packing hand back while a fixture is drawn. */
  datatype Given = Given(zonas: seq<GroupId>, rows: seq<MatchId>, spots: map<Spot, MatchId>, placed: seq<Placed>)

  function AsEntrants(pairs: seq<Pair>): (r: seq<Entrant>)
    ensures |r| == |pairs|
  {
    seq(|pairs|, i requires 0 <= i < |pairs| => Entrant(pairs[i].id, pairs[i].shown, None))
  }

  function NewZonas(ids: seq<GroupId>): (zonas: seq<Zona>)
    ensures |zonas| == |ids|
  {
    seq(|ids|, g requires 0 <= g < |ids| => Zona(ids[g], GroupName(g)))
  }

  function GroupsOf(cat: Category): (groups: seq<seq<Pair>>)
    requires cat.groupSize >= 2
  {
    Split(Seeded(cat.pairs), cat.groupSize).value
  }

  /** Each new row has its own new id, and the waves are a packing of the round robin. */
  ghost predicate GivenFits(cat: Category, courts: seq<CourtId>, given: Given) {
    && NoRepeats(given.rows)
    && NoRepeats(given.zonas)
    && match cat.format
       case AllPlayAll =>
         if courts == [] then |given.rows| == |AllPairings(|cat.pairs|)|
         else
           && |given.rows| == |given.placed|
           && multiset(Pairings(given.placed)) == multiset(AllPairings(|cat.pairs|))
           && SoundWaves(given.placed, |courts|)
       case ZonasThenBracket =>
         cat.groupSize >= 2 ==>
           |given.zonas| == |GroupsOf(cat)| && |given.rows| == |AllZonaRows(GroupsOf(cat), NewZonas(given.zonas))|
       case StraightBracket => FreshIds({}, RoundsFor(|cat.pairs|), given.spots)
  }

  lemma PlacedFits(pairs: seq<Pair>, placed: seq<Placed>)
    requires multiset(Pairings(placed)) == multiset(AllPairings(|pairs|))
    ensures forall k :: 0 <= k < |placed| ==> placed[k].pairing.a < placed[k].pairing.b < |pairs|
  {
    PairingsAreComplete(|pairs|);
    forall k | 0 <= k < |placed|
      ensures placed[k].pairing.a < placed[k].pairing.b < |pairs|
    {
      assert Pairings(placed)[k] in multiset(Pairings(placed));
      assert placed[k].pairing in AllPairings(|pairs|);
    }
  }

  function RoundRobinRows(cat: Category, courts: seq<CourtId>, given: Given): (rows: seq<Match>)
    requires cat.format.AllPlayAll? && GivenFits(cat, courts, given)
    ensures |rows| == |given.rows|
  {
    SortByContents(cat.pairs, SeedsBefore);
    var seeded := Seeded(cat.pairs);
    if courts == [] then ZonaRows(seeded, None)
    else
      PlacedFits(seeded, given.placed);
      WaveRows(seeded, given.placed, courts)
  }

  function WithFixture(cat: Category, courts: seq<CourtId>, given: Given): Category
    requires GivenFits(cat, courts, given) && |cat.pairs| >= 2 && cat.groupSize >= 2
  {
    match cat.format
    case AllPlayAll =>
      cat.(hasFixture := true, matches := Inserted(RoundRobinRows(cat, courts, given), given.rows))
    case ZonasThenBracket =>
      var groups, zonas := GroupsOf(cat), NewZonas(given.zonas);
      cat.(hasFixture := true, zonas := zonas, pairs := InZonas(cat.pairs, groups, zonas),
           matches := Inserted(AllZonaRows(groups, zonas), given.rows))
    case StraightBracket =>
      var entrants := AsEntrants(Seeded(cat.pairs));
      cat.(hasFixture := true, hasBracket := true,
           matches := Created(Drawn(entrants), RoundsFor(|entrants|), given.spots))
  }

  /** What is handed back fits the category, if there is one. */
  ghost predicate FixtureFits(e: Event, c: CategoryId, courts: seq<CourtId>, given: Given) {
    c in e.categories ==> e.categories[c].groupSize >= 2 && GivenFits(e.categories[c], courts, given)
  }

  function GenerateFixture(e: Event, c: CategoryId, courts: seq<CourtId>, given: Given): Result<Event>
    requires FixtureFits(e, c, courts, given)
  {
    if !OpenForChanges(e) then Err(Conflict)
    else if c !in e.categories then Err(NotFound)
    else
      var cat := e.categories[c];
      if cat.hasFixture then Err(Conflict)
      else if |cat.pairs| < 2 then Err(BadRequest)
      else if cat.format.ZonasThenBracket?
              && |GroupsOf(cat)| * Min(cat.advancePerGroup, cat.groupSize) < 2 then Err(BadRequest)
      else
        var drawn := With(e, c, WithFixture(cat, courts, given));
        Ok(if e.status.Open? then drawn.(status := InProgress) else drawn)
  }

  predicate HasResults(ms: Matches, stage: Option<Stage>) {
    exists id :: id in ms && ms[id].sets.Some? && (stage.Some? ==> ms[id].stage == stage.value)
  }

  function Ungrouped(pairs: seq<Pair>): (r: seq<Pair>)
    ensures |r| == |pairs| && forall i :: 0 <= i < |r| ==> r[i] == pairs[i].(group := None)
  {
    seq(|pairs|, i requires 0 <= i < |pairs| => pairs[i].(group := None))
  }

  predicate AnyFixture(e: Event) {
    exists c :: c in e.categories && e.categories[c].hasFixture
  }

  function DeleteFixture(e: Event, c: CategoryId): Result<Event> {
    if e.status.Cancelled? then Err(Conflict)
    else if c !in e.categories then Err(NotFound)
    else if HasResults(e.categories[c].matches, None) then Err(Conflict)
    else
      var cat := e.categories[c];
      var after := With(e, c, cat.(hasFixture := false, hasBracket := false, pairs := Ungrouped(cat.pairs), zonas := [],
                                   matches := map[]));
      Ok(if !AnyFixture(after) && e.status.InProgress? then after.(status := Open) else after)
  }

  // ── The bracket of a zonas category ─────────────────────────────────────────

  function MembersOf(pairs: seq<Pair>, zona: GroupId): seq<Pair> {
    if pairs == [] then []
    else
      var rest, last := MembersOf(pairs[..|pairs| - 1], zona), pairs[|pairs| - 1];
      if last.group == Some(zona) then rest + [last] else rest
  }

  function IdsOf(pairs: seq<Pair>): (ids: seq<PairId>)
    ensures |ids| == |pairs| && forall i :: 0 <= i < |ids| ==> ids[i] == pairs[i].id
  {
    seq(|pairs|, i requires 0 <= i < |pairs| => pairs[i].id)
  }

  function AsPlayed(m: Match): PlayedMatch {
    PlayedMatch(m.pairA, m.pairB, m.sets, m.winner)
  }

  /** A zona's matches in the order the query lists them. */
  function PlayedIn(ms: Matches, listing: seq<MatchId>, zona: GroupId): seq<PlayedMatch> {
    if listing == [] then []
    else
      var rest, last := PlayedIn(ms, listing[..|listing| - 1], zona), listing[|listing| - 1];
      if last in ms && ms[last].stage.GroupStage?
         && ms[last].group == Some(zona) then rest + [AsPlayed(ms[last])] else rest
  }

  function ZonaTable(cat: Category, listing: seq<MatchId>, zona: GroupId): seq<PairId> {
    Ranked(IdsOf(MembersOf(Seeded(cat.pairs), zona)), PlayedIn(cat.matches, listing, zona))
  }

  function Decimal(n: nat): string {
    var digit := "0123456789"[n % 10];
    if n < 10 then [digit] else Decimal(n / 10) + [digit]
  }

  /** Who finished `place`-th in each of the first `g` zonas. */
  function PlacedAt(cat: Category, listing: seq<MatchId>, place: nat, g: nat): seq<Entrant>
    requires g <= |cat.zonas|
  {
    if g == 0 then []
    else
      var zona := cat.zonas[g - 1];
      var table := ZonaTable(cat, listing, zona.id);
      PlacedAt(cat, listing, place, g - 1) +
      (if place < |table| then [Entrant(table[place], Decimal(place + 1) + "° " + zona.name, Some(zona.id))] else [])
  }

  /** First of each zona, then second of each, and so on. */
  function Qualified(cat: Category, listing: seq<MatchId>, places: nat): seq<Entrant> {
    if places == 0 then [] else Qualified(cat, listing, places - 1) + PlacedAt(cat, listing, places - 1, |cat.zonas|)
  }

  predicate ZonasPending(ms: Matches) {
    exists id :: id in ms && ms[id].stage.GroupStage? && ms[id].winner.None?
  }

  /** The new matches get new ids, one for each spot of the bracket. */
  ghost predicate BracketFits(e: Event, c: CategoryId, listing: seq<MatchId>, spots: map<Spot, MatchId>) {
    c in e.categories ==>
      FreshIds(e.categories[c].matches.Keys,
               RoundsFor(|Qualified(e.categories[c], listing, e.categories[c].advancePerGroup)|), spots)
  }

  function GenerateBracket(e: Event, c: CategoryId, listing: seq<MatchId>, spots: map<Spot, MatchId>): Result<Event>
    requires BracketFits(e, c, listing, spots)
  {
    if !OpenForChanges(e) then Err(Conflict)
    else if c !in e.categories then Err(NotFound)
    else
      var cat := e.categories[c];
      if !cat.format.ZonasThenBracket? then Err(BadRequest)
      else if !cat.hasFixture then Err(Conflict)
      else if cat.hasBracket then Err(Conflict)
      else if ZonasPending(cat.matches) then Err(Conflict)
      else
        var entrants := Qualified(cat, listing, cat.advancePerGroup);
        if |entrants| < 2 then Err(BadRequest)
        else Ok(With(e, c, cat.(hasBracket := true,
                                matches := cat.matches + Created(Drawn(entrants), RoundsFor(|entrants|), spots))))
  }

  function ZonaPart(ms: Matches): (r: Matches)
    ensures forall id :: id in r <==> id in ms && ms[id].stage.GroupStage?
    ensures forall id :: id in r ==> r[id] == ms[id]
  {
    map id | id in ms && ms[id].stage.GroupStage? :: ms[id]
  }

  function DeleteBracket(e: Event, c: CategoryId): Result<Event> {
    if e.status.Cancelled? then Err(Conflict)
    else if c !in e.categories then Err(NotFound)
    else if !e.categories[c].format.ZonasThenBracket? then Err(BadRequest)
    else if HasResults(e.categories[c].matches, Some(KnockoutStage)) then Err(Conflict)
    else
      var cat := e.categories[c];
      Ok(With(e, c, cat.(hasBracket := false, matches := ZonaPart(cat.matches))))
  }

  // ── Results and the event itself ────────────────────────────────────────────

  function LoadResult(e: Event, c: CategoryId, id: MatchId, edit: MatchEdit, courts: set<CourtId>): Result<Event> {
    if !OpenForChanges(e) then Err(Conflict)
    else if c !in e.categories then Err(NotFound)
    else
      var cat := e.categories[c];
      match UpdateMatch(cat.matches, id, edit, e.matchFormat, cat.format.ZonasThenBracket? && cat.hasBracket, courts)
      case Err(error) => Err(error)
      case Ok(ms) => Ok(With(e, c, cat.(matches := ms)))
  }

  predicate AnyResult(e: Event) {
    exists c :: c in e.categories && AnyPlayed(e.categories[c].matches)
  }

  /** The part of an event update the draw depends on: its format and its status. */
  function UpdateEvent(e: Event, format: Option<MatchFormat>, status: Option<Status>): Result<Event> {
    if e.status.Cancelled? then Err(Conflict)
    else if format.Some? && format.value != e.matchFormat && AnyResult(e) then Err(Conflict)
    else Ok(e.(matchFormat := if format.Some? then format.value else e.matchFormat,
               status := if status.Some? then status.value else e.status))
  }

  function CancelEvent(e: Event): Result<Event> {
    if e.status.Cancelled? then Err(Conflict) else Ok(e.(status := Cancelled))
  }
}
