/** The month-by-month series of the business (src/ops/ops-month-states.service.ts). */
module MonthSeries {
  import opened Base

  type ClubId = string

  /** A calendar month, 1 to 12. */
  datatype Month = Month(year: int, month: int)

  predicate IsMonth(m: Month) {
    1 <= m.month <= 12
  }

  /** Months since year 0. */
  function Index(m: Month): int {
    m.year * 12 + m.month - 1
  }

  function MonthAt(index: int): (m: Month)
    ensures IsMonth(m) && Index(m) == index
  {
    Month(index / 12, index % 12 + 1)
  }

  /** The `count` months up to and including `current`, oldest first. */
  function LastMonths(current: Month, count: nat): (months: seq<Month>)
    ensures |months| == count
    ensures forall i :: 0 <= i < count ==> months[i] == MonthAt(Index(current) - (count - 1 - i))
  {
    seq(count, i requires 0 <= i < count => MonthAt(Index(current) - (count - 1 - i)))
  }

  function PreviousMonth(m: Month): Month {
    LastMonths(m, 2)[0]
  }

  /** What a calendar says comes next. */
  function NextMonth(m: Month): Month {
    if m.month == 12 then Month(m.year + 1, 1) else Month(m.year, m.month + 1)
  }

  lemma IndexTells(m: Month, n: Month)
    requires IsMonth(m) && IsMonth(n) && Index(m) == Index(n)
    ensures m == n
  {
  }

  /** The months are consecutive on the calendar, over year ends too, and end with the current one. */
  lemma LastMonthsAreConsecutive(current: Month, count: nat)
    requires IsMonth(current)
    ensures var months := LastMonths(current, count);
      && (count > 0 ==> months[count - 1] == current)
      && (forall i :: 0 <= i < count - 1 ==>
            months[i + 1] == NextMonth(months[i]) && months[i] == PreviousMonth(months[i + 1]))
  {
    var months := LastMonths(current, count);
    if count > 0 {
      IndexTells(months[count - 1], current);
    }
    forall i | 0 <= i < count - 1
      ensures months[i + 1] == NextMonth(months[i]) && months[i] == PreviousMonth(months[i + 1])
    {
      IndexTells(months[i + 1], NextMonth(months[i]));
      IndexTells(months[i], PreviousMonth(months[i + 1]));
    }
  }

  // ── The series ──────────────────────────────────────────────────────────────

  datatype StateRow = StateRow(clubId: ClubId, month: Month, clubName: string, isActive: bool, mrrCents: int)

  /** A month's rows, one per club, in the order the clubs first appeared. */
  type MonthRows = seq<StateRow>

  function PlaceOf(rows: MonthRows, clubId: ClubId): (i: Option<nat>)
    ensures i.Some? ==> i.value < |rows| && rows[i.value].clubId == clubId
    ensures i.None? ==> forall j :: 0 <= j < |rows| ==> rows[j].clubId != clubId
  {
    if rows == [] then None
    else if rows[|rows| - 1].clubId == clubId then Some(|rows| - 1)
    else PlaceOf(rows[..|rows| - 1], clubId)
  }

  /** A later row of the same club replaces the earlier one where it stands. */
  function Put(rows: MonthRows, row: StateRow): MonthRows {
    var i := PlaceOf(rows, row.clubId);
    if i.Some? then rows[i.value := row] else rows + [row]
  }

  function RowsIn(byMonth: map<Month, MonthRows>, m: Month): MonthRows {
    if m in byMonth then byMonth[m] else []
  }

  function Filled(states: seq<StateRow>): map<Month, MonthRows> {
    if states == [] then map[]
    else
      var n := |states| - 1;
      var before := Filled(states[..n]);
      before[states[n].month := Put(RowsIn(before, states[n].month), states[n])]
  }

  function Paying(rows: MonthRows): MonthRows {
    if rows == [] then []
    else
      var rest, last := Paying(rows[..|rows| - 1]), rows[|rows| - 1];
      if last.isActive then rest + [last] else rest
  }

  /** The rows whose club is not among `others`. */
  function NotIn(rows: MonthRows, others: MonthRows): MonthRows {
    if rows == [] then []
    else
      var rest, last := NotIn(rows[..|rows| - 1], others), rows[|rows| - 1];
      if PlaceOf(others, last.clubId).None? then rest + [last] else rest
  }

  function Mrr(rows: MonthRows): int {
    if rows == [] then 0 else Mrr(rows[..|rows| - 1]) + rows[|rows| - 1].mrrCents
  }

  function Names(rows: MonthRows): (names: seq<string>)
    ensures |names| == |rows|
  {
    seq(|rows|, i requires 0 <= i < |rows| => rows[i].clubName)
  }

  function CountOf(months: seq<Month>, m: Month): nat {
    if months == [] then 0 else CountOf(months[..|months| - 1], m) + (if months[|months| - 1] == m then 1 else 0)
  }

  datatype MonthBusiness = MonthBusiness(
    month: Month,
    newClubs: nat,
    tracked: bool,
    mrrCents: Option<int>,
    paying: Option<nat>,
    newPaying: Option<nat>,
    churned: Option<nat>,
    churnedClubs: seq<string>)

  function BusinessOf(byMonth: map<Month, MonthRows>, createdMonths: seq<Month>, m: Month): MonthBusiness {
    var newClubs := CountOf(createdMonths, m);
    if m !in byMonth then MonthBusiness(m, newClubs, false, None, None, None, None, [])
    else
      var now := Paying(byMonth[m]);
      var previous := PreviousMonth(m);
      if previous !in byMonth then MonthBusiness(m, newClubs, true, Some(Mrr(now)), Some(|now|), None, None, [])
      else
        var before := Paying(byMonth[previous]);
        MonthBusiness(m, newClubs, true, Some(Mrr(now)), Some(|now|), Some(|NotIn(now, before)|),
                      Some(|NotIn(before, now)|), Names(NotIn(before, now)))
  }

  method MonthlyBusiness(months: seq<Month>, states: seq<StateRow>,
                         createdMonths: seq<Month>) returns (series: seq<MonthBusiness>)
    ensures |series| == |months|
    ensures forall i :: 0 <= i < |months| ==> series[i] == BusinessOf(Filled(states), createdMonths, months[i])
  {
    hide Put, BusinessOf;
    var byMonth: map<Month, MonthRows> := map[];
    for i := 0 to |states|
      invariant byMonth == Filled(states[..i])
    {
      var row := states[i];
      assert states[..i + 1][..i] == states[..i];
      var month := if row.month in byMonth then byMonth[row.month] else [];
      byMonth := byMonth[row.month := Put(month, row)];
    }
    assert states[..|states|] == states;
    series := seq(|months|, i requires 0 <= i < |months| => BusinessOf(byMonth, createdMonths, months[i]));
  }

  // ── The accounts close ──────────────────────────────────────────────────────

  predicate OnePerClub(rows: MonthRows) {
    forall i, j :: 0 <= i < j < |rows| ==> rows[i].clubId != rows[j].clubId
  }

  function Clubs(rows: MonthRows): set<ClubId> {
    set r | r in rows :: r.clubId
  }

  lemma {:induction false} FilledOnePerClub(states: seq<StateRow>, m: Month)
    ensures OnePerClub(RowsIn(Filled(states), m))
  {
    if states != [] {
      FilledOnePerClub(states[..|states| - 1], m);
    }
  }

  lemma {:induction false} ClubsSize(rows: MonthRows)
    requires OnePerClub(rows)
    ensures |Clubs(rows)| == |rows|
  {
    if rows != [] {
      var n := |rows| - 1;
      ClubsSize(rows[..n]);
      assert rows == rows[..n] + [rows[n]];
      assert Clubs(rows) == Clubs(rows[..n]) + {rows[n].clubId};
      assert rows[n].clubId !in Clubs(rows[..n]);
    }
  }

  lemma {:induction false} PayingAreRows(rows: MonthRows)
    requires OnePerClub(rows)
    ensures OnePerClub(Paying(rows)) && forall r :: r in Paying(rows) <==> r in rows && r.isActive
  {
    if rows != [] {
      PayingAreRows(rows[..|rows| - 1]);
      assert rows == rows[..|rows| - 1] + [rows[|rows| - 1]];
    }
  }

  lemma {:induction false} NotInAre(rows: MonthRows, others: MonthRows)
    requires OnePerClub(rows)
    ensures OnePerClub(NotIn(rows, others)) && (forall r :: r in NotIn(rows, others) ==> r in rows)
    ensures Clubs(NotIn(rows, others)) == Clubs(rows) - Clubs(others)
  {
    if rows != [] {
      var n := |rows| - 1;
      NotInAre(rows[..n], others);
      assert rows == rows[..n] + [rows[n]];
      assert Clubs(rows) == Clubs(rows[..n]) + {rows[n].clubId};
      var rest := NotIn(rows[..n], others);
      if PlaceOf(others, rows[n].clubId).None? {
        assert Clubs(rest + [rows[n]]) == Clubs(rest) + {rows[n].clubId};
      } else {
        assert others[PlaceOf(others, rows[n].clubId).value] in others;
      }
    }
  }

  lemma SetSizes<T>(a: set<T>, b: set<T>)
    ensures |a| + |b - a| == |b| + |a - b|
  {
    assert a == (a - b) + a * b && b == (b - a) + a * b;
  }

  /** Two one-per-club lists differ in size by those who joined minus those who left. */
  lemma JoinedMinusLeft(now: MonthRows, before: MonthRows)
    requires OnePerClub(now) && OnePerClub(before)
    ensures |now| + |NotIn(before, now)| == |before| + |NotIn(now, before)|
  {
    NotInAre(now, before);
    NotInAre(before, now);
    ClubsSize(now);
    ClubsSize(before);
    ClubsSize(NotIn(now, before));
    ClubsSize(NotIn(before, now));
    SetSizes(Clubs(now), Clubs(before));
  }

  /** A tracked month after a tracked month: paying is what it was, plus who started, minus who stopped. */
  lemma MonthCloses(states: seq<StateRow>, createdMonths: seq<Month>, m: Month)
    requires var byMonth := Filled(states); m in byMonth && PreviousMonth(m) in byMonth
    ensures var (now, before) := (BusinessOf(Filled(states), createdMonths, m),
                                  BusinessOf(Filled(states), createdMonths, PreviousMonth(m)));
      && now.paying.Some? && before.paying.Some? && now.newPaying.Some? && now.churned.Some?
      && now.paying.value == before.paying.value + now.newPaying.value - now.churned.value
  {
    var byMonth := Filled(states);
    FilledOnePerClub(states, m);
    FilledOnePerClub(states, PreviousMonth(m));
    PayingAreRows(byMonth[m]);
    PayingAreRows(byMonth[PreviousMonth(m)]);
    JoinedMinusLeft(Paying(byMonth[m]), Paying(byMonth[PreviousMonth(m)]));
  }

  /** New payers minus churn over the months after the first. */
  function Growth(series: seq<MonthBusiness>): int {
    if |series| <= 1 then 0
    else
      var last := series[|series| - 1];
      Growth(series[..|series| - 1]) +
      (if last.newPaying.Some? then last.newPaying.value else 0) - (if last.churned.Some? then last.churned.value
                                                                    else 0)
  }

  /** Over any stretch of tracked months the changes add up: last paying = first paying + growth. */
  lemma {:induction false} StretchCloses(states: seq<StateRow>, createdMonths: seq<Month>, current: Month, count: nat,
                                         n: nat, series: seq<MonthBusiness>)
    requires IsMonth(current) && 1 <= n <= count && |series| == n
    requires forall i :: 0 <= i < n ==>
               series[i] == BusinessOf(Filled(states), createdMonths, LastMonths(current, count)[i])
    requires forall i :: 0 <= i < n ==> series[i].tracked
    ensures series[0].paying.Some? && series[n - 1].paying.Some?
    ensures series[n - 1].paying.value == series[0].paying.value + Growth(series)
  {
    if n > 1 {
      StretchCloses(states, createdMonths, current, count, n - 1, series[..n - 1]);
      LastMonthsAreConsecutive(current, count);
      var months := LastMonths(current, count);
      assert months[n - 2] == PreviousMonth(months[n - 2 + 1]);
      assert series[n - 1].tracked && series[n - 2].tracked;
      MonthCloses(states, createdMonths, months[n - 1]);
    }
  }
}
