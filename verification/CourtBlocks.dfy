/**
 * Blocking courts without a booking: events (src/competitions/competitions.service.ts) and bulk
 * blocks (src/slots/slots.service.ts), on the same slot table the bookings live on.
 */
module CourtBlocks {
  import opened Base
  import opened ClubData
  import opened RowMoves
  import opened BookingRules
  import opened BookingLaws

  /** A band of a court's grid some block wants. */
  datatype Target = Target(courtId: CourtId, startsAt: Instant, endsAt: Instant, priceCents: nat)

  predicate IsTarget(slot: Slot, clubId: ClubId, t: Target) {
    IsSlotAt(slot, clubId, t.courtId, t.startsAt)
  }

  predicate OnTarget(slot: Slot, clubId: ClubId, targets: seq<Target>) {
    exists k :: 0 <= k < |targets| && IsTarget(slot, clubId, targets[k])
  }

  predicate InTheWay(slot: Slot, clubId: ClubId, t: Target) {
    && slot.clubId == clubId
    && slot.courtId == t.courtId
    && Overlaps(slot, t.startsAt, t.endsAt)
    && slot.status.Booked?
  }

  predicate HasConflict(slots: seq<Slot>, clubId: ClubId, t: Target) {
    exists i :: 0 <= i < |slots| && InTheWay(slots[i], clubId, t)
  }

  predicate AnyConflict(slots: seq<Slot>, clubId: ClubId, targets: seq<Target>) {
    exists k :: 0 <= k < |targets| && HasConflict(slots, clubId, targets[k])
  }

  predicate HasRow(slots: seq<Slot>, clubId: ClubId, t: Target) {
    exists i :: 0 <= i < |slots| && IsTarget(slots[i], clubId, t)
  }

  function BlockedRow(clubId: ClubId, t: Target, eventId: Option<EventId>): Slot {
    Slot(clubId, t.courtId, t.startsAt, t.endsAt, t.priceCents, Blocked, eventId)
  }

  /** One BLOCKED row per target that has no row yet, in target order. */
  function NewRows(slots: seq<Slot>, clubId: ClubId, eventId: EventId, targets: seq<Target>): seq<Slot> {
    if targets == [] then []
    else
      var t := targets[|targets| - 1];
      NewRows(slots, clubId, eventId, targets[..|targets| - 1])
      + (if HasRow(slots, clubId, t) then [] else [BlockedRow(clubId, t, Some(eventId))])
  }

  predicate HeldBy(slot: Slot, clubId: ClubId, eventId: EventId) {
    slot.clubId == clubId && slot.eventId == Some(eventId)
  }

  /** Claimed when free and wanted, released when held and no longer wanted, otherwise left alone. */
  function SyncedRow(slot: Slot, clubId: ClubId, eventId: EventId, targets: seq<Target>): Slot {
    if OnTarget(slot, clubId, targets) && slot.status.Available? then
      slot.(status := Blocked, eventId := Some(eventId))
    else if HeldBy(slot, clubId, eventId) && !(OnTarget(slot, clubId, targets) && slot.status.Blocked?) then
      slot.(status := Available, eventId := None)
    else slot
  }

  function SyncedRows(slots: seq<Slot>, clubId: ClubId, eventId: EventId, targets: seq<Target>): seq<Slot> {
    seq(|slots|, i requires 0 <= i < |slots| => SyncedRow(slots[i], clubId, eventId, targets))
  }

  predicate AnyStartTaken(slots: seq<Slot>, rows: seq<Slot>) {
    exists k :: 0 <= k < |rows| && StartTaken(slots, rows[k])
  }

  /** Makes the event's blocked slots match its targets; any booked turno in the way refuses it all. */
  function SyncBlocks(db: Db, clubId: ClubId, eventId: EventId, targets: seq<Target>): Outcome<()> {
    var rows := NewRows(db.slots, clubId, eventId, targets);
    if AnyConflict(db.slots, clubId, targets) || AnyStartTaken(db.slots, rows) then Outcome(db, Err(Conflict))
    else Outcome(db.(slots := SyncedRows(db.slots, clubId, eventId, targets) + rows), Ok(()))
  }

  function ReleasedRow(slot: Slot, clubId: ClubId, eventId: EventId): Slot {
    if HeldBy(slot, clubId, eventId) then slot.(status := Available, eventId := None) else slot
  }

  /** Cancelling or deleting the event gives its slots back. */
  function ReleaseBlocks(db: Db, clubId: ClubId, eventId: EventId): Db {
    db.(slots := seq(|db.slots|, i requires 0 <= i < |db.slots| => ReleasedRow(db.slots[i], clubId, eventId)))
  }

  // ── Bulk blocks ─────────────────────────────────────────────────────────────

  /** Inserts a BLOCKED row per target, skipping the ones the unique index refuses. */
  function InsertIgnoring(slots: seq<Slot>, clubId: ClubId, targets: seq<Target>): seq<Slot> {
    if targets == [] then slots
    else
      var before := InsertIgnoring(slots, clubId, targets[..|targets| - 1]);
      var row := BlockedRow(clubId, targets[|targets| - 1], None);
      if StartTaken(before, row) then before else before + [row]
  }

  function BulkBlockedRow(slot: Slot, clubId: ClubId, targets: seq<Target>): Slot {
    if OnTarget(slot, clubId, targets) && slot.status.Available? then slot.(status := Blocked) else slot
  }

  function BulkBlock(db: Db, clubId: ClubId, targets: seq<Target>): Db {
    var inserted := InsertIgnoring(db.slots, clubId, targets);
    db.(slots := seq(|inserted|, i requires 0 <= i < |inserted| => BulkBlockedRow(inserted[i], clubId, targets)))
  }

  /** The range a bulk unblock covers; `matches` is its hour and weekday filter on the slot's start. */
  datatype Range = Range(courtIds: set<CourtId>, from: Instant, to: Instant, matches: Instant -> bool)

  predicate Unblockable(slot: Slot, clubId: ClubId, r: Range) {
    && slot.clubId == clubId
    && slot.courtId in r.courtIds
    && slot.status.Blocked?
    && slot.eventId.None?
    && r.from <= slot.startsAt < r.to
    && r.matches(slot.startsAt)
  }

  function BulkUnblock(db: Db, clubId: ClubId, r: Range): Db {
    db.(slots := seq(|db.slots|, i requires 0 <= i < |db.slots| =>
                       if Unblockable(db.slots[i], clubId, r) then db.slots[i].(status := Available) else db.slots[i]))
  }

  // ── Laws ────────────────────────────────────────────────────────────────────

  ghost predicate GoodTargets(targets: seq<Target>) {
    && (forall k :: 0 <= k < |targets| ==> targets[k].startsAt < targets[k].endsAt)
    && (forall j, k :: 0 <= j < k < |targets| ==> !SameKey(targets[j], targets[k]))
  }

  predicate SameKey(t: Target, u: Target) {
    t.courtId == u.courtId && t.startsAt == u.startsAt
  }

  predicate HasBlockedRow(slots: seq<Slot>, clubId: ClubId, t: Target) {
    exists i :: 0 <= i < |slots| && IsTarget(slots[i], clubId, t) && slots[i].status.Blocked?
  }

  ghost predicate StandsForTarget(row: Slot, clubId: ClubId, eventId: EventId, targets: seq<Target>) {
    && row.startsAt < row.endsAt
    && row.status.Blocked?
    && HeldBy(row, clubId, eventId)
    && OnTarget(row, clubId, targets)
  }

  ghost predicate DistinctStarts(rows: seq<Slot>) {
    forall r, q :: 0 <= r < q < |rows| ==> !SameStart(rows[r], rows[q])
  }

  /** Each new row stands for a target, and rows of different targets differ. */
  lemma {:induction false} NewRowsStand(slots: seq<Slot>, clubId: ClubId, eventId: EventId, targets: seq<Target>)
    requires GoodTargets(targets)
    ensures var rows := NewRows(slots, clubId, eventId, targets);
            (forall r :: 0 <= r < |rows| ==> StandsForTarget(rows[r], clubId, eventId, targets)) && DistinctStarts(rows)
  {
    if targets != [] {
      var n := |targets| - 1;
      NewRowsStand(slots, clubId, eventId, targets[..n]);
      var before := NewRows(slots, clubId, eventId, targets[..n]);
      forall r | 0 <= r < |before|
        ensures OnTarget(before[r], clubId, targets)
                && !SameStart(before[r], BlockedRow(clubId, targets[n], Some(eventId)))
      {
        assert StandsForTarget(before[r], clubId, eventId, targets[..n]);
        var k :| 0 <= k < n && IsTarget(before[r], clubId, targets[..n][k]);
        assert IsTarget(before[r], clubId, targets[k]) && !SameKey(targets[k], targets[n]);
      }
      assert IsTarget(BlockedRow(clubId, targets[n], Some(eventId)), clubId, targets[n]);
    }
  }

  lemma {:induction false} NewRowsCover(slots: seq<Slot>, clubId: ClubId, eventId: EventId, targets: seq<Target>,
                                        k: nat)
    requires k < |targets| && !HasRow(slots, clubId, targets[k])
    ensures HasBlockedRow(NewRows(slots, clubId, eventId, targets), clubId, targets[k])
  {
    var n := |targets| - 1;
    var rows := NewRows(slots, clubId, eventId, targets);
    var before := NewRows(slots, clubId, eventId, targets[..n]);
    if k < n {
      NewRowsCover(slots, clubId, eventId, targets[..n], k);
      var i :| 0 <= i < |before| && IsTarget(before[i], clubId, targets[k]) && before[i].status.Blocked?;
      assert IsTarget(rows[i], clubId, targets[k]);
    } else {
      assert IsTarget(rows[|before|], clubId, targets[k]);
    }
  }

  lemma TargetRowIsInTheWay(slot: Slot, clubId: ClubId, t: Target)
    requires SoundSlot(slot) && t.startsAt < t.endsAt && slot.status.Booked?
    ensures IsTarget(slot, clubId, t) ==> InTheWay(slot, clubId, t)
  {
  }

  lemma UniqueAppend(slots: seq<Slot>, same: seq<Slot>, rows: seq<Slot>)
    requires UniqueStarts(slots) && DistinctStarts(rows) && !AnyStartTaken(slots, rows)
    requires |same| == |slots| && forall s :: 0 <= s < |slots| ==> SameBand(slots[s], same[s])
    ensures UniqueStarts(same + rows)
  {
    var all := same + rows;
    forall s, t | 0 <= s < t < |all|
      ensures !SameStart(all[s], all[t])
    {
      if t < |slots| {
        assert !SameStart(slots[s], slots[t]);
      } else if s < |slots| {
        assert !StartTaken(slots, rows[t - |slots|]) && !SameStart(slots[s], rows[t - |slots|]);
      } else {
        assert !SameStart(rows[s - |slots|], rows[t - |slots|]);
      }
    }
  }

  lemma SyncKeeps(db: Db, clubId: ClubId, eventId: EventId, targets: seq<Target>)
    requires Inv(db) && GoodTargets(targets)
    ensures Keeps(db, SyncBlocks(db, clubId, eventId, targets).db)
  {
    var c := SyncBlocks(db, clubId, eventId, targets);
    if c.result.Ok? {
      var rows := NewRows(db.slots, clubId, eventId, targets);
      NewRowsStand(db.slots, clubId, eventId, targets);
      UniqueAppend(db.slots, SyncedRows(db.slots, clubId, eventId, targets), rows);
      forall s | 0 <= s < |c.db.slots|
        ensures SoundSlot(c.db.slots[s]) && (s >= |db.slots| ==> c.db.slots[s].status.Blocked?)
      {
        if s < |db.slots| {
          assert SoundSlot(db.slots[s]);
        } else {
          assert StandsForTarget(rows[s - |db.slots|], clubId, eventId, targets);
        }
      }
      SlotsOnlyKeeps(db, c.db.slots);
    } else {
      KeepsSelf(db);
    }
  }

  /** No booked turno is touched, nor any slot that is neither the event's nor a target's. */
  lemma SyncSpares(db: Db, clubId: ClubId, eventId: EventId, targets: seq<Target>, s: SlotId)
    requires Inv(db) && GoodTargets(targets) && s < |db.slots|
    requires db.slots[s].status.Booked?
             || !(HeldBy(db.slots[s], clubId, eventId) || OnTarget(db.slots[s], clubId, targets))
    ensures SyncBlocks(db, clubId, eventId, targets).db.slots[s] == db.slots[s]
  {
    assert SoundSlot(db.slots[s]);
    if db.slots[s].status.Booked? && !AnyConflict(db.slots, clubId, targets) {
      BookedIsOffTarget(db, clubId, targets, s);
    }
  }

  /** Every target's slot ends up BLOCKED. */
  lemma SyncCovers(db: Db, clubId: ClubId, eventId: EventId, targets: seq<Target>, k: nat)
    requires Inv(db) && GoodTargets(targets) && SyncBlocks(db, clubId, eventId, targets).result.Ok? && k < |targets|
    ensures HasBlockedRow(SyncBlocks(db, clubId, eventId, targets).db.slots, clubId, targets[k])
  {
    var slots := SyncBlocks(db, clubId, eventId, targets).db.slots;
    var rows := NewRows(db.slots, clubId, eventId, targets);
    if HasRow(db.slots, clubId, targets[k]) {
      var i :| 0 <= i < |db.slots| && IsTarget(db.slots[i], clubId, targets[k]);
      assert SoundSlot(db.slots[i]) && OnTarget(db.slots[i], clubId, targets);
      if db.slots[i].status.Booked? {
        BookedIsOffTarget(db, clubId, targets, i);
      }
      assert IsTarget(slots[i], clubId, targets[k]) && slots[i].status.Blocked?;
    } else {
      NewRowsCover(db.slots, clubId, eventId, targets, k);
      var r :| 0 <= r < |rows| && IsTarget(rows[r], clubId, targets[k]) && rows[r].status.Blocked?;
      assert slots[|db.slots| + r] == rows[r];
    }
  }

  /** The event holds nothing outside its targets. */
  lemma SyncHoldsOnlyTargets(db: Db, clubId: ClubId, eventId: EventId, targets: seq<Target>, s: SlotId)
    requires Inv(db) && GoodTargets(targets) && SyncBlocks(db, clubId, eventId, targets).result.Ok?
    requires s < |SyncBlocks(db, clubId, eventId, targets).db.slots|
    ensures var slot := SyncBlocks(db, clubId, eventId, targets).db.slots[s];
            HeldBy(slot, clubId, eventId) ==> OnTarget(slot, clubId, targets)
  {
    if s < |db.slots| {
      SyncedOnTarget(db.slots[s], clubId, eventId, targets);
    } else {
      NewRowsStand(db.slots, clubId, eventId, targets);
      assert StandsForTarget(NewRows(db.slots, clubId, eventId, targets)[s - |db.slots|], clubId, eventId, targets);
    }
  }

  /** The club has no row at the target's start, but its court has one, under another club. */
  predicate ForeignRow(slots: seq<Slot>, clubId: ClubId, t: Target) {
    !HasRow(slots, clubId, t) && exists i :: 0 <= i < |slots| && slots[i].courtId == t.courtId
                                             && slots[i].startsAt == t.startsAt
  }

  lemma {:induction false} NewRowsTakenExactly(slots: seq<Slot>, clubId: ClubId, eventId: EventId, targets: seq<Target>)
    ensures AnyStartTaken(slots, NewRows(slots, clubId, eventId, targets)) <==>
            exists k :: 0 <= k < |targets| && ForeignRow(slots, clubId, targets[k])
  {
    hide HasRow;
    if targets != [] {
      var n := |targets| - 1;
      var t := targets[n];
      NewRowsTakenExactly(slots, clubId, eventId, targets[..n]);
      var before := NewRows(slots, clubId, eventId, targets[..n]);
      var rows := NewRows(slots, clubId, eventId, targets);
      var row := BlockedRow(clubId, t, Some(eventId));
      assert StartTaken(slots, row) && !HasRow(slots, clubId, t) <==> ForeignRow(slots, clubId, t);
      assert forall k :: 0 <= k < n ==> targets[..n][k] == targets[k];
      assert !HasRow(slots, clubId, t) ==> rows[|before|] == row;
      if AnyStartTaken(slots, before) {
        var k :| 0 <= k < |before| && StartTaken(slots, before[k]);
        assert StartTaken(slots, rows[k]);
      }
      hide StartTaken, ForeignRow;
    }
  }

  /** The event's courts are set exactly when no booked turno is in the way and no start is another club's. */
  lemma SyncSucceedsExactly(db: Db, clubId: ClubId, eventId: EventId, targets: seq<Target>)
    ensures SyncBlocks(db, clubId, eventId, targets).result.Ok? <==>
            !AnyConflict(db.slots, clubId, targets)
            && forall k :: 0 <= k < |targets| ==> !ForeignRow(db.slots, clubId, targets[k])
  {
    NewRowsTakenExactly(db.slots, clubId, eventId, targets);
    hide ForeignRow, AnyConflict, AnyStartTaken;
  }

  /** The whole of it: when it is accepted, what it leaves, and that a refusal writes nothing. */
  lemma SyncLaw(db: Db, clubId: ClubId, eventId: EventId, targets: seq<Target>)
    requires Inv(db) && GoodTargets(targets)
    ensures SyncBlocks(db, clubId, eventId, targets).result.Ok? <==>
            !AnyConflict(db.slots, clubId, targets)
            && forall k :: 0 <= k < |targets| ==> !ForeignRow(db.slots, clubId, targets[k])
    ensures var c := SyncBlocks(db, clubId, eventId, targets);
      if c.result.Err? then c.db == db
      else
        && !AnyConflict(db.slots, clubId, targets)
        && (forall k :: 0 <= k < |targets| ==> HasBlockedRow(c.db.slots, clubId, targets[k]))
        && (forall s :: 0 <= s < |c.db.slots| && HeldBy(c.db.slots[s], clubId, eventId) ==>
              OnTarget(c.db.slots[s], clubId, targets))
        && (forall s :: 0 <= s < |db.slots| && (db.slots[s].status.Booked? ||
                          !(HeldBy(db.slots[s], clubId, eventId) || OnTarget(db.slots[s], clubId, targets))) ==>
              c.db.slots[s] == db.slots[s])
  {
    var c := SyncBlocks(db, clubId, eventId, targets);
    SyncSucceedsExactly(db, clubId, eventId, targets);
    if c.result.Ok? {
      forall k | 0 <= k < |targets|
        ensures HasBlockedRow(c.db.slots, clubId, targets[k])
      {
        SyncCovers(db, clubId, eventId, targets, k);
      }
      forall s | 0 <= s < |c.db.slots| && HeldBy(c.db.slots[s], clubId, eventId)
        ensures OnTarget(c.db.slots[s], clubId, targets)
      {
        SyncHoldsOnlyTargets(db, clubId, eventId, targets, s);
      }
      forall s | 0 <= s < |db.slots| && (db.slots[s].status.Booked? ||
                  !(HeldBy(db.slots[s], clubId, eventId) || OnTarget(db.slots[s], clubId, targets)))
        ensures c.db.slots[s] == db.slots[s]
      {
        SyncSpares(db, clubId, eventId, targets, s);
      }
    }
  }

  lemma BookedIsOffTarget(db: Db, clubId: ClubId, targets: seq<Target>, s: SlotId)
    requires s < |db.slots| && SoundSlot(db.slots[s]) && db.slots[s].status.Booked? && GoodTargets(targets)
    requires !AnyConflict(db.slots, clubId, targets)
    ensures !OnTarget(db.slots[s], clubId, targets)
  {
    forall k | 0 <= k < |targets|
      ensures !IsTarget(db.slots[s], clubId, targets[k])
    {
      assert !HasConflict(db.slots, clubId, targets[k]) && !InTheWay(db.slots[s], clubId, targets[k]);
      TargetRowIsInTheWay(db.slots[s], clubId, targets[k]);
    }
  }

  /** Syncing moves no edges, so a row stays on or off target, and syncing it again does nothing. */
  lemma SyncedOnTarget(slot: Slot, clubId: ClubId, eventId: EventId, targets: seq<Target>)
    ensures var row := SyncedRow(slot, clubId, eventId, targets);
      && (OnTarget(row, clubId, targets) <==> OnTarget(slot, clubId, targets))
      && (HeldBy(row, clubId, eventId) ==> OnTarget(row, clubId, targets))
      && (!(OnTarget(row, clubId, targets) && row.status.Available?) ==>
            SyncedRow(row, clubId, eventId, targets) == row)
      && (OnTarget(row, clubId, targets) && row.status.Available? ==>
            HeldBy(slot, clubId, eventId) && !slot.status.Blocked?)
  {
    var row := SyncedRow(slot, clubId, eventId, targets);
    forall k | 0 <= k < |targets|
      ensures IsTarget(row, clubId, targets[k]) <==> IsTarget(slot, clubId, targets[k])
    {
    }
    assert OnTarget(row, clubId, targets) <==> OnTarget(slot, clubId, targets);
  }

  lemma {:induction false} NoNewRows(slots: seq<Slot>, clubId: ClubId, eventId: EventId, targets: seq<Target>)
    requires forall k :: 0 <= k < |targets| ==> HasRow(slots, clubId, targets[k])
    ensures NewRows(slots, clubId, eventId, targets) == []
  {
    if targets != [] {
      NoNewRows(slots, clubId, eventId, targets[..|targets| - 1]);
    }
  }

  /** A successful sync puts nothing booked in any target's way. */
  lemma NoConflictAfter(db: Db, clubId: ClubId, eventId: EventId, targets: seq<Target>)
    requires Inv(db) && GoodTargets(targets) && SyncBlocks(db, clubId, eventId, targets).result.Ok?
    ensures !AnyConflict(SyncBlocks(db, clubId, eventId, targets).db.slots, clubId, targets)
  {
    var c := SyncBlocks(db, clubId, eventId, targets).db;
    var rows := NewRows(db.slots, clubId, eventId, targets);
    NewRowsStand(db.slots, clubId, eventId, targets);
    forall k, j | 0 <= k < |targets| && 0 <= j < |c.slots|
      ensures !InTheWay(c.slots[j], clubId, targets[k])
    {
      if j < |db.slots| {
        assert !HasConflict(db.slots, clubId, targets[k]) && !InTheWay(db.slots[j], clubId, targets[k]);
      } else {
        assert StandsForTarget(rows[j - |db.slots|], clubId, eventId, targets);
      }
    }
  }

  /** Each row of a synced table is already what syncing would make of it. */
  lemma SyncedRowStable(db: Db, clubId: ClubId, eventId: EventId, targets: seq<Target>, s: SlotId)
    requires Inv(db) && GoodTargets(targets) && SyncBlocks(db, clubId, eventId, targets).result.Ok?
    requires s < |SyncBlocks(db, clubId, eventId, targets).db.slots|
    ensures var slot := SyncBlocks(db, clubId, eventId, targets).db.slots[s];
            SyncedRow(slot, clubId, eventId, targets) == slot
  {
    if s < |db.slots| {
      SyncedOnTarget(db.slots[s], clubId, eventId, targets);
      assert SoundSlot(db.slots[s]);
    } else {
      NewRowsStand(db.slots, clubId, eventId, targets);
      assert StandsForTarget(NewRows(db.slots, clubId, eventId, targets)[s - |db.slots|], clubId, eventId, targets);
    }
  }

  /** Syncing again right after changes nothing. */
  lemma SyncTwice(db: Db, clubId: ClubId, eventId: EventId, targets: seq<Target>)
    requires Inv(db) && GoodTargets(targets) && SyncBlocks(db, clubId, eventId, targets).result.Ok?
    ensures var c := SyncBlocks(db, clubId, eventId, targets).db;
            SyncBlocks(c, clubId, eventId, targets) == Outcome(c, Ok(()))
  {
    var c := SyncBlocks(db, clubId, eventId, targets).db;
    NoConflictAfter(db, clubId, eventId, targets);
    forall s: nat | s < |c.slots|
      ensures SyncedRow(c.slots[s], clubId, eventId, targets) == c.slots[s]
    {
      SyncedRowStable(db, clubId, eventId, targets, s);
    }
    forall k: nat | k < |targets|
      ensures HasRow(c.slots, clubId, targets[k])
    {
      SyncCovers(db, clubId, eventId, targets, k);
    }
    NoNewRows(c.slots, clubId, eventId, targets);
    hide Inv, GoodTargets, SyncedRow, AnyConflict, HasRow;
    assert SyncedRows(c.slots, clubId, eventId, targets) == c.slots;
  }

  /** Cancelling or deleting an event frees exactly what it held, none of it booked. */
  lemma ReleaseLaw(db: Db, clubId: ClubId, eventId: EventId)
    requires Inv(db)
    ensures var c := ReleaseBlocks(db, clubId, eventId);
      && Keeps(db, c)
      && (forall s :: 0 <= s < |db.slots| ==>
            if HeldBy(db.slots[s], clubId, eventId)
            then db.slots[s].status.Blocked? && c.slots[s].status.Available? && c.slots[s].eventId.None?
            else c.slots[s] == db.slots[s])
  {
    var c := ReleaseBlocks(db, clubId, eventId);
    forall s | 0 <= s < |db.slots|
      ensures SoundSlot(c.slots[s]) && (HeldBy(db.slots[s], clubId, eventId) ==> db.slots[s].status.Blocked?)
    {
      assert SoundSlot(db.slots[s]);
    }
    UniqueSame(db.slots, c.slots);
    SlotsOnlyKeeps(db, c.slots);
  }

  lemma {:induction false} InsertIgnoringSound(slots: seq<Slot>, clubId: ClubId, targets: seq<Target>)
    requires UniqueStarts(slots) && SoundSlots(slots)
    requires forall k :: 0 <= k < |targets| ==> targets[k].startsAt < targets[k].endsAt
    ensures var all := InsertIgnoring(slots, clubId, targets);
      && |slots| <= |all| && all[..|slots|] == slots
      && UniqueStarts(all) && SoundSlots(all)
      && (forall s :: |slots| <= s < |all| ==> all[s].status.Blocked?)
  {
    if targets != [] {
      InsertIgnoringSound(slots, clubId, targets[..|targets| - 1]);
    }
  }

  lemma {:induction false} InsertIgnoringCovers(slots: seq<Slot>, clubId: ClubId, targets: seq<Target>, k: nat)
    requires k < |targets|
    ensures StartTaken(InsertIgnoring(slots, clubId, targets), BlockedRow(clubId, targets[k], None))
  {
    var n := |targets| - 1;
    var before := InsertIgnoring(slots, clubId, targets[..n]);
    var all := InsertIgnoring(slots, clubId, targets);
    var row := BlockedRow(clubId, targets[k], None);
    if k < n {
      InsertIgnoringCovers(slots, clubId, targets[..n], k);
      var i :| 0 <= i < |before| && SameStart(before[i], row);
      assert SameStart(all[i], row);
    } else if !StartTaken(before, row) {
      assert SameStart(all[|before|], row);
    }
  }

  /** The rows after the inserts, seen through the update that blocks the free ones. */
  lemma BulkBlockedRows(db: Db, clubId: ClubId, targets: seq<Target>)
    requires UniqueStarts(db.slots) && SoundSlots(db.slots)
    requires forall k :: 0 <= k < |targets| ==> targets[k].startsAt < targets[k].endsAt
    ensures var all := InsertIgnoring(db.slots, clubId, targets);
      var after := BulkBlock(db, clubId, targets).slots;
      && |db.slots| <= |all| == |after| && UniqueStarts(after)
      && (forall s :: 0 <= s < |all| ==> after[s] == BulkBlockedRow(all[s], clubId, targets) && SoundSlot(after[s]))
      && (forall s :: 0 <= s < |all| ==> (OnTarget(after[s], clubId, targets) <==> OnTarget(all[s], clubId, targets)))
      && (forall s :: 0 <= s < |db.slots| ==> all[s] == db.slots[s])
      && (forall s :: |db.slots| <= s < |all| ==> all[s].status.Blocked?)
  {
    hide InsertIgnoring, OnTarget;
    var all, after := InsertIgnoring(db.slots, clubId, targets), BulkBlock(db, clubId, targets).slots;
    InsertIgnoringSound(db.slots, clubId, targets);
    forall s | 0 <= s < |all|
      ensures SoundSlot(after[s]) && SameBand(all[s], after[s])
      ensures OnTarget(after[s], clubId, targets) <==> OnTarget(all[s], clubId, targets)
    {
      assert SoundSlot(all[s]);
      SameTargets(all[s], after[s], clubId, targets);
    }
    assert forall s :: 0 <= s < |db.slots| ==> all[s] == all[..|db.slots|][s];
    UniqueSame(all, after);
  }

  lemma BulkBlockCovers(db: Db, clubId: ClubId, targets: seq<Target>, k: nat)
    requires k < |targets|
    ensures StartTaken(BulkBlock(db, clubId, targets).slots, BlockedRow(clubId, targets[k], None))
  {
    hide InsertIgnoring;
    var all, after := InsertIgnoring(db.slots, clubId, targets), BulkBlock(db, clubId, targets).slots;
    InsertIgnoringCovers(db.slots, clubId, targets, k);
    var i :| 0 <= i < |all| && SameStart(all[i], BlockedRow(clubId, targets[k], None));
    assert SameStart(after[i], BlockedRow(clubId, targets[k], None));
  }

  /** Every target ends up with a row that is not free; booked rows and other rows stay as they were. */
  lemma BulkBlockLaw(db: Db, clubId: ClubId, targets: seq<Target>)
    requires Inv(db) && forall k :: 0 <= k < |targets| ==> targets[k].startsAt < targets[k].endsAt
    ensures var c := BulkBlock(db, clubId, targets);
      && Keeps(db, c)
      && (forall k :: 0 <= k < |targets| ==> StartTaken(c.slots, BlockedRow(clubId, targets[k], None)))
      && (forall s :: 0 <= s < |c.slots| && OnTarget(c.slots[s], clubId, targets) ==> !c.slots[s].status.Available?)
      && (forall s :: 0 <= s < |db.slots|
                      && !(OnTarget(db.slots[s], clubId, targets) && db.slots[s].status.Available?) ==>
            c.slots[s] == db.slots[s])
      && (forall s :: |db.slots| <= s < |c.slots| ==> c.slots[s].status.Blocked?)
  {
    hide OnTarget, InsertIgnoring, BulkBlock, StartTaken, UniqueStarts, BookingsPointAtSlots, LiveHoldsBooked,
         OneLivePerSlot, BookedIsHeld;
    var c := BulkBlock(db, clubId, targets);
    BulkBlockedRows(db, clubId, targets);
    forall k | 0 <= k < |targets|
      ensures StartTaken(c.slots, BlockedRow(clubId, targets[k], None))
    {
      BulkBlockCovers(db, clubId, targets, k);
    }
    BulkBlockMovesSlots(db, clubId, targets);
    SlotsOnlyKeeps(db, c.slots);
  }

  lemma BulkBlockMovesSlots(db: Db, clubId: ClubId, targets: seq<Target>)
    ensures BulkBlock(db, clubId, targets) == db.(slots := BulkBlock(db, clubId, targets).slots)
  {
  }

  lemma SameTargets(slot: Slot, row: Slot, clubId: ClubId, targets: seq<Target>)
    requires SameBand(slot, row)
    ensures OnTarget(row, clubId, targets) <==> OnTarget(slot, clubId, targets)
  {
    assert forall k :: 0 <= k < |targets| ==>
             (IsTarget(row, clubId, targets[k]) <==> IsTarget(slot, clubId, targets[k]));
  }

  /** Only plain blocks inside the range are freed: nothing booked, nothing an event holds. */
  lemma BulkUnblockLaw(db: Db, clubId: ClubId, r: Range)
    requires Inv(db)
    ensures var c := BulkUnblock(db, clubId, r);
      && Keeps(db, c)
      && (forall s :: 0 <= s < |db.slots| && (db.slots[s].status.Booked? || db.slots[s].eventId.Some?) ==>
            c.slots[s] == db.slots[s])
  {
    var c := BulkUnblock(db, clubId, r);
    forall s | 0 <= s < |db.slots|
      ensures SoundSlot(c.slots[s])
    {
      assert SoundSlot(db.slots[s]);
    }
    UniqueSame(db.slots, c.slots);
    SlotsOnlyKeeps(db, c.slots);
  }

  /** Fetching only what meets the targets' overall window misses no slot that overlaps a target. */
  lemma WindowMissesNothing(slot: Slot, targets: seq<Target>, k: nat, minStart: Instant, maxEnd: Instant)
    requires k < |targets| && Overlaps(slot, targets[k].startsAt, targets[k].endsAt)
    requires forall j :: 0 <= j < |targets| ==> minStart <= targets[j].startsAt && targets[j].endsAt <= maxEnd
    ensures Overlaps(slot, minStart, maxEnd)
  {
    assert targets[k].endsAt <= maxEnd;
  }
}
