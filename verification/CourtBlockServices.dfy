/**
 * Blocking courts, as the services do it: a window of slots read once, a pass over the targets, then
 * the writes (src/competitions/competitions.service.ts, src/slots/slots.service.ts).
 */
module CourtBlockServices {
  import opened Base
  import opened ClubData
  import opened CourtBlocks
  import opened Schedule
  import opened Tables

  // ── Dates ───────────────────────────────────────────────────────────────────

  method EnumerateDates(from: Day, to: Day) returns (r: Result<seq<Day>>)
    ensures r.Err? <==> to < from
    ensures r.Ok? ==> |r.value| == to - from + 1 && forall i :: 0 <= i < |r.value| ==> r.value[i] == from + i
  {
    if to < from {
      return Err(BadRequest);
    }
    var dates: seq<Day> := [];
    var cursor := from;
    while cursor <= to
      invariant from <= cursor <= to + 1 && |dates| == cursor - from
      invariant forall i :: 0 <= i < |dates| ==> dates[i] == from + i
    {
      dates := dates + [cursor];
      cursor := cursor + 1;
    }
    return Ok(dates);
  }

  // ── The window ──────────────────────────────────────────────────────────────

  method Window(targets: seq<Target>) returns (from: Instant, to: Instant)
    requires targets != []
    ensures forall k :: 0 <= k < |targets| ==> from <= targets[k].startsAt && targets[k].endsAt <= to
  {
    from, to := targets[0].startsAt, targets[0].endsAt;
    for k := 1 to |targets|
      invariant forall j :: 0 <= j < k ==> from <= targets[j].startsAt && targets[j].endsAt <= to
    {
      from := if targets[k].startsAt < from then targets[k].startsAt else from;
      to := if targets[k].endsAt > to then targets[k].endsAt else to;
    }
  }

  predicate InSight(slot: Slot, clubId: ClubId, from: Instant, to: Instant) {
    slot.clubId == clubId && slot.startsAt < to && slot.endsAt > from
  }

  /** The pre-fetched slots are all those of the club that overlap the window. */
  ghost predicate IsPrefetch(slots: seq<Slot>, existing: seq<SlotId>, clubId: ClubId, from: Instant, to: Instant) {
    && (forall k :: 0 <= k < |existing| ==> existing[k] < |slots|)
    && (forall i: nat :: i in existing <==> i < |slots| && InSight(slots[i], clubId, from, to))
  }

  method Prefetch(slots: seq<Slot>, clubId: ClubId, from: Instant, to: Instant) returns (existing: seq<SlotId>)
    ensures IsPrefetch(slots, existing, clubId, from, to)
  {
    existing := [];
    for i := 0 to |slots|
      invariant forall k :: 0 <= k < |existing| ==> existing[k] < i
      invariant forall j: nat :: j in existing <==> j < i && InSight(slots[j], clubId, from, to)
    {
      if slots[i].clubId == clubId && slots[i].startsAt < to && slots[i].endsAt > from {
        existing := existing + [i];
      }
    }
  }

  /** The min/max window misses no slot a target overlaps, nor the row standing exactly on it. */
  lemma PrefetchIsEnough(slots: seq<Slot>, existing: seq<SlotId>, clubId: ClubId, from: Instant, to: Instant,
                         t: Target, i: SlotId)
    requires IsPrefetch(slots, existing, clubId, from, to) && from <= t.startsAt < t.endsAt <= to && i < |slots|
             && SoundSlot(slots[i])
    requires slots[i].clubId == clubId && (Overlaps(slots[i], t.startsAt, t.endsAt) || slots[i].startsAt == t.startsAt)
    ensures i in existing
  {
  }

  /** Among the pre-fetched slots: is a booked one in the way, and which one stands exactly there? */
  method Judge(slots: seq<Slot>, existing: seq<SlotId>, clubId: ClubId, t: Target, ghost from: Instant,
               ghost to: Instant)
    returns (booked: bool, exact: Option<SlotId>)
    requires SoundSlots(slots) && IsPrefetch(slots, existing, clubId, from, to) && from <= t.startsAt < t.endsAt <= to
    ensures booked == HasConflict(slots, clubId, t)
    ensures exact.Some? ==> exact.value < |slots| && IsTarget(slots[exact.value], clubId, t)
    ensures exact.None? ==> !HasRow(slots, clubId, t)
  {
    booked, exact := false, None;
    for k := 0 to |existing|
      invariant booked <==> exists j :: 0 <= j < k && InTheWay(slots[existing[j]], clubId, t)
      invariant exact.Some? ==> exact.value < |slots| && IsTarget(slots[exact.value], clubId, t)
      invariant exact.None? ==> forall j :: 0 <= j < k ==> !IsTarget(slots[existing[j]], clubId, t)
    {
      var s := slots[existing[k]];
      assert existing[k] in existing;
      if s.courtId == t.courtId && s.startsAt < t.endsAt && s.endsAt > t.startsAt {
        if s.status.Booked? {
          booked := true;
        }
        if exact.None? && s.startsAt == t.startsAt {
          exact := Some(existing[k]);
        }
      }
    }
    SameVerdict(slots, existing, clubId, t, from, to, booked, exact);
  }

  lemma SameVerdict(slots: seq<Slot>, existing: seq<SlotId>, clubId: ClubId, t: Target, from: Instant, to: Instant,
                    booked: bool, exact: Option<SlotId>)
    requires SoundSlots(slots) && IsPrefetch(slots, existing, clubId, from, to) && from <= t.startsAt < t.endsAt <= to
    requires booked <==> exists j :: 0 <= j < |existing| && InTheWay(slots[existing[j]], clubId, t)
    requires exact.None? ==> forall j :: 0 <= j < |existing| ==> !IsTarget(slots[existing[j]], clubId, t)
    ensures booked == HasConflict(slots, clubId, t)
    ensures exact.None? ==> !HasRow(slots, clubId, t)
  {
    if HasConflict(slots, clubId, t) {
      var i :| 0 <= i < |slots| && InTheWay(slots[i], clubId, t);
      PrefetchIsEnough(slots, existing, clubId, from, to, t, i);
      var j :| 0 <= j < |existing| && existing[j] == i;
    }
    if HasRow(slots, clubId, t) {
      var i :| 0 <= i < |slots| && IsTarget(slots[i], clubId, t);
      PrefetchIsEnough(slots, existing, clubId, from, to, t, i);
      var j :| 0 <= j < |existing| && existing[j] == i;
      assert IsTarget(slots[existing[j]], clubId, t);
    }
    if booked {
      var j :| 0 <= j < |existing| && InTheWay(slots[existing[j]], clubId, t);
      assert InTheWay(slots[existing[j]], clubId, t);
    }
  }

  // ── Event sync ──────────────────────────────────────────────────────────────

  /** What the pass over the first targets has decided. */
  ghost predicate Sorted(slots: seq<Slot>, clubId: ClubId, eventId: EventId, targets: seq<Target>, conflict: bool,
                         rows: seq<Slot>, claim: set<SlotId>, keep: set<SlotId>)
  {
    && conflict == AnyConflict(slots, clubId, targets)
    && (!conflict ==>
          && rows == NewRows(slots, clubId, eventId, targets)
          && (forall i: SlotId :: i in claim <==>
                i < |slots| && OnTarget(slots[i], clubId, targets) && slots[i].status.Available?)
          && (forall i: SlotId :: i in keep <==>
                i < |slots| && OnTarget(slots[i], clubId, targets) && slots[i].status.Blocked?
                && slots[i].eventId == Some(eventId)))
  }

  lemma OnMoreTargets(slot: Slot, clubId: ClubId, targets: seq<Target>, t: Target)
    ensures OnTarget(slot, clubId, targets + [t]) <==> OnTarget(slot, clubId, targets) || IsTarget(slot, clubId, t)
  {
    var more := targets + [t];
    if OnTarget(slot, clubId, targets) {
      var k :| 0 <= k < |targets| && IsTarget(slot, clubId, targets[k]);
      assert more[k] == targets[k];
    }
    assert more[|targets|] == t;
  }

  lemma MoreConflict(slots: seq<Slot>, clubId: ClubId, targets: seq<Target>, t: Target)
    ensures AnyConflict(slots, clubId, targets + [t]) <==>
            AnyConflict(slots, clubId, targets) || HasConflict(slots, clubId, t)
  {
    var more := targets + [t];
    hide HasConflict;
    if AnyConflict(slots, clubId, targets) {
      var k :| 0 <= k < |targets| && HasConflict(slots, clubId, targets[k]);
      assert more[k] == targets[k];
    }
    assert more[|targets|] == t;
  }

  /** Only one row can stand on a target. */
  lemma OneRow(slots: seq<Slot>, clubId: ClubId, t: Target, i: SlotId, j: SlotId)
    requires UniqueStarts(slots) && i < |slots| && j < |slots| && IsTarget(slots[i], clubId, t)
             && IsTarget(slots[j], clubId, t)
    ensures i == j
  {
    assert SameStart(slots[i], slots[j]) && SameStart(slots[j], slots[i]);
  }

  lemma SortOne(slots: seq<Slot>, clubId: ClubId, eventId: EventId, targets: seq<Target>, t: Target, conflict: bool,
                rows: seq<Slot>, claim: set<SlotId>, keep: set<SlotId>, booked: bool, exact: Option<SlotId>)
    requires UniqueStarts(slots) && Sorted(slots, clubId, eventId, targets, conflict, rows, claim, keep)
    requires booked == HasConflict(slots, clubId, t)
    requires exact.Some? ==> exact.value < |slots| && IsTarget(slots[exact.value], clubId, t)
    requires exact.None? ==> !HasRow(slots, clubId, t)
    ensures var found := !booked && exact.Some?;
      Sorted(slots, clubId, eventId, targets + [t], conflict || booked,
             if !booked && exact.None? then rows + [BlockedRow(clubId, t, Some(eventId))] else rows,
             if found && slots[exact.value].status.Available? then claim + {exact.value} else claim,
             if found && slots[exact.value].status.Blocked?
                && slots[exact.value].eventId == Some(eventId) then keep + {exact.value} else keep)
  {
    hide AnyConflict, HasConflict, UniqueStarts, OnTarget, IsTarget, HasRow;
    MoreConflict(slots, clubId, targets, t);
    if !conflict && !booked {
      assert (targets + [t])[..|targets|] == targets;
      ExactTells(slots, clubId, t, exact);
      forall i: SlotId | i < |slots|
        ensures OnTarget(slots[i], clubId, targets + [t]) <==> OnTarget(slots[i], clubId, targets) || exact == Some(i)
      {
        OnMoreTargets(slots[i], clubId, targets, t);
      }
    }
  }

  /** The row found on a target is the only one, and there is one exactly when one was found. */
  lemma ExactTells(slots: seq<Slot>, clubId: ClubId, t: Target, exact: Option<SlotId>)
    requires UniqueStarts(slots)
    requires exact.Some? ==> exact.value < |slots| && IsTarget(slots[exact.value], clubId, t)
    requires exact.None? ==> !HasRow(slots, clubId, t)
    ensures HasRow(slots, clubId, t) <==> exact.Some?
    ensures forall i: SlotId :: i < |slots| ==> (IsTarget(slots[i], clubId, t) <==> exact == Some(i))
  {
    forall i: SlotId | i < |slots| && IsTarget(slots[i], clubId, t)
      ensures exact == Some(i)
    {
      assert HasRow(slots, clubId, t);
      OneRow(slots, clubId, t, i, exact.value);
    }
    hide UniqueStarts;
  }

  function ReleasedUnless(slot: Slot, clubId: ClubId, eventId: EventId, kept: bool): Slot {
    if HeldBy(slot, clubId, eventId) && !kept then slot.(status := Available, eventId := None) else slot
  }

  function ClaimedRow(slot: Slot, eventId: EventId, wanted: bool): Slot {
    if wanted && slot.status.Available? then slot.(status := Blocked, eventId := Some(eventId)) else slot
  }

  class CompetitionsService {
    const prisma: Database

    constructor (prisma: Database)
      ensures this.prisma == prisma
    {
      this.prisma := prisma;
    }

    /** Frees the event's slots except those to keep. */
    method ReleaseExcept(clubId: ClubId, eventId: EventId, keep: set<SlotId>)
      modifies prisma`slots
      ensures |prisma.slots| == |old(prisma.slots)|
      ensures forall i :: 0 <= i < |prisma.slots| ==>
                prisma.slots[i] == ReleasedUnless(old(prisma.slots)[i], clubId, eventId, i in keep)
    {
      for k := 0 to |prisma.slots|
        invariant |prisma.slots| == |old(prisma.slots)|
        invariant forall i :: k <= i < |prisma.slots| ==> prisma.slots[i] == old(prisma.slots)[i]
        invariant forall i :: 0 <= i < k ==>
                    prisma.slots[i] == ReleasedUnless(old(prisma.slots)[i], clubId, eventId, i in keep)
      {
        if prisma.slots[k].clubId == clubId && prisma.slots[k].eventId == Some(eventId) && k !in keep {
          prisma.slots := prisma.slots[k := prisma.slots[k].(status := Available, eventId := None)];
        }
      }
    }

    /** Claims the free slots among `claim` for the event. */
    method ClaimFree(eventId: EventId, claim: set<SlotId>)
      modifies prisma`slots
      ensures |prisma.slots| == |old(prisma.slots)|
      ensures forall i :: 0 <= i < |prisma.slots| ==>
                prisma.slots[i] == ClaimedRow(old(prisma.slots)[i], eventId, i in claim)
    {
      for k := 0 to |prisma.slots|
        invariant |prisma.slots| == |old(prisma.slots)|
        invariant forall i :: k <= i < |prisma.slots| ==> prisma.slots[i] == old(prisma.slots)[i]
        invariant forall i :: 0 <= i < k ==> prisma.slots[i] == ClaimedRow(old(prisma.slots)[i], eventId, i in claim)
      {
        if k in claim && prisma.slots[k].status.Available? {
          prisma.slots := prisma.slots[k := prisma.slots[k].(status := Blocked, eventId := Some(eventId))];
        }
      }
    }

    /** The pass over the targets, on the slots of one pre-fetched window. */
    method SortTargets(clubId: ClubId, eventId: EventId, targets: seq<Target>)
      returns (conflict: bool, rows: seq<Slot>, claim: set<SlotId>, keep: set<SlotId>)
      requires SoundSlots(prisma.slots) && UniqueStarts(prisma.slots) && GoodTargets(targets)
      ensures Sorted(prisma.slots, clubId, eventId, targets, conflict, rows, claim, keep)
    {
      hide SoundSlots, UniqueStarts, IsPrefetch, HasConflict, HasRow;
      conflict, rows, claim, keep := false, [], {}, {};
      if targets == [] {
        return;
      }
      var from, to := Window(targets);
      var existing := Prefetch(prisma.slots, clubId, from, to);
      for k := 0 to |targets|
        invariant Sorted(prisma.slots, clubId, eventId, targets[..k], conflict, rows, claim, keep)
      {
        hide Sorted;
        var t := targets[k];
        var booked, exact := Judge(prisma.slots, existing, clubId, t, from, to);
        SortOne(prisma.slots, clubId, eventId, targets[..k], t, conflict, rows, claim, keep, booked, exact);
        assert targets[..k + 1] == targets[..k] + [t];
        if booked {
          conflict := true;
        } else if exact.None? {
          rows := rows + [BlockedRow(clubId, t, Some(eventId))];
        } else if prisma.slots[exact.value].status.Blocked? && prisma.slots[exact.value].eventId == Some(eventId) {
          keep := keep + {exact.value};
        } else if prisma.slots[exact.value].status.Available? {
          claim := claim + {exact.value};
        }
      }
      assert targets[..|targets|] == targets;
    }

    /** Matches the event's blocked slots to its targets, or refuses and writes nothing. */
    method SyncEventBlocks(clubId: ClubId, eventId: EventId, targets: seq<Target>) returns (r: Result<()>)
      requires SoundSlots(prisma.slots) && UniqueStarts(prisma.slots) && GoodTargets(targets)
      modifies prisma
      ensures var rule := SyncBlocks(old(prisma.Rows()), clubId, eventId, targets);
              prisma.Rows() == rule.db && r == rule.result
    {
      hide UniqueStarts, GoodTargets, AnyConflict, AnyStartTaken, NewRows;
      var before := prisma.Rows();
      var conflict, rows, claim, keep := SortTargets(clubId, eventId, targets);
      if conflict {
        return Err(Conflict);
      }
      ReleaseExcept(clubId, eventId, keep);
      ClaimFree(eventId, claim);
      WrittenRows(before.slots, prisma.slots, clubId, eventId, targets, rows, claim, keep);
      if AnyStartTaken(before.slots, rows) {
        prisma.Rollback(before);
        return Err(Conflict);
      }
      prisma.slots := prisma.slots + rows;
      return Ok(());
    }

    method ReleaseEventBlocks(clubId: ClubId, eventId: EventId)
      modifies prisma
      ensures prisma.Rows() == ReleaseBlocks(old(prisma.Rows()), clubId, eventId)
    {
      ReleaseExcept(clubId, eventId, {});
      assert prisma.slots == ReleaseBlocks(old(prisma.Rows()), clubId, eventId).slots;
    }
  }

  /** Releasing then claiming is what the sync rule says of each row. */
  lemma WrittenRows(before: seq<Slot>, after: seq<Slot>, clubId: ClubId, eventId: EventId, targets: seq<Target>,
                    rows: seq<Slot>, claim: set<SlotId>, keep: set<SlotId>)
    requires SoundSlots(before) && Sorted(before, clubId, eventId, targets, false, rows, claim, keep)
             && |after| == |before|
    requires forall i :: 0 <= i < |after| ==>
               after[i] == ClaimedRow(ReleasedUnless(before[i], clubId, eventId, i in keep), eventId, i in claim)
    ensures after == SyncedRows(before, clubId, eventId, targets)
  {
    forall i | 0 <= i < |after|
      ensures after[i] == SyncedRow(before[i], clubId, eventId, targets)
    {
      assert SoundSlot(before[i]);
    }
  }

  // ── Bulk blocks ─────────────────────────────────────────────────────────────

  /** Targets with no row of the club, in order: what the bulk block will insert. */
  function Missing(slots: seq<Slot>, clubId: ClubId, targets: seq<Target>): seq<Target> {
    if targets == [] then []
    else
      var n := |targets| - 1;
      Missing(slots, clubId, targets[..n]) + (if HasRow(slots, clubId, targets[n]) then [] else [targets[n]])
  }

  /** How many targets find a row that is neither free nor missing. */
  function Skipped(slots: seq<Slot>, clubId: ClubId, targets: seq<Target>): nat {
    if targets == [] then 0
    else
      var n := |targets| - 1;
      Skipped(slots, clubId, targets[..n]) +
      (if HasRow(slots, clubId, targets[n]) && !FindsFreeRow(slots, clubId, targets[n]) then 1 else 0)
  }

  predicate FindsFreeRow(slots: seq<Slot>, clubId: ClubId, t: Target) {
    exists i :: 0 <= i < |slots| && IsTarget(slots[i], clubId, t) && slots[i].status.Available?
  }

  function Freed(slots: seq<Slot>, clubId: ClubId, targets: seq<Target>): nat {
    if targets == [] then 0
    else
      var n := |targets| - 1;
      Freed(slots, clubId, targets[..n]) + (if FindsFreeRow(slots, clubId, targets[n]) then 1 else 0)
  }

  datatype BulkCounts = BulkCounts(blocked: nat, created: nat, skipped: nat)

  method FindRow(slots: seq<Slot>, clubId: ClubId, t: Target) returns (found: Option<SlotId>)
    ensures found.Some? ==> found.value < |slots| && IsTarget(slots[found.value], clubId, t)
    ensures found.None? ==> !HasRow(slots, clubId, t)
  {
    found := None;
    for i := 0 to |slots|
      invariant found.Some? ==> found.value < |slots| && IsTarget(slots[found.value], clubId, t)
      invariant found.None? ==> forall j :: 0 <= j < i ==> !IsTarget(slots[j], clubId, t)
    {
      if slots[i].clubId == clubId && slots[i].courtId == t.courtId && slots[i].startsAt == t.startsAt {
        found := Some(i);
      }
    }
  }

  /** The pass over a bulk block's targets so far. */
  ghost predicate Picked(slots: seq<Slot>, clubId: ClubId, targets: seq<Target>, toCreate: seq<Target>,
                         toBlock: set<SlotId>, blocks: nat, skipped: nat)
  {
    && toCreate == Missing(slots, clubId, targets)
    && skipped == Skipped(slots, clubId, targets)
    && blocks == Freed(slots, clubId, targets)
    && (forall i: SlotId :: i in toBlock <==>
          i < |slots| && OnTarget(slots[i], clubId, targets) && slots[i].status.Available?)
  }

  lemma PickOne(slots: seq<Slot>, clubId: ClubId, targets: seq<Target>, t: Target, toCreate: seq<Target>,
                toBlock: set<SlotId>, blocks: nat, skipped: nat, found: Option<SlotId>)
    requires UniqueStarts(slots) && Picked(slots, clubId, targets, toCreate, toBlock, blocks, skipped)
    requires found.Some? ==> found.value < |slots| && IsTarget(slots[found.value], clubId, t)
    requires found.None? ==> !HasRow(slots, clubId, t)
    ensures var free := found.Some? && slots[found.value].status.Available?;
      Picked(slots, clubId, targets + [t], if found.None? then toCreate + [t] else toCreate,
             if free then toBlock + {found.value} else toBlock, if free then blocks + 1 else blocks,
             if found.Some? && !free then skipped + 1 else skipped)
  {
    hide UniqueStarts, OnTarget, IsTarget, HasRow;
    assert (targets + [t])[..|targets|] == targets;
    ExactTells(slots, clubId, t, found);
    assert FindsFreeRow(slots, clubId, t) <==> found.Some? && slots[found.value].status.Available?;
    forall i: SlotId | i < |slots|
      ensures OnTarget(slots[i], clubId, targets + [t]) <==> OnTarget(slots[i], clubId, targets) || found == Some(i)
    {
      OnMoreTargets(slots[i], clubId, targets, t);
    }
    hide FindsFreeRow;
  }

  /** Inserting only what is missing leaves the same rows as inserting everything and skipping duplicates. */
  lemma {:induction false} InsertMissing(slots: seq<Slot>, clubId: ClubId, targets: seq<Target>)
    ensures InsertIgnoring(slots, clubId, Missing(slots, clubId, targets)) == InsertIgnoring(slots, clubId, targets)
    ensures slots <= InsertIgnoring(slots, clubId, targets)
  {
    if targets != [] {
      var n := |targets| - 1;
      InsertMissing(slots, clubId, targets[..n]);
      var t := targets[n];
      var before := InsertIgnoring(slots, clubId, targets[..n]);
      if HasRow(slots, clubId, t) {
        var i :| 0 <= i < |slots| && IsTarget(slots[i], clubId, t);
        assert before[i] == slots[i] && SameStart(before[i], BlockedRow(clubId, t, None));
        assert StartTaken(before, BlockedRow(clubId, t, None));
        assert Missing(slots, clubId, targets) == Missing(slots, clubId, targets[..n]);
      } else {
        var missing := Missing(slots, clubId, targets[..n]);
        assert (missing + [t])[..|missing|] == missing;
      }
    }
  }

  predicate SameCourtStart(t: Target, u: Target) {
    t.courtId == u.courtId && t.startsAt == u.startsAt
  }

  /** Some target has this one's court and start. */
  predicate Asked(targets: seq<Target>, t: Target) {
    exists j :: 0 <= j < |targets| && SameCourtStart(targets[j], t)
  }

  /** No two targets without a row share a court start, and no row of anybody stands on one of theirs. */
  ghost predicate MissingApart(slots: seq<Slot>, clubId: ClubId, targets: seq<Target>) {
    forall k :: 0 <= k < |targets| && !HasRow(slots, clubId, targets[k]) ==>
      && !StartTaken(slots, BlockedRow(clubId, targets[k], None))
      && forall j :: 0 <= j < k ==> !SameCourtStart(targets[j], targets[k])
  }

  /** After the inserts a start is taken when it was before, or when some target has it. */
  lemma {:induction false} TakenAfter(slots: seq<Slot>, clubId: ClubId, targets: seq<Target>, t: Target)
    ensures StartTaken(InsertIgnoring(slots, clubId, targets), BlockedRow(clubId, t, None)) <==>
            StartTaken(slots, BlockedRow(clubId, t, None)) || exists j :: 0 <= j < |targets|
                                                                          && SameCourtStart(targets[j], t)
  {
    if targets != [] {
      var n := |targets| - 1;
      var before, all := InsertIgnoring(slots, clubId, targets[..n]), InsertIgnoring(slots, clubId, targets);
      var row, last := BlockedRow(clubId, t, None), BlockedRow(clubId, targets[n], None);
      TakenAfter(slots, clubId, targets[..n], t);
      TakenAfter(slots, clubId, targets[..n], targets[n]);
      assert SameCourtStart(targets[n], t) <==> SameStart(last, row);
      if !StartTaken(before, last) {
        assert all == before + [last];
        TakenAppend(before, last, row);
      } else if SameStart(last, row) {
        SameStartTaken(before, last, row);
      }
      assert forall j :: 0 <= j < n ==> targets[..n][j] == targets[j];
    }
  }

  lemma TakenAppend(slots: seq<Slot>, last: Slot, row: Slot)
    ensures StartTaken(slots + [last], row) <==> StartTaken(slots, row) || SameStart(last, row)
  {
    assert (slots + [last])[|slots|] == last;
    assert forall i :: 0 <= i < |slots| ==> (slots + [last])[i] == slots[i];
  }

  lemma SameStartTaken(slots: seq<Slot>, last: Slot, row: Slot)
    requires SameStart(last, row)
    ensures StartTaken(slots, last) <==> StartTaken(slots, row)
  {
    assert forall i :: 0 <= i < |slots| ==> (SameStart(slots[i], last) <==> SameStart(slots[i], row));
  }

  lemma MissingApartStep(slots: seq<Slot>, clubId: ClubId, targets: seq<Target>)
    requires targets != []
    ensures var n := |targets| - 1;
            MissingApart(slots, clubId, targets) <==>
            && MissingApart(slots, clubId, targets[..n])
            && (!HasRow(slots, clubId, targets[n]) ==>
                  && !StartTaken(slots, BlockedRow(clubId, targets[n], None))
                  && forall j :: 0 <= j < n ==> !SameCourtStart(targets[j], targets[n]))
  {
    hide HasRow, StartTaken, SameCourtStart;
    var front := targets[..|targets| - 1];
    assert forall k :: 0 <= k < |front| ==> front[k] == targets[k];
  }

  /**
   * The rows a bulk block inserts are at most those it counts as created, and as many exactly when the
   * targets without a row have different court starts and none of them is another club's.
   */
  lemma {:induction false} CreatedCountsExactly(slots: seq<Slot>, clubId: ClubId, targets: seq<Target>)
    ensures |slots| <= |InsertIgnoring(slots, clubId, targets)| <= |slots| + |Missing(slots, clubId, targets)|
    ensures |InsertIgnoring(slots, clubId, targets)| == |slots| + |Missing(slots, clubId, targets)| <==>
            MissingApart(slots, clubId, targets)
  {
    hide StartTaken, MissingApart, HasRow, SameCourtStart;
    if targets == [] {
      NoneMissing(slots, clubId);
    } else {
      var n := |targets| - 1;
      CreatedCountsExactly(slots, clubId, targets[..n]);
      MissingApartStep(slots, clubId, targets);
      TakenAfter(slots, clubId, targets[..n], targets[n]);
      RowTakesStart(slots, clubId, targets[n]);
      assert forall j :: 0 <= j < n ==> targets[..n][j] == targets[j];
    }
  }

  lemma NoneMissing(slots: seq<Slot>, clubId: ClubId)
    ensures MissingApart(slots, clubId, [])
  {
  }

  lemma RowTakesStart(slots: seq<Slot>, clubId: ClubId, t: Target)
    ensures HasRow(slots, clubId, t) ==> StartTaken(slots, BlockedRow(clubId, t, None))
  {
    if HasRow(slots, clubId, t) {
      var i :| 0 <= i < |slots| && IsTarget(slots[i], clubId, t);
      assert SameStart(slots[i], BlockedRow(clubId, t, None));
    }
  }

  // ── The free rows a bulk block flips ────────────────────────────────────────

  function FlippedRows(slots: seq<Slot>, clubId: ClubId, targets: seq<Target>): set<SlotId> {
    set i: SlotId | 0 <= i < |slots| && OnTarget(slots[i], clubId, targets) && slots[i].status.Available?
  }

  /** No two targets find the same free row. */
  ghost predicate FreeApart(slots: seq<Slot>, clubId: ClubId, targets: seq<Target>) {
    forall j, k :: 0 <= j < k < |targets| && FindsFreeRow(slots, clubId, targets[k]) ==>
      !SameCourtStart(targets[j], targets[k])
  }

  lemma FreeApartStep(slots: seq<Slot>, clubId: ClubId, targets: seq<Target>)
    requires targets != []
    ensures var n := |targets| - 1;
            FreeApart(slots, clubId, targets) <==>
            && FreeApart(slots, clubId, targets[..n])
            && (FindsFreeRow(slots, clubId, targets[n]) ==> !Asked(targets[..n], targets[n]))
  {
    hide FindsFreeRow, SameCourtStart;
    var front := targets[..|targets| - 1];
    assert forall k :: 0 <= k < |front| ==> front[k] == targets[k];
  }

  /** One more target: its free row, when it finds one, joins the rows flipped. */
  lemma FlippedStep(slots: seq<Slot>, clubId: ClubId, targets: seq<Target>)
    requires UniqueStarts(slots) && targets != []
    ensures var n := |targets| - 1;
            var before := FlippedRows(slots, clubId, targets[..n]);
            var free := FindsFreeRow(slots, clubId, targets[n]);
            var again := Asked(targets[..n], targets[n]);
            |FlippedRows(slots, clubId, targets)| == |before| + (if free && !again then 1 else 0)
  {
    hide UniqueStarts, FindsFreeRow, OnTarget, IsTarget, Asked;
    var n := |targets| - 1;
    var front, t := targets[..n], targets[n];
    assert targets == front + [t];
    var before, after := FlippedRows(slots, clubId, front), FlippedRows(slots, clubId, targets);
    forall i | 0 <= i < |slots|
      ensures OnTarget(slots[i], clubId, targets) <==>
              OnTarget(slots[i], clubId, front) || IsTarget(slots[i], clubId, t)
    {
      OnMoreTargets(slots[i], clubId, front, t);
    }
    if FindsFreeRow(slots, clubId, t) {
      var i := FreeRow(slots, clubId, t);
      OnTargetAgain(slots[i], clubId, front, t);
      assert i in before <==> Asked(front, t);
      assert after == before + {i};
      if i in before {
        assert after == before;
      } else {
        assert |after| == |before| + 1;
      }
    } else {
      NoFreeRow(slots, clubId, t);
      assert after == before;
    }
  }

  lemma FreeRow(slots: seq<Slot>, clubId: ClubId, t: Target) returns (i: SlotId)
    requires UniqueStarts(slots) && FindsFreeRow(slots, clubId, t)
    ensures i < |slots| && slots[i].status.Available?
            && forall k :: 0 <= k < |slots| ==> (IsTarget(slots[k], clubId, t) <==> k == i)
  {
    hide UniqueStarts, IsTarget;
    i :| 0 <= i < |slots| && IsTarget(slots[i], clubId, t) && slots[i].status.Available?;
    forall k | 0 <= k < |slots| && IsTarget(slots[k], clubId, t)
      ensures k == i
    {
      OneRow(slots, clubId, t, k, i);
    }
  }

  lemma NoFreeRow(slots: seq<Slot>, clubId: ClubId, t: Target)
    requires !FindsFreeRow(slots, clubId, t)
    ensures forall k :: 0 <= k < |slots| && IsTarget(slots[k], clubId, t) ==> !slots[k].status.Available?
  {
  }

  lemma OnTargetAgain(slot: Slot, clubId: ClubId, targets: seq<Target>, t: Target)
    requires IsTarget(slot, clubId, t)
    ensures OnTarget(slot, clubId, targets) <==> Asked(targets, t)
  {
  }

  /** The rows flipped are at most those counted, and as many exactly when no two targets find the same free row. */
  lemma {:induction false} FlippedCountsExactly(slots: seq<Slot>, clubId: ClubId, targets: seq<Target>)
    requires UniqueStarts(slots)
    ensures |FlippedRows(slots, clubId, targets)| <= Freed(slots, clubId, targets)
    ensures |FlippedRows(slots, clubId, targets)| == Freed(slots, clubId, targets) <==>
            FreeApart(slots, clubId, targets)
  {
    if targets == [] {
      assert FlippedRows(slots, clubId, targets) == {};
    } else {
      hide UniqueStarts, FlippedRows, FindsFreeRow, Asked, FreeApart;
      var n := |targets| - 1;
      FlippedCountsExactly(slots, clubId, targets[..n]);
      FlippedStep(slots, clubId, targets);
      FreeApartStep(slots, clubId, targets);
    }
  }

  /** Asking twice for the same band of an empty table inserts one row and counts two. */
  lemma DuplicateStartsOverCount(clubId: ClubId, t: Target)
    ensures |Missing([], clubId, [t, t])| == 2 && |InsertIgnoring([], clubId, [t, t])| == 1
  {
    assert [t, t][..1] == [t] && [t][..0] == [];
    assert Missing([], clubId, [t]) == [t];
    var row := BlockedRow(clubId, t, None);
    assert InsertIgnoring([], clubId, [t]) == [row];
    assert SameStart([row][0], row);
  }

  /** Asking twice for a band whose one row is free flips one row and counts two. */
  lemma DuplicateFreeRowsOverCount(slot: Slot, t: Target)
    requires slot.status.Available? && slot.courtId == t.courtId && slot.startsAt == t.startsAt
    ensures Freed([slot], slot.clubId, [t, t]) == 2 && FlippedRows([slot], slot.clubId, [t, t]) == {0}
  {
    var slots := [slot];
    assert [t, t][..1] == [t] && [t][..0] == [];
    assert IsTarget(slots[0], slot.clubId, [t, t][0]) && slots[0].status.Available?;
    assert FindsFreeRow(slots, slot.clubId, t);
    assert Freed(slots, slot.clubId, [t]) == 1;
    assert OnTarget(slots[0], slot.clubId, [t, t]);
  }

  class SlotsService {
    const prisma: Database

    constructor (prisma: Database)
      ensures this.prisma == prisma
    {
      this.prisma := prisma;
    }

    /** INSERT IGNORE: rows the unique index refuses are skipped. */
    method CreateMany(clubId: ClubId, targets: seq<Target>)
      modifies prisma`slots
      ensures prisma.slots == InsertIgnoring(old(prisma.slots), clubId, targets)
    {
      for k := 0 to |targets|
        invariant prisma.slots == InsertIgnoring(old(prisma.slots), clubId, targets[..k])
      {
        assert targets[..k + 1][..k] == targets[..k];
        var row := BlockedRow(clubId, targets[k], None);
        if !StartTaken(prisma.slots, row) {
          prisma.slots := prisma.slots + [row];
        }
      }
      assert targets[..|targets|] == targets;
    }

    method PickTargets(clubId: ClubId, targets: seq<Target>)
      returns (toCreate: seq<Target>, toBlock: set<SlotId>, blocks: nat, skipped: nat)
      requires UniqueStarts(prisma.slots)
      ensures Picked(prisma.slots, clubId, targets, toCreate, toBlock, blocks, skipped)
    {
      hide UniqueStarts, HasRow;
      toCreate, toBlock, blocks, skipped := [], {}, 0, 0;
      for k := 0 to |targets|
        invariant Picked(prisma.slots, clubId, targets[..k], toCreate, toBlock, blocks, skipped)
      {
        hide Picked;
        var found := FindRow(prisma.slots, clubId, targets[k]);
        PickOne(prisma.slots, clubId, targets[..k], targets[k], toCreate, toBlock, blocks, skipped, found);
        assert targets[..k + 1] == targets[..k] + [targets[k]];
        if found.None? {
          toCreate := toCreate + [targets[k]];
        } else if prisma.slots[found.value].status.Available? {
          toBlock := toBlock + {found.value};
          blocks := blocks + 1;
        } else {
          skipped := skipped + 1;
        }
      }
      assert targets[..|targets|] == targets;
    }

    method BulkBlockSlots(clubId: ClubId, targets: seq<Target>) returns (counts: BulkCounts)
      requires UniqueStarts(prisma.slots)
      modifies prisma`slots
      ensures prisma.Rows() == BulkBlock(old(prisma.Rows()), clubId, targets)
      ensures var slots := old(prisma.slots);
        counts == BulkCounts(|Missing(slots, clubId, targets)| +
                             Freed(slots, clubId, targets), |Missing(slots, clubId, targets)|,
                             Skipped(slots, clubId, targets))
      ensures counts.created == |prisma.slots| - |old(prisma.slots)| <==>
              MissingApart(old(prisma.slots), clubId, targets)
      ensures counts.blocked - counts.created == |FlippedRows(old(prisma.slots), clubId, targets)| <==>
              FreeApart(old(prisma.slots), clubId, targets)
    {
      hide UniqueStarts, InsertIgnoring, Missing, Freed, Skipped, MissingApart, FreeApart, FlippedRows;
      ghost var before := prisma.slots;
      var toCreate, toBlock, blocks, skipped := PickTargets(clubId, targets);
      CreateMany(clubId, toCreate);
      InsertMissing(before, clubId, targets);
      InsertedBlocked(before, clubId, targets);
      CreatedCountsExactly(before, clubId, targets);
      FlippedCountsExactly(before, clubId, targets);
      ghost var inserted := prisma.slots;
      for k := 0 to |prisma.slots|
        invariant |prisma.slots| == |inserted|
        invariant forall i :: 0 <= i < |inserted| ==>
          prisma.slots[i] == if i < k && i in toBlock then inserted[i].(status := Blocked) else inserted[i]
      {
        if k in toBlock {
          prisma.slots := prisma.slots[k := prisma.slots[k].(status := Blocked)];
        }
      }
      assert prisma.slots == BulkBlock(old(prisma.Rows()), clubId, targets).slots;
      return BulkCounts(|toCreate| + blocks, |toCreate|, skipped);
    }

    /** How many slots a bulk unblock frees. */
    method BulkUnblockSlots(clubId: ClubId, r: Range) returns (count: nat)
      modifies prisma`slots
      ensures prisma.Rows() == BulkUnblock(old(prisma.Rows()), clubId, r)
      ensures count == Unblocked(old(prisma.slots), clubId, r)
    {
      count := 0;
      for k := 0 to |prisma.slots|
        invariant |prisma.slots| == |old(prisma.slots)|
        invariant forall i :: k <= i < |prisma.slots| ==> prisma.slots[i] == old(prisma.slots)[i]
        invariant forall i :: 0 <= i < k ==> prisma.slots[i] == UnblockedRow(old(prisma.slots)[i], clubId, r)
        invariant count == Unblocked(old(prisma.slots)[..k], clubId, r)
      {
        assert old(prisma.slots)[..k + 1][..k] == old(prisma.slots)[..k];
        if Unblockable(prisma.slots[k], clubId, r) {
          prisma.slots := prisma.slots[k := prisma.slots[k].(status := Available)];
          count := count + 1;
        }
      }
      assert old(prisma.slots)[..|old(prisma.slots)|] == old(prisma.slots);
      assert prisma.slots == BulkUnblock(old(prisma.Rows()), clubId, r).slots;
    }
  }

  function UnblockedRow(slot: Slot, clubId: ClubId, r: Range): Slot {
    if Unblockable(slot, clubId, r) then slot.(status := Available) else slot
  }

  function Unblocked(slots: seq<Slot>, clubId: ClubId, r: Range): nat {
    if slots == [] then 0
    else Unblocked(slots[..|slots| - 1], clubId, r) + (if Unblockable(slots[|slots| - 1], clubId, r) then 1 else 0)
  }

  /** Rows the bulk block inserts are BLOCKED, so only rows that were there can still be free. */
  lemma {:induction false} InsertedBlocked(slots: seq<Slot>, clubId: ClubId, targets: seq<Target>)
    ensures var inserted := InsertIgnoring(slots, clubId, targets);
            |slots| <= |inserted| && inserted[..|slots|] == slots
            && forall i :: |slots| <= i < |inserted| ==> inserted[i].status.Blocked?
  {
    if targets != [] {
      InsertedBlocked(slots, clubId, targets[..|targets| - 1]);
      hide StartTaken;
    }
  }
}
