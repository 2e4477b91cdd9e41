/**
 * The same booking lifecycle with every read and its conditional commit as separate steps, any
 * number of them in flight at once: pending creation, confirmation, staff cancel, expiry and the
 * revive path's three writes (src/bookings/bookings.service.ts). Moves are not part of this model.
 */
module Interleavings {
  import opened Base
  import opened ClubData
  import opened RowMoves
  import opened BookingRules

  type TaskId = nat

  /** What a call read and is about to commit. */
  datatype Task =
    | Creating(place: Place, row: Booking)
    | Confirming(booking: BookingId, ref: Option<string>, payer: Payer)
    | Cancelling(booking: BookingId, read: BookingStatus, outcome: Option<DepositOutcome>)
    | Expiring(booking: BookingId)
    | Reviving(booking: BookingId, transferRef: string, payer: Payer)

  /** `holding`: revives that re-took their booking's slot and have not yet rewritten its status. */
  datatype System = System(
    slots: seq<Slot>,
    bookings: seq<Booking>,
    tasks: map<TaskId, Task>,
    holding: map<TaskId, Task>)

  datatype Act =
    | Read(t: TaskId, task: Task)
    | Commit(t: TaskId)
    | Repend(t: TaskId)
    | OtherSlotWrite(slots: seq<Slot>)
    | OtherEdit(booking: BookingId, row: Booking)

  predicate Status(sys: System, i: BookingId, status: BookingStatus) {
    i < |sys.bookings| && sys.bookings[i].status == status
  }

  /** What a call checks when it reads; by the time it commits this may no longer hold. */
  predicate ReadAllows(sys: System, task: Task) {
    match task
    case Creating(Existing(s), _) => s < |sys.slots| && sys.slots[s].status.Available?
    case Creating(Fresh(_), _) => true
    case Confirming(i, _, _) => Status(sys, i, PendingPayment)
    case Cancelling(i, read, outcome) =>
      && Status(sys, i, read) && !read.Cancelled?
      && (outcome.Some? <==> read.Confirmed? && sys.bookings[i].transferAmountCents.Some?)
    case Expiring(i) => Status(sys, i, PendingPayment)
    case Reviving(i, _, _) => Status(sys, i, Cancelled) && !Settled(sys.bookings[i])
  }

  /** Marks a booking cancelled and frees the slot it was read with. */
  function Shut(sys: System, i: BookingId, outcome: Option<DepositOutcome>): System
    requires i < |sys.bookings|
  {
    var b := sys.bookings[i];
    sys.(bookings := sys.bookings[i := Closed(b, outcome)], slots := FreeSlot(sys.slots, b.slotId))
  }

  /** The task's conditional write: when its condition no longer holds, nothing is written. */
  function Written(sys: System, task: Task): System {
    match task
    case Creating(Existing(s), row) =>
      if s < |sys.slots| && sys.slots[s].status.Available? then
        sys.(slots := sys.slots[s := sys.slots[s].(status := Booked)],
             bookings := sys.bookings + [row.(slotId := s)])
      else sys
    case Creating(Fresh(slot), row) =>
      if StartTaken(sys.slots, slot) then sys
      else sys.(slots := sys.slots + [slot.(status := Booked, eventId := None)],
                bookings := sys.bookings + [row.(slotId := |sys.slots|)])
    case Confirming(i, ref, payer) =>
      if Status(sys, i, PendingPayment)
      then sys.(bookings := sys.bookings[i := WithPayment(sys.bookings[i], ref, payer)]) else sys
    case Cancelling(i, read, outcome) =>
      if Status(sys, i, read) && !read.Cancelled? then Shut(sys, i, outcome) else sys
    case Expiring(i) =>
      if Status(sys, i, PendingPayment) then Shut(sys, i, sys.bookings[i].depositOutcome) else sys
    case Reviving(i, _, _) =>
      if LockWins(sys, task) then
        var s := sys.bookings[i].slotId;
        sys.(slots := sys.slots[s := sys.slots[s].(status := Booked)])
      else sys
  }

  /** The revive's conditional flip of its booking's slot succeeds. */
  predicate LockWins(sys: System, task: Task) {
    && task.Reviving?
    && task.booking < |sys.bookings|
    && sys.bookings[task.booking].slotId < |sys.slots|
    && sys.slots[sys.bookings[task.booking].slotId].status.Available?
  }

  function CommitTask(sys: System, t: TaskId): System
    requires t in sys.tasks
  {
    var task := sys.tasks[t];
    var done := Written(sys, task).(tasks := sys.tasks - {t});
    if LockWins(sys, task) then done.(holding := sys.holding[t := task]) else done
  }

  /** The revive's unconditional write back to pending; its confirmation follows as a task. */
  function RependTask(sys: System, t: TaskId): System
    requires t in sys.holding && sys.holding[t].Reviving? && sys.holding[t].booking < |sys.bookings|
  {
    var task := sys.holding[t];
    sys.(bookings := sys.bookings[task.booking := sys.bookings[task.booking].(status := PendingPayment)],
         holding := sys.holding - {t},
         tasks := sys.tasks[t := Confirming(task.booking, Some(task.transferRef), task.payer)])
  }

  ghost predicate GoodTask(sys: System, task: Task) {
    match task
    case Creating(Existing(s), row) => Live(row) && s < |sys.slots| && sys.slots[s].clubId == row.clubId
    case Creating(Fresh(slot), row) => Live(row) && slot.startsAt < slot.endsAt && slot.clubId == row.clubId
    case _ => true
  }

  ghost predicate Enabled(sys: System, act: Act) {
    match act
    case Read(t, task) => t !in sys.tasks && t !in sys.holding && ReadAllows(sys, task) && GoodTask(sys, task)
    case Commit(t) => t in sys.tasks
    case Repend(t) => t in sys.holding && t !in sys.tasks && sys.holding[t].Reviving?
                      && sys.holding[t].booking < |sys.bookings|
    case OtherSlotWrite(slots) => SlotsOnly(sys.slots, slots)
    case OtherEdit(i, row) => i < |sys.bookings| && SameClaim(sys.bookings[i], row)
                              && row.status == sys.bookings[i].status
  }

  function Next(sys: System, act: Act): System
    requires Enabled(sys, act)
  {
    match act
    case Read(t, task) => sys.(tasks := sys.tasks[t := task])
    case Commit(t) => CommitTask(sys, t)
    case Repend(t) => RependTask(sys, t)
    case OtherSlotWrite(slots) => sys.(slots := slots)
    case OtherEdit(i, row) => sys.(bookings := sys.bookings[i := row])
  }

  // ── The view: a revive holding a slot counts as the booking it is bringing back ──

  ghost predicate IsHolding(holding: map<TaskId, Task>, i: BookingId) {
    exists t :: t in holding && holding[t].Reviving? && holding[t].booking == i
  }

  ghost function View(bookings: seq<Booking>, holding: map<TaskId, Task>): (v: seq<Booking>)
    requires forall t :: t in holding ==> holding[t].Reviving?
    ensures |v| == |bookings|
  {
    seq(|bookings|, i requires 0 <= i < |bookings| =>
          if IsHolding(holding, i) then bookings[i].(status := PendingPayment) else bookings[i])
  }

  ghost predicate GoodHolding(sys: System) {
    && (forall t :: t in sys.holding ==> sys.holding[t].Reviving? && Status(sys, sys.holding[t].booking, Cancelled))
    && (forall t, u :: t in sys.holding && u in sys.holding && sys.holding[t].booking == sys.holding[u].booking ==>
          t == u)
    && (forall t :: t in sys.holding ==> t !in sys.tasks)
  }

  ghost predicate GoodTasks(sys: System) {
    forall t :: t in sys.tasks ==> GoodTask(sys, sys.tasks[t])
  }

  /** Occupancy holds of the view, so it holds of every interleaving and not only between calls. */
  ghost predicate FineInv(sys: System) {
    && GoodHolding(sys)
    && GoodTasks(sys)
    && Occupancy(sys.slots, View(sys.bookings, sys.holding))
  }

  lemma ViewUpdate(bookings: seq<Booking>, holding: map<TaskId, Task>, i: BookingId, b: Booking)
    requires forall t :: t in holding ==> holding[t].Reviving?
    requires i < |bookings| && !IsHolding(holding, i)
    ensures View(bookings[i := b], holding) == View(bookings, holding)[i := b]
  {
  }

  lemma ViewAppend(bookings: seq<Booking>, holding: map<TaskId, Task>, b: Booking)
    requires forall t :: t in holding ==> holding[t].Reviving? && holding[t].booking < |bookings|
    ensures View(bookings + [b], holding) == View(bookings, holding) + [b]
  {
  }

  lemma NotHeldUnlessCancelled(sys: System, i: BookingId)
    requires GoodHolding(sys) && i < |sys.bookings| && Live(sys.bookings[i])
    ensures !IsHolding(sys.holding, i)
  {
  }

  lemma TasksSurvive(sys: System, after: System)
    requires GoodTasks(sys) && after.tasks.Keys <= sys.tasks.Keys
             && forall t :: t in after.tasks ==> after.tasks[t] == sys.tasks[t]
    requires |sys.slots| <= |after.slots|
    requires forall s :: 0 <= s < |sys.slots| ==> after.slots[s].clubId == sys.slots[s].clubId
    ensures GoodTasks(after)
  {
    forall t | t in after.tasks
      ensures GoodTask(after, after.tasks[t])
    {
      assert GoodTask(sys, sys.tasks[t]);
    }
  }

  // ── Every step keeps the invariant ──────────────────────────────────────────

  lemma ShutKeeps(sys: System, i: BookingId, outcome: Option<DepositOutcome>)
    requires GoodHolding(sys) && Occupancy(sys.slots, View(sys.bookings, sys.holding))
    requires i < |sys.bookings| && Live(sys.bookings[i])
    ensures var c := Shut(sys, i, outcome);
            GoodHolding(c) && Occupancy(c.slots, View(c.bookings, c.holding))
  {
    NotHeldUnlessCancelled(sys, i);
    var b := Closed(sys.bookings[i], outcome);
    ViewUpdate(sys.bookings, sys.holding, i, b);
    CloseOccupancy(sys.slots, View(sys.bookings, sys.holding), i, b);
  }

  lemma CreateKeeps(sys: System, task: Task)
    requires GoodHolding(sys) && Occupancy(sys.slots, View(sys.bookings, sys.holding))
    requires task.Creating? && GoodTask(sys, task)
    ensures var c := Written(sys, task);
            GoodHolding(c) && Occupancy(c.slots, View(c.bookings, c.holding))
  {
    var view := View(sys.bookings, sys.holding);
    match task
    case Creating(Existing(s), row) =>
      if sys.slots[s].status.Available? {
        ViewAppend(sys.bookings, sys.holding, row.(slotId := s));
        TakeOccupancy(sys.slots, view, s, row.(slotId := s));
      }
    case Creating(Fresh(slot), row) =>
      if !StartTaken(sys.slots, slot) {
        var made, b := slot.(status := Booked, eventId := None), row.(slotId := |sys.slots|);
        ViewAppend(sys.bookings, sys.holding, b);
        TakeNewOccupancy(sys.slots, view, made, b);
      }
  }

  predicate SameHold(b: Booking, c: Booking) {
    c.slotId == b.slotId && c.clubId == b.clubId && (Live(c) <==> Live(b))
  }

  lemma EditInPlace(sys: System, i: BookingId, b: Booking)
    requires GoodHolding(sys) && Occupancy(sys.slots, View(sys.bookings, sys.holding))
    requires i < |sys.bookings| && b.slotId == sys.bookings[i].slotId && b.clubId == sys.bookings[i].clubId
    requires Live(b) <==> Live(sys.bookings[i])
    ensures var c := sys.(bookings := sys.bookings[i := b]);
            GoodHolding(c) && Occupancy(c.slots, View(c.bookings, c.holding))
  {
    var c := sys.(bookings := sys.bookings[i := b]);
    var before, after := View(sys.bookings, sys.holding), View(c.bookings, c.holding);
    SameHolders(sys.slots, before, after);
  }

  lemma SameHolders(slots: seq<Slot>, before: seq<Booking>, after: seq<Booking>)
    requires Occupancy(slots, before) && |after| == |before|
    requires forall j :: 0 <= j < |before| ==> SameHold(before[j], after[j])
    ensures Occupancy(slots, after)
  {
    forall s | 0 <= s < |slots| && slots[s].status.Booked?
      ensures IsHeld(after, s)
    {
      assert IsHeld(before, s);
      var j :| 0 <= j < |before| && HoldsSlot(before[j], s);
      assert HoldsSlot(after[j], s);
    }
  }

  lemma WrittenKeeps(sys: System, task: Task)
    requires GoodHolding(sys) && Occupancy(sys.slots, View(sys.bookings, sys.holding))
    requires GoodTask(sys, task) && !LockWins(sys, task)
    ensures var c := Written(sys, task);
            GoodHolding(c) && Occupancy(c.slots, View(c.bookings, c.holding))
  {
    match task
    case Creating(_, _) => CreateKeeps(sys, task);
    case Confirming(i, ref, payer) =>
      if Status(sys, i, PendingPayment) {
        EditInPlace(sys, i, WithPayment(sys.bookings[i], ref, payer));
      }
    case Cancelling(i, read, outcome) =>
      if Status(sys, i, read) && !read.Cancelled? {
        ShutKeeps(sys, i, outcome);
      }
    case Expiring(i) =>
      if Status(sys, i, PendingPayment) {
        ShutKeeps(sys, i, sys.bookings[i].depositOutcome);
      }
    case Reviving(_, _, _) =>
  }

  /** Winning the lock makes the booking live again in the view, before its row says so. */
  lemma LockKeeps(sys: System, t: TaskId)
    requires FineInv(sys) && t in sys.tasks && LockWins(sys, sys.tasks[t])
    ensures FineInv(CommitTask(sys, t))
  {
    var c := CommitTask(sys, t);
    var i := sys.tasks[t].booking;
    var view := View(sys.bookings, sys.holding);
    var s := sys.bookings[i].slotId;
    assert !Live(view[i]);
    assert !IsHolding(sys.holding, i);
    var b := sys.bookings[i].(status := PendingPayment);
    ReopenOccupancy(sys.slots, view, i, b);
    HoldingGrows(sys, t, i);
    TasksSurvive(sys, c);
  }

  lemma HoldingGrows(sys: System, t: TaskId, i: BookingId)
    requires GoodHolding(sys) && t in sys.tasks && sys.tasks[t].Reviving? && sys.tasks[t].booking == i
    requires i < |sys.bookings| && !IsHolding(sys.holding, i)
    ensures View(sys.bookings, sys.holding[t := sys.tasks[t]]) ==
            View(sys.bookings, sys.holding)[i := sys.bookings[i].(status := PendingPayment)]
  {
    var grown := sys.holding[t := sys.tasks[t]];
    assert grown[t].booking == i;
    forall j: nat | j < |sys.bookings| && j != i
      ensures IsHolding(grown, j) <==> IsHolding(sys.holding, j)
    {
      if IsHolding(sys.holding, j) {
        var u :| u in sys.holding && sys.holding[u].booking == j;
        assert u in grown && grown[u].booking == j;
      }
    }
  }

  lemma RependKeeps(sys: System, t: TaskId)
    requires FineInv(sys) && Enabled(sys, Repend(t))
    ensures FineInv(RependTask(sys, t))
  {
    var c := RependTask(sys, t);
    var i := sys.holding[t].booking;
    assert IsHolding(sys.holding, i);
    forall j: nat | j < |sys.bookings|
      ensures View(c.bookings, c.holding)[j] == View(sys.bookings, sys.holding)[j]
    {
      if j != i && IsHolding(sys.holding, j) {
        var u :| u in sys.holding && sys.holding[u].booking == j;
        assert u in c.holding && c.holding[u].booking == j;
      }
    }
    assert View(c.bookings, c.holding) == View(sys.bookings, sys.holding);
    forall u | u in c.tasks
      ensures GoodTask(c, c.tasks[u])
    {
      assert u != t ==> GoodTask(sys, sys.tasks[u]);
    }
  }

  lemma OtherSlotWriteKeeps(sys: System, slots: seq<Slot>)
    requires FineInv(sys) && SlotsOnly(sys.slots, slots)
    ensures FineInv(sys.(slots := slots))
  {
    var view := View(sys.bookings, sys.holding);
    forall s | 0 <= s < |slots| && slots[s].status.Booked?
      ensures IsHeld(view, s)
    {
      assert s < |sys.slots| && sys.slots[s].status.Booked?;
    }
    TasksSurvive(sys, sys.(slots := slots));
  }

  lemma NextKeeps(sys: System, act: Act)
    requires FineInv(sys) && Enabled(sys, act)
    ensures FineInv(Next(sys, act))
  {
    match act
    case Read(t, task) =>
      forall u | u in Next(sys, act).tasks
        ensures GoodTask(Next(sys, act), Next(sys, act).tasks[u])
      {
        assert u != t ==> GoodTask(sys, sys.tasks[u]);
      }
    case Commit(t) =>
      if LockWins(sys, sys.tasks[t]) {
        LockKeeps(sys, t);
      } else {
        WrittenKeeps(sys, sys.tasks[t]);
        TasksSurvive(sys, CommitTask(sys, t));
      }
    case Repend(t) => RependKeeps(sys, t);
    case OtherSlotWrite(slots) => OtherSlotWriteKeeps(sys, slots);
    case OtherEdit(i, row) =>
      EditInPlace(sys, i, row);
      TasksSurvive(sys, Next(sys, act));
  }

  // ── Runs ────────────────────────────────────────────────────────────────────

  /** `trace` is a run: each state follows from the one before by one act. */
  ghost predicate IsRun(trace: seq<System>, acts: seq<Act>) {
    && |trace| == |acts| + 1
    && (forall k :: 0 <= k < |acts| ==> Enabled(trace[k], acts[k]) && trace[k + 1] == Next(trace[k], acts[k]))
  }

  lemma {:induction false} RunKeeps(trace: seq<System>, acts: seq<Act>, n: nat)
    requires IsRun(trace, acts) && FineInv(trace[0]) && n < |trace|
    ensures FineInv(trace[n])
  {
    if n > 0 {
      RunKeeps(trace, acts, n - 1);
      NextKeeps(trace[n - 1], acts[n - 1]);
    }
  }

  /**
   * At every point of every interleaving no slot has two live bookings, and a BOOKED slot is held
   * by one live booking or by one revive about to bring its booking back, never by both.
   */
  lemma NoDoubleBookingInFlight(trace: seq<System>, acts: seq<Act>, n: nat, s: SlotId)
    requires IsRun(trace, acts) && FineInv(trace[0]) && n < |trace| && s < |trace[n].slots|
    ensures var sys := trace[n];
      && (forall i, j :: 0 <= i < j < |sys.bookings| && HoldsSlot(sys.bookings[i], s) ==>
            !HoldsSlot(sys.bookings[j], s))
      && (sys.slots[s].status.Booked? <==> IsHeld(sys.bookings, s) || RevivePending(sys, s))
      && !(IsHeld(sys.bookings, s) && RevivePending(sys, s))
  {
    RunKeeps(trace, acts, n);
    var sys := trace[n];
    HoldersInView(sys, s);
  }

  /** Some revive holds slot s for its booking. */
  ghost predicate RevivePending(sys: System, s: SlotId) {
    exists t :: t in sys.holding && sys.holding[t].Reviving? && sys.holding[t].booking < |sys.bookings|
                && sys.bookings[sys.holding[t].booking].slotId == s
  }

  lemma HoldersInView(sys: System, s: SlotId)
    requires FineInv(sys) && s < |sys.slots|
    ensures forall i, j :: 0 <= i < j < |sys.bookings| && HoldsSlot(sys.bookings[i], s) ==>
              !HoldsSlot(sys.bookings[j], s)
    ensures sys.slots[s].status.Booked? <==> IsHeld(sys.bookings, s) || RevivePending(sys, s)
    ensures !(IsHeld(sys.bookings, s) && RevivePending(sys, s))
  {
    var view := View(sys.bookings, sys.holding);
    forall i | 0 <= i < |view|
      ensures HoldsSlot(sys.bookings[i], s) ==> HoldsSlot(view[i], s)
    {
    }
    if sys.slots[s].status.Booked? {
      assert IsHeld(view, s);
      var i :| 0 <= i < |view| && HoldsSlot(view[i], s);
      if !HoldsSlot(sys.bookings[i], s) {
        var t :| t in sys.holding && sys.holding[t].booking == i;
        assert RevivePending(sys, s);
      }
    }
    forall t | t in sys.holding && sys.bookings[sys.holding[t].booking].slotId == s
      ensures HoldsSlot(view[sys.holding[t].booking], s)
    {
      assert IsHolding(sys.holding, sys.holding[t].booking);
    }
  }

  /** The only write that takes a confirmed booking back: a staff cancel that read it CONFIRMED. */
  predicate UndoesConfirmation(sys: System, act: Act, i: BookingId) {
    act.Commit? && act.t in sys.tasks
    && sys.tasks[act.t].Cancelling? && sys.tasks[act.t].booking == i && sys.tasks[act.t].read.Confirmed?
  }

  /** A cancel or expiry that read the booking pending writes nothing once it is confirmed. */
  lemma StaleCommitWritesNothing(sys: System, t: TaskId)
    requires t in sys.tasks
    requires var task := sys.tasks[t];
      (task.Expiring? && !Status(sys, task.booking, PendingPayment))
      || (task.Cancelling? && !Status(sys, task.booking, task.read))
    ensures CommitTask(sys, t) == sys.(tasks := sys.tasks - {t})
  {
  }

  lemma ConfirmedStep(sys: System, act: Act, i: BookingId)
    requires FineInv(sys) && Enabled(sys, act) && Status(sys, i, Confirmed) && !UndoesConfirmation(sys, act, i)
    ensures Status(Next(sys, act), i, Confirmed) && Next(sys, act).bookings[i].slotId == sys.bookings[i].slotId
  {
    match act
    case Commit(t) =>
    case Repend(t) =>
      assert Status(sys, sys.holding[t].booking, Cancelled);
    case _ =>
  }

  /**
   * Once confirmed, a booking stays confirmed with its court BOOKED and nobody else on it, through
   * every interleaving, until a staff cancel that read it confirmed commits.
   */
  lemma {:induction false} ConfirmedKeepsItsCourt(trace: seq<System>, acts: seq<Act>, from: nat, n: nat, i: BookingId)
    requires IsRun(trace, acts) && FineInv(trace[0]) && from <= n < |trace| && Status(trace[from], i, Confirmed)
    requires forall k :: from <= k < n ==> !UndoesConfirmation(trace[k], acts[k], i)
    ensures Status(trace[n], i, Confirmed) && trace[n].bookings[i].slotId == trace[from].bookings[i].slotId
    ensures var s := trace[n].bookings[i].slotId;
      && s < |trace[n].slots| && trace[n].slots[s].status.Booked?
      && (forall j :: 0 <= j < |trace[n].bookings| && HoldsSlot(trace[n].bookings[j], s) ==> j == i)
  {
    hide FineInv, Enabled, Next;
    if from < n {
      ConfirmedKeepsItsCourt(trace, acts, from, n - 1, i);
      RunKeeps(trace, acts, n - 1);
      assert !UndoesConfirmation(trace[n - 1], acts[n - 1], i);
      ConfirmedStep(trace[n - 1], acts[n - 1], i);
    }
    RunKeeps(trace, acts, n);
    SoleHolder(trace[n], i);
  }

  lemma SoleHolder(sys: System, i: BookingId)
    requires FineInv(sys) && i < |sys.bookings| && Live(sys.bookings[i])
    ensures var s := sys.bookings[i].slotId;
      && s < |sys.slots| && sys.slots[s].status.Booked?
      && (forall j :: 0 <= j < |sys.bookings| && HoldsSlot(sys.bookings[j], s) ==> j == i)
  {
    var view := View(sys.bookings, sys.holding);
    NotHeldUnlessCancelled(sys, i);
    assert view[i] == sys.bookings[i];
    HoldersInView(sys, sys.bookings[i].slotId);
    assert HoldsSlot(sys.bookings[i], sys.bookings[i].slotId);
  }
}
