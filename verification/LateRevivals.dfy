/**
 * Which bookings a revive can bring back once its read and its writes are apart: a settled booking
 * stays settled unless a revive that read it earlier is still on its way
 * (src/bookings/bookings.service.ts, reviveExpiredCandidate).
 */
module LateRevivals {
  import opened Base
  import opened ClubData
  import opened RowMoves
  import opened BookingRules
  import opened Interleavings

  /** A staff cancel of a paid booking carries where its deposit goes. */
  ghost predicate OutcomesGiven(sys: System) {
    forall t {:trigger t in sys.tasks} :: t in sys.tasks && sys.tasks[t].Cancelling? ==> OutcomeGiven(sys, sys.tasks[t])
  }

  predicate OutcomeGiven(sys: System, task: Task)
    requires task.Cancelling?
  {
    task.booking < |sys.bookings|
    && (task.read.Confirmed? && sys.bookings[task.booking].transferAmountCents.Some? ==> task.outcome.Some?)
  }

  /** Some revive read booking i and has not finished with it. */
  ghost predicate ReviveInFlight(sys: System, i: BookingId) {
    || (exists t :: t in sys.tasks && sys.tasks[t].Reviving? && sys.tasks[t].booking == i)
    || (exists t :: t in sys.holding && sys.holding[t].Reviving? && sys.holding[t].booking == i)
  }

  /** Bookings are never dropped and never change the amount they wait for. */
  ghost predicate SameAmounts(before: seq<Booking>, after: seq<Booking>) {
    && |before| <= |after|
    && (forall i :: 0 <= i < |before| ==> after[i].transferAmountCents == before[i].transferAmountCents)
  }

  lemma StepSameAmounts(sys: System, act: Act)
    requires Enabled(sys, act)
    ensures SameAmounts(sys.bookings, Next(sys, act).bookings)
  {
    hide GoodTask, SlotsOnly, ReadAllows, FreeSlot;
  }

  lemma OutcomesStayGiven(sys: System, act: Act)
    requires OutcomesGiven(sys) && Enabled(sys, act)
    ensures OutcomesGiven(Next(sys, act))
  {
    StepSameAmounts(sys, act);
    TasksAfter(sys, act);
    hide Next, Enabled;
    var after := Next(sys, act);
    forall t | t in after.tasks && after.tasks[t].Cancelling?
      ensures OutcomeGiven(after, after.tasks[t])
    {
      assert OutcomeGiven(sys, after.tasks[t]);
    }
  }

  /** A task in flight was there before, was just read, or is the confirmation that follows a revive. */
  lemma TasksAfter(sys: System, act: Act)
    requires Enabled(sys, act)
    ensures forall t :: t in Next(sys, act).tasks ==>
              var task := Next(sys, act).tasks[t];
              (t in sys.tasks && sys.tasks[t] == task) || task.Confirming?
              || (act.Read? && act.task == task && ReadAllows(sys, task))
    ensures forall t :: t in Next(sys, act).holding ==>
              var task := Next(sys, act).holding[t];
              (t in sys.holding && sys.holding[t] == task) || (t in sys.tasks && sys.tasks[t] == task)
  {
    hide GoodTask, SlotsOnly, ReadAllows, FreeSlot;
  }

  lemma SettledStep(sys: System, act: Act, i: BookingId)
    requires OutcomesGiven(sys) && Enabled(sys, act)
    requires i < |sys.bookings| && Settled(sys.bookings[i]) && !ReviveInFlight(sys, i)
    ensures i < |Next(sys, act).bookings| && Settled(Next(sys, act).bookings[i])
  {
    hide GoodTask, SlotsOnly, ReadAllows, FreeSlot;
    match act
    case Commit(t) =>
      if sys.tasks[t].Cancelling? {
        assert OutcomeGiven(sys, sys.tasks[t]);
      }
    case Repend(t) =>
      assert sys.holding[t].booking != i;
    case _ =>
  }

  lemma NoneInFlightStep(sys: System, act: Act, i: BookingId)
    requires Enabled(sys, act) && i < |sys.bookings| && Settled(sys.bookings[i]) && !ReviveInFlight(sys, i)
    ensures !ReviveInFlight(Next(sys, act), i)
  {
    TasksAfter(sys, act);
    hide Next, Enabled;
  }

  /**
   * Once a booking is paid for, or closed with a deposit outcome, and no revive that read it before
   * is in flight, no interleaving brings it back: it stays settled and no revive of it starts.
   */
  lemma {:induction false} SettledStaysSettled(trace: seq<System>, acts: seq<Act>, from: nat, n: nat, i: BookingId)
    requires IsRun(trace, acts) && OutcomesGiven(trace[0]) && from <= n < |trace|
    requires i < |trace[from].bookings| && Settled(trace[from].bookings[i]) && !ReviveInFlight(trace[from], i)
    ensures i < |trace[n].bookings| && Settled(trace[n].bookings[i]) && !ReviveInFlight(trace[n], i)
  {
    hide OutcomesGiven, Enabled, Next, Settled, ReviveInFlight;
    if from < n {
      SettledStaysSettled(trace, acts, from, n - 1, i);
      OutcomesAlong(trace, acts, n - 1);
      SettledStep(trace[n - 1], acts[n - 1], i);
      NoneInFlightStep(trace[n - 1], acts[n - 1], i);
    }
  }

  lemma {:induction false} OutcomesAlong(trace: seq<System>, acts: seq<Act>, n: nat)
    requires IsRun(trace, acts) && OutcomesGiven(trace[0]) && n < |trace|
    ensures OutcomesGiven(trace[n])
  {
    hide OutcomesGiven, Enabled, Next;
    if n > 0 {
      OutcomesAlong(trace, acts, n - 1);
      OutcomesStayGiven(trace[n - 1], acts[n - 1]);
    }
  }

  // ── With such a revive in flight some continuation brings it back ───────────

  /** `acts` leads from `sys` to `final`. */
  ghost predicate Leads(sys: System, acts: seq<Act>, final: System)
    decreases |acts|
  {
    if acts == [] then final == sys
    else Enabled(sys, acts[0]) && Leads(Next(sys, acts[0]), acts[1..], final)
  }

  lemma {:induction false} LeadsOn(sys: System, acts: seq<Act>, mid: System, more: seq<Act>, final: System)
    requires Leads(sys, acts, mid) && Leads(mid, more, final)
    ensures Leads(sys, acts + more, final)
    decreases |acts|
  {
    hide Enabled, Next;
    if acts == [] {
      assert acts + more == more;
    } else {
      LeadsOn(Next(sys, acts[0]), acts[1..], mid, more, final);
      assert (acts + more)[0] == acts[0] && (acts + more)[1..] == acts[1..] + more;
    }
  }

  lemma OneLeads(sys: System, act: Act)
    requires Enabled(sys, act)
    ensures Leads(sys, [act], Next(sys, act))
  {
    hide Enabled, Next;
    assert Leads(Next(sys, act), [], Next(sys, act));
    assert [act][1..] == [];
  }

  lemma {:induction false} LeadingKeepsSound(sys: System, acts: seq<Act>, final: System)
    requires FineInv(sys) && Leads(sys, acts, final)
    ensures FineInv(final)
    decreases |acts|
  {
    hide FineInv, Enabled, Next;
    if acts != [] {
      NextKeeps(sys, acts[0]);
      LeadingKeepsSound(Next(sys, acts[0]), acts[1..], final);
    }
  }

  lemma {:induction false} LeadingKeepsSettled(sys: System, acts: seq<Act>, final: System, i: BookingId)
    requires OutcomesGiven(sys) && Leads(sys, acts, final)
    requires i < |sys.bookings| && Settled(sys.bookings[i]) && !ReviveInFlight(sys, i)
    ensures i < |final.bookings| && Settled(final.bookings[i])
    decreases |acts|
  {
    hide OutcomesGiven, Enabled, Next, Settled, ReviveInFlight;
    if acts != [] {
      SettledStep(sys, acts[0], i);
      NoneInFlightStep(sys, acts[0], i);
      OutcomesStayGiven(sys, acts[0]);
      LeadingKeepsSettled(Next(sys, acts[0]), acts[1..], final, i);
    }
  }

  /** Everything task t and booking i need later is as it was. */
  predicate Untouched(sys: System, c: System, t: TaskId, i: BookingId) {
    && t in sys.tasks && t in c.tasks && c.tasks[t] == sys.tasks[t]
    && i < |sys.bookings| && |c.bookings| == |sys.bookings| && c.bookings[i].slotId == sys.bookings[i].slotId
    && |c.slots| == |sys.slots|
  }

  lemma {:induction false} BelowSome(ids: set<TaskId>) returns (u: TaskId)
    ensures forall t :: t in ids ==> t < u
  {
    if ids == {} {
      u := 0;
    } else {
      var t :| t in ids;
      var rest := BelowSome(ids - {t});
      u := if t < rest then rest else t + 1;
      forall x | x in ids
        ensures x < u
      {
        assert x == t || x in ids - {t};
      }
    }
  }

  /** A staff cancel of a live booking, with nothing else in between, frees its slot. */
  lemma CancelFrees(sys: System, j: BookingId, t: TaskId, i: BookingId) returns (acts: seq<Act>, c: System)
    requires j < |sys.bookings| && Live(sys.bookings[j]) && sys.bookings[j].slotId < |sys.slots|
    requires t in sys.tasks && i < |sys.bookings|
    ensures Leads(sys, acts, c) && Untouched(sys, c, t, i) && c.slots[sys.bookings[j].slotId].status.Available?
  {
    var u := BelowSome(sys.tasks.Keys + sys.holding.Keys);
    var paid := sys.bookings[j].status.Confirmed? && sys.bookings[j].transferAmountCents.Some?;
    var task := Cancelling(j, sys.bookings[j].status, if paid then Some(Credited) else None);
    assert u !in sys.tasks && u !in sys.holding;
    var read := Next(sys, Read(u, task));
    c := Next(read, Commit(u));
    acts := [Read(u, task)] + [Commit(u)];
    assert c.tasks == sys.tasks;
    OneLeads(sys, Read(u, task));
    OneLeads(read, Commit(u));
    hide Enabled, Next, Leads;
    LeadsOn(sys, [Read(u, task)], read, [Commit(u)], c);
  }

  /** Unblocking a slot. */
  lemma UnblockFrees(sys: System, s: SlotId, t: TaskId, i: BookingId) returns (acts: seq<Act>, c: System)
    requires FineInv(sys) && s < |sys.slots| && sys.slots[s].status.Blocked?
    requires t in sys.tasks && i < |sys.bookings|
    ensures Leads(sys, acts, c) && Untouched(sys, c, t, i) && c.slots[s].status.Available?
  {
    var slots := sys.slots[s := sys.slots[s].(status := Available, eventId := None)];
    SlotsAreSound(sys);
    UniqueSame(sys.slots, slots);
    assert SoundSlots(slots) by {
      assert forall k :: 0 <= k < |slots| && k != s ==> SoundSlot(sys.slots[k]);
      assert SoundSlot(sys.slots[s]);
    }
    hide FineInv;
    acts, c := [OtherSlotWrite(slots)], sys.(slots := slots);
    OneLeads(sys, OtherSlotWrite(slots));
  }

  lemma SlotsAreSound(sys: System)
    requires FineInv(sys)
    ensures UniqueStarts(sys.slots) && SoundSlots(sys.slots)
  {
  }

  lemma BookingHasSlot(sys: System, i: BookingId)
    requires FineInv(sys) && i < |sys.bookings|
    ensures sys.bookings[i].slotId < |sys.slots|
  {
    assert View(sys.bookings, sys.holding)[i].slotId == sys.bookings[i].slotId;
  }

  /** Whatever stands on booking i's slot can be made to leave it, task t still waiting. */
  lemma SlotCanBeFreed(sys: System, t: TaskId, i: BookingId) returns (acts: seq<Act>, c: System)
    requires FineInv(sys) && t in sys.tasks && i < |sys.bookings|
    requires forall u :: u in sys.holding ==> sys.holding[u].Reviving? && sys.holding[u].booking != i
    ensures Leads(sys, acts, c) && Untouched(sys, c, t, i)
    ensures sys.bookings[i].slotId < |sys.slots| && c.slots[sys.bookings[i].slotId].status.Available?
  {
    BookingHasSlot(sys, i);
    hide FineInv, Leads, Untouched, Enabled, Next, Live;
    var s := sys.bookings[i].slotId;
    if sys.slots[s].status.Available? {
      acts, c := [], sys;
      StaysPut(sys, t, i);
    } else if sys.slots[s].status.Blocked? {
      acts, c := UnblockFrees(sys, s, t, i);
    } else {
      HoldersInView(sys, s);
      if j: nat :| j < |sys.bookings| && HoldsSlot(sys.bookings[j], s) {
        acts, c := CancelFrees(sys, j, t, i);
      } else {
        assert RevivePending(sys, s);
        var u :| u in sys.holding && sys.holding[u].booking < |sys.bookings|
                 && sys.bookings[sys.holding[u].booking].slotId == s;
        var pending := RependOther(sys, u, t, i);
        var more;
        more, c := CancelFrees(pending, sys.holding[u].booking, t, i);
        acts := [Repend(u)] + more;
        LeadsOn(sys, [Repend(u)], pending, more, c);
        UntouchedTwice(sys, pending, c, t, i);
      }
    }
  }

  lemma StaysPut(sys: System, t: TaskId, i: BookingId)
    requires t in sys.tasks && i < |sys.bookings|
    ensures Leads(sys, [], sys) && Untouched(sys, sys, t, i)
  {
  }

  lemma UntouchedTwice(sys: System, mid: System, c: System, t: TaskId, i: BookingId)
    requires Untouched(sys, mid, t, i) && Untouched(mid, c, t, i)
    ensures Untouched(sys, c, t, i)
  {
  }

  /** A revive of another booking takes its next step: that booking is live again. */
  lemma RependOther(sys: System, u: TaskId, t: TaskId, i: BookingId) returns (c: System)
    requires FineInv(sys) && t in sys.tasks && i < |sys.bookings|
    requires u in sys.holding && sys.holding[u].booking < |sys.bookings| && sys.holding[u].booking != i
    ensures Leads(sys, [Repend(u)], c) && Untouched(sys, c, t, i)
    ensures |c.bookings| == |sys.bookings| && |c.slots| == |sys.slots|
    ensures Live(c.bookings[sys.holding[u].booking])
    ensures c.bookings[sys.holding[u].booking].slotId == sys.bookings[sys.holding[u].booking].slotId
  {
    HoldingIsApart(sys, u);
    hide FineInv;
    c := Next(sys, Repend(u));
    OneLeads(sys, Repend(u));
  }

  lemma HoldingIsApart(sys: System, u: TaskId)
    requires FineInv(sys) && u in sys.holding
    ensures u !in sys.tasks && sys.holding[u].Reviving? && sys.holding[u].booking < |sys.bookings|
  {
  }

  /** The stale revive finishes: it locks the free slot and puts the booking back to pending. */
  lemma StaleReviveLands(sys: System, t: TaskId, i: BookingId) returns (acts: seq<Act>, c: System)
    requires FineInv(sys) && t in sys.tasks && sys.tasks[t].Reviving? && sys.tasks[t].booking == i && i < |sys.bookings|
    requires sys.bookings[i].slotId < |sys.slots| && sys.slots[sys.bookings[i].slotId].status.Available?
    ensures Leads(sys, acts, c) && i < |c.bookings| && c.bookings[i].status.PendingPayment?
  {
    var locked := Next(sys, Commit(t));
    OneLeads(sys, Commit(t));
    assert LockWins(sys, sys.tasks[t]);
    assert locked.holding[t] == sys.tasks[t] && t !in locked.tasks && |locked.bookings| == |sys.bookings|;
    c := Next(locked, Repend(t));
    OneLeads(locked, Repend(t));
    acts := [Commit(t)] + [Repend(t)];
    hide FineInv, Enabled, Next, Leads;
    LeadsOn(sys, [Commit(t)], locked, [Repend(t)], c);
  }

  /** With a revive of it in flight some continuation puts a settled booking back to pending. */
  lemma InFlightCanReopen(sys: System, i: BookingId) returns (acts: seq<Act>, c: System)
    requires FineInv(sys) && i < |sys.bookings| && ReviveInFlight(sys, i)
    ensures Leads(sys, acts, c) && i < |c.bookings| && c.bookings[i].status.PendingPayment?
  {
    hide FineInv, Leads, Enabled, Untouched;
    if u :| u in sys.holding && sys.holding[u].Reviving? && sys.holding[u].booking == i {
      HoldingIsApart(sys, u);
      EnabledRepend(sys, u);
      c := Next(sys, Repend(u));
      acts := [Repend(u)];
      OneLeads(sys, Repend(u));
    } else {
      var t :| t in sys.tasks && sys.tasks[t].Reviving? && sys.tasks[t].booking == i;
      HoldingsRevive(sys);
      var free, mid := SlotCanBeFreed(sys, t, i);
      LeadingKeepsSound(sys, free, mid);
      UntouchedMeans(sys, mid, t, i);
      var more;
      more, c := StaleReviveLands(mid, t, i);
      acts := free + more;
      LeadsOn(sys, free, mid, more, c);
    }
  }

  lemma EnabledRepend(sys: System, u: TaskId)
    requires u in sys.holding && u !in sys.tasks && sys.holding[u].Reviving? && sys.holding[u].booking < |sys.bookings|
    ensures Enabled(sys, Repend(u))
  {
  }

  lemma HoldingsRevive(sys: System)
    requires FineInv(sys)
    ensures forall u :: u in sys.holding ==> sys.holding[u].Reviving?
  {
  }

  lemma UntouchedMeans(sys: System, c: System, t: TaskId, i: BookingId)
    requires Untouched(sys, c, t, i)
    ensures t in c.tasks && c.tasks[t] == sys.tasks[t] && i < |c.bookings| && |c.slots| == |sys.slots|
    ensures c.bookings[i].slotId == sys.bookings[i].slotId
  {
  }

  /**
   * A settled booking stays settled through every continuation of a state exactly when no revive that
   * read it earlier is in flight there.
   */
  lemma SettledForGoodExactly(sys: System, i: BookingId)
    requires FineInv(sys) && OutcomesGiven(sys) && i < |sys.bookings| && Settled(sys.bookings[i])
    ensures (forall acts, c :: Leads(sys, acts, c) ==> i < |c.bookings| && Settled(c.bookings[i])) <==>
            !ReviveInFlight(sys, i)
  {
    hide FineInv, OutcomesGiven, Leads, ReviveInFlight;
    if ReviveInFlight(sys, i) {
      var acts, c := InFlightCanReopen(sys, i);
      assert Leads(sys, acts, c) && !Settled(c.bookings[i]);
    } else {
      forall acts, c | Leads(sys, acts, c)
        ensures i < |c.bookings| && Settled(c.bookings[i])
      {
        LeadingKeepsSettled(sys, acts, c, i);
      }
    }
  }

  // ── A run from a quiet club to a settled booking that comes back ────────────

  /** Any expired booking of a club, on a free slot. */
  predicate ExpiredOnFree(slot: Slot, b: Booking) {
    && slot.status.Available? && slot.startsAt < slot.endsAt && slot.eventId.None?
    && b.slotId == 0 && b.clubId == slot.clubId
    && b.status.Cancelled? && b.depositOutcome.None? && b.transferAmountCents.Some?
  }

  function At(slot: Slot, b: Booking, slotStatus: SlotStatus, status: BookingStatus, tasks: map<TaskId, Task>,
              holding: map<TaskId, Task>): System {
    System([slot.(status := slotStatus)], [b.(status := status)], tasks, holding)
  }

  lemma Reads(sys: System, t: TaskId, task: Task)
    requires t !in sys.tasks && t !in sys.holding && ReadAllows(sys, task) && !task.Creating?
    ensures Enabled(sys, Read(t, task)) && Next(sys, Read(t, task)) == sys.(tasks := sys.tasks[t := task])
  {
  }

  /** A revive with nobody in its way: slot re-taken, booking pending, booking confirmed. */
  lemma RevivesAlone(slot: Slot, b: Booking, t: TaskId, task: Task, tasks: map<TaskId, Task>)
    requires slot.status.Available? && b.slotId == 0 && b.status.Cancelled? && task.Reviving? && task.booking == 0
    requires t in tasks && tasks[t] == task
    ensures var confirming := Confirming(0, Some(task.transferRef), task.payer);
            var held := At(slot, b, Booked, Cancelled, tasks - {t}, map[t := task]);
            var pending := At(slot, b, Booked, PendingPayment, (tasks - {t})[t := confirming], map[]);
            var paid := WithPayment(b, Some(task.transferRef), task.payer);
            var done := At(slot, paid, Booked, Confirmed, tasks - {t}, map[]);
            var start := At(slot, b, Available, Cancelled, tasks, map[]);
            && Enabled(start, Commit(t)) && Next(start, Commit(t)) == held
            && Enabled(held, Repend(t)) && Next(held, Repend(t)) == pending
            && Enabled(pending, Commit(t)) && Next(pending, Commit(t)) == done
  {
    var start := At(slot, b, Available, Cancelled, tasks, map[]);
    var held := At(slot, b, Booked, Cancelled, tasks - {t}, map[t := task]);
    var pending := RependTask(held, t);
    assert start.slots[0 := start.slots[0].(status := Booked)] == held.slots;
    assert held.holding - {t} == map[];
    assert pending.tasks - {t} == tasks - {t};
  }

  /** A staff cancel of the one booking, with nothing else changing meanwhile. */
  lemma CancelsAlone(slot: Slot, b: Booking, t: TaskId, tasks: map<TaskId, Task>)
    requires b.slotId == 0 && t !in tasks && b.transferAmountCents.Some?
    ensures var task := Cancelling(0, Confirmed, Some(Credited));
            var start := At(slot, b, Booked, Confirmed, tasks, map[]);
            var read := At(slot, b, Booked, Confirmed, tasks[t := task], map[]);
            var done := At(slot, Closed(b, Some(Credited)), Available, Cancelled, tasks, map[]);
            && Enabled(start, Read(t, task)) && Next(start, Read(t, task)) == read
            && Enabled(read, Commit(t)) && Next(read, Commit(t)) == done
  {
    var task := Cancelling(0, Confirmed, Some(Credited));
    assert tasks[t := task] - {t} == tasks;
  }

  lemma AloneIsSound(slot: Slot, b: Booking)
    requires ExpiredOnFree(slot, b)
    ensures FineInv(At(slot, b, Available, Cancelled, map[], map[]))
  {
  }

  /** What the run starts and ends with. */
  lemma Shapes(slot: Slot, b: Booking, ref: string, payer: Payer)
    requires ExpiredOnFree(slot, b)
    ensures var paid := WithPayment(b, Some(ref), payer);
            var closed := Closed(paid, Some(Credited));
            var revive := Reviving(0, ref, payer);
            var none := At(slot, b, Available, Cancelled, map[], map[]);
            var first := At(slot, b, Available, Cancelled, map[1 := revive], map[]);
            && paid.slotId == 0 && paid.transferAmountCents.Some? && closed.slotId == 0 && closed.status.Cancelled?
            && Enabled(none, Read(1, revive)) && Next(none, Read(1, revive)) == first
            && Enabled(first, Read(2, revive))
            && Next(first, Read(2, revive)) == At(slot, b, Available, Cancelled, map[1 := revive, 2 := revive], map[])
  {
    var revive := Reviving(0, ref, payer);
    Reads(At(slot, b, Available, Cancelled, map[], map[]), 1, revive);
    Reads(At(slot, b, Available, Cancelled, map[1 := revive], map[]), 2, revive);
  }

  lemma ClosedThenPaid(slot: Slot, b: Booking, ref: string, payer: Payer)
    requires b.transferAmountCents.Some?
    ensures var closed := Closed(WithPayment(b, Some(ref), payer), Some(Credited));
            var paidAgain := WithPayment(closed, Some(ref), payer);
            var revive := Reviving(0, ref, payer);
            var before := At(slot, closed, Available, Cancelled, map[2 := revive], map[]);
            var after := At(slot, paidAgain, Booked, Confirmed, map[], map[]);
            && before.tasks == map[2 := revive] && before.bookings == [closed] && Settled(closed)
               && closed.status.Cancelled?
            && |after.bookings| == 1 && after.bookings[0].status.Confirmed?
               && after.bookings[0].depositOutcome == Some(Credited)
            && At(slot, b, Available, Cancelled, map[], map[]).tasks == map[]
  {
  }

  /**
   * Two revives read the same expired booking; the first brings it back and the club then cancels
   * it, handing the deposit out as credit. The second, still in flight, confirms it again: the
   * player keeps both the credit and the court.
   */
  lemma StaleReviveReopensSettled(slot: Slot, b: Booking, ref: string, payer: Payer)
    returns (trace: seq<System>, acts: seq<Act>)
    requires ExpiredOnFree(slot, b)
    ensures IsRun(trace, acts) && FineInv(trace[0]) && trace[0].tasks == map[] && |trace| == 11
    ensures |trace[7].bookings| == |trace[10].bookings| == 1
    ensures trace[7].bookings[0].status.Cancelled? && Settled(trace[7].bookings[0]) && ReviveInFlight(trace[7], 0)
    ensures trace[10].bookings[0].status.Confirmed? && trace[10].bookings[0].depositOutcome == Some(Credited)
  {
    hide Enabled, Next, FineInv, At, WithPayment, Closed;
    var revive := Reviving(0, ref, payer);
    var cancel := Cancelling(0, Confirmed, Some(Credited));
    var confirm := Confirming(0, Some(ref), payer);
    var two: map<TaskId, Task>, one: map<TaskId, Task> := map[1 := revive, 2 := revive], map[2 := revive];
    assert two - {1} == one && one - {2} == map[];
    var paid := WithPayment(b, Some(ref), payer);
    var closed := Closed(paid, Some(Credited));
    var paidAgain := WithPayment(closed, Some(ref), payer);
    Shapes(slot, b, ref, payer);
    ClosedThenPaid(slot, b, ref, payer);
    AloneIsSound(slot, b);
    RevivesAlone(slot, b, 1, revive, two);
    CancelsAlone(slot, paid, 3, one);
    RevivesAlone(slot, closed, 2, revive, one);
    acts := [Read(1, revive), Read(2, revive), Commit(1), Repend(1), Commit(1), Read(3, cancel), Commit(3), Commit(2),
             Repend(2), Commit(2)];
    trace := [
      At(slot, b, Available, Cancelled, map[], map[]),
      At(slot, b, Available, Cancelled, map[1 := revive], map[]),
      At(slot, b, Available, Cancelled, two, map[]),
      At(slot, b, Booked, Cancelled, one, map[1 := revive]),
      At(slot, b, Booked, PendingPayment, one[1 := confirm], map[]),
      At(slot, paid, Booked, Confirmed, one, map[]),
      At(slot, paid, Booked, Confirmed, one[3 := cancel], map[]),
      At(slot, closed, Available, Cancelled, one, map[]),
      At(slot, closed, Booked, Cancelled, map[], map[2 := revive]),
      At(slot, closed, Booked, PendingPayment, map[2 := confirm], map[]),
      At(slot, paidAgain, Booked, Confirmed, map[], map[])];
  }
}
