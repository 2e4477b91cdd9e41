/**
 * Payment references when confirmations overlap: each call looks for its reference before it confirms,
 * and no unique index backs the look (src/bookings/bookings.service.ts).
 */
module RefRaces {
  import opened Base
  import opened ClubData
  import opened RowMoves
  import opened BookingRules
  import opened Interleavings

  /** The reference a task will put on its booking. */
  function RefOf(task: Task): Option<string> {
    match task
    case Confirming(_, ref, _) => ref
    case Reviving(_, ref, _) => Some(ref)
    case _ => None
  }

  /** Task t is in flight with this reference. */
  predicate Carries(sys: System, t: TaskId, ref: string) {
    (t in sys.tasks && RefOf(sys.tasks[t]) == Some(ref)) || (t in sys.holding && RefOf(sys.holding[t]) == Some(ref))
  }

  /** A call looks for its reference when it reads, and nothing else writes one. */
  predicate RefsRead(sys: System, act: Act) {
    match act
    case Read(_, task) =>
      && (Truthy(RefOf(task)) ==> !RefUsed(sys.bookings, RefOf(task).value))
      && (task.Creating? ==> task.row.mpPaymentId.None?)
    case OtherEdit(i, row) => i < |sys.bookings| && row.mpPaymentId == sys.bookings[i].mpPaymentId
    case _ => true
  }

  /** A run that starts with nothing in flight, every read looking for its reference. */
  ghost predicate IsRefRun(trace: seq<System>, acts: seq<Act>) {
    && IsRun(trace, acts)
    && FineInv(trace[0]) && trace[0].tasks == map[] && trace[0].holding == map[]
    && (forall k :: 0 <= k < |acts| ==> RefsRead(trace[k], acts[k]))
    && RefsSingleUse(trace[0].bookings)
  }

  /** The step confirms booking i with this reference. */
  predicate Writes(sys: System, act: Act, i: BookingId, ref: string) {
    && act.Commit? && act.t in sys.tasks && sys.tasks[act.t].Confirming?
    && sys.tasks[act.t].booking == i && sys.tasks[act.t].ref == Some(ref) && Status(sys, i, PendingPayment)
  }

  predicate HasRef(sys: System, i: BookingId, ref: string) {
    i < |sys.bookings| && sys.bookings[i].mpPaymentId == Some(ref)
  }

  /**
   * Step m confirmed booking i with the reference while the call that at step n confirms booking j with
   * it was in flight, past its look; booking i still has it.
   */
  ghost predicate IsRace(trace: seq<System>, acts: seq<Act>, m: nat, n: nat, i: BookingId, j: BookingId, ref: string)
    requires |trace| == |acts| + 1
  {
    && m < n < |acts| && i != j && ref != ""
    && Writes(trace[m], acts[m], i, ref) && Writes(trace[n], acts[n], j, ref)
    && Carries(trace[m], acts[n].t, ref) && HasRef(trace[n], i, ref)
  }

  ghost predicate NoRace(trace: seq<System>, acts: seq<Act>)
    requires |trace| == |acts| + 1
  {
    forall m: nat, n: nat, i: BookingId, j: BookingId, ref: string :: !IsRace(trace, acts, m, n, i, j, ref)
  }

  /** Whoever has the reference of a task in flight got it while that task was in flight. */
  ghost predicate WrittenMeanwhile(trace: seq<System>, acts: seq<Act>, n: nat, t: TaskId, i: BookingId, ref: string)
    requires |trace| == |acts| + 1 && n < |trace|
  {
    exists m: nat :: m < n && Writes(trace[m], acts[m], i, ref) && Carries(trace[m], t, ref)
  }

  /** A step puts a reference on a booking only by confirming it. */
  lemma OnlyConfirmationsWrite(sys: System, act: Act, i: BookingId, ref: string)
    requires FineInv(sys) && Enabled(sys, act) && RefsRead(sys, act) && GoodRows(sys)
    requires HasRef(Next(sys, act), i, ref)
    ensures HasRef(sys, i, ref) || Writes(sys, act, i, ref)
  {
    hide FineInv, SlotsOnly, SameClaim, RefUsed, FreeSlot;
    match act
    case Commit(t) =>
    case Repend(t) =>
    case _ =>
  }

  /** Bookings about to be created carry no reference. */
  ghost predicate GoodRows(sys: System) {
    forall t :: t in sys.tasks && sys.tasks[t].Creating? ==> sys.tasks[t].row.mpPaymentId.None?
  }

  lemma RowsStayGood(sys: System, act: Act)
    requires GoodRows(sys) && Enabled(sys, act) && RefsRead(sys, act)
    ensures GoodRows(Next(sys, act))
  {
    hide SlotsOnly, SameClaim, RefUsed, FreeSlot, StartTaken;
    match act
    case Commit(t) =>
    case _ =>
  }

  lemma CarriedBefore(sys: System, act: Act, t: TaskId, ref: string)
    requires FineInv(sys) && Enabled(sys, act) && Carries(Next(sys, act), t, ref)
    ensures Carries(sys, t, ref) || (act.Read? && act.t == t && RefOf(act.task) == Some(ref))
  {
    hide Occupancy, SlotsOnly, SameClaim, FreeSlot, StartTaken, GoodTasks;
    match act
    case Commit(u) =>
    case Repend(u) =>
    case _ =>
  }

  lemma ReadLooked(sys: System, act: Act, i: BookingId, ref: string)
    requires Enabled(sys, act) && RefsRead(sys, act) && act.Read? && RefOf(act.task) == Some(ref) && ref != ""
    ensures !HasRef(Next(sys, act), i, ref)
  {
    hide Occupancy;
    assert HasRef(sys, i, ref) ==> RefUsed(sys.bookings, ref);
  }

  lemma {:induction false} RowsAlong(trace: seq<System>, acts: seq<Act>, n: nat)
    requires IsRefRun(trace, acts) && n < |trace|
    ensures GoodRows(trace[n])
  {
    hide FineInv, Enabled, Next, RefsRead, RefsSingleUse, GoodRows;
    if n == 0 {
      NoRowsYet(trace[0]);
    } else {
      RowsAlong(trace, acts, n - 1);
      RowsStayGood(trace[n - 1], acts[n - 1]);
    }
  }

  lemma NoRowsYet(sys: System)
    requires sys.tasks == map[]
    ensures GoodRows(sys)
  {
  }

  lemma {:induction false} MeanwhileAlong(trace: seq<System>, acts: seq<Act>, n: nat, t: TaskId, i: BookingId,
                                          ref: string)
    requires IsRefRun(trace, acts) && n < |trace| && ref != "" && Carries(trace[n], t, ref) && HasRef(trace[n], i, ref)
    ensures WrittenMeanwhile(trace, acts, n, t, i, ref)
  {
    hide FineInv, Enabled, Next, RefsRead, RefsSingleUse, GoodRows, Carries, HasRef, Writes;
    if n == 0 {
      NothingCarried(trace[0], t, ref);
    } else {
      var sys, act := trace[n - 1], acts[n - 1];
      RunKeeps(trace, acts, n - 1);
      RowsAlong(trace, acts, n - 1);
      CarriedBefore(sys, act, t, ref);
      OnlyConfirmationsWrite(sys, act, i, ref);
      if !Carries(sys, t, ref) {
        ReadLooked(sys, act, i, ref);
      } else if HasRef(sys, i, ref) {
        MeanwhileAlong(trace, acts, n - 1, t, i, ref);
      }
    }
  }

  lemma NothingCarried(sys: System, t: TaskId, ref: string)
    requires sys.tasks == map[] && sys.holding == map[]
    ensures !Carries(sys, t, ref)
  {
  }

  /** At one step: references stay single-use exactly when it confirms none that another booking has. */
  predicate Repeats(sys: System, act: Act, i: BookingId, j: BookingId, ref: string) {
    i != j && ref != "" && Writes(sys, act, j, ref) && HasRef(sys, i, ref)
  }

  lemma StepKeepsRefsExactly(sys: System, act: Act)
    requires FineInv(sys) && Enabled(sys, act) && RefsRead(sys, act) && GoodRows(sys) && RefsSingleUse(sys.bookings)
    ensures RefsSingleUse(Next(sys, act).bookings) <==> forall i, j, ref :: !Repeats(sys, act, i, j, ref)
  {
    var c := Next(sys, act);
    hide FineInv, Enabled, Next, RefsRead, GoodRows, RefsSingleUse, Writes;
    if i: BookingId, j: BookingId, ref: string :| Repeats(sys, act, i, j, ref) {
      BothHave(sys, act, i, j, ref);
      Twice(c, i, j, ref);
    } else {
      forall i: BookingId, j: BookingId, ref: string | i < j && ref != "" && HasRef(c, i, ref)
        ensures !HasRef(c, j, ref)
      {
        if HasRef(c, j, ref) {
          OnlyConfirmationsWrite(sys, act, i, ref);
          OnlyConfirmationsWrite(sys, act, j, ref);
          assert !Repeats(sys, act, i, j, ref) && !Repeats(sys, act, j, i, ref);
          NotBoth(sys, act, i, j, ref);
        }
      }
      NeverTwice(c);
    }
  }

  /** Without a repeat, two bookings cannot both have the reference after the step. */
  lemma NotBoth(sys: System, act: Act, i: BookingId, j: BookingId, ref: string)
    requires RefsSingleUse(sys.bookings) && i != j && ref != ""
    requires !Repeats(sys, act, i, j, ref) && !Repeats(sys, act, j, i, ref)
    ensures !((HasRef(sys, i, ref) || Writes(sys, act, i, ref)) && (HasRef(sys, j, ref) || Writes(sys, act, j, ref)))
  {
    assert HasRef(sys, i, ref) ==> UsesRef(sys.bookings[i], ref);
    assert HasRef(sys, j, ref) ==> UsesRef(sys.bookings[j], ref);
  }

  lemma BothHave(sys: System, act: Act, i: BookingId, j: BookingId, ref: string)
    requires Enabled(sys, act) && Repeats(sys, act, i, j, ref)
    ensures HasRef(Next(sys, act), i, ref) && HasRef(Next(sys, act), j, ref)
  {
  }

  lemma Twice(sys: System, i: BookingId, j: BookingId, ref: string)
    requires i != j && ref != "" && HasRef(sys, i, ref) && HasRef(sys, j, ref)
    ensures !RefsSingleUse(sys.bookings)
  {
    assert UsesRef(sys.bookings[i], ref) && UsesRef(sys.bookings[j], ref);
  }

  lemma NeverTwice(sys: System)
    requires forall i: BookingId, j: BookingId, ref: string :: i < j && ref != "" && HasRef(sys, i, ref) ==>
               !HasRef(sys, j, ref)
    ensures RefsSingleUse(sys.bookings)
  {
    forall i, j, ref | 0 <= i < j < |sys.bookings| && ref != ""
      ensures !(UsesRef(sys.bookings[i], ref) && UsesRef(sys.bookings[j], ref))
    {
      assert HasRef(sys, i, ref) <==> UsesRef(sys.bookings[i], ref);
      assert HasRef(sys, j, ref) <==> UsesRef(sys.bookings[j], ref);
    }
  }

  lemma WriterCarries(sys: System, act: Act, j: BookingId, ref: string)
    requires Writes(sys, act, j, ref)
    ensures act.Commit? && Carries(sys, act.t, ref)
  {
  }

  /** A call that confirms with a reference somebody has looked before that somebody got it. */
  lemma RepeatIsRace(trace: seq<System>, acts: seq<Act>, n: nat, i: BookingId, j: BookingId, ref: string)
    requires IsRefRun(trace, acts) && n < |acts| && Repeats(trace[n], acts[n], i, j, ref)
    ensures !NoRace(trace, acts)
  {
    hide FineInv, Enabled, Next, RefsRead, RefsSingleUse, GoodRows, Carries, HasRef, Writes;
    WriterCarries(trace[n], acts[n], j, ref);
    MeanwhileAlong(trace, acts, n, acts[n].t, i, ref);
    var m: nat :| m < n && Writes(trace[m], acts[m], i, ref) && Carries(trace[m], acts[n].t, ref);
    assert IsRace(trace, acts, m, n, i, j, ref);
  }

  lemma {:induction false} NoRaceKeeps(trace: seq<System>, acts: seq<Act>, n: nat)
    requires IsRefRun(trace, acts) && NoRace(trace, acts) && n < |trace|
    ensures RefsSingleUse(trace[n].bookings)
  {
    hide FineInv, Enabled, Next, RefsRead, RefsSingleUse, GoodRows, Carries, HasRef;
    if n > 0 {
      var sys, act := trace[n - 1], acts[n - 1];
      NoRaceKeeps(trace, acts, n - 1);
      RunKeeps(trace, acts, n - 1);
      RowsAlong(trace, acts, n - 1);
      StepKeepsRefsExactly(sys, act);
      forall i, j, ref
        ensures !Repeats(sys, act, i, j, ref)
      {
        if Repeats(sys, act, i, j, ref) {
          RepeatIsRace(trace, acts, n - 1, i, j, ref);
        }
      }
    }
  }

  /**
   * Over any interleaving of calls that look before they confirm, no reference is ever on two bookings
   * exactly when no call confirms with a reference that another booking got, and still has, while the
   * call was already past its look.
   */
  lemma RefsSingleUseInFlightExactly(trace: seq<System>, acts: seq<Act>)
    requires IsRefRun(trace, acts)
    ensures (forall n :: 0 <= n < |trace| ==> RefsSingleUse(trace[n].bookings)) <==> NoRace(trace, acts)
  {
    hide FineInv, Enabled, Next, RefsRead, RefsSingleUse, Carries, HasRef, Writes;
    if NoRace(trace, acts) {
      forall n | 0 <= n < |trace|
        ensures RefsSingleUse(trace[n].bookings)
      {
        NoRaceKeeps(trace, acts, n);
      }
    } else {
      var m: nat, n: nat, i: BookingId, j: BookingId, ref: string :| IsRace(trace, acts, m, n, i, j, ref);
      BothHave(trace[n], acts[n], i, j, ref);
      Twice(trace[n + 1], i, j, ref);
    }
  }

  /**
   * From any state with two bookings waiting for money and a reference nobody has, two confirmations that
   * both look before either writes leave it on both.
   */
  lemma TwoLooksRepeat(sys: System, i: BookingId, j: BookingId, ref: string, t: TaskId, u: TaskId, payer: Payer)
    returns (trace: seq<System>, acts: seq<Act>)
    requires Status(sys, i, PendingPayment) && Status(sys, j, PendingPayment) && i != j
    requires ref != "" && !RefUsed(sys.bookings, ref)
    requires t != u && t !in sys.tasks && t !in sys.holding && u !in sys.tasks && u !in sys.holding
    ensures IsRun(trace, acts) && trace[0] == sys && |trace| == 5
    ensures forall k :: 0 <= k < |acts| ==> RefsRead(trace[k], acts[k])
    ensures HasRef(trace[4], i, ref) && HasRef(trace[4], j, ref)
  {
    var first, second := Confirming(i, Some(ref), payer), Confirming(j, Some(ref), payer);
    acts := [Read(t, first), Read(u, second), Commit(t), Commit(u)];
    var one := Next(sys, acts[0]);
    var two := Next(one, acts[1]);
    var three := Next(two, acts[2]);
    var four := Next(three, acts[3]);
    trace := [sys, one, two, three, four];
  }
}
