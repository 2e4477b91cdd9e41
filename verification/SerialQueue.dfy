/**
 * The keyed serial queue: tasks of one key run one after another, different keys run side by side
 * (src/common/keyed-serial-queue.ts). A task is the promise its call chained; the steps are the
 * moments the event loop gives it.
 */
module SerialQueue {
  import opened Base

  type Key = string
  /** Tasks are numbered in the order they were enqueued. */
  type TaskId = nat

  /**
   * Waiting for the tail it was chained to; running; settled by its own outcome; its `settled`
   * promise resolved; its cleanup callback run.
   */
  datatype Phase = Waiting | Running | Ended(ok: bool) | Settled | Cleaned

  datatype Task = Task(key: Key, previous: Option<TaskId>, phase: Phase)

  datatype Queue = Queue(tails: map<Key, TaskId>, tasks: seq<Task>)

  datatype Act = Enqueue(key: Key) | Start(t: TaskId) | End(t: TaskId,
                                                            ok: bool) | Settle(t: TaskId) | Cleanup(t: TaskId)

  predicate IsSettled(phase: Phase) {
    phase.Settled? || phase.Cleaned?
  }

  predicate Enabled(q: Queue, act: Act) {
    match act
    case Enqueue(_) => true
    case Start(t) =>
      && t < |q.tasks| && q.tasks[t].phase.Waiting?
      && (q.tasks[t].previous.Some? ==>
            q.tasks[t].previous.value < |q.tasks| && IsSettled(q.tasks[q.tasks[t].previous.value].phase))
    case End(t, _) => t < |q.tasks| && q.tasks[t].phase.Running?
    case Settle(t) => t < |q.tasks| && q.tasks[t].phase.Ended?
    case Cleanup(t) => t < |q.tasks| && q.tasks[t].phase.Settled?
  }

  function To(q: Queue, t: TaskId, phase: Phase): Queue
    requires t < |q.tasks|
  {
    q.(tasks := q.tasks[t := q.tasks[t].(phase := phase)])
  }

  function Next(q: Queue, act: Act): Queue
    requires Enabled(q, act)
  {
    match act
    case Enqueue(key) =>
      var previous := if key in q.tails then Some(q.tails[key]) else None;
      Queue(q.tails[key := |q.tasks|], q.tasks + [Task(key, previous, Waiting)])
    case Start(t) => To(q, t, Running)
    case End(t, ok) => To(q, t, Ended(ok))
    case Settle(t) => To(q, t, Settled)
    case Cleanup(t) =>
      var key := q.tasks[t].key;
      var cleaned := To(q, t, Cleaned);
      if key in q.tails && q.tails[key] == t then cleaned.(tails := q.tails - {key}) else cleaned
  }

  class KeyedSerialQueue {
    var tails: map<Key, TaskId>
    var tasks: seq<Task>

    constructor ()
      ensures Contents() == Queue(map[], [])
    {
      tails, tasks := map[], [];
    }

    ghost function Contents(): Queue
      reads this
    {
      Queue(tails, tasks)
    }

    method EnqueueTask(key: Key) returns (t: TaskId)
      modifies this
      ensures Contents() == Next(old(Contents()), Enqueue(key))
      ensures t == |old(tasks)|
    {
      var previous := if key in tails then Some(tails[key]) else None;
      t := |tasks|;
      tasks := tasks + [Task(key, previous, Waiting)];
      tails := tails[key := t];
    }

    /** The callback on a settled task: drops its key's entry unless something newer was queued. */
    method OnSettled(t: TaskId)
      requires Enabled(Contents(), Cleanup(t))
      modifies this
      ensures Contents() == Next(old(Contents()), Cleanup(t))
    {
      var key := tasks[t].key;
      tasks := tasks[t := tasks[t].(phase := Cleaned)];
      if key in tails && tails[key] == t {
        tails := tails - {key};
      }
    }
  }

  // ── What every interleaving keeps ───────────────────────────────────────────

  predicate SameKey(q: Queue, s: TaskId, t: TaskId) {
    s < |q.tasks| && t < |q.tasks| && q.tasks[s].key == q.tasks[t].key
  }

  /** Every task of t's key enqueued before it has settled. */
  predicate NoneBefore(q: Queue, t: TaskId) {
    forall s: TaskId :: s < t && SameKey(q, s, t) ==> IsSettled(q.tasks[s].phase)
  }

  /** `p` is the task of t's key enqueued just before t. */
  predicate JustBefore(q: Queue, p: TaskId, t: TaskId) {
    p < t && SameKey(q, p, t) && forall s: TaskId :: p < s < t ==> !SameKey(q, s, t)
  }

  /** A task is chained to the one before it, or to nothing when all before it had settled. */
  predicate Chained(q: Queue, t: TaskId) {
    t < |q.tasks| ==>
      match q.tasks[t].previous
      case Some(p) => JustBefore(q, p, t)
      case None => NoneBefore(q, t)
  }

  predicate IsTail(q: Queue, key: Key, t: TaskId) {
    t < |q.tasks| && q.tasks[t].key == key && forall s: TaskId :: t < s < |q.tasks| ==> q.tasks[s].key != key
  }

  predicate KeyDrained(q: Queue, key: Key) {
    forall s: TaskId :: s < |q.tasks| && q.tasks[s].key == key ==> IsSettled(q.tasks[s].phase)
  }

  ghost predicate Inv(q: Queue) {
    && (forall key :: key in q.tails ==> IsTail(q, key, q.tails[key]) && !q.tasks[q.tails[key]].phase.Cleaned?)
    && (forall key :: key !in q.tails ==> KeyDrained(q, key))
    && (forall t: TaskId :: t < |q.tasks| ==> Chained(q, t))
    && (forall t: TaskId :: t < |q.tasks| && !q.tasks[t].phase.Waiting? ==> NoneBefore(q, t))
  }

  /** A task may start exactly when every earlier task of its key has settled, however it ended. */
  lemma StartsInTurn(q: Queue, t: TaskId)
    requires Inv(q) && t < |q.tasks| && q.tasks[t].phase.Waiting?
    ensures Enabled(q, Start(t)) <==> NoneBefore(q, t)
  {
    assert Chained(q, t);
    if q.tasks[t].previous.Some? {
      var p := q.tasks[t].previous.value;
      if IsSettled(q.tasks[p].phase) {
        assert NoneBefore(q, p);
        forall s: TaskId | s < t && SameKey(q, s, t)
          ensures IsSettled(q.tasks[s].phase)
        {
          assert s <= p;
          assert s < p ==> SameKey(q, s, p);
        }
      } else {
        assert SameKey(q, p, t);
      }
    }
  }

  lemma EnqueueKeeps(q: Queue, key: Key)
    requires Inv(q)
    ensures Inv(Next(q, Enqueue(key)))
  {
    var after := Next(q, Enqueue(key));
    var n := |q.tasks|;
    forall t: TaskId | t < |after.tasks|
      ensures Chained(after, t)
      ensures !after.tasks[t].phase.Waiting? ==> NoneBefore(after, t)
    {
      if t < n {
        assert Chained(q, t);
        forall s: TaskId | s < t
          ensures SameKey(after, s, t) <==> SameKey(q, s, t)
        {
        }
      } else if key in q.tails {
        var p := q.tails[key];
        assert IsTail(q, key, p);
        assert JustBefore(after, p, n);
      } else {
        assert KeyDrained(q, key);
      }
    }
    forall k | k !in after.tails
      ensures KeyDrained(after, k)
    {
      assert KeyDrained(q, k);
    }
    forall k | k in after.tails
      ensures IsTail(after, k, after.tails[k]) && !after.tasks[after.tails[k]].phase.Cleaned?
    {
      assert k != key ==> IsTail(q, k, q.tails[k]);
    }
  }

  /** Moving one task forward keeps the chains, if it starts in turn and its key stays accounted for. */
  lemma MoveKeepsChains(q: Queue, t: TaskId, phase: Phase)
    requires Inv(q) && t < |q.tasks| && (IsSettled(q.tasks[t].phase) ==> IsSettled(phase))
    requires NoneBefore(q, t) && !phase.Waiting?
    ensures var after := To(q, t, phase);
      && (forall u: TaskId :: u < |after.tasks| ==> Chained(after, u))
      && (forall u: TaskId :: u < |after.tasks| && !after.tasks[u].phase.Waiting? ==> NoneBefore(after, u))
  {
    var after := To(q, t, phase);
    forall u: TaskId | u < |after.tasks|
      ensures Chained(after, u)
      ensures !after.tasks[u].phase.Waiting? ==> NoneBefore(after, u)
    {
      assert Chained(q, u);
      forall s: TaskId | s < |q.tasks|
        ensures SameKey(after, s, u) <==> SameKey(q, s, u)
      {
      }
      if NoneBefore(q, u) {
        forall s: TaskId | s < u && SameKey(after, s, u)
          ensures IsSettled(after.tasks[s].phase)
        {
          assert SameKey(q, s, u) && IsSettled(q.tasks[s].phase);
        }
      }
      if u == t {
        assert NoneBefore(q, u);
      }
    }
  }

  lemma MoveKeeps(q: Queue, t: TaskId, phase: Phase)
    requires Inv(q) && t < |q.tasks| && (IsSettled(q.tasks[t].phase) ==> IsSettled(phase))
    requires NoneBefore(q, t) && !phase.Waiting? && !phase.Cleaned?
    ensures Inv(To(q, t, phase))
  {
    var after := To(q, t, phase);
    MoveKeepsChains(q, t, phase);
    forall k | k !in after.tails
      ensures KeyDrained(after, k)
    {
      assert KeyDrained(q, k);
    }
    forall k | k in after.tails
      ensures IsTail(after, k, after.tails[k]) && !after.tasks[after.tails[k]].phase.Cleaned?
    {
      assert IsTail(q, k, q.tails[k]);
    }
  }

  lemma CleanupKeeps(q: Queue, t: TaskId)
    requires Inv(q) && Enabled(q, Cleanup(t))
    ensures Inv(Next(q, Cleanup(t)))
  {
    var after := Next(q, Cleanup(t));
    var key := q.tasks[t].key;
    MoveKeepsChains(q, t, Cleaned);
    assert after.tasks == To(q, t, Cleaned).tasks;
    forall u: TaskId | u < |after.tasks|
      ensures Chained(after, u)
      ensures !after.tasks[u].phase.Waiting? ==> NoneBefore(after, u)
    {
      assert Chained(To(q, t, Cleaned), u);
      forall s: TaskId | s < |after.tasks|
        ensures SameKey(after, s, u) <==> SameKey(To(q, t, Cleaned), s, u)
      {
      }
    }
    forall k | k !in after.tails
      ensures KeyDrained(after, k)
    {
      if k == key && k in q.tails {
        assert IsTail(q, key, t) && NoneBefore(q, t);
        forall s: TaskId | s < |after.tasks| && after.tasks[s].key == key
          ensures IsSettled(after.tasks[s].phase)
        {
          assert s < t ==> SameKey(q, s, t);
        }
      } else {
        assert KeyDrained(q, k);
      }
    }
    forall k | k in after.tails
      ensures IsTail(after, k, after.tails[k]) && !after.tasks[after.tails[k]].phase.Cleaned?
    {
      assert IsTail(q, k, q.tails[k]);
    }
  }

  lemma NextKeeps(q: Queue, act: Act)
    requires Inv(q) && Enabled(q, act)
    ensures Inv(Next(q, act))
  {
    match act
    case Enqueue(key) => EnqueueKeeps(q, key);
    case Start(t) =>
      StartsInTurn(q, t);
      MoveKeeps(q, t, Running);
    case End(t, ok) =>
      assert NoneBefore(q, t);
      MoveKeeps(q, t, Ended(ok));
    case Settle(t) =>
      assert NoneBefore(q, t);
      MoveKeeps(q, t, Settled);
    case Cleanup(t) => CleanupKeeps(q, t);
  }

  // ── Runs ────────────────────────────────────────────────────────────────────

  /** `trace` is a run from an empty queue: each state follows from the one before by one act. */
  ghost predicate IsRun(trace: seq<Queue>, acts: seq<Act>) {
    && |trace| == |acts| + 1
    && trace[0] == Queue(map[], [])
    && (forall k :: 0 <= k < |acts| ==> Enabled(trace[k], acts[k]) && trace[k + 1] == Next(trace[k], acts[k]))
  }

  lemma {:induction false} RunKeeps(trace: seq<Queue>, acts: seq<Act>, n: nat)
    requires IsRun(trace, acts) && n < |trace|
    ensures Inv(trace[n])
  {
    if n > 0 {
      RunKeeps(trace, acts, n - 1);
      NextKeeps(trace[n - 1], acts[n - 1]);
      hide Inv;
    }
  }

  /** At most one task of a key is between its start and its end. */
  lemma OneAtATime(trace: seq<Queue>, acts: seq<Act>, n: nat, s: TaskId, t: TaskId)
    requires IsRun(trace, acts) && n < |trace| && s < t && SameKey(trace[n], s, t)
    ensures !(trace[n].tasks[s].phase.Running? && trace[n].tasks[t].phase.Running?)
  {
    RunKeeps(trace, acts, n);
    assert !trace[n].tasks[t].phase.Waiting? ==> NoneBefore(trace[n], t);
  }

  function Rank(phase: Phase): nat {
    match phase
    case Waiting => 0
    case Running => 1
    case Ended(_) => 2
    case Settled => 3
    case Cleaned => 4
  }

  lemma {:induction false} PhasesOnlyAdvance(trace: seq<Queue>, acts: seq<Act>, from: nat, n: nat, t: TaskId)
    requires IsRun(trace, acts) && from <= n < |trace| && t < |trace[from].tasks|
    ensures t < |trace[n].tasks| && trace[n].tasks[t].key == trace[from].tasks[t].key
    ensures Rank(trace[from].tasks[t].phase) <= Rank(trace[n].tasks[t].phase)
  {
    if from < n {
      PhasesOnlyAdvance(trace, acts, from, n - 1, t);
      assert trace[n] == Next(trace[n - 1], acts[n - 1]);
    }
  }

  /** Same-key tasks start in the order they were enqueued, each after the one before it has ended. */
  lemma StartsInOrder(trace: seq<Queue>, acts: seq<Act>, i: nat, j: nat)
    requires IsRun(trace, acts) && i < |acts| && j < |acts| && acts[i].Start? && acts[j].Start?
    requires acts[i].t < acts[j].t && acts[j].t < |trace[j].tasks| && SameKey(trace[j], acts[i].t, acts[j].t)
    ensures i < j && IsSettled(trace[j].tasks[acts[i].t].phase)
  {
    var s, t := acts[i].t, acts[j].t;
    RunKeeps(trace, acts, j);
    StartsInTurn(trace[j], t);
    assert IsSettled(trace[j].tasks[s].phase);
    if j <= i {
      PhasesOnlyAdvance(trace, acts, j, i, s);
    }
  }

  /** Cleanup only drops an entry whose key has nothing left to run. */
  lemma CleanupNeverDropsWork(trace: seq<Queue>, acts: seq<Act>, n: nat, key: Key)
    requires IsRun(trace, acts) && n < |acts| && key in trace[n].tails && key !in trace[n + 1].tails
    ensures KeyDrained(trace[n], key) && acts[n].Cleanup?
  {
    RunKeeps(trace, acts, n);
    RunKeeps(trace, acts, n + 1);
    assert KeyDrained(trace[n + 1], key);
    forall s: TaskId | s < |trace[n].tasks| && trace[n].tasks[s].key == key
      ensures IsSettled(trace[n].tasks[s].phase)
    {
      assert IsSettled(trace[n + 1].tasks[s].phase);
    }
  }

  /** Once every task of a key ran its cleanup, the key leaves no entry; while one is unsettled, it has one. */
  lemma EntryExactlyWhileBusy(trace: seq<Queue>, acts: seq<Act>, n: nat, key: Key)
    requires IsRun(trace, acts) && n < |trace|
    ensures (forall s: TaskId :: s < |trace[n].tasks| && trace[n].tasks[s].key == key ==>
               trace[n].tasks[s].phase.Cleaned?) ==>
              key !in trace[n].tails
    ensures !KeyDrained(trace[n], key) ==> key in trace[n].tails
  {
    RunKeeps(trace, acts, n);
  }

  // ── Progress ────────────────────────────────────────────────────────────────

  /** Moments left before every task has been cleaned up. */
  function Left(tasks: seq<Task>): nat {
    if tasks == [] then 0 else Left(tasks[..|tasks| - 1]) + 4 - Rank(tasks[|tasks| - 1].phase)
  }

  lemma {:induction false} LeftDrops(tasks: seq<Task>, t: TaskId, phase: Phase)
    requires t < |tasks| && Rank(phase) == Rank(tasks[t].phase) + 1
    ensures Left(tasks[t := tasks[t].(phase := phase)]) == Left(tasks) - 1
  {
    var n := |tasks| - 1;
    var after := tasks[t := tasks[t].(phase := phase)];
    if t < n {
      LeftDrops(tasks[..n], t, phase);
      assert after[..n] == tasks[..n][t := tasks[t].(phase := phase)];
    } else {
      assert after[..n] == tasks[..n];
    }
  }

  /** Every step but an enqueue brings the queue one moment closer to empty. */
  lemma StepsFinish(q: Queue, act: Act)
    requires Enabled(q, act) && !act.Enqueue?
    ensures Left(Next(q, act).tasks) == Left(q.tasks) - 1
  {
    match act
    case Start(t) => LeftDrops(q.tasks, t, Running);
    case End(t, ok) => LeftDrops(q.tasks, t, Ended(ok));
    case Settle(t) => LeftDrops(q.tasks, t, Settled);
    case Cleanup(t) => LeftDrops(q.tasks, t, Cleaned);
  }

  /** The step a task is ready for once everything before it has settled. */
  function Due(q: Queue, t: TaskId): Act
    requires t < |q.tasks| && !q.tasks[t].phase.Cleaned?
  {
    match q.tasks[t].phase
    case Waiting => Start(t)
    case Running => End(t, true)
    case Ended(_) => Settle(t)
    case Settled => Cleanup(t)
  }

  /**
   * A rejected task never stops the chain: the first task of a key that is not settled can always
   * take its next step, whatever became of those before it.
   */
  lemma FirstOfAKeyCanMove(trace: seq<Queue>, acts: seq<Act>, n: nat, t: TaskId)
    requires IsRun(trace, acts) && n < |trace| && t < |trace[n].tasks| && !trace[n].tasks[t].phase.Cleaned?
             && NoneBefore(trace[n], t)
    ensures Enabled(trace[n], Due(trace[n], t))
  {
    RunKeeps(trace, acts, n);
    if trace[n].tasks[t].phase.Waiting? {
      StartsInTurn(trace[n], t);
    }
  }

  /** A queue where nothing can move has cleaned up every task and holds no entry. */
  lemma StuckMeansEmpty(trace: seq<Queue>, acts: seq<Act>, n: nat)
    requires IsRun(trace, acts) && n < |trace|
    requires forall act: Act :: Enabled(trace[n], act) ==> act.Enqueue?
    ensures trace[n].tails == map[] && Left(trace[n].tasks) == 0
  {
    var q := trace[n];
    RunKeeps(trace, acts, n);
    AllCleaned(trace, acts, n, |q.tasks|);
    assert q.tasks[..|q.tasks|] == q.tasks;
    forall key
      ensures key !in q.tails
    {
      assert key in q.tails ==> IsTail(q, key, q.tails[key]);
    }
  }

  lemma {:induction false} AllCleaned(trace: seq<Queue>, acts: seq<Act>, n: nat, m: nat)
    requires IsRun(trace, acts) && n < |trace| && m <= |trace[n].tasks|
    requires forall act: Act :: Enabled(trace[n], act) ==> act.Enqueue?
    ensures forall t: TaskId :: t < m ==> trace[n].tasks[t].phase.Cleaned?
    ensures Left(trace[n].tasks[..m]) == 0
  {
    if m > 0 {
      AllCleaned(trace, acts, n, m - 1);
      var t := m - 1;
      if !trace[n].tasks[t].phase.Cleaned? {
        FirstOfAKeyCanMove(trace, acts, n, t);
        assert false;
      }
      assert trace[n].tasks[..m][..m - 1] == trace[n].tasks[..m - 1];
    }
  }
}
