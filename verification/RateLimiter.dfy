/** The per-player budget of LLM calls: a sliding window over a pruned map (src/llm/llm.service.ts). */
module RateLimiter {

  type UserId = string
  type Instant = int

  const LLM_WINDOW_MS := 60_000
  const MAX_IDLE_USERS := 1000

  /** The timestamps still inside the window at `now`. */
  function InWindow(times: seq<Instant>, now: Instant): (recent: seq<Instant>)
    ensures |recent| <= |times|
  {
    if times == [] then []
    else
      var rest, last := InWindow(times[..|times| - 1], now), times[|times| - 1];
      if now - last < LLM_WINDOW_MS then rest + [last] else rest
  }

  predicate IsIdle(times: seq<Instant>, now: Instant) {
    forall i :: 0 <= i < |times| ==> now - times[i] >= LLM_WINDOW_MS
  }

  type Calls = map<UserId, seq<Instant>>

  function TimesOf(calls: Calls, user: UserId): seq<Instant> {
    if user in calls then calls[user] else []
  }

  function Pruned(calls: Calls, now: Instant): Calls {
    map u | u in calls && !IsIdle(calls[u], now) :: calls[u]
  }

  /** What the map becomes when `user` calls at `now`, and whether the call is refused. */
  function Checked(calls: Calls, max: nat, user: UserId, now: Instant): (Calls, bool) {
    var recent := InWindow(TimesOf(calls, user), now);
    if |recent| >= max then (calls[user := recent], true)
    else
      var recorded := calls[user := recent + [now]];
      (if |recorded| > MAX_IDLE_USERS then Pruned(recorded, now) else recorded, false)
  }

  class LlmService {
    const maxCallsPerWindow: nat
    var llmCalls: Calls

    constructor (max: nat)
      ensures llmCalls == map[] && maxCallsPerWindow == max
    {
      maxCallsPerWindow := max;
      llmCalls := map[];
    }

    method IsRateLimited(user: UserId, now: Instant) returns (limited: bool)
      modifies this
      ensures (llmCalls, limited) == Checked(old(llmCalls), maxCallsPerWindow, user, now)
    {
      var times := if user in llmCalls then llmCalls[user] else [];
      var recent: seq<Instant> := [];
      for i := 0 to |times|
        invariant recent == InWindow(times[..i], now)
        invariant llmCalls == old(llmCalls)
      {
        assert times[..i + 1][..i] == times[..i];
        if now - times[i] < LLM_WINDOW_MS {
          recent := recent + [times[i]];
        }
      }
      assert times[..|times|] == times;
      if |recent| >= maxCallsPerWindow {
        llmCalls := llmCalls[user := recent];
        return true;
      }
      recent := recent + [now];
      llmCalls := llmCalls[user := recent];
      if |llmCalls| > MAX_IDLE_USERS {
        Prune(now);
      }
      return false;
    }

    /** Drops the users with nothing left in the window. */
    method Prune(now: Instant)
      modifies this
      ensures llmCalls == Pruned(old(llmCalls), now)
    {
      var waiting := llmCalls.Keys;
      while waiting != {}
        invariant waiting <= llmCalls.Keys <= old(llmCalls).Keys
        invariant forall u :: u in llmCalls ==> llmCalls[u] == old(llmCalls)[u]
        invariant forall u :: u in old(llmCalls) && u !in waiting ==>
                    (u in llmCalls <==> !IsIdle(old(llmCalls)[u], now))
        decreases waiting
      {
        var u :| u in waiting;
        waiting := waiting - {u};
        if IsIdle(llmCalls[u], now) {
          llmCalls := llmCalls - {u};
        }
      }
      assert llmCalls == Pruned(old(llmCalls), now);
    }
  }

  // ── The reference: every accepted call, remembered for ever ─────────────────

  datatype Request = Request(user: UserId, at: Instant)

  /** Times of a user's accepted calls. */
  function Accepted(history: seq<Request>, user: UserId): seq<Instant> {
    if history == [] then []
    else
      var rest, last := Accepted(history[..|history| - 1], user), history[|history| - 1];
      if last.user == user then rest + [last.at] else rest
  }

  predicate OverBudget(history: seq<Request>, max: nat, r: Request) {
    |InWindow(Accepted(history, r.user), r.at)| >= max
  }

  /** The accepted calls of a run of requests, decided by the whole history. */
  function Remembered(requests: seq<Request>, max: nat): seq<Request> {
    if requests == [] then []
    else
      var before, r := Remembered(requests[..|requests| - 1], max), requests[|requests| - 1];
      if OverBudget(before, max, r) then before else before + [r]
  }

  /** The service's map after the same run. */
  function Kept(requests: seq<Request>, max: nat): Calls {
    if requests == [] then map[]
    else Checked(Kept(requests[..|requests| - 1], max), max, requests[|requests| - 1].user,
                 requests[|requests| - 1].at).0
  }

  /** The clock never goes back. */
  predicate InOrder(requests: seq<Request>) {
    forall i, j :: 0 <= i < j < |requests| ==> requests[i].at <= requests[j].at
  }

  /** From `clock` on, the map and the history count the same calls of the user. */
  ghost predicate Agree(times: seq<Instant>, remembered: seq<Instant>, clock: Instant) {
    forall now :: clock <= now ==> InWindow(times, now) == InWindow(remembered, now)
  }

  lemma {:induction false} WindowShrinks(times: seq<Instant>, now: Instant, later: Instant)
    requires now <= later
    ensures InWindow(InWindow(times, now), later) == InWindow(times, later)
  {
    if times == [] {
      NothingInWindow(now);
      NothingInWindow(later);
    } else {
      hide InWindow;
      var n := |times| - 1;
      WindowShrinks(times[..n], now, later);
      assert times == times[..n] + [times[n]];
      WindowAppend(times[..n], times[n], now);
      WindowAppend(times[..n], times[n], later);
      WindowAppend(InWindow(times[..n], now), times[n], later);
    }
  }

  lemma NothingInWindow(now: Instant)
    ensures InWindow([], now) == []
  {
  }

  lemma WindowAppend(times: seq<Instant>, t: Instant, now: Instant)
    ensures InWindow(times + [t], now) == if now - t < LLM_WINDOW_MS then InWindow(times, now) + [t]
                                          else InWindow(times, now)
  {
    assert (times + [t])[..|times|] == times;
  }

  lemma {:induction false} IdleWindow(times: seq<Instant>, now: Instant, later: Instant)
    requires IsIdle(times, now) && now <= later
    ensures InWindow(times, later) == []
  {
    if times != [] {
      IdleWindow(times[..|times| - 1], now, later);
    }
  }

  /** Dropping idle users changes nobody's later windows. */
  lemma PrunedWindow(calls: Calls, now: Instant, u: UserId, later: Instant)
    requires now <= later
    ensures InWindow(TimesOf(Pruned(calls, now), u), later) == InWindow(TimesOf(calls, u), later)
  {
    hide IsIdle;
    if u in calls && IsIdle(calls[u], now) {
      IdleWindow(calls[u], now, later);
      NothingInWindow(later);
    }
  }

  /** A call leaves every later window as it was, plus itself when it is accepted. */
  lemma CheckedWindow(calls: Calls, max: nat, user: UserId, now: Instant, u: UserId, later: Instant)
    requires now <= later
    ensures var (after, refused) := Checked(calls, max, user, now);
            InWindow(TimesOf(after, u), later) ==
              InWindow(if u == user && !refused then TimesOf(calls, u) + [now] else TimesOf(calls, u), later)
  {
    hide InWindow, Pruned;
    var recent := InWindow(TimesOf(calls, user), now);
    WindowShrinks(TimesOf(calls, user), now, later);
    WindowAppend(recent, now, later);
    WindowAppend(TimesOf(calls, user), now, later);
    PrunedWindow(calls[user := recent + [now]], now, u, later);
  }

  lemma CheckedAgrees(calls: Calls, max: nat, user: UserId, now: Instant, u: UserId, remembered: seq<Instant>,
                      clock: Instant)
    requires clock <= now && Agree(TimesOf(calls, u), remembered, clock)
    ensures var (after, refused) := Checked(calls, max, user, now);
            Agree(TimesOf(after, u), if u == user && !refused then remembered + [now] else remembered, now)
  {
    hide InWindow, Checked, TimesOf;
    var (after, refused) := Checked(calls, max, user, now);
    forall later | now <= later
      ensures InWindow(TimesOf(after, u), later) == InWindow(if u == user
                                                             && !refused then remembered + [now] else remembered, later)
    {
      CheckedWindow(calls, max, user, now, u, later);
      WindowAppend(TimesOf(calls, u), now, later);
      WindowAppend(remembered, now, later);
    }
  }

  lemma {:induction false} KeptAgrees(requests: seq<Request>, max: nat, u: UserId, clock: Instant)
    requires InOrder(requests) && (requests != [] ==> requests[|requests| - 1].at <= clock)
    ensures Agree(TimesOf(Kept(requests, max), u), Accepted(Remembered(requests, max), u), clock)
  {
    if requests != [] {
      hide Agree, Checked, InOrder;
      var n := |requests| - 1;
      var r := requests[n];
      InOrderBefore(requests);
      KeptAgrees(requests[..n], max, u, r.at);
      KeptAgrees(requests[..n], max, r.user, r.at);
      AgreeStep(Kept(requests[..n], max), Remembered(requests[..n], max), max, r, u);
      AgreeLater(TimesOf(Kept(requests, max), u), Accepted(Remembered(requests, max), u), r.at, clock);
    }
  }

  lemma InOrderBefore(requests: seq<Request>)
    requires InOrder(requests) && requests != []
    ensures var n := |requests| - 1; InOrder(requests[..n]) && (n > 0 ==> requests[n - 1].at <= requests[n].at)
  {
  }

  lemma AgreeLater(times: seq<Instant>, remembered: seq<Instant>, clock: Instant, later: Instant)
    requires Agree(times, remembered, clock) && clock <= later
    ensures Agree(times, remembered, later)
  {
  }

  lemma AcceptedAppend(history: seq<Request>, r: Request, u: UserId)
    ensures Accepted(history + [r], u) == if r.user == u then Accepted(history, u) + [r.at] else Accepted(history, u)
  {
    assert (history + [r])[..|history|] == history;
  }

  lemma AgreeStep(calls: Calls, history: seq<Request>, max: nat, r: Request, u: UserId)
    requires Agree(TimesOf(calls, u), Accepted(history, u), r.at)
    requires Agree(TimesOf(calls, r.user), Accepted(history, r.user), r.at)
    ensures Agree(TimesOf(Checked(calls, max, r.user, r.at).0, u),
                  Accepted(if OverBudget(history, max, r) then history else history + [r], u), r.at)
  {
    hide Accepted, TimesOf, InWindow;
    CheckedAgrees(calls, max, r.user, r.at, u, Accepted(history, u), r.at);
    AcceptedAppend(history, r, u);
    assert InWindow(TimesOf(calls, r.user), r.at) == InWindow(Accepted(history, r.user), r.at);
    assert Checked(calls, max, r.user, r.at).1 <==> OverBudget(history, max, r);
  }

  /**
   * Forgetting expired timestamps and dropping idle users never changes an answer: after any run
   * with a clock that does not go back, the next call is refused exactly when the full history of
   * accepted calls puts it over budget.
   */
  lemma PruningChangesNoAnswer(requests: seq<Request>, max: nat, r: Request)
    requires InOrder(requests + [r])
    ensures Checked(Kept(requests, max), max, r.user, r.at).1 <==> OverBudget(Remembered(requests, max), max, r)
  {
    assert forall i :: 0 <= i < |requests| ==> requests[i] == (requests + [r])[i];
    assert (requests + [r])[|requests|] == r;
    KeptAgrees(requests, max, r.user, r.at);
  }

  // ── The budget ──────────────────────────────────────────────────────────────

  /** Calls in the half-open window starting at `from`. */
  function CountFrom(times: seq<Instant>, from: Instant): nat {
    if times == [] then 0
    else CountFrom(times[..|times| - 1], from) +
         (if from <= times[|times| - 1] < from + LLM_WINDOW_MS then 1 else 0)
  }

  lemma {:induction false} CountInside(times: seq<Instant>, from: Instant, now: Instant)
    requires from <= now < from + LLM_WINDOW_MS
    ensures CountFrom(times, from) <= |InWindow(times, now)|
  {
    if times != [] {
      CountInside(times[..|times| - 1], from, now);
    }
  }

  /** No window of the configured length ever holds more accepted calls of a player than the budget. */
  lemma {:induction false} NoWindowOverBudget(requests: seq<Request>, max: nat, user: UserId, from: Instant)
    ensures CountFrom(Accepted(Remembered(requests, max), user), from) <= max
  {
    if requests != [] {
      var n := |requests| - 1;
      var r := requests[n];
      NoWindowOverBudget(requests[..n], max, user, from);
      var before := Remembered(requests[..n], max);
      if !OverBudget(before, max, r) && r.user == user {
        assert (before + [r])[..|before|] == before;
        var times := Accepted(before, user);
        assert (times + [r.at])[..|times|] == times;
        if from <= r.at < from + LLM_WINDOW_MS {
          CountInside(times, from, r.at);
        }
      } else {
        assert (before + [r])[..|before|] == before;
      }
    }
  }

  /** The calls the service itself lets through in a run. */
  function Served(requests: seq<Request>, max: nat): seq<Request> {
    if requests == [] then []
    else
      var n := |requests| - 1;
      var before := Served(requests[..n], max);
      if Checked(Kept(requests[..n], max), max, requests[n].user, requests[n].at).1 then before
         else before + [requests[n]]
  }

  lemma {:induction false} ServedAsRemembered(requests: seq<Request>, max: nat)
    requires InOrder(requests)
    ensures Served(requests, max) == Remembered(requests, max)
  {
    if requests != [] {
      var n := |requests| - 1;
      ServedAsRemembered(requests[..n], max);
      assert requests[..n] + [requests[n]] == requests;
      PruningChangesNoAnswer(requests[..n], max, requests[n]);
    }
  }

  /** With a clock that does not go back, the service keeps every player within budget in every window. */
  lemma ServiceKeepsTheBudget(requests: seq<Request>, max: nat, user: UserId, from: Instant)
    requires InOrder(requests)
    ensures CountFrom(Accepted(Served(requests, max), user), from) <= max
  {
    ServedAsRemembered(requests, max);
    NoWindowOverBudget(requests, max, user, from);
  }
}
