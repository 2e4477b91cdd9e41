/**
 * How old an answer of the session cache can be, and when the lifetime of its entries bounds how long
 * a change that bypasses the forget takes to show (src/auth/auth.service.ts).
 */
module SessionAge {
  import opened Base
  import opened SessionCache

  // ── Runs on a clock ─────────────────────────────────────────────────────────

  /** Step k happens at instant `at[k]`; the clock never goes back and the cache starts empty. */
  ghost predicate IsTimedRun(trace: seq<System>, acts: seq<Act>, at: seq<Instant>) {
    && IsRun(trace, acts) && |at| == |acts|
    && (forall j, k :: 0 <= j <= k < |at| ==> at[j] <= at[k])
    && (forall k :: 0 <= k < |acts| ==> AtItsInstant(acts[k], at[k]))
    && trace[0].cache.entries == map[] && trace[0].inFlight == map[]
  }

  predicate AtItsInstant(act: Act, now: Instant) {
    (act.Begin? ==> act.now == now) && (act.Finish? ==> act.now == now)
  }

  /** The steps at which an entry's session was read and stored. */
  datatype Origin = Origin(fetched: nat, stored: nat)

  /** When each request in flight read the database, and where each entry comes from. */
  datatype History = History(fetched: map<RequestId, nat>, origins: map<UserId, Origin>)

  /** The step puts a session of user u in the cache. */
  predicate Stores(sys: System, act: Act, u: UserId) {
    && act.Finish? && act.r in sys.inFlight
    && var request := sys.inFlight[act.r];
    && request.token.id == Some(u) && request.generation == sys.cache.generation
    && request.read.Some? && request.read.value.Ok?
  }

  function Noted(h: History, sys: System, act: Act, k: nat): History {
    match act
    case Fetch(r) => h.(fetched := h.fetched[r := k])
    case Finish(r, _) =>
      if r in sys.inFlight && sys.inFlight[r].token.id.Some? && Stores(sys, act, sys.inFlight[r].token.id.value)
         && r in h.fetched
      then h.(origins := h.origins[sys.inFlight[r].token.id.value := Origin(h.fetched[r], k)])
      else h
    case _ => h
  }

  ghost function HistoryAt(trace: seq<System>, acts: seq<Act>, n: nat): History
    requires n <= |acts| <= |trace|
  {
    if n == 0 then History(map[], map[]) else Noted(HistoryAt(trace, acts, n - 1), trace[n - 1], acts[n - 1], n - 1)
  }

  // ── What the history says ───────────────────────────────────────────────────

  /** The database replied to request r at step f with what it held then. */
  ghost predicate ReadThen(trace: seq<System>, acts: seq<Act>, n: nat, h: History, r: RequestId, request: InFlight)
    requires n < |trace| == |acts| + 1
  {
    && r in h.fetched && h.fetched[r] < n && acts[h.fetched[r]] == Fetch(r)
    && request.read == Some(GetSession(trace[h.fetched[r]].db, request.token))
  }

  /** The entry was read at one step and stored at a later one, and lives from when it was stored. */
  ghost predicate ComesFrom(trace: seq<System>, acts: seq<Act>, at: seq<Instant>, n: nat, o: Origin, u: UserId,
                            entry: Entry)
    requires n < |trace| == |acts| + 1 && |at| == |acts|
  {
    && o.fetched < o.stored < n && acts[o.fetched].Fetch? && Stores(trace[o.stored], acts[o.stored], u)
    && acts[o.stored].r == acts[o.fetched].r
    && entry.expiresAt == at[o.stored] + SESSION_CACHE_TTL_MS
    && IsCurrent(trace[o.fetched].db, u, entry.user)
  }

  ghost predicate Traced(trace: seq<System>, acts: seq<Act>, at: seq<Instant>, n: nat, h: History)
    requires n < |trace| == |acts| + 1 && |at| == |acts|
  {
    && (forall r :: r in trace[n].inFlight && trace[n].inFlight[r].read.Some? ==>
          ReadThen(trace, acts, n, h, r, trace[n].inFlight[r]))
    && (forall u :: u in trace[n].cache.entries ==>
          u in h.origins && ComesFrom(trace, acts, at, n, h.origins[u], u, trace[n].cache.entries[u]))
  }

  lemma ReadsStayTraced(trace: seq<System>, acts: seq<Act>, at: seq<Instant>, n: nat, r: RequestId)
    requires IsTimedRun(trace, acts, at) && n < |acts| && Traced(trace, acts, at, n, HistoryAt(trace, acts, n))
    requires r in trace[n + 1].inFlight && trace[n + 1].inFlight[r].read.Some?
    ensures ReadThen(trace, acts, n + 1, HistoryAt(trace, acts, n + 1), r, trace[n + 1].inFlight[r])
  {
    hide GetSession, Answered, Missed, Stored, ComesFrom;
    assert trace[n + 1] == Next(trace[n], acts[n]);
    assert r in trace[n].inFlight;
  }

  lemma EntriesStayTraced(trace: seq<System>, acts: seq<Act>, at: seq<Instant>, n: nat, u: UserId)
    requires IsTimedRun(trace, acts, at) && n < |acts| && Traced(trace, acts, at, n, HistoryAt(trace, acts, n))
    requires u in trace[n + 1].cache.entries
    ensures var h := HistoryAt(trace, acts, n + 1);
            u in h.origins && ComesFrom(trace, acts, at, n + 1, h.origins[u], u, trace[n + 1].cache.entries[u])
  {
    var act := acts[n];
    assert trace[n + 1] == Next(trace[n], act) && AtItsInstant(act, at[n]);
    if Stores(trace[n], act, u) {
      assert ReadThen(trace, acts, n, HistoryAt(trace, acts, n), act.r, trace[n].inFlight[act.r]);
    } else {
      assert u in trace[n].cache.entries && trace[n + 1].cache.entries[u] == trace[n].cache.entries[u];
      assert HistoryAt(trace, acts, n + 1).origins[u] == HistoryAt(trace, acts, n).origins[u];
    }
  }

  lemma {:induction false} RunIsTraced(trace: seq<System>, acts: seq<Act>, at: seq<Instant>, n: nat)
    requires IsTimedRun(trace, acts, at) && n < |trace|
    ensures Traced(trace, acts, at, n, HistoryAt(trace, acts, n))
  {
    hide ReadThen, ComesFrom, HistoryAt;
    if n > 0 {
      RunIsTraced(trace, acts, at, n - 1);
      forall r | r in trace[n].inFlight && trace[n].inFlight[r].read.Some?
        ensures ReadThen(trace, acts, n, HistoryAt(trace, acts, n), r, trace[n].inFlight[r])
      {
        ReadsStayTraced(trace, acts, at, n - 1, r);
      }
      forall u | u in trace[n].cache.entries
        ensures u in HistoryAt(trace, acts, n).origins
                && ComesFrom(trace, acts, at, n, HistoryAt(trace, acts, n).origins[u], u, trace[n].cache.entries[u])
      {
        EntriesStayTraced(trace, acts, at, n - 1, u);
      }
    }
  }

  // ── The age of an answer ────────────────────────────────────────────────────

  /**
   * Whatever happens to the database, an answer from the cache at `now` is the one the database gave at
   * an earlier step, read less than the lifetime plus the read's own duration ago.
   */
  lemma AnswersOfTheRecentPast(trace: seq<System>, acts: seq<Act>, at: seq<Instant>, n: nat, token: Token, now: Instant)
    returns (o: Origin)
    requires IsTimedRun(trace, acts, at) && n < |trace| && Answered(trace[n].cache, token, now).Some?
    ensures o.fetched < o.stored < n && acts[o.fetched].Fetch? && acts[o.stored].Finish?
    ensures acts[o.stored].r == acts[o.fetched].r && at[o.fetched] <= at[o.stored]
    ensures Answered(trace[n].cache, token, now).value == GetSession(trace[o.fetched].db, token)
    ensures now - at[o.fetched] < SESSION_CACHE_TTL_MS + (at[o.stored] - at[o.fetched])
  {
    RunIsTraced(trace, acts, at, n);
    hide HistoryAt, ReadThen;
    var h, u := HistoryAt(trace, acts, n), token.id.value;
    assert Traced(trace, acts, at, n, h);
    assert ComesFrom(trace, acts, at, n, h.origins[u], u, trace[n].cache.entries[u]);
    o := h.origins[u];
  }

  /** Every answer an entry gives is younger than the lifetime exactly when its read took no time. */
  lemma YoungerThanLifetimeExactly(trace: seq<System>, acts: seq<Act>, at: seq<Instant>, n: nat, token: Token)
    requires IsTimedRun(trace, acts, at) && n < |trace| && token.id.Some? && token.id.value in trace[n].cache.entries
    ensures var h := HistoryAt(trace, acts, n);
            && token.id.value in h.origins
            && var o := h.origins[token.id.value];
            && o.fetched < o.stored < n
            && ((forall now :: Answered(trace[n].cache, token, now).Some? ==>
                   now - at[o.fetched] < SESSION_CACHE_TTL_MS) <==>
                at[o.stored] == at[o.fetched])
  {
    RunIsTraced(trace, acts, at, n);
    hide HistoryAt, ReadThen;
    var o := HistoryAt(trace, acts, n).origins[token.id.value];
    var entry := trace[n].cache.entries[token.id.value];
    assert ComesFrom(trace, acts, at, n, o, token.id.value, entry);
    assert Answered(trace[n].cache, token, entry.expiresAt - 1).Some?;
  }

  // ── Changes that bypass the forget ──────────────────────────────────────────

  /** A lifetime after step c, nothing read before it is answered any more. */
  ghost predicate ShowsInTime(trace: seq<System>, acts: seq<Act>, at: seq<Instant>, c: nat, u: UserId)
    requires c < |acts| < |trace| && |at| == |acts|
  {
    forall n: nat, token: Token, now: Instant {:trigger Answered(trace[n].cache, token, now)} ::
      c < n <= |acts| && token.id == Some(u) && at[n - 1] <= now && at[c] + SESSION_CACHE_TTL_MS <= now
      && Answered(trace[n].cache, token, now).Some? ==>
        u in HistoryAt(trace, acts, n).origins && c <= HistoryAt(trace, acts, n).origins[u].fetched
  }

  /** A session of u read before step c is stored at a later instant than c's. */
  ghost predicate StraddledBy(trace: seq<System>, acts: seq<Act>, at: seq<Instant>, c: nat, u: UserId, e: nat)
    requires c < |acts| < |trace| && |at| == |acts|
  {
    && c < e < |acts| && at[c] < at[e] && Stores(trace[e], acts[e], u)
    && acts[e].r in HistoryAt(trace, acts, e).fetched && HistoryAt(trace, acts, e).fetched[acts[e].r] < c
  }

  /** What a stored session leaves in the cache and in the history. */
  lemma JustStored(trace: seq<System>, acts: seq<Act>, at: seq<Instant>, e: nat, u: UserId)
    requires IsTimedRun(trace, acts, at) && e < |acts| && Stores(trace[e], acts[e], u)
    requires acts[e].r in HistoryAt(trace, acts, e).fetched
    ensures u in trace[e + 1].cache.entries
    ensures trace[e + 1].cache.entries[u].expiresAt == at[e] + SESSION_CACHE_TTL_MS
    ensures u in HistoryAt(trace, acts, e + 1).origins
    ensures HistoryAt(trace, acts, e + 1).origins[u] == Origin(HistoryAt(trace, acts, e).fetched[acts[e].r], e)
  {
    assert trace[e + 1] == Next(trace[e], acts[e]) && AtItsInstant(acts[e], at[e]);
  }

  lemma {:induction false} StoredWhatItFetched(trace: seq<System>, acts: seq<Act>, n: nat, u: UserId)
    requires IsRun(trace, acts) && n <= |acts| && u in HistoryAt(trace, acts, n).origins
    ensures var o := HistoryAt(trace, acts, n).origins[u];
            && o.stored < n && Stores(trace[o.stored], acts[o.stored], u)
            && acts[o.stored].r in HistoryAt(trace, acts, o.stored).fetched
            && HistoryAt(trace, acts, o.stored).fetched[acts[o.stored].r] == o.fetched
  {
    if n > 0 && HistoryAt(trace, acts, n).origins != HistoryAt(trace, acts, n - 1).origins
       && trace[n - 1].inFlight[acts[n - 1].r].token.id == Some(u) {
      hide Stores;
    } else {
      StoredWhatItFetched(trace, acts, n - 1, u);
    }
  }

  /**
   * A change shows within the lifetime of an entry exactly when no read of that user straddles it: one
   * that saw the old row and was stored at a later instant than the change.
   */
  lemma ShowsInTimeExactly(trace: seq<System>, acts: seq<Act>, at: seq<Instant>, c: nat, u: UserId)
    requires IsTimedRun(trace, acts, at) && c < |acts| && acts[c].Change? && acts[c].user == u
    ensures ShowsInTime(trace, acts, at, c, u) <==>
            forall e :: c < e < |acts| ==> !StraddledBy(trace, acts, at, c, u, e)
  {
    hide HistoryAt, Stores, ReadThen;
    if e: nat :| c < e < |acts| && StraddledBy(trace, acts, at, c, u, e) {
      JustStored(trace, acts, at, e, u);
      var now := at[e] + SESSION_CACHE_TTL_MS - 1;
      assert Answered(trace[e + 1].cache, Token(Some(u), ""), now).Some?;
      assert !ShowsInTime(trace, acts, at, c, u);
    } else {
      forall n: nat, token: Token, now: Instant {:trigger Answered(trace[n].cache, token, now)} |
        c < n <= |acts| && token.id == Some(u) && at[n - 1] <= now && at[c] + SESSION_CACHE_TTL_MS <= now
        && Answered(trace[n].cache, token, now).Some?
        ensures u in HistoryAt(trace, acts, n).origins && c <= HistoryAt(trace, acts, n).origins[u].fetched
      {
        RunIsTraced(trace, acts, at, n);
        var o := HistoryAt(trace, acts, n).origins[u];
        assert ComesFrom(trace, acts, at, n, o, u, trace[n].cache.entries[u]);
        StoredWhatItFetched(trace, acts, n, u);
        assert at[c] < at[o.stored];
        assert !StraddledBy(trace, acts, at, c, u, o.stored);
      }
    }
  }

  /**
   * A user is dropped at instant 1, without a forget, while a read that saw it active takes until `d`:
   * a whole lifetime after the change its old session is still answered.
   */
  lemma SlowReadOutlastsLifetime(u: UserId, row: UserRow, d: nat) returns (trace: seq<System>, acts: seq<Act>,
                                                                           at: seq<Instant>)
    requires row.isActive && d >= 2
    ensures IsTimedRun(trace, acts, at) && |acts| == 4 && acts[2] == Change(u, None)
    ensures var now := at[3] + SESSION_CACHE_TTL_MS - 1;
            var token := Token(Some(u), row.clubId);
            && at[3] - at[1] == d && at[2] + SESSION_CACHE_TTL_MS <= now
            && Answered(trace[4].cache, token, now) == Some(Ok(SessionOf(u, row)))
               && GetSession(trace[4].db, token).Err?
  {
    var token := Token(Some(u), row.clubId);
    var empty := Cache(map[], 0);
    var waiting := InFlight(token, 0, None);
    var replied := waiting.(read := Some(Ok(SessionOf(u, row))));
    acts := [Begin(0, token, 0), Fetch(0), Change(u, None), Finish(0, d)];
    at := [0, 0, 1, d];
    trace := [
      System(empty, map[u := row], map[], {}),
      System(empty, map[u := row], map[0 := waiting], {}),
      System(empty, map[u := row], map[0 := replied], {}),
      System(empty, map[], map[0 := replied], {u}),
      System(Cache(map[u := Entry(SessionOf(u, row), d + SESSION_CACHE_TTL_MS)], 0), map[], map[], {u})];
    assert empty.entries - {u} == map[];
    assert map[u := row] - {u} == map[];
    assert map[0 := replied] - {0} == map[];
    assert {} + {u} == {u};
  }
}
