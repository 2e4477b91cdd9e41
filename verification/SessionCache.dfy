/**
 * The session cache of the auth service and its generation counter, against every interleaving of
 * requests, database changes and forgets (src/auth/auth.service.ts).
 */
module SessionCache {
  import opened Base

  type UserId = int
  type Instant = int

  const SESSION_CACHE_TTL_MS := 30_000

  /** The columns a session is checked against and built from. */
  datatype UserRow = UserRow(name: string, role: string, isActive: bool, clubId: string, mustChangePassword: bool)

  /** What an accepted session carries. */
  datatype Session = Session(id: UserId, name: string, role: string, clubId: string, mustChangePassword: bool)

  /** The claims of a token; `id` is None when it does not parse as a number. */
  datatype Token = Token(id: Option<UserId>, clubId: string)

  datatype Entry = Entry(user: Session, expiresAt: Instant)

  function SessionOf(id: UserId, row: UserRow): Session {
    Session(id, row.name, row.role, row.clubId, row.mustChangePassword)
  }

  /** The uncached check: an active user whose club is the token's. */
  function GetSession(db: map<UserId, UserRow>, token: Token): (r: Result<Session>)
    ensures r.Ok? <==> token.id.Some? && token.id.value in db && db[token.id.value].isActive
                       && db[token.id.value].clubId == token.clubId
    ensures r.Ok? ==> r.value == SessionOf(token.id.value, db[token.id.value]) && r.value.clubId == token.clubId
  {
    if token.id.None? || token.id.value !in db then Err(Forbidden)
    else
      var row := db[token.id.value];
      if !row.isActive || row.clubId != token.clubId then Err(Forbidden)
      else Ok(SessionOf(token.id.value, row))
  }

  // ── The service's two fields, as values ─────────────────────────────────────

  datatype Cache = Cache(entries: map<UserId, Entry>, generation: nat)

  predicate IsHit(cache: Cache, token: Token, now: Instant) {
    token.id.Some? && token.id.value in cache.entries && cache.entries[token.id.value].expiresAt > now
  }

  /** What a request gets before any database read: an answer, or nothing yet. */
  function Answered(cache: Cache, token: Token, now: Instant): Option<Result<Session>> {
    if !IsHit(cache, token, now) then None
    else if cache.entries[token.id.value].user.clubId != token.clubId then Some(Err(Forbidden))
    else Some(Ok(cache.entries[token.id.value].user))
  }

  /** Before reading the database, whatever was cached for the user is dropped. */
  function Missed(cache: Cache, token: Token, now: Instant): Cache {
    if IsHit(cache, token, now) || token.id.None? then cache
    else cache.(entries := cache.entries - {token.id.value})
  }

  /** After the read: stored only if no forget happened since it began. */
  function Stored(cache: Cache, token: Token, generation: nat, read: Result<Session>, now: Instant): Cache {
    if read.Ok? && token.id.Some? && generation == cache.generation
    then cache.(entries := cache.entries[token.id.value := Entry(read.value, now + SESSION_CACHE_TTL_MS)])
    else cache
  }

  function Forgotten(cache: Cache, user: UserId): Cache {
    Cache(cache.entries - {user}, cache.generation + 1)
  }

  class AuthService {
    var sessionCache: map<UserId, Entry>
    var sessionGeneration: nat

    constructor ()
      ensures Contents() == Cache(map[], 0)
    {
      sessionCache := map[];
      sessionGeneration := 0;
    }

    ghost function Contents(): Cache
      reads this
    {
      Cache(sessionCache, sessionGeneration)
    }

    /** `validateSession` up to its database read: an answer from the cache, or the generation the read starts in. */
    method BeginValidation(token: Token, now: Instant) returns (answer: Option<Result<Session>>, generation: nat)
      modifies this
      ensures answer == Answered(old(Contents()), token, now)
      ensures Contents() == Missed(old(Contents()), token, now)
      ensures generation == old(sessionGeneration)
    {
      generation := sessionGeneration;
      if token.id.Some? && token.id.value in sessionCache {
        var cached := sessionCache[token.id.value];
        if cached.expiresAt > now {
          if cached.user.clubId != token.clubId {
            return Some(Err(Forbidden)), generation;
          }
          return Some(Ok(cached.user)), generation;
        }
      }
      if token.id.Some? {
        sessionCache := sessionCache - {token.id.value};
      }
      generation := sessionGeneration;
      answer := None;
    }

    /** `validateSession` after its database read. */
    method FinishValidation(token: Token, generation: nat, read: Result<Session>,
                            now: Instant) returns (answer: Result<Session>)
      modifies this
      ensures answer == read
      ensures Contents() == Stored(old(Contents()), token, generation, read, now)
    {
      answer := read;
      if read.Err? || token.id.None? {
        return;
      }
      if generation == sessionGeneration {
        sessionCache := sessionCache[token.id.value := Entry(read.value, now + SESSION_CACHE_TTL_MS)];
      }
    }

    method ForgetSession(user: UserId)
      modifies this
      ensures Contents() == Forgotten(old(Contents()), user)
    {
      sessionGeneration := sessionGeneration + 1;
      sessionCache := sessionCache - {user};
    }
  }

  // ── Every interleaving ──────────────────────────────────────────────────────

  type RequestId = nat

  /** A request between its cache miss and its answer; `read` is None until the database replied. */
  datatype InFlight = InFlight(token: Token, generation: nat, read: Option<Result<Session>>)

  /** `dirty`: users changed since their last forget. */
  datatype System = System(cache: Cache, db: map<UserId, UserRow>, inFlight: map<RequestId, InFlight>,
                           dirty: set<UserId>)

  datatype Act =
    | Begin(r: RequestId, token: Token, now: Instant)
    | Fetch(r: RequestId)
    | Finish(r: RequestId, now: Instant)
    | Change(user: UserId, row: Option<UserRow>)
    | Forget(user: UserId)

  predicate Enabled(sys: System, act: Act) {
    match act
    case Begin(r, _, _) => r !in sys.inFlight
    case Fetch(r) => r in sys.inFlight && sys.inFlight[r].read.None?
    case Finish(r, _) => r in sys.inFlight && sys.inFlight[r].read.Some?
    case _ => true
  }

  function Next(sys: System, act: Act): System
    requires Enabled(sys, act)
  {
    match act
    case Begin(r, token, now) =>
      if Answered(sys.cache, token, now).Some? then sys
      else sys.(cache := Missed(sys.cache, token, now),
                inFlight := sys.inFlight[r := InFlight(token, sys.cache.generation, None)])
    case Fetch(r) =>
      var request := sys.inFlight[r];
      sys.(inFlight := sys.inFlight[r := request.(read := Some(GetSession(sys.db, request.token)))])
    case Finish(r, now) =>
      var request := sys.inFlight[r];
      sys.(cache := Stored(sys.cache, request.token, request.generation, request.read.value, now),
           inFlight := sys.inFlight - {r})
    case Change(user, row) =>
      sys.(db := if row.Some? then sys.db[user := row.value] else sys.db - {user}, dirty := sys.dirty + {user})
    case Forget(user) =>
      sys.(cache := Forgotten(sys.cache, user), dirty := sys.dirty - {user})
  }

  /** This is what the database says of the user now. */
  predicate IsCurrent(db: map<UserId, UserRow>, user: UserId, s: Session) {
    user in db && db[user].isActive && s == SessionOf(user, db[user])
  }

  ghost predicate FreshCache(sys: System) {
    forall u {:trigger u in sys.dirty} {:trigger u in sys.cache.entries} ::
      u in sys.cache.entries && u !in sys.dirty ==> IsCurrent(sys.db, u, sys.cache.entries[u].user)
  }

  /** A read that may still be stored has seen the current row of its user, unless the user is dirty. */
  predicate FreshRead(sys: System, request: InFlight) {
    && request.generation <= sys.cache.generation
    && (request.generation == sys.cache.generation && request.read.Some? && request.read.value.Ok? ==>
          && request.token.id.Some?
          && (request.token.id.value !in sys.dirty ==>
                IsCurrent(sys.db, request.token.id.value, request.read.value.value)))
  }

  ghost predicate Fresh(sys: System) {
    && FreshCache(sys)
    && (forall r :: r in sys.inFlight ==> FreshRead(sys, sys.inFlight[r]))
  }

  lemma NextStaysFresh(sys: System, act: Act)
    requires Fresh(sys) && Enabled(sys, act)
    ensures Fresh(Next(sys, act))
  {
    var after := Next(sys, act);
    forall r | r in after.inFlight
      ensures FreshRead(after, after.inFlight[r])
    {
      assert r in sys.inFlight ==> FreshRead(sys, sys.inFlight[r]);
    }
  }

  /** `trace` is a run: each state follows from the one before by one act. */
  ghost predicate IsRun(trace: seq<System>, acts: seq<Act>) {
    && |trace| == |acts| + 1
    && (forall k :: 0 <= k < |acts| ==> Enabled(trace[k], acts[k]) && trace[k + 1] == Next(trace[k], acts[k]))
  }

  lemma {:induction false} RunStaysFresh(trace: seq<System>, acts: seq<Act>, n: nat)
    requires IsRun(trace, acts) && Fresh(trace[0]) && n < |trace|
    ensures Fresh(trace[n])
  {
    if n > 0 {
      RunStaysFresh(trace, acts, n - 1);
      NextStaysFresh(trace[n - 1], acts[n - 1]);
    }
  }

  /**
   * In every interleaving: once the last change to a user has been followed by its forget, a request
   * answered from the cache is accepted exactly when the database would accept it now, with the same
   * session, whatever reads were in flight meanwhile.
   */
  lemma CacheAnswersAsTheDatabase(trace: seq<System>, acts: seq<Act>, n: nat, token: Token, now: Instant)
    requires IsRun(trace, acts) && Fresh(trace[0]) && n < |trace|
    requires token.id.Some? && token.id.value !in trace[n].dirty
    requires Answered(trace[n].cache, token, now).Some?
    ensures Answered(trace[n].cache, token, now).value == GetSession(trace[n].db, token)
  {
    RunStaysFresh(trace, acts, n);
    assert IsCurrent(trace[n].db, token.id.value, trace[n].cache.entries[token.id.value].user);
  }

  /** A read that began before a forget is never stored, whichever user was forgotten. */
  lemma ReadsBeforeAForgetAreDropped(trace: seq<System>, acts: seq<Act>, f: nat, n: nat, r: RequestId)
    requires IsRun(trace, acts) && Fresh(trace[0]) && f < n < |acts| && acts[f].Forget?
    requires r in trace[f].inFlight && acts[n].Finish? && acts[n].r == r
    requires forall k :: f <= k < n ==> !(acts[k].Finish? && acts[k].r == r)
    ensures trace[n + 1].cache == trace[n].cache
  {
    RunStaysFresh(trace, acts, f);
    assert FreshRead(trace[f], trace[f].inFlight[r]);
    StaysBehind(trace, acts, f + 1, n, r, trace[f].inFlight[r].generation);
  }

  lemma {:induction false} StaysBehind(trace: seq<System>, acts: seq<Act>, from: nat, n: nat, r: RequestId,
                                       generation: nat)
    requires IsRun(trace, acts) && from <= n < |trace| && r in trace[from].inFlight
    requires trace[from].inFlight[r].generation == generation < trace[from].cache.generation
    requires forall k :: from <= k < n ==> !(acts[k].Finish? && acts[k].r == r)
    ensures r in trace[n].inFlight && trace[n].inFlight[r].generation == generation < trace[n].cache.generation
  {
    if from < n {
      StaysBehind(trace, acts, from, n - 1, r, generation);
      assert !(acts[n - 1].Finish? && acts[n - 1].r == r);
      assert trace[n] == Next(trace[n - 1], acts[n - 1]);
    }
  }
}
