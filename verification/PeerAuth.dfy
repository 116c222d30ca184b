/** Replay protection of signed peer requests, in memory and in a database. */
module PeerAuth {
  import opened Models

  /** `authentic`: the validator's key signed this method, path, body, timestamp and nonce. */
  datatype PeerRequest = PeerRequest(validator: Address, timestamp: int, nonce: string, content: string, authentic: bool)

  /** `address:nonce`; an address contains no colon. */
  datatype ReplayKey = ReplayKey(validator: Address, nonce: string)

  type Cache = map<ReplayKey, int>

  datatype Config = Config(validators: set<Address>, skew: int)

  datatype AuthError = OutsideWindow | BadNonce | NotAValidator | BadSignature | Replayed

  datatype Backend = Memory | Database

  function KeyOf(r: PeerRequest): ReplayKey { ReplayKey(r.validator, r.nonce) }

  function Fresher(cache: Cache, cutoff: int): Cache {
    map k | k in cache && cache[k] >= cutoff :: cache[k]
  }

  /** Pruning, then the look-up and the record. On a replay the in-memory cache stays pruned while
      the database rolls the pruning back. */
  function CheckReplay(backend: Backend, cache: Cache, key: ReplayKey, now: int, retention: int): (Cache, bool) {
    var kept := Fresher(cache, now - retention);
    if key !in kept then (kept[key := now], true)
    else if backend == Memory then (kept, false)
    else (cache, false)
  }

  /** The checks of `verify` before the replay cache is asked. */
  function Refusal(c: Config, r: PeerRequest, now: int): Option<AuthError> {
    if now - r.timestamp > c.skew || r.timestamp - now > c.skew then Some(OutsideWindow)
    else if |r.nonce| < 16 || |r.nonce| > 128 then Some(BadNonce)
    else if r.validator !in c.validators then Some(NotAValidator)
    else if !r.authentic then Some(BadSignature)
    else None
  }

  /** `verify`, with the retention as a parameter. */
  function VerifyWith(backend: Backend, retention: int, c: Config, cache: Cache, r: PeerRequest, now: int): (Cache, Option<AuthError>) {
    var refusal := Refusal(c, r, now);
    if refusal.Some? then (cache, refusal)
    else
      var (next, ok) := CheckReplay(backend, cache, KeyOf(r), now, retention);
      (next, if ok then None else Some(Replayed))
  }

  function Verify(backend: Backend, c: Config, cache: Cache, r: PeerRequest, now: int): (Cache, Option<AuthError>) {
    VerifyWith(backend, 2 * c.skew, c, cache, r, now)
  }

  class ReplayNonceStore {
    var rows: Cache

    constructor (rows: Cache)
      ensures this.rows == rows
    {
      this.rows := rows;
    }

    method CheckAndRecord(key: ReplayKey, now: int, retention: int) returns (ok: bool)
      modifies this
      ensures (rows, ok) == CheckReplay(Database, old(rows), key, now, retention)
    {
      var before := rows;
      rows := Fresher(rows, now - retention);
      if key in rows {
        rows := before;
        return false;
      }
      rows := rows[key := now];
      ok := true;
    }
  }

  class PeerAuthenticator {
    const c: Config
    const store: ReplayNonceStore?
    var seen: Cache

    constructor (c: Config, store: ReplayNonceStore?)
      ensures this.c == c && this.store == store && seen == map[]
    {
      this.c, this.store, seen := c, store, map[];
    }

    method Prune(now: int)
      modifies this
      ensures seen == Fresher(old(seen), now - c.skew * 2)
    {
      seen := Fresher(seen, now - c.skew * 2);
    }

    method VerifyRequest(r: PeerRequest, now: int) returns (error: Option<AuthError>)
      modifies this, store
      ensures store == null ==> (seen, error) == Verify(Memory, c, old(seen), r, now)
      ensures store != null ==> (store.rows, error) == Verify(Database, c, old(store.rows), r, now) && seen == old(seen)
    {
      error := Refusal(c, r, now);
      if error.Some? { return; }
      var retention := c.skew * 2;
      if store != null {
        var ok := store.CheckAndRecord(KeyOf(r), now, retention);
        error := if ok then None else Some(Replayed);
      } else {
        Prune(now);
        if KeyOf(r) in seen { return Some(Replayed); }
        seen := seen[KeyOf(r) := now];
        error := None;
      }
    }
  }

  // ---- runs ----

  datatype Call = Call(request: PeerRequest, now: int)

  ghost predicate Monotone(calls: seq<Call>) {
    forall i, j :: 0 <= i < j < |calls| ==> calls[i].now <= calls[j].now
  }

  function CacheAfter(backend: Backend, retention: int, c: Config, calls: seq<Call>): Cache {
    if calls == [] then map[]
    else
      var last := calls[|calls| - 1];
      VerifyWith(backend, retention, c, CacheAfter(backend, retention, c, calls[..|calls| - 1]), last.request, last.now).0
  }

  function AnswerAt(backend: Backend, retention: int, c: Config, calls: seq<Call>, i: nat): Option<AuthError>
    requires i < |calls|
  {
    VerifyWith(backend, retention, c, CacheAfter(backend, retention, c, calls[..i]), calls[i].request, calls[i].now).1
  }

  lemma CacheSnoc(backend: Backend, retention: int, c: Config, calls: seq<Call>, i: nat)
    requires i < |calls|
    ensures CacheAfter(backend, retention, c, calls[..i + 1])
            == VerifyWith(backend, retention, c, CacheAfter(backend, retention, c, calls[..i]), calls[i].request, calls[i].now).0
  {
    assert calls[..i + 1][..i] == calls[..i];
  }

  /** Once accepted at `now`, the key stays in the cache as long as no later call is more than the
      retention after it. */
  lemma {:induction false} AcceptedStays(backend: Backend, retention: int, c: Config, calls: seq<Call>, i: nat, j: nat)
    requires i < j <= |calls| && Monotone(calls) && AnswerAt(backend, retention, c, calls, i) == None
    requires forall k :: i < k < j ==> calls[k].now <= calls[i].now + retention
    ensures var cache := CacheAfter(backend, retention, c, calls[..j]);
            KeyOf(calls[i].request) in cache && cache[KeyOf(calls[i].request)] >= calls[i].now
    decreases j
  {
    CacheSnoc(backend, retention, c, calls, j - 1);
    if i < j - 1 { AcceptedStays(backend, retention, c, calls, i, j - 1); }
  }

  /** No request is accepted twice, whichever backend keeps the cache. */
  lemma AcceptedOnce(backend: Backend, retention: int, c: Config, calls: seq<Call>, i: nat, j: nat)
    requires Monotone(calls) && i < j < |calls| && calls[i].request == calls[j].request && retention >= 2 * c.skew
    ensures !(AnswerAt(backend, retention, c, calls, i) == None && AnswerAt(backend, retention, c, calls, j) == None)
  {
    if AnswerAt(backend, retention, c, calls, i) == None && AnswerAt(backend, retention, c, calls, j) == None {
      assert calls[j].now <= calls[j].request.timestamp + c.skew <= calls[i].now + 2 * c.skew;
      AcceptedStays(backend, retention, c, calls, i, j);
    }
  }

  /** Every run accepts each request at most once. */
  ghost predicate AtMostOnce(backend: Backend, retention: int, c: Config) {
    forall calls: seq<Call>, i: nat, j: nat :: Monotone(calls) && 0 <= i < j < |calls| && calls[i].request == calls[j].request ==>
      !(AnswerAt(backend, retention, c, calls, i) == None && AnswerAt(backend, retention, c, calls, j) == None)
  }

  const NONCE := "0123456789abcdef"

  lemma ShorterRetentionReplays(backend: Backend, retention: int, c: Config, v: Address)
    requires v in c.validators && c.skew >= 0 && retention < 2 * c.skew
    ensures !AtMostOnce(backend, retention, c)
  {
    var r := PeerRequest(v, 0, NONCE, "", true);
    var calls := [Call(r, -c.skew), Call(r, c.skew)];
    assert calls[..0] == [] && calls[..1] == [calls[0]];
    assert CacheAfter(backend, retention, c, []) == map[];
    assert AnswerAt(backend, retention, c, calls, 0) == None;
    CacheSnoc(backend, retention, c, calls, 0);
    assert CacheAfter(backend, retention, c, calls[..1]) == map[KeyOf(r) := -c.skew];
    assert Fresher(map[KeyOf(r) := -c.skew], c.skew - retention) == map[];
    assert AnswerAt(backend, retention, c, calls, 1) == None;
    assert Monotone(calls) && calls[0].request == calls[1].request;
  }

  /** Twice the skew is exactly enough: with a clock that does not go back, requests are accepted at
      most once if and only if the retention is at least that. */
  lemma AtMostOnceIff(backend: Backend, retention: int, c: Config)
    requires c.validators != {} && c.skew >= 0
    ensures AtMostOnce(backend, retention, c) <==> retention >= 2 * c.skew
  {
    if retention >= 2 * c.skew {
      forall calls: seq<Call>, i: nat, j: nat | Monotone(calls) && 0 <= i < j < |calls| && calls[i].request == calls[j].request
        ensures !(AnswerAt(backend, retention, c, calls, i) == None && AnswerAt(backend, retention, c, calls, j) == None)
      {
        AcceptedOnce(backend, retention, c, calls, i, j);
      }
    } else {
      var v :| v in c.validators;
      ShorterRetentionReplays(backend, retention, c, v);
    }
  }

  // ---- exactly what is accepted ----

  /** The last moment this key was accepted, if it was. */
  ghost predicate AcceptedSince(backend: Backend, retention: int, c: Config, calls: seq<Call>, key: ReplayKey, since: int) {
    exists i :: 0 <= i < |calls| && KeyOf(calls[i].request) == key && calls[i].now >= since && AnswerAt(backend, retention, c, calls, i) == None
  }

  lemma AcceptedSnoc(backend: Backend, retention: int, c: Config, init: seq<Call>, last: Call, key: ReplayKey, since: int)
    ensures AcceptedSince(backend, retention, c, init + [last], key, since)
            <==> || AcceptedSince(backend, retention, c, init, key, since)
                 || (KeyOf(last.request) == key && last.now >= since
                     && VerifyWith(backend, retention, c, CacheAfter(backend, retention, c, init), last.request, last.now).1 == None)
  {
    var calls := init + [last];
    assert calls[..|init|] == init && calls[|init|] == last;
    forall i | 0 <= i < |init| ensures AnswerAt(backend, retention, c, calls, i) == AnswerAt(backend, retention, c, init, i) {
      assert calls[..i] == init[..i] && calls[i] == init[i];
    }
    if AcceptedSince(backend, retention, c, init, key, since) {
      var i :| 0 <= i < |init| && KeyOf(init[i].request) == key && init[i].now >= since && AnswerAt(backend, retention, c, init, i) == None;
      assert KeyOf(calls[i].request) == key && AnswerAt(backend, retention, c, calls, i) == None;
    }
    assert AnswerAt(backend, retention, c, calls, |init|)
           == VerifyWith(backend, retention, c, CacheAfter(backend, retention, c, init), last.request, last.now).1;
  }

  ghost predicate HeldSince(cache: Cache, key: ReplayKey, since: int) {
    key in cache && cache[key] >= since
  }

  /** A call changes what is held of late exactly by accepting it. */
  lemma HeldNext(backend: Backend, retention: int, c: Config, cache: Cache, r: PeerRequest, now: int, key: ReplayKey, since: int)
    requires since >= now - retention
    ensures var (next, error) := VerifyWith(backend, retention, c, cache, r, now);
            HeldSince(next, key, since) <==> HeldSince(cache, key, since) || (KeyOf(r) == key && now >= since && error == None)
  {
  }

  /** The cache holds a key as of a recent moment exactly if it was accepted then or later. */
  lemma {:induction false} CacheIsAccepted(backend: Backend, retention: int, c: Config, calls: seq<Call>, key: ReplayKey, since: int)
    requires Monotone(calls) && (calls != [] ==> since >= calls[|calls| - 1].now - retention)
    ensures HeldSince(CacheAfter(backend, retention, c, calls), key, since) <==> AcceptedSince(backend, retention, c, calls, key, since)
  {
    if calls != [] {
      var init, last := calls[..|calls| - 1], calls[|calls| - 1];
      assert calls == init + [last];
      CacheIsAccepted(backend, retention, c, init, key, since);
      AcceptedSnoc(backend, retention, c, init, last, key, since);
      HeldNext(backend, retention, c, CacheAfter(backend, retention, c, init), last.request, last.now, key, since);
    }
  }

  /** A request is accepted exactly if its timestamp is within the skew, its nonce has 16 to 128
      characters, it comes from a configured validator who signed it, and no request with its validator
      and nonce was accepted within the retention. */
  lemma AcceptedIff(backend: Backend, retention: int, c: Config, calls: seq<Call>, r: PeerRequest, now: int)
    requires Monotone(calls + [Call(r, now)])
    ensures VerifyWith(backend, retention, c, CacheAfter(backend, retention, c, calls), r, now).1 == None
            <==> && r.timestamp - c.skew <= now <= r.timestamp + c.skew
                 && 16 <= |r.nonce| <= 128
                 && r.validator in c.validators && r.authentic
                 && !AcceptedSince(backend, retention, c, calls, ReplayKey(r.validator, r.nonce), now - retention)
  {
    var all := calls + [Call(r, now)];
    assert forall i :: 0 <= i < |calls| ==> all[i] == calls[i];
    assert all[|calls|] == Call(r, now);
    CacheIsAccepted(backend, retention, c, calls, KeyOf(r), now - retention);
  }

  /** Which complaint a refused request hears: the first that applies. */
  lemma RefusalsMean(backend: Backend, retention: int, c: Config, cache: Cache, r: PeerRequest, now: int)
    ensures var error := VerifyWith(backend, retention, c, cache, r, now).1;
            && (error == Some(OutsideWindow) <==> now < r.timestamp - c.skew || now > r.timestamp + c.skew)
            && (error == Some(BadNonce) <==> r.timestamp - c.skew <= now <= r.timestamp + c.skew && !(16 <= |r.nonce| <= 128))
            && (error == Some(NotAValidator) <==>
                  r.timestamp - c.skew <= now <= r.timestamp + c.skew && 16 <= |r.nonce| <= 128 && r.validator !in c.validators)
            && (error == Some(BadSignature) <==>
                  r.timestamp - c.skew <= now <= r.timestamp + c.skew && 16 <= |r.nonce| <= 128 && r.validator in c.validators && !r.authentic)
            && (error == Some(Replayed) <==>
                  && r.timestamp - c.skew <= now <= r.timestamp + c.skew && 16 <= |r.nonce| <= 128 && r.validator in c.validators && r.authentic
                  && HeldSince(cache, ReplayKey(r.validator, r.nonce), now - retention))
  {
  }

  // ---- the two backends ----

  /** The database holds the in-memory cache, and besides it only what is already too old. */
  ghost predicate Covers(db: Cache, memory: Cache, cutoff: int) {
    && (forall k :: k in memory ==> k in db && db[k] == memory[k])
    && (forall k :: k in db && k !in memory ==> db[k] < cutoff)
  }

  lemma {:induction false} BackendsCover(c: Config, retention: int, calls: seq<Call>, now: int)
    requires Monotone(calls) && (calls != [] ==> calls[|calls| - 1].now <= now)
    ensures Covers(CacheAfter(Database, retention, c, calls), CacheAfter(Memory, retention, c, calls), now - retention)
  {
    if calls != [] {
      var init, last := calls[..|calls| - 1], calls[|calls| - 1];
      BackendsCover(c, retention, init, last.now);
    }
  }

  /** With a clock that does not go back both backends give the same answer to every call. */
  lemma BackendsAnswerAlike(c: Config, retention: int, calls: seq<Call>, i: nat)
    requires Monotone(calls) && i < |calls|
    ensures AnswerAt(Memory, retention, c, calls, i) == AnswerAt(Database, retention, c, calls, i)
  {
    BackendsCover(c, retention, calls[..i], calls[i].now);
  }

  lemma TwoAccepted(backend: Backend, c: Config, a: PeerRequest, b: PeerRequest, calls: seq<Call>)
    requires c.skew >= 1 && KeyOf(a) != KeyOf(b) && |calls| > 1
    requires calls[0] == Call(a, 0) && calls[1] == Call(b, 2 * c.skew)
    requires Refusal(c, a, 0) == None && Refusal(c, b, 2 * c.skew) == None
    ensures CacheAfter(backend, 2 * c.skew, c, calls[..2]) == map[KeyOf(a) := 0, KeyOf(b) := 2 * c.skew]
  {
    assert calls[..0] == [];
    CacheSnoc(backend, 2 * c.skew, c, calls, 0);
    assert CacheAfter(backend, 2 * c.skew, c, calls[..1]) == map[KeyOf(a) := 0];
    CacheSnoc(backend, 2 * c.skew, c, calls, 1);
    assert Fresher(map[KeyOf(a) := 0], 0) == map[KeyOf(a) := 0];
  }

  lemma ReplayPrunesMemoryOnly(c: Config, a: PeerRequest, b: PeerRequest, calls: seq<Call>)
    requires c.skew >= 1 && KeyOf(a) != KeyOf(b) && |calls| > 2
    requires calls[0] == Call(a, 0) && calls[1] == Call(b, 2 * c.skew) && calls[2] == Call(b, 2 * c.skew + 1)
    requires Refusal(c, a, 0) == None && Refusal(c, b, 2 * c.skew) == None && Refusal(c, b, 2 * c.skew + 1) == None
    ensures CacheAfter(Memory, 2 * c.skew, c, calls[..3]) == map[KeyOf(b) := 2 * c.skew]
    ensures CacheAfter(Database, 2 * c.skew, c, calls[..3]) == map[KeyOf(a) := 0, KeyOf(b) := 2 * c.skew]
  {
    TwoAccepted(Memory, c, a, b, calls);
    TwoAccepted(Database, c, a, b, calls);
    CacheSnoc(Memory, 2 * c.skew, c, calls, 2);
    CacheSnoc(Database, 2 * c.skew, c, calls, 2);
    var two := map[KeyOf(a) := 0, KeyOf(b) := 2 * c.skew];
    assert Fresher(two, 1) == map[KeyOf(b) := 2 * c.skew];
  }

  /** If the clock goes back by one millisecond they can part: a refused replay has pruned one cache
      and not the other, so the one accepts again what the other still refuses. */
  lemma ClockBackParts(c: Config, a: PeerRequest, b: PeerRequest)
    requires c.skew >= 1 && KeyOf(a) != KeyOf(b)
    requires Refusal(c, a, 0) == None && Refusal(c, a, 2 * c.skew) == None
    requires Refusal(c, b, 2 * c.skew) == None && Refusal(c, b, 2 * c.skew + 1) == None
    ensures var calls := [Call(a, 0), Call(b, 2 * c.skew), Call(b, 2 * c.skew + 1), Call(a, 2 * c.skew)];
            && AnswerAt(Memory, 2 * c.skew, c, calls, 3) == None
            && AnswerAt(Database, 2 * c.skew, c, calls, 3) == Some(Replayed)
  {
    var s := 2 * c.skew;
    var calls := [Call(a, 0), Call(b, s), Call(b, s + 1), Call(a, s)];
    ReplayPrunesMemoryOnly(c, a, b, calls);
  }

  /** Such requests exist for every validator, so the clock must not go back at all. */
  lemma BackendsNeedMonotone(c: Config, v: Address) returns (calls: seq<Call>)
    requires c.skew >= 1 && v in c.validators
    ensures |calls| == 4 && Monotone(calls[..3]) && calls[3].now == calls[2].now - 1
    ensures AnswerAt(Memory, 2 * c.skew, c, calls, 3) != AnswerAt(Database, 2 * c.skew, c, calls, 3)
  {
    var a := PeerRequest(v, c.skew, NONCE, "", true);
    var b := PeerRequest(v, 2 * c.skew, NONCE + NONCE, "", true);
    ClockBackParts(c, a, b);
    calls := [Call(a, 0), Call(b, 2 * c.skew), Call(b, 2 * c.skew + 1), Call(a, 2 * c.skew)];
  }

  /** A restart empties the memory and keeps the database. What either had accepted is then accepted
      again by the memory for as long as its timestamp is fresh, and never by the database. */
  lemma RestartForgets(c: Config, calls: seq<Call>, i: nat, now: int)
    requires Monotone(calls) && i < |calls| && calls[|calls| - 1].now <= now
    requires AnswerAt(Memory, 2 * c.skew, c, calls, i) == None
    ensures var r := calls[i].request;
            && Verify(Memory, c, map[], r, now).1 == Refusal(c, r, now)
            && Verify(Database, c, CacheAfter(Database, 2 * c.skew, c, calls), r, now).1 != None
  {
    BackendsAnswerAlike(c, 2 * c.skew, calls, i);
    if Refusal(c, calls[i].request, now) == None {
      assert now <= calls[i].request.timestamp + c.skew <= calls[i].now + 2 * c.skew;
      AcceptedStays(Database, 2 * c.skew, c, calls, i, |calls|);
      assert calls[..|calls|] == calls;
    }
  }
}
