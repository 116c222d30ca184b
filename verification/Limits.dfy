/** The fixed-window rate limiter, in memory and in a database. */
module Limits {
  import opened Models

  datatype Key = Key(text: string)

  /** One request: who, and the clock at that moment. */
  datatype Call = Call(key: Key, now: real)

  datatype Answer = Answer(granted: bool, remaining: nat)

  datatype Counter = Counter(window: int, count: nat)

  type Counters = map<Key, Counter>

  datatype Limiter = Limiter(limit: nat, seconds: nat)

  predicate LimiterOk(p: Limiter) { p.limit > 0 && p.seconds > 0 }

  function Window(p: Limiter, now: real): int
    requires LimiterOk(p)
  {
    (now / (p.seconds as real)).Floor
  }

  function AnswerFor(p: Limiter, count: nat): Answer {
    Answer(count <= p.limit, if p.limit > count then p.limit - count else 0)
  }

  // ---- in memory ----

  function Bump(entries: Counters, key: Key, window: int): Counter {
    if key in entries && entries[key].window == window then Counter(window, entries[key].count + 1) else Counter(window, 1)
  }

  /** `FixedWindowLimiter.allow` */
  function Allow(p: Limiter, entries: Counters, c: Call): (Counters, Answer)
    requires LimiterOk(p)
  {
    var next := Bump(entries, c.key, Window(p, c.now));
    (entries[c.key := next], AnswerFor(p, next.count))
  }

  class FixedWindowLimiter {
    const p: Limiter
    var entries: Counters

    constructor (p: Limiter)
      ensures this.p == p && entries == map[]
    {
      this.p, entries := p, map[];
    }

    method AllowCall(c: Call) returns (answer: Answer)
      requires LimiterOk(p)
      modifies this
      ensures (entries, answer) == Allow(p, old(entries), c)
    {
      var window := Window(p, c.now);
      var existing, count := window, 0;
      if c.key in entries { existing, count := entries[c.key].window, entries[c.key].count; }
      if existing != window { existing, count := window, 0; }
      count := count + 1;
      entries := entries[c.key := Counter(existing, count)];
      answer := AnswerFor(p, count);
    }
  }

  // ---- in a database ----

  /** `str(key or "unknown")[:256]` */
  function ClientKey(key: Key): Key {
    var text := if key.text == "" then "unknown" else key.text;
    Key(if |text| <= 256 then text else text[..256])
  }

  /** `DurableFixedWindowLimiter.allow` */
  function DurableAllow(p: Limiter, rows: Counters, c: Call): (Counters, Answer)
    requires LimiterOk(p)
  {
    Allow(p, rows, Call(ClientKey(c.key), c.now))
  }

  /** `prune`: rows of windows before the cutoff go. */
  function Pruned(p: Limiter, rows: Counters, keep: int, now: real): Counters
    requires LimiterOk(p)
  {
    map k | k in rows && rows[k].window >= Window(p, now) - keep :: rows[k]
  }

  class DurableFixedWindowLimiter {
    const p: Limiter
    var rows: Counters

    constructor (p: Limiter, rows: Counters)
      ensures this.p == p && this.rows == rows
    {
      this.p, this.rows := p, rows;
    }

    method AllowCall(c: Call) returns (answer: Answer)
      requires LimiterOk(p)
      modifies this
      ensures (rows, answer) == DurableAllow(p, old(rows), c)
    {
      var window, key := Window(p, c.now), ClientKey(c.key);
      var count;
      if key !in rows || rows[key].window != window {
        count := 1;
        rows := rows[key := Counter(window, 1)];
      } else {
        count := rows[key].count + 1;
        rows := rows[key := Counter(window, count)];
      }
      answer := AnswerFor(p, count);
    }

    method Prune(keep: int, now: real) returns (removed: nat)
      requires LimiterOk(p) && keep >= 1
      modifies this
      ensures rows == Pruned(p, old(rows), keep, now) && removed == |old(rows)| - |rows|
    {
      var kept := Pruned(p, rows, keep, now);
      assert kept.Keys <= rows.Keys;
      SubsetSmaller(kept.Keys, rows.Keys);
      removed := |rows| - |kept|;
      rows := kept;
    }
  }

  // ---- the reference meaning ----

  ghost predicate Monotone(calls: seq<Call>) {
    forall i, j :: 0 <= i < j < |calls| ==> calls[i].now <= calls[j].now
  }

  /** How many of these requests were by this key in this window. */
  function Requests(p: Limiter, calls: seq<Call>, key: Key, window: int): nat
    requires LimiterOk(p)
  {
    if calls == [] then 0
    else
      var last := calls[|calls| - 1];
      Requests(p, calls[..|calls| - 1], key, window) + if last.key == key && Window(p, last.now) == window then 1 else 0
  }

  function After(p: Limiter, calls: seq<Call>): Counters
    requires LimiterOk(p)
  {
    if calls == [] then map[] else Allow(p, After(p, calls[..|calls| - 1]), calls[|calls| - 1]).0
  }

  /** The answer to a request, given those before it. */
  function AnswerTo(p: Limiter, before: seq<Call>, c: Call): Answer
    requires LimiterOk(p)
  {
    Allow(p, After(p, before), c).1
  }

  lemma WindowMonotone(p: Limiter, a: real, b: real)
    requires LimiterOk(p) && a <= b
    ensures Window(p, a) <= Window(p, b)
    ensures b <= a + p.seconds as real ==> Window(p, b) <= Window(p, a) + 1
  {
    var w := p.seconds as real;
    DivideOrder(a, b, w);
    if b <= a + w {
      DivideOrder(b, a + w, w);
      assert (a / w + 1.0) * w == a + w;
      Cancel(a + w, a / w + 1.0, w);
    }
  }

  lemma Cancel(product: real, q: real, w: real)
    requires w > 0.0 && q * w == product
    ensures product / w == q
  {
    var d := product / w;
    assert d * w == product;
    assert (d - q) * w == 0.0;
    assert d - q > 0.0 ==> (d - q) * w > 0.0;
    assert d - q < 0.0 ==> (q - d) * w > 0.0;
  }

  lemma DivideOrder(a: real, b: real, w: real)
    requires a <= b && w > 0.0
    ensures a / w <= b / w
  {
    assert b / w - a / w == (b - a) / w;
  }

  /** The counters: for every key its latest window and the requests in it. */
  ghost predicate Counts(p: Limiter, calls: seq<Call>, entries: Counters)
    requires LimiterOk(p)
  {
    && (forall key, w :: key !in entries ==> Requests(p, calls, key, w) == 0)
    && (forall key :: key in entries ==> entries[key].count == Requests(p, calls, key, entries[key].window))
    && (forall key, w :: key in entries && w > entries[key].window ==> Requests(p, calls, key, w) == 0)
    && (forall key :: key in entries ==> calls != [] && entries[key].window <= Window(p, calls[|calls| - 1].now))
  }

  lemma {:induction false} AfterCounts(p: Limiter, calls: seq<Call>)
    requires LimiterOk(p) && Monotone(calls)
    ensures Counts(p, calls, After(p, calls))
  {
    if calls != [] {
      var init, last := calls[..|calls| - 1], calls[|calls| - 1];
      AfterCounts(p, init);
      if init != [] { WindowMonotone(p, init[|init| - 1].now, last.now); }
      var entries, window := After(p, init), Window(p, last.now);
      forall key, w ensures Requests(p, calls, key, w)
                            == Requests(p, init, key, w) + if last.key == key && window == w then 1 else 0 { }
      assert last.key in entries ==> entries[last.key].window <= window;
      assert (last.key in entries ==> entries[last.key].window < window) ==> Requests(p, init, last.key, window) == 0;
    }
  }

  /** With a clock that does not go back, a request is granted exactly if fewer than the limit were
      made by its key in its window before, and the remainder is what is left after it. */
  lemma GrantedIff(p: Limiter, before: seq<Call>, c: Call)
    requires LimiterOk(p) && Monotone(before + [c])
    ensures var used := Requests(p, before, c.key, Window(p, c.now));
            && (AnswerTo(p, before, c).granted <==> used < p.limit)
            && AnswerTo(p, before, c).remaining == if used < p.limit then p.limit - used - 1 else 0
  {
    assert Monotone(before) by { assert forall i :: 0 <= i < |before| ==> before[i] == (before + [c])[i]; }
    AfterCounts(p, before);
    if before != [] {
      assert (before + [c])[|before| - 1] == before[|before| - 1] && (before + [c])[|before|] == c;
      WindowMonotone(p, before[|before| - 1].now, c.now);
    }
  }

  // ---- windows as intervals of time ----

  /** Where a multiple of the window starts. */
  function Edge(p: Limiter, k: int): (start: real) {
    k as real * p.seconds as real
  }

  lemma EdgeOrder(p: Limiter, now: real, k: int)
    requires LimiterOk(p)
    ensures Edge(p, k) <= now <==> k as real <= now / p.seconds as real
  {
    var w: real := p.seconds as real;
    var q := now / w;
    var a: real := k as real;
    assert q * w == now;
    if a <= q { assert (q - a) * w >= 0.0; } else { assert (a - q) * w > 0.0; }
    assert (q - a) * w == q * w - a * w;
    assert Edge(p, k) == a * w;
  }

  /** The window number is that of the one interval of the limiter's length that contains the moment. */
  lemma WindowIff(p: Limiter, now: real, k: int)
    requires LimiterOk(p)
    ensures Window(p, now) == k <==> Edge(p, k) <= now < Edge(p, k + 1)
  {
    EdgeOrder(p, now, k);
    EdgeOrder(p, now, k + 1);
    var q := now / p.seconds as real;
    assert q.Floor == k <==> k as real <= q < (k + 1) as real;
  }

  lemma EdgesGrow(p: Limiter, a: int, b: int)
    requires LimiterOk(p) && a <= b
    ensures Edge(p, a) <= Edge(p, b)
  {
    assert (b - a) as real * p.seconds as real >= 0.0;
    assert (b - a) as real * p.seconds as real == b as real * p.seconds as real - a as real * p.seconds as real;
  }

  /** How many of these requests were by this key from one moment until just before another. */
  function Made(calls: seq<Call>, key: Key, from: real, until: real): nat {
    if calls == [] then 0
    else
      var last := calls[|calls| - 1];
      Made(calls[..|calls| - 1], key, from, until) + if last.key == key && from <= last.now < until then 1 else 0
  }

  lemma {:induction false} RequestsAreMade(p: Limiter, calls: seq<Call>, key: Key, k: int)
    requires LimiterOk(p)
    ensures Requests(p, calls, key, k) == Made(calls, key, Edge(p, k), Edge(p, k + 1))
  {
    if calls != [] {
      RequestsAreMade(p, calls[..|calls| - 1], key, k);
      WindowIff(p, calls[|calls| - 1].now, k);
    }
  }

  /** With a clock that does not go back, a request is granted exactly if fewer than the limit were
      made by its key before it in the interval of the clock it falls into. */
  lemma GrantedInInterval(p: Limiter, before: seq<Call>, c: Call, k: int)
    requires LimiterOk(p) && Monotone(before + [c])
    requires Edge(p, k) <= c.now < Edge(p, k + 1)
    ensures var used := Made(before, c.key, Edge(p, k), Edge(p, k + 1));
            && (AnswerTo(p, before, c).granted <==> used < p.limit)
            && AnswerTo(p, before, c).remaining == if used < p.limit then p.limit - used - 1 else 0
  {
    WindowIff(p, c.now, k);
    GrantedIff(p, before, c);
    RequestsAreMade(p, before, c.key, k);
  }

  /** The first request of a key in a new interval is granted, whatever came before. */
  lemma FreshIntervalGrants(p: Limiter, before: seq<Call>, c: Call, k: int)
    requires LimiterOk(p) && Monotone(before + [c])
    requires Edge(p, k) <= c.now < Edge(p, k + 1)
    requires forall i :: 0 <= i < |before| && before[i].key == c.key ==> before[i].now < Edge(p, k)
    ensures AnswerTo(p, before, c).granted
  {
    GrantedInInterval(p, before, c, k);
    NoneMade(before, c.key, Edge(p, k), Edge(p, k + 1));
  }

  lemma {:induction false} NoneMade(calls: seq<Call>, key: Key, from: real, until: real)
    requires forall i :: 0 <= i < |calls| && calls[i].key == key ==> calls[i].now < from
    ensures Made(calls, key, from, until) == 0
  {
    if calls != [] {
      assert forall i :: 0 <= i < |calls| - 1 ==> calls[..|calls| - 1][i] == calls[i];
      NoneMade(calls[..|calls| - 1], key, from, until);
    }
  }

  /** Grants to a key in one window, and between two moments. */
  function Grants(p: Limiter, calls: seq<Call>, key: Key, window: int): nat
    requires LimiterOk(p)
  {
    if calls == [] then 0
    else
      var init, last := calls[..|calls| - 1], calls[|calls| - 1];
      Grants(p, init, key, window)
      + if last.key == key && Window(p, last.now) == window && AnswerTo(p, init, last).granted then 1 else 0
  }

  function GrantsBetween(p: Limiter, calls: seq<Call>, key: Key, from: real, upTo: real): nat
    requires LimiterOk(p)
  {
    if calls == [] then 0
    else
      var init, last := calls[..|calls| - 1], calls[|calls| - 1];
      GrantsBetween(p, init, key, from, upTo)
      + if last.key == key && from <= last.now <= upTo && AnswerTo(p, init, last).granted then 1 else 0
  }

  lemma MonotoneInit(calls: seq<Call>)
    requires Monotone(calls) && calls != []
    ensures Monotone(calls[..|calls| - 1])
  {
  }

  /** Each key gets exactly its first `limit` requests of a window. */
  lemma {:induction false} GrantsPerWindow(p: Limiter, calls: seq<Call>, key: Key, window: int)
    requires LimiterOk(p) && Monotone(calls)
    ensures Grants(p, calls, key, window)
            == if Requests(p, calls, key, window) < p.limit then Requests(p, calls, key, window) else p.limit
  {
    if calls != [] {
      var init, last := calls[..|calls| - 1], calls[|calls| - 1];
      MonotoneInit(calls);
      GrantsPerWindow(p, init, key, window);
      assert init + [last] == calls;
      GrantedIff(p, init, last);
    }
  }

  lemma {:induction false} BetweenTwoWindows(p: Limiter, calls: seq<Call>, key: Key, from: real, upTo: real)
    requires LimiterOk(p) && Monotone(calls) && upTo <= from + p.seconds as real
    ensures GrantsBetween(p, calls, key, from, upTo)
            <= Grants(p, calls, key, Window(p, from)) + Grants(p, calls, key, Window(p, from) + 1)
  {
    if calls != [] {
      var last := calls[|calls| - 1];
      MonotoneInit(calls);
      BetweenTwoWindows(p, calls[..|calls| - 1], key, from, upTo);
      if from <= last.now <= upTo { WindowMonotone(p, from, last.now); }
    }
  }

  /** In any closed interval as long as the window a key gets at most twice the limit. */
  lemma AtMostTwiceTheLimit(p: Limiter, calls: seq<Call>, key: Key, from: real, upTo: real)
    requires LimiterOk(p) && Monotone(calls) && upTo <= from + p.seconds as real
    ensures GrantsBetween(p, calls, key, from, upTo) <= 2 * p.limit
  {
    BetweenTwoWindows(p, calls, key, from, upTo);
    GrantsPerWindow(p, calls, key, Window(p, from));
    GrantsPerWindow(p, calls, key, Window(p, from) + 1);
  }

  // ---- durable against in-memory ----

  datatype Op = Request(call: Call) | PruneOp(keep: int, now: real)

  function TimeOf(op: Op): real { match op case Request(c) => c.now case PruneOp(_, now) => now }

  ghost predicate Clocked(ops: seq<Op>) {
    && (forall i, j :: 0 <= i < j < |ops| ==> TimeOf(ops[i]) <= TimeOf(ops[j]))
    && (forall i :: 0 <= i < |ops| && ops[i].PruneOp? ==> ops[i].keep >= 1)
  }

  function DurableAfter(p: Limiter, ops: seq<Op>): Counters
    requires LimiterOk(p)
  {
    if ops == [] then map[]
    else
      match ops[|ops| - 1]
      case Request(c) => DurableAllow(p, DurableAfter(p, ops[..|ops| - 1]), c).0
      case PruneOp(keep, now) => Pruned(p, DurableAfter(p, ops[..|ops| - 1]), keep, now)
  }

  /** The requests alone, under their client keys. */
  function Calls(ops: seq<Op>): seq<Call> {
    if ops == [] then []
    else
      match ops[|ops| - 1]
      case Request(c) => Calls(ops[..|ops| - 1]) + [Call(ClientKey(c.key), c.now)]
      case PruneOp(_, _) => Calls(ops[..|ops| - 1])
  }

  /** The rows are the in-memory entries, but for entries of windows that are over. */
  ghost predicate Matches(p: Limiter, rows: Counters, entries: Counters, current: int)
    requires LimiterOk(p)
  {
    && (forall k :: k in rows ==> k in entries && rows[k] == entries[k])
    && (forall k :: k in entries && k !in rows ==> entries[k].window < current)
  }

  lemma {:induction false} DurableMatches(p: Limiter, ops: seq<Op>, now: real)
    requires LimiterOk(p) && Clocked(ops) && forall i :: 0 <= i < |ops| ==> TimeOf(ops[i]) <= now
    ensures Matches(p, DurableAfter(p, ops), After(p, Calls(ops)), Window(p, now))
  {
    if ops != [] {
      var init, last := ops[..|ops| - 1], ops[|ops| - 1];
      DurableMatches(p, init, TimeOf(last));
      WindowMonotone(p, TimeOf(last), now);
      if last.Request? {
        assert Calls(ops)[..|Calls(init)|] == Calls(init);
      }
    }
  }

  /** With a clock that does not go back, and prunes anywhere, the durable limiter answers every
      request as the in-memory one does for the same requests under their client keys. */
  lemma DurableAnswersAlike(p: Limiter, ops: seq<Op>, c: Call)
    requires LimiterOk(p) && Clocked(ops + [Request(c)])
    ensures DurableAllow(p, DurableAfter(p, ops), c).1 == AnswerTo(p, Calls(ops), Call(ClientKey(c.key), c.now))
  {
    assert forall i :: 0 <= i < |ops| ==> ops[i] == (ops + [Request(c)])[i];
    assert (ops + [Request(c)])[|ops|] == Request(c);
    assert forall i :: 0 <= i < |ops| ==> TimeOf(ops[i]) <= TimeOf(Request(c));
    DurableMatches(p, ops, c.now);
  }

  lemma {:induction false} CallsClocked(ops: seq<Op>, now: real)
    requires Clocked(ops) && forall i :: 0 <= i < |ops| ==> TimeOf(ops[i]) <= now
    ensures Monotone(Calls(ops)) && forall i :: 0 <= i < |Calls(ops)| ==> Calls(ops)[i].now <= now
  {
    if ops != [] { CallsClocked(ops[..|ops| - 1], TimeOf(ops[|ops| - 1])); }
  }

  /** So the durable limiter, too, grants a request exactly if fewer than the limit came before it under
      its client key in the interval it falls into. */
  lemma DurableGrantedInInterval(p: Limiter, ops: seq<Op>, c: Call, k: int)
    requires LimiterOk(p) && Clocked(ops + [Request(c)])
    requires Edge(p, k) <= c.now < Edge(p, k + 1)
    ensures var used := Made(Calls(ops), ClientKey(c.key), Edge(p, k), Edge(p, k + 1));
            && (DurableAllow(p, DurableAfter(p, ops), c).1.granted <==> used < p.limit)
            && DurableAllow(p, DurableAfter(p, ops), c).1.remaining == if used < p.limit then p.limit - used - 1 else 0
  {
    assert forall i :: 0 <= i < |ops| ==> ops[i] == (ops + [Request(c)])[i];
    assert (ops + [Request(c)])[|ops|] == Request(c);
    assert forall i :: 0 <= i < |ops| ==> TimeOf(ops[i]) <= TimeOf(Request(c));
    CallsClocked(ops, c.now);
    DurableAnswersAlike(p, ops, c);
    GrantedInInterval(p, Calls(ops), Call(ClientKey(c.key), c.now), k);
  }

  /** A prune at `now` drops exactly the rows of windows that ended so long ago that even `keep`
      windows later the current one had not begun. */
  lemma PrunedIff(p: Limiter, rows: Counters, keep: int, now: real, k: Key)
    requires LimiterOk(p)
    ensures k in Pruned(p, rows, keep, now) <==> k in rows && now < Edge(p, rows[k].window + keep + 1)
    ensures k in Pruned(p, rows, keep, now) ==> Pruned(p, rows, keep, now)[k] == rows[k]
  {
    var current := Window(p, now);
    WindowIff(p, now, current);
    if k in rows {
      var last := rows[k].window + keep;
      if last >= current { EdgesGrow(p, current + 1, last + 1); } else { EdgesGrow(p, last + 1, current); }
    }
  }

  /** The client key is the text, or `unknown` for none, cut after 256 characters. */
  lemma ClientKeyMeans(key: Key)
    ensures |ClientKey(key).text| == if |key.text| == 0 then 7 else if |key.text| <= 256 then |key.text| else 256
    ensures key.text != "" ==> forall i :: 0 <= i < |ClientKey(key).text| ==> ClientKey(key).text[i] == key.text[i]
    ensures key.text == "" ==> ClientKey(key).text == "unknown"
  {
  }

  /** A key is its own client key exactly if it is not empty and not longer than 256 characters. */
  lemma OwnClientKeyIff(key: Key)
    ensures ClientKey(key) == key <==> 0 < |key.text| <= 256
  {
    if key.text == "" { assert ClientKey(key).text == "unknown"; }
    else if |key.text| > 256 { assert |ClientKey(key).text| == 256; }
  }
}
