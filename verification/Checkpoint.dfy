/** Resumable monitoring checkpoints: a long run of samples summarised batch by batch. */
module Checkpoint {
  import opened Models

  /** Everything two samples of one session must share. */
  datatype Identity = Identity(sourceCommit: string, candidate: string, applicationGenesis: string,
                               consensusGenesis: string, chainId: string, inventory: string)

  /** A signed sample; `genuine` is the verdict on its format, hash and signature. */
  datatype Sample = Sample(identity: Identity, observedAt: int, gateSatisfied: bool, hash: string, genuine: bool)

  /** The running hash over all sample hashes. */
  datatype Head = Zero | Link(head: Head, sample: string)

  datatype Params = Params(session: string, target: int, ratio: real)

  /** What a checkpoint says about the whole session so far. */
  datatype Summary = Summary(params: Params, identity: Identity, count: nat, successes: nat,
                             first: int, last: int, head: Head, complete: bool)

  /** A checkpoint also names its predecessor and its own new samples. */
  datatype Checkpoint = Checkpoint(summary: Summary, previous: Option<Summary>, newHashes: seq<string>)

  predicate ParamsOk(p: Params) {
    p.target >= 86400 && 0.99 <= p.ratio <= 1.0
  }

  predicate SameIdentity(samples: seq<Sample>) {
    forall i :: 0 <= i < |samples| ==> samples[i].identity == samples[0].identity
  }

  predicate AllGenuine(samples: seq<Sample>) {
    forall i :: 0 <= i < |samples| ==> samples[i].genuine
  }

  predicate Increasing(samples: seq<Sample>) {
    forall i, j :: 0 <= i < j < |samples| ==> samples[i].observedAt < samples[j].observedAt
  }

  /** The previous checkpoint is of this session, identity and target, and older. */
  predicate Continues(p: Params, previous: Option<Summary>, samples: seq<Sample>)
    requires samples != []
  {
    previous.Some? ==>
      previous.value.params == p && previous.value.identity == samples[0].identity && previous.value.last < samples[0].observedAt
  }

  function Successes(samples: seq<Sample>): nat {
    if samples == [] then 0 else Successes(samples[..|samples| - 1]) + if samples[|samples| - 1].gateSatisfied then 1 else 0
  }

  function Extend(head: Head, samples: seq<Sample>): Head {
    if samples == [] then head else Link(Extend(head, samples[..|samples| - 1]), samples[|samples| - 1].hash)
  }

  function Hashes(samples: seq<Sample>): seq<string> {
    if samples == [] then [] else Hashes(samples[..|samples| - 1]) + [samples[|samples| - 1].hash]
  }

  function Duration(first: int, last: int): real {
    if last > first then (last - first) as real / 1000.0 else 0.0
  }

  predicate Complete(p: Params, first: int, last: int, successes: nat, count: nat)
    requires count > 0
  {
    Duration(first, last) >= p.target as real && successes as real / count as real >= p.ratio
  }

  predicate Accepts(p: Params, samples: seq<Sample>, previous: Option<Summary>) {
    && samples != [] && ParamsOk(p) && AllGenuine(samples) && SameIdentity(samples) && Increasing(samples)
    && Continues(p, previous, samples)
  }

  /** The summary after `samples`, on top of the previous one. */
  function Summarise(p: Params, samples: seq<Sample>, previous: Option<Summary>): Summary
    requires samples != []
  {
    var count := (if previous.Some? then previous.value.count else 0) + |samples|;
    var successes := (if previous.Some? then previous.value.successes else 0) + Successes(samples);
    var first := if previous.Some? then previous.value.first else samples[0].observedAt;
    var last := samples[|samples| - 1].observedAt;
    Summary(p, samples[0].identity, count, successes, first, last,
            Extend(if previous.Some? then previous.value.head else Zero, samples), Complete(p, first, last, successes, count))
  }

  /** `build_monitor_checkpoint` */
  method BuildMonitorCheckpoint(p: Params, samples: seq<Sample>, previous: Option<Summary>) returns (r: Option<Checkpoint>)
    ensures r.Some? <==> Accepts(p, samples, previous)
    ensures r.Some? ==> r.value == Checkpoint(Summarise(p, samples, previous), previous, Hashes(samples))
  {
    if samples == [] || !ParamsOk(p) { return None; }
    if !AllGenuine(samples) || !SameIdentity(samples) || !Increasing(samples) { return None; }
    var count, successes, first, head := 0, 0, samples[0].observedAt, Zero;
    if previous.Some? {
      var earlier := previous.value;
      if earlier.params.session != p.session || earlier.identity != samples[0].identity { return None; }
      if samples[0].observedAt <= earlier.last { return None; }
      if earlier.params != p { return None; }
      count, successes, first, head := earlier.count, earlier.successes, earlier.first, earlier.head;
    }
    ghost var start, startHead := successes, head;
    var newHashes: seq<string> := [];
    for i := 0 to |samples|
      invariant newHashes == Hashes(samples[..i]) && head == Extend(startHead, samples[..i])
      invariant successes == start + Successes(samples[..i])
    {
      assert samples[..i + 1][..i] == samples[..i];
      newHashes := newHashes + [samples[i].hash];
      head := Link(head, samples[i].hash);
      successes := successes + if samples[i].gateSatisfied then 1 else 0;
    }
    assert samples[..|samples|] == samples;
    count := count + |samples|;
    var last := samples[|samples| - 1].observedAt;
    r := Some(Checkpoint(Summary(p, samples[0].identity, count, successes, first, last, head, Complete(p, first, last, successes, count)),
                         previous, newHashes));
  }

  // ---- exactly what is accepted, and when it is complete ----

  /** A batch is accepted exactly if it is not empty, its samples are genuine, of one identity and in strictly
      increasing time, the target is at least a day at a rate of 99 to 100 percent, and a previous
      checkpoint is of the same session, target and identity and older. */
  lemma AcceptsIff(p: Params, samples: seq<Sample>, previous: Option<Summary>)
    ensures Accepts(p, samples, previous)
            <==> && |samples| > 0 && p.target >= 24 * 60 * 60 && 0.99 <= p.ratio <= 1.0
                 && (forall i :: 0 <= i < |samples| ==> samples[i].genuine && samples[i].identity == samples[0].identity)
                 && (forall i :: 0 < i < |samples| ==> samples[i - 1].observedAt < samples[i].observedAt)
                 && (previous.Some? ==>
                       && previous.value.params.session == p.session && previous.value.params.target == p.target
                       && previous.value.params.ratio == p.ratio
                       && previous.value.identity == samples[0].identity && previous.value.last < samples[0].observedAt)
  {
    if forall i :: 0 < i < |samples| ==> samples[i - 1].observedAt < samples[i].observedAt {
      forall i, j | 0 <= i < j < |samples| ensures samples[i].observedAt < samples[j].observedAt { NeighboursSuffice(samples, i, j); }
    }
    if Increasing(samples) {
      forall i | 0 < i < |samples| ensures samples[i - 1].observedAt < samples[i].observedAt { }
    }
  }

  lemma {:induction false} NeighboursSuffice(samples: seq<Sample>, i: nat, j: nat)
    requires i < j < |samples| && forall k :: 0 < k < |samples| ==> samples[k - 1].observedAt < samples[k].observedAt
    ensures samples[i].observedAt < samples[j].observedAt
    decreases j
  {
    assert samples[j - 1].observedAt < samples[j].observedAt;
    if i < j - 1 { NeighboursSuffice(samples, i, j - 1); }
  }

  /** A session is complete exactly if it spans the target in milliseconds and enough of its samples satisfied
      their gate. */
  lemma CompleteIff(p: Params, first: int, last: int, successes: nat, count: nat)
    requires count > 0 && p.target > 0
    ensures Complete(p, first, last, successes, count)
            <==> last - first >= 1000 * p.target && successes as real >= p.ratio * count as real
  {
    var rate := successes as real / count as real;
    assert rate * count as real == successes as real;
    if rate >= p.ratio { assert (rate - p.ratio) * count as real >= 0.0; } else { assert (p.ratio - rate) * count as real > 0.0; }
    assert (rate - p.ratio) * count as real == rate * count as real - p.ratio * count as real;
  }

  /** The summary counts the samples and successes of the whole session, from its first to its last. */
  lemma SummaryMeans(p: Params, samples: seq<Sample>, previous: Option<Summary>)
    requires samples != []
    ensures var s := Summarise(p, samples, previous);
            && s.params == p && s.identity == samples[0].identity && s.last == samples[|samples| - 1].observedAt
            && s.first == (if previous.Some? then previous.value.first else samples[0].observedAt)
            && s.count == |samples| + (if previous.Some? then previous.value.count else 0)
            && s.successes == |set i | 0 <= i < |samples| && samples[i].gateSatisfied| + (if previous.Some? then previous.value.successes else 0)
  {
    SuccessesCount(samples);
  }

  lemma {:induction false} SuccessesCount(samples: seq<Sample>)
    ensures Successes(samples) == |set i | 0 <= i < |samples| && samples[i].gateSatisfied|
  {
    if samples != [] {
      var n := |samples| - 1;
      SuccessesCount(samples[..n]);
      var here := set i | 0 <= i < |samples| && samples[i].gateSatisfied;
      var before := set i | 0 <= i < n && samples[..n][i].gateSatisfied;
      assert here == before + if samples[n].gateSatisfied then {n} else {};
    }
  }

  // ---- splitting a session ----

  lemma {:induction false} SuccessesJoin(a: seq<Sample>, b: seq<Sample>)
    ensures Successes(a + b) == Successes(a) + Successes(b)
  {
    if b == [] { assert a + b == a; }
    else {
      var n := |b| - 1;
      assert (a + b)[..|a| + n] == a + b[..n];
      SuccessesJoin(a, b[..n]);
    }
  }

  lemma {:induction false} ExtendJoin(head: Head, a: seq<Sample>, b: seq<Sample>)
    ensures Extend(head, a + b) == Extend(Extend(head, a), b)
  {
    if b == [] { assert a + b == a; }
    else {
      var n := |b| - 1;
      assert (a + b)[..|a| + n] == a + b[..n];
      ExtendJoin(head, a, b[..n]);
    }
  }

  lemma IncreasingJoin(a: seq<Sample>, b: seq<Sample>)
    requires a != [] && b != []
    ensures Increasing(a + b) <==> Increasing(a) && Increasing(b) && a[|a| - 1].observedAt < b[0].observedAt
  {
    var all := a + b;
    if Increasing(all) {
      forall i, j | 0 <= i < j < |a| ensures a[i].observedAt < a[j].observedAt { assert all[i].observedAt < all[j].observedAt; }
      forall i, j | 0 <= i < j < |b| ensures b[i].observedAt < b[j].observedAt { assert all[|a| + i].observedAt < all[|a| + j].observedAt; }
      assert all[|a| - 1].observedAt < all[|a|].observedAt;
    }
  }

  lemma SharedJoin(a: seq<Sample>, b: seq<Sample>)
    requires a != [] && b != []
    ensures AllGenuine(a + b) <==> AllGenuine(a) && AllGenuine(b)
    ensures SameIdentity(a + b) <==> SameIdentity(a) && SameIdentity(b) && a[0].identity == b[0].identity
  {
    var all := a + b;
    assert all[0] == a[0] && all[|a|] == b[0];
    assert forall i :: 0 <= i < |a| ==> all[i] == a[i];
    assert forall i :: 0 <= i < |b| ==> all[|a| + i] == b[i];
    if AllGenuine(all) { forall i | 0 <= i < |b| ensures b[i].genuine { assert all[|a| + i].genuine; } }
    if SameIdentity(all) {
      forall i | 0 <= i < |b| ensures b[i].identity == b[0].identity { assert all[|a| + i].identity == all[0].identity; }
    }
  }

  /** Taking two batches one after the other is taking them at once: accepted alike, and with the
      same summary. */
  lemma TwoBatches(p: Params, a: seq<Sample>, b: seq<Sample>, previous: Option<Summary>)
    requires a != [] && b != []
    ensures Accepts(p, a + b, previous) <==> Accepts(p, a, previous) && Accepts(p, b, Some(Summarise(p, a, previous)))
    ensures a[0].identity == b[0].identity ==> Summarise(p, a + b, previous) == Summarise(p, b, Some(Summarise(p, a, previous)))
  {
    IncreasingJoin(a, b);
    SharedJoin(a, b);
    SuccessesJoin(a, b);
    ExtendJoin(if previous.Some? then previous.value.head else Zero, a, b);
  }

  /** Chained checkpoints over successive batches; nothing once one is refused. */
  function Chain(p: Params, batches: seq<seq<Sample>>): Option<Summary>
    requires batches != []
  {
    var last := batches[|batches| - 1];
    if |batches| == 1 then if Accepts(p, last, None) then Some(Summarise(p, last, None)) else None
    else
      match Chain(p, batches[..|batches| - 1])
      case None => None
      case Some(s) => if Accepts(p, last, Some(s)) then Some(Summarise(p, last, Some(s))) else None
  }

  function Join(batches: seq<seq<Sample>>): seq<Sample> {
    if batches == [] then [] else Join(batches[..|batches| - 1]) + batches[|batches| - 1]
  }

  /** Splitting a session into any non-empty batches and chaining the checkpoints is accepted exactly
      when the one-shot checkpoint is, and ends with the same counts, times, hash-chain head and
      completion verdict. */
  lemma {:induction false} ChainIsOneShot(p: Params, batches: seq<seq<Sample>>)
    requires batches != [] && forall i :: 0 <= i < |batches| ==> batches[i] != []
    ensures Join(batches) != []
    ensures Chain(p, batches) == if Accepts(p, Join(batches), None) then Some(Summarise(p, Join(batches), None)) else None
  {
    var n := |batches| - 1;
    if n == 0 {
      assert batches[..0] == [];
      assert Join(batches) == [] + batches[0] == batches[0];
    } else {
      ChainIsOneShot(p, batches[..n]);
      TwoBatches(p, Join(batches[..n]), batches[n], None);
    }
  }

  lemma {:induction false} HeadBindsFrom(h: Head, k: Head, a: seq<Sample>, b: seq<Sample>)
    requires |a| == |b| && Extend(h, a) == Extend(k, b)
    ensures h == k && Hashes(a) == Hashes(b)
  {
    if a != [] { HeadBindsFrom(h, k, a[..|a| - 1], b[..|b| - 1]); }
  }

  lemma {:induction false} Depth(a: seq<Sample>, b: seq<Sample>)
    requires Extend(Zero, a) == Extend(Zero, b)
    ensures |a| == |b|
  {
    if a != [] && b != [] { Depth(a[..|a| - 1], b[..|b| - 1]); }
  }

  /** Two sessions ending in the same hash-chain head saw the same samples in the same order. */
  lemma HeadBinds(a: seq<Sample>, b: seq<Sample>)
    requires Extend(Zero, a) == Extend(Zero, b)
    ensures Hashes(a) == Hashes(b)
  {
    Depth(a, b);
    HeadBindsFrom(Zero, Zero, a, b);
  }
}
