/** The multi-threaded nonce search: workers scanning interleaved nonce sequences, in any interleaving. */
module Mining {
  import opened Models

  const MAX_NONCE := 0xFFFFFFFFFFFFFFFF

  datatype PowHeader = PowHeader(fields: string, target: nat, nonce: int)

  datatype PowBlock = PowBlock(header: PowHeader, body: string)

  /** `limit` is 0 for no limit; `hash` is the proof-of-work hash as a number. */
  datatype Job = Job(block: PowBlock, hash: PowHeader -> nat, threads: int, start: int, limit: int)

  /** What `mine_block_multithread` checks before it starts. */
  predicate JobOk(job: Job) {
    1 <= job.threads <= 256 && 0 <= job.start <= MAX_NONCE && job.limit >= 0
  }

  function Candidate(job: Job, nonce: int): PowBlock {
    job.block.(header := job.block.header.(nonce := nonce))
  }

  predicate Meets(job: Job, nonce: int) {
    job.hash(Candidate(job, nonce).header) <= job.block.header.target
  }

  // ---- workers ----

  datatype Reason = Stopped | Exhausted | LimitReached | Hit

  /** Where a worker is between two atomic actions. */
  datatype Phase = AtLoop | AboutToHash | Found | Finished(reason: Reason)

  datatype Worker = Worker(nonce: int, hashes: nat, phase: Phase)

  /** `tried` lists the nonces hashed so far, by anyone, in order. */
  datatype Search = Search(workers: seq<Worker>, stop: bool, winner: Option<PowBlock>, tried: seq<int>)

  function Begin(job: Job): Search
    requires JobOk(job)
  {
    Search(seq(job.threads, w requires 0 <= w < job.threads => Worker(job.start + w, 0, AtLoop)), false, None, [])
  }

  /** One atomic action of worker `w`: the loop test, one hash, or the critical section. */
  function Act(job: Job, s: Search, w: nat): Search {
    if w >= |s.workers| then s
    else
      var k := s.workers[w];
      match k.phase
      case AtLoop =>
        var next := if k.nonce > MAX_NONCE then Finished(Exhausted) else if s.stop then Finished(Stopped) else AboutToHash;
        s.(workers := s.workers[w := k.(phase := next)])
      case AboutToHash =>
        var hashed := k.(hashes := k.hashes + 1);
        var after := if Meets(job, k.nonce) then hashed.(phase := Found)
                     else if job.limit != 0 && hashed.hashes >= job.limit then hashed.(phase := Finished(LimitReached))
                     else hashed.(nonce := k.nonce + job.threads, phase := AtLoop);
        s.(workers := s.workers[w := after], tried := s.tried + [k.nonce])
      case Found =>
        var t := s.(workers := s.workers[w := k.(phase := Finished(Hit))]);
        if s.winner == None then t.(winner := Some(Candidate(job, k.nonce)), stop := true) else t
      case Finished(_) => s
  }

  function RunSchedule(job: Job, schedule: seq<nat>): Search
    requires JobOk(job)
  {
    if schedule == [] then Begin(job) else Act(job, RunSchedule(job, schedule[..|schedule| - 1]), schedule[|schedule| - 1])
  }

  /** `mine_block_multithread` under one interleaving: refused parameters start nothing. */
  function Mine(job: Job, schedule: seq<nat>): Option<Search> {
    if JobOk(job) then Some(RunSchedule(job, schedule)) else None
  }

  // ---- invariants ----

  /** The first nonce of its sequence that a worker has not hashed. */
  function Front(job: Job, k: Worker): int {
    match k.phase
    case Found => k.nonce + job.threads
    case Finished(Hit) => k.nonce + job.threads
    case Finished(LimitReached) => k.nonce + job.threads
    case _ => k.nonce
  }

  function Residue(n: nat, d: nat): (r: nat)
    requires d >= 1
    ensures r < d
  {
    if n < d then n else Residue(n - d, d)
  }

  /** The worker in whose sequence a nonce lies. */
  function Class(job: Job, nonce: int): (w: nat)
    requires job.threads >= 1
    ensures w < job.threads
  {
    if nonce < job.start then 0 else Residue(nonce - job.start, job.threads)
  }

  function Times(n: nat, k: int): int { if n == 0 then 0 else k + Times(n - 1, k) }

  ghost predicate WorkerOk(job: Job, s: Search, w: nat)
    requires job.threads >= 1 && w < |s.workers|
  {
    var k := s.workers[w];
    && job.start <= k.nonce && Class(job, k.nonce) == w
    && Front(job, k) == job.start + w + Times(k.hashes, job.threads)
    && (k.phase == AboutToHash ==> k.nonce <= MAX_NONCE)
    && (k.phase == Found ==> Meets(job, k.nonce) && k.nonce in s.tried)
    && (k.phase == Finished(Exhausted) ==> k.nonce > MAX_NONCE)
    && (k.phase == Finished(Stopped) || k.phase == Finished(Hit) ==> s.stop)
    && (k.phase == Finished(LimitReached) ==> job.limit != 0 && k.hashes >= job.limit)
  }

  /** Hashed already: below the front of the worker that owns the nonce. */
  ghost predicate Covered(job: Job, s: Search, n: int)
    requires job.threads >= 1 && |s.workers| == job.threads
  {
    job.start <= n < Front(job, s.workers[Class(job, n)])
  }

  function SumHashes(workers: seq<Worker>): nat {
    if workers == [] then 0 else SumHashes(workers[..|workers| - 1]) + workers[|workers| - 1].hashes
  }

  ghost predicate Inv(job: Job, s: Search)
    requires JobOk(job)
  {
    && |s.workers| == job.threads
    && (forall w :: 0 <= w < job.threads ==> WorkerOk(job, s, w))
    && (forall n :: n in s.tried <==> Covered(job, s, n))
    && (forall n :: n in s.tried ==> n <= MAX_NONCE)
    && Distinct(s.tried) && |s.tried| == SumHashes(s.workers)
    && (s.stop <==> s.winner.Some?)
    && (s.winner.Some? ==> exists n :: n in s.tried && Meets(job, n) && s.winner.value == Candidate(job, n))
    && (s.winner.None? ==> forall n :: n in s.tried && Meets(job, n) ==> s.workers[Class(job, n)].phase == Found && s.workers[Class(job, n)].nonce == n)
  }

  lemma ClassStep(job: Job, n: int)
    requires job.threads >= 1 && n >= job.start
    ensures Class(job, n + job.threads) == Class(job, n)
  {
  }

  lemma {:induction false} NoResidueBetween(a: nat, b: nat, d: nat)
    requires d >= 1 && a <= b < a + d && Residue(a, d) == Residue(b, d)
    ensures a == b
    decreases a
  {
    if a >= d { NoResidueBetween(a - d, b - d, d); }
  }

  /** Between two neighbours of one sequence lies no third member. */
  lemma NoneBetween(job: Job, n: int, m: int)
    requires job.threads >= 1 && job.start <= n && Class(job, n) == Class(job, m) && n <= m < n + job.threads
    ensures m == n
  {
    NoResidueBetween(n - job.start, m - job.start, job.threads);
  }

  lemma {:induction false} SumUpdate(workers: seq<Worker>, w: nat, k: Worker)
    requires w < |workers|
    ensures SumHashes(workers[w := k]) == SumHashes(workers) - workers[w].hashes + k.hashes
  {
    var n := |workers| - 1;
    if w < n {
      assert workers[w := k][..n] == workers[..n][w := k];
      SumUpdate(workers[..n], w, k);
    } else {
      assert workers[w := k][..n] == workers[..n];
    }
  }

  lemma {:induction false} SumZero(workers: seq<Worker>)
    requires forall w :: 0 <= w < |workers| ==> workers[w].hashes == 0
    ensures SumHashes(workers) == 0
  {
    if workers != [] { SumZero(workers[..|workers| - 1]); }
  }

  lemma SmallClass(job: Job, w: nat)
    requires w < job.threads
    ensures Class(job, job.start + w) == w
  {
  }

  lemma {:induction false} ResidueBelow(n: nat, d: nat)
    requires d >= 1
    ensures Residue(n, d) <= n
  {
    if n >= d { ResidueBelow(n - d, d); }
  }

  lemma BeginInv(job: Job)
    requires JobOk(job)
    ensures Inv(job, Begin(job))
  {
    var s := Begin(job);
    SumZero(s.workers);
    forall w | 0 <= w < job.threads ensures WorkerOk(job, s, w) { SmallClass(job, w); }
    forall n ensures n in s.tried <==> Covered(job, s, n) {
      if n >= job.start { ResidueBelow(n - job.start, job.threads); }
    }
  }

  /** Steps other than hashing keep every front, and so what has been covered. */
  lemma QuietKeeps(job: Job, s: Search, w: nat, k: Worker, t: Search)
    requires JobOk(job) && Inv(job, s) && w < job.threads
    requires t.workers == s.workers[w := k] && t.tried == s.tried && k.hashes == s.workers[w].hashes
    requires Front(job, k) == Front(job, s.workers[w])
    ensures forall n :: Covered(job, t, n) <==> Covered(job, s, n)
    ensures SumHashes(t.workers) == SumHashes(s.workers)
  {
    SumUpdate(s.workers, w, k);
  }

  lemma LoopKeeps(job: Job, s: Search, w: nat)
    requires JobOk(job) && Inv(job, s) && w < job.threads && s.workers[w].phase == AtLoop
    ensures Inv(job, Act(job, s, w))
  {
    var t := Act(job, s, w);
    QuietKeeps(job, s, w, t.workers[w], t);
    forall v | 0 <= v < job.threads ensures WorkerOk(job, t, v) { assert WorkerOk(job, s, v); }
  }

  lemma FoundKeeps(job: Job, s: Search, w: nat)
    requires JobOk(job) && Inv(job, s) && w < job.threads && s.workers[w].phase == Found
    ensures Inv(job, Act(job, s, w))
  {
    var t := Act(job, s, w);
    QuietKeeps(job, s, w, t.workers[w], t);
    assert WorkerOk(job, s, w);
    forall v | 0 <= v < job.threads ensures WorkerOk(job, t, v) { assert WorkerOk(job, s, v); }
  }

  /** A hash covers exactly the worker's next nonce. */
  lemma HashCovers(job: Job, s: Search, w: nat, n: int)
    requires JobOk(job) && Inv(job, s) && w < job.threads && s.workers[w].phase == AboutToHash
    ensures Covered(job, Act(job, s, w), n) <==> Covered(job, s, n) || n == s.workers[w].nonce
  {
    var nonce := s.workers[w].nonce;
    assert WorkerOk(job, s, w);
    ClassStep(job, nonce);
    if Class(job, n) == w && nonce <= n < nonce + job.threads { NoneBetween(job, nonce, n); }
  }

  lemma HashKeeps(job: Job, s: Search, w: nat)
    requires JobOk(job) && Inv(job, s) && w < job.threads && s.workers[w].phase == AboutToHash
    ensures Inv(job, Act(job, s, w))
  {
    var t, k := Act(job, s, w), s.workers[w];
    assert WorkerOk(job, s, w);
    SumUpdate(s.workers, w, t.workers[w]);
    ClassStep(job, k.nonce);
    forall v | 0 <= v < job.threads ensures WorkerOk(job, t, v) { assert WorkerOk(job, s, v); }
    forall n ensures n in t.tried <==> Covered(job, t, n) { HashCovers(job, s, w, n); }
    assert k.nonce !in s.tried;
    forall n | n in t.tried && Meets(job, n) && t.winner.None?
      ensures t.workers[Class(job, n)].phase == Found && t.workers[Class(job, n)].nonce == n
    {
      if n in s.tried { assert s.workers[Class(job, n)].phase == Found; }
    }
  }

  lemma {:induction false} RunInv(job: Job, schedule: seq<nat>)
    requires JobOk(job)
    ensures Inv(job, RunSchedule(job, schedule))
  {
    if schedule == [] { BeginInv(job); }
    else {
      var s, w := RunSchedule(job, schedule[..|schedule| - 1]), schedule[|schedule| - 1];
      RunInv(job, schedule[..|schedule| - 1]);
      if w < job.threads {
        match s.workers[w].phase {
          case AtLoop => LoopKeeps(job, s, w);
          case AboutToHash => HashKeeps(job, s, w);
          case Found => FoundKeeps(job, s, w);
          case Finished(_) =>
        }
      }
    }
  }

  // ---- what every interleaving guarantees ----

  ghost predicate AllFinished(s: Search) {
    forall w :: 0 <= w < |s.workers| ==> s.workers[w].phase.Finished?
  }

  /** At any moment, under any interleaving: no nonce has been hashed twice, the hash counts add up
      to the number of nonces tried, and a winning block meets the target and differs from the
      template only in a nonce that was tried. */
  lemma NoNonceTwice(job: Job, schedule: seq<nat>) returns (s: Search)
    requires JobOk(job)
    ensures s == RunSchedule(job, schedule)
    ensures Distinct(s.tried) && SumHashes(s.workers) == |s.tried|
    ensures forall n :: n in s.tried ==> job.start <= n <= MAX_NONCE
    ensures s.winner.Some? ==>
              && s.winner.value == Candidate(job, s.winner.value.header.nonce)
              && s.winner.value.header.nonce in s.tried
              && job.hash(s.winner.value.header) <= s.winner.value.header.target
  {
    s := RunSchedule(job, schedule);
    RunInv(job, schedule);
    if s.winner.Some? {
      var n :| n in s.tried && Meets(job, n) && s.winner.value == Candidate(job, n);
      assert s.winner.value.header.nonce == n;
    }
    forall n | n in s.tried ensures job.start <= n <= MAX_NONCE { assert Covered(job, s, n); }
  }

  lemma {:induction false} TimesMonotone(m: nat, n: nat, k: int)
    requires m <= n && k >= 0
    ensures Times(m, k) <= Times(n, k)
  {
    if m < n { TimesMonotone(m, n - 1, k); }
  }

  /** If all workers finish without a winner, the search was complete: without a limit every nonce
      from the start up fails; with a limit, every nonce among the first `limit * threads`. */
  lemma NoResultMeansNone(job: Job, schedule: seq<nat>, n: int)
    requires JobOk(job) && AllFinished(RunSchedule(job, schedule)) && RunSchedule(job, schedule).winner == None
    requires job.start <= n <= MAX_NONCE
    requires job.limit == 0 || n < job.start + Times(job.limit, job.threads)
    ensures n in RunSchedule(job, schedule).tried && job.hash(job.block.header.(nonce := n)) > job.block.header.target
  {
    var s := RunSchedule(job, schedule);
    RunInv(job, schedule);
    var w := Class(job, n);
    var k := s.workers[w];
    assert WorkerOk(job, s, w);
    assert k.phase.Finished?;
    if k.phase == Finished(LimitReached) {
      TimesMonotone(job.limit, k.hashes, job.threads);
      assert n < Front(job, k);
    }
    assert Covered(job, s, n);
  }

  /** A worker still searching is below its limit, and none is above it. */
  ghost predicate Limited(job: Job, s: Search) {
    job.limit > 0 ==> forall w :: 0 <= w < |s.workers| ==>
      && s.workers[w].hashes <= job.limit
      && (s.workers[w].phase == AtLoop || s.workers[w].phase == AboutToHash ==> s.workers[w].hashes < job.limit)
  }

  /** With a limit no worker hashes more often than that; a search starts exactly for 1 to 256 workers, a
      start nonce of 64 bits and a limit that is not negative. */
  lemma {:induction false} LimitKept(job: Job, schedule: seq<nat>)
    ensures Mine(job, schedule).Some? <==> 1 <= job.threads <= 256 && 0 <= job.start < 0x1_0000_0000_0000_0000 && job.limit >= 0
    ensures Mine(job, schedule).Some? ==> |Mine(job, schedule).value.workers| == job.threads && Limited(job, Mine(job, schedule).value)
  {
    if JobOk(job) && schedule != [] {
      LimitKept(job, schedule[..|schedule| - 1]);
    }
  }
}
