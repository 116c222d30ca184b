/** What every run of the chunk receiver keeps, and when it completes. */
module StateSyncRuns {
  import opened Models
  import opened Execution
  import opened Blocks
  import opened ExternalStore
  import opened StoreRuns
  import opened Snapshot
  import opened Restore
  import opened StateSync

  /** How far `apply_chunk` got when the process died. */
  datatype CrashPoint = AfterFile | AfterSession | AfterImport | AfterUnlink(kept: set<int>)

  datatype Step =
    | OfferStep(d: Descriptor, trusted: Option<Hash>)
    | ChunkStep(index: int, chunk: Bytes)
    | CrashedOffer(d: Descriptor, trusted: Option<Hash>, kept: set<int>)       // some chunk files gone, session not yet written
    | CrashedChunk(index: int, chunk: Bytes, point: CrashPoint)

  function Kept(files: map<int, Bytes>, kept: set<int>): map<int, Bytes> {
    map i | i in files && i in kept :: files[i]
  }

  ghost function CrashState(g: Genesis, codec: Codec, r: Receiver, index: int, chunk: Bytes, point: CrashPoint): Receiver {
    if r.session.None? || !Expected(r.session.value, index, chunk) then r
    else
      var s, files := r.session.value, r.files[index := chunk];
      var marked := Mark(s, index);
      if point.AfterFile? then r.(files := files)
      else if point.AfterSession? || |marked.received| < s.chunks then Receiver(Some(marked), files, r.tables)
      else
        match Finish(g, codec, marked, files, r.tables)
        case (t, None) => Receiver(Some(marked), files, t)
        case (t, Some(_)) => if point.AfterImport? then Receiver(Some(marked), files, t) else Receiver(None, Kept(files, point.kept), t)
  }

  ghost function Next(g: Genesis, codec: Codec, r: Receiver, step: Step): Receiver {
    match step
    case OfferStep(d, trusted) => Offer(g, r, d, trusted).0
    case ChunkStep(index, chunk) => ApplyChunk(g, codec, r, index, chunk).0
    case CrashedOffer(d, trusted, kept) =>
      if OfferVerdict(g, r.tables, d, trusted) == OfferAccept then r.(files := Kept(r.files, kept)) else r
    case CrashedChunk(index, chunk, point) => CrashState(g, codec, r, index, chunk, point)
  }

  ghost function RunSteps(g: Genesis, codec: Codec, start: Receiver, steps: seq<Step>): Receiver {
    if steps == [] then start else Next(g, codec, RunSteps(g, codec, start, steps[..|steps| - 1]), steps[|steps| - 1])
  }

  // ---- received means stored ----

  /** Every index marked received has a stored chunk with the offered hash. */
  ghost predicate Stored(r: Receiver) {
    r.session.Some? ==>
      var s := r.session.value;
      && s.chunks > 0 && |s.metadata.chunkHashes| == s.chunks
      && forall i :: i in s.received ==>
           0 <= i < s.chunks && i in r.files && s.metadata.chunkHashes[i] == Sha(r.files[i])
  }

  lemma StepStored(g: Genesis, codec: Codec, r: Receiver, step: Step)
    requires Stored(r) && !step.CrashedOffer?
    ensures Stored(Next(g, codec, r, step))
  {
  }

  lemma {:induction false} ReceivedIsStored(g: Genesis, codec: Codec, start: Receiver, steps: seq<Step>)
    requires Stored(start) && forall step :: step in steps ==> !step.CrashedOffer?
    ensures Stored(RunSteps(g, codec, start, steps))
  {
    if steps != [] {
      var init, last := steps[..|steps| - 1], steps[|steps| - 1];
      assert last in steps;
      ReceivedIsStored(g, codec, start, init);
      StepStored(g, codec, RunSteps(g, codec, start, init), last);
    }
  }

  /** A crash between clearing the old chunk files and writing the new session keeps the promise
      exactly when no file of a received chunk was cleared yet. */
  lemma CrashedOfferStored(g: Genesis, codec: Codec, r: Receiver, d: Descriptor, trusted: Option<Hash>, kept: set<int>)
    requires Stored(r) && OfferVerdict(g, r.tables, d, trusted) == OfferAccept
    ensures Stored(Next(g, codec, r, CrashedOffer(d, trusted, kept)))
            <==> (r.session.Some? ==> forall i :: i in r.session.value.received ==> i in kept)
  {
    var after := Next(g, codec, r, CrashedOffer(d, trusted, kept));
    assert forall i :: i in after.files <==> i in r.files && i in kept;
  }

  // ---- the ledger ----

  /** Whatever arrives, the tables change only in the step that completes, and then to a fresh base
      whose application hash is the one the session trusts. */
  lemma ImportedIsTrusted(g: Genesis, codec: Codec, s: Session, files: map<int, Bytes>, t: Tables, feePool: Address)
    ensures var (t', hash) := Finish(g, codec, s, files, t);
            && (hash.None? ==> t' == t)
            && (hash.Some? ==> hash.value == s.trusted == CurrentHash(AppOf(g, feePool), t') && t'.height == s.height)
            && (hash.Some? ==> t'.origin.Some? && t' == Restored(t', t'.origin.value))
  {
  }

  ghost predicate TrustedIn(steps: seq<Step>, hash: Hash) {
    exists d :: OfferStep(d, Some(hash)) in steps
  }

  ghost predicate Accounted(g: Genesis, feePool: Address, start: Receiver, steps: seq<Step>, r: Receiver) {
    && (r.session.Some? ==> r.session == start.session || TrustedIn(steps, r.session.value.trusted))
    && (r.tables == start.tables
        || (r.tables.origin.Some? && r.tables == Restored(r.tables, r.tables.origin.value) && TrustedIn(steps, CurrentHash(AppOf(g, feePool), r.tables))))
  }

  lemma AccountedGrows(g: Genesis, feePool: Address, start: Receiver, steps: seq<Step>, r: Receiver, more: seq<Step>)
    requires Accounted(g, feePool, start, steps, r) && forall step :: step in steps ==> step in more
    ensures Accounted(g, feePool, start, more, r)
  {
  }

  lemma ChunkAccounted(g: Genesis, codec: Codec, feePool: Address, start: Receiver, steps: seq<Step>, r: Receiver, step: Step)
    requires Accounted(g, feePool, start, steps, r) && start.session == None && (step.ChunkStep? || step.CrashedChunk?)
    ensures Accounted(g, feePool, start, steps, Next(g, codec, r, step))
  {
    if r.session.Some? && Expected(r.session.value, step.index, step.chunk) {
      ImportedIsTrusted(g, codec, Mark(r.session.value, step.index), r.files[step.index := step.chunk], r.tables, feePool);
    }
  }

  lemma StepAccounted(g: Genesis, codec: Codec, feePool: Address, start: Receiver, steps: seq<Step>, r: Receiver, step: Step)
    requires Accounted(g, feePool, start, steps, r) && start.session == None && step in steps
    ensures Accounted(g, feePool, start, steps, Next(g, codec, r, step))
  {
    if step.ChunkStep? || step.CrashedChunk? { ChunkAccounted(g, codec, feePool, start, steps, r, step); }
    else if step.OfferStep? && OfferVerdict(g, r.tables, step.d, step.trusted) == OfferAccept {
      assert OfferStep(step.d, Some(step.trusted.value)) in steps;
    }
  }

  lemma {:induction false} RunAccounted(g: Genesis, codec: Codec, feePool: Address, start: Receiver, steps: seq<Step>)
    requires start.session == None
    ensures Accounted(g, feePool, start, steps, RunSteps(g, codec, start, steps))
  {
    if steps != [] {
      var init, last := steps[..|steps| - 1], steps[|steps| - 1];
      RunAccounted(g, codec, feePool, start, init);
      AccountedGrows(g, feePool, start, init, RunSteps(g, codec, start, init), steps);
      StepAccounted(g, codec, feePool, start, steps, RunSteps(g, codec, start, init), last);
    }
  }

  /** In every run, with any chunks from anyone and crashes anywhere: if the light client only ever
      vouches for application hashes of real states, the ledger is untouched or is the restored
      copy of one of those states. */
  lemma NothingForgedIsRestored(g: Genesis, codec: Codec, feePool: Address, start: Receiver, steps: seq<Step>, genuine: set<Tables>)
    requires start.session == None
    requires forall d, hash :: OfferStep(d, Some(hash)) in steps ==> exists t :: t in genuine && hash == CurrentHash(AppOf(g, feePool), t)
    ensures var r := RunSteps(g, codec, start, steps);
            r.tables == start.tables || exists t, origin :: t in genuine && r.tables == Restored(t, origin)
  {
    RunAccounted(g, codec, feePool, start, steps);
    var r := RunSteps(g, codec, start, steps);
    if r.tables != start.tables {
      var hash := CurrentHash(AppOf(g, feePool), r.tables);
      var d :| OfferStep(d, Some(hash)) in steps;
      var t :| t in genuine && hash == CurrentHash(AppOf(g, feePool), t);
      assert r.tables == Restored(t, r.tables.origin.value);
    }
  }

  // ---- what is answered ----

  /** An open session expects as many chunks as it was offered hashes for. */
  ghost predicate Offered(r: Receiver) {
    r.session.Some? ==> r.session.value.chunks == |r.session.value.metadata.chunkHashes| > 0
  }

  lemma StepOffered(g: Genesis, codec: Codec, r: Receiver, step: Step)
    requires Offered(r)
    ensures Offered(Next(g, codec, r, step))
  {
  }

  lemma {:induction false} RunOffered(g: Genesis, codec: Codec, start: Receiver, steps: seq<Step>)
    requires Offered(start)
    ensures Offered(RunSteps(g, codec, start, steps))
  {
    if steps != [] {
      RunOffered(g, codec, start, steps[..|steps| - 1]);
      StepOffered(g, codec, RunSteps(g, codec, start, steps[..|steps| - 1]), steps[|steps| - 1]);
    }
  }

  /** The answer to a chunk in any run, by the hashes that were offered: none without a session; an index
      out of range ends the snapshot; a chunk with another hash is asked for again and nothing else is;
      the right one is accepted as long as another index is missing. */
  lemma ChunkAnswers(g: Genesis, codec: Codec, start: Receiver, steps: seq<Step>, index: int, chunk: Bytes)
    requires start.session == None
    ensures var r := RunSteps(g, codec, start, steps);
            var (after, result) := ApplyChunk(g, codec, r, index, chunk);
            && (result == Abort <==> r.session == None)
            && (r.session.Some? ==>
                  var s, hashes := r.session.value, r.session.value.metadata.chunkHashes;
                  && (index < 0 || index >= |hashes| ==> result == RejectSnapshot)
                  && (result == Retry <==> 0 <= index < |hashes| && hashes[index] != Sha(chunk))
                  && (result == Accept <==>
                        && 0 <= index < |hashes| && hashes[index] == Sha(chunk)
                        && |(set i | i in s.received && 0 <= i < |hashes|) + {index}| < |hashes|)
                  && (result == Retry || index < 0 || index >= |hashes| ==> after == r)
                  && (result == Accept ==> after.tables == r.tables && after.files == r.files[index := chunk]))
  {
    RunOffered(g, codec, start, steps);
    var r := RunSteps(g, codec, start, steps);
    if r.session.Some? && 0 <= index < r.session.value.chunks {
      var s := r.session.value;
      assert Mark(s, index).received == (set i | i in s.received && 0 <= i < |s.metadata.chunkHashes|) + {index};
    }
  }

  /** The verdict on any offer, by what it says and what the store holds. */
  lemma OfferAnswers(g: Genesis, r: Receiver, d: Descriptor, trusted: Option<Hash>)
    ensures var result := Offer(g, r, d, trusted).1;
            var plausible := d.format == 1 && d.height > 0 && 1 <= d.chunks <= 10000 && !d.hash.NotHex?;
            var pristine := r.tables.height == 0 && r.tables.commits == map[] && r.tables.pending == map[] && r.tables.accounts == GenesisAccounts(g);
            var decoded := d.metadataSize <= 4 * 1024 * 1024 && d.metadata.Some?;
            && (result == OfferAbort <==> plausible && (trusted == None || !pristine))
            && (result == OfferRejectFormat <==>
                  || d.format != 1
                  || (plausible && trusted.Some? && pristine && decoded && d.metadata.value.protocol != "crakbit-comet-state-sync/1"))
            && (result == OfferAccept <==>
                  && plausible && trusted.Some? && pristine && decoded
                  && var m := d.metadata.value;
                     && m.protocol == "crakbit-comet-state-sync/1" && m.chainId == g.chainId
                     && m.fingerprint == Fingerprint(g.chainId, g.validators, g.allocations)
                     && m.height == d.height && m.transport == d.hash && m.appHash == trusted.value
                     && |m.chunkHashes| == d.chunks && (forall i :: 0 <= i < d.chunks ==> !m.chunkHashes[i].NotHex?)
                     && 0 <= m.byteLength <= 512 * 1024 * 1024)
  {
  }

  // ---- counting marks ----

  ghost predicate Below(i: int, n: nat) { 0 <= i < n }

  ghost function AllIndices(n: nat): set<int> {
    set i | 0 <= i < n && Below(i, n)
  }

  lemma {:induction false} AllIndicesCount(n: nat)
    ensures |AllIndices(n)| == n
  {
    if n > 0 {
      AllIndicesCount(n - 1);
      assert AllIndices(n) == AllIndices(n - 1) + {n - 1};
    }
  }

  /** Counting the marks is as good as looking at them. */
  lemma FullCount(received: set<int>, n: nat)
    requires received <= AllIndices(n)
    ensures |received| < n <==> received != AllIndices(n)
  {
    AllIndicesCount(n);
    if received != AllIndices(n) {
      var i :| i in AllIndices(n) && i !in received;
      SubsetSmaller(received + {i}, AllIndices(n));
    }
  }

  lemma {:induction false} ReadAllJoins(files: map<int, Bytes>, chunks: seq<Bytes>)
    requires forall i :: 0 <= i < |chunks| ==> i in files && files[i] == chunks[i]
    ensures ReadAll(files, |chunks|) == Some(Join(chunks))
  {
    if chunks != [] { ReadAllJoins(files, chunks[..|chunks| - 1]); }
  }

  // ---- one snapshot on its way ----

  /** A published snapshot, with the state it was taken from. */
  datatype Transfer = Transfer(source: Tables, envelope: Envelope, payload: Bytes, published: Published)

  ghost function Outcome(x: Transfer): Tables { Restored(x.source, OriginOf(x.envelope)) }

  ghost predicate Ready(g: Genesis, codec: Codec, size: nat, x: Transfer) {
    var s := x.envelope.snapshot;
    && x.payload == codec.encode(x.envelope) && Join(x.published.chunks) == x.payload
    && s.height > 0 && |x.payload| <= MAX_SNAPSHOT_BYTES && x.published.chunks != []
    && x.published == Publish(g, codec, size, x.envelope, x.payload, x.published.chunks)
    && Verify(g, x.envelope, Some(s.height), Some(s.appHash)) == Ok(s.appHash)
    && s.height == x.source.height && s.lastHash == x.source.lastHash && Table(s.entries) == x.source.accounts
  }

  /** A reachable store can publish exactly if it can export, has a block, and the payload is not too
      large: its own verification of the export never fails. */
  lemma PublishesIff(g: Genesis, codec: Codec, size: nat, feePool: Address, start: Tables, ops: seq<Op>, rows: seq<Listing>)
    returns (t: Tables)
    requires size > 0 && Genuine(g, start) && Lists(rows, PerformAll(AppOf(g, feePool), start, ops).accounts)
    ensures t == PerformAll(AppOf(g, feePool), start, ops)
    ensures Materialize(g, codec, size, t, rows).Some?
            <==> && Export(g, t, rows).Ok? && t.height > 0
                 && |codec.encode(Export(g, t, rows).value)| <= MAX_SNAPSHOT_BYTES
  {
    t := PerformAll(AppOf(g, feePool), start, ops);
    if Export(g, t, rows).Ok? { var t', envelope := RoundTrip(g, feePool, start, ops, rows); }
  }

  lemma PublishedIsReady(g: Genesis, codec: Codec, size: nat, t: Tables, rows: seq<Listing>) returns (x: Transfer)
    requires size > 0 && Lists(rows, t.accounts) && Materialize(g, codec, size, t, rows).Some?
    ensures Materialize(g, codec, size, t, rows) == Some(x.published) && Export(g, t, rows) == Ok(x.envelope) && x.source == t
    ensures Ready(g, codec, size, x)
  {
    var envelope := Export(g, t, rows).value;
    var payload := codec.encode(envelope);
    x := Transfer(t, envelope, payload, Materialize(g, codec, size, t, rows).value);
    CutJoin(payload, size);
    TableOfListing(rows, t.accounts);
  }

  ghost function SessionOf(x: Transfer, marked: set<int>): Session
    requires x.published.descriptor.metadata.Some?
  {
    var d := x.published.descriptor;
    Session(d.height, d.chunks, d.hash, d.metadata.value, x.envelope.snapshot.appHash, marked)
  }

  /** An offer of a published snapshot is accepted exactly by a pristine store, and only if the
      snapshot has at most the permitted number of chunks and bytes of metadata. */
  lemma OfferAcceptedIff(g: Genesis, codec: Codec, size: nat, x: Transfer, r: Receiver)
    requires Ready(g, codec, size, x)
    ensures var (after, result) := Offer(g, r, x.published.descriptor, Some(x.envelope.snapshot.appHash));
            && (result == OfferAccept <==> && IsPristine(g, r.tables) && |x.published.chunks| <= MAX_CHUNKS
                                           && x.published.descriptor.metadataSize <= MAX_METADATA_BYTES)
            && after == if result == OfferAccept then Receiver(Some(SessionOf(x, {})), map[], r.tables) else r
  {
    assert forall i :: 0 <= i < |x.published.chunks| ==> IsHex(HashAll(x.published.chunks)[i]);
  }

  ghost predicate Intact(x: Transfer, index: int, chunk: Bytes) {
    0 <= index < |x.published.chunks| && chunk == x.published.chunks[index]
  }

  /** The chunk files a receiver holds. */
  ghost function FilesOf(x: Transfer, held: set<int>): map<int, Bytes>
    requires held <= AllIndices(|x.published.chunks|)
  {
    map i | i in held :: x.published.chunks[i]
  }

  lemma ReadHeld(x: Transfer, held: set<int>)
    requires held <= AllIndices(|x.published.chunks|)
    ensures ReadAll(FilesOf(x, held), |x.published.chunks|)
            == if held == AllIndices(|x.published.chunks|) then Some(Join(x.published.chunks)) else None
  {
    var n := |x.published.chunks|;
    if held == AllIndices(n) {
      ReadAllJoins(FilesOf(x, held), x.published.chunks);
    } else {
      var i :| i in AllIndices(n) && i !in held;
      MissingStays(FilesOf(x, held), i + 1, n);
    }
  }

  /** The final attempt restores the source exactly if no chunk file is missing. */
  lemma FinishMeans(g: Genesis, codec: Codec, size: nat, x: Transfer, marked: set<int>, held: set<int>, t: Tables)
    requires RoundTrips(codec) && Ready(g, codec, size, x) && held <= AllIndices(|x.published.chunks|)
    requires IsPristine(g, t) && Opens(t)
    ensures Finish(g, codec, SessionOf(x, marked), FilesOf(x, held), t)
            == if held == AllIndices(|x.published.chunks|) then (Outcome(x), Some(x.envelope.snapshot.appHash)) else (t, None)
  {
    ReadHeld(x, held);
    assert codec.decode(x.payload) == Some(x.envelope);
  }

  // ---- following one snapshot through a run ----

  /** Where the transfer stands: no session for it is open, or one is, with `marked` indices and
      `held` chunk files, or the ledger was restored from it. */
  datatype Track = Elsewhere | Collecting(marked: set<int>, held: set<int>) | Done

  ghost predicate Full(x: Transfer, indices: set<int>) { indices == AllIndices(|x.published.chunks|) }

  /** An intact chunk: it completes the transfer if then every index is marked and every file held. */
  ghost function Gathered(x: Transfer, marked: set<int>, held: set<int>): Track {
    if Full(x, marked) && Full(x, held) then Done else Collecting(marked, held)
  }

  ghost function Heard(g: Genesis, x: Transfer, r: Receiver, track: Track, step: Step): Track {
    match step
    case OfferStep(d, trusted) =>
      if track.Done? || OfferVerdict(g, r.tables, d, trusted) != OfferAccept then track
      else if d == x.published.descriptor && trusted == Some(x.envelope.snapshot.appHash) then Collecting({}, {}) else Elsewhere
    case CrashedOffer(d, trusted, kept) =>
      if !track.Collecting? || OfferVerdict(g, r.tables, d, trusted) != OfferAccept then track
      else Collecting(track.marked, track.held * kept)
    case ChunkStep(i, chunk) =>
      if track.Collecting? && Intact(x, i, chunk) then Gathered(x, track.marked + {i}, track.held + {i}) else track
    case CrashedChunk(i, chunk, point) =>
      if !track.Collecting? || !Intact(x, i, chunk) then track
      else if point.AfterFile? then Collecting(track.marked, track.held + {i})
      else if point.AfterSession? then Collecting(track.marked + {i}, track.held + {i})
      else Gathered(x, track.marked + {i}, track.held + {i})
  }

  ghost function Follow(g: Genesis, codec: Codec, x: Transfer, start: Receiver, track: Track, steps: seq<Step>): Track {
    if steps == [] then track
    else
      var init := steps[..|steps| - 1];
      Heard(g, x, RunSteps(g, codec, start, init), Follow(g, codec, x, start, track, init), steps[|steps| - 1])
  }

  /** What each position of the track says about the receiver. */
  ghost predicate Holds(g: Genesis, x: Transfer, untouched: Tables, r: Receiver, track: Track) {
    match track
    case Elsewhere => true
    case Collecting(marked, held) =>
      && x.published.descriptor.metadata.Some? && IsPristine(g, untouched)
      && marked <= AllIndices(|x.published.chunks|) && held <= AllIndices(|x.published.chunks|)
      && r == Receiver(Some(SessionOf(x, marked)), FilesOf(x, held), untouched)
    case Done => r.tables == Outcome(x)
  }

  /** The ledger is still the fresh one, or it left height 0 for good. */
  ghost predicate Settled(untouched: Tables, r: Receiver) {
    && (r.session.Some? ==> r.session.value.height > 0)
    && (r.tables == untouched || r.tables.height > 0)
  }

  /** Nothing is imported over a ledger that left height 0. */
  lemma FinishKeepsBlocks(g: Genesis, codec: Codec, s: Session, files: map<int, Bytes>, t: Tables)
    requires t.height != 0
    ensures Finish(g, codec, s, files, t) == (t, None)
  {
  }

  lemma StepKeepsBlocks(g: Genesis, codec: Codec, r: Receiver, step: Step)
    requires r.tables.height != 0
    ensures Next(g, codec, r, step).tables == r.tables
  {
    if (step.ChunkStep? || step.CrashedChunk?) && r.session.Some? {
      FinishKeepsBlocks(g, codec, Mark(r.session.value, step.index), r.files[step.index := step.chunk], r.tables);
    }
  }

  lemma StepSettles(g: Genesis, codec: Codec, feePool: Address, untouched: Tables, r: Receiver, step: Step)
    requires Settled(untouched, r)
    ensures Settled(untouched, Next(g, codec, r, step))
  {
    if (step.ChunkStep? || step.CrashedChunk?) && r.session.Some? {
      ImportedIsTrusted(g, codec, Mark(r.session.value, step.index), r.files[step.index := step.chunk], r.tables, feePool);
    }
  }

  lemma {:induction false} RunSettles(g: Genesis, codec: Codec, feePool: Address, start: Receiver, steps: seq<Step>)
    requires Settled(start.tables, start)
    ensures Settled(start.tables, RunSteps(g, codec, start, steps))
  {
    if steps != [] {
      RunSettles(g, codec, feePool, start, steps[..|steps| - 1]);
      StepSettles(g, codec, feePool, start.tables, RunSteps(g, codec, start, steps[..|steps| - 1]), steps[|steps| - 1]);
    }
  }

  lemma OfferHolds(g: Genesis, codec: Codec, size: nat, x: Transfer, untouched: Tables, r: Receiver, track: Track, d: Descriptor, trusted: Option<Hash>)
    requires Ready(g, codec, size, x) && Settled(untouched, r)
    requires Holds(g, x, untouched, r, track)
    ensures Holds(g, x, untouched, Next(g, codec, r, OfferStep(d, trusted)), Heard(g, x, r, track, OfferStep(d, trusted)))
  {
    OfferAcceptedIff(g, codec, size, x, r);
  }

  lemma CrashedOfferHolds(g: Genesis, codec: Codec, x: Transfer, untouched: Tables, r: Receiver, track: Track, d: Descriptor, trusted: Option<Hash>,
                          kept: set<int>)
    requires Holds(g, x, untouched, r, track)
    ensures Holds(g, x, untouched, Next(g, codec, r, CrashedOffer(d, trusted, kept)), Heard(g, x, r, track, CrashedOffer(d, trusted, kept)))
  {
    if track.Collecting? { assert Kept(r.files, kept) == FilesOf(x, track.held * kept); }
  }

  /** An intact chunk marks its index and stores its file; anything else is refused. */
  lemma ChunkFills(g: Genesis, codec: Codec, size: nat, x: Transfer, untouched: Tables, r: Receiver, marked: set<int>, held: set<int>, index: int, chunk: Bytes)
    requires Ready(g, codec, size, x) && Holds(g, x, untouched, r, Collecting(marked, held))
    ensures Expected(r.session.value, index, chunk) <==> Intact(x, index, chunk)
    ensures Intact(x, index, chunk) ==>
              && marked + {index} <= AllIndices(|x.published.chunks|) && held + {index} <= AllIndices(|x.published.chunks|)
              && Mark(r.session.value, index) == SessionOf(x, marked + {index})
              && r.files[index := chunk] == FilesOf(x, held + {index})
  {
    assert r.session.value.metadata.chunkHashes == HashAll(x.published.chunks);
  }

  /** What an intact chunk does, given how the attempt to restore would go. */
  lemma DeliverIntact(g: Genesis, codec: Codec, x: Transfer, untouched: Tables, r: Receiver, marked: set<int>, held: set<int>,
                      index: int, chunk: Bytes)
    requires x.published.descriptor.metadata.Some? && x.published.descriptor.chunks == |x.published.chunks| && IsPristine(g, untouched)
    requires marked <= AllIndices(|x.published.chunks|) && held <= AllIndices(|x.published.chunks|)
    requires r.session.Some? && Expected(r.session.value, index, chunk) && r.tables == untouched
    requires Mark(r.session.value, index) == SessionOf(x, marked) && r.files[index := chunk] == FilesOf(x, held)
    requires |marked| < |x.published.chunks| <==> !Full(x, marked)
    requires Finish(g, codec, SessionOf(x, marked), FilesOf(x, held), untouched)
             == if Full(x, held) then (Outcome(x), Some(x.envelope.snapshot.appHash)) else (untouched, None)
    ensures var (after, result) := ApplyChunk(g, codec, r, index, chunk);
            if Gathered(x, marked, held).Done? then
              result == Completed(x.published.descriptor.height, x.envelope.snapshot.appHash) && after == Receiver(None, map[], Outcome(x))
            else
              result == (if Full(x, marked) then RejectSnapshot else Accept) && Holds(g, x, untouched, after, Collecting(marked, held))
  {
  }

  /** One delivery to a receiver of a published snapshot: refused without effect unless intact. Once
      all indices are marked it completes if every file is there, and is refused otherwise. */
  lemma DeliverOne(g: Genesis, codec: Codec, size: nat, x: Transfer, untouched: Tables, r: Receiver, marked: set<int>, held: set<int>,
                   index: int, chunk: Bytes)
    requires RoundTrips(codec) && Ready(g, codec, size, x) && Opens(untouched)
    requires Holds(g, x, untouched, r, Collecting(marked, held))
    ensures var (after, result) := ApplyChunk(g, codec, r, index, chunk);
            if !Intact(x, index, chunk) then after == r && result == if 0 <= index < |x.published.chunks| then Retry else RejectSnapshot
            else if Gathered(x, marked + {index}, held + {index}).Done? then
              result == Completed(x.source.height, x.envelope.snapshot.appHash) && after == Receiver(None, map[], Outcome(x))
            else
              result == (if Full(x, marked + {index}) then RejectSnapshot else Accept)
              && Holds(g, x, untouched, after, Collecting(marked + {index}, held + {index}))
  {
    ChunkFills(g, codec, size, x, untouched, r, marked, held, index, chunk);
    if Intact(x, index, chunk) {
      FullCount(marked + {index}, |x.published.chunks|);
      FinishMeans(g, codec, size, x, marked + {index}, held + {index}, untouched);
      DeliverIntact(g, codec, x, untouched, r, marked + {index}, held + {index}, index, chunk);
    }
  }

  lemma CrashEarly(g: Genesis, codec: Codec, x: Transfer, untouched: Tables, r: Receiver, marked: set<int>, held: set<int>,
                   index: int, chunk: Bytes, point: CrashPoint)
    requires Holds(g, x, untouched, r, Collecting(marked, held)) && (point.AfterFile? || point.AfterSession?)
    requires Expected(r.session.value, index, chunk)
    requires marked + {index} <= AllIndices(|x.published.chunks|) && held + {index} <= AllIndices(|x.published.chunks|)
    requires Mark(r.session.value, index) == SessionOf(x, marked + {index}) && r.files[index := chunk] == FilesOf(x, held + {index})
    ensures Holds(g, x, untouched, CrashState(g, codec, r, index, chunk, point),
                  Collecting(if point.AfterFile? then marked else marked + {index}, held + {index}))
  {
  }

  /** What a crash during or after the import leaves, given how the attempt to restore went. */
  lemma CrashLate(g: Genesis, codec: Codec, x: Transfer, untouched: Tables, r: Receiver, marked: set<int>, held: set<int>,
                  index: int, chunk: Bytes, point: CrashPoint)
    requires x.published.descriptor.metadata.Some? && x.published.descriptor.chunks == |x.published.chunks| && IsPristine(g, untouched)
    requires marked <= AllIndices(|x.published.chunks|) && held <= AllIndices(|x.published.chunks|)
    requires r.session.Some? && Expected(r.session.value, index, chunk) && (point.AfterImport? || point.AfterUnlink?) && r.tables == untouched
    requires Mark(r.session.value, index) == SessionOf(x, marked) && r.files[index := chunk] == FilesOf(x, held)
    requires |marked| < |x.published.chunks| <==> !Full(x, marked)
    requires Finish(g, codec, SessionOf(x, marked), FilesOf(x, held), untouched)
             == if Full(x, held) then (Outcome(x), Some(x.envelope.snapshot.appHash)) else (untouched, None)
    ensures Holds(g, x, untouched, CrashState(g, codec, r, index, chunk, point), Gathered(x, marked, held))
  {
  }

  lemma CrashedChunkHolds(g: Genesis, codec: Codec, size: nat, x: Transfer, untouched: Tables, r: Receiver, marked: set<int>, held: set<int>,
                          index: int, chunk: Bytes, point: CrashPoint)
    requires RoundTrips(codec) && Ready(g, codec, size, x) && Opens(untouched)
    requires Holds(g, x, untouched, r, Collecting(marked, held))
    ensures Holds(g, x, untouched, CrashState(g, codec, r, index, chunk, point),
                  Heard(g, x, r, Collecting(marked, held), CrashedChunk(index, chunk, point)))
  {
    ChunkFills(g, codec, size, x, untouched, r, marked, held, index, chunk);
    if Intact(x, index, chunk) {
      if point.AfterFile? || point.AfterSession? {
        CrashEarly(g, codec, x, untouched, r, marked, held, index, chunk, point);
      } else {
        FullCount(marked + {index}, |x.published.chunks|);
        FinishMeans(g, codec, size, x, marked + {index}, held + {index}, untouched);
        CrashLate(g, codec, x, untouched, r, marked + {index}, held + {index}, index, chunk, point);
      }
    }
  }

  lemma StepHolds(g: Genesis, codec: Codec, size: nat, x: Transfer, untouched: Tables, r: Receiver, track: Track, step: Step)
    requires RoundTrips(codec) && Ready(g, codec, size, x) && Opens(untouched) && Settled(untouched, r)
    requires Holds(g, x, untouched, r, track)
    ensures Holds(g, x, untouched, Next(g, codec, r, step), Heard(g, x, r, track, step))
  {
    if track.Done? {
      StepKeepsBlocks(g, codec, r, step);
    } else {
      match step {
        case OfferStep(d, trusted) => OfferHolds(g, codec, size, x, untouched, r, track, d, trusted);
        case CrashedOffer(d, trusted, kept) => CrashedOfferHolds(g, codec, x, untouched, r, track, d, trusted, kept);
        case ChunkStep(i, chunk) =>
          if track.Collecting? { DeliverOne(g, codec, size, x, untouched, r, track.marked, track.held, i, chunk); }
        case CrashedChunk(i, chunk, point) =>
          if track.Collecting? { CrashedChunkHolds(g, codec, size, x, untouched, r, track.marked, track.held, i, chunk, point); }
      }
    }
  }

  /** Any run at all, with offers of this and other snapshots, corrupt chunks, and crashes anywhere: the
      track tells, from the steps and the accepted offers alone, what the receiver has. In particular
      the transfer completes exactly at an intact chunk (not lost to a crash before the import) after
      which every index is marked and every chunk file is there. */
  lemma {:induction false} RunHolds(g: Genesis, codec: Codec, size: nat, feePool: Address, x: Transfer, start: Receiver, track: Track,
                                    steps: seq<Step>)
    requires RoundTrips(codec) && Ready(g, codec, size, x) && Opens(start.tables) && Settled(start.tables, start)
    requires Holds(g, x, start.tables, start, track)
    ensures Holds(g, x, start.tables, RunSteps(g, codec, start, steps), Follow(g, codec, x, start, track, steps))
  {
    if steps != [] {
      var init, last := steps[..|steps| - 1], steps[|steps| - 1];
      RunHolds(g, codec, size, feePool, x, start, track, init);
      RunSettles(g, codec, feePool, start, init);
      StepHolds(g, codec, size, x, start.tables, RunSteps(g, codec, start, init), Follow(g, codec, x, start, track, init), last);
    }
  }

  // ---- when a transfer completes ----

  ghost predicate Delivery(step: Step) { step.ChunkStep? || step.CrashedChunk? }

  /** The indices brought intact by a delivery that no crash cut short, and by any delivery. */
  ghost function Delivered(x: Transfer, steps: seq<Step>): set<int> {
    set i | 0 <= i < |x.published.chunks| && ChunkStep(i, x.published.chunks[i]) in steps
  }

  ghost function Brought(x: Transfer, steps: seq<Step>): set<int> {
    set i | 0 <= i < |x.published.chunks|
            && exists step :: step in steps && Delivery(step) && step.index == i && step.chunk == x.published.chunks[i]
  }

  lemma DeliveredSnoc(x: Transfer, steps: seq<Step>, step: Step)
    ensures Delivered(x, steps + [step])
            == Delivered(x, steps) + if step.ChunkStep? && Intact(x, step.index, step.chunk) then {step.index} else {}
  {
    forall i | 0 <= i < |x.published.chunks|
      ensures ChunkStep(i, x.published.chunks[i]) in steps + [step]
              <==> ChunkStep(i, x.published.chunks[i]) in steps || step == ChunkStep(i, x.published.chunks[i])
    {
    }
  }

  lemma BroughtSnoc(x: Transfer, steps: seq<Step>, step: Step)
    requires Delivery(step)
    ensures Brought(x, steps + [step]) == Brought(x, steps) + if Intact(x, step.index, step.chunk) then {step.index} else {}
  {
    assert forall other :: other in steps + [step] <==> other in steps || other == step;
  }

  /** Marks and files keep pace with the deliveries. */
  ghost predicate Paced(x: Transfer, track: Track, delivered: set<int>, brought: set<int>) {
    && !track.Elsewhere?
    && (track.Done? ==> Full(x, brought))
    && (track.Collecting? ==> delivered <= track.marked <= track.held <= brought && !Full(x, delivered))
  }

  lemma StepPaces(g: Genesis, x: Transfer, r: Receiver, track: Track, delivered: set<int>, brought: set<int>, step: Step)
    requires Delivery(step) && Paced(x, track, delivered, brought) && brought <= AllIndices(|x.published.chunks|)
    ensures var got := if Intact(x, step.index, step.chunk) then {step.index} else {};
            Paced(x, Heard(g, x, r, track, step), delivered + if step.ChunkStep? then got else {}, brought + got)
  {
  }

  lemma {:induction false} RunPaces(g: Genesis, codec: Codec, x: Transfer, start: Receiver, steps: seq<Step>)
    requires x.published.chunks != [] && forall step :: step in steps ==> Delivery(step)
    ensures Paced(x, Follow(g, codec, x, start, Collecting({}, {}), steps), Delivered(x, steps), Brought(x, steps))
  {
    if steps == [] {
      assert 0 in AllIndices(|x.published.chunks|);
    } else {
      var init, last := steps[..|steps| - 1], steps[|steps| - 1];
      assert steps == init + [last];
      RunPaces(g, codec, x, start, init);
      DeliveredSnoc(x, init, last);
      BroughtSnoc(x, init, last);
      StepPaces(g, x, RunSteps(g, codec, start, init), Follow(g, codec, x, start, Collecting({}, {}), init),
                Delivered(x, init), Brought(x, init), last);
    }
  }

  /** A published snapshot is offered with its application hash to a fresh receiver and its chunks
      arrive in any order, repeated, corrupted, and with crashes. The receiver then holds the source
      state if each chunk arrived intact in a delivery without a crash, and an untouched ledger if some
      chunk never arrived intact; without crashes that is exactly when it does. In between the last
      missing chunk was lost to a crash, and the ledger is one or the other. */
  lemma TransferCompletes(g: Genesis, codec: Codec, size: nat, feePool: Address, x: Transfer, r: Receiver, steps: seq<Step>)
    returns (end: Receiver)
    requires RoundTrips(codec) && Ready(g, codec, size, x) && r.session == None
    requires IsPristine(g, r.tables) && Opens(r.tables)
    requires |x.published.chunks| <= MAX_CHUNKS && x.published.descriptor.metadataSize <= MAX_METADATA_BYTES
    requires forall step :: step in steps ==> Delivery(step)
    ensures end == RunSteps(g, codec, Offer(g, r, x.published.descriptor, Some(x.envelope.snapshot.appHash)).0, steps)
    ensures Full(x, Delivered(x, steps)) ==> end.tables == Outcome(x)
    ensures !Full(x, Brought(x, steps)) ==> end.tables == r.tables
    ensures end.tables == Outcome(x) || end.tables == r.tables
    ensures (forall step :: step in steps ==> step.ChunkStep?) ==> Delivered(x, steps) == Brought(x, steps)
  {
    OfferAcceptedIff(g, codec, size, x, r);
    var session := Offer(g, r, x.published.descriptor, Some(x.envelope.snapshot.appHash)).0;
    assert FilesOf(x, {}) == map[];
    end := RunSteps(g, codec, session, steps);
    RunHolds(g, codec, size, feePool, x, session, Collecting({}, {}), steps);
    RunPaces(g, codec, x, session, steps);
  }

  /** A node of any lineage publishes its state, and a fresh node restores it over the transport. From
      then on the copy answers every operation above its base like the source, application hashes included. */
  lemma SyncedAnswersAlike(g: Genesis, codec: Codec, size: nat, feePool: Address, lineage: Lineage, before: seq<Op>, rows: seq<Listing>,
                           files: map<int, Bytes>, steps: seq<Step>, after: seq<Op>, op: Op)
    returns (t: Tables, x: Transfer, copy: Tables)
    requires size > 0 && RoundTrips(codec) && Born(g, feePool, lineage).Some?
    requires var source := PerformAll(AppOf(g, feePool), Born(g, feePool, lineage).value, before);
             && Lists(rows, source.accounts) && Materialize(g, codec, size, source, rows).Some?
             && var p := Materialize(g, codec, size, source, rows).value;
                && |p.chunks| <= MAX_CHUNKS && p.descriptor.metadataSize <= MAX_METADATA_BYTES
                && (forall i :: 0 <= i < |p.chunks| ==> ChunkStep(i, p.chunks[i]) in steps)
                && (forall step :: step in steps ==> Delivery(step))
                && AboveBase(op, source.height) && (forall o :: o in after ==> AboveBase(o, source.height))
    ensures t == PerformAll(AppOf(g, feePool), Born(g, feePool, lineage).value, before)
    ensures Materialize(g, codec, size, t, rows) == Some(x.published) && Export(g, t, rows) == Ok(x.envelope)
    ensures var offered := Offer(g, Receiver(None, files, Pristine(g)), x.published.descriptor, Some(CurrentHash(AppOf(g, feePool), t))).0;
            copy == RunSteps(g, codec, offered, steps).tables
    ensures var app := AppOf(g, feePool);
            && Respond(app, PerformAll(app, t, after), op) == Respond(app, PerformAll(app, copy, after), op)
            && CurrentHash(app, PerformAll(app, t, after)) == CurrentHash(app, PerformAll(app, copy, after))
  {
    var app, start := AppOf(g, feePool), Born(g, feePool, lineage).value;
    BornIsGenuine(g, feePool, lineage);
    t := PerformAll(app, start, before);
    x := PublishedIsReady(g, codec, size, t, rows);
    var end := TransferCompletes(g, codec, size, feePool, x, Receiver(None, files, Pristine(g)), steps);
    assert Delivered(x, steps) == AllIndices(|x.published.chunks|) by {
      forall i | 0 <= i < |x.published.chunks| ensures i in Delivered(x, steps) { }
    }
    copy := end.tables;
    TableOfListing(rows, t.accounts);
    RestoredAnswersAlike(app, start, before, OriginOf(x.envelope), after, op);
  }
}
