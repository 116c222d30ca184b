/** State sync over an untrusted transport: a snapshot cut into hashed chunks, and the receiver's
    session that collects them in any order. */
module StateSync {
  import opened Models
  import opened Execution
  import opened Blocks
  import opened ExternalStore
  import opened StoreRuns
  import opened Snapshot
  import opened Restore

  type byte = b: int | 0 <= b < 256
  type Bytes = seq<byte>

  /** A string claimed to be a SHA-256 digest: that of some bytes, or none in hexadecimal at all. */
  datatype Sha = Sha(data: Bytes) | NoPreimage(text: string) | NotHex(text: string)

  predicate IsHex(h: Sha) { !h.NotHex? }

  /** Canonical JSON of an envelope, what a JSON parser makes of arbitrary bytes, and the size of the
      canonical JSON of snapshot metadata. */
  datatype Codec = Codec(encode: Envelope -> Bytes, decode: Bytes -> Option<Envelope>, sizeOf: Metadata -> nat)

  ghost predicate RoundTrips(codec: Codec) {
    forall e :: codec.decode(codec.encode(e)) == Some(e)
  }

  datatype Metadata = Metadata(
    protocol: string, chainId: string, fingerprint: Fingerprint, height: int, appHash: Hash, artifact: Artifact,
    transport: Sha, byteLength: int, chunkBytes: int, chunkHashes: seq<Sha>)

  /** `metadata` is `None` where the offered bytes, `metadataSize` of them, do not decode to an object. */
  datatype Descriptor = Descriptor(height: int, format: int, chunks: int, hash: Sha, metadataSize: nat, metadata: Option<Metadata>)

  datatype Session = Session(height: int, chunks: int, hash: Sha, metadata: Metadata, trusted: Hash, received: set<int>)

  /** The `incoming` directory and the application tables of one node. */
  datatype Receiver = Receiver(session: Option<Session>, files: map<int, Bytes>, tables: Tables)

  datatype OfferResult = OfferAccept | OfferReject | OfferRejectFormat | OfferAbort

  datatype ChunkResult = Accept | Completed(height: int, appHash: Hash) | Retry | RejectSnapshot | Abort

  const SNAPSHOT_FORMAT := 1
  const MAX_CHUNKS := 10000
  const MAX_SNAPSHOT_BYTES := 512 * 1024 * 1024
  const MAX_METADATA_BYTES := 4 * 1024 * 1024
  const SYNC_PROTOCOL := "crakbit-comet-state-sync/1"

  // ---- cutting a payload ----

  function Cut(payload: Bytes, size: nat): (chunks: seq<Bytes>)
    requires size > 0
    ensures chunks != []
    decreases |payload|
  {
    if |payload| <= size then [payload] else [payload[..size]] + Cut(payload[size..], size)
  }

  function Join(parts: seq<Bytes>): Bytes {
    if parts == [] then [] else Join(parts[..|parts| - 1]) + parts[|parts| - 1]
  }

  function HashAll(chunks: seq<Bytes>): (hashes: seq<Sha>)
    ensures |hashes| == |chunks| && forall i :: 0 <= i < |chunks| ==> hashes[i] == Sha(chunks[i])
  {
    seq(|chunks|, i requires 0 <= i < |chunks| => Sha(chunks[i]))
  }

  lemma {:induction false} JoinCons(part: Bytes, parts: seq<Bytes>)
    ensures Join([part] + parts) == part + Join(parts)
  {
    if parts == [] {
      assert ([part] + parts)[..0] == [];
    } else {
      var n := |parts| - 1;
      JoinCons(part, parts[..n]);
      assert ([part] + parts)[..n + 1] == [part] + parts[..n];
    }
  }

  /** Joining what was cut gives the payload back, and no chunk too many was cut. */
  lemma {:induction false} CutJoin(payload: Bytes, size: nat)
    requires size > 0
    ensures Join(Cut(payload, size)) == payload
    ensures Times(|Cut(payload, size)| - 1, size) <= |payload| <= Times(|Cut(payload, size)|, size)
    ensures payload != [] ==> Times(|Cut(payload, size)| - 1, size) < |payload|
    decreases |payload|
  {
    if |payload| <= size {
      assert [payload][..0] == [];
      assert Times(1, size) == size + Times(0, size);
    } else {
      var rest := payload[size..];
      CutJoin(rest, size);
      JoinCons(payload[..size], Cut(rest, size));
      assert payload == payload[..size] + rest;
    }
  }

  function Times(n: nat, size: nat): nat { if n == 0 then 0 else size + Times(n - 1, size) }

  lemma CutStep(payload: Bytes, size: nat, offset: nat, chunks: seq<Bytes>)
    requires size > 0 && offset < |payload| && chunks + Cut(payload[offset..], size) == Cut(payload, size)
    ensures offset + size < |payload| ==>
              chunks + [payload[offset..offset + size]] + Cut(payload[offset + size..], size) == Cut(payload, size)
    ensures offset + size >= |payload| ==> chunks + [payload[offset..]] == Cut(payload, size)
  {
    var rest := payload[offset..];
    if offset + size < |payload| {
      assert rest[..size] == payload[offset..offset + size] && rest[size..] == payload[offset + size..];
      assert chunks + [rest[..size]] + Cut(rest[size..], size) == chunks + ([rest[..size]] + Cut(rest[size..], size));
    }
  }

  /** The offset loop of `materialize_latest`. */
  method CutPayload(payload: Bytes, size: nat) returns (chunks: seq<Bytes>)
    requires size > 0
    ensures chunks == Cut(payload, size)
  {
    chunks := [];
    var offset := 0;
    assert payload[0..] == payload;
    while offset < |payload|
      invariant offset < |payload| ==> chunks + Cut(payload[offset..], size) == Cut(payload, size)
      invariant offset >= |payload| > 0 ==> chunks == Cut(payload, size)
      invariant payload == [] ==> chunks == []
      decreases |payload| - offset
    {
      CutStep(payload, size, offset, chunks);
      assert payload[offset..|payload|] == payload[offset..];
      chunks := chunks + [payload[offset..if offset + size < |payload| then offset + size else |payload|]];
      offset := offset + size;
    }
    if chunks == [] { chunks := [[]]; }
  }

  // ---- materializing ----

  /** What a node publishes about its state, and the chunks it serves. */
  datatype Published = Published(descriptor: Descriptor, chunks: seq<Bytes>)

  function MetadataOf(g: Genesis, size: nat, e: Envelope, payload: Bytes, chunks: seq<Bytes>): Metadata {
    Metadata(SYNC_PROTOCOL, g.chainId, FingerprintOf(g), e.snapshot.height, e.snapshot.appHash, e.artifactHash,
             Sha(payload), |payload|, size, HashAll(chunks))
  }

  function Publish(g: Genesis, codec: Codec, size: nat, e: Envelope, payload: Bytes, chunks: seq<Bytes>): Published {
    var metadata := MetadataOf(g, size, e, payload, chunks);
    Published(Descriptor(e.snapshot.height, SNAPSHOT_FORMAT, |chunks|, Sha(payload), codec.sizeOf(metadata), Some(metadata)), chunks)
  }

  /** `materialize_latest`: export, verify the own export, cut and describe it. */
  ghost function Materialize(g: Genesis, codec: Codec, size: nat, t: Tables, rows: seq<Listing>): Option<Published>
    requires size > 0
  {
    match Export(g, t, rows)
    case Err(_) => None
    case Ok(e) =>
      var payload := codec.encode(e);
      if Verify(g, e, Some(e.snapshot.height), Some(e.snapshot.appHash)).Err? then None
      else if e.snapshot.height <= 0 || |payload| > MAX_SNAPSHOT_BYTES then None
      else Some(Publish(g, codec, size, e, payload, Cut(payload, size)))
  }

  // ---- receiving ----

  predicate IsPristine(g: Genesis, t: Tables) {
    t.height == 0 && t.commits == map[] && t.pending == map[] && t.accounts == GenesisAccounts(g)
  }

  /** The checks of `offer_snapshot`, in order; `trusted` is `None` for a malformed hash. */
  function OfferVerdict(g: Genesis, t: Tables, d: Descriptor, trusted: Option<Hash>): OfferResult {
    if d.format != SNAPSHOT_FORMAT then OfferRejectFormat
    else if d.height <= 0 || d.chunks <= 0 || d.chunks > MAX_CHUNKS || !IsHex(d.hash) then OfferReject
    else if trusted.None? then OfferAbort
    else if !IsPristine(g, t) then OfferAbort
    else if d.metadataSize > MAX_METADATA_BYTES || d.metadata.None? then OfferReject
    else
      var m := d.metadata.value;
      if m.protocol != SYNC_PROTOCOL then OfferRejectFormat
      else if m.chainId != g.chainId || m.fingerprint != FingerprintOf(g) || m.height != d.height || m.transport != d.hash then OfferReject
      else if m.appHash != trusted.value then OfferReject
      else if |m.chunkHashes| != d.chunks || exists i :: 0 <= i < |m.chunkHashes| && !IsHex(m.chunkHashes[i]) then OfferReject
      else if m.byteLength < 0 || m.byteLength > MAX_SNAPSHOT_BYTES then OfferReject
      else OfferAccept
  }

  /** `offer_snapshot`: old chunk files go, then the new session is written. */
  function Offer(g: Genesis, r: Receiver, d: Descriptor, trusted: Option<Hash>): (Receiver, OfferResult) {
    var verdict := OfferVerdict(g, r.tables, d, trusted);
    if verdict != OfferAccept then (r, verdict)
    else
      (r.(session := Some(Session(d.height, d.chunks, d.hash, d.metadata.value, trusted.value, {})), files := map[]), verdict)
  }

  /** The chunk hash the session expects at an index. */
  predicate Expected(s: Session, index: int, chunk: Bytes) {
    0 <= index < s.chunks && index < |s.metadata.chunkHashes| && s.metadata.chunkHashes[index] == Sha(chunk)
  }

  function Mark(s: Session, index: int): Session {
    s.(received := set i | i in s.received + {index} && 0 <= i < s.chunks)
  }

  /** Reading the chunk files back in order; nothing if one is missing. */
  function ReadAll(files: map<int, Bytes>, n: nat): Option<Bytes> {
    if n == 0 then Some([])
    else
      match ReadAll(files, n - 1)
      case None => None
      case Some(front) => if n - 1 in files then Some(front + files[n - 1]) else None
  }

  /** The attempt to restore once every index is marked. */
  ghost function Finish(g: Genesis, codec: Codec, s: Session, files: map<int, Bytes>, t: Tables): (Tables, Option<Hash>) {
    match ReadAll(files, if s.chunks >= 0 then s.chunks else 0)
    case None => (t, None)
    case Some(payload) =>
      if |payload| != s.metadata.byteLength || Sha(payload) != s.hash then (t, None)
      else
        match codec.decode(payload)
        case None => (t, None)
        case Some(envelope) =>
          if Verify(g, envelope, Some(s.height), Some(s.trusted)).Err? || envelope.artifactHash != s.metadata.artifact then (t, None)
          else
            match Import(g, t, envelope, Some(s.height), Some(s.trusted))
            case (_, Err(_)) => (t, None)
            case (t', Ok(hash)) => (t', Some(hash))
  }

  /** `apply_chunk` */
  ghost function ApplyChunk(g: Genesis, codec: Codec, r: Receiver, index: int, chunk: Bytes): (Receiver, ChunkResult) {
    if r.session.None? then (r, Abort)
    else
      var s := r.session.value;
      if index < 0 || index >= s.chunks then (r, RejectSnapshot)
      else if !Expected(s, index, chunk) then (r, Retry)
      else
        var files, marked := r.files[index := chunk], Mark(s, index);
        if |marked.received| < s.chunks then (Receiver(Some(marked), files, r.tables), Accept)
        else
          match Finish(g, codec, marked, files, r.tables)
          case (t, None) => (Receiver(Some(marked), files, t), RejectSnapshot)
          case (t, Some(hash)) => (Receiver(None, map[], t), Completed(s.height, hash))
  }

  // ---- the manager object ----

  class CometStateSyncManager {
    const g: Genesis
    const codec: Codec
    const store: ExternalExecutionStore
    var session: Option<Session>
    var files: map<int, Bytes>

    ghost function State(): Receiver
      reads this, store
    {
      Receiver(session, files, store.State())
    }

    constructor (g: Genesis, codec: Codec, store: ExternalExecutionStore, session: Option<Session>, files: map<int, Bytes>)
      ensures this.g == g && this.codec == codec && this.store == store && this.session == session && this.files == files
    {
      this.g, this.codec, this.store, this.session, this.files := g, codec, store, session, files;
    }

    method OfferSnapshot(d: Descriptor, trusted: Option<Hash>) returns (result: OfferResult)
      modifies this
      ensures (State(), result) == Offer(g, old(State()), d, trusted)
    {
      result := OfferVerdict(g, store.State(), d, trusted);
      if result != OfferAccept { return; }
      files := map[];
      session := Some(Session(d.height, d.chunks, d.hash, d.metadata.value, trusted.value, {}));
    }

    method ReadChunks(n: nat) returns (payload: Option<Bytes>)
      ensures payload == ReadAll(files, n)
    {
      var front: Bytes := [];
      for i := 0 to n
        invariant ReadAll(files, i) == Some(front)
      {
        if i !in files {
          MissingStays(files, i + 1, n);
          return None;
        }
        front := front + files[i];
      }
      payload := Some(front);
    }

    method FinishRestore(s: Session) returns (hash: Option<Hash>)
      requires s.chunks >= 0
      modifies store
      ensures (store.State(), hash) == Finish(g, codec, s, files, old(store.State()))
    {
      var payload := ReadChunks(s.chunks);
      if payload.None? { return None; }
      if |payload.value| != s.metadata.byteLength || Sha(payload.value) != s.hash { return None; }
      var envelope := codec.decode(payload.value);
      if envelope.None? { return None; }
      var verified := VerifySnapshot(g, envelope.value, Some(s.height), Some(s.trusted));
      if verified.Err? || envelope.value.artifactHash != s.metadata.artifact { return None; }
      var imported := ImportSnapshot(store, g, envelope.value, Some(s.height), Some(s.trusted));
      hash := if imported.Ok? then Some(imported.value) else None;
    }

    method ApplySnapshotChunk(index: int, chunk: Bytes) returns (result: ChunkResult)
      modifies this, store
      ensures (State(), result) == ApplyChunk(g, codec, old(State()), index, chunk)
    {
      if session.None? { return Abort; }
      var s := session.value;
      if index < 0 || index >= s.chunks { return RejectSnapshot; }
      if !Expected(s, index, chunk) { return Retry; }
      files := files[index := chunk];
      var marked := Mark(s, index);
      session := Some(marked);
      if |marked.received| < s.chunks { return Accept; }
      var hash := FinishRestore(marked);
      if hash.None? { return RejectSnapshot; }
      session := None;
      files := map[];
      result := Completed(s.height, hash.value);
    }
  }

  lemma {:induction false} MissingStays(files: map<int, Bytes>, k: nat, n: nat)
    requires k <= n && ReadAll(files, k) == None
    ensures ReadAll(files, n) == None
    decreases n
  {
    if k < n { MissingStays(files, k, n - 1); }
  }
}
