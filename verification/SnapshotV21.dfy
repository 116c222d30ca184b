/** Snapshots that carry the validator governance state, and the store restored from one. */
module SnapshotV21 {
  import opened Models
  import opened Execution
  import opened Blocks
  import opened StoreV21
  import opened StoreV21Runs
  import ExternalStore
  import Governance
  import Snapshot
  import Ledger

  datatype Envelope = Envelope(snapshot: SnapshotV2, artifactHash: Artifact)

  const FORMAT := "crakbit-external-state-snapshot-v2"
  const PROTOCOL := "crakbit-execution/3"
  const SCHEMA := 21

  function GenesisSet(g: Genesis): Governance.ValidatorSet {
    map a | a in g.validators :: Governance.Member("", 1)
  }

  function Pristine(g: Genesis): Tables {
    Tables(0, Snapshot.Repeat('0', 64), GenesisAccounts(g), Governance.Tables(GenesisSet(g), [], map[], map[]), map[], map[], map[], None)
  }

  /** What opening an existing database insists on. */
  predicate Opens(t: Tables) {
    0 <= t.base <= t.height && t.height == t.base + |t.commits| && t.governance.active != map[]
  }

  /** Where rows are only for heights above the base and up to the height, a database opens exactly if each of
      these heights has its row and there is a validator. */
  lemma OpensIff(t: Tables)
    requires forall h :: h in t.commits ==> t.base < h <= t.height
    ensures Opens(t) <==> 0 <= t.base <= t.height && (forall h :: t.base < h <= t.height ==> h in t.commits) && |t.governance.active| > 0
  {
    if 0 <= t.base <= t.height { Ledger.RowsFill(t.commits.Keys, t.base, t.height - t.base); }
  }

  predicate IdNormal(id: Governance.ChangeId) {
    match id case ChangeId(_) => true case OtherId(text) => ExternalStore.IsHex64(text)
  }

  predicate ChangeNormal(c: Governance.Change) {
    && IdNormal(c.id) && c.emit >= 1 && c.effective == c.emit + 2
    && Governance.ValidSet(c.target) && c.targetHash == Governance.SetHash(c.target)
  }

  /** What `_normalize_governance_state` accepts. */
  predicate Normal(s: Governance.State) {
    && Governance.ValidSet(s.active) && |s.pending| <= 1
    && forall i :: 0 <= i < |s.pending| ==> ChangeNormal(s.pending[i])
  }

  method NormalizeGovernance(s: Governance.State) returns (ok: bool)
    ensures ok == Normal(s)
  {
    if !Governance.ValidSet(s.active) { return false; }
    var seen: set<Governance.ChangeId> := {};
    for i := 0 to |s.pending|
      invariant forall k :: 0 <= k < i ==> ChangeNormal(s.pending[k])
      invariant forall k :: 0 <= k < i ==> s.pending[k].id in seen
      invariant forall id :: id in seen ==> exists k :: 0 <= k < i && s.pending[k].id == id
    {
      if s.pending[i].id in seen { return false; }
      seen := seen + {s.pending[i].id};
      if !ChangeNormal(s.pending[i]) { return false; }
    }
    ok := |s.pending| <= 1;
  }

  /** `application_hash_v21` */
  function HashOf(g: Genesis, height: int, lastHash: string, entries: seq<ExternalStore.Listing>, s: Governance.State): Hash {
    AppHash(g.chainId, height, ExternalStore.Lower(lastHash), Snapshot.Table(entries), s)
  }

  /** `export_external_snapshot_v21`; `rows` is what selecting the accounts table returned. */
  ghost function Export(g: Genesis, t: Tables, rows: seq<ExternalStore.Listing>): Option<Envelope> {
    if !Opens(t) || t.pending != map[] || Snapshot.SumBalances(rows) != Total(GenesisAccounts(g))
       || Snapshot.Complaint(rows).Some? || !Normal(t.governance.Read()) then None
    else
      var s := t.governance.Read();
      var snapshot := SnapshotV2(FORMAT, PROTOCOL, SCHEMA, g.chainId, FingerprintOf(g), t.height, t.lastHash,
                                 HashOf(g, t.height, t.lastHash, rows, s), StateRoot(Snapshot.Table(rows)),
                                 Snapshot.SumBalances(rows), |rows|, rows, GovernanceHash(s), s, t.origin);
      Some(Envelope(snapshot, ArtifactHash(snapshot)))
  }

  /** `verify_external_snapshot_v21` */
  ghost predicate Verified(g: Genesis, e: Envelope, expectedHeight: Option<int>, expectedHash: Option<Hash>) {
    var s := e.snapshot;
    && s.format == FORMAT && s.protocol == PROTOCOL && s.schema == SCHEMA && s.chainId == g.chainId && s.fingerprint == FingerprintOf(g)
    && e.artifactHash == ArtifactHash(s) && s.height >= 0 && ExternalStore.IsHex64(s.lastHash)
    && Snapshot.Complaint(s.entries) == None && s.count == |s.entries| && s.accountsRoot == StateRoot(Snapshot.Table(s.entries))
    && s.issued == Snapshot.SumBalances(s.entries) == Total(GenesisAccounts(g))
    && Normal(s.governance) && s.governanceHash == GovernanceHash(s.governance)
    && s.appHash == HashOf(g, s.height, s.lastHash, s.entries, s.governance)
    && (expectedHeight.Some? ==> s.height == expectedHeight.value) && (expectedHash.Some? ==> s.appHash == expectedHash.value)
  }

  predicate IsPristine(g: Genesis, t: Tables) {
    && t.height == 0 && t.commits == map[] && t.pending == map[] && t.accounts == GenesisAccounts(g)
    && t.governance == Governance.Tables(GenesisSet(g), [], map[], map[])
  }

  /** The base record an import of this envelope writes. */
  function OriginOf(e: Envelope): Origin {
    Origin(e.snapshot.height, e.snapshot.appHash, e.artifactHash)
  }

  /** `import_external_snapshot_v21` */
  ghost function Import(g: Genesis, t: Tables, e: Envelope, expectedHeight: Option<int>, expectedHash: Option<Hash>): Option<Tables> {
    if !Verified(g, e, expectedHeight, expectedHash) || !Opens(t) || !IsPristine(g, t) then None
    else
      var s := e.snapshot;
      Some(Tables(s.height, s.lastHash, Snapshot.Table(s.entries),
                  Governance.Tables(s.governance.active, s.governance.pending, map[], map[]), map[], map[], map[], Some(OriginOf(e))))
  }

  /** The restoring transaction. */
  method ImportRows(store: ExternalExecutionStoreV21, e: Envelope)
    modifies store, store.governance
    ensures var s := e.snapshot;
            store.State() == Tables(s.height, s.lastHash, Snapshot.Table(s.entries),
                                    Governance.Tables(s.governance.active, s.governance.pending, map[], map[]), map[], map[], map[],
                                    Some(OriginOf(e)))
  {
    var s := e.snapshot;
    var accounts: Accounts := map[];
    for i := 0 to |s.entries|
      invariant accounts == Snapshot.Table(s.entries[..i])
    {
      assert s.entries[..i + 1][..i] == s.entries[..i];
      accounts := accounts[s.entries[i].address := Account(s.entries[i].balance, s.entries[i].nonce)];
    }
    assert s.entries[..|s.entries|] == s.entries;
    store.accounts, store.txHeights, store.commits, store.pending := accounts, map[], map[], map[];
    store.governance.active, store.governance.pending := s.governance.active, s.governance.pending;
    store.governance.history, store.governance.emissions := map[], map[];
    store.height, store.lastHash, store.origin := s.height, s.lastHash, Some(OriginOf(e));
  }

  // ---- exactly what is accepted ----

  /** A governance state is normal exactly if it has members, all with power, and at most one change waiting,
      which has a hexadecimal identifier, takes effect two heights after it was emitted at height 1 or above,
      and carries the hash of a target that has members, all with power. */
  lemma NormalIff(s: Governance.State)
    ensures Normal(s)
            <==> && |s.active| > 0 && (forall a :: a in s.active ==> s.active[a].power >= 1)
                 && (s.pending == []
                     || (&& |s.pending| == 1
                         && (s.pending[0].id.ChangeId? || ExternalStore.IsHex64(s.pending[0].id.text))
                         && 1 <= s.pending[0].emit == s.pending[0].effective - 2
                         && |s.pending[0].target| > 0 && (forall a :: a in s.pending[0].target ==> s.pending[0].target[a].power >= 1)
                         && s.pending[0].targetHash.validators == s.pending[0].target))
  {
    if |s.pending| == 1 { assert s.pending == [s.pending[0]]; }
  }

  /** A store in the state the snapshot describes, restored from it. */
  ghost function Described(e: Envelope): Tables {
    var s := e.snapshot;
    Tables(s.height, s.lastHash, Snapshot.Table(s.entries), Governance.Tables(s.governance.active, s.governance.pending, map[], map[]),
           map[], map[], map[], Some(OriginOf(e)))
  }

  /** A snapshot is accepted exactly if it is what a store in the state it describes exports, up to the base
      record of the exporter, with the hash of its own content, a height that is not negative and a
      hexadecimal block hash; and only for the height and application hash expected. */
  lemma VerifiesIff(g: Genesis, e: Envelope, expectedHeight: Option<int>, expectedHash: Option<Hash>)
    ensures Verified(g, e, expectedHeight, expectedHash)
            <==> && e.snapshot.height >= 0 && ExternalStore.IsHex64(e.snapshot.lastHash) && e.artifactHash == ArtifactHash(e.snapshot)
                 && Export(g, Described(e), e.snapshot.entries).Some?
                 && Export(g, Described(e), e.snapshot.entries).value.snapshot == e.snapshot.(sourceBase := Some(OriginOf(e)))
                 && (expectedHeight.Some? ==> e.snapshot.height == expectedHeight.value)
                 && (expectedHash.Some? ==> e.snapshot.appHash == expectedHash.value)
  {
    assert Described(e).governance.Read() == e.snapshot.governance;
  }

  /** An import succeeds exactly for an accepted snapshot and a database at genesis, and then holds what the
      snapshot describes. */
  lemma ImportIff(g: Genesis, t: Tables, e: Envelope, expectedHeight: Option<int>, expectedHash: Option<Hash>)
    requires g.validators != []
    ensures var u := Import(g, t, e, expectedHeight, expectedHash);
            && (u.Some? <==> && Verified(g, e, expectedHeight, expectedHash) && t.base == 0 && t.height == 0
                             && |t.commits| == 0 && |t.pending| == 0 && t.accounts == GenesisAccounts(g)
                             && t.governance.pending == [] && t.governance.history == map[] && t.governance.emissions == map[]
                             && t.governance.active == map a | a in g.validators :: Governance.Member("", 1))
            && (u.Some? ==> u.value == Described(e))
  {
    assert g.validators[0] in GenesisSet(g);
  }

  // ---- round trip ----

  /** What restoring a snapshot of `t` leaves in a fresh store. */
  ghost function Restored(t: Tables, origin: Origin): Tables {
    Tables(t.height, t.lastHash, t.accounts, Governance.Tables(t.governance.active, t.governance.pending, map[], map[]),
           map[], map[], map[], Some(origin))
  }

  lemma {:induction false} FoldKeeps(app: App, start: Tables, reqs: seq<Request>, t: Tables)
    requires AtBase(app, start) && ExternalStore.IsHex64(start.lastHash) && Fold(app, start, reqs) == Some(t)
    ensures ExternalStore.IsHex64(t.lastHash) && Total(t.accounts) == Total(start.accounts)
  {
    if reqs != [] {
      var last := reqs[|reqs| - 1];
      var before := FoldLast(app, start, reqs);
      FoldKeeps(app, start, reqs[..|reqs| - 1], before);
      ExternalStore.HexCase(last.blockHash, t.lastHash) by { LowerTwice(last.blockHash); }
      ExecuteConserves(before.accounts, BatchOf(last).transfers, app.feePool, RulesOf(app.g));
    }
  }

  lemma ReachableNormal(app: App, t: Tables)
    requires GovernanceOk(app, t)
    ensures Normal(t.governance.Read())
  {
    if t.governance.pending != [] {
      Governance.TargetValid(t.governance.active, t.governance.pending[0].updates);
    }
  }

  ghost predicate Genuine(app: App, start: Tables) {
    AtBase(app, start) && Total(start.accounts) == Total(GenesisAccounts(app.g)) && ExternalStore.IsHex64(start.lastHash)
  }

  /** In a reachable state the governance part never stands in the way of an export: it succeeds exactly
      when no finalize is pending and every account is well formed and not negative. */
  lemma ExportSucceedsIff(app: App, start: Tables, ops: seq<Op>, rows: seq<ExternalStore.Listing>) returns (t: Tables)
    requires Genuine(app, start) && Snapshot.Lists(rows, PerformAll(app, start, ops).accounts)
    ensures t == PerformAll(app, start, ops)
    ensures Export(app.g, t, rows).Some? <==> t.pending == map[] && Snapshot.Exportable(t.accounts)
  {
    var image, n;
    t, image, n := StoreInvariant(app, start, ops);
    var done, staged := ReachableIsFold(app, start, ops);
    FoldKeeps(app, start, done, Fold(app, start, done).value);
    ReachableNormal(app, image);
    Snapshot.TableOfListing(rows, t.accounts);
    Snapshot.ListingIsNormal(rows, t.accounts);
  }

  /** What the round trip needs of the exporter. */
  ghost predicate Intact(app: App, t: Tables) {
    && t.height >= 0 && GovernanceOk(app, t)
    && Total(t.accounts) == Total(GenesisAccounts(app.g)) && ExternalStore.IsHex64(t.lastHash)
  }

  lemma ReachedGenuine(app: App, start: Tables, ops: seq<Op>, t: Tables)
    requires Genuine(app, start) && t == PerformAll(app, start, ops)
    ensures Intact(app, t)
  {
    var done, staged := ReachableIsFold(app, start, ops);
    var image := DescribedTables(app, start, t, done, staged);
    FoldKeeps(app, start, done, image);
  }

  lemma ExportImports(app: App, t: Tables, rows: seq<ExternalStore.Listing>, e: Envelope)
    requires Intact(app, t) && app.g.validators != [] && Snapshot.Lists(rows, t.accounts) && Export(app.g, t, rows) == Some(e)
    ensures Verified(app.g, e, Some(t.height), Some(CurrentHash(app, t)))
    ensures Import(app.g, Pristine(app.g), e, Some(t.height), Some(CurrentHash(app, t))) == Some(Restored(t, OriginOf(e)))
    ensures OriginOf(e) == Origin(t.height, CurrentHash(app, t), e.artifactHash)
    ensures var u := Restored(t, OriginOf(e)); CurrentHash(app, u) == CurrentHash(app, t) && Opens(u) && Genuine(app, u)
  {
    Snapshot.TableOfListing(rows, t.accounts);
    assert app.g.validators[0] in GenesisSet(app.g);
  }

  /** Whenever export succeeds in a reachable state, the envelope verifies, also against the
      exporter's height and application hash, and importing it into a fresh store succeeds, opens,
      and has the same application hash, validator set and pending change. */
  lemma RoundTrip(app: App, start: Tables, ops: seq<Op>, rows: seq<ExternalStore.Listing>) returns (t: Tables, e: Envelope)
    requires Genuine(app, start) && app.g.validators != []
    requires Snapshot.Lists(rows, PerformAll(app, start, ops).accounts)
    requires Export(app.g, PerformAll(app, start, ops), rows).Some?
    ensures t == PerformAll(app, start, ops) && Export(app.g, t, rows) == Some(e)
    ensures Verified(app.g, e, Some(t.height), Some(CurrentHash(app, t)))
    ensures Import(app.g, Pristine(app.g), e, Some(t.height), Some(CurrentHash(app, t))) == Some(Restored(t, OriginOf(e)))
    ensures OriginOf(e) == Origin(t.height, CurrentHash(app, t), e.artifactHash)
    ensures var u := Restored(t, OriginOf(e)); CurrentHash(app, u) == CurrentHash(app, t) && Opens(u) && Genuine(app, u)
  {
    t := PerformAll(app, start, ops);
    e := Export(app.g, t, rows).value;
    ReachedGenuine(app, start, ops, t);
    ExportImports(app, t, rows, e);
  }

  /** How many restores lie behind a snapshot, one inside the other. */
  function Depth(s: SnapshotV2): nat
    decreases s
  {
    if s.sourceBase.None? then 0 else 1 + Depth(s.sourceBase.value.artifact.snapshot)
  }

  /** A restored copy never exports the snapshot it came from, although its application hash is the same. */
  lemma CopyExportsAnother(g: Genesis, t: Tables, rows: seq<ExternalStore.Listing>)
    requires Export(g, t, rows).Some?
    ensures var e := Export(g, t, rows).value; var copy := Export(g, Restored(t, OriginOf(e)), rows);
            && copy.Some? && copy.value.snapshot.appHash == e.snapshot.appHash
            && Depth(copy.value.snapshot) == Depth(e.snapshot) + 1 && copy.value.artifactHash != e.artifactHash
  {
    var e := Export(g, t, rows).value;
    var copy := Export(g, Restored(t, OriginOf(e)), rows).value;
    assert copy.snapshot.sourceBase == Some(OriginOf(e));
  }

  // ---- bisimulation ----

  datatype Answer = Staging(Result<Reply, StoreError>) | Committing(Result<CommitReply, StoreError>) | Silence

  ghost function Respond(app: App, t: Tables, op: Op): Answer {
    match op
    case StageOp(req) => Staging(Stage(app, t, req).1)
    case CommitOp => Committing(Commit(app, t).1)
    case Reopen => Silence
  }

  ghost predicate SameState(t: Tables, u: Tables) {
    && t.height == u.height && t.lastHash == u.lastHash && t.accounts == u.accounts
    && t.governance.Read() == u.governance.Read() && t.pending == u.pending == map[]
  }

  ghost predicate SameRows(b: int, t: map<int, Row>, u: map<int, Row>) {
    && (forall h :: h > b ==> (h in t <==> h in u))
    && (forall h :: h > b && h in t ==> t[h] == u[h])
  }

  ghost predicate SameEmissions(b: int, t: Governance.Tables, u: Governance.Tables) {
    forall h :: h > b ==> EmissionFor(t, h) == EmissionFor(u, h)
  }

  /** Two clean stores in the same state, with the same records above height `b`. */
  ghost predicate Twins(app: App, b: int, t: Tables, u: Tables) {
    SameState(t, u) && t.height >= b && SameRows(b, t.commits, u.commits) && SameEmissions(b, t.governance, u.governance)
  }

  lemma TwinsFollow(app: App, b: int, t: Tables, u: Tables, req: Request)
    requires Twins(app, b, t, u)
    ensures Follows(app, t, req) <==> Follows(app, u, req)
    ensures Follows(app, t, req) ==>
              EffectOf(app, t, req) == EffectOf(app, u, req) && StagedRow(app, t, req) == StagedRow(app, u, req)
  {
    assert CurrentHash(app, t) == CurrentHash(app, u);
    assert forall batch, pool :: Evaluate(app, t, req.height, batch, pool) == Evaluate(app, u, req.height, batch, pool);
  }

  lemma GovernanceAlike(app: App, b: int, t: Tables, u: Tables, req: Request)
    requires Follows(app, t, req) && Follows(app, u, req) && GovernanceOk(app, t) && GovernanceOk(app, u)
    requires t.height == u.height && t.governance.Read() == u.governance.Read() && SameEmissions(b, t.governance, u.governance)
    ensures GovernanceAfter(app, t, req).Read() == GovernanceAfter(app, u, req).Read()
    ensures SameEmissions(b, GovernanceAfter(app, t, req), GovernanceAfter(app, u, req))
  {
    GovernanceCommits(app, t, req);
    GovernanceCommits(app, u, req);
    Governance.CommitIsSimulate(app.g, t.governance, req.height, BatchOf(req).change);
    Governance.CommitIsSimulate(app.g, u.governance, req.height, BatchOf(req).change);
    forall h | h > b ensures EmissionFor(GovernanceAfter(app, t, req), h) == EmissionFor(GovernanceAfter(app, u, req), h) {
      if h <= t.height { assert EmissionFor(t.governance, h) == EmissionFor(u.governance, h); }
    }
  }

  lemma RowsAlike(b: int, t: map<int, Row>, u: map<int, Row>, height: int, row: Row)
    requires SameRows(b, t, u)
    ensures SameRows(b, t[height := row], u[height := row])
  {
  }

  lemma TwinsApplied(app: App, b: int, t: Tables, u: Tables, req: Request)
    requires Twins(app, b, t, u) && Follows(app, t, req) && GovernanceOk(app, t) && GovernanceOk(app, u)
    ensures Follows(app, u, req) && Twins(app, b, Applied(app, t, req), Applied(app, u, req))
  {
    TwinsFollow(app, b, t, u, req);
    GovernanceAlike(app, b, t, u, req);
    RowsAlike(b, t.commits, u.commits, req.height, StagedRow(app, t, req));
  }

  /** A store and the restored one, each with its own past, in the middle of the same future. */
  datatype Pair = Pair(one: Tables, oneBase: int, oneRows: nat, other: Tables, otherRows: nat, staged: Option<Request>)

  ghost predicate PairOk(app: App, b: int, p: Pair) {
    && Sound(app, p.one, p.oneBase, p.oneRows) && Sound(app, p.other, b, p.otherRows) && Twins(app, b, p.one, p.other)
    && (p.staged.Some? ==> Follows(app, p.one, p.staged.value) && Follows(app, p.other, p.staged.value))
  }

  ghost function With(app: App, t: Tables, staged: Option<Request>): Tables
    requires staged.Some? ==> Follows(app, t, staged.value)
  {
    if staged.Some? then Pending(app, t, staged.value) else t
  }

  ghost predicate AboveBase(op: Op, base: int) {
    op.StageOp? ==> op.req.height > base
  }

  lemma ReplaysAlike(app: App, b: int, p: Pair, req: Request)
    requires PairOk(app, b, p) && b < req.height <= p.one.height
    ensures Stage(app, With(app, p.one, p.staged), req).1 == Stage(app, With(app, p.other, p.staged), req).1
    ensures Stage(app, With(app, p.one, p.staged), req).0 == With(app, p.one, p.staged)
    ensures Stage(app, With(app, p.other, p.staged), req).0 == With(app, p.other, p.staged)
  {
  }

  lemma EvaluateSame(app: App, t: Tables, u: Tables)
    requires t.accounts == u.accounts && t.governance.Read() == u.governance.Read()
    ensures forall height, batch, pool :: Evaluate(app, t, height, batch, pool) == Evaluate(app, u, height, batch, pool)
  {
  }

  /** Staging the next height looks at the state and the pending rows only. */
  lemma StageSame(app: App, t: Tables, u: Tables, req: Request)
    requires t.height == u.height && t.lastHash == u.lastHash && t.accounts == u.accounts && t.governance.Read() == u.governance.Read()
    requires t.pending == u.pending && req.height > t.height
    ensures Stage(app, t, req).1 == Stage(app, u, req).1
  {
    assert CurrentHash(app, t) == CurrentHash(app, u);
    EvaluateSame(app, t, u);
  }

  lemma StagesAlike(app: App, b: int, p: Pair, req: Request)
    requires PairOk(app, b, p) && req.height > p.one.height
    ensures Stage(app, With(app, p.one, p.staged), req).1 == Stage(app, With(app, p.other, p.staged), req).1
  {
    if p.staged.Some? { TwinsFollow(app, b, p.one, p.other, p.staged.value); }
    StageSame(app, With(app, p.one, p.staged), With(app, p.other, p.staged), req);
  }

  lemma StepStage(app: App, b: int, p: Pair, req: Request) returns (q: Pair)
    requires PairOk(app, b, p) && req.height > b
    ensures PairOk(app, b, q)
    ensures Stage(app, With(app, p.one, p.staged), req).1 == Stage(app, With(app, p.other, p.staged), req).1
    ensures Stage(app, With(app, p.one, p.staged), req).0 == With(app, q.one, q.staged)
    ensures Stage(app, With(app, p.other, p.staged), req).0 == With(app, q.other, q.staged)
  {
    q := p;
    if req.height <= p.one.height { ReplaysAlike(app, b, p, req); }
    else if p.staged.Some? {
      StagesAlike(app, b, p, req);
      StageOnPending(app, p.one, p.staged.value, req);
      StageOnPending(app, p.other, p.staged.value, req);
    } else {
      StagesAlike(app, b, p, req);
      StageOnClean(app, p.one, req);
      StageOnClean(app, p.other, req);
      TwinsFollow(app, b, p.one, p.other, req);
      if Follows(app, p.one, req) { q := p.(staged := Some(req)); }
    }
  }

  lemma AppliedSound(app: App, t: Tables, req: Request, base: int, n: nat)
    requires Sound(app, t, base, n) && Follows(app, t, req)
    ensures Sound(app, Applied(app, t, req), base, n + 1)
  {
    RowAdded(t, base, n, StagedRow(app, t, req), Applied(app, t, req));
    AppliedSpent(app, t, req);
    GovernanceCommits(app, t, req);
  }

  lemma StepCommit(app: App, b: int, p: Pair) returns (q: Pair)
    requires PairOk(app, b, p)
    ensures PairOk(app, b, q)
    ensures Commit(app, With(app, p.one, p.staged)).1 == Commit(app, With(app, p.other, p.staged)).1
    ensures Commit(app, With(app, p.one, p.staged)).0 == With(app, q.one, q.staged)
    ensures Commit(app, With(app, p.other, p.staged)).0 == With(app, q.other, q.staged)
  {
    q := p;
    if p.staged.Some? {
      var req := p.staged.value;
      TwinsFollow(app, b, p.one, p.other, req);
      CommitOnPending(app, p.one, req, p.oneBase, p.oneRows);
      CommitOnPending(app, p.other, req, b, p.otherRows);
      AppliedSound(app, p.one, req, p.oneBase, p.oneRows);
      AppliedSound(app, p.other, req, b, p.otherRows);
      TwinsApplied(app, b, p.one, p.other, req);
      q := Pair(Applied(app, p.one, req), p.oneBase, p.oneRows + 1, Applied(app, p.other, req), p.otherRows + 1, None);
    } else {
      assert CurrentHash(app, p.one) == CurrentHash(app, p.other);
    }
  }

  lemma StepPair(app: App, b: int, p: Pair, op: Op) returns (q: Pair)
    requires PairOk(app, b, p) && AboveBase(op, b)
    ensures PairOk(app, b, q)
    ensures Respond(app, With(app, p.one, p.staged), op) == Respond(app, With(app, p.other, p.staged), op)
    ensures Perform(app, With(app, p.one, p.staged), op) == With(app, q.one, q.staged)
    ensures Perform(app, With(app, p.other, p.staged), op) == With(app, q.other, q.staged)
  {
    match op {
      case StageOp(req) => q := StepStage(app, b, p, req);
      case CommitOp => q := StepCommit(app, b, p);
      case Reopen => q := p;
    }
  }

  lemma {:induction false} RunPair(app: App, b: int, p: Pair, ops: seq<Op>) returns (q: Pair)
    requires PairOk(app, b, p) && p.staged == None && forall op :: op in ops ==> AboveBase(op, b)
    ensures PairOk(app, b, q)
    ensures PerformAll(app, p.one, ops) == With(app, q.one, q.staged)
    ensures PerformAll(app, p.other, ops) == With(app, q.other, q.staged)
  {
    if ops == [] { q := p; }
    else {
      assert ops[|ops| - 1] in ops;
      var mid := RunPair(app, b, p, ops[..|ops| - 1]);
      q := StepPair(app, b, mid, ops[|ops| - 1]);
    }
  }

  /** After a snapshot is taken and restored, the original and the restored store answer every
      operation above the base height alike, validator updates and hashes included, for every
      continuation. */
  lemma RestoreIsBisimulation(app: App, start: Tables, before: seq<Op>, rows: seq<ExternalStore.Listing>, after: seq<Op>, op: Op)
    returns (t: Tables, restored: Tables)
    requires Genuine(app, start) && app.g.validators != []
    requires Snapshot.Lists(rows, PerformAll(app, start, before).accounts)
    requires Export(app.g, PerformAll(app, start, before), rows).Some?
    requires AboveBase(op, PerformAll(app, start, before).height)
    requires forall o :: o in after ==> AboveBase(o, PerformAll(app, start, before).height)
    ensures t == PerformAll(app, start, before)
    ensures Import(app.g, Pristine(app.g), Export(app.g, t, rows).value, Some(t.height), Some(CurrentHash(app, t))) == Some(restored)
    ensures Respond(app, PerformAll(app, t, after), op) == Respond(app, PerformAll(app, restored, after), op)
  {
    var e;
    t, e := RoundTrip(app, start, before, rows);
    restored := Restored(t, OriginOf(e));
    var done, staged := ReachableIsFold(app, start, before);
    assert staged.Some? ==> staged.value.height in t.pending;
    var image := FoldSound(app, start, done);
    var p := Pair(t, start.base, |done|, restored, 0, None);
    assert Sound(app, restored, t.height, 0);
    assert Twins(app, t.height, t, restored);
    var q := RunPair(app, t.height, p, after);
    var q' := StepPair(app, t.height, q, op);
  }
}
