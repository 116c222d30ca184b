/** A store restored from a snapshot behaves, from then on, like the store it was taken from. */
module Restore {
  import opened Models
  import opened Execution
  import opened Blocks
  import opened ExternalStore
  import opened StoreRuns
  import opened Snapshot

  /** A store at its base whose contents the genesis accounts for. */
  ghost predicate Genuine(g: Genesis, start: Tables) {
    AtBase(start) && Total(start.accounts) == Total(GenesisAccounts(g)) && IsHex64(start.lastHash)
  }

  lemma LowerHex(s: string)
    requires IsHex64(s)
    ensures IsHex64(Lower(s))
  {
    forall i | 0 <= i < 64 ensures HexDigit(Lower(s)[i]) {
      assert HexDigit(s[i]) && Lower(s)[i] == LowerChar(s[i]);
    }
  }

  lemma {:induction false} FoldHex(app: App, start: Tables, reqs: seq<Request>)
    requires Fold(app, start, reqs).Some? && IsHex64(start.lastHash)
    ensures IsHex64(Fold(app, start, reqs).value.lastHash)
  {
    if reqs != [] {
      var before := FoldLast(app, start, reqs);
      LowerHex(reqs[|reqs| - 1].blockHash);
    }
  }

  /** What restoring a snapshot of `t` leaves in a fresh store. */
  ghost function Restored(t: Tables, origin: Origin): Tables {
    Tables(t.height, t.lastHash, t.accounts, map[], map[], map[], Some(origin))
  }

  /** Whenever export succeeds in a reachable state, verification accepts the envelope (also
      against the exporter's own height and application hash), and importing it into a fresh
      store of the same genesis succeeds, opens, and has the same application hash. */
  lemma RoundTrip(g: Genesis, feePool: Address, start: Tables, ops: seq<Op>, rows: seq<Listing>)
    returns (t: Tables, envelope: Envelope)
    requires Genuine(g, start)
    requires Lists(rows, PerformAll(AppOf(g, feePool), start, ops).accounts)
    requires Export(g, PerformAll(AppOf(g, feePool), start, ops), rows).Ok?
    ensures t == PerformAll(AppOf(g, feePool), start, ops) && Export(g, t, rows) == Ok(envelope)
    ensures var hash := CurrentHash(AppOf(g, feePool), t);
            && Verify(g, envelope, Some(t.height), Some(hash)) == Ok(hash)
            && Import(g, Pristine(g), envelope, Some(t.height), Some(hash)) == (Restored(t, OriginOf(envelope)), Ok(hash))
            && OriginOf(envelope) == Origin(t.height, hash, envelope.artifactHash)
            && CurrentHash(AppOf(g, feePool), Restored(t, OriginOf(envelope))) == hash
    ensures Genuine(g, Restored(t, OriginOf(envelope))) && Opens(Restored(t, OriginOf(envelope)))
  {
    var app := AppOf(g, feePool);
    t := PerformAll(app, start, ops);
    envelope := Export(g, t, rows).value;
    var done, staged := ReachableIsFold(app, start, ops);
    var image := DescribedTables(app, start, t, done, staged);
    assert IsHex64(t.lastHash) by { FoldHex(app, start, done); }
    assert Total(t.accounts) == Total(start.accounts) by { FoldConserves(app, start, done); }
    TableOfListing(rows, t.accounts);
  }

  // ---- bisimulation ----

  datatype Answer = Staging(Result<Reply, StoreError>) | Committing(Result<CommitReply, StoreError>) | Silence

  /** What the caller of one operation sees. */
  ghost function Respond(app: App, t: Tables, op: Op): Answer {
    match op
    case StageOp(req) => Staging(Stage(app, t, req).1)
    case ReplayOp(req) => Staging(ReplaySafe(app, t, req).1)
    case CommitOp => Committing(Commit(app, t).1)
    case Reopen => Silence
  }

  ghost predicate AboveBase(op: Op, base: int) {
    op.StageOp? || op.ReplayOp? ==> op.req.height > base
  }

  ghost predicate PendingNamed(t: Tables) {
    forall h :: h in t.pending ==> t.pending[h].row.requestHash.RequestHash? && t.pending[h].row.requestHash.height == h
  }

  ghost predicate NoRowAbove(t: Tables) {
    forall h :: h in t.commits ==> h <= t.height
  }

  ghost predicate SameState(t: Tables, u: Tables) {
    t.height == u.height && t.lastHash == u.lastHash && t.accounts == u.accounts && t.pending == u.pending
  }

  ghost predicate SameRows(b: int, t: map<int, Row>, u: map<int, Row>) {
    && (forall h :: h > b ==> (h in t <==> h in u))
    && (forall h :: h > b && h in t ==> t[h] == u[h])
  }

  /** What one store's own past leaves behind. */
  ghost predicate Orderly(t: Tables) {
    Spent(t) && HashesNameHeights(t) && NoRowAbove(t)
  }

  /** Two stores that agree on everything above height `b` and on the current state. */
  ghost predicate Alike(b: int, t: Tables, u: Tables) {
    && b <= t.height && SameState(t, u) && SameRows(b, t.commits, u.commits)
    && Orderly(t) && Orderly(u) && PendingNamed(t)
  }

  /** Staging looks at the state and at one row, and writes only the pending table. */
  lemma StageSame(app: App, t: Tables, u: Tables, req: Request)
    requires SameState(t, u) && (req.height in t.commits <==> req.height in u.commits)
    requires req.height in t.commits ==> t.commits[req.height] == u.commits[req.height]
    ensures Stage(app, t, req).1 == Stage(app, u, req).1
    ensures Stage(app, t, req).0 == t.(pending := Stage(app, t, req).0.pending)
    ensures Stage(app, u, req).0 == u.(pending := Stage(app, t, req).0.pending)
  {
    assert CurrentHash(app, t) == CurrentHash(app, u);
  }

  lemma StageNames(app: App, t: Tables, req: Request)
    requires PendingNamed(t)
    ensures PendingNamed(Stage(app, t, req).0)
  {
  }

  lemma StageAlike(app: App, b: int, t: Tables, u: Tables, req: Request)
    requires Alike(b, t, u) && req.height > b
    ensures Stage(app, t, req).1 == Stage(app, u, req).1
    ensures Alike(b, Stage(app, t, req).0, Stage(app, u, req).0)
  {
    StageSame(app, t, u, req);
    StageNames(app, t, req);
  }

  lemma ReplayAlike(app: App, b: int, t: Tables, u: Tables, req: Request)
    requires Alike(b, t, u) && req.height > b
    ensures ReplaySafe(app, t, req).1 == ReplaySafe(app, u, req).1
    ensures Alike(b, ReplaySafe(app, t, req).0, ReplaySafe(app, u, req).0)
  {
    if req.height > t.height { StageAlike(app, b, t, u, req); }
  }

  /** A batch that executes is new to the transaction table. */
  lemma ExecutableIsNew(app: App, t: Tables, txs: seq<Transaction>, feeRecipient: Address)
    requires Spent(t) && Execute(t.accounts, txs, feeRecipient, app.rules).Ok?
    ensures forall tx :: tx in txs ==> TxId(tx) !in t.txHeights
  {
    ExecutedNonces(t.accounts, txs, feeRecipient, app.rules);
  }

  lemma RecordedSpent(app: App, t: Tables, txs: seq<Transaction>, height: int, feeRecipient: Address)
    requires Spent(t) && Execute(t.accounts, txs, feeRecipient, app.rules).Ok?
    ensures var after := Execute(t.accounts, txs, feeRecipient, app.rules).value;
            forall id :: id in Recorded(t.txHeights, txs, height) ==> id.TxId? && id.tx.nonce <= Get(after, id.tx.sender).nonce
  {
    ExecutedNonces(t.accounts, txs, feeRecipient, app.rules);
    var after := Execute(t.accounts, txs, feeRecipient, app.rules).value;
    forall id | id in Recorded(t.txHeights, txs, height) ensures id.TxId? && id.tx.nonce <= Get(after, id.tx.sender).nonce {
      if id !in t.txHeights {
        var i :| 0 <= i < |txs| && TxIds(txs)[i] == id;
        assert txs[i] in txs;
      } else {
        assert Get(t.accounts, id.tx.sender).nonce <= Get(after, id.tx.sender).nonce;
      }
    }
  }

  /** What committing a pending row does, with the row statements replaced by the batch meaning. */
  lemma CommitRowMeans(app: App, t: Tables, h: int, p: PendingRow)
    requires Orderly(t)
    requires p.row.requestHash.RequestHash? && p.row.requestHash.height == h
    ensures var result := Execute(t.accounts, p.txs, p.row.feeRecipient, app.rules);
            CommitRow(app, t, h, p)
            == if h != t.height + 1 then (t, Err(PendingNotNext))
               else if CurrentHash(app, t) != p.row.previous then (t, Err(StateMoved))
               else if result.Err? then (t, Err(BadBatch(result.error)))
               else if AppHash(app.rules.chainId, h, p.row.blockHash, result.value) != p.row.next then (t, Err(StagedHashMismatch))
               else (TablesAfter(t, h, p, result.value), Ok(Committed(h, p.row)))
  {
    if Execute(t.accounts, p.txs, p.row.feeRecipient, app.rules).Ok? {
      ExecutableIsNew(app, t, p.txs, p.row.feeRecipient);
      RowsRefineSimulation(app, Rows(t.accounts, t.txHeights), p.txs, h, p.row.feeRecipient);
    }
  }

  /** The tables a successful commit leaves. */
  ghost function TablesAfter(t: Tables, h: int, p: PendingRow, after: Accounts): Tables {
    Tables(h, p.row.blockHash, after, t.pending - {h}, t.commits[h := p.row], Recorded(t.txHeights, p.txs, h), t.origin)
  }

  lemma AfterOrderly(app: App, t: Tables, h: int, p: PendingRow, after: Accounts)
    requires Orderly(t) && h == t.height + 1 && p.row.requestHash.RequestHash? && p.row.requestHash.height == h
    requires Execute(t.accounts, p.txs, p.row.feeRecipient, app.rules) == Ok(after)
    ensures Orderly(TablesAfter(t, h, p, after))
  {
    RecordedSpent(app, t, p.txs, h, p.row.feeRecipient);
  }

  lemma RowsAlike(b: int, t: map<int, Row>, u: map<int, Row>, h: int, row: Row)
    requires SameRows(b, t, u)
    ensures SameRows(b, t[h := row], u[h := row])
  {
  }

  lemma AfterAlike(app: App, b: int, t: Tables, u: Tables, h: int, p: PendingRow, after: Accounts)
    requires Alike(b, t, u) && h == t.height + 1 && p.row.requestHash.RequestHash? && p.row.requestHash.height == h
    requires Execute(t.accounts, p.txs, p.row.feeRecipient, app.rules) == Ok(after)
    ensures Alike(b, TablesAfter(t, h, p, after), TablesAfter(u, h, p, after))
  {
    AfterOrderly(app, t, h, p, after);
    AfterOrderly(app, u, h, p, after);
    RowsAlike(b, t.commits, u.commits, h, p.row);
  }

  lemma CommitRowAlike(app: App, b: int, t: Tables, u: Tables, h: int, p: PendingRow)
    requires Alike(b, t, u) && p.row.requestHash.RequestHash? && p.row.requestHash.height == h
    ensures CommitRow(app, t, h, p).1 == CommitRow(app, u, h, p).1
    ensures Alike(b, CommitRow(app, t, h, p).0, CommitRow(app, u, h, p).0)
  {
    CommitRowMeans(app, t, h, p);
    CommitRowMeans(app, u, h, p);
    assert CurrentHash(app, t) == CurrentHash(app, u);
    var result := Execute(t.accounts, p.txs, p.row.feeRecipient, app.rules);
    if h == t.height + 1 && result.Ok? { AfterAlike(app, b, t, u, h, p, result.value); }
  }

  lemma CommitAlike(app: App, b: int, t: Tables, u: Tables)
    requires Alike(b, t, u)
    ensures Commit(app, t).1 == Commit(app, u).1
    ensures Alike(b, Commit(app, t).0, Commit(app, u).0)
  {
    if t.pending != map[] {
      CommitRowAlike(app, b, t, u, Lowest(t.pending), t.pending[Lowest(t.pending)]);
    } else {
      assert CurrentHash(app, t) == CurrentHash(app, u);
    }
  }

  lemma StepAlike(app: App, b: int, t: Tables, u: Tables, op: Op)
    requires Alike(b, t, u) && AboveBase(op, b)
    ensures Respond(app, t, op) == Respond(app, u, op)
    ensures Alike(b, Perform(app, t, op), Perform(app, u, op))
  {
    match op {
      case StageOp(req) => StageAlike(app, b, t, u, req);
      case ReplayOp(req) => ReplayAlike(app, b, t, u, req);
      case CommitOp => CommitAlike(app, b, t, u);
      case Reopen =>
    }
  }

  lemma {:induction false} RunsAlike(app: App, b: int, t: Tables, u: Tables, ops: seq<Op>)
    requires Alike(b, t, u) && forall op :: op in ops ==> AboveBase(op, b)
    ensures Alike(b, PerformAll(app, t, ops), PerformAll(app, u, ops))
  {
    if ops != [] {
      var init, last := ops[..|ops| - 1], ops[|ops| - 1];
      assert last in ops;
      RunsAlike(app, b, t, u, init);
      StepAlike(app, b, PerformAll(app, t, init), PerformAll(app, u, init), last);
    }
  }

  lemma RestoredAlike(app: App, start: Tables, ops: seq<Op>, origin: Origin)
    requires AtBase(start) && PerformAll(app, start, ops).pending == map[]
    ensures var t := PerformAll(app, start, ops); Alike(t.height, t, Restored(t, origin))
  {
    var t := PerformAll(app, start, ops);
    var done, staged := ReachableIsFold(app, start, ops);
    var image := DescribedTables(app, start, t, done, staged);
    assert t == image;
  }

  lemma RestoredAnswersAlike(app: App, start: Tables, before: seq<Op>, origin: Origin, after: seq<Op>, op: Op)
    requires AtBase(start) && PerformAll(app, start, before).pending == map[]
    requires var base := PerformAll(app, start, before).height;
             AboveBase(op, base) && forall o :: o in after ==> AboveBase(o, base)
    ensures var t := PerformAll(app, start, before); var u := Restored(t, origin);
            && Respond(app, PerformAll(app, t, after), op) == Respond(app, PerformAll(app, u, after), op)
            && CurrentHash(app, PerformAll(app, t, after)) == CurrentHash(app, PerformAll(app, u, after))
  {
    var t := PerformAll(app, start, before);
    var u := Restored(t, origin);
    RestoredAlike(app, start, before, origin);
    RunsAlike(app, t.height, t, u, after);
    StepAlike(app, t.height, PerformAll(app, t, after), PerformAll(app, u, after), op);
  }

  /** After a snapshot is taken and restored, the original and the restored store answer every
      operation above the base height alike, request hashes and application hashes included, for
      every continuation. */
  lemma RestoreIsBisimulation(g: Genesis, feePool: Address, start: Tables, before: seq<Op>, rows: seq<Listing>, after: seq<Op>, op: Op)
    returns (t: Tables, restored: Tables, hash: Hash)
    requires Genuine(g, start)
    requires Lists(rows, PerformAll(AppOf(g, feePool), start, before).accounts)
    requires Export(g, PerformAll(AppOf(g, feePool), start, before), rows).Ok?
    requires var base := PerformAll(AppOf(g, feePool), start, before).height;
             AboveBase(op, base) && forall o :: o in after ==> AboveBase(o, base)
    ensures t == PerformAll(AppOf(g, feePool), start, before)
    ensures Import(g, Pristine(g), Export(g, t, rows).value, Some(t.height), Some(hash)) == (restored, Ok(hash))
    ensures Respond(AppOf(g, feePool), PerformAll(AppOf(g, feePool), t, after), op)
            == Respond(AppOf(g, feePool), PerformAll(AppOf(g, feePool), restored, after), op)
    ensures CurrentHash(AppOf(g, feePool), PerformAll(AppOf(g, feePool), t, after))
            == CurrentHash(AppOf(g, feePool), PerformAll(AppOf(g, feePool), restored, after))
  {
    var envelope;
    t, envelope := RoundTrip(g, feePool, start, before, rows);
    restored, hash := Restored(t, OriginOf(envelope)), CurrentHash(AppOf(g, feePool), t);
    RestoredAnswersAlike(AppOf(g, feePool), start, before, OriginOf(envelope), after, op);
  }

  // ---- copies of copies ----

  /** A data directory: a fresh one, or the restored copy of what another became under some operations. */
  datatype Lineage = Fresh | CopyOf(parent: Lineage, ops: seq<Op>, rows: seq<Listing>)

  /** The store a directory starts with, if every export on the way succeeds. */
  ghost function Born(g: Genesis, feePool: Address, lineage: Lineage): Option<Tables> {
    match lineage
    case Fresh => Some(Pristine(g))
    case CopyOf(parent, ops, rows) =>
      match Born(g, feePool, parent)
      case None => None
      case Some(start) =>
        var t := PerformAll(AppOf(g, feePool), start, ops);
        if !Lists(rows, t.accounts) || Export(g, t, rows).Err? then None
        else Some(Restored(t, OriginOf(Export(g, t, rows).value)))
  }

  lemma PristineIsGenuine(g: Genesis)
    ensures Genuine(g, Pristine(g))
  {
    assert IsHex64(Repeat('0', 64));
  }

  /** Every copy of a copy, however far from a fresh directory, starts genuine and opens. */
  lemma {:induction false} BornIsGenuine(g: Genesis, feePool: Address, lineage: Lineage)
    requires Born(g, feePool, lineage).Some?
    ensures Genuine(g, Born(g, feePool, lineage).value) && Opens(Born(g, feePool, lineage).value)
  {
    match lineage {
      case Fresh => PristineIsGenuine(g);
      case CopyOf(parent, ops, rows) =>
        BornIsGenuine(g, feePool, parent);
        var t, envelope := RoundTrip(g, feePool, Born(g, feePool, parent).value, ops, rows);
    }
  }

  // ---- what an exported snapshot remembers ----

  /** How many restores lie behind a snapshot, one inside the other. */
  function Depth(s: StateSnapshot): nat
    decreases s
  {
    if s.sourceBase.None? then 0 else 1 + Depth(s.sourceBase.value.artifact.snapshot)
  }

  /** A snapshot names the snapshot its exporter was restored from. So a restored copy, equal in height,
      accounts and application hash to its source, never exports the snapshot it came from. */
  lemma CopyExportsAnother(g: Genesis, t: Tables, rows: seq<Listing>)
    requires Export(g, t, rows).Ok?
    ensures var e := Export(g, t, rows).value; var copy := Export(g, Restored(t, OriginOf(e)), rows);
            && copy.Ok? && copy.value.snapshot.appHash == e.snapshot.appHash
            && Depth(copy.value.snapshot) == Depth(e.snapshot) + 1
            && copy.value.artifactHash != e.artifactHash
  {
    var e := Export(g, t, rows).value;
    var copy := Export(g, Restored(t, OriginOf(e)), rows).value;
    assert copy.snapshot.sourceBase == Some(OriginOf(e));
  }

  lemma StageKeepsOrigin(app: App, t: Tables, req: Request)
    ensures Stage(app, t, req).0.origin == t.origin
  {
  }

  lemma CommitKeepsOrigin(app: App, t: Tables)
    ensures Commit(app, t).0.origin == t.origin
  {
  }

  lemma StepKeepsOrigin(app: App, t: Tables, op: Op)
    ensures Perform(app, t, op).origin == t.origin
  {
    match op {
      case StageOp(req) => StageKeepsOrigin(app, t, req);
      case ReplayOp(req) => StageKeepsOrigin(app, t, req);
      case CommitOp => CommitKeepsOrigin(app, t);
      case Reopen =>
    }
  }

  lemma {:induction false} OriginStays(app: App, start: Tables, ops: seq<Op>)
    ensures PerformAll(app, start, ops).origin == start.origin
  {
    if ops != [] {
      var init := ops[..|ops| - 1];
      OriginStays(app, start, init);
      StepKeepsOrigin(app, PerformAll(app, start, init), ops[|ops| - 1]);
    }
  }

  function Generation(lineage: Lineage): nat {
    if lineage.Fresh? then 0 else 1 + Generation(lineage.parent)
  }

  /** A snapshot tells how many restores its exporter is away from a fresh directory; so stores of
      different generations never export the same one. */
  lemma {:induction false} DepthIsGeneration(g: Genesis, feePool: Address, lineage: Lineage, ops: seq<Op>, rows: seq<Listing>)
    requires Born(g, feePool, lineage).Some?
    requires Export(g, PerformAll(AppOf(g, feePool), Born(g, feePool, lineage).value, ops), rows).Ok?
    ensures Depth(Export(g, PerformAll(AppOf(g, feePool), Born(g, feePool, lineage).value, ops), rows).value.snapshot) == Generation(lineage)
  {
    var start := Born(g, feePool, lineage).value;
    OriginStays(AppOf(g, feePool), start, ops);
    if lineage.CopyOf? { DepthIsGeneration(g, feePool, lineage.parent, lineage.ops, lineage.rows); }
  }

  /** Two stores in the same state export the same snapshot exactly if they have the same base record. */
  lemma SameExportIff(g: Genesis, t: Tables, u: Tables, rows: seq<Listing>)
    requires Export(g, t, rows).Ok? && Export(g, u, rows).Ok?
    requires t.height == u.height && t.lastHash == u.lastHash && t.accounts == u.accounts
    ensures Export(g, t, rows).value.snapshot.appHash == Export(g, u, rows).value.snapshot.appHash
    ensures Export(g, t, rows) == Export(g, u, rows) <==> t.origin == u.origin
  {
  }

  // ---- what the fingerprint leaves out ----

  /** A snapshot verifies under every genesis with the same fingerprint, whatever its minimum fee. */
  lemma VerifyIgnoresMinFee(g: Genesis, minFee: int, envelope: Envelope, expectedHeight: Option<int>, expectedHash: Option<Hash>)
    ensures Verify(g.(minFee := minFee), envelope, expectedHeight, expectedHash) == Verify(g, envelope, expectedHeight, expectedHash)
  {
    assert GenesisAccounts(g.(minFee := minFee)) == GenesisAccounts(g);
  }

  /** So a restore under a genesis file that differs only there succeeds, and the two stores then
      part: a transaction at the lower fee is staged by one and refused by the other. */
  lemma MinFeeParts(g: Genesis, minFee: int, feePool: Address, t: Tables, a: Address, b: Address, blockHash: string)
    requires Clean(t) && IsHex64(blockHash) && g.minFee < minFee && a != b
    requires Get(t.accounts, a).balance >= 1 + g.minFee
    ensures var tx := Transaction(g.chainId, a, b, 1, g.minFee, Get(t.accounts, a).nonce + 1, "", "", true);
            var req := Request(t.height + 1, blockHash, [tx]);
            && Stage(AppOf(g, feePool), t, req).1.Ok?
            && Stage(AppOf(g.(minFee := minFee), feePool), t, req).1 == Err(BadBatch(InvalidFields))
  {
    var tx := Transaction(g.chainId, a, b, 1, g.minFee, Get(t.accounts, a).nonce + 1, "", "", true);
    assert [tx][..0] == [];
    assert (set x | x in [tx]) == {tx};
    assert AllDifferent([tx]);
    forall rules ensures Execute(t.accounts, [tx], feePool, rules) == ApplyTx(t.accounts, tx, feePool, rules) {
      assert Execute(t.accounts, [], feePool, rules) == Ok(t.accounts);
    }
  }
}
