/** The application store with validator governance: a request hash that does not depend on the
    state, and replay of committed heights inside the staging transaction. */
module StoreV21 {
  import opened Models
  import opened Execution
  import opened Blocks
  import ExternalStore
  import Governance

  datatype App = App(g: Genesis, feePool: Address)

  datatype Item = Transfer(tx: Transaction) | Change(envelope: Governance.Envelope)

  datatype ItemId = TransferId(tx: Transaction) | ChangeTxId(envelope: Governance.Envelope)

  datatype Request = Request(height: int, blockHash: string, items: seq<Item>)

  datatype Hash =
    | AppHash(chainId: string, height: int, blockHash: string, accounts: Accounts, governance: Governance.State)
    | RequestHash(chainId: string, height: int, blockHash: string, ids: seq<ItemId>)

  datatype Row = Row(requestHash: Hash, previous: Hash, next: Hash, blockHash: string, txCount: int, feeRecipient: Address)

  datatype PendingRow = PendingRow(row: Row, items: seq<Item>)

  datatype GovernanceHash = GovernanceHash(state: Governance.State)

  datatype SnapshotV2 = SnapshotV2(
    format: string, protocol: string, schema: int, chainId: string, fingerprint: Fingerprint,
    height: int, lastHash: string, appHash: Hash, accountsRoot: Digest, issued: int, count: int,
    entries: seq<ExternalStore.Listing>, governanceHash: GovernanceHash, governance: Governance.State, sourceBase: Option<Origin>)

  datatype Artifact = ArtifactHash(snapshot: SnapshotV2)

  /** The snapshot base of a restored store. */
  datatype Origin = Origin(height: int, appHash: Hash, artifact: Artifact)

  datatype Tables = Tables(
    height: int, lastHash: string, accounts: Accounts, governance: Governance.Tables,
    pending: map<int, PendingRow>, commits: map<int, Row>, txHeights: map<ItemId, int>, origin: Option<Origin>)
  {
    /** The snapshot base height, 0 where there is none. */
    const base: int := BaseOf(origin)
  }

  function BaseOf(origin: Option<Origin>): int {
    if origin.Some? then origin.value.height else 0
  }

  datatype StoreError =
    | BadBlockHash | TwoChanges | DuplicateTransaction | NoCommittedRecord | ConflictCommitted | UnexpectedHeight
    | BadBatch(cause: TxError) | BadChange | ConflictPending | PendingNotNext | RequestHashMismatch | StateMoved
    | StagedHashMismatch | LedgerRefused(cause: TxError) | CommittedHashDiffers | UniqueViolated

  datatype Reply = Reply(height: int, row: Row, updates: seq<Governance.Update>, staged: bool, alreadyCommitted: bool, idempotent: bool)

  datatype CommitReply =
    | NothingPending(height: int, appHash: Hash)
    | Committed(height: int, row: Row, updates: seq<Governance.Update>)

  // ---- splitting a batch ----

  function IdOf(item: Item): ItemId {
    match item case Transfer(tx) => TransferId(tx) case Change(e) => ChangeTxId(e)
  }

  function Ids(items: seq<Item>): (ids: seq<ItemId>)
    ensures |ids| == |items| && forall i :: 0 <= i < |items| ==> ids[i] == IdOf(items[i])
  {
    seq(|items|, i requires 0 <= i < |items| => IdOf(items[i]))
  }

  datatype Batch = Batch(transfers: seq<Transaction>, change: Option<Governance.Envelope>)

  /** The transfers in order and the change, if there is at most one. */
  function Parts(items: seq<Item>): Option<Batch> {
    if items == [] then Some(Batch([], None))
    else
      match Parts(items[..|items| - 1])
      case None => None
      case Some(b) =>
        match items[|items| - 1]
        case Transfer(tx) => Some(b.(transfers := b.transfers + [tx]))
        case Change(e) => if b.change.Some? then None else Some(b.(change := Some(e)))
  }

  /** `_split_transactions` */
  function Split(items: seq<Item>): Result<Batch, StoreError> {
    match Parts(items)
    case None => Err(TwoChanges)
    case Some(b) => if ExternalStore.AllDifferent(Ids(items)) then Ok(b) else Err(DuplicateTransaction)
  }

  method SplitTransactions(items: seq<Item>) returns (r: Result<Batch, StoreError>)
    ensures r == Split(items)
  {
    var transfers: seq<Transaction> := [];
    var change: Option<Governance.Envelope> := None;
    for i := 0 to |items|
      invariant Parts(items[..i]) == Some(Batch(transfers, change))
    {
      assert items[..i + 1][..i] == items[..i];
      match items[i] {
        case Transfer(tx) => transfers := transfers + [tx];
        case Change(e) =>
          if change.Some? {
            PartsStaysRefused(items, i + 1);
            return Err(TwoChanges);
          }
          change := Some(e);
      }
    }
    assert items[..|items|] == items;
    r := if ExternalStore.AllDifferent(Ids(items)) then Ok(Batch(transfers, change)) else Err(DuplicateTransaction);
  }

  lemma {:induction false} PartsStaysRefused(items: seq<Item>, n: nat)
    requires n <= |items| && Parts(items[..n]).None?
    ensures Parts(items).None?
    decreases |items|
  {
    if n == |items| { assert items[..n] == items; }
    else {
      assert items[..|items| - 1][..n] == items[..n];
      PartsStaysRefused(items[..|items| - 1], n);
    }
  }

  // ---- hashes ----

  function CurrentHash(app: App, t: Tables): Hash {
    NextHash(app, t.height, t.lastHash, t.accounts, t.governance.Read())
  }

  function NextHash(app: App, height: int, blockHash: string, accounts: Accounts, s: Governance.State): Hash {
    AppHash(app.g.chainId, height, ExternalStore.Lower(blockHash), accounts, s)
  }

  function HashRequest(app: App, height: int, blockHash: string, items: seq<Item>): Hash {
    RequestHash(app.g.chainId, height, ExternalStore.Lower(blockHash), Ids(items))
  }

  predicate Same(r: Request, q: Request) {
    r.height == q.height && r.items == q.items && ExternalStore.Lower(r.blockHash) == ExternalStore.Lower(q.blockHash)
  }

  lemma IdsInjective(a: seq<Item>, b: seq<Item>)
    requires Ids(a) == Ids(b)
    ensures a == b
  {
    assert |a| == |Ids(a)| == |b|;
    forall i | 0 <= i < |a| ensures a[i] == b[i] {
      assert IdOf(a[i]) == Ids(a)[i] == Ids(b)[i] == IdOf(b[i]);
    }
  }

  /** Requests hash alike exactly when they are the same decision, whatever the state. */
  lemma SameRequestSameHash(app: App, r: Request, q: Request)
    ensures HashRequest(app, r.height, r.blockHash, r.items) == HashRequest(app, q.height, q.blockHash, q.items) <==> Same(r, q)
  {
    if Ids(r.items) == Ids(q.items) { IdsInjective(r.items, q.items); }
  }

  // ---- staging ----

  /** What executing a batch on the current state leads to. */
  datatype Effect = Effect(accounts: Accounts, outcome: Governance.Outcome)

  ghost function Evaluate(app: App, t: Tables, height: int, b: Batch, feeRecipient: Address): Result<Effect, StoreError> {
    match Execute(t.accounts, b.transfers, feeRecipient, RulesOf(app.g))
    case Err(e) => Err(BadBatch(e))
    case Ok(after) =>
      match Governance.Simulate(app.g, t.governance.Read(), height, b.change)
      case None => Err(BadChange)
      case Some(o) => Ok(Effect(after, o))
  }

  function RowFor(app: App, t: Tables, req: Request, e: Effect): Row {
    Row(HashRequest(app, req.height, req.blockHash, req.items), CurrentHash(app, t),
        NextHash(app, req.height, req.blockHash, e.accounts, e.outcome.state),
        ExternalStore.Lower(req.blockHash), |req.items|, app.feePool)
  }

  function EmissionFor(s: Governance.Tables, height: int): seq<Governance.Update> {
    if height in s.emissions then s.emissions[height].updates else []
  }

  predicate PendingTaken(pending: map<int, PendingRow>, hash: Hash) {
    exists h :: h in pending && pending[h].row.requestHash == hash
  }

  predicate CommitTaken(commits: map<int, Row>, hash: Hash) {
    exists h :: h in commits && commits[h].requestHash == hash
  }

  /** A replay at a committed height. */
  function Replay(app: App, t: Tables, req: Request): Result<Reply, StoreError> {
    if req.height !in t.commits then Err(NoCommittedRecord)
    else if t.commits[req.height].requestHash != HashRequest(app, req.height, req.blockHash, req.items) then Err(ConflictCommitted)
    else Ok(Reply(req.height, t.commits[req.height], EmissionFor(t.governance, req.height), false, true, true))
  }

  ghost function StageNext(app: App, t: Tables, req: Request, b: Batch): (Tables, Result<Reply, StoreError>) {
    match Evaluate(app, t, req.height, b, app.feePool)
    case Err(e) => (t, Err(e))
    case Ok(effect) =>
      var row := RowFor(app, t, req, effect);
      if req.height in t.pending then
        if t.pending[req.height].row.requestHash != row.requestHash then (t, Err(ConflictPending))
        else
          (t, Ok(Reply(req.height, t.pending[req.height].row.(previous := row.previous), effect.outcome.updates, true, false, true)))
      else if PendingTaken(t.pending, row.requestHash) then (t, Err(UniqueViolated))
      else
        (t.(pending := t.pending[req.height := PendingRow(row, req.items)]),
         Ok(Reply(req.height, row, effect.outcome.updates, true, false, false)))
  }

  /** `stage_finalize` */
  ghost function Stage(app: App, t: Tables, req: Request): (Tables, Result<Reply, StoreError>) {
    if !ExternalStore.IsHex64(req.blockHash) then (t, Err(BadBlockHash))
    else
      match Split(req.items)
      case Err(e) => (t, Err(e))
      case Ok(b) =>
        if req.height <= t.height then (t, Replay(app, t, req))
        else if req.height != t.height + 1 then (t, Err(UnexpectedHeight))
        else StageNext(app, t, req, b)
  }

  // ---- committing ----

  function ApplyTransfers(app: App, accounts: Accounts, txs: seq<Transaction>, feeRecipient: Address): Result<Accounts, StoreError> {
    if txs == [] then Ok(accounts)
    else
      match ApplyTransfers(app, accounts, txs[..|txs| - 1], feeRecipient)
      case Err(e) => Err(e)
      case Ok(mid) =>
        match ApplyTx(mid, txs[|txs| - 1], feeRecipient, RulesOf(app.g))
        case Err(e) => Err(LedgerRefused(e))
        case Ok(_) => Ok(ExternalStore.RowUpdates(mid, txs[|txs| - 1], feeRecipient))
  }

  /** The account rows of a commit and the simulation of its batch never part. */
  lemma {:induction false} TransfersRefineSimulation(app: App, accounts: Accounts, txs: seq<Transaction>, feeRecipient: Address)
    ensures ApplyTransfers(app, accounts, txs, feeRecipient)
            == match Execute(accounts, txs, feeRecipient, RulesOf(app.g)) case Err(e) => Err(LedgerRefused(e)) case Ok(after) => Ok(after)
  {
    if txs != [] {
      TransfersRefineSimulation(app, accounts, txs[..|txs| - 1], feeRecipient);
      var mid := Execute(accounts, txs[..|txs| - 1], feeRecipient, RulesOf(app.g));
      if mid.Ok? { ExternalStore.RowUpdatesTransfer(mid.value, txs[|txs| - 1], feeRecipient); }
    }
  }

  /** `INSERT INTO transactions`, one item after another. */
  function InsertIds(txHeights: map<ItemId, int>, ids: seq<ItemId>, height: int): Option<map<ItemId, int>> {
    if ids == [] then Some(txHeights)
    else
      match InsertIds(txHeights, ids[..|ids| - 1], height)
      case None => None
      case Some(mid) => if ids[|ids| - 1] in mid then None else Some(mid[ids[|ids| - 1] := height])
  }

  function MarkIds(ids: seq<ItemId>, height: int): map<ItemId, int> {
    map id | id in ids :: height
  }

  lemma {:induction false} InsertIdsMeans(txHeights: map<ItemId, int>, ids: seq<ItemId>, height: int)
    requires Distinct(ids) && forall id :: id in ids ==> id !in txHeights
    ensures InsertIds(txHeights, ids, height) == Some(txHeights + MarkIds(ids, height))
  {
    if ids == [] { assert txHeights + MarkIds([], height) == txHeights; }
    else {
      var init, last := ids[..|ids| - 1], ids[|ids| - 1];
      assert ids == init + [last];
      InsertIdsMeans(txHeights, init, height);
      assert last !in init;
      ExternalStore.MarkSnoc(txHeights, init, last, height);
    }
  }

  lemma {:induction false} AllDifferentMeans(ids: seq<ItemId>)
    ensures |set id | id in ids| <= |ids|
    ensures ExternalStore.AllDifferent(ids) ==> Distinct(ids)
  {
    if ids != [] {
      var init, last := ids[..|ids| - 1], ids[|ids| - 1];
      assert ids == init + [last];
      AllDifferentMeans(init);
      assert (set id | id in ids) == (set id | id in init) + {last};
      if ExternalStore.AllDifferent(ids) {
        assert last !in init;
        assert ExternalStore.AllDifferent(init);
        forall i, j | 0 <= i < j < |ids| ensures ids[i] != ids[j] {
          assert ids[i] == init[i] && ids[i] in init;
          if j < |init| { assert ids[j] == init[j]; }
        }
      }
    }
  }

  /** The checks between reading the pending row and the first write. */
  ghost function CheckPending(app: App, t: Tables, h: int, p: PendingRow): Result<(Batch, Effect), StoreError> {
    if h != t.height + 1 then Err(PendingNotNext)
    else
      match Split(p.items)
      case Err(e) => Err(e)
      case Ok(b) =>
        if HashRequest(app, h, p.row.blockHash, p.items) != p.row.requestHash then Err(RequestHashMismatch)
        else if CurrentHash(app, t) != p.row.previous then Err(StateMoved)
        else
          match Evaluate(app, t, h, b, p.row.feeRecipient)
          case Err(e) => Err(e)
          case Ok(effect) =>
            if NextHash(app, h, p.row.blockHash, effect.accounts, effect.outcome.state) != p.row.next then Err(StagedHashMismatch)
            else Ok((b, effect))
  }

  ghost function CommitRow(app: App, t: Tables, h: int, p: PendingRow): (Tables, Result<CommitReply, StoreError>) {
    match CheckPending(app, t, h, p)
    case Err(e) => (t, Err(e))
    case Ok((b, _)) =>
      match ApplyTransfers(app, t.accounts, b.transfers, p.row.feeRecipient)
      case Err(e) => (t, Err(e))
      case Ok(accounts) =>
        match Governance.Commit(app.g, t.governance, h, b.change)
        case None => (t, Err(BadChange))
        case Some((governance, outcome)) =>
          match InsertIds(t.txHeights, Ids(p.items), h)
          case None => (t, Err(UniqueViolated))
          case Some(txHeights) =>
            var final := NextHash(app, h, p.row.blockHash, accounts, governance.Read());
            if final != p.row.next then (t, Err(CommittedHashDiffers))
            else if h in t.commits || CommitTaken(t.commits, p.row.requestHash) then (t, Err(UniqueViolated))
            else
              (Tables(h, p.row.blockHash, accounts, governance, t.pending - {h}, t.commits[h := p.row], txHeights, t.origin),
               Ok(Committed(h, p.row, outcome.updates)))
  }

  /** `commit_pending` */
  ghost function Commit(app: App, t: Tables): (Tables, Result<CommitReply, StoreError>) {
    if t.pending == map[] then (t, Ok(NothingPending(t.height, CurrentHash(app, t))))
    else CommitRow(app, t, ExternalStore.Lowest(t.pending), t.pending[ExternalStore.Lowest(t.pending)])
  }

  // ---- the store object ----

  class ExternalExecutionStoreV21 {
    const app: App
    const governance: Governance.ValidatorGovernanceStore
    var height: int
    var lastHash: string
    var accounts: Accounts
    var pending: map<int, PendingRow>
    var commits: map<int, Row>
    var txHeights: map<ItemId, int>
    var origin: Option<Origin>

    ghost predicate Valid() { governance.g == app.g }

    function State(): Tables
      reads this, governance
    {
      Tables(height, lastHash, accounts, governance.Rows(), pending, commits, txHeights, origin)
    }

    constructor (app: App, disk: Tables)
      ensures Valid() && this.app == app && State() == disk
    {
      this.app := app;
      governance := new Governance.ValidatorGovernanceStore(app.g, disk.governance);
      height, lastHash, accounts, pending, commits, txHeights, origin :=
        disk.height, disk.lastHash, disk.accounts, disk.pending, disk.commits, disk.txHeights, disk.origin;
    }

    method EvaluateBatch(at: int, b: Batch, feeRecipient: Address) returns (r: Result<Effect, StoreError>)
      ensures r == Evaluate(app, State(), at, b, feeRecipient)
    {
      var result := Simulate(accounts, b.transfers, feeRecipient, RulesOf(app.g));
      if result.Err? { return Err(BadBatch(result.error)); }
      var outcome := Governance.SimulateHeight(app.g, governance.Rows().Read(), at, b.change);
      if outcome.None? { return Err(BadChange); }
      r := Ok(Effect(result.value, outcome.value));
    }

    method StageFinalize(req: Request) returns (r: Result<Reply, StoreError>)
      modifies this
      ensures (State(), r) == Stage(app, old(State()), req)
    {
      if !ExternalStore.IsHex64(req.blockHash) { return Err(BadBlockHash); }
      var split := SplitTransactions(req.items);
      if split.Err? { return Err(split.error); }
      if req.height <= height {
        r := Replay(app, State(), req);
        return;
      }
      if req.height != height + 1 { return Err(UnexpectedHeight); }
      var effect := EvaluateBatch(req.height, split.value, app.feePool);
      if effect.Err? { return Err(effect.error); }
      var row := RowFor(app, State(), req, effect.value);
      var updates := effect.value.outcome.updates;
      if req.height in pending {
        var staged := pending[req.height].row;
        if staged.requestHash != row.requestHash { return Err(ConflictPending); }
        return Ok(Reply(req.height, staged.(previous := row.previous), updates, true, false, true));
      }
      if PendingTaken(pending, row.requestHash) { return Err(UniqueViolated); }
      pending := pending[req.height := PendingRow(row, req.items)];
      r := Ok(Reply(req.height, row, updates, true, false, false));
    }

    method RunTransfers(txs: seq<Transaction>, feeRecipient: Address) returns (error: Option<StoreError>)
      modifies this`accounts
      ensures match ApplyTransfers(app, old(accounts), txs, feeRecipient)
              case Err(e) => error == Some(e)
              case Ok(after) => error == None && accounts == after
    {
      for i := 0 to |txs|
        invariant ApplyTransfers(app, old(accounts), txs[..i], feeRecipient) == Ok(accounts)
      {
        assert txs[..i + 1][..i] == txs[..i];
        var check := ApplyTx(accounts, txs[i], feeRecipient, RulesOf(app.g));
        if check.Err? {
          TransfersStayRefused(app, old(accounts), txs, i + 1, feeRecipient);
          return Some(LedgerRefused(check.error));
        }
        accounts := ExternalStore.RowUpdates(accounts, txs[i], feeRecipient);
      }
      assert txs[..|txs|] == txs;
      error := None;
    }

    method RunInserts(ids: seq<ItemId>, at: int) returns (ok: bool)
      modifies this`txHeights
      ensures match InsertIds(old(txHeights), ids, at) case None => !ok case Some(after) => ok && txHeights == after
    {
      for i := 0 to |ids|
        invariant InsertIds(old(txHeights), ids[..i], at) == Some(txHeights)
      {
        assert ids[..i + 1][..i] == ids[..i];
        if ids[i] in txHeights {
          InsertsStayRefused(old(txHeights), ids, i + 1, at);
          return false;
        }
        txHeights := txHeights[ids[i] := at];
      }
      assert ids[..|ids|] == ids;
      ok := true;
    }

    method Verify(h: int, p: PendingRow) returns (r: Result<(Batch, Effect), StoreError>)
      ensures r == CheckPending(app, State(), h, p)
    {
      if h != height + 1 { return Err(PendingNotNext); }
      var split := SplitTransactions(p.items);
      if split.Err? { return Err(split.error); }
      if HashRequest(app, h, p.row.blockHash, p.items) != p.row.requestHash { return Err(RequestHashMismatch); }
      if CurrentHash(app, State()) != p.row.previous { return Err(StateMoved); }
      var effect := EvaluateBatch(h, split.value, p.row.feeRecipient);
      if effect.Err? { return Err(effect.error); }
      if NextHash(app, h, p.row.blockHash, effect.value.accounts, effect.value.outcome.state) != p.row.next { return Err(StagedHashMismatch); }
      r := Ok((split.value, effect.value));
    }

    method Rollback(saved: Tables)
      modifies this, governance
      ensures State() == saved
    {
      height, lastHash, accounts, pending, commits, txHeights, origin :=
        saved.height, saved.lastHash, saved.accounts, saved.pending, saved.commits, saved.txHeights, saved.origin;
      governance.active, governance.pending := saved.governance.active, saved.governance.pending;
      governance.history, governance.emissions := saved.governance.history, saved.governance.emissions;
    }

    /** The last statements of a commit: metadata, commit row, pending row. */
    method StoreRow(h: int, row: Row)
      modifies this`height, this`lastHash, this`commits, this`pending
      ensures height == h && lastHash == row.blockHash && commits == old(commits)[h := row] && pending == old(pending) - {h}
    {
      height, lastHash := h, row.blockHash;
      commits, pending := commits[h := row], pending - {h};
    }

    /** One database transaction over the accounts, the governance tables and the transaction index. */
    method CommitPending() returns (r: Result<CommitReply, StoreError>)
      requires Valid()
      modifies this, governance
      ensures (State(), r) == Commit(app, old(State()))
    {
      if pending == map[] { return Ok(NothingPending(height, CurrentHash(app, State()))); }
      ExternalStore.LowestExists(pending.Keys);
      var h :| h in pending.Keys && forall k :: k in pending.Keys ==> h <= k;
      assert h == ExternalStore.Lowest(pending);
      r := CommitAt(h, pending[h]);
    }

    method CommitAt(h: int, p: PendingRow) returns (r: Result<CommitReply, StoreError>)
      requires Valid() && h in pending && pending[h] == p
      modifies this, governance
      ensures (State(), r) == CommitRow(app, old(State()), h, p)
    {
      var saved := State();
      var checked := Verify(h, p);
      if checked.Err? { return Err(checked.error); }
      var b := checked.value.0;
      var error := RunTransfers(b.transfers, p.row.feeRecipient);
      if error.Some? {
        Rollback(saved);
        return Err(error.value);
      }
      var outcome := governance.CommitHeight(h, b.change);
      if outcome.None? {
        Rollback(saved);
        return Err(BadChange);
      }
      var ok := RunInserts(Ids(p.items), h);
      if !ok {
        Rollback(saved);
        return Err(UniqueViolated);
      }
      if NextHash(app, h, p.row.blockHash, accounts, governance.Rows().Read()) != p.row.next {
        Rollback(saved);
        return Err(CommittedHashDiffers);
      }
      if h in commits || CommitTaken(commits, p.row.requestHash) {
        Rollback(saved);
        return Err(UniqueViolated);
      }
      StoreRow(h, p.row);
      r := Ok(Committed(h, p.row, outcome.value.updates));
    }
  }

  lemma {:induction false} TransfersStayRefused(app: App, accounts: Accounts, txs: seq<Transaction>, n: nat, feeRecipient: Address)
    requires n <= |txs| && ApplyTransfers(app, accounts, txs[..n], feeRecipient).Err?
    ensures ApplyTransfers(app, accounts, txs, feeRecipient) == ApplyTransfers(app, accounts, txs[..n], feeRecipient)
    decreases |txs|
  {
    if n == |txs| { assert txs[..n] == txs; }
    else {
      assert txs[..|txs| - 1][..n] == txs[..n];
      TransfersStayRefused(app, accounts, txs[..|txs| - 1], n, feeRecipient);
    }
  }

  lemma {:induction false} InsertsStayRefused(txHeights: map<ItemId, int>, ids: seq<ItemId>, n: nat, height: int)
    requires n <= |ids| && InsertIds(txHeights, ids[..n], height).None?
    ensures InsertIds(txHeights, ids, height).None?
    decreases |ids|
  {
    if n == |ids| { assert ids[..n] == ids; }
    else {
      assert ids[..|ids| - 1][..n] == ids[..n];
      InsertsStayRefused(txHeights, ids[..|ids| - 1], n, height);
    }
  }
}
