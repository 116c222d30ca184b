/** The application store behind an external consensus engine: finalize is staged durably, commit
    applies the staged batch in one database transaction. */
module ExternalStore {
  import opened Models
  import opened Execution
  import Blocks
  import Merkle

  /** Fixed per chain: the transaction rules, and the fee pool address derived from the chain id. */
  datatype App = App(rules: Rules, feePool: Address)

  datatype Request = Request(height: int, blockHash: string, txs: seq<Transaction>)

  /** The two hashes of the protocol; equal exactly when their preimages are. */
  datatype Hash =
    | AppHash(chainId: string, height: int, blockHash: string, accounts: Accounts)
    | RequestHash(chainId: string, height: int, previous: Hash, blockHash: string,
                  ids: seq<Digest>, root: Digest, feeRecipient: Address)

  /** A row of `external_commits`; `next` is its application hash. */
  datatype Row = Row(requestHash: Hash, previous: Hash, next: Hash, blockHash: string,
                     txRoot: Digest, txCount: int, feeRecipient: Address)

  datatype PendingRow = PendingRow(row: Row, txs: seq<Transaction>)

  // ---- what a snapshot says, and what restoring one records ----

  datatype Listing = Listing(address: Address, balance: int, nonce: int)

  datatype StateSnapshot = StateSnapshot(
    format: string, protocol: string, chainId: string, fingerprint: Blocks.Fingerprint,
    height: int, lastHash: string, appHash: Hash, accountsRoot: Digest,
    issued: int, count: int, entries: seq<Listing>, sourceBase: Option<Origin>)

  /** The artifact hash equals `ArtifactHash(snapshot)` exactly for that snapshot. */
  datatype Artifact = ArtifactHash(snapshot: StateSnapshot)

  /** The snapshot base of a restored store: height, application hash and artifact hash. */
  datatype Origin = Origin(height: int, appHash: Hash, artifact: Artifact)

  /** The durable tables. */
  datatype Tables = Tables(
    height: int,
    lastHash: string,
    accounts: Accounts,
    pending: map<int, PendingRow>,
    commits: map<int, Row>,
    txHeights: map<Digest, int>,
    origin: Option<Origin>)
  {
    /** The snapshot base height, 0 where there is none. */
    const base: int := BaseOf(origin)
  }

  function BaseOf(origin: Option<Origin>): int {
    if origin.Some? then origin.value.height else 0
  }

  datatype StoreError =
    | DuplicateTransaction | BadBlockHash | UnexpectedHeight | BadBatch(cause: TxError)
    | ConflictCommitted | ConflictPending | NoCommittedRecord
    | PendingNotNext | StateMoved | StagedHashMismatch | CommittedHashDiffers
    | LedgerRefused(cause: TxError) | UniqueViolated

  datatype Reply = Reply(height: int, row: Row, stateRoot: Option<Digest>, staged: bool, alreadyCommitted: bool, idempotent: bool)

  datatype CommitReply = NothingPending(height: int, appHash: Hash) | Committed(height: int, row: Row)

  // ---- hashes ----

  predicate HexDigit(c: char) {
    '0' <= c <= '9' || 'a' <= c <= 'f' || 'A' <= c <= 'F'
  }

  predicate IsHex64(s: string) {
    |s| == 64 && forall i :: 0 <= i < |s| ==> HexDigit(s[i])
  }

  function LowerChar(c: char): char {
    if 'A' <= c <= 'Z' then c - 'A' + 'a' else c
  }

  function Lower(s: string): (t: string)
    ensures |t| == |s|
    ensures forall i :: 0 <= i < |s| ==> t[i] == LowerChar(s[i])
  {
    seq(|s|, i requires 0 <= i < |s| => LowerChar(s[i]))
  }

  predicate AllDifferent<T(==)>(xs: seq<T>) {
    |set x | x in xs| == |xs|
  }

  lemma HexCase(r: string, q: string)
    requires Lower(r) == Lower(q)
    ensures IsHex64(r) == IsHex64(q)
  {
    assert |r| == |Lower(r)| == |q|;
    forall i | 0 <= i < |r| ensures HexDigit(r[i]) == HexDigit(q[i]) {
      assert LowerChar(r[i]) == Lower(r)[i] == Lower(q)[i] == LowerChar(q[i]);
    }
  }

  function CurrentHash(app: App, t: Tables): Hash {
    AppHash(app.rules.chainId, t.height, t.lastHash, t.accounts)
  }

  function HashRequest(app: App, previous: Hash, req: Request): Hash {
    RequestHash(app.rules.chainId, req.height, previous, Lower(req.blockHash), TxIds(req.txs),
                Merkle.Root(TxIds(req.txs)), app.feePool)
  }

  /** The same decision, up to the letter case of the block hash. */
  predicate Same(r: Request, q: Request) {
    r.height == q.height && r.txs == q.txs && Lower(r.blockHash) == Lower(q.blockHash)
  }

  /** Under one predecessor, requests hash alike exactly when they are the same decision. */
  lemma SameRequestSameHash(app: App, previous: Hash, r: Request, q: Request)
    ensures HashRequest(app, previous, r) == HashRequest(app, previous, q) <==> Same(r, q)
  {
    if TxIds(r.txs) == TxIds(q.txs) { TxIdsInjective(r.txs, q.txs); }
  }

  // ---- staging ----

  function RowFor(app: App, t: Tables, req: Request, after: Accounts): Row {
    Row(HashRequest(app, CurrentHash(app, t), req), CurrentHash(app, t),
        AppHash(app.rules.chainId, req.height, Lower(req.blockHash), after),
        Lower(req.blockHash), Merkle.Root(TxIds(req.txs)), |req.txs|, app.feePool)
  }

  predicate PendingTaken(pending: map<int, PendingRow>, hash: Hash) {
    exists h :: h in pending && pending[h].row.requestHash == hash
  }

  predicate CommitTaken(commits: map<int, Row>, hash: Hash) {
    exists h :: h in commits && commits[h].requestHash == hash
  }

  /** `stage_finalize` */
  function Stage(app: App, t: Tables, req: Request): (Tables, Result<Reply, StoreError>) {
    if !AllDifferent(req.txs) then (t, Err(DuplicateTransaction))
    else if !IsHex64(req.blockHash) then (t, Err(BadBlockHash))
    else
      var previous := CurrentHash(app, t);
      var hash := HashRequest(app, previous, req);
      if req.height in t.commits then
        if t.commits[req.height].requestHash != hash then (t, Err(ConflictCommitted))
        else (t, Ok(Reply(req.height, t.commits[req.height], None, false, true, true)))
      else if req.height != t.height + 1 then (t, Err(UnexpectedHeight))
      else
        match Execute(t.accounts, req.txs, app.feePool, app.rules)
        case Err(e) => (t, Err(BadBatch(e)))
        case Ok(after) =>
          if req.height in t.pending then
            if t.pending[req.height].row.requestHash != hash then (t, Err(ConflictPending))
            else (t, Ok(Reply(req.height, t.pending[req.height].row.(previous := previous), Some(StateRoot(after)), true, false, true)))
          else if PendingTaken(t.pending, hash) then (t, Err(UniqueViolated))
          else
            var row := RowFor(app, t, req, after);
            (t.(pending := t.pending[req.height := PendingRow(row, req.txs)]),
             Ok(Reply(req.height, row, Some(StateRoot(after)), true, false, false)))
  }

  /** `replay_safe_stage_finalize` */
  function ReplaySafe(app: App, t: Tables, req: Request): (Tables, Result<Reply, StoreError>) {
    if req.height > t.height then Stage(app, t, req)
    else if req.height !in t.commits then (t, Err(NoCommittedRecord))
    else
      var row := t.commits[req.height];
      if HashRequest(app, row.previous, req) != row.requestHash then (t, Err(ConflictCommitted))
      else (t, Ok(Reply(req.height, row, None, false, true, true)))
  }

  // ---- committing ----

  function InsertOrIgnore(accounts: Accounts, a: Address): Accounts {
    if a in accounts then accounts else accounts[a := Account(0, 0)]
  }

  function Update(accounts: Accounts, a: Address, amount: int, bump: int): Accounts {
    if a in accounts then accounts[a := Account(accounts[a].balance + amount, accounts[a].nonce + bump)] else accounts
  }

  /** Three inserts, then three updates, one statement at a time. */
  function RowUpdates(accounts: Accounts, tx: Transaction, feeRecipient: Address): Accounts {
    var full := InsertOrIgnore(InsertOrIgnore(InsertOrIgnore(accounts, tx.sender), tx.recipient), feeRecipient);
    Update(Update(Update(full, tx.sender, -(tx.amount + tx.fee), 1), tx.recipient, tx.amount, 0), feeRecipient, tx.fee, 0)
  }

  lemma InsertOpens(accounts: Accounts, a: Address)
    ensures InsertOrIgnore(accounts, a) == Opened(accounts, a)
  {
  }

  lemma UpdateCredits(accounts: Accounts, a: Address, amount: int, bump: int)
    requires a in accounts
    ensures Update(accounts, a, amount, bump) == Credit(accounts, a, amount, bump)
  {
  }

  /** The statements of one transaction have the effect of its transfer. */
  lemma RowUpdatesTransfer(accounts: Accounts, tx: Transaction, feeRecipient: Address)
    ensures RowUpdates(accounts, tx, feeRecipient) == Transfer(accounts, tx, feeRecipient)
  {
    InsertOpens(accounts, tx.sender);
    InsertOpens(Opened(accounts, tx.sender), tx.recipient);
    InsertOpens(Opened(Opened(accounts, tx.sender), tx.recipient), feeRecipient);
    var full := Opened(Opened(Opened(accounts, tx.sender), tx.recipient), feeRecipient);
    UpdateCredits(full, tx.sender, -(tx.amount + tx.fee), 1);
    var paid := Credit(full, tx.sender, -(tx.amount + tx.fee), 1);
    UpdateCredits(paid, tx.recipient, tx.amount, 0);
    UpdateCredits(Credit(paid, tx.recipient, tx.amount, 0), feeRecipient, tx.fee, 0);
    OpeningChangesNothing(accounts, tx, feeRecipient);
  }

  datatype Rows = Rows(accounts: Accounts, txHeights: map<Digest, int>)

  /** One transaction of a commit: re-validated, its rows updated, its identifier inserted once. */
  function ApplyRow(app: App, rows: Rows, tx: Transaction, height: int, feeRecipient: Address): Result<Rows, StoreError> {
    match ApplyTx(rows.accounts, tx, feeRecipient, app.rules)
    case Err(e) => Err(LedgerRefused(e))
    case Ok(_) =>
      if TxId(tx) in rows.txHeights then Err(UniqueViolated)
      else Ok(Rows(RowUpdates(rows.accounts, tx, feeRecipient), rows.txHeights[TxId(tx) := height]))
  }

  function ApplyRows(app: App, rows: Rows, txs: seq<Transaction>, height: int, feeRecipient: Address): Result<Rows, StoreError> {
    if txs == [] then Ok(rows)
    else
      match ApplyRows(app, rows, txs[..|txs| - 1], height, feeRecipient)
      case Err(e) => Err(e)
      case Ok(mid) => ApplyRow(app, mid, txs[|txs| - 1], height, feeRecipient)
  }

  ghost predicate IsLowest<V>(pending: map<int, V>, h: int) {
    h in pending && forall k :: k in pending ==> h <= k
  }

  lemma {:induction false} LowestExists(keys: set<int>)
    requires keys != {}
    ensures exists h :: h in keys && forall k :: k in keys ==> h <= k
    decreases |keys|
  {
    var a := Pick(keys);
    if keys == {a} {
      assert a in keys;
    } else {
      LowestExists(keys - {a});
      var b :| b in keys - {a} && forall k :: k in keys - {a} ==> b <= k;
      var low := if a < b then a else b;
      forall k | k in keys ensures low <= k {
        if k != a { assert k in keys - {a}; }
      }
      assert low in keys;
    }
  }

  /** `SELECT ... ORDER BY height ASC LIMIT 1` */
  ghost function Lowest<V>(pending: map<int, V>): (h: int)
    requires pending != map[]
    ensures IsLowest(pending, h)
  {
    LowestExists(pending.Keys);
    var h :| h in pending.Keys && forall k :: k in pending.Keys ==> h <= k; h
  }

  lemma OnlyLowest<V>(h: int, p: V)
    ensures map[h := p] != map[] && Lowest(map[h := p]) == h
  {
    assert h in map[h := p];
  }

  function CommitRow(app: App, t: Tables, h: int, p: PendingRow): (Tables, Result<CommitReply, StoreError>) {
    if h != t.height + 1 then (t, Err(PendingNotNext))
    else if CurrentHash(app, t) != p.row.previous then (t, Err(StateMoved))
    else
      match Execute(t.accounts, p.txs, p.row.feeRecipient, app.rules)
      case Err(e) => (t, Err(BadBatch(e)))
      case Ok(after) =>
        var expected := AppHash(app.rules.chainId, h, p.row.blockHash, after);
        if expected != p.row.next then (t, Err(StagedHashMismatch))
        else
          match ApplyRows(app, Rows(t.accounts, t.txHeights), p.txs, h, p.row.feeRecipient)
          case Err(e) => (t, Err(e))
          case Ok(rows) =>
            var final := AppHash(app.rules.chainId, h, p.row.blockHash, rows.accounts);
            if final != expected then (t, Err(CommittedHashDiffers))
            else if h in t.commits || CommitTaken(t.commits, p.row.requestHash) then (t, Err(UniqueViolated))
            else
              var row := p.row.(next := final);
              (Tables(h, p.row.blockHash, rows.accounts, t.pending - {h}, t.commits[h := row], rows.txHeights, t.origin),
               Ok(Committed(h, row)))
  }

  /** `commit_pending` */
  ghost function Commit(app: App, t: Tables): (Tables, Result<CommitReply, StoreError>) {
    if t.pending == map[] then (t, Ok(NothingPending(t.height, CurrentHash(app, t))))
    else CommitRow(app, t, Lowest(t.pending), t.pending[Lowest(t.pending)])
  }

  /** One more transaction: its statements do what the simulation does, and record its identifier. */
  lemma RowRefinesStep(app: App, rows: Rows, init: seq<Transaction>, tx: Transaction, height: int, feeRecipient: Address)
    requires TxId(tx) !in rows.txHeights && Execute(rows.accounts, init, feeRecipient, app.rules).Ok?
    ensures var mid := Execute(rows.accounts, init, feeRecipient, app.rules).value;
            ApplyRow(app, Rows(mid, Recorded(rows.txHeights, init, height)), tx, height, feeRecipient)
            == match ApplyTx(mid, tx, feeRecipient, app.rules)
               case Err(e) => Err(LedgerRefused(e))
               case Ok(after) => Ok(Rows(after, Recorded(rows.txHeights, init + [tx], height)))
  {
    var mid := Execute(rows.accounts, init, feeRecipient, app.rules).value;
    if ApplyTx(mid, tx, feeRecipient, app.rules).Ok? {
      RowUpdatesTransfer(mid, tx, feeRecipient);
      assert Distinct(init + [tx]) by {
        ExecuteSnoc(rows.accounts, init, tx, feeRecipient, app.rules);
        ExecutedNonces(rows.accounts, init + [tx], feeRecipient, app.rules);
      }
      RecordedSnoc(rows.txHeights, init, tx, height);
    }
  }

  /** The row-by-row commit of a batch against the in-memory simulation of it: the same accounts,
      the same error, and identifiers inserted exactly for its transactions. */
  lemma {:induction false} RowsRefineSimulation(app: App, rows: Rows, txs: seq<Transaction>, height: int, feeRecipient: Address)
    requires forall tx :: tx in txs ==> TxId(tx) !in rows.txHeights
    ensures ApplyRows(app, rows, txs, height, feeRecipient)
            == match Execute(rows.accounts, txs, feeRecipient, app.rules)
               case Err(e) => Err(LedgerRefused(e))
               case Ok(after) => Ok(Rows(after, Recorded(rows.txHeights, txs, height)))
  {
    if txs == [] {
      assert Recorded(rows.txHeights, txs, height) == rows.txHeights;
    } else {
      var init, last := txs[..|txs| - 1], txs[|txs| - 1];
      assert txs == init + [last];
      RowsRefineSimulation(app, rows, init, height, feeRecipient);
      if Execute(rows.accounts, init, feeRecipient, app.rules).Ok? {
        RowRefinesStep(app, rows, init, last, height, feeRecipient);
      }
    }
  }

  function Recorded(txHeights: map<Digest, int>, txs: seq<Transaction>, height: int): map<Digest, int> {
    txHeights + map id | id in TxIds(txs) :: height
  }

  lemma IdsSnoc(txs: seq<Transaction>, tx: Transaction)
    ensures TxIds(txs + [tx]) == TxIds(txs) + [TxId(tx)]
  {
  }

  lemma MarkSnoc<T>(marks: map<T, int>, ids: seq<T>, id: T, height: int)
    ensures marks + (map x | x in ids + [id] :: height) == (marks + map x | x in ids :: height)[id := height]
  {
  }

  lemma RecordedSnoc(txHeights: map<Digest, int>, txs: seq<Transaction>, tx: Transaction, height: int)
    requires Distinct(txs + [tx]) && TxId(tx) !in txHeights
    ensures TxId(tx) !in Recorded(txHeights, txs, height)
    ensures Recorded(txHeights, txs + [tx], height) == Recorded(txHeights, txs, height)[TxId(tx) := height]
  {
    IdsSnoc(txs, tx);
    MarkSnoc(txHeights, TxIds(txs), TxId(tx), height);
    var all := txs + [tx];
    assert forall i :: 0 <= i < |txs| ==> all[i] == txs[i] && all[i] != all[|txs|];
  }

  // ---- the store object ----

  class ExternalExecutionStore {
    const app: App
    var height: int
    var lastHash: string
    var accounts: Accounts
    var pending: map<int, PendingRow>
    var commits: map<int, Row>
    var txHeights: map<Digest, int>
    var origin: Option<Origin>

    function State(): Tables
      reads this
    {
      Tables(height, lastHash, accounts, pending, commits, txHeights, origin)
    }

    constructor (app: App, disk: Tables)
      ensures this.app == app && State() == disk
    {
      this.app := app;
      height, lastHash, accounts, pending, commits, txHeights, origin :=
        disk.height, disk.lastHash, disk.accounts, disk.pending, disk.commits, disk.txHeights, disk.origin;
    }

    /** The opening check on stored state. */
    method CheckBase() returns (ok: bool)
      ensures ok == Opens(State())
    {
      var base := if origin.Some? then origin.value.height else 0;
      ok := 0 <= base <= height && height == base + |commits|;
    }

    method StageFinalize(req: Request) returns (r: Result<Reply, StoreError>)
      modifies this
      ensures (State(), r) == Stage(app, old(State()), req)
    {
      if !AllDifferent(req.txs) { return Err(DuplicateTransaction); }
      if !IsHex64(req.blockHash) { return Err(BadBlockHash); }
      var previous := CurrentHash(app, State());
      var hash := HashRequest(app, previous, req);
      if req.height in commits {
        if commits[req.height].requestHash != hash { return Err(ConflictCommitted); }
        return Ok(Reply(req.height, commits[req.height], None, false, true, true));
      }
      if req.height != height + 1 { return Err(UnexpectedHeight); }
      var result := Simulate(accounts, req.txs, app.feePool, app.rules);
      if result.Err? { return Err(BadBatch(result.error)); }
      var root := Some(StateRoot(result.value));
      if req.height in pending {
        var row := pending[req.height].row;
        if row.requestHash != hash { return Err(ConflictPending); }
        return Ok(Reply(req.height, row.(previous := previous), root, true, false, true));
      }
      if PendingTaken(pending, hash) { return Err(UniqueViolated); }
      var row := RowFor(app, State(), req, result.value);
      pending := pending[req.height := PendingRow(row, req.txs)];
      r := Ok(Reply(req.height, row, root, true, false, false));
    }

    /** The statements a commit runs for one transaction. */
    method RunStatements(tx: Transaction, at: int, feeRecipient: Address) returns (error: Option<StoreError>)
      modifies this`accounts, this`txHeights
      ensures match ApplyRow(app, Rows(old(accounts), old(txHeights)), tx, at, feeRecipient)
              case Err(e) => error == Some(e)
              case Ok(rows) => error == None && Rows(accounts, txHeights) == rows
    {
      var check := ApplyTx(accounts, tx, feeRecipient, app.rules);
      if check.Err? { return Some(LedgerRefused(check.error)); }
      accounts := InsertOrIgnore(accounts, tx.sender);
      accounts := InsertOrIgnore(accounts, tx.recipient);
      accounts := InsertOrIgnore(accounts, feeRecipient);
      accounts := Update(accounts, tx.sender, -(tx.amount + tx.fee), 1);
      accounts := Update(accounts, tx.recipient, tx.amount, 0);
      accounts := Update(accounts, feeRecipient, tx.fee, 0);
      if TxId(tx) in txHeights { return Some(UniqueViolated); }
      txHeights := txHeights[TxId(tx) := at];
      error := None;
    }

    method RunAllStatements(txs: seq<Transaction>, at: int, feeRecipient: Address) returns (error: Option<StoreError>)
      modifies this`accounts, this`txHeights
      ensures match ApplyRows(app, Rows(old(accounts), old(txHeights)), txs, at, feeRecipient)
              case Err(e) => error == Some(e)
              case Ok(rows) => error == None && Rows(accounts, txHeights) == rows
    {
      for i := 0 to |txs|
        invariant ApplyRows(app, Rows(old(accounts), old(txHeights)), txs[..i], at, feeRecipient) == Ok(Rows(accounts, txHeights))
      {
        assert txs[..i + 1][..i] == txs[..i];
        error := RunStatements(txs[i], at, feeRecipient);
        if error.Some? {
          RowsPrefix(app, Rows(old(accounts), old(txHeights)), txs, i + 1, at, feeRecipient);
          return;
        }
      }
      assert txs[..|txs|] == txs;
      error := None;
    }

    /** One database transaction: any failure restores the rows already written. */
    method CommitPending() returns (r: Result<CommitReply, StoreError>)
      modifies this
      ensures (State(), r) == Commit(app, old(State()))
    {
      if pending == map[] { return Ok(NothingPending(height, CurrentHash(app, State()))); }
      LowestExists(pending.Keys);
      var h :| h in pending.Keys && forall k :: k in pending.Keys ==> h <= k;
      assert h == Lowest(pending);
      var p := pending[h];
      if h != height + 1 { return Err(PendingNotNext); }
      if CurrentHash(app, State()) != p.row.previous { return Err(StateMoved); }
      var result := Simulate(accounts, p.txs, p.row.feeRecipient, app.rules);
      if result.Err? { return Err(BadBatch(result.error)); }
      var expected := AppHash(app.rules.chainId, h, p.row.blockHash, result.value);
      if expected != p.row.next { return Err(StagedHashMismatch); }
      var savedAccounts, savedHeights := accounts, txHeights;
      var error := RunAllStatements(p.txs, h, p.row.feeRecipient);
      if error.Some? {
        accounts, txHeights := savedAccounts, savedHeights;
        return Err(error.value);
      }
      var final := AppHash(app.rules.chainId, h, p.row.blockHash, accounts);
      if final != expected {
        accounts, txHeights := savedAccounts, savedHeights;
        return Err(CommittedHashDiffers);
      }
      if h in commits || CommitTaken(commits, p.row.requestHash) {
        accounts, txHeights := savedAccounts, savedHeights;
        return Err(UniqueViolated);
      }
      var row := p.row.(next := final);
      height, lastHash := h, p.row.blockHash;
      commits := commits[h := row];
      pending := pending - {h};
      r := Ok(Committed(h, row));
    }
  }

  method ReplaySafeStageFinalize(store: ExternalExecutionStore, req: Request) returns (r: Result<Reply, StoreError>)
    modifies store
    ensures (store.State(), r) == ReplaySafe(store.app, old(store.State()), req)
  {
    if req.height <= store.height {
      if req.height !in store.commits { return Err(NoCommittedRecord); }
      var row := store.commits[req.height];
      if HashRequest(store.app, row.previous, req) != row.requestHash { return Err(ConflictCommitted); }
      return Ok(Reply(req.height, row, None, false, true, true));
    }
    r := store.StageFinalize(req);
  }

  lemma {:induction false} RowsPrefix(app: App, rows: Rows, txs: seq<Transaction>, n: nat, height: int, feeRecipient: Address)
    requires n <= |txs| && ApplyRows(app, rows, txs[..n], height, feeRecipient).Err?
    ensures ApplyRows(app, rows, txs, height, feeRecipient) == ApplyRows(app, rows, txs[..n], height, feeRecipient)
    decreases |txs|
  {
    if n < |txs| {
      assert txs[..|txs| - 1][..n] == txs[..n];
      RowsPrefix(app, rows, txs[..|txs| - 1], n, height, feeRecipient);
    } else {
      assert txs[..n] == txs;
    }
  }

  /** What opening an existing database insists on. */
  predicate Opens(t: Tables) {
    0 <= t.base <= t.height && t.height == t.base + |t.commits|
  }
}
