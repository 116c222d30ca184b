/** Importing a history archive into a snapshot-restored node: rows are added below the snapshot
    base, and nothing else changes. */
module Backfill {
  import opened Models
  import opened Execution
  import opened Blocks
  import opened Chain
  import opened Archive

  /** The tables the import writes, with the number of rows inserted so far. */
  datatype Rows = Rows(blocks: map<int, Block>, txHeights: map<Digest, int>, newBlocks: nat, newTxs: nat)

  // ---- the rows, one statement at a time ----

  function PutTx(rows: Rows, tx: Transaction, height: int): Option<Rows> {
    if TxId(tx) in rows.txHeights then
      if rows.txHeights[TxId(tx)] != height then None else Some(rows)
    else Some(rows.(txHeights := rows.txHeights[TxId(tx) := height], newTxs := rows.newTxs + 1))
  }

  function PutTxs(rows: Rows, txs: seq<Transaction>, height: int): Option<Rows> {
    if txs == [] then Some(rows)
    else
      match PutTxs(rows, txs[..|txs| - 1], height)
      case None => None
      case Some(mid) => PutTx(mid, txs[|txs| - 1], height)
  }

  function PutBlock(rows: Rows, block: Block): Option<Rows> {
    var h := block.header.height;
    if h in rows.blocks then
      if HashOf(rows.blocks[h]) != HashOf(block) then None else PutTxs(rows, block.header.transactions, h)
    else PutTxs(rows.(blocks := rows.blocks[h := block], newBlocks := rows.newBlocks + 1), block.header.transactions, h)
  }

  function PutBlocks(rows: Rows, blocks: seq<Block>): Option<Rows> {
    if blocks == [] then Some(rows)
    else
      match PutBlocks(rows, blocks[..|blocks| - 1])
      case None => None
      case Some(mid) => PutBlock(mid, blocks[|blocks| - 1])
  }

  // ---- the closed form ----

  function MarkTxs(txs: seq<Transaction>, height: int): map<Digest, int> {
    if txs == [] then map[] else MarkTxs(txs[..|txs| - 1], height)[TxId(txs[|txs| - 1]) := height]
  }

  /** Every transaction of a chain with the height it is in. */
  function Index(blocks: seq<Block>): map<Digest, int> {
    if blocks == [] then map[]
    else Index(blocks[..|blocks| - 1]) + MarkTxs(blocks[|blocks| - 1].header.transactions, |blocks|)
  }

  /** Where both maps speak of a key they say the same. */
  ghost predicate Agrees<K, V>(have: map<K, V>, want: map<K, V>) {
    forall k :: k in have && k in want ==> have[k] == want[k]
  }

  ghost predicate SameHashes(have: map<int, Block>, want: map<int, Block>) {
    forall h :: h in have && h in want ==> HashOf(have[h]) == HashOf(want[h])
  }

  lemma AgreesInsert<K, V>(have: map<K, V>, want: map<K, V>, k: K, v: V)
    requires k in want ==> want[k] == v
    ensures Agrees(have, want[k := v]) <==> Agrees(have, want) && (k in have ==> have[k] == v)
    ensures Agrees(have, want) ==> (k in have + want ==> ((have + want)[k] == v <==> (k in have ==> have[k] == v)))
    ensures k in have + want && (have + want)[k] == v ==> have + want[k := v] == have + want
    ensures k !in have + want ==> have + want[k := v] == (have + want)[k := v]
  {
    if k in have && k in want { assert (have + want)[k] == v; }
    if Agrees(have, want[k := v]) {
      forall j | j in have && j in want ensures have[j] == want[j] { assert have[j] == want[k := v][j]; }
    }
  }

  /** The rows after inserting marks that agree with them. */
  ghost predicate Marked(rows: Rows, marks: map<Digest, int>, after: Rows) {
    && after.blocks == rows.blocks && after.newBlocks == rows.newBlocks
    && after.txHeights == rows.txHeights + marks
    && after.newTxs - rows.newTxs == |after.txHeights| - |rows.txHeights|
  }

  lemma PutTxMeans(rows: Rows, marks: map<Digest, int>, mid: Rows, tx: Transaction, height: int)
    requires Agrees(rows.txHeights, marks) && Marked(rows, marks, mid) && (TxId(tx) in marks ==> marks[TxId(tx)] == height)
    ensures PutTx(mid, tx, height).Some? <==> Agrees(rows.txHeights, marks[TxId(tx) := height])
    ensures PutTx(mid, tx, height).Some? ==> Marked(rows, marks[TxId(tx) := height], PutTx(mid, tx, height).value)
  {
    AgreesInsert(rows.txHeights, marks, TxId(tx), height);
  }

  lemma {:induction false} MarksFind(txs: seq<Transaction>, height: int)
    ensures forall id :: id in MarkTxs(txs, height) ==> id.TxId? && id.tx in txs && MarkTxs(txs, height)[id] == height
  {
    if txs != [] {
      MarksFind(txs[..|txs| - 1], height);
      assert txs == txs[..|txs| - 1] + [txs[|txs| - 1]];
    }
  }

  /** The outcome of inserting these marks: refused exactly on a disagreement about a height. */
  ghost predicate Means(rows: Rows, marks: map<Digest, int>, r: Option<Rows>) {
    (r.Some? <==> Agrees(rows.txHeights, marks)) && (r.Some? ==> Marked(rows, marks, r.value))
  }

  lemma MeansNext(rows: Rows, marks: map<Digest, int>, r: Option<Rows>, tx: Transaction, height: int)
    requires Means(rows, marks, r) && (TxId(tx) in marks ==> marks[TxId(tx)] == height)
    ensures Means(rows, marks[TxId(tx) := height], match r case None => None case Some(mid) => PutTx(mid, tx, height))
  {
    AgreesInsert(rows.txHeights, marks, TxId(tx), height);
    if r.Some? { PutTxMeans(rows, marks, r.value, tx, height); }
  }

  lemma {:induction false} PutTxsMeans(rows: Rows, txs: seq<Transaction>, height: int)
    ensures Means(rows, MarkTxs(txs, height), PutTxs(rows, txs, height))
  {
    if txs == [] {
      assert rows.txHeights + map[] == rows.txHeights;
    } else {
      PutTxsMeans(rows, txs[..|txs| - 1], height);
      MarksFind(txs[..|txs| - 1], height);
      MeansNext(rows, MarkTxs(txs[..|txs| - 1], height), PutTxs(rows, txs[..|txs| - 1], height), txs[|txs| - 1], height);
    }
  }

  // ---- a whole chain ----

  /** Heights count from one and no transaction occurs in two blocks, as in every chain that replays. */
  ghost predicate Chainlike(blocks: seq<Block>) {
    && (forall i :: 0 <= i < |blocks| ==> blocks[i].header.height == i + 1)
    && (forall i, j, tx :: 0 <= i < j < |blocks| && tx in blocks[i].header.transactions ==> tx !in blocks[j].header.transactions)
  }

  lemma ReplayChainlike(g: Genesis, signed: set<Message>, blocks: seq<Block>)
    requires g.validators != [] && Replay(g, signed, blocks).Some?
    ensures Chainlike(blocks)
  {
    forall i | 0 <= i < |blocks| ensures blocks[i].header.height == i + 1 { ReplayAt(g, signed, blocks, i); }
    forall i, j, tx | 0 <= i < j < |blocks| && tx in blocks[i].header.transactions ensures tx !in blocks[j].header.transactions {
      if tx in blocks[j].header.transactions { ReplayNoRepeat(g, signed, blocks, i, j, tx); }
    }
  }

  lemma {:induction false} IndexFinds(blocks: seq<Block>, id: Digest)
    requires id in Index(blocks)
    ensures id.TxId? && exists i :: 0 <= i < |blocks| && id.tx in blocks[i].header.transactions
  {
    var init, last := blocks[..|blocks| - 1], blocks[|blocks| - 1];
    MarksFind(last.header.transactions, |blocks|);
    if id !in MarkTxs(last.header.transactions, |blocks|) {
      IndexFinds(init, id);
      var i :| 0 <= i < |init| && id.tx in init[i].header.transactions;
      assert blocks[i] == init[i];
    }
  }

  lemma AgreesJoin<K, V>(have: map<K, V>, one: map<K, V>, other: map<K, V>)
    requires one.Keys !! other.Keys
    ensures Agrees(have, one + other) <==> Agrees(have, one) && Agrees(have, other)
    ensures Agrees(have + one, other) <==> Agrees(have, other)
    ensures have + one + other == have + (one + other)
  {
    if Agrees(have, one + other) {
      forall k | k in have && k in one ensures have[k] == one[k] { assert have[k] == (one + other)[k]; }
      forall k | k in have && k in other ensures have[k] == other[k] { assert have[k] == (one + other)[k]; }
    }
    if Agrees(have + one, other) {
      forall k | k in have && k in other ensures have[k] == other[k] { assert (have + one)[k] == other[k]; }
    }
  }

  lemma Beneath<K, V>(have: map<K, V>, k: K, v: V)
    ensures k in have ==> map[k := v] + have == have
    ensures k !in have ==> map[k := v] + have == have[k := v]
  {
  }

  /** What one block leaves: its body unless one was there, and its transaction heights. */
  ghost predicate Added(rows: Rows, block: Block, marks: map<Digest, int>, after: Rows) {
    && after.blocks == map[block.header.height := block] + rows.blocks
    && after.txHeights == rows.txHeights + marks
    && after.newBlocks - rows.newBlocks == |after.blocks| - |rows.blocks|
    && after.newTxs - rows.newTxs == |after.txHeights| - |rows.txHeights|
  }

  ghost predicate Fits(rows: Rows, block: Block, marks: map<Digest, int>) {
    var h := block.header.height;
    (h in rows.blocks ==> HashOf(rows.blocks[h]) == HashOf(block)) && Agrees(rows.txHeights, marks)
  }

  lemma AddedBy(rows: Rows, block: Block, base: Rows, marks: map<Digest, int>, after: Rows)
    requires Marked(base, marks, after) && base.txHeights == rows.txHeights && base.newTxs == rows.newTxs
    requires if block.header.height in rows.blocks then base == rows
             else base == rows.(blocks := rows.blocks[block.header.height := block], newBlocks := rows.newBlocks + 1)
    ensures Added(rows, block, marks, after)
  {
    Beneath(rows.blocks, block.header.height, block);
  }

  lemma PutBlockMeans(rows: Rows, block: Block)
    ensures PutBlock(rows, block).Some? <==> Fits(rows, block, MarkTxs(block.header.transactions, block.header.height))
    ensures PutBlock(rows, block).Some? ==>
              Added(rows, block, MarkTxs(block.header.transactions, block.header.height), PutBlock(rows, block).value)
  {
    var h := block.header.height;
    var base := if h in rows.blocks then rows else rows.(blocks := rows.blocks[h := block], newBlocks := rows.newBlocks + 1);
    PutTxsMeans(base, block.header.transactions, h);
    if PutBlock(rows, block).Some? { AddedBy(rows, block, base, MarkTxs(block.header.transactions, h), PutBlock(rows, block).value); }
  }

  lemma HashesJoin(have: map<int, Block>, want: map<int, Block>, h: int, block: Block)
    requires h !in want
    ensures SameHashes(have, want[h := block]) <==> SameHashes(have, want) && (h in have ==> HashOf(have[h]) == HashOf(block))
    ensures map[h := block] + (want + have) == want[h := block] + have
    ensures h in want + have <==> h in have
    ensures h in have ==> (want + have)[h] == have[h]
  {
    if SameHashes(have, want[h := block]) {
      forall k | k in have && k in want ensures HashOf(have[k]) == HashOf(want[k]) { assert want[h := block][k] == want[k]; }
    }
  }

  lemma MarksNew(blocks: seq<Block>)
    requires Chainlike(blocks) && blocks != []
    ensures Index(blocks[..|blocks| - 1]).Keys !! MarkTxs(blocks[|blocks| - 1].header.transactions, |blocks|).Keys
  {
    var init, last := blocks[..|blocks| - 1], blocks[|blocks| - 1];
    MarksFind(last.header.transactions, |blocks|);
    forall id | id in Index(init) ensures id !in MarkTxs(last.header.transactions, |blocks|) {
      IndexFinds(init, id);
      var i :| 0 <= i < |init| && id.tx in init[i].header.transactions;
      assert blocks[i] == init[i] && id.tx !in last.header.transactions;
    }
  }

  /** What an import of a chain may find, and what it leaves. */
  ghost predicate Compatible(rows: Rows, blocks: seq<Block>) {
    SameHashes(rows.blocks, Bodies(blocks)) && Agrees(rows.txHeights, Index(blocks))
  }

  ghost predicate Filled(rows: Rows, blocks: seq<Block>, after: Rows) {
    && after.blocks == Bodies(blocks) + rows.blocks && after.txHeights == rows.txHeights + Index(blocks)
    && after.newBlocks - rows.newBlocks == |after.blocks| - |rows.blocks|
    && after.newTxs - rows.newTxs == |after.txHeights| - |rows.txHeights|
  }

  lemma CompatibleNext(rows: Rows, init: seq<Block>, last: Block)
    requires last.header.height == |init| + 1 && Index(init).Keys !! MarkTxs(last.header.transactions, |init| + 1).Keys
    ensures Compatible(rows, init + [last])
            <==> Compatible(rows, init) && Fits(rows, last, MarkTxs(last.header.transactions, |init| + 1))
  {
    assert (init + [last])[..|init|] == init;
    BodiesKeys(init);
    HashesJoin(rows.blocks, Bodies(init), |init| + 1, last);
    AgreesJoin(rows.txHeights, Index(init), MarkTxs(last.header.transactions, |init| + 1));
  }

  /** The rows of the earlier blocks neither help nor hinder the next one. */
  lemma FitsNext(rows: Rows, init: seq<Block>, last: Block, mid: Rows)
    requires Filled(rows, init, mid) && last.header.height == |init| + 1
    requires Index(init).Keys !! MarkTxs(last.header.transactions, |init| + 1).Keys
    ensures var marks := MarkTxs(last.header.transactions, |init| + 1); Fits(mid, last, marks) <==> Fits(rows, last, marks)
  {
    BodiesKeys(init);
    HashesJoin(rows.blocks, Bodies(init), |init| + 1, last);
    AgreesJoin(rows.txHeights, Index(init), MarkTxs(last.header.transactions, |init| + 1));
  }

  lemma FilledNext(rows: Rows, init: seq<Block>, last: Block, mid: Rows, after: Rows)
    requires Filled(rows, init, mid) && last.header.height == |init| + 1
    requires Index(init).Keys !! MarkTxs(last.header.transactions, |init| + 1).Keys
    requires Added(mid, last, MarkTxs(last.header.transactions, |init| + 1), after)
    ensures Filled(rows, init + [last], after)
  {
    assert (init + [last])[..|init|] == init;
    BodiesKeys(init);
    HashesJoin(rows.blocks, Bodies(init), |init| + 1, last);
    AgreesJoin(rows.txHeights, Index(init), MarkTxs(last.header.transactions, |init| + 1));
  }

  lemma PutBlocksSnoc(rows: Rows, init: seq<Block>, last: Block)
    ensures PutBlocks(rows, init + [last])
            == match PutBlocks(rows, init) case None => None case Some(mid) => PutBlock(mid, last)
  {
    assert (init + [last])[..|init|] == init;
  }

  /** The outcome of inserting a chain: refused exactly where a stored row contradicts it, and
      otherwise exactly the missing rows added, every stored row kept. */
  ghost predicate Outcome(rows: Rows, blocks: seq<Block>, r: Option<Rows>) {
    (r.Some? <==> Compatible(rows, blocks)) && (r.Some? ==> Filled(rows, blocks, r.value))
  }

  lemma OutcomeNext(rows: Rows, init: seq<Block>, last: Block, r: Option<Rows>, next: Option<Rows>)
    requires Outcome(rows, init, r) && last.header.height == |init| + 1
    requires Index(init).Keys !! MarkTxs(last.header.transactions, |init| + 1).Keys
    requires next == match r case None => None case Some(mid) => PutBlock(mid, last)
    ensures Outcome(rows, init + [last], next)
  {
    CompatibleNext(rows, init, last);
    if r.Some? {
      FitsNext(rows, init, last, r.value);
      PutBlockMeans(r.value, last);
      if next.Some? { FilledNext(rows, init, last, r.value, next.value); }
    }
  }

  lemma OutcomeEmpty(rows: Rows)
    ensures Outcome(rows, [], Some(rows))
  {
    assert Bodies([]) + rows.blocks == rows.blocks && rows.txHeights + Index([]) == rows.txHeights;
  }

  lemma ChainlikeInit(init: seq<Block>, last: Block)
    requires Chainlike(init + [last])
    ensures Chainlike(init) && last.header.height == |init| + 1
    ensures Index(init).Keys !! MarkTxs(last.header.transactions, |init| + 1).Keys
  {
    var blocks := init + [last];
    assert blocks[|init|] == last && forall i :: 0 <= i < |init| ==> blocks[i] == init[i];
    assert blocks[..|init|] == init;
    MarksNew(blocks);
  }

  lemma {:induction false} PutBlocksMeans(rows: Rows, blocks: seq<Block>)
    requires Chainlike(blocks)
    ensures Outcome(rows, blocks, PutBlocks(rows, blocks))
  {
    if blocks == [] {
      OutcomeEmpty(rows);
    } else {
      var init, last := blocks[..|blocks| - 1], blocks[|blocks| - 1];
      assert blocks == init + [last];
      ChainlikeInit(init, last);
      PutBlocksMeans(rows, init);
      PutBlocksSnoc(rows, init, last);
      OutcomeNext(rows, init, last, PutBlocks(rows, init), PutBlocks(rows, init + [last]));
    }
  }

  // ---- the import ----

  datatype Tables = Tables(blocks: map<int, Block>, txHeights: map<Digest, int>, importedTo: Option<int>, importedHash: Option<PayloadHash>)

  datatype Counts = Counts(blocks: nat, txs: nat)

  /** `artifact["blocks"][base - 1]`, where index -1 is the last element. */
  function BaseBlock(blocks: seq<RawBlock>, base: nat): Option<Block> {
    if 1 <= base <= |blocks| then Some(blocks[base - 1].block)
    else if base == 0 && blocks != [] then Some(blocks[|blocks| - 1].block)
    else None
  }

  /** The blocks an import will insert, or nothing where it is refused before touching a table. */
  ghost function ToInsert(g: Genesis, signed: set<Message>, base: Option<(nat, Digest)>, a: Archive): Option<seq<Block>>
    requires g.validators != []
  {
    if !Accepted(g, signed, a) || base.None? then None
    else
      var height, hash := base.value.0, base.value.1;
      if |a.blocks| < height || BaseBlock(a.blocks, height).None? || HashOf(BaseBlock(a.blocks, height).value) != hash then None
      else Some(Bare(a.blocks)[..height])
  }

  function Insert(t: Tables, history: seq<Block>, payload: PayloadHash): (Tables, Option<Counts>) {
    match PutBlocks(Rows(t.blocks, t.txHeights, 0, 0), history)
    case None => (t, None)
    case Some(rows) => (Tables(rows.blocks, rows.txHeights, Some(|history|), Some(payload)), Some(Counts(rows.newBlocks, rows.newTxs)))
  }

  /** `import_history_archive` on a node whose snapshot base is `base`. */
  ghost function Import(g: Genesis, signed: set<Message>, base: Option<(nat, Digest)>, t: Tables, a: Archive): (Tables, Option<Counts>)
    requires g.validators != []
  {
    match ToInsert(g, signed, base, a)
    case None => (t, None)
    case Some(history) => Insert(t, history, a.manifest.payload)
  }

  /** A snapshot-restored node. The import names the tables it modifies; accounts, height and tip
      are not among them. */
  class RestoredLedger {
    const g: Genesis
    const base: Option<(nat, Digest)>
    var accounts: Accounts
    var height: int
    var lastHash: Digest
    var blocks: map<int, Block>
    var txHeights: map<Digest, int>
    var importedTo: Option<int>
    var importedHash: Option<PayloadHash>

    function State(): Tables
      reads this
    {
      Tables(blocks, txHeights, importedTo, importedHash)
    }

    constructor (g: Genesis, base: Option<(nat, Digest)>, accounts: Accounts, height: int, lastHash: Digest, t: Tables)
      ensures this.g == g && this.base == base && State() == t
      ensures this.accounts == accounts && this.height == height && this.lastHash == lastHash
    {
      this.g, this.base, this.accounts, this.height, this.lastHash := g, base, accounts, height, lastHash;
      blocks, txHeights, importedTo, importedHash := t.blocks, t.txHeights, t.importedTo, t.importedHash;
    }

    method InsertTransactions(txs: seq<Transaction>, at: int, ghost rows: Rows, newTxs: nat) returns (ok: bool, count: nat)
      requires rows.blocks == blocks && rows.txHeights == txHeights && rows.newTxs == newTxs
      modifies this`txHeights
      ensures ok == PutTxs(rows, txs, at).Some?
      ensures ok ==> PutTxs(rows, txs, at).value == rows.(txHeights := txHeights, newTxs := count)
    {
      count := newTxs;
      for i := 0 to |txs|
        invariant PutTxs(rows, txs[..i], at) == Some(rows.(txHeights := txHeights, newTxs := count))
      {
        assert txs[..i + 1][..i] == txs[..i];
        var id := TxId(txs[i]);
        if id in txHeights {
          if txHeights[id] != at {
            TxsStayRefused(rows, txs, i + 1, at);
            return false, count;
          }
        } else {
          txHeights := txHeights[id := at];
          count := count + 1;
        }
      }
      assert txs[..|txs|] == txs;
      ok := true;
    }

    method InsertBlock(block: Block, ghost rows: Rows, counts: Counts) returns (ok: bool, next: Counts)
      requires rows == Rows(blocks, txHeights, counts.blocks, counts.txs)
      modifies this`blocks, this`txHeights
      ensures ok == PutBlock(rows, block).Some?
      ensures ok ==> PutBlock(rows, block).value == Rows(blocks, txHeights, next.blocks, next.txs)
    {
      var h := block.header.height;
      next := counts;
      ghost var base := rows;
      if h in blocks {
        if HashOf(blocks[h]) != HashOf(block) { return false, next; }
      } else {
        blocks := blocks[h := block];
        next := next.(blocks := next.blocks + 1);
        base := Rows(blocks, txHeights, next.blocks, next.txs);
      }
      var txs;
      ok, txs := InsertTransactions(block.header.transactions, h, base, next.txs);
      next := next.(txs := txs);
    }

    /** One database transaction; a conflict restores the tables. */
    method InsertHistory(history: seq<Block>, payload: PayloadHash) returns (r: Option<Counts>)
      modifies this`blocks, this`txHeights, this`importedTo, this`importedHash
      ensures (State(), r) == Insert(old(State()), history, payload)
    {
      var savedBlocks, savedHeights := blocks, txHeights;
      ghost var start := Rows(blocks, txHeights, 0, 0);
      var counts := Counts(0, 0);
      for i := 0 to |history|
        invariant PutBlocks(start, history[..i]) == Some(Rows(blocks, txHeights, counts.blocks, counts.txs))
        invariant importedTo == old(importedTo) && importedHash == old(importedHash)
      {
        assert history[..i + 1][..i] == history[..i];
        var ok;
        ok, counts := InsertBlock(history[i], Rows(blocks, txHeights, counts.blocks, counts.txs), counts);
        if !ok {
          BlocksStayRefused(start, history, i + 1);
          blocks, txHeights := savedBlocks, savedHeights;
          return None;
        }
      }
      assert history[..|history|] == history;
      importedTo, importedHash := Some(|history|), Some(payload);
      r := Some(counts);
    }

    method ImportHistoryArchive(signed: set<Message>, a: Archive) returns (r: Option<Counts>)
      requires g.validators != []
      modifies this`blocks, this`txHeights, this`importedTo, this`importedHash
      ensures (State(), r) == Import(g, signed, base, old(State()), a)
    {
      var summary := VerifyHistoryArchive(g, signed, a);
      if summary.None? || base.None? { return None; }
      var height, hash := base.value.0, base.value.1;
      if |a.blocks| < height { return None; }
      var baseBlock := BaseBlock(a.blocks, height);
      if baseBlock.None? || HashOf(baseBlock.value) != hash { return None; }
      r := InsertHistory(Bare(a.blocks)[..height], summary.value.payload);
    }
  }

  lemma {:induction false} TxsStayRefused(rows: Rows, txs: seq<Transaction>, n: nat, height: int)
    requires n <= |txs| && PutTxs(rows, txs[..n], height).None?
    ensures PutTxs(rows, txs, height).None?
    decreases |txs|
  {
    if n == |txs| { assert txs[..n] == txs; }
    else {
      assert txs[..|txs| - 1][..n] == txs[..n];
      TxsStayRefused(rows, txs[..|txs| - 1], n, height);
    }
  }

  lemma {:induction false} BlocksStayRefused(rows: Rows, blocks: seq<Block>, n: nat)
    requires n <= |blocks| && PutBlocks(rows, blocks[..n]).None?
    ensures PutBlocks(rows, blocks).None?
    decreases |blocks|
  {
    if n == |blocks| { assert blocks[..n] == blocks; }
    else {
      assert blocks[..|blocks| - 1][..n] == blocks[..n];
      BlocksStayRefused(rows, blocks[..|blocks| - 1], n);
    }
  }

  // ---- what the import promises ----

  lemma InsertableReplays(g: Genesis, signed: set<Message>, base: Option<(nat, Digest)>, a: Archive) returns (history: seq<Block>)
    requires g.validators != [] && ToInsert(g, signed, base, a).Some?
    ensures ToInsert(g, signed, base, a) == Some(history) && |history| == base.value.0
    ensures Replay(g, signed, history).Some? && Chainlike(history)
    ensures history != [] ==> Tip(history) == base.value.1
  {
    history := ToInsert(g, signed, base, a).value;
    ReplayPrefix(g, signed, Bare(a.blocks), base.value.0);
    ReplayChainlike(g, signed, history);
  }

  /** An import that gets as far as the tables succeeds exactly when no stored row contradicts the
      archive; it then keeps every stored row, adds exactly the missing ones up to the base, and
      counts them. Otherwise it changes nothing. */
  lemma ImportMeans(g: Genesis, signed: set<Message>, base: Option<(nat, Digest)>, t: Tables, a: Archive)
    returns (history: seq<Block>, after: Tables)
    requires g.validators != [] && ToInsert(g, signed, base, a).Some?
    ensures ToInsert(g, signed, base, a) == Some(history)
    ensures SameHashes(t.blocks, Bodies(history)) && Agrees(t.txHeights, Index(history)) <==> Import(g, signed, base, t, a).1.Some?
    ensures Import(g, signed, base, t, a).1.None? ==> Import(g, signed, base, t, a).0 == t
    ensures after == Tables(Bodies(history) + t.blocks, t.txHeights + Index(history), Some(|history|), Some(a.manifest.payload))
    ensures Import(g, signed, base, t, a).1.Some? ==>
              && Import(g, signed, base, t, a).0 == after
              && Import(g, signed, base, t, a).1.value.blocks == |after.blocks| - |t.blocks|
              && Import(g, signed, base, t, a).1.value.txs == |after.txHeights| - |t.txHeights|
  {
    history := InsertableReplays(g, signed, base, a);
    PutBlocksMeans(Rows(t.blocks, t.txHeights, 0, 0), history);
    after := Tables(Bodies(history) + t.blocks, t.txHeights + Index(history), Some(|history|), Some(a.manifest.payload));
  }

  lemma {:induction false} SameHeadersSameIndex(one: seq<Block>, other: seq<Block>)
    requires Headers(one) == Headers(other)
    ensures Index(one) == Index(other)
  {
    if one != [] {
      HeadersSplit(one, other);
      assert |Headers(one)| == |Headers(other)|;
      SameHeadersSameIndex(one[..|one| - 1], other[..|other| - 1]);
    }
  }

  lemma HistoriesAgree(g: Genesis, signed: set<Message>, one: seq<Block>, other: seq<Block>)
    requires g.validators != [] && Replay(g, signed, one).Some? && Replay(g, signed, other).Some?
    requires |one| == |other| && Tip(one) == Tip(other)
    ensures Index(one) == Index(other) && forall i :: 0 <= i < |one| ==> HashOf(one[i]) == HashOf(other[i])
  {
    SameTipSameHeaders(g, signed, one, other);
    SameHeadersSameIndex(one, other);
    forall i | 0 <= i < |one| ensures HashOf(one[i]) == HashOf(other[i]) {
      assert Headers(one)[i] == Headers(other)[i];
    }
  }

  lemma SecondFill(blocks: map<int, Block>, one: seq<Block>, other: seq<Block>)
    requires |one| == |other| && forall i :: 0 <= i < |one| ==> HashOf(one[i]) == HashOf(other[i])
    requires SameHashes(blocks, Bodies(one))
    ensures SameHashes(Bodies(one) + blocks, Bodies(other)) && Bodies(other) + (Bodies(one) + blocks) == Bodies(one) + blocks
  {
    BodiesKeys(one);
    BodiesKeys(other);
    var filled := Bodies(one) + blocks;
    forall h | h in filled && h in Bodies(other) ensures HashOf(filled[h]) == HashOf(Bodies(other)[h]) {
      assert HashOf(one[h - 1]) == HashOf(other[h - 1]);
      if h in blocks { assert HashOf(blocks[h]) == HashOf(Bodies(one)[h]); }
    }
    Contained(Bodies(other), filled);
  }

  lemma Contained<K, V>(one: map<K, V>, other: map<K, V>)
    requires forall k :: k in one ==> k in other
    ensures one + other == other
  {
  }

  lemma SecondIndex(txHeights: map<Digest, int>, index: map<Digest, int>)
    ensures Agrees(txHeights + index, index) && txHeights + index + index == txHeights + index
  {
  }

  /** After one successful import, importing any accepted archive of the same history again, the
      same one or one with other certificates or a longer tail, inserts nothing. */
  lemma ImportIsIdempotent(g: Genesis, signed: set<Message>, base: Option<(nat, Digest)>, t: Tables, a: Archive, b: Archive)
    returns (once: Tables)
    requires g.validators != [] && ToInsert(g, signed, base, a).Some? && ToInsert(g, signed, base, b).Some?
    requires Import(g, signed, base, t, a).1.Some?
    ensures once == Import(g, signed, base, t, a).0
    ensures Import(g, signed, base, once, b) == (once.(importedHash := Some(b.manifest.payload)), Some(Counts(0, 0)))
  {
    var ha := InsertableReplays(g, signed, base, a);
    var hb := InsertableReplays(g, signed, base, b);
    HistoriesAgree(g, signed, ha, hb);
    var ha', hb', twice;
    ha', once := ImportMeans(g, signed, base, t, a);
    SecondFill(t.blocks, ha, hb);
    SecondIndex(t.txHeights, Index(ha));
    hb', twice := ImportMeans(g, signed, base, once, b);
  }

  lemma UpToIs(blocks: map<int, Block>, history: seq<Block>, end: nat)
    requires end <= |history| && forall h :: 1 <= h <= end ==> h in blocks && blocks[h] == history[h - 1]
    ensures Present(blocks, end) && UpTo(blocks, end) == history[..end]
  {
  }

  lemma FilledUpTo(blocks: map<int, Block>, history: seq<Block>, end: nat)
    requires 1 <= end <= |history| && forall h :: h in blocks ==> h > |history|
    ensures !Present(blocks, end) && SameHashes(blocks, Bodies(history))
    ensures Present(Bodies(history) + blocks, end) && UpTo(Bodies(history) + blocks, end) == history[..end]
  {
    BodiesKeys(history);
    assert 1 !in blocks;
    var filled := Bodies(history) + blocks;
    forall h | 1 <= h <= end ensures h in filled && filled[h] == history[h - 1] { assert h !in blocks; }
    UpToIs(filled, history, end);
  }

  /** A restored node without older blocks can export no history before the import, and after it the
      history up to any height at or below its base. */
  lemma ImportEnablesExport(g: Genesis, signed: set<Message>, base: Option<(nat, Digest)>, t: Tables, a: Archive, end: nat)
    returns (history: seq<Block>, after: Tables)
    requires g.validators != [] && ToInsert(g, signed, base, a).Some? && 1 <= end <= base.value.0
    requires (forall h :: h in t.blocks ==> h > base.value.0) && Agrees(t.txHeights, Index(ToInsert(g, signed, base, a).value))
    ensures ToInsert(g, signed, base, a) == Some(history)
    ensures Import(g, signed, base, t, a).1.Some? && Import(g, signed, base, t, a).0 == after
    ensures !Present(t.blocks, end) && Present(after.blocks, end) && UpTo(after.blocks, end) == history[..end]
    ensures Accepted(g, signed, Rebuilt(g, Stored(history[..end])))
  {
    var replayed := InsertableReplays(g, signed, base, a);
    FilledUpTo(t.blocks, replayed, end);
    PrefixExports(g, signed, replayed, end);
    history, after := ImportMeans(g, signed, base, t, a);
  }

  /** The index of a chain says of each transaction exactly the height of the block it is in. */
  lemma {:induction false} IndexMeans(blocks: seq<Block>, tx: Transaction, h: int)
    requires Chainlike(blocks)
    ensures TxId(tx) in Index(blocks) && Index(blocks)[TxId(tx)] == h
            <==> 1 <= h <= |blocks| && tx in blocks[h - 1].header.transactions
  {
    if blocks != [] {
      var init, last := blocks[..|blocks| - 1], blocks[|blocks| - 1];
      assert blocks == init + [last];
      ChainlikeInit(init, last);
      IndexMeans(init, tx, h);
      MarksFind(last.header.transactions, |blocks|);
      MarksAll(last.header.transactions, |blocks|, tx);
      if TxId(tx) in Index(init) { IndexMeans(init, tx, Index(init)[TxId(tx)]); }
    }
  }

  lemma {:induction false} MarksAll(txs: seq<Transaction>, height: int, tx: Transaction)
    ensures tx in txs <==> TxId(tx) in MarkTxs(txs, height)
  {
    if txs != [] {
      assert txs == txs[..|txs| - 1] + [txs[|txs| - 1]];
      MarksAll(txs[..|txs| - 1], height, tx);
    }
  }

  /** An import gets as far as the tables exactly for an accepted archive, on a restored node, that reaches
      the base, and whose block there (for base 0, whose last block) has the hash of the base. */
  lemma ToInsertIff(g: Genesis, signed: set<Message>, base: Option<(nat, Digest)>, a: Archive)
    requires g.validators != []
    ensures ToInsert(g, signed, base, a).Some?
            <==> && Accepted(g, signed, a) && base.Some? && base.value.0 <= |a.blocks| && a.blocks != []
                 && base.value.1 == (if base.value.0 == 0 then Tip(Bare(a.blocks)) else Tip(Bare(a.blocks)[..base.value.0]))
    ensures ToInsert(g, signed, base, a).Some? ==> ToInsert(g, signed, base, a).value == Bare(a.blocks)[..base.value.0]
  {
  }

  /** A base height of 0 makes the base block the last one of the archive: only the tip is checked,
      and nothing is inserted. */
  lemma BaseZeroChecksTip(g: Genesis, signed: set<Message>, hash: Digest, t: Tables, a: Archive)
    requires g.validators != [] && Accepted(g, signed, a)
    ensures ToInsert(g, signed, Some((0, hash)), a).Some? <==> a.blocks != [] && a.manifest.tip == hash
    ensures ToInsert(g, signed, Some((0, hash)), a).Some? ==> Import(g, signed, Some((0, hash)), t, a).1 == Some(Counts(0, 0))
  {
    assert Bare(a.blocks)[..0] == [];
  }
}
