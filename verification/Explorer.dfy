/** The explorer index: an incremental copy of a store that may commit between any two reads. */
module Explorer {
  import opened Models
  import Execution
  import Blocks

  // ---- the source, append-only ----

  /** One row of `external_commits`, without its height. */
  datatype Info = Info(blockHash: string, appHash: Digest, txRoot: Digest, txCount: int, committedAt: int)

  /** One row of `transactions`; an absent sender or recipient is the empty address. */
  datatype Tx = Tx(id: Digest, sender: Address, recipient: Address, amount: int, fee: int, nonce: int, memo: string)

  datatype Commit = Commit(info: Info, txs: seq<Tx>, after: Accounts, hash: string)

  /** All that the source will ever commit above its base; at any moment a prefix of it is there. */
  datatype Source = Source(base: nat, accounts: Accounts, hash: string, log: seq<Commit>)
  {
    function AccountsAt(n: nat): Accounts requires n <= |log| { if n == 0 then accounts else log[n - 1].after }
    function HashAt(n: nat): string requires n <= |log| { if n == 0 then hash else log[n - 1].hash }
  }

  /** No transaction is committed twice. */
  ghost predicate Unique(log: seq<Commit>) {
    && (forall i, k, l :: 0 <= i < |log| && 0 <= k < l < |log[i].txs| ==> log[i].txs[k].id != log[i].txs[l].id)
    && (forall i, j, k, l :: 0 <= i < j < |log| && 0 <= k < |log[i].txs| && 0 <= l < |log[j].txs| ==> log[i].txs[k].id != log[j].txs[l].id)
  }

  // ---- the index ----

  datatype TxRow = TxRow(height: int, tx: Tx)

  datatype Direction = Out | In

  datatype Activity = Activity(height: int, direction: Direction, counterparty: Address, amount: int, fee: int)

  datatype Tables = Tables(commits: map<int, Info>, txs: map<Digest, TxRow>, activity: map<(Address, Digest), Activity>)

  datatype Index = Index(tables: Tables, accounts: Accounts, indexedHeight: int, snapshotBase: int, lastHash: string)

  const EMPTY := Index(Tables(map[], map[], map[]), map[], 0, 0, "")

  /** The statements for one transaction, all `INSERT OR REPLACE`. */
  function PutTx(t: Tables, height: int, tx: Tx): Tables {
    var t1 := t.(txs := t.txs[tx.id := TxRow(height, tx)]);
    var t2 := if tx.sender.text == "" then t1
              else t1.(activity := t1.activity[(tx.sender, tx.id) := Activity(height, Out, tx.recipient, tx.amount, tx.fee)]);
    if tx.recipient.text == "" then t2
    else t2.(activity := t2.activity[(tx.recipient, tx.id) := Activity(height, In, tx.sender, tx.amount, tx.fee)])
  }

  function PutTxs(t: Tables, height: int, txs: seq<Tx>): Tables {
    if txs == [] then t else PutTx(PutTxs(t, height, txs[..|txs| - 1]), height, txs[|txs| - 1])
  }

  function PutCommit(t: Tables, height: int, c: Commit): Tables {
    PutTxs(t.(commits := t.commits[height := c.info]), height, c.txs)
  }

  /** Rows `from` to `upTo` of the log, in height order. */
  function PutRows(t: Tables, base: nat, log: seq<Commit>, from: nat, upTo: nat): Tables
    requires upTo <= |log|
  {
    if upTo <= from then t else PutCommit(PutRows(t, base, log, from, upTo - 1), base + upTo, log[upTo - 1])
  }

  /** The image of the first `n` commits: what indexing them one after another produces. */
  function Image(src: Source, n: nat): Tables
    requires n <= |src.log|
  {
    PutRows(EMPTY.tables, src.base, src.log, 0, n)
  }

  /** How much of the log each read of a sync saw, in the order of the reads. */
  datatype Times = Times(height: nat, lastHash: nat, rows: nat, accounts: nat)

  ghost predicate Ordered(src: Source, w: Times) {
    w.height <= w.lastHash <= w.rows <= w.accounts <= |src.log|
  }

  function FirstRow(src: Source, current: int): nat {
    if current > src.base then current - src.base else 0
  }

  /** `sync_from_source`: the source height and hash are read before the index is locked, the rows
      and accounts after. */
  function Sync(src: Source, x: Index, w: Times): Index
    requires w.height <= |src.log| && w.lastHash <= |src.log| && w.rows <= |src.log| && w.accounts <= |src.log|
  {
    var height := src.base + w.height;
    Index(PutRows(x.tables, src.base, src.log, FirstRow(src, x.indexedHeight), w.rows),
          src.AccountsAt(w.accounts), if height > src.base then height else src.base, src.base, src.HashAt(w.lastHash))
  }

  class ExternalExplorerIndex {
    var commits: map<int, Info>
    var txs: map<Digest, TxRow>
    var activity: map<(Address, Digest), Activity>
    var accounts: Accounts
    var indexedHeight: int
    var snapshotBase: int
    var lastHash: string

    function TablesNow(): Tables
      reads this
    {
      Tables(commits, txs, activity)
    }

    function State(): Index
      reads this
    {
      Index(TablesNow(), accounts, indexedHeight, snapshotBase, lastHash)
    }

    constructor ()
      ensures State() == EMPTY
    {
      commits, txs, activity, accounts := map[], map[], map[], map[];
      indexedHeight, snapshotBase, lastHash := 0, 0, "";
    }

    method IndexTransaction(height: int, tx: Tx)
      modifies this`txs, this`activity
      ensures TablesNow() == PutTx(old(TablesNow()), height, tx)
    {
      txs := txs[tx.id := TxRow(height, tx)];
      if tx.sender.text != "" {
        activity := activity[(tx.sender, tx.id) := Activity(height, Out, tx.recipient, tx.amount, tx.fee)];
      }
      if tx.recipient.text != "" {
        activity := activity[(tx.recipient, tx.id) := Activity(height, In, tx.sender, tx.amount, tx.fee)];
      }
    }

    method IndexCommit(height: int, c: Commit)
      modifies this`commits, this`txs, this`activity
      ensures TablesNow() == PutCommit(old(TablesNow()), height, c)
    {
      commits := commits[height := c.info];
      ghost var start := TablesNow();
      for i := 0 to |c.txs|
        invariant TablesNow() == PutTxs(start, height, c.txs[..i])
      {
        assert c.txs[..i + 1][..i] == c.txs[..i];
        IndexTransaction(height, c.txs[i]);
      }
      assert c.txs[..|c.txs|] == c.txs;
    }

    method SyncFromSource(src: Source, w: Times)
      requires Ordered(src, w)
      modifies this
      ensures State() == Sync(src, old(State()), w)
    {
      var height := src.base + w.height;
      var hash := src.HashAt(w.lastHash);
      var first := FirstRow(src, indexedHeight);
      ghost var start := TablesNow();
      var k := first;
      while k < w.rows
        invariant k <= w.rows || k == first
        invariant TablesNow() == PutRows(start, src.base, src.log, first, if k < w.rows then k else w.rows)
      {
        IndexCommit(src.base + k + 1, src.log[k]);
        k := k + 1;
      }
      accounts := src.AccountsAt(w.accounts);
      indexedHeight := if height > src.base then height else src.base;
      snapshotBase, lastHash := src.base, hash;
    }
  }

  // ---- what one commit writes, as maps ----

  function TxMap(height: int, txs: seq<Tx>): map<Digest, TxRow> {
    if txs == [] then map[] else TxMap(height, txs[..|txs| - 1])[txs[|txs| - 1].id := TxRow(height, txs[|txs| - 1])]
  }

  function Acts(height: int, tx: Tx): map<(Address, Digest), Activity> {
    var out := if tx.sender.text == "" then map[]
               else map[(tx.sender, tx.id) := Activity(height, Out, tx.recipient, tx.amount, tx.fee)];
    if tx.recipient.text == "" then out
    else out[(tx.recipient, tx.id) := Activity(height, In, tx.sender, tx.amount, tx.fee)]
  }

  function ActMap(height: int, txs: seq<Tx>): map<(Address, Digest), Activity> {
    if txs == [] then map[] else ActMap(height, txs[..|txs| - 1]) + Acts(height, txs[|txs| - 1])
  }

  lemma UnionUpdate<K, V>(a: map<K, V>, b: map<K, V>, k: K, v: V)
    ensures (a + b)[k := v] == a + b[k := v]
  {
  }

  lemma UnionAssociates<K, V>(a: map<K, V>, b: map<K, V>, c: map<K, V>)
    ensures a + b + c == a + (b + c)
  {
  }

  lemma PutTxIsUnion(t: Tables, height: int, tx: Tx)
    ensures PutTx(t, height, tx) == Tables(t.commits, t.txs[tx.id := TxRow(height, tx)], t.activity + Acts(height, tx))
  {
  }

  lemma {:induction false} PutTxsIsUnion(t: Tables, height: int, txs: seq<Tx>)
    ensures PutTxs(t, height, txs) == Tables(t.commits, t.txs + TxMap(height, txs), t.activity + ActMap(height, txs))
  {
    if txs == [] {
      assert t.txs + map[] == t.txs && t.activity + map[] == t.activity;
    } else {
      var init, tx := txs[..|txs| - 1], txs[|txs| - 1];
      PutTxsIsUnion(t, height, init);
      PutTxIsUnion(PutTxs(t, height, init), height, tx);
      UnionUpdate(t.txs, TxMap(height, init), tx.id, TxRow(height, tx));
      UnionAssociates(t.activity, ActMap(height, init), Acts(height, tx));
    }
  }

  lemma PutCommitIsUnion(t: Tables, height: int, c: Commit)
    ensures PutCommit(t, height, c)
            == Tables(t.commits[height := c.info], t.txs + TxMap(height, c.txs), t.activity + ActMap(height, c.txs))
  {
    PutTxsIsUnion(t.(commits := t.commits[height := c.info]), height, c.txs);
  }

  lemma {:induction false} MapKeys(height: int, txs: seq<Tx>)
    ensures forall id :: id in TxMap(height, txs) ==> exists k :: 0 <= k < |txs| && txs[k].id == id
    ensures forall key :: key in ActMap(height, txs) ==> exists k :: 0 <= k < |txs| && txs[k].id == key.1
  {
    if txs != [] {
      var n := |txs| - 1;
      var init := txs[..n];
      MapKeys(height, init);
      forall id | id in TxMap(height, txs) ensures exists k :: 0 <= k < |txs| && txs[k].id == id {
        if id in TxMap(height, init) {
          var k :| 0 <= k < n && init[k].id == id;
          assert txs[k].id == id;
        } else { assert txs[n].id == id; }
      }
      forall key | key in ActMap(height, txs) ensures exists k :: 0 <= k < |txs| && txs[k].id == key.1 {
        if key in ActMap(height, init) {
          var k :| 0 <= k < n && init[k].id == key.1;
          assert txs[k].id == key.1;
        } else { assert txs[n].id == key.1; }
      }
    }
  }

  /** The tables already hold all that this commit writes. */
  ghost predicate Has(t: Tables, height: int, c: Commit) {
    && height in t.commits && t.commits[height] == c.info
    && Within(TxMap(height, c.txs), t.txs) && Within(ActMap(height, c.txs), t.activity)
  }

  lemma PutAgain(t: Tables, height: int, c: Commit)
    requires Has(t, height, c)
    ensures PutCommit(t, height, c) == t
  {
    PutCommitIsUnion(t, height, c);
    assert t.txs + TxMap(height, c.txs) == t.txs && t.activity + ActMap(height, c.txs) == t.activity;
  }

  lemma HasAfterPut(t: Tables, height: int, c: Commit)
    ensures Has(PutCommit(t, height, c), height, c)
  {
    PutCommitIsUnion(t, height, c);
  }

  /** All values of `part` are in `whole`. */
  ghost predicate Within<K, V>(part: map<K, V>, whole: map<K, V>) {
    forall k :: k in part ==> k in whole && whole[k] == part[k]
  }

  lemma WithinUnion<K, V>(part: map<K, V>, whole: map<K, V>, more: map<K, V>)
    requires Within(part, whole) && part.Keys !! more.Keys
    ensures Within(part, whole + more)
  {
  }

  lemma KeysApart(src: seq<Commit>, i: nat, j: nat, h: int, k: int)
    requires Unique(src) && i < j < |src|
    ensures TxMap(h, src[i].txs).Keys !! TxMap(k, src[j].txs).Keys
    ensures ActMap(h, src[i].txs).Keys !! ActMap(k, src[j].txs).Keys
  {
    MapKeys(h, src[i].txs);
    MapKeys(k, src[j].txs);
  }

  /** A later commit overwrites nothing of an earlier one. */
  lemma HasKept(t: Tables, base: nat, log: seq<Commit>, i: nat, j: nat)
    requires Unique(log) && i < j < |log| && Has(t, base + i + 1, log[i])
    ensures Has(PutCommit(t, base + j + 1, log[j]), base + i + 1, log[i])
  {
    PutCommitIsUnion(t, base + j + 1, log[j]);
    KeysApart(log, i, j, base + i + 1, base + j + 1);
    WithinUnion(TxMap(base + i + 1, log[i].txs), t.txs, TxMap(base + j + 1, log[j].txs));
    WithinUnion(ActMap(base + i + 1, log[i].txs), t.activity, ActMap(base + j + 1, log[j].txs));
  }

  lemma {:induction false} ImageHas(src: Source, n: nat, i: nat)
    requires Unique(src.log) && i < n <= |src.log|
    ensures Has(Image(src, n), src.base + i + 1, src.log[i])
  {
    if i == n - 1 { HasAfterPut(Image(src, n - 1), src.base + n, src.log[n - 1]); }
    else {
      ImageHas(src, n - 1, i);
      HasKept(Image(src, n - 1), src.base, src.log, i, n - 1);
    }
  }

  // ---- what an image shows ----

  /** The rows of one transaction: its own, an `In` row of its recipient, and an `Out` row of its sender
      unless that is the recipient. An absent party has none. */
  ghost predicate Shows(txs: map<Digest, TxRow>, activity: map<(Address, Digest), Activity>, height: int, tx: Tx) {
    && tx.id in txs && txs[tx.id] == TxRow(height, tx)
    && (tx.recipient.text != "" ==>
          (tx.recipient, tx.id) in activity && activity[(tx.recipient, tx.id)] == Activity(height, In, tx.sender, tx.amount, tx.fee))
    && (tx.sender.text != "" && tx.sender != tx.recipient ==>
          (tx.sender, tx.id) in activity && activity[(tx.sender, tx.id)] == Activity(height, Out, tx.recipient, tx.amount, tx.fee))
  }

  lemma ShowsLater(txs: map<Digest, TxRow>, activity: map<(Address, Digest), Activity>, height: int, tx: Tx, other: Tx)
    requires Shows(txs, activity, height, tx) && other.id != tx.id
    ensures Shows(txs[other.id := TxRow(height, other)], activity + Acts(height, other), height, tx)
  {
  }

  lemma {:induction false} MapsShow(height: int, txs: seq<Tx>, k: nat)
    requires k < |txs| && forall i, j :: 0 <= i < j < |txs| ==> txs[i].id != txs[j].id
    ensures Shows(TxMap(height, txs), ActMap(height, txs), height, txs[k])
  {
    var n := |txs| - 1;
    if k < n {
      MapsShow(height, txs[..n], k);
      ShowsLater(TxMap(height, txs[..n]), ActMap(height, txs[..n]), height, txs[k], txs[n]);
    }
  }

  /** Every transaction of an indexed commit is shown as it is, at its height. */
  lemma ImageShows(src: Source, n: nat, i: nat, k: nat)
    requires Unique(src.log) && i < n <= |src.log| && k < |src.log[i].txs|
    ensures Shows(Image(src, n).txs, Image(src, n).activity, src.base + i + 1, src.log[i].txs[k])
  {
    ImageHas(src, n, i);
    MapsShow(src.base + i + 1, src.log[i].txs, k);
  }

  ghost predicate Party(tx: Tx, key: (Address, Digest)) {
    key.1 == tx.id && key.0.text != "" && (key.0 == tx.sender || key.0 == tx.recipient)
  }

  lemma {:induction false} MapsOnly(height: int, txs: seq<Tx>, key: (Address, Digest))
    ensures key in ActMap(height, txs) ==> exists k :: 0 <= k < |txs| && Party(txs[k], key)
  {
    if txs != [] && key in ActMap(height, txs) {
      var n := |txs| - 1;
      MapsOnly(height, txs[..n], key);
      if key in ActMap(height, txs[..n]) {
        var k :| 0 <= k < n && Party(txs[..n][k], key);
        assert Party(txs[k], key);
      } else {
        assert Party(txs[n], key);
      }
    }
  }

  ghost predicate Committed(log: seq<Commit>, n: nat, id: Digest)
    requires n <= |log|
  {
    exists i, k :: 0 <= i < n && 0 <= k < |log[i].txs| && log[i].txs[k].id == id
  }

  ghost predicate PartyIn(log: seq<Commit>, n: nat, key: (Address, Digest))
    requires n <= |log|
  {
    exists i, k :: 0 <= i < n && 0 <= k < |log[i].txs| && Party(log[i].txs[k], key)
  }

  lemma {:induction false} ImageOnlyCommitted(src: Source, n: nat, id: Digest)
    requires n <= |src.log| && id in Image(src, n).txs
    ensures Committed(src.log, n, id)
  {
    var c := src.log[n - 1];
    PutCommitIsUnion(Image(src, n - 1), src.base + n, c);
    if id in TxMap(src.base + n, c.txs) {
      MapKeys(src.base + n, c.txs);
      var k :| 0 <= k < |c.txs| && c.txs[k].id == id;
      assert src.log[n - 1].txs[k].id == id;
    } else {
      ImageOnlyCommitted(src, n - 1, id);
    }
  }

  lemma {:induction false} ImageOnlyParties(src: Source, n: nat, key: (Address, Digest))
    requires n <= |src.log| && key in Image(src, n).activity
    ensures PartyIn(src.log, n, key)
  {
    var c := src.log[n - 1];
    PutCommitIsUnion(Image(src, n - 1), src.base + n, c);
    if key in ActMap(src.base + n, c.txs) {
      MapsOnly(src.base + n, c.txs, key);
      var k :| 0 <= k < |c.txs| && Party(c.txs[k], key);
      assert Party(src.log[n - 1].txs[k], key);
    } else {
      ImageOnlyParties(src, n - 1, key);
    }
  }

  /** An image shows every transaction of the indexed commits as it is, at its height, and holds nothing else. */
  lemma ImageMeans(src: Source, n: nat)
    requires Unique(src.log) && n <= |src.log|
    ensures forall i, k :: 0 <= i < n && 0 <= k < |src.log[i].txs| ==>
              Shows(Image(src, n).txs, Image(src, n).activity, src.base + i + 1, src.log[i].txs[k])
    ensures forall i :: 0 <= i < n ==> src.base + i + 1 in Image(src, n).commits && Image(src, n).commits[src.base + i + 1] == src.log[i].info
    ensures forall h :: h in Image(src, n).commits ==> src.base < h <= src.base + n
    ensures forall id :: id in Image(src, n).txs ==> Committed(src.log, n, id)
    ensures forall key :: key in Image(src, n).activity ==> PartyIn(src.log, n, key)
  {
    forall i, k | 0 <= i < n && 0 <= k < |src.log[i].txs|
      ensures Shows(Image(src, n).txs, Image(src, n).activity, src.base + i + 1, src.log[i].txs[k])
    {
      ImageShows(src, n, i, k);
    }
    forall i | 0 <= i < n ensures src.base + i + 1 in Image(src, n).commits && Image(src, n).commits[src.base + i + 1] == src.log[i].info {
      ImageHas(src, n, i);
    }
    forall id | id in Image(src, n).txs ensures Committed(src.log, n, id) { ImageOnlyCommitted(src, n, id); }
    forall key | key in Image(src, n).activity ensures PartyIn(src.log, n, key) { ImageOnlyParties(src, n, key); }
    ImageKeys(src, n);
  }

  /** Indexing again from an earlier row leads to the same image. */
  lemma {:induction false} Reindex(src: Source, p: nat, from: nat, n: nat)
    requires Unique(src.log) && from <= p <= |src.log| && n <= |src.log|
    ensures PutRows(Image(src, p), src.base, src.log, from, n) == if n <= p then Image(src, p) else Image(src, n)
    decreases n
  {
    if n > from {
      Reindex(src, p, from, n - 1);
      if n <= p {
        ImageHas(src, p, n - 1);
        PutAgain(Image(src, p), src.base + n, src.log[n - 1]);
      }
    }
  }

  // ---- every run of syncs ----

  /** The syncs of one index in the order they held its lock: the rows of each are read after the
      accounts of the one before; the height may have been read much earlier. */
  ghost predicate Schedule(src: Source, syncs: seq<Times>) {
    && (forall i :: 0 <= i < |syncs| ==> Ordered(src, syncs[i]))
    && (forall i :: 0 < i < |syncs| ==> syncs[i - 1].accounts <= syncs[i].rows)
  }

  function SyncAll(src: Source, syncs: seq<Times>): Index
    requires forall i :: 0 <= i < |syncs| ==>
               syncs[i].height <= |src.log| && syncs[i].lastHash <= |src.log| && syncs[i].rows <= |src.log| && syncs[i].accounts <= |src.log|
  {
    if syncs == [] then EMPTY else Sync(src, SyncAll(src, syncs[..|syncs| - 1]), syncs[|syncs| - 1])
  }

  function Indexed(syncs: seq<Times>): nat {
    if syncs == [] then 0 else syncs[|syncs| - 1].rows
  }

  /** In every run, overlapping syncs included, the tables are the image of a prefix of the source at
      least as long as the indexed height, although that height may itself step back. */
  lemma {:induction false} TablesAreImage(src: Source, syncs: seq<Times>)
    requires Unique(src.log) && Schedule(src, syncs)
    ensures Indexed(syncs) <= |src.log|
    ensures SyncAll(src, syncs).tables == Image(src, Indexed(syncs))
    ensures 0 <= SyncAll(src, syncs).indexedHeight <= src.base + Indexed(syncs)
  {
    if syncs != [] {
      var init, last := syncs[..|syncs| - 1], syncs[|syncs| - 1];
      TablesAreImage(src, init);
      assert Indexed(init) <= last.rows;
      Reindex(src, Indexed(init), FirstRow(src, SyncAll(src, init).indexedHeight), last.rows);
    }
  }

  /** The indexed height does step back when a sync that read it early gets the lock late. */
  lemma HeightMayStepBack(src: Source)
    requires |src.log| >= 1
    ensures var syncs := [Times(1, 1, 1, 1), Times(0, 0, 1, 1)];
            && Schedule(src, syncs)
            && SyncAll(src, syncs).indexedHeight == src.base < SyncAll(src, syncs[..1]).indexedHeight
  {
    var syncs := [Times(1, 1, 1, 1), Times(0, 0, 1, 1)];
    assert syncs[..1] == [Times(1, 1, 1, 1)];
  }

  /** What an index contains after its last sync, whatever came before. */
  lemma IndexAfter(src: Source, syncs: seq<Times>)
    requires Unique(src.log) && Schedule(src, syncs) && syncs != []
    ensures var w := syncs[|syncs| - 1];
            SyncAll(src, syncs) == Index(Image(src, w.rows), src.AccountsAt(w.accounts), src.base + w.height, src.base, src.HashAt(w.lastHash))
  {
    TablesAreImage(src, syncs);
  }

  /** A clean rebuild while the source stands still at `n` commits. */
  function Rebuild(src: Source, n: nat): Index
    requires n <= |src.log|
  {
    Sync(src, EMPTY, Times(n, n, n, n))
  }

  lemma {:induction false} ImageKeys(src: Source, n: nat)
    requires n <= |src.log|
    ensures forall h :: h in Image(src, n).commits <==> src.base < h <= src.base + n
  {
    if n > 0 {
      ImageKeys(src, n - 1);
      PutCommitIsUnion(Image(src, n - 1), src.base + n, src.log[n - 1]);
    }
  }

  lemma ImageInjective(src: Source, m: nat, n: nat)
    requires m <= |src.log| && n <= |src.log| && Image(src, m).commits == Image(src, n).commits
    ensures m == n
  {
    ImageKeys(src, m);
    ImageKeys(src, n);
    assert n > 0 ==> src.base + n in Image(src, n).commits;
    assert m > 0 ==> src.base + m in Image(src, m).commits;
  }

  lemma RebuildIs(src: Source, n: nat)
    requires Unique(src.log) && n <= |src.log|
    ensures Rebuild(src, n) == Index(Image(src, n), src.AccountsAt(n), src.base + n, src.base, src.HashAt(n))
  {
    Reindex(src, 0, 0, n);
  }

  /** The index equals a clean rebuild at `n` commits exactly when its last sync read height and rows
      at that point, and the hash and accounts it read are those of that point. */
  lemma EqualsRebuildIff(src: Source, syncs: seq<Times>, n: nat)
    requires Unique(src.log) && Schedule(src, syncs) && syncs != [] && n <= |src.log|
    ensures var w := syncs[|syncs| - 1];
            SyncAll(src, syncs) == Rebuild(src, n)
            <==> w.height == n && w.rows == n && src.HashAt(w.lastHash) == src.HashAt(n) && src.AccountsAt(w.accounts) == src.AccountsAt(n)
  {
    IndexAfter(src, syncs);
    RebuildIs(src, n);
    if SyncAll(src, syncs) == Rebuild(src, n) { ImageInjective(src, syncs[|syncs| - 1].rows, n); }
  }

  /** One sync during which the source stands still makes every table and all metadata equal to a
      clean rebuild, whatever earlier and overlapping syncs left. */
  lemma UndisturbedSyncRebuilds(src: Source, syncs: seq<Times>, n: nat)
    requires Unique(src.log) && Schedule(src, syncs + [Times(n, n, n, n)])
    ensures n <= |src.log| && SyncAll(src, syncs + [Times(n, n, n, n)]) == Rebuild(src, n)
  {
    var all := syncs + [Times(n, n, n, n)];
    assert all[|syncs|] == Times(n, n, n, n) && Ordered(src, all[|syncs|]);
    EqualsRebuildIff(src, all, n);
  }

  // ---- reconciliation ----

  /** One table digest, or one metadata field, of the comparison. */
  datatype Part = CommitsPart | TransactionsPart | ActivityPart | AccountsPart | MetadataPart

  predicate TableDiffers(part: Part, x: Index, rebuilt: Index) {
    match part
    case CommitsPart => x.tables.commits != rebuilt.tables.commits
    case TransactionsPart => x.tables.txs != rebuilt.tables.txs
    case ActivityPart => x.tables.activity != rebuilt.tables.activity
    case AccountsPart => x.accounts != rebuilt.accounts
    case MetadataPart => false
  }

  ghost predicate Differs(part: Part, x: Index, rebuilt: Index) {
    if part != MetadataPart then TableDiffers(part, x, rebuilt)
    else
      || x.indexedHeight != rebuilt.indexedHeight || x.snapshotBase != rebuilt.snapshotBase || x.lastHash != rebuilt.lastHash
      || Execution.Total(x.accounts) != Execution.Total(rebuilt.accounts)
  }

  /** `reconcile_explorer_index`: the parts that do not match a clean rebuild, which must itself hold
      the genesis supply. */
  method Reconcile(g: Blocks.Genesis, x: Index, rebuilt: Index) returns (mismatches: Option<seq<Part>>)
    ensures mismatches.None? <==> Execution.Total(rebuilt.accounts) != Execution.Total(Blocks.GenesisAccounts(g))
    ensures mismatches.Some? ==> forall part :: part in mismatches.value <==> Differs(part, x, rebuilt)
    ensures mismatches.Some? ==> (mismatches.value == [] <==> x == rebuilt)
  {
    var expected := Execution.SumTotal(Blocks.GenesisAccounts(g));
    var issued := Execution.SumTotal(rebuilt.accounts);
    if issued != expected { return None; }
    var current := Execution.SumTotal(x.accounts);
    var found: seq<Part> := [];
    var parts := [CommitsPart, TransactionsPart, ActivityPart, AccountsPart];
    for i := 0 to |parts|
      invariant forall part :: part in found <==> part in parts[..i] && TableDiffers(part, x, rebuilt)
    {
      if TableDiffers(parts[i], x, rebuilt) { found := found + [parts[i]]; }
    }
    assert parts[..|parts|] == parts;
    AllTables(parts);
    if x.indexedHeight != rebuilt.indexedHeight || x.snapshotBase != rebuilt.snapshotBase || x.lastHash != rebuilt.lastHash || current != issued {
      found := found + [MetadataPart];
    }
    NothingDiffers(x, rebuilt);
    mismatches := Some(found);
    assert found == [] <==> forall part :: !Differs(part, x, rebuilt) by {
      if found != [] { assert found[0] in found; }
    }
  }

  lemma AllTables(parts: seq<Part>)
    requires parts == [CommitsPart, TransactionsPart, ActivityPart, AccountsPart]
    ensures forall part: Part :: part in parts <==> part != MetadataPart
  {
    forall part: Part | part != MetadataPart ensures part in parts {
      assert part == parts[match part case CommitsPart => 0 case TransactionsPart => 1 case ActivityPart => 2 case _ => 3];
    }
  }

  lemma NothingDiffers(x: Index, rebuilt: Index)
    ensures x == rebuilt <==> forall part :: !Differs(part, x, rebuilt)
  {
    if forall part :: !Differs(part, x, rebuilt) {
      assert !Differs(CommitsPart, x, rebuilt) && !Differs(TransactionsPart, x, rebuilt) && !Differs(ActivityPart, x, rebuilt);
      assert !Differs(AccountsPart, x, rebuilt) && !Differs(MetadataPart, x, rebuilt);
    }
  }

  /** If every commit keeps the genesis supply, reconciling right after an undisturbed sync reports
      nothing, whatever came before. */
  lemma UndisturbedReconciles(g: Blocks.Genesis, src: Source, syncs: seq<Times>, n: nat)
    requires Unique(src.log) && Schedule(src, syncs + [Times(n, n, n, n)])
    requires forall k :: 0 <= k <= |src.log| ==> Execution.Total(src.AccountsAt(k)) == Execution.Total(Blocks.GenesisAccounts(g))
    ensures var x := SyncAll(src, syncs + [Times(n, n, n, n)]);
            n <= |src.log| && x == Rebuild(src, n) && Execution.Total(x.accounts) == Execution.Total(Blocks.GenesisAccounts(g))
  {
    UndisturbedSyncRebuilds(src, syncs, n);
    RebuildIs(src, n);
  }
}
