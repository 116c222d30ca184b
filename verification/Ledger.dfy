/** What a whole run of the store, or a whole chain, amounts to, read off its transactions alone. */
module Ledger {
  import opened Models
  import opened Execution
  import opened Blocks
  import opened ExternalStore
  import opened StoreRuns
  import Balances
  import Chain
  import Snapshot
  import Merkle

  /** All transactions of the decided requests, in order. */
  function Flat(reqs: seq<Request>): seq<Transaction> {
    if reqs == [] then [] else Flat(reqs[..|reqs| - 1]) + reqs[|reqs| - 1].txs
  }

  lemma FlatSnoc(reqs: seq<Request>, req: Request)
    ensures Flat(reqs + [req]) == Flat(reqs) + req.txs
  {
    assert (reqs + [req])[..|reqs|] == reqs;
  }

  lemma {:induction false} FlatFinds(reqs: seq<Request>, tx: Transaction) returns (k: nat)
    requires tx in Flat(reqs)
    ensures k < |reqs| && tx in reqs[k].txs
  {
    if tx in reqs[|reqs| - 1].txs { k := |reqs| - 1; } else { k := FlatFinds(reqs[..|reqs| - 1], tx); }
  }

  // ---- one long batch ----

  /** Splitting the transactions into decisions makes no difference to the accounts. */
  lemma {:induction false} FoldIsBatch(app: App, start: Tables, reqs: seq<Request>)
    requires Fold(app, start, reqs).Some?
    ensures Execute(start.accounts, Flat(reqs), app.feePool, app.rules) == Ok(Fold(app, start, reqs).value.accounts)
    ensures Fold(app, start, reqs).value.height == start.height + |reqs|
  {
    if reqs != [] {
      var init, last := reqs[..|reqs| - 1], reqs[|reqs| - 1];
      FoldIsBatch(app, start, init);
      ExecuteAppend(start.accounts, Flat(init), last.txs, app.feePool, app.rules);
    }
  }

  lemma NextFollowsIff(app: App, start: Tables, reqs: seq<Request>, req: Request)
    requires Fold(app, start, reqs).Some?
    ensures Fold(app, start, reqs + [req]).Some?
            <==> && req.height == start.height + |reqs| + 1 && IsHex64(req.blockHash)
                 && Execute(start.accounts, Flat(reqs) + req.txs, app.feePool, app.rules).Ok?
  {
    FoldSnoc(app, start, reqs, req);
    FoldIsBatch(app, start, reqs);
    ExecuteAppend(start.accounts, Flat(reqs), req.txs, app.feePool, app.rules);
    var t := Fold(app, start, reqs).value;
    if Execute(t.accounts, req.txs, app.feePool, app.rules).Ok? {
      ExecutedNonces(t.accounts, req.txs, app.feePool, app.rules);
      DifferentIff(req.txs);
    }
  }

  /** Heights count on from the store's, and every block hash is one. */
  ghost predicate InLine(start: Tables, reqs: seq<Request>) {
    forall k :: 0 <= k < |reqs| ==> reqs[k].height == start.height + k + 1 && IsHex64(reqs[k].blockHash)
  }

  ghost predicate Folds(app: App, start: Tables, reqs: seq<Request>) {
    Fold(app, start, reqs).Some? <==> InLine(start, reqs) && Execute(start.accounts, Flat(reqs), app.feePool, app.rules).Ok?
  }

  lemma InLineSnoc(start: Tables, init: seq<Request>, last: Request)
    ensures InLine(start, init + [last]) <==> InLine(start, init) && last.height == start.height + |init| + 1 && IsHex64(last.blockHash)
  {
    var all := init + [last];
    assert all[|init|] == last;
    assert forall k :: 0 <= k < |init| ==> all[k] == init[k];
    if InLine(start, init) && last.height == start.height + |init| + 1 && IsHex64(last.blockHash) {
      forall k | 0 <= k < |all| ensures all[k].height == start.height + k + 1 && IsHex64(all[k].blockHash) {
        if k < |init| { assert all[k] == init[k]; }
      }
    }
  }

  lemma NoneSnoc(app: App, start: Tables, init: seq<Request>, last: Request)
    requires Fold(app, start, init).None?
    ensures Fold(app, start, init + [last]).None?
  {
    assert (init + [last])[..|init|] == init;
  }

  lemma FoldsNext(app: App, start: Tables, init: seq<Request>, last: Request)
    requires Folds(app, start, init)
    ensures Folds(app, start, init + [last])
  {
    FlatSnoc(init, last);
    InLineSnoc(start, init, last);
    ExecuteAppend(start.accounts, Flat(init), last.txs, app.feePool, app.rules);
    if Fold(app, start, init).Some? { NextFollowsIff(app, start, init, last); } else { NoneSnoc(app, start, init, last); }
  }

  lemma {:induction false} FoldsIff(app: App, start: Tables, reqs: seq<Request>)
    ensures Folds(app, start, reqs)
  {
    if reqs != [] {
      var init, last := reqs[..|reqs| - 1], reqs[|reqs| - 1];
      FoldsIff(app, start, init);
      FoldsNext(app, start, init, last);
      assert reqs == init + [last];
    }
  }

  /** A sequence of decisions can be committed exactly if heights are consecutive, block hashes are
      hexadecimal, and no transaction has a fault where it stands among all of them. */
  lemma CommittableIff(app: App, start: Tables, reqs: seq<Request>)
    ensures Fold(app, start, reqs).Some?
            <==> InLine(start, reqs) && Faultless(start.accounts, Flat(reqs), app.feePool, app.rules)
  {
    ExecuteMeans(start.accounts, Flat(reqs), app.feePool, app.rules);
    FoldsIff(app, start, reqs);
  }

  // ---- the transaction index ----

  lemma AppliedIndex(app: App, t: Tables, req: Request, tx: Transaction)
    requires Follows(app, t, req)
    ensures TxId(tx) in Applied(app, t, req).txHeights <==> tx in req.txs || TxId(tx) in t.txHeights
    ensures TxId(tx) in Applied(app, t, req).txHeights ==>
              Applied(app, t, req).txHeights[TxId(tx)] == if tx in req.txs then req.height else t.txHeights[TxId(tx)]
  {
    if tx in req.txs {
      var i :| 0 <= i < |req.txs| && req.txs[i] == tx;
      assert TxIds(req.txs)[i] == TxId(tx);
    }
  }

  /** The transaction index holds exactly the committed transactions, each at the height of its decision. */
  lemma {:induction false} IndexIsExact(app: App, start: Tables, reqs: seq<Request>, tx: Transaction, h: int)
    requires AtBase(start) && Fold(app, start, reqs).Some?
    ensures var t := Fold(app, start, reqs).value;
            TxId(tx) in t.txHeights && t.txHeights[TxId(tx)] == h
            <==> exists k :: 0 <= k < |reqs| && tx in reqs[k].txs && h == start.height + k + 1
  {
    if reqs != [] {
      var init, last := reqs[..|reqs| - 1], reqs[|reqs| - 1];
      var before := FoldLast(app, start, reqs);
      IndexIsExact(app, start, init, tx, h);
      AppliedIndex(app, before, last, tx);
      FoldIsBatch(app, start, init);
      if tx in last.txs {
        forall k | 0 <= k < |reqs| && tx in reqs[k].txs ensures k == |reqs| - 1 { NoTransactionTwice(app, start, reqs, k, |reqs| - 1, tx); }
      }
      assert forall k :: 0 <= k < |init| ==> init[k] == reqs[k];
    }
  }

  // ---- exactly what is answered ----

  /** A block hash is 64 hexadecimal digits in either case; lowering changes the case of letters only. */
  lemma HexMeans(s: string)
    ensures IsHex64(s) <==> |s| == 64 && forall i :: 0 <= i < 64 ==> s[i] in "0123456789abcdefABCDEF"
    ensures IsHex64(s) ==> |Lower(s)| == 64 && forall i :: 0 <= i < 64 ==> Lower(s)[i] in "0123456789abcdef"
    ensures IsHex64(s) ==> forall i :: 0 <= i < 64 && s[i] in "0123456789abcdef" ==> Lower(s)[i] == s[i]
    ensures IsHex64(s) ==> forall i, k :: 0 <= i < 64 && 0 <= k < 6 && s[i] == "ABCDEF"[k] ==> Lower(s)[i] == "abcdef"[k]
  {
    forall c ensures HexDigit(c) <==> c in "0123456789abcdefABCDEF" { DigitMeans(c); }
    if IsHex64(s) {
      forall i | 0 <= i < 64 ensures Lower(s)[i] in "0123456789abcdef" { DigitMeans(s[i]); }
    }
  }

  lemma DigitMeans(c: char)
    ensures HexDigit(c) <==> c in "0123456789abcdefABCDEF"
    ensures HexDigit(c) ==> LowerChar(c) in "0123456789abcdef"
  {
    var digits := "0123456789abcdefABCDEF";
    if '0' <= c <= '9' { assert digits[c as int - '0' as int] == c; }
    if 'a' <= c <= 'f' { assert digits[c as int - 'a' as int + 10] == c; }
    if 'A' <= c <= 'F' {
      assert digits[c as int - 'A' as int + 16] == c;
      assert "0123456789abcdef"[c as int - 'A' as int + 10] == LowerChar(c);
    }
    if '0' <= c <= '9' { assert "0123456789abcdef"[c as int - '0' as int] == LowerChar(c); }
    if 'a' <= c <= 'f' { assert "0123456789abcdef"[c as int - 'a' as int + 10] == LowerChar(c); }
  }

  lemma CleanAnswersIff(app: App, t: Tables, req: Request)
    requires Clean(t) && req.height > t.height
    ensures Stage(app, t, req).1.Ok?
            <==> req.height == t.height + 1 && IsHex64(req.blockHash)
                 && Faultless(t.accounts, req.txs, app.feePool, app.rules)
  {
    ExecuteMeans(t.accounts, req.txs, app.feePool, app.rules);
    if Execute(t.accounts, req.txs, app.feePool, app.rules).Ok? {
      ExecutedNonces(t.accounts, req.txs, app.feePool, app.rules);
      DifferentIff(req.txs);
    }
  }

  lemma OpenHeightIff(app: App, start: Tables, t: Tables, done: seq<Request>, staged: Option<Request>, req: Request)
    requires AtBase(start) && Describes(app, start, t, done, staged) && req.height > t.height
    ensures Stage(app, t, req).1.Ok?
            <==> req.height == t.height + 1
                 && match staged
                    case Some(s) => Same(req, s)
                    case None => IsHex64(req.blockHash)
                                 && Faultless(t.accounts, req.txs, app.feePool, app.rules)
  {
    var image := DescribedTables(app, start, t, done, staged);
    match staged {
      case None => CleanAnswersIff(app, t, req);
      case Some(s) =>
        if req.height == t.height + 1 { PendingHeightIsSettled(app, start, t, done, s, req); }
    }
  }

  lemma ClosedHeightIff(app: App, start: Tables, t: Tables, done: seq<Request>, staged: Option<Request>, req: Request)
    requires AtBase(start) && Describes(app, start, t, done, staged) && req.height <= t.height && t.height == start.base + |done|
    ensures ReplaySafe(app, t, req).1.Ok? <==> req.height > start.base && Same(req, done[req.height - start.base - 1])
    ensures Stage(app, t, req).1.Err?
  {
    if req.height > start.base { CommittedHeightIsSettled(app, start, t, done, staged, req.height - start.base - 1, req); }
    else { BelowBaseIsRefused(app, start, t, done, staged, req); }
  }

  /** In every reachable state the replay wrapper answers exactly: below the height the committed decision, at
      the open height the staged one, or, with none staged, any that has a hexadecimal hash and no fault.
      Plain staging answers the same at the open height and nothing else. */
  lemma AnsweredIff(app: App, start: Tables, ops: seq<Op>, req: Request)
    returns (t: Tables, done: seq<Request>, staged: Option<Request>)
    requires AtBase(start)
    ensures t == PerformAll(app, start, ops) && Describes(app, start, t, done, staged) && t.height == start.base + |done|
    ensures ReplaySafe(app, t, req).1.Ok?
            <==> || (start.base < req.height <= t.height && Same(req, done[req.height - start.base - 1]))
                 || (req.height > t.height && Stage(app, t, req).1.Ok?)
    ensures Stage(app, t, req).1.Ok?
            <==> req.height == t.height + 1
                 && match staged
                    case Some(s) => Same(req, s)
                    case None => IsHex64(req.blockHash)
                                 && Faultless(t.accounts, req.txs, app.feePool, app.rules)
  {
    t := PerformAll(app, start, ops);
    done, staged := ReachableIsFold(app, start, ops);
    var image := DescribedTables(app, start, t, done, staged);
    if req.height > t.height { OpenHeightIff(app, start, t, done, staged, req); }
    else { ClosedHeightIff(app, start, t, done, staged, req); }
  }

  /** Which complaint a refused request hears from staging, in any state: the first that applies. */
  lemma StageRefusals(app: App, t: Tables, req: Request)
    ensures var r, sound := Stage(app, t, req).1, Distinct(req.txs) && IsHex64(req.blockHash);
            && (r == Err(DuplicateTransaction) <==> !Distinct(req.txs))
            && (r == Err(BadBlockHash) <==> Distinct(req.txs) && !IsHex64(req.blockHash))
            && (r == Err(UnexpectedHeight) <==> sound && req.height !in t.commits && req.height != t.height + 1)
            && (forall e :: r == Err(BadBatch(e)) <==>
                              sound && req.height !in t.commits && req.height == t.height + 1
                              && Execute(t.accounts, req.txs, app.feePool, app.rules) == Err(e))
            && (r == Err(ConflictCommitted) ==> sound && req.height in t.commits)
            && (r == Err(ConflictPending) ==> sound && req.height !in t.commits && req.height == t.height + 1 && req.height in t.pending)
            && (r.Err? && sound && req.height in t.commits ==> r == Err(ConflictCommitted))
            && (r.Err? ==> Stage(app, t, req).0 == t)
  {
    DifferentIff(req.txs);
  }

  lemma {:induction false} DifferentIff(txs: seq<Transaction>)
    ensures |set x | x in txs| <= |txs| && (AllDifferent(txs) <==> Distinct(txs))
  {
    if txs != [] {
      var init, last := txs[..|txs| - 1], txs[|txs| - 1];
      assert txs == init + [last];
      DifferentIff(init);
      assert (set x | x in txs) == (set x | x in init) + {last};
      if Distinct(txs) {
        assert Distinct(init);
        assert forall i :: 0 <= i < |init| ==> txs[i] != txs[|init|];
      }
      if AllDifferent(txs) {
        assert last !in init;
        forall i, j | 0 <= i < j < |txs| ensures txs[i] != txs[j] {
          assert txs[i] == init[i];
          if j < |init| { assert txs[j] == init[j]; }
        }
      }
    }
  }

  ghost predicate RowDescribes(app: App, row: Row, req: Request) {
    && row.blockHash == Lower(req.blockHash) && row.txRoot == Merkle.Root(TxIds(req.txs)) && row.txCount == |req.txs|
    && row.feeRecipient == app.feePool
  }

  lemma RowOf(app: App, t: Tables, before: Tables, req: Request)
    requires Follows(app, before, req) && HasRow(app, t, before, req)
    ensures RowDescribes(app, t.commits[req.height], req)
  {
  }

  /** Each committed row describes its decision: the lowered block hash, the transactions by root and number,
      and the collector of their fees. */
  lemma RowsDescribe(app: App, start: Tables, reqs: seq<Request>, k: nat) returns (t: Tables)
    requires AtBase(start) && Fold(app, start, reqs).Some? && k < |reqs|
    ensures Fold(app, start, reqs) == Some(t) && reqs[k].height == start.base + k + 1 && reqs[k].height in t.commits
    ensures RowDescribes(app, t.commits[reqs[k].height], reqs[k])
  {
    t := Fold(app, start, reqs).value;
    FoldPosition(app, start, reqs, k);
    var before := FoldRow(app, start, reqs, k);
    RowOf(app, t, before, reqs[k]);
  }

  // ---- opening a database ----

  function Range(low: int, n: nat): set<int> {
    if n == 0 then {} else Range(low, n - 1) + {low + n}
  }

  lemma {:induction false} RangeHolds(low: int, n: nat)
    ensures |Range(low, n)| == n
    ensures forall h: int :: h in Range(low, n) <==> low < h <= low + n
  {
    if n > 0 { RangeHolds(low, n - 1); }
  }

  /** Where rows are only for heights above the base and up to the height, opening the database counts them,
      and so is allowed exactly if each of these heights has its row. */
  lemma OpensIff(t: Tables)
    requires forall h :: h in t.commits ==> t.base < h <= t.height
    ensures Opens(t) <==> 0 <= t.base <= t.height && forall h :: t.base < h <= t.height ==> h in t.commits
  {
    if 0 <= t.base <= t.height { RowsFill(t.commits.Keys, t.base, t.height - t.base); }
  }

  lemma RowsFill(rows: set<int>, low: int, n: nat)
    requires forall h :: h in rows ==> low < h <= low + n
    ensures |rows| == n <==> forall h :: low < h <= low + n ==> h in rows
  {
    RangeHolds(low, n);
    var all := Range(low, n);
    forall h | h in rows ensures h in all { }
    if forall h :: h in all ==> h in rows {
      assert rows == all;
    } else {
      var h :| h in all && h !in rows;
      SubsetSmaller(rows + {h}, all);
    }
  }

  // ---- only owners spend ----

  /** Some committed transaction is a genuine one of `a`. */
  ghost predicate Spent(reqs: seq<Request>, a: Address) {
    exists k, tx :: 0 <= k < |reqs| && tx in reqs[k].txs && tx.sender == a && tx.authentic
  }

  /** Over any run of commits the nonce of an account counts its own committed transactions, and if it
      has none that is authentic, its nonce stands still and nothing was taken from it. */
  lemma OnlyOwnersSpend(app: App, start: Tables, reqs: seq<Request>, a: Address)
    requires Fold(app, start, reqs).Some?
    ensures var t := Fold(app, start, reqs).value;
            && Get(t.accounts, a).nonce == Get(start.accounts, a).nonce + SentBy(Flat(reqs), a)
            && Get(t.accounts, a).balance == Get(start.accounts, a).balance + Delta(Flat(reqs), app.feePool, a)
            && (!Spent(reqs, a) ==>
                  && Get(t.accounts, a).nonce == Get(start.accounts, a).nonce
                  && (app.rules.minFee >= 0 || a != app.feePool ==> Get(t.accounts, a).balance >= Get(start.accounts, a).balance))
  {
    FoldIsBatch(app, start, reqs);
    NothingTouchedOrMoved(start.accounts, Flat(reqs), app.feePool, app.rules, a);
    if !Spent(reqs, a) {
      ExecutedAreGenuine(start.accounts, Flat(reqs), app.feePool, app.rules);
      forall tx | tx in Flat(reqs) ensures tx.sender != a { var k := FlatFinds(reqs, tx); }
      OthersSpare(start.accounts, Flat(reqs), app.feePool, app.rules, a);
    }
  }

  /** The same in every reachable state of the store, for requests of the schedule. */
  lemma ReachedOnlyOwnersSpend(app: App, start: Tables, ops: seq<Op>, a: Address)
    requires AtBase(start)
    requires forall req, tx :: (StageOp(req) in ops || ReplayOp(req) in ops) && tx in req.txs && tx.authentic ==> tx.sender != a
    ensures var t := PerformAll(app, start, ops);
            && Get(t.accounts, a).nonce == Get(start.accounts, a).nonce
            && (app.rules.minFee >= 0 || a != app.feePool ==> Get(t.accounts, a).balance >= Get(start.accounts, a).balance)
  {
    var done, staged := ReachableIsFold(app, start, ops);
    var image := DescribedTables(app, start, PerformAll(app, start, ops), done, staged);
    OnlyOwnersSpend(app, start, done, a);
  }

  /** The fee pool needs the exception, and for nothing but a negative minimum fee: balances drop only
      by transactions of their owner, in all reachable states, if and only if it is not negative. */
  lemma OwnersSpendIff(g: Genesis, feePool: Address)
    ensures g.minFee >= 0
            <==> forall reqs, a :: Fold(Snapshot.AppOf(g, feePool), Snapshot.Pristine(g), reqs).Some? && !Spent(reqs, a) ==>
                   Get(Fold(Snapshot.AppOf(g, feePool), Snapshot.Pristine(g), reqs).value.accounts, a).balance >= Get(GenesisAccounts(g), a).balance
  {
    var app, start := Snapshot.AppOf(g, feePool), Snapshot.Pristine(g);
    if g.minFee >= 0 {
      forall reqs, a | Fold(app, start, reqs).Some? && !Spent(reqs, a)
        ensures Get(Fold(app, start, reqs).value.accounts, a).balance >= Get(GenesisAccounts(g), a).balance
      {
        OnlyOwnersSpend(app, start, reqs, a);
      }
    } else {
      var reqs := PoolPays(g, feePool);
      assert !Spent(reqs, feePool);
    }
  }

  /** An address that is longer than all of a set. */
  lemma {:induction false} Unlisted(known: set<Address>) returns (n: nat)
    ensures forall a :: a in known ==> |a.text| < n
  {
    if known == {} { n := 0; }
    else {
      var a := Pick(known);
      var m := Unlisted(known - {a});
      n := if |a.text| < m then m else |a.text| + 1;
    }
  }

  lemma TwoUnlisted(known: set<Address>) returns (a: Address, b: Address)
    ensures a !in known && b !in known && a != b
  {
    var n := Unlisted(known);
    a, b := Address(Snapshot.Repeat('a', n)), Address(Snapshot.Repeat('b', n + 1));
    assert |a.text| == n && |b.text| == n + 1;
  }

  /** With a negative minimum fee a payment between two others takes from the pool. */
  lemma PoolPaysOnce(app: App, t: Tables, a: Address, b: Address, blockHash: string) returns (req: Request)
    requires app.rules.minFee < 0 && IsHex64(blockHash) && a != b && a != app.feePool && b != app.feePool && Get(t.accounts, a).balance >= 0
    ensures Follows(app, t, req) && Get(After(app, t, req), app.feePool).balance < Get(t.accounts, app.feePool).balance
    ensures forall tx :: tx in req.txs ==> tx.sender == a
  {
    req := Balances.PaymentRequest(app, t, a, b, blockHash);
    Balances.PaymentFollows(app, t, a, b, blockHash);
    TransferMeans(t.accounts, Balances.Payment(app, t.accounts, a, b), app.feePool, app.feePool);
  }

  lemma PoolPays(g: Genesis, feePool: Address) returns (reqs: seq<Request>)
    requires g.minFee < 0
    ensures Fold(Snapshot.AppOf(g, feePool), Snapshot.Pristine(g), reqs).Some? && !Spent(reqs, feePool)
    ensures Get(Fold(Snapshot.AppOf(g, feePool), Snapshot.Pristine(g), reqs).value.accounts, feePool).balance < Get(GenesisAccounts(g), feePool).balance
  {
    var app, start := Snapshot.AppOf(g, feePool), Snapshot.Pristine(g);
    var a, b := TwoUnlisted(g.allocations.Keys + {feePool});
    var hash := Snapshot.Repeat('0', 64);
    assert IsHex64(hash);
    var req := PoolPaysOnce(app, start, a, b, hash);
    FoldSnoc(app, start, [], req);
    reqs := [] + [req];
  }

  // ---- a chain from genesis ----

  /** All transactions of the blocks, in order. */
  function Contents(blocks: seq<Block>): seq<Transaction> {
    if blocks == [] then [] else Contents(blocks[..|blocks| - 1]) + blocks[|blocks| - 1].header.transactions
  }

  /** In a replayed chain the nonce of an account counts its transactions, all of them authentic, and
      without any its balance is at least its allocation. */
  lemma {:induction false} ChainOnlyOwnersSpend(g: Genesis, signed: set<Message>, blocks: seq<Block>, a: Address)
    requires g.validators != [] && Chain.Replay(g, signed, blocks).Some?
    ensures var accounts := Chain.Replay(g, signed, blocks).value;
            && (forall tx :: tx in Contents(blocks) ==> tx.authentic && tx.chainId == g.chainId && tx.amount > 0 && tx.fee >= g.minFee)
            && Get(accounts, a).nonce == SentBy(Contents(blocks), a)
            && (g.minFee >= 0 && (forall tx :: tx in Contents(blocks) ==> tx.sender != a) ==>
                  Get(accounts, a).balance >= Get(GenesisAccounts(g), a).balance)
  {
    if blocks != [] {
      var init, last := blocks[..|blocks| - 1], blocks[|blocks| - 1].header;
      var mid := Chain.ReplayLast(g, signed, blocks);
      ChainOnlyOwnersSpend(g, signed, init, a);
      ExecutedAreGenuine(mid, last.transactions, last.proposer, RulesOf(g));
      NothingTouchedOrMoved(mid, last.transactions, last.proposer, RulesOf(g), a);
      SentAppend(Contents(init), last.transactions, a);
      if forall tx :: tx in Contents(blocks) ==> tx.sender != a { OthersSpare(mid, last.transactions, last.proposer, RulesOf(g), a); }
    }
  }

  lemma {:induction false} SentAppend(xs: seq<Transaction>, ys: seq<Transaction>, a: Address)
    ensures SentBy(xs + ys, a) == SentBy(xs, a) + SentBy(ys, a)
  {
    if ys == [] { assert xs + ys == xs; }
    else {
      var init, last := ys[..|ys| - 1], ys[|ys| - 1];
      SentAppend(xs, init, a);
      DeltaSnoc(xs + init, last, a, a);
      assert xs + ys == xs + init + [last];
    }
  }
}
