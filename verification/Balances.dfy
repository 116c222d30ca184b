/** What every run of the store keeps of the account table, and what a payment can do to it. */
module Balances {
  import opened Models
  import opened Execution
  import opened Blocks
  import opened ExternalStore
  import opened StoreRuns
  import opened Snapshot
  import Chain

  // ---- one payment ----

  function Payment(app: App, accounts: Accounts, from: Address, to: Address): Transaction {
    Transaction(app.rules.chainId, from, to, 1, app.rules.minFee, Get(accounts, from).nonce + 1, "", "", true)
  }

  function PaymentRequest(app: App, t: Tables, from: Address, to: Address, blockHash: string): Request {
    Request(t.height + 1, blockHash, [Payment(app, t.accounts, from, to)])
  }

  /** Paying one unit at the minimum fee is always possible for a sender who can afford it. */
  lemma PaymentFollows(app: App, t: Tables, from: Address, to: Address, blockHash: string)
    requires IsHex64(blockHash) && from != to && Get(t.accounts, from).balance >= 1 + app.rules.minFee
    ensures var req := PaymentRequest(app, t, from, to, blockHash);
            Follows(app, t, req) && After(app, t, req) == Transfer(t.accounts, Payment(app, t.accounts, from, to), app.feePool)
  {
    var tx := Payment(app, t.accounts, from, to);
    assert [tx][..0] == [];
    assert Execute(t.accounts, [], app.feePool, app.rules) == Ok(t.accounts);
    assert (set x | x in [tx]) == {tx};
  }

  // ---- non-negative balances ----

  lemma {:induction false} FoldNonNegative(app: App, start: Tables, reqs: seq<Request>)
    requires app.rules.minFee >= 0 && NonNegative(start.accounts) && Fold(app, start, reqs).Some?
    ensures NonNegative(Fold(app, start, reqs).value.accounts)
  {
    if reqs != [] {
      var last := reqs[|reqs| - 1];
      var before := FoldLast(app, start, reqs);
      FoldNonNegative(app, start, reqs[..|reqs| - 1]);
      ExecuteNonNegative(before.accounts, last.txs, app.feePool, app.rules);
    }
  }

  /** A replayed chain has non-negative balances if its genesis has and the minimum fee is not negative. */
  lemma {:induction false} ReplayNonNegative(g: Genesis, signed: set<Message>, blocks: seq<Block>)
    requires g.validators != [] && g.minFee >= 0 && NonNegative(GenesisAccounts(g)) && Chain.Replay(g, signed, blocks).Some?
    ensures NonNegative(Chain.Replay(g, signed, blocks).value)
  {
    if blocks != [] {
      var header := blocks[|blocks| - 1].header;
      var mid := Chain.ReplayLast(g, signed, blocks);
      ReplayNonNegative(g, signed, blocks[..|blocks| - 1]);
      ExecuteNonNegative(mid, header.transactions, header.proposer, RulesOf(g));
    }
  }

  /** Every fold is reached by staging and committing its requests one after another. */
  lemma {:induction false} FoldIsReached(app: App, start: Tables, reqs: seq<Request>) returns (ops: seq<Op>)
    requires AtBase(start) && Fold(app, start, reqs).Some?
    ensures PerformAll(app, start, ops) == Fold(app, start, reqs).value
  {
    ops := [];
    if reqs != [] {
      var last := reqs[|reqs| - 1];
      var before := FoldLast(app, start, reqs);
      var init := FoldIsReached(app, start, reqs[..|reqs| - 1]);
      var before' := FoldSound(app, start, reqs[..|reqs| - 1]);
      Progress(app, start, init, last);
      ops := init + [StageOp(last)] + [CommitOp];
    }
  }

  /** With a negative minimum fee the pool pays for every payment, until its balance is negative. */
  lemma {:induction false} PoolRunsDry(app: App, start: Tables, reqs: seq<Request>, a: Address, b: Address, blockHash: string, pool: nat)
    returns (more: seq<Request>)
    requires app.rules.minFee < 0 && IsHex64(blockHash) && a != b && a != app.feePool && b != app.feePool
    requires Fold(app, start, reqs).Some? && Get(Fold(app, start, reqs).value.accounts, a).balance >= 0
    requires Get(Fold(app, start, reqs).value.accounts, app.feePool).balance <= pool
    ensures Fold(app, start, more).Some? && !NonNegative(Fold(app, start, more).value.accounts)
    decreases pool
  {
    var t := Fold(app, start, reqs).value;
    var req := PaymentRequest(app, t, a, b, blockHash);
    PaymentFollows(app, t, a, b, blockHash);
    FoldSnoc(app, start, reqs, req);
    more := reqs + [req];
    var paid := Applied(app, t, req).accounts;
    assert app.feePool in paid && Get(paid, app.feePool).balance == Get(t.accounts, app.feePool).balance + app.rules.minFee;
    if Get(paid, app.feePool).balance >= 0 {
      assert Get(paid, a).balance == Get(t.accounts, a).balance - (1 + app.rules.minFee);
      more := PoolRunsDry(app, start, more, a, b, blockHash, pool - 1);
    }
  }

  lemma NegativeFeeReached(g: Genesis, feePool: Address) returns (ops: seq<Op>)
    requires g.minFee < 0 && NonNegative(GenesisAccounts(g))
    ensures !NonNegative(PerformAll(AppOf(g, feePool), Pristine(g), ops).accounts)
  {
    var app, start := AppOf(g, feePool), Pristine(g);
    var a := Address(feePool.text + "a");
    var b := Address(feePool.text + "b");
    assert |a.text| == |feePool.text| + 1 == |b.text| && a.text[|feePool.text|] == 'a' && b.text[|feePool.text|] == 'b';
    assert IsHex64(Repeat('0', 64));
    assert Fold(app, start, []) == Some(start);
    var balance := Get(start.accounts, feePool).balance;
    var reqs := PoolRunsDry(app, start, [], a, b, Repeat('0', 64), balance);
    ops := FoldIsReached(app, start, reqs);
  }

  /** From genesis, all balances of all reachable states are non-negative if and only if the minimum
      fee and the allocations are; loading a genesis checks neither. */
  lemma ReachableNonNegativeIff(g: Genesis, feePool: Address)
    ensures g.minFee >= 0 && (forall a :: a in g.allocations ==> g.allocations[a] >= 0)
            <==> forall ops :: NonNegative(PerformAll(AppOf(g, feePool), Pristine(g), ops).accounts)
  {
    var app, start := AppOf(g, feePool), Pristine(g);
    if g.minFee >= 0 && (forall a :: a in g.allocations ==> g.allocations[a] >= 0) {
      forall ops ensures NonNegative(PerformAll(app, start, ops).accounts) {
        var done, staged := ReachableIsFold(app, start, ops);
        var image := DescribedTables(app, start, PerformAll(app, start, ops), done, staged);
        FoldNonNegative(app, start, done);
      }
    } else if g.minFee < 0 && NonNegative(GenesisAccounts(g)) {
      var ops := NegativeFeeReached(g, feePool);
      assert !NonNegative(PerformAll(app, start, ops).accounts);
    } else {
      if g.minFee >= 0 {
        var a :| a in g.allocations && g.allocations[a] < 0;
        assert start.accounts[a].balance < 0;
      }
      var ops: seq<Op> := [];
      assert PerformAll(app, start, ops) == start;
      assert !NonNegative(PerformAll(app, start, ops).accounts);
    }
  }

  // ---- rows never leave the table ----

  lemma AppliedKeepsRows(app: App, t: Tables, req: Request)
    requires Follows(app, t, req)
    ensures t.accounts.Keys <= Applied(app, t, req).accounts.Keys
  {
    ExecuteMoves(t.accounts, req.txs, app.feePool, app.rules);
  }

  lemma StepKeepsRows(app: App, start: Tables, ops: seq<Op>, op: Op)
    requires AtBase(start)
    ensures PerformAll(app, start, ops).accounts.Keys <= PerformAll(app, start, ops + [op]).accounts.Keys
  {
    var t := PerformAll(app, start, ops);
    assert PerformAll(app, start, ops + [op]) == Perform(app, t, op) by { assert (ops + [op])[..|ops|] == ops; }
    var done, staged := ReachableIsFold(app, start, ops);
    var image := DescribedTables(app, start, t, done, staged);
    if op.CommitOp? && staged.Some? {
      var image' := CommitDescribes(app, start, t, done, staged.value);
      AppliedKeepsRows(app, image, staged.value);
    } else {
      var done', staged' := PerformDescribes(app, start, t, done, staged, op);
      var image' := DescribedTables(app, start, Perform(app, t, op), done', staged');
    }
  }

  /** An account row, once there, is there in every later state. */
  lemma {:induction false} RowsStay(app: App, start: Tables, ops: seq<Op>, later: seq<Op>)
    requires AtBase(start)
    ensures PerformAll(app, start, ops).accounts.Keys <= PerformAll(app, start, ops + later).accounts.Keys
  {
    if later == [] {
      assert ops + later == ops;
    } else {
      var init, last := later[..|later| - 1], later[|later| - 1];
      RowsStay(app, start, ops, init);
      StepKeepsRows(app, start, ops + init, last);
      assert ops + init + [last] == ops + later;
    }
  }

  lemma MalformedRefused(g: Genesis, t: Tables, rows: seq<Listing>, b: Address)
    requires Lists(rows, t.accounts) && b in t.accounts && !WellFormed(b)
    ensures Export(g, t, rows).Err?
  {
    ListingIsNormal(rows, t.accounts);
  }

  /** One payment to a malformed address, which anyone who can pay can make, ends exporting for good:
      it is accepted, and every state from then on refuses to export. */
  lemma MalformedRecipientEndsExport(g: Genesis, feePool: Address, start: Tables, ops: seq<Op>, a: Address, b: Address, blockHash: string)
    returns (req: Request, paid: seq<Op>)
    requires AtBase(start) && IsHex64(blockHash) && a != b && !WellFormed(b)
    requires PerformAll(AppOf(g, feePool), start, ops).pending == map[]
    requires Get(PerformAll(AppOf(g, feePool), start, ops).accounts, a).balance >= 1 + g.minFee
    ensures Stage(AppOf(g, feePool), PerformAll(AppOf(g, feePool), start, ops), req).1.Ok?
    ensures paid == ops + [StageOp(req)] + [CommitOp]
    ensures forall later, rows :: Lists(rows, PerformAll(AppOf(g, feePool), start, paid + later).accounts) ==>
              Export(g, PerformAll(AppOf(g, feePool), start, paid + later), rows).Err?
  {
    var app := AppOf(g, feePool);
    var t := PerformAll(app, start, ops);
    req := PaymentRequest(app, t, a, b, blockHash);
    paid := ops + [StageOp(req)] + [CommitOp];
    PaymentFollows(app, t, a, b, blockHash);
    Progress(app, start, ops, req);
    var done := ReachableClean(app, start, ops);
    StageOnClean(app, t, req);
    assert b in PerformAll(app, start, paid).accounts;
    forall later, rows | Lists(rows, PerformAll(app, start, paid + later).accounts)
      ensures Export(g, PerformAll(app, start, paid + later), rows).Err?
    {
      RowsStay(app, start, paid, later);
      MalformedRefused(g, PerformAll(app, start, paid + later), rows, b);
    }
  }
}
