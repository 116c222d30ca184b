/** The bounded mempool of a proposer, and the batches it selects from it. */
module Mempool {
  import opened Models
  import opened Execution

  datatype Config = Config(maxMempool: nat, maxBlock: nat, maxBytes: nat)

  datatype SubmitError = TooLarge | LedgerRefused(cause: TxError) | CapacityReached | SenderPending

  function RemoveAll(pool: seq<Transaction>, gone: seq<Transaction>): seq<Transaction> {
    if pool == [] then []
    else
      var rest := RemoveAll(pool[..|pool| - 1], gone);
      if pool[|pool| - 1] in gone then rest else rest + [pool[|pool| - 1]]
  }

  /** Those of a list the ledger would accept on their own, and those it would not. */
  function ValidAlone(accounts: Accounts, txs: seq<Transaction>, feeRecipient: Address, rules: Rules): seq<Transaction> {
    if txs == [] then []
    else
      var rest := ValidAlone(accounts, txs[..|txs| - 1], feeRecipient, rules);
      if ApplyTx(accounts, txs[|txs| - 1], feeRecipient, rules).Ok? then rest + [txs[|txs| - 1]] else rest
  }

  function RefusedAlone(accounts: Accounts, txs: seq<Transaction>, feeRecipient: Address, rules: Rules): seq<Transaction> {
    if txs == [] then []
    else
      var rest := RefusedAlone(accounts, txs[..|txs| - 1], feeRecipient, rules);
      if ApplyTx(accounts, txs[|txs| - 1], feeRecipient, rules).Ok? then rest else rest + [txs[|txs| - 1]]
  }

  function Least(a: nat, b: nat): nat { if a < b then a else b }

  /** The transactions looked at for one block: the oldest ones, up to the limit. */
  function Considered(pool: seq<Transaction>, limit: nat, config: Config): seq<Transaction> {
    pool[..Least(Least(limit, config.maxBlock), |pool|)]
  }

  class Pool {
    const config: Config
    const rules: Rules
    var txs: seq<Transaction>

    /** At most one pending transaction per sender, and no more than the capacity. */
    ghost predicate Valid()
      reads this
    {
      DistinctSenders(txs) && |txs| <= config.maxMempool
    }

    constructor (config: Config, rules: Rules)
      ensures Valid() && txs == [] && this.config == config && this.rules == rules
    {
      this.config, this.rules, txs := config, rules, [];
    }

    /** `bytes` is the size of the canonical encoding. Whether the ledger accepts a transaction does
        not depend on who collects its fee; the sender stands in. */
    method Submit(tx: Transaction, bytes: nat, accounts: Accounts) returns (r: Result<Digest, SubmitError>)
      requires Valid()
      modifies this
      ensures Valid()
      ensures r.Ok? <==> && bytes <= config.maxBytes && ApplyTx(accounts, tx, tx.sender, rules).Ok?
                         && |old(txs)| < config.maxMempool && forall other :: other in old(txs) ==> other.sender != tx.sender
      ensures txs == if r.Ok? then old(txs) + [tx] else old(txs)
      ensures r.Ok? ==> r.value == TxId(tx)
      ensures r.Err? ==> match r.error
                         case TooLarge => bytes > config.maxBytes
                         case LedgerRefused(e) => bytes <= config.maxBytes && ApplyTx(accounts, tx, tx.sender, rules) == Err(e)
                         case CapacityReached => |old(txs)| >= config.maxMempool && ApplyTx(accounts, tx, tx.sender, rules).Ok?
                         case SenderPending => |old(txs)| < config.maxMempool && exists other :: other in old(txs) && other.sender == tx.sender
    {
      if bytes > config.maxBytes { return Err(TooLarge); }
      var check := ApplyTx(accounts, tx, tx.sender, rules);
      if check.Err? { return Err(LedgerRefused(check.error)); }
      if |txs| >= config.maxMempool { return Err(CapacityReached); }
      for i := 0 to |txs|
        invariant forall k :: 0 <= k < i ==> txs[k].sender != tx.sender
      {
        if txs[i].sender == tx.sender { return Err(SenderPending); }
      }
      txs := txs + [tx];
      r := Ok(TxId(tx));
    }

    /** `_select_transactions`: keeps the valid ones of those considered, drops the others from the pool. */
    method Select(limit: nat, accounts: Accounts, feeRecipient: Address) returns (chosen: seq<Transaction>)
      requires Valid()
      modifies this
      ensures Valid()
      ensures chosen == ValidAlone(accounts, Considered(old(txs), limit, config), feeRecipient, rules)
      ensures txs == RemoveAll(old(txs), RefusedAlone(accounts, Considered(old(txs), limit, config), feeRecipient, rules))
    {
      var considered := Considered(txs, limit, config);
      ghost var before := txs;
      chosen := [];
      var refused: seq<Transaction> := [];
      for i := 0 to |considered|
        invariant chosen == ValidAlone(accounts, considered[..i], feeRecipient, rules)
        invariant refused == RefusedAlone(accounts, considered[..i], feeRecipient, rules)
      {
        assert considered[..i + 1][..i] == considered[..i];
        var check := ApplyTx(accounts, considered[i], feeRecipient, rules);
        if check.Ok? { chosen := chosen + [considered[i]]; } else { refused := refused + [considered[i]]; }
      }
      assert considered[..|considered|] == considered;
      RemovalKeeps(txs, refused);
      txs := RemoveAll(txs, refused);
    }

    /** What accepting a block does to the pool. */
    method DropIncluded(included: seq<Transaction>)
      requires Valid()
      modifies this
      ensures Valid() && txs == RemoveAll(old(txs), included)
    {
      RemovalKeeps(txs, included);
      txs := RemoveAll(txs, included);
    }
  }

  lemma {:induction false} RemovalKeeps(pool: seq<Transaction>, gone: seq<Transaction>)
    requires DistinctSenders(pool)
    ensures DistinctSenders(RemoveAll(pool, gone)) && |RemoveAll(pool, gone)| <= |pool|
    ensures forall tx :: tx in RemoveAll(pool, gone) <==> tx in pool && tx !in gone
  {
    if pool != [] {
      var init, last := pool[..|pool| - 1], pool[|pool| - 1];
      assert pool == init + [last];
      RemovalKeeps(init, gone);
      var rest := RemoveAll(init, gone);
      forall k | 0 <= k < |rest| ensures rest[k].sender != last.sender {
        assert rest[k] in init;
        var i :| 0 <= i < |init| && init[i] == rest[k];
        assert pool[i] == rest[k];
      }
    }
  }

  lemma {:induction false} ValidAloneMeans(accounts: Accounts, txs: seq<Transaction>, feeRecipient: Address, rules: Rules)
    ensures forall tx :: tx in ValidAlone(accounts, txs, feeRecipient, rules) <==> tx in txs && ApplyTx(accounts, tx, feeRecipient, rules).Ok?
    ensures multiset(ValidAlone(accounts, txs, feeRecipient, rules)) <= multiset(txs)
    ensures |ValidAlone(accounts, txs, feeRecipient, rules)| <= |txs|
  {
    if txs != [] {
      var init, last := txs[..|txs| - 1], txs[|txs| - 1];
      assert txs == init + [last];
      ValidAloneMeans(accounts, init, feeRecipient, rules);
      assert multiset(txs) == multiset(init) + multiset{last};
    }
  }

  // ---- order ----

  /** `part` is what is left of `whole` at these places, in their order. */
  ghost predicate At(part: seq<Transaction>, whole: seq<Transaction>, places: seq<nat>) {
    && |places| == |part| && (forall i, j :: 0 <= i < j < |places| ==> places[i] < places[j])
    && forall i :: 0 <= i < |part| ==> places[i] < |whole| && whole[places[i]] == part[i]
  }

  lemma AtSnoc(part: seq<Transaction>, init: seq<Transaction>, places: seq<nat>, last: Transaction)
    requires At(part, init, places)
    ensures At(part, init + [last], places) && At(part + [last], init + [last], places + [|init|])
  {
  }

  /** Removing keeps the order of the others, so the oldest stay first. */
  lemma {:induction false} RemovalInOrder(pool: seq<Transaction>, gone: seq<Transaction>) returns (places: seq<nat>)
    ensures At(RemoveAll(pool, gone), pool, places)
    ensures forall i :: 0 <= i < |pool| ==> (i in places <==> pool[i] !in gone)
  {
    places := [];
    if pool != [] {
      var init, last := pool[..|pool| - 1], pool[|pool| - 1];
      places := RemovalInOrder(init, gone);
      AtSnoc(RemoveAll(init, gone), init, places, last);
      assert pool == init + [last];
      if last !in gone { places := places + [|init|]; }
    }
  }

  /** A selection is what the ledger accepts of the oldest transactions, oldest first. */
  lemma {:induction false} SelectionInOrder(accounts: Accounts, txs: seq<Transaction>, feeRecipient: Address, rules: Rules) returns (places: seq<nat>)
    ensures At(ValidAlone(accounts, txs, feeRecipient, rules), txs, places)
    ensures forall i :: 0 <= i < |txs| ==> (i in places <==> ApplyTx(accounts, txs[i], feeRecipient, rules).Ok?)
  {
    places := [];
    if txs != [] {
      var init, last := txs[..|txs| - 1], txs[|txs| - 1];
      places := SelectionInOrder(accounts, init, feeRecipient, rules);
      AtSnoc(ValidAlone(accounts, init, feeRecipient, rules), init, places, last);
      assert txs == init + [last];
      if ApplyTx(accounts, last, feeRecipient, rules).Ok? { places := places + [|init|]; }
    }
  }

  /** What is considered are the oldest transactions, as many as the pool, the limit and a block allow. */
  lemma ConsideredMeans(pool: seq<Transaction>, limit: nat, config: Config)
    ensures var c := Considered(pool, limit, config);
            && c <= pool && |c| <= limit && |c| <= config.maxBlock
            && (|c| == |pool| || |c| == limit || |c| == config.maxBlock)
  {
  }

  /** What is considered but not selected is what the selection drops from the pool. */
  lemma {:induction false} RefusedIsRest(accounts: Accounts, txs: seq<Transaction>, feeRecipient: Address, rules: Rules)
    ensures multiset(ValidAlone(accounts, txs, feeRecipient, rules)) + multiset(RefusedAlone(accounts, txs, feeRecipient, rules)) == multiset(txs)
    ensures forall tx :: tx in RefusedAlone(accounts, txs, feeRecipient, rules) <==> tx in txs && ApplyTx(accounts, tx, feeRecipient, rules).Err?
  {
    if txs != [] {
      var init, last := txs[..|txs| - 1], txs[|txs| - 1];
      assert txs == init + [last];
      RefusedIsRest(accounts, init, feeRecipient, rules);
    }
  }

  /** Whatever a proposer selects from its pool executes as one block on the ledger it was checked
      against, in the selected order and in any other, with the same result. */
  lemma SelectionExecutes(pool: seq<Transaction>, config: Config, limit: nat, accounts: Accounts, feeRecipient: Address, rules: Rules,
                          reordered: seq<Transaction>)
    requires rules.minFee >= 0 && DistinctSenders(pool)
    requires multiset(reordered) == multiset(ValidAlone(accounts, Considered(pool, limit, config), feeRecipient, rules))
    ensures var chosen := ValidAlone(accounts, Considered(pool, limit, config), feeRecipient, rules);
            && |chosen| <= Least(limit, config.maxBlock)
            && Execute(accounts, chosen, feeRecipient, rules).Ok?
            && Execute(accounts, reordered, feeRecipient, rules) == Execute(accounts, chosen, feeRecipient, rules)
  {
    var considered := Considered(pool, limit, config);
    var chosen := ValidAlone(accounts, considered, feeRecipient, rules);
    ValidAloneMeans(accounts, considered, feeRecipient, rules);
    SenderOnce(considered, chosen);
    BatchOrderIndependent(accounts, chosen, chosen, reordered, feeRecipient, rules);
  }

  /** A transaction a block included can never enter the pool again. */
  lemma IncludedIsRefused(accounts: Accounts, txs: seq<Transaction>, feeRecipient: Address, rules: Rules, tx: Transaction, other: Address)
    requires Execute(accounts, txs, feeRecipient, rules).Ok? && tx in txs
    ensures ApplyTx(Execute(accounts, txs, feeRecipient, rules).value, tx, other, rules).Err?
  {
    ExecutedNonces(accounts, txs, feeRecipient, rules);
  }

  lemma SenderOnce(considered: seq<Transaction>, chosen: seq<Transaction>)
    requires DistinctSenders(considered) && multiset(chosen) <= multiset(considered)
    ensures DistinctSenders(chosen)
  {
    forall i, j | 0 <= i < j < |chosen| ensures chosen[i].sender != chosen[j].sender {
      assert chosen[i] in multiset(chosen) && chosen[j] in multiset(chosen);
      var p :| 0 <= p < |considered| && considered[p] == chosen[i];
      var q :| 0 <= q < |considered| && considered[q] == chosen[j];
      if p == q {
        TwiceInMultiset(chosen, i, j);
        OnceInMultiset(considered, p);
      }
    }
  }
}
