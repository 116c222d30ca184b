/** The account transition every component executes, and what it keeps. */
module Execution {
  import opened Models

  /** The genesis parameters a transaction is checked against. */
  datatype Rules = Rules(chainId: string, minFee: int)

  datatype TxError = InvalidFields | BadNonce | InsufficientBalance

  predicate FieldsOk(tx: Transaction, rules: Rules) {
    && tx.chainId == rules.chainId
    && tx.amount > 0
    && tx.fee >= rules.minFee
    && tx.sender != tx.recipient
    && tx.authentic
  }

  function Get(accounts: Accounts, a: Address): Account {
    if a in accounts then accounts[a] else Account(0, 0)
  }

  function Credit(accounts: Accounts, a: Address, amount: int, bump: int): Accounts {
    var row := Get(accounts, a);
    accounts[a := Account(row.balance + amount, row.nonce + bump)]
  }

  function Transfer(accounts: Accounts, tx: Transaction, feeRecipient: Address): Accounts {
    Credit(
      Credit(
        Credit(accounts, tx.sender, -(tx.amount + tx.fee), 1),
        tx.recipient, tx.amount, 0),
      feeRecipient, tx.fee, 0)
  }

  function ApplyTx(accounts: Accounts, tx: Transaction, feeRecipient: Address, rules: Rules): Result<Accounts, TxError> {
    if !FieldsOk(tx, rules) then Err(InvalidFields)
    else if tx.nonce != Get(accounts, tx.sender).nonce + 1 then Err(BadNonce)
    else if Get(accounts, tx.sender).balance < tx.amount + tx.fee then Err(InsufficientBalance)
    else Ok(Transfer(accounts, tx, feeRecipient))
  }

  /** The meaning of a batch: the transactions one after another, all or nothing. */
  function Execute(accounts: Accounts, txs: seq<Transaction>, feeRecipient: Address, rules: Rules): Result<Accounts, TxError> {
    if txs == [] then Ok(accounts)
    else
      match Execute(accounts, txs[..|txs| - 1], feeRecipient, rules)
      case Err(e) => Err(e)
      case Ok(mid) => ApplyTx(mid, txs[|txs| - 1], feeRecipient, rules)
  }

  // ---- closed form of a batch ----

  /** What one transaction adds to the balance of `a`. */
  function Effect(tx: Transaction, feeRecipient: Address, a: Address): int {
    (if a == tx.sender then -(tx.amount + tx.fee) else 0)
    + (if a == tx.recipient then tx.amount else 0)
    + (if a == feeRecipient then tx.fee else 0)
  }

  function Delta(txs: seq<Transaction>, feeRecipient: Address, a: Address): int {
    if txs == [] then 0
    else Delta(txs[..|txs| - 1], feeRecipient, a) + Effect(txs[|txs| - 1], feeRecipient, a)
  }

  function SentBy(txs: seq<Transaction>, a: Address): nat {
    if txs == [] then 0
    else SentBy(txs[..|txs| - 1], a) + (if txs[|txs| - 1].sender == a then 1 else 0)
  }

  ghost predicate Touches(txs: seq<Transaction>, feeRecipient: Address, a: Address) {
    exists tx :: tx in txs && (a == tx.sender || a == tx.recipient || a == feeRecipient)
  }

  /** The account table `after` is `before` with every balance and nonce moved by the batch. */
  ghost predicate Moved(before: Accounts, txs: seq<Transaction>, feeRecipient: Address, after: Accounts) {
    && (forall a :: a in after <==> a in before || Touches(txs, feeRecipient, a))
    && (forall a :: a in after ==>
          after[a] == Account(Get(before, a).balance + Delta(txs, feeRecipient, a), Get(before, a).nonce + SentBy(txs, a)))
  }

  lemma {:induction false} NothingTouched(txs: seq<Transaction>, feeRecipient: Address, a: Address)
    requires !Touches(txs, feeRecipient, a)
    ensures Delta(txs, feeRecipient, a) == 0 && SentBy(txs, a) == 0
  {
    if txs != [] {
      var n := |txs| - 1;
      assert txs[n] in txs;
      NothingTouched(txs[..n], feeRecipient, a);
    }
  }

  lemma TouchesSnoc(txs: seq<Transaction>, feeRecipient: Address, a: Address)
    requires txs != []
    ensures Touches(txs, feeRecipient, a) <==>
            || Touches(txs[..|txs| - 1], feeRecipient, a)
            || a == txs[|txs| - 1].sender || a == txs[|txs| - 1].recipient || a == feeRecipient
  {
    var init, last := txs[..|txs| - 1], txs[|txs| - 1];
    assert txs == init + [last];
    assert last in txs;
  }

  lemma TransferPointwise(accounts: Accounts, tx: Transaction, feeRecipient: Address, a: Address)
    ensures a in Transfer(accounts, tx, feeRecipient) <==> a in accounts || a == tx.sender || a == tx.recipient || a == feeRecipient
    ensures Get(Transfer(accounts, tx, feeRecipient), a)
            == Account(Get(accounts, a).balance + Effect(tx, feeRecipient, a), Get(accounts, a).nonce + if tx.sender == a then 1 else 0)
  {
  }

  /** Executing a batch is exactly: every touched row exists, balances move by the net effect,
      nonces by the number of sent transactions. */
  lemma {:induction false} ExecuteMoves(accounts: Accounts, txs: seq<Transaction>, feeRecipient: Address, rules: Rules)
    requires Execute(accounts, txs, feeRecipient, rules).Ok?
    ensures Moved(accounts, txs, feeRecipient, Execute(accounts, txs, feeRecipient, rules).value)
  {
    if txs != [] {
      var init, last := txs[..|txs| - 1], txs[|txs| - 1];
      ExecuteMoves(accounts, init, feeRecipient, rules);
      var mid := Execute(accounts, init, feeRecipient, rules).value;
      var after := Execute(accounts, txs, feeRecipient, rules).value;
      forall a
        ensures a in after <==> a in accounts || Touches(txs, feeRecipient, a)
        ensures Get(after, a) == Account(Get(accounts, a).balance + Delta(txs, feeRecipient, a), Get(accounts, a).nonce + SentBy(txs, a))
      {
        TouchesSnoc(txs, feeRecipient, a);
        TransferPointwise(mid, last, feeRecipient, a);
        if a !in mid { NothingTouched(init, feeRecipient, a); }
      }
    }
  }

  // ---- order independence of the mempool batch ----

  ghost predicate DistinctSenders(txs: seq<Transaction>) {
    forall i, j :: 0 <= i < j < |txs| ==> txs[i].sender != txs[j].sender
  }

  /** Every transaction would be accepted by the ledger on its own. */
  ghost predicate EachValidAlone(accounts: Accounts, txs: seq<Transaction>, feeRecipient: Address, rules: Rules) {
    forall tx :: tx in txs ==> ApplyTx(accounts, tx, feeRecipient, rules).Ok?
  }

  lemma {:induction false} OthersOnlyCredit(txs: seq<Transaction>, feeRecipient: Address, a: Address, rules: Rules)
    requires rules.minFee >= 0
    requires forall tx :: tx in txs ==> FieldsOk(tx, rules) && tx.sender != a
    ensures Delta(txs, feeRecipient, a) >= 0 && SentBy(txs, a) == 0
  {
    if txs != [] {
      var n := |txs| - 1;
      assert txs[n] in txs;
      OthersOnlyCredit(txs[..n], feeRecipient, a, rules);
    }
  }

  /** Distinct senders, each valid alone: the whole batch executes. */
  lemma {:induction false} BatchExecutes(accounts: Accounts, txs: seq<Transaction>, feeRecipient: Address, rules: Rules)
    requires rules.minFee >= 0
    requires DistinctSenders(txs) && EachValidAlone(accounts, txs, feeRecipient, rules)
    ensures Execute(accounts, txs, feeRecipient, rules).Ok?
  {
    if txs != [] {
      var init, last := txs[..|txs| - 1], txs[|txs| - 1];
      assert last in txs;
      BatchExecutes(accounts, init, feeRecipient, rules);
      ExecuteMoves(accounts, init, feeRecipient, rules);
      forall tx | tx in init ensures FieldsOk(tx, rules) && tx.sender != last.sender {
        assert tx in txs;
      }
      OthersOnlyCredit(init, feeRecipient, last.sender, rules);
      NothingTouchedOrMoved(accounts, init, feeRecipient, rules, last.sender);
    }
  }

  lemma NothingTouchedOrMoved(accounts: Accounts, txs: seq<Transaction>, feeRecipient: Address, rules: Rules, a: Address)
    requires Execute(accounts, txs, feeRecipient, rules).Ok?
    ensures Get(Execute(accounts, txs, feeRecipient, rules).value, a)
            == Account(Get(accounts, a).balance + Delta(txs, feeRecipient, a), Get(accounts, a).nonce + SentBy(txs, a))
  {
    ExecuteMoves(accounts, txs, feeRecipient, rules);
    if a !in Execute(accounts, txs, feeRecipient, rules).value { NothingTouched(txs, feeRecipient, a); }
  }

  function Without(txs: seq<Transaction>, i: nat): seq<Transaction>
    requires i < |txs|
  {
    txs[..i] + txs[i + 1..]
  }

  lemma WithoutEarlier(init: seq<Transaction>, last: Transaction, i: nat)
    requires i < |init|
    ensures Without(init + [last], i) == Without(init, i) + [last]
  {
  }

  lemma DeltaSnoc(txs: seq<Transaction>, tx: Transaction, feeRecipient: Address, a: Address)
    ensures Delta(txs + [tx], feeRecipient, a) == Delta(txs, feeRecipient, a) + Effect(tx, feeRecipient, a)
    ensures SentBy(txs + [tx], a) == SentBy(txs, a) + (if tx.sender == a then 1 else 0)
  {
    assert (txs + [tx])[..|txs|] == txs;
  }

  lemma {:induction false} DeltaRemove(txs: seq<Transaction>, i: nat, feeRecipient: Address, a: Address)
    requires i < |txs|
    ensures Delta(txs, feeRecipient, a) == Delta(Without(txs, i), feeRecipient, a) + Effect(txs[i], feeRecipient, a)
    ensures SentBy(txs, a) == SentBy(Without(txs, i), a) + (if txs[i].sender == a then 1 else 0)
  {
    var init, last := txs[..|txs| - 1], txs[|txs| - 1];
    assert txs == init + [last];
    if i == |init| {
      assert Without(txs, i) == init;
    } else {
      DeltaRemove(init, i, feeRecipient, a);
      WithoutEarlier(init, last, i);
      DeltaSnoc(Without(init, i), last, feeRecipient, a);
    }
  }

  lemma RemoveShared(xs: seq<Transaction>, ys: seq<Transaction>) returns (i: nat)
    requires xs != [] && multiset(xs) == multiset(ys)
    ensures i < |ys| && ys[i] == xs[|xs| - 1]
    ensures multiset(xs[..|xs| - 1]) == multiset(ys[..i] + ys[i + 1..])
  {
    var n := |xs| - 1;
    assert xs == xs[..n] + [xs[n]];
    assert xs[n] in multiset(ys);
    i :| 0 <= i < |ys| && ys[i] == xs[n];
    assert ys == ys[..i] + ([ys[i]] + ys[i + 1..]);
    var x := xs[n];
    assert multiset(xs) == multiset(xs[..n]) + multiset{x};
    assert multiset(ys) == multiset(ys[..i]) + (multiset{x} + multiset(ys[i + 1..]));
    assert multiset(ys[..i] + ys[i + 1..]) == multiset(ys[..i]) + multiset(ys[i + 1..]) == multiset(ys) - multiset{x};
    assert multiset(xs[..n]) == multiset(xs) - multiset{x};
  }

  lemma {:induction false} PermutationSameMove(xs: seq<Transaction>, ys: seq<Transaction>, feeRecipient: Address, a: Address)
    requires multiset(xs) == multiset(ys)
    ensures Delta(xs, feeRecipient, a) == Delta(ys, feeRecipient, a) && SentBy(xs, a) == SentBy(ys, a)
  {
    if xs == [] {
      assert |ys| == |multiset(ys)| == 0;
    } else {
      var i := RemoveShared(xs, ys);
      PermutationSameMove(xs[..|xs| - 1], ys[..i] + ys[i + 1..], feeRecipient, a);
      DeltaRemove(ys, i, feeRecipient, a);
    }
  }

  /** Any selection, in any order, of a mempool whose senders are distinct. */
  lemma SelectionKeepsHypotheses(accounts: Accounts, txs: seq<Transaction>, picked: seq<Transaction>, feeRecipient: Address, rules: Rules)
    requires DistinctSenders(txs) && EachValidAlone(accounts, txs, feeRecipient, rules)
    requires multiset(picked) <= multiset(txs)
    ensures DistinctSenders(picked) && EachValidAlone(accounts, picked, feeRecipient, rules)
  {
    forall tx | tx in picked ensures tx in txs {
      assert tx in multiset(picked);
      assert tx in multiset(txs);
    }
    forall i, j | 0 <= i < j < |picked| ensures picked[i].sender != picked[j].sender {
      assert picked[i] in txs && picked[j] in txs;
      if picked[i].sender == picked[j].sender {
        var p :| 0 <= p < |txs| && txs[p] == picked[i];
        var q :| 0 <= q < |txs| && txs[q] == picked[j];
        assert p == q;
        TwiceInMultiset(picked, i, j);
        OnceInMultiset(txs, p);
      }
    }
  }

  lemma TwiceInMultiset(xs: seq<Transaction>, i: nat, j: nat)
    requires i < j < |xs| && xs[i] == xs[j]
    ensures multiset(xs)[xs[i]] >= 2
  {
    assert xs == xs[..i] + [xs[i]] + xs[i + 1..j] + [xs[j]] + xs[j + 1..];
  }

  lemma OnceInMultiset(xs: seq<Transaction>, p: nat)
    requires p < |xs| && DistinctSenders(xs)
    ensures multiset(xs)[xs[p]] == 1
  {
    assert xs == xs[..p] + [xs[p]] + xs[p + 1..];
    assert xs[p] !in xs[..p] && xs[p] !in xs[p + 1..];
  }

  lemma SameMoveSameTable(before: Accounts, one: seq<Transaction>, other: seq<Transaction>, feeRecipient: Address,
                          a1: Accounts, a2: Accounts)
    requires multiset(one) == multiset(other)
    requires Moved(before, one, feeRecipient, a1) && Moved(before, other, feeRecipient, a2)
    ensures a1 == a2
  {
    forall tx ensures tx in one <==> tx in other {
      assert tx in multiset(one) <==> tx in multiset(other);
    }
    forall a ensures a in a1 <==> a in a2 {
      assert Touches(one, feeRecipient, a) <==> Touches(other, feeRecipient, a);
    }
    forall a | a in a1 ensures a1[a] == a2[a] { PermutationSameMove(one, other, feeRecipient, a); }
  }

  /** A mempool batch executes in every order and every selection, and every order of one
      selection reaches the same account table, whoever collects the fee. */
  lemma BatchOrderIndependent(accounts: Accounts, mempool: seq<Transaction>, one: seq<Transaction>, other: seq<Transaction>,
                              feeRecipient: Address, rules: Rules)
    requires rules.minFee >= 0
    requires DistinctSenders(mempool) && EachValidAlone(accounts, mempool, feeRecipient, rules)
    requires multiset(one) == multiset(other) <= multiset(mempool)
    ensures Execute(accounts, one, feeRecipient, rules).Ok?
    ensures Execute(accounts, one, feeRecipient, rules) == Execute(accounts, other, feeRecipient, rules)
  {
    SelectionKeepsHypotheses(accounts, mempool, one, feeRecipient, rules);
    SelectionKeepsHypotheses(accounts, mempool, other, feeRecipient, rules);
    BatchExecutes(accounts, one, feeRecipient, rules);
    BatchExecutes(accounts, other, feeRecipient, rules);
    ExecuteMoves(accounts, one, feeRecipient, rules);
    ExecuteMoves(accounts, other, feeRecipient, rules);
    SameMoveSameTable(accounts, one, other, feeRecipient,
                      Execute(accounts, one, feeRecipient, rules).value, Execute(accounts, other, feeRecipient, rules).value);
  }

  /** With a negative minimum fee the promise fails: each transaction is valid alone, yet the
      order in which the fee pool pays decides whether the batch executes. */
  lemma NegativeFeeBreaksBatch(rules: Rules)
    requires rules.minFee < 0
    ensures exists accounts, a, b, feeRecipient ::
      && DistinctSenders([a, b]) && EachValidAlone(accounts, [a, b], feeRecipient, rules)
      && Execute(accounts, [a, b], feeRecipient, rules) == Err(InsufficientBalance)
  {
    var accounts: Accounts := map[Address("u") := Account(5, 0), Address("p") := Account(1 + rules.minFee, 0)];
    var a := Transaction(rules.chainId, Address("u"), Address("v"), 1, rules.minFee, 1, "", "", true);
    var b := Transaction(rules.chainId, Address("p"), Address("v"), 1, rules.minFee, 1, "", "", true);
    var mid := Transfer(accounts, a, Address("p"));
    assert [a, b][..1] == [a];
    assert [a][..0] == [];
    assert Execute(accounts, [a], Address("p"), rules) == Ok(mid);
    assert mid[Address("p")].balance == 1 + rules.minFee + rules.minFee;
    assert Execute(accounts, [a, b], Address("p"), rules) == Err(InsufficientBalance);
    assert DistinctSenders([a, b]) && EachValidAlone(accounts, [a, b], Address("p"), rules);
  }

  // ---- conservation, non-negativity, at most once ----

  ghost function Total(accounts: Accounts): int {
    SumOver(accounts, accounts.Keys)
  }

  ghost function SumOver(accounts: Accounts, keys: set<Address>): int
    requires keys <= accounts.Keys
    decreases |keys|
  {
    if keys == {} then 0
    else var a := Pick(keys); accounts[a].balance + SumOver(accounts, keys - {a})
  }

  lemma {:induction false} SumPull(accounts: Accounts, keys: set<Address>, a: Address)
    requires keys <= accounts.Keys && a in keys
    ensures SumOver(accounts, keys) == accounts[a].balance + SumOver(accounts, keys - {a})
    decreases |keys|
  {
    var b := Pick(keys);
    if b != a {
      SumPull(accounts, keys - {b}, a);
      SumPull(accounts, keys - {a}, b);
      assert keys - {b} - {a} == keys - {a} - {b};
    }
  }

  /** The sum of a table's balances, taken in any order. */
  method SumTotal(accounts: Accounts) returns (sum: int)
    ensures sum == Total(accounts)
  {
    var todo := accounts.Keys;
    sum := 0;
    while todo != {}
      invariant todo <= accounts.Keys
      invariant sum + SumOver(accounts, todo) == Total(accounts)
      decreases |todo|
    {
      var a :| a in todo;
      SumPull(accounts, todo, a);
      sum := sum + accounts[a].balance;
      todo := todo - {a};
    }
  }

  lemma {:induction false} SumSame(one: Accounts, other: Accounts, keys: set<Address>)
    requires keys <= one.Keys && keys <= other.Keys
    requires forall a :: a in keys ==> one[a].balance == other[a].balance
    ensures SumOver(one, keys) == SumOver(other, keys)
    decreases |keys|
  {
    if keys != {} { SumSame(one, other, keys - {Pick(keys)}); }
  }

  lemma CreditTotal(accounts: Accounts, a: Address, amount: int, bump: int)
    ensures Total(Credit(accounts, a, amount, bump)) == Total(accounts) + amount
  {
    var after := Credit(accounts, a, amount, bump);
    SumPull(after, after.Keys, a);
    SumSame(accounts, after, accounts.Keys - {a});
    assert after.Keys - {a} == accounts.Keys - {a};
    if a in accounts { SumPull(accounts, accounts.Keys, a); }
    else { assert accounts.Keys - {a} == accounts.Keys; }
  }

  /** Executing any batch neither creates nor destroys units. */
  lemma {:induction false} ExecuteConserves(accounts: Accounts, txs: seq<Transaction>, feeRecipient: Address, rules: Rules)
    requires Execute(accounts, txs, feeRecipient, rules).Ok?
    ensures Total(Execute(accounts, txs, feeRecipient, rules).value) == Total(accounts)
  {
    if txs != [] {
      var init, tx := txs[..|txs| - 1], txs[|txs| - 1];
      ExecuteConserves(accounts, init, feeRecipient, rules);
      var mid := Execute(accounts, init, feeRecipient, rules).value;
      var paid := Credit(mid, tx.sender, -(tx.amount + tx.fee), 1);
      CreditTotal(mid, tx.sender, -(tx.amount + tx.fee), 1);
      CreditTotal(paid, tx.recipient, tx.amount, 0);
      CreditTotal(Credit(paid, tx.recipient, tx.amount, 0), feeRecipient, tx.fee, 0);
    }
  }

  ghost predicate NonNegative(accounts: Accounts) {
    forall a :: a in accounts ==> accounts[a].balance >= 0 && accounts[a].nonce >= 0
  }

  lemma {:induction false} ExecuteNonNegative(accounts: Accounts, txs: seq<Transaction>, feeRecipient: Address, rules: Rules)
    requires rules.minFee >= 0 && NonNegative(accounts)
    requires Execute(accounts, txs, feeRecipient, rules).Ok?
    ensures NonNegative(Execute(accounts, txs, feeRecipient, rules).value)
  {
    if txs != [] { ExecuteNonNegative(accounts, txs[..|txs| - 1], feeRecipient, rules); }
  }

  /** Balances stay non-negative through every batch exactly when the genesis minimum fee is
      not negative; `Genesis.load` does not check that. */
  lemma NonNegativeIffMinFee(rules: Rules)
    ensures rules.minFee >= 0 <==>
            forall accounts, txs, feeRecipient ::
              NonNegative(accounts) && Execute(accounts, txs, feeRecipient, rules).Ok? ==>
                NonNegative(Execute(accounts, txs, feeRecipient, rules).value)
  {
    if rules.minFee >= 0 {
      forall accounts, txs, feeRecipient | NonNegative(accounts) && Execute(accounts, txs, feeRecipient, rules).Ok?
        ensures NonNegative(Execute(accounts, txs, feeRecipient, rules).value)
      {
        ExecuteNonNegative(accounts, txs, feeRecipient, rules);
      }
    } else {
      var accounts: Accounts := map[Address("u") := Account(1, 0)];
      var tx := Transaction(rules.chainId, Address("u"), Address("v"), 1, rules.minFee, 1, "", "", true);
      assert [tx][..0] == [];
      assert Execute(accounts, [], Address("p"), rules) == Ok(accounts);
      var after := Transfer(accounts, tx, Address("p"));
      assert Execute(accounts, [tx], Address("p"), rules) == Ok(after);
      assert after[Address("p")].balance == rules.minFee;
      assert NonNegative(accounts) && !NonNegative(Execute(accounts, [tx], Address("p"), rules).value);
    }
  }

  ghost predicate NoncesGrow(before: Accounts, after: Accounts) {
    forall a :: Get(before, a).nonce <= Get(after, a).nonce
  }

  lemma TransferNonces(accounts: Accounts, tx: Transaction, feeRecipient: Address, rules: Rules)
    requires ApplyTx(accounts, tx, feeRecipient, rules).Ok?
    ensures NoncesGrow(accounts, Transfer(accounts, tx, feeRecipient))
    ensures Get(accounts, tx.sender).nonce < tx.nonce == Get(Transfer(accounts, tx, feeRecipient), tx.sender).nonce
  {
  }

  /** Every executed transaction used a nonce above the sender's old one and at most the new one. */
  lemma {:induction false} ExecutedNonces(accounts: Accounts, txs: seq<Transaction>, feeRecipient: Address, rules: Rules)
    requires Execute(accounts, txs, feeRecipient, rules).Ok?
    ensures NoncesGrow(accounts, Execute(accounts, txs, feeRecipient, rules).value)
    ensures forall tx :: tx in txs ==>
              Get(accounts, tx.sender).nonce < tx.nonce <= Get(Execute(accounts, txs, feeRecipient, rules).value, tx.sender).nonce
    ensures Distinct(txs)
  {
    if txs != [] {
      var init, last := txs[..|txs| - 1], txs[|txs| - 1];
      ExecutedNonces(accounts, init, feeRecipient, rules);
      var mid := Execute(accounts, init, feeRecipient, rules).value;
      var after := Execute(accounts, txs, feeRecipient, rules).value;
      TransferNonces(mid, last, feeRecipient, rules);
      assert txs == init + [last];
      forall tx | tx in txs ensures Get(accounts, tx.sender).nonce < tx.nonce <= Get(after, tx.sender).nonce {
        assert Get(accounts, tx.sender).nonce <= Get(mid, tx.sender).nonce <= Get(after, tx.sender).nonce;
        if tx != last { assert tx in init; }
      }
      assert last !in init;
      forall i, j | 0 <= i < j < |txs| ensures txs[i] != txs[j] {
        assert txs[i] == init[i];
        if j < |init| { assert txs[j] == init[j]; }
      }
    }
  }

  lemma ExecuteSnoc(accounts: Accounts, txs: seq<Transaction>, tx: Transaction, feeRecipient: Address, rules: Rules)
    ensures Execute(accounts, txs + [tx], feeRecipient, rules)
            == match Execute(accounts, txs, feeRecipient, rules)
               case Err(e) => Err(e)
               case Ok(mid) => ApplyTx(mid, tx, feeRecipient, rules)
  {
    assert (txs + [tx])[..|txs|] == txs;
  }

  /** Executing a batch in two parts. */
  lemma {:induction false} ExecuteAppend(accounts: Accounts, xs: seq<Transaction>, ys: seq<Transaction>, feeRecipient: Address, rules: Rules)
    ensures Execute(accounts, xs + ys, feeRecipient, rules)
            == match Execute(accounts, xs, feeRecipient, rules)
               case Err(e) => Err(e)
               case Ok(mid) => Execute(mid, ys, feeRecipient, rules)
  {
    if ys == [] { assert xs + ys == xs; }
    else {
      var init, last := ys[..|ys| - 1], ys[|ys| - 1];
      ExecuteAppend(accounts, xs, init, feeRecipient, rules);
      ExecuteSnoc(accounts, xs + init, last, feeRecipient, rules);
      assert xs + ys == (xs + init) + [last];
    }
  }

  // ---- exactly when a batch executes ----

  /** The first complaint about the `i`-th transaction, read off the table before the batch: the nonce
      its sender has reached and the balance it has left after the transactions in front of it. */
  ghost function FaultAt(accounts: Accounts, txs: seq<Transaction>, i: nat, feeRecipient: Address, rules: Rules): Option<TxError>
    requires i < |txs|
  {
    var tx, before := txs[i], txs[..i];
    if tx.chainId != rules.chainId || tx.amount <= 0 || tx.fee < rules.minFee || tx.sender == tx.recipient || !tx.authentic
    then Some(InvalidFields)
    else if tx.nonce != Get(accounts, tx.sender).nonce + SentBy(before, tx.sender) + 1 then Some(BadNonce)
    else if tx.amount + tx.fee > Get(accounts, tx.sender).balance + Delta(before, feeRecipient, tx.sender) then Some(InsufficientBalance)
    else None
  }

  ghost predicate Faultless(accounts: Accounts, txs: seq<Transaction>, feeRecipient: Address, rules: Rules) {
    forall i :: 0 <= i < |txs| ==> FaultAt(accounts, txs, i, feeRecipient, rules) == None
  }

  lemma FaultIsError(accounts: Accounts, init: seq<Transaction>, tx: Transaction, feeRecipient: Address, rules: Rules)
    requires Execute(accounts, init, feeRecipient, rules).Ok?
    ensures FaultAt(accounts, init + [tx], |init|, feeRecipient, rules)
            == match ApplyTx(Execute(accounts, init, feeRecipient, rules).value, tx, feeRecipient, rules) case Ok(_) => None case Err(e) => Some(e)
  {
    assert (init + [tx])[..|init|] == init;
    NothingTouchedOrMoved(accounts, init, feeRecipient, rules, tx.sender);
  }

  lemma FaultsSnoc(accounts: Accounts, init: seq<Transaction>, last: Transaction, i: nat, feeRecipient: Address, rules: Rules)
    requires i < |init|
    ensures FaultAt(accounts, init + [last], i, feeRecipient, rules) == FaultAt(accounts, init, i, feeRecipient, rules)
  {
    assert (init + [last])[..i] == init[..i];
  }

  /** The batch executes if it has no fault, and fails with the first one if it has. */
  ghost predicate FirstFault(accounts: Accounts, txs: seq<Transaction>, feeRecipient: Address, rules: Rules, r: Result<Accounts, TxError>) {
    && (r.Ok? <==> Faultless(accounts, txs, feeRecipient, rules))
    && (forall i :: 0 <= i < |txs| && (forall j :: 0 <= j < i ==> FaultAt(accounts, txs, j, feeRecipient, rules) == None)
                    && FaultAt(accounts, txs, i, feeRecipient, rules).Some? ==>
          r == Err(FaultAt(accounts, txs, i, feeRecipient, rules).value))
  }

  lemma FirstFaultSnoc(accounts: Accounts, init: seq<Transaction>, last: Transaction, feeRecipient: Address, rules: Rules,
                       r: Result<Accounts, TxError>, next: Result<Accounts, TxError>)
    requires FirstFault(accounts, init, feeRecipient, rules, r)
    requires r.Err? ==> next == r
    requires r.Ok? ==> FaultAt(accounts, init + [last], |init|, feeRecipient, rules) == match next case Ok(_) => None case Err(e) => Some(e)
    ensures FirstFault(accounts, init + [last], feeRecipient, rules, next)
  {
    var all := init + [last];
    forall i | 0 <= i < |init| ensures FaultAt(accounts, all, i, feeRecipient, rules) == FaultAt(accounts, init, i, feeRecipient, rules) {
      FaultsSnoc(accounts, init, last, i, feeRecipient, rules);
    }
  }

  /** A batch executes exactly if no transaction in it has a fault; otherwise it fails with the first one. */
  lemma {:induction false} ExecuteMeans(accounts: Accounts, txs: seq<Transaction>, feeRecipient: Address, rules: Rules)
    ensures FirstFault(accounts, txs, feeRecipient, rules, Execute(accounts, txs, feeRecipient, rules))
  {
    if txs != [] {
      var init, last := txs[..|txs| - 1], txs[|txs| - 1];
      var r := Execute(accounts, init, feeRecipient, rules);
      ExecuteMeans(accounts, init, feeRecipient, rules);
      if r.Ok? { FaultIsError(accounts, init, last, feeRecipient, rules); }
      ExecuteSnoc(accounts, init, last, feeRecipient, rules);
      FirstFaultSnoc(accounts, init, last, feeRecipient, rules, r, Execute(accounts, init + [last], feeRecipient, rules));
      assert txs == init + [last];
    }
  }

  /** Every transaction of an executed batch is genuine, for this chain, and pays. */
  lemma ExecutedAreGenuine(accounts: Accounts, txs: seq<Transaction>, feeRecipient: Address, rules: Rules)
    requires Execute(accounts, txs, feeRecipient, rules).Ok?
    ensures forall tx :: tx in txs ==>
              tx.authentic && tx.chainId == rules.chainId && tx.amount > 0 && tx.fee >= rules.minFee && tx.sender != tx.recipient
  {
    ExecuteMeans(accounts, txs, feeRecipient, rules);
    forall tx | tx in txs
      ensures tx.authentic && tx.chainId == rules.chainId && tx.amount > 0 && tx.fee >= rules.minFee && tx.sender != tx.recipient
    {
      var i :| 0 <= i < |txs| && txs[i] == tx;
      assert FaultAt(accounts, txs, i, feeRecipient, rules) == None;
    }
  }

  /** What one transfer does to each account, whichever of its three parties coincide. */
  lemma TransferMeans(accounts: Accounts, tx: Transaction, feeRecipient: Address, a: Address)
    requires tx.sender != tx.recipient
    ensures var after := Transfer(accounts, tx, feeRecipient);
            && Get(after, a).nonce - Get(accounts, a).nonce == (if a == tx.sender then 1 else 0)
            && Get(after, a).balance - Get(accounts, a).balance
               == if a == tx.sender then (if a == feeRecipient then -tx.amount else -(tx.amount + tx.fee))
                  else if a == tx.recipient then (if a == feeRecipient then tx.amount + tx.fee else tx.amount)
                  else if a == feeRecipient then tx.fee
                  else 0
  {
  }

  /** A batch in which `a` sent nothing leaves its nonce, and takes nothing from it; a negative fee
      could take from the collector of the fees alone. */
  lemma {:induction false} OthersSpare(accounts: Accounts, txs: seq<Transaction>, feeRecipient: Address, rules: Rules, a: Address)
    requires Execute(accounts, txs, feeRecipient, rules).Ok? && forall tx :: tx in txs ==> tx.sender != a
    ensures var after := Execute(accounts, txs, feeRecipient, rules).value;
            && Get(after, a).nonce == Get(accounts, a).nonce
            && (rules.minFee >= 0 || a != feeRecipient ==> Get(after, a).balance >= Get(accounts, a).balance)
  {
    if txs != [] {
      var init, last := txs[..|txs| - 1], txs[|txs| - 1];
      assert txs == init + [last];
      OthersSpare(accounts, init, feeRecipient, rules, a);
      ExecutedAreGenuine(accounts, txs, feeRecipient, rules);
      TransferMeans(Execute(accounts, init, feeRecipient, rules).value, last, feeRecipient, a);
    }
  }

  /** An error in a prefix is the error of the whole batch. */
  lemma ExecutePrefix(accounts: Accounts, txs: seq<Transaction>, n: nat, feeRecipient: Address, rules: Rules)
    requires n <= |txs|
    requires Execute(accounts, txs[..n], feeRecipient, rules).Err?
    ensures Execute(accounts, txs, feeRecipient, rules) == Execute(accounts, txs[..n], feeRecipient, rules)
  {
    assert txs == txs[..n] + txs[n..];
    ExecuteAppend(accounts, txs[..n], txs[n..], feeRecipient, rules);
  }

  // ---- the in-memory simulation, with its aliased list entries ----

  /** One `[balance, nonce]` list; `owner` records which address it was made for. */
  class Entry {
    ghost const owner: Address
    var balance: int
    var nonce: int
    constructor (ghost owner: Address, balance: int, nonce: int)
      ensures this.owner == owner && this.balance == balance && this.nonce == nonce
    {
      this.owner, this.balance, this.nonce := owner, balance, nonce;
    }
  }

  /** The dictionary of lists stands for the table: one list per address, none shared. */
  ghost predicate Holds(working: map<Address, Entry>, accounts: Accounts)
    reads set a | a in working :: working[a]
  {
    && working.Keys == accounts.Keys
    && forall a :: a in working ==>
         working[a].owner == a && Account(working[a].balance, working[a].nonce) == accounts[a]
  }

  function Opened(accounts: Accounts, a: Address): Accounts {
    accounts[a := Get(accounts, a)]
  }

  /** `working.setdefault(a, [0, 0])` */
  method SetDefault(working: map<Address, Entry>, a: Address, ghost accounts: Accounts)
    returns (next: map<Address, Entry>, entry: Entry, ghost fuller: Accounts)
    requires Holds(working, accounts)
    ensures fuller == Opened(accounts, a) && Holds(next, fuller) && entry == next[a]
    ensures forall b :: b in working ==> next[b] == working[b]
    ensures forall b :: b in next ==> b in working || fresh(next[b])
  {
    fuller := Opened(accounts, a);
    if a in working {
      next, entry := working, working[a];
    } else {
      entry := new Entry(a, 0, 0);
      next := working[a := entry];
    }
  }

  /** `entry[0] += amount; entry[1] += bump`, through whichever name the list is reached by. */
  method Add(ghost working: map<Address, Entry>, ghost accounts: Accounts, ghost a: Address, entry: Entry, amount: int, bump: int)
    requires Holds(working, accounts) && a in working && working[a] == entry
    modifies entry
    ensures Holds(working, Credit(accounts, a, amount, bump))
  {
    entry.balance := entry.balance + amount;
    entry.nonce := entry.nonce + bump;
  }

  lemma OpeningChangesNothing(accounts: Accounts, tx: Transaction, feeRecipient: Address)
    ensures Get(Opened(Opened(Opened(accounts, tx.sender), tx.recipient), feeRecipient), tx.sender) == Get(accounts, tx.sender)
    ensures Transfer(Opened(Opened(Opened(accounts, tx.sender), tx.recipient), feeRecipient), tx, feeRecipient)
            == Transfer(accounts, tx, feeRecipient)
  {
    var fuller := Opened(Opened(Opened(accounts, tx.sender), tx.recipient), feeRecipient);
    assert forall a :: Get(fuller, a) == Get(accounts, a);
    assert Transfer(fuller, tx, feeRecipient).Keys == Transfer(accounts, tx, feeRecipient).Keys;
  }

  method CopyState(state: Accounts) returns (working: map<Address, Entry>)
    ensures Holds(working, state)
    ensures forall a :: a in working ==> fresh(working[a])
  {
    working := map[];
    var todo := state.Keys;
    while todo != {}
      invariant todo <= state.Keys
      invariant Holds(working, map a | a in state && a !in todo :: state[a])
      invariant forall a :: a in working ==> fresh(working[a])
      decreases |todo|
    {
      var a :| a in todo;
      var entry := new Entry(a, state[a].balance, state[a].nonce);
      working := working[a := entry];
      todo := todo - {a};
    }
    assert (map a | a in state && a !in todo :: state[a]) == state;
  }

  function OpenedThree(accounts: Accounts, a: Address, b: Address, c: Address): Accounts {
    Opened(Opened(Opened(accounts, a), b), c)
  }

  method OpenEntries(working: map<Address, Entry>, ghost accounts: Accounts, a: Address, b: Address, c: Address)
    returns (next: map<Address, Entry>, first: Entry, second: Entry, third: Entry)
    requires Holds(working, accounts)
    ensures Holds(next, OpenedThree(accounts, a, b, c)) && a in next && b in next && c in next
    ensures first == next[a] && second == next[b] && third == next[c]
    ensures forall d :: d in next ==> (d in working && next[d] == working[d]) || fresh(next[d])
  {
    var one, two;
    ghost var openedOne, openedTwo, openedThree;
    one, first, openedOne := SetDefault(working, a, accounts);
    two, second, openedTwo := SetDefault(one, b, openedOne);
    next, third, openedThree := SetDefault(two, c, openedTwo);
  }

  /** The four in-place updates; the three names may reach one object. */
  method MoveFunds(ghost working: map<Address, Entry>, ghost accounts: Accounts, tx: Transaction, ghost feeRecipient: Address,
                   sender: Entry, recipient: Entry, fees: Entry)
    requires Holds(working, accounts)
    requires tx.sender in working && tx.recipient in working && feeRecipient in working
    requires sender == working[tx.sender] && recipient == working[tx.recipient] && fees == working[feeRecipient]
    modifies sender, recipient, fees
    ensures Holds(working, Transfer(accounts, tx, feeRecipient))
  {
    ghost var paid := Credit(accounts, tx.sender, -(tx.amount + tx.fee), 1);
    Add(working, accounts, tx.sender, sender, -(tx.amount + tx.fee), 1);
    Add(working, paid, tx.recipient, recipient, tx.amount, 0);
    Add(working, Credit(paid, tx.recipient, tx.amount, 0), feeRecipient, fees, tx.fee, 0);
  }

  /** One iteration of the loop. */
  method SimulateOne(working: map<Address, Entry>, ghost accounts: Accounts, tx: Transaction, feeRecipient: Address, rules: Rules)
    returns (next: map<Address, Entry>, error: Option<TxError>)
    requires Holds(working, accounts)
    modifies set a | a in working :: working[a]
    ensures match ApplyTx(accounts, tx, feeRecipient, rules)
            case Err(e) => error == Some(e)
            case Ok(after) => error == None && Holds(next, after)
    ensures forall a :: a in next ==> (a in working && next[a] == working[a]) || fresh(next[a])
  {
    if !FieldsOk(tx, rules) { return working, Some(InvalidFields); }
    var sender, recipient, fees;
    next, sender, recipient, fees := OpenEntries(working, accounts, tx.sender, tx.recipient, feeRecipient);
    ghost var fuller := OpenedThree(accounts, tx.sender, tx.recipient, feeRecipient);
    OpeningChangesNothing(accounts, tx, feeRecipient);
    assert Account(sender.balance, sender.nonce) == fuller[tx.sender] == Get(fuller, tx.sender);
    if tx.nonce != sender.nonce + 1 { return next, Some(BadNonce); }
    if sender.balance < tx.amount + tx.fee { return next, Some(InsufficientBalance); }
    MoveFunds(next, fuller, tx, feeRecipient, sender, recipient, fees);
    error := None;
  }

  function ReadOut(working: map<Address, Entry>, ghost accounts: Accounts): (table: Accounts)
    requires Holds(working, accounts)
    reads set a | a in working :: working[a]
    ensures table == accounts
  {
    map a | a in working :: Account(working[a].balance, working[a].nonce)
  }

  lemma ExecuteNext(state: Accounts, txs: seq<Transaction>, i: nat, accounts: Accounts, feeRecipient: Address, rules: Rules)
    requires i < |txs| && Execute(state, txs[..i], feeRecipient, rules) == Ok(accounts)
    ensures Execute(state, txs[..i + 1], feeRecipient, rules) == ApplyTx(accounts, txs[i], feeRecipient, rules)
  {
    ExecuteSnoc(state, txs[..i], txs[i], feeRecipient, rules);
    assert txs[..i + 1] == txs[..i] + [txs[i]];
  }

  /** Simulation over shared mutable lists agrees with the batch meaning, errors included. */
  method Simulate(state: Accounts, txs: seq<Transaction>, feeRecipient: Address, rules: Rules) returns (r: Result<Accounts, TxError>)
    ensures r == Execute(state, txs, feeRecipient, rules)
  {
    var working := CopyState(state);
    ghost var accounts := state;
    var i := 0;
    while i < |txs|
      invariant 0 <= i <= |txs|
      invariant Holds(working, accounts) && forall a :: a in working ==> fresh(working[a])
      invariant Execute(state, txs[..i], feeRecipient, rules) == Ok(accounts)
    {
      ExecuteNext(state, txs, i, accounts, feeRecipient, rules);
      var error;
      working, error := SimulateOne(working, accounts, txs[i], feeRecipient, rules);
      if error.Some? {
        ExecutePrefix(state, txs, i + 1, feeRecipient, rules);
        return Err(error.value);
      }
      accounts := ApplyTx(accounts, txs[i], feeRecipient, rules).value;
      i := i + 1;
    }
    assert txs[..i] == txs;
    r := Ok(ReadOut(working, accounts));
  }
}
