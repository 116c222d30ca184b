/** Wire-level values shared by every component: transactions, accounts, digests. */
module Models {

  datatype Option<+T> = None | Some(value: T)

  datatype Result<+T, +E> = Ok(value: T) | Err(error: E)

  datatype Address = Address(text: string)

  datatype Account = Account(balance: int, nonce: int)

  /** The `accounts` table, keyed by address. */
  type Accounts = map<Address, Account>

  /** A signed transfer. `authentic` is the verdict of `Transaction.verify_signature`,
      which depends on nothing but the transaction itself. */
  datatype Transaction = Transaction(
    chainId: string,
    sender: Address,
    recipient: Address,
    amount: int,
    fee: int,
    nonce: int,
    memo: string,
    signature: string,
    authentic: bool)

  /** SHA-256 over canonical JSON, as a free (hence injective) constructor per kind of preimage. */
  datatype Digest =
    | ZeroHash                                   // "0" * 64
    | EmptyHash                                  // the hash of no bytes
    | TxId(tx: Transaction)
    | PairHash(left: Digest, right: Digest)
    | StateRoot(accounts: Accounts)
    | BlockHash(header: Header)

  /** Everything a block hash covers; the vote and view-change lists are outside it. */
  datatype Header = Header(
    chainId: string,
    height: int,
    previousHash: Digest,
    timestamp: int,
    proposer: Address,
    transactions: seq<Transaction>,
    txRoot: Digest,
    stateRoot: Digest,
    round: int,
    signature: string)

  function TxIds(txs: seq<Transaction>): (ids: seq<Digest>)
    ensures |ids| == |txs|
    ensures forall i :: 0 <= i < |txs| ==> ids[i] == TxId(txs[i])
  {
    seq(|txs|, i requires 0 <= i < |txs| => TxId(txs[i]))
  }

  lemma TxIdsInjective(a: seq<Transaction>, b: seq<Transaction>)
    requires TxIds(a) == TxIds(b)
    ensures a == b
  {
    assert |a| == |TxIds(a)| == |b|;
    forall i | 0 <= i < |a| ensures a[i] == b[i] {
      assert TxIds(a)[i] == TxId(a[i]) && TxIds(b)[i] == TxId(b[i]);
    }
  }

  /** No two entries coincide; the duplicate check on transaction identifiers. */
  ghost predicate Distinct<T>(xs: seq<T>) {
    forall i, j :: 0 <= i < j < |xs| ==> xs[i] != xs[j]
  }

  lemma SubsetSmaller<T>(a: set<T>, b: set<T>)
    requires a <= b
    ensures |a| <= |b|
  {
    assert b == a + (b - a);
  }

  /** Some value of a set. */
  ghost function Pick<T>(s: set<T>): (x: T)
    requires s != {}
    ensures x in s
  {
    var x :| x in s; x
  }
}
