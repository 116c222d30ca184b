/** Replaying a list of blocks from genesis: the reference meaning of a finalized chain. */
module Chain {
  import opened Models
  import opened Execution
  import opened Blocks

  function Tip(blocks: seq<Block>): Digest {
    if blocks == [] then ZeroHash else HashOf(blocks[|blocks| - 1])
  }

  predicate Finalized(g: Genesis, signed: set<Message>, block: Block) {
    && ChangeCertificate(g, signed, block.header, block.viewChanges)
    && PhaseCertificate(g, signed, block.header, Prevote, block.prevotes)
    && PhaseCertificate(g, signed, block.header, Precommit, block.precommits)
  }

  /** One block on top of `accounts` and `tip`. */
  function ReplayBlock(g: Genesis, signed: set<Message>, accounts: Accounts, height: int, tip: Digest, block: Block): Option<Accounts>
    requires g.validators != []
  {
    if HeaderOk(g, signed, block.header, height, tip) && Finalized(g, signed, block)
    then ReplayTransactions(g, accounts, block.header)
    else None
  }

  /** The account table a chain leads to, or nothing if some block does not follow. */
  function Replay(g: Genesis, signed: set<Message>, blocks: seq<Block>): Option<Accounts>
    requires g.validators != []
  {
    if blocks == [] then Some(GenesisAccounts(g))
    else
      var init := blocks[..|blocks| - 1];
      match Replay(g, signed, init)
      case None => None
      case Some(mid) => ReplayBlock(g, signed, mid, |blocks|, Tip(init), blocks[|blocks| - 1])
  }

  lemma ReplaySnoc(g: Genesis, signed: set<Message>, blocks: seq<Block>, block: Block)
    requires g.validators != []
    ensures Replay(g, signed, blocks + [block])
            == match Replay(g, signed, blocks)
               case None => None
               case Some(mid) => ReplayBlock(g, signed, mid, |blocks| + 1, Tip(blocks), block)
  {
    assert (blocks + [block])[..|blocks|] == blocks;
  }

  /** What replaying says about the last block. */
  lemma ReplayLast(g: Genesis, signed: set<Message>, blocks: seq<Block>) returns (mid: Accounts)
    requires g.validators != [] && blocks != [] && Replay(g, signed, blocks).Some?
    ensures var init, last := blocks[..|blocks| - 1], blocks[|blocks| - 1];
            && Replay(g, signed, init) == Some(mid)
            && Finalized(g, signed, last)
            && last.header.height == |blocks|
            && last.header.previousHash == Tip(init)
            && Execute(mid, last.header.transactions, last.header.proposer, RulesOf(g)) == Ok(Replay(g, signed, blocks).value)
  {
    mid := Replay(g, signed, blocks[..|blocks| - 1]).value;
  }

  /** Every prefix of a chain that replays replays too. */
  lemma {:induction false} ReplayPrefix(g: Genesis, signed: set<Message>, blocks: seq<Block>, n: nat)
    requires g.validators != [] && n <= |blocks| && Replay(g, signed, blocks).Some?
    ensures Replay(g, signed, blocks[..n]).Some?
    decreases |blocks|
  {
    if n == |blocks| {
      assert blocks[..n] == blocks;
    } else {
      var init := blocks[..|blocks| - 1];
      assert blocks[..n] == init[..n];
      ReplayPrefix(g, signed, init, n);
    }
  }

  lemma ReplayAt(g: Genesis, signed: set<Message>, blocks: seq<Block>, i: nat)
    requires g.validators != [] && i < |blocks| && Replay(g, signed, blocks).Some?
    ensures Finalized(g, signed, blocks[i]) && blocks[i].header.height == i + 1
  {
    ReplayPrefix(g, signed, blocks, i + 1);
    var _ := ReplayLast(g, signed, blocks[..i + 1]);
  }

  /** The part of a chain its block hashes cover. */
  function Headers(blocks: seq<Block>): (headers: seq<Header>)
    ensures |headers| == |blocks|
    ensures forall i :: 0 <= i < |blocks| ==> headers[i] == blocks[i].header
  {
    if blocks == [] then [] else Headers(blocks[..|blocks| - 1]) + [blocks[|blocks| - 1].header]
  }

  /** More signatures never invalidate a chain. */
  lemma {:induction false} ReplayGrows(g: Genesis, signed: set<Message>, more: set<Message>, blocks: seq<Block>)
    requires g.validators != [] && signed <= more && Replay(g, signed, blocks).Some?
    ensures Replay(g, more, blocks) == Replay(g, signed, blocks)
  {
    if blocks != [] { ReplayGrows(g, signed, more, blocks[..|blocks| - 1]); }
  }

  lemma HeadersSplit(a: seq<Block>, b: seq<Block>)
    requires Headers(a) == Headers(b) && a != []
    ensures b != [] && Headers(a[..|a| - 1]) == Headers(b[..|b| - 1])
    ensures a[|a| - 1].header == b[|b| - 1].header
  {
    var n := |a| - 1;
    assert Headers(a)[..n] == Headers(a[..n]) && Headers(b)[..n] == Headers(b[..n]);
  }

  /** The state depends on the headers alone, not on which votes certify them. */
  lemma {:induction false} SameHeadersSameState(g: Genesis, signed: set<Message>, a: seq<Block>, b: seq<Block>)
    requires g.validators != [] && Replay(g, signed, a).Some? && Replay(g, signed, b).Some?
    requires Headers(a) == Headers(b)
    ensures Replay(g, signed, a) == Replay(g, signed, b)
  {
    if a != [] {
      HeadersSplit(a, b);
      var _ := ReplayLast(g, signed, a);
      var _ := ReplayLast(g, signed, b);
      SameHeadersSameState(g, signed, a[..|a| - 1], b[..|b| - 1]);
    }
  }

  /** Chains that replay and end in the same tip hash have the same headers, all the way down. */
  lemma {:induction false} SameTipSameHeaders(g: Genesis, signed: set<Message>, a: seq<Block>, b: seq<Block>)
    requires g.validators != [] && Replay(g, signed, a).Some? && Replay(g, signed, b).Some?
    requires Tip(a) == Tip(b)
    ensures Headers(a) == Headers(b)
  {
    if a != [] && b != [] {
      var _ := ReplayLast(g, signed, a);
      var _ := ReplayLast(g, signed, b);
      SameTipSameHeaders(g, signed, a[..|a| - 1], b[..|b| - 1]);
    }
  }

  /** A replayed chain holds exactly the genesis supply. */
  lemma {:induction false} ReplayConserves(g: Genesis, signed: set<Message>, blocks: seq<Block>)
    requires g.validators != [] && Replay(g, signed, blocks).Some?
    ensures Total(Replay(g, signed, blocks).value) == Total(GenesisAccounts(g))
  {
    if blocks != [] {
      var header := blocks[|blocks| - 1].header;
      var mid := ReplayLast(g, signed, blocks);
      ReplayConserves(g, signed, blocks[..|blocks| - 1]);
      ExecuteConserves(mid, header.transactions, header.proposer, RulesOf(g));
    }
  }

  lemma LastNonces(g: Genesis, signed: set<Message>, blocks: seq<Block>, tx: Transaction) returns (mid: Accounts)
    requires g.validators != [] && blocks != [] && Replay(g, signed, blocks).Some?
    ensures Replay(g, signed, blocks[..|blocks| - 1]) == Some(mid)
    ensures Get(mid, tx.sender).nonce <= Get(Replay(g, signed, blocks).value, tx.sender).nonce
    ensures tx in blocks[|blocks| - 1].header.transactions ==>
              Get(mid, tx.sender).nonce < tx.nonce <= Get(Replay(g, signed, blocks).value, tx.sender).nonce
    ensures Distinct(blocks[|blocks| - 1].header.transactions)
  {
    var header := blocks[|blocks| - 1].header;
    mid := ReplayLast(g, signed, blocks);
    ExecutedNonces(mid, header.transactions, header.proposer, RulesOf(g));
  }

  lemma {:induction false} ReplayNonces(g: Genesis, signed: set<Message>, blocks: seq<Block>, i: nat, tx: Transaction)
    requires g.validators != [] && Replay(g, signed, blocks).Some?
    requires i < |blocks| && tx in blocks[i].header.transactions
    ensures tx.nonce <= Get(Replay(g, signed, blocks).value, tx.sender).nonce
    decreases |blocks|
  {
    var init := blocks[..|blocks| - 1];
    var mid := LastNonces(g, signed, blocks, tx);
    if i < |init| {
      assert init[i] == blocks[i];
      assert tx.nonce <= Get(mid, tx.sender).nonce by { ReplayNonces(g, signed, init, i, tx); }
    } else {
      assert blocks[i] == blocks[|blocks| - 1];
    }
  }

  /** No transaction occurs twice in a chain that replays, neither in one block nor in two. */
  lemma ReplayNoRepeat(g: Genesis, signed: set<Message>, blocks: seq<Block>, i: nat, j: nat, tx: Transaction)
    requires g.validators != [] && Replay(g, signed, blocks).Some? && i <= j < |blocks|
    requires tx in blocks[i].header.transactions && tx in blocks[j].header.transactions
    ensures i == j && Distinct(blocks[i].header.transactions)
  {
    ReplayPrefix(g, signed, blocks, j + 1);
    var upTo := blocks[..j + 1];
    var mid := LastNonces(g, signed, upTo, tx);
    if i < j {
      assert upTo[..j][i] == blocks[i];
      ReplayNonces(g, signed, upTo[..j], i, tx);
    }
  }
}
