/** A round in which enough honest validators receive the proposal and each other's votes finalizes it. */
module Progress {
  import opened Models
  import opened Execution
  import opened Blocks
  import opened Chain
  import opened Consensus
  import opened Network
  import opened Handlers
  import opened Revoting
  import Merkle

  function DoAll(g: Genesis, net: Net, steps: seq<Step>): Net
    requires g.validators != []
  {
    if steps == [] then net else Do(g, DoAll(g, net, steps[..|steps| - 1]), steps[|steps| - 1])
  }

  lemma DoSnoc(g: Genesis, net: Net, steps: seq<Step>, step: Step)
    requires g.validators != []
    ensures DoAll(g, net, steps + [step]) == Do(g, DoAll(g, net, steps), step)
  {
    assert (steps + [step])[..|steps|] == steps;
  }

  lemma {:induction false} DoAppend(g: Genesis, net: Net, one: seq<Step>, other: seq<Step>)
    requires g.validators != []
    ensures DoAll(g, net, one + other) == DoAll(g, DoAll(g, net, one), other)
  {
    if other == [] { assert one + other == one; }
    else {
      var init, last := other[..|other| - 1], other[|other| - 1];
      DoAppend(g, net, one, init);
      DoSnoc(g, net, one + init, last);
      DoSnoc(g, DoAll(g, net, one), init, last);
      assert one + other == one + init + [last] && other == init + [last];
    }
  }

  lemma {:induction false} RunAppend(g: Genesis, honest: set<Address>, steps: seq<Step>, more: seq<Step>)
    requires g.validators != []
    ensures Run(g, honest, steps + more) == DoAll(g, Run(g, honest, steps), more)
  {
    if more == [] { assert steps + more == steps; }
    else {
      var init, last := more[..|more| - 1], more[|more| - 1];
      RunAppend(g, honest, steps, init);
      assert (steps + more)[..|steps + more| - 1] == steps + init && (steps + more)[|steps + more| - 1] == last;
    }
  }

  // ---- one vote ----

  /** The node can vote for this proposal in either phase: it is within reach, and nothing the node holds speaks
      against it. */
  ghost predicate Willing(g: Genesis, signed: set<Message>, s: NodeState, block: Block)
    requires g.validators != []
  {
    InReach(g, signed, s, block) && Bound(s, block.header, Prevote) && Bound(s, block.header, Precommit)
  }

  lemma InReachGrows(g: Genesis, signed: set<Message>, more: set<Message>, s: NodeState, block: Block)
    requires g.validators != [] && signed <= more && InReach(g, signed, s, block)
    ensures InReach(g, more, s, block)
  {
    ExtendsGrows(g, signed, more, s, s, block);
  }

  lemma BoundAfter(p: NodeState, h: Header, phase: Phase, t: NodeState)
    requires Bound(p, h, Prevote) && Bound(p, h, Precommit)
    requires t == p.(votes := p.votes[(h.height, h.round, phase) := BlockHash(h)],
                     locks := if phase == Precommit && (h.height in p.locks ==> h.round > p.locks[h.height].round)
                              then p.locks[h.height := Lock(h.round, BlockHash(h))] else p.locks)
    ensures Bound(t, h, Prevote) && Bound(t, h, Precommit)
  {
  }

  lemma PreparedBound(g: Genesis, signed: set<Message>, s: NodeState, block: Block)
    requires g.validators != [] && Willing(g, signed, s, block)
    ensures var p := Prepare(g, signed, s, block).0;
            && p.chain == s.chain && p.accounts == s.accounts && OpenRound(p) == block.header.round
            && Bound(p, block.header, Prevote) && Bound(p, block.header, Precommit)
  {
    PrepareLeaves(g, signed, s, block);
  }

  lemma StaysWilling(g: Genesis, signed: set<Message>, s: NodeState, t: NodeState, block: Block)
    requires g.validators != [] && Extends(g, signed, s, block) && t.chain == s.chain && t.accounts == s.accounts
    requires OpenRound(t) == block.header.round && Bound(t, block.header, Prevote) && Bound(t, block.header, Precommit)
    ensures Willing(g, signed, t, block)
  {
    ExtendsGrows(g, signed, signed, s, t, block);
  }

  lemma RecordsKeepPlace(p: NodeState, t: NodeState)
    requires t == p.(votes := t.votes, locks := t.locks)
    ensures t.chain == p.chain && t.accounts == p.accounts && OpenRound(t) == OpenRound(p)
  {
  }

  /** A willing node that sees what the phase needs releases its vote, and stays willing. */
  lemma WillingVotes(g: Genesis, signed: set<Message>, s: NodeState, block: Block, phase: Phase, self: Address)
    requires g.validators != [] && Willing(g, signed, s, block)
    requires phase == Precommit ==> VoteQuorum(g, signed, block.header, Prevote, block.prevotes)
    ensures SignVote(g, signed, s, block, phase, self).1 == Some(VoteFor(g, block.header, phase, self))
    ensures SignVote(g, signed, s, block, phase, self).0.chain == s.chain
    ensures Willing(g, signed, SignVote(g, signed, s, block, phase, self).0, block)
  {
    BoundVotes(g, signed, s, block, phase, self);
    VotedStays(g, signed, s, block, phase, self);
  }

  lemma VotedStays(g: Genesis, signed: set<Message>, s: NodeState, block: Block, phase: Phase, self: Address)
    requires g.validators != [] && Willing(g, signed, s, block) && SignVote(g, signed, s, block, phase, self).1.Some?
    ensures SignVote(g, signed, s, block, phase, self).0.chain == s.chain
    ensures Willing(g, signed, SignVote(g, signed, s, block, phase, self).0, block)
  {
    var p, t := Prepare(g, signed, s, block).0, SignVote(g, signed, s, block, phase, self).0;
    SignVoteLeaves(g, signed, s, block, phase, self);
    PreparedBound(g, signed, s, block);
    BoundAfter(p, block.header, phase, t);
    RecordsKeepPlace(p, t);
    StaysWilling(g, signed, s, t, block);
  }

  // ---- everyone's vote ----

  /** These validators are there, at this chain, and willing. */
  ghost predicate AllWilling(g: Genesis, net: Net, vs: seq<Address>, block: Block, chain: seq<Block>)
    requires g.validators != []
  {
    forall v :: v in vs ==> v in net.nodes && net.nodes[v].chain == chain && Willing(g, net.signed, net.nodes[v], block)
  }

  ghost predicate Voted(g: Genesis, net: Net, vs: seq<Address>, h: Header, phase: Phase) {
    forall v :: v in vs ==> VoteMsg(VoteFor(g, h, phase, v)) in net.signed
  }

  lemma VoteStep(g: Genesis, net: Net, vs: seq<Address>, v: Address, block: Block, phase: Phase, chain: seq<Block>)
    requires g.validators != [] && AllWilling(g, net, vs, block, chain) && v in vs
    requires phase == Precommit ==> VoteQuorum(g, net.signed, block.header, Prevote, block.prevotes)
    ensures var after := Do(g, net, Vote(v, block, phase));
            && AllWilling(g, after, vs, block, chain) && net.signed <= after.signed
            && VoteMsg(VoteFor(g, block.header, phase, v)) in after.signed
  {
    var after := Do(g, net, Vote(v, block, phase));
    WillingVotes(g, net.signed, net.nodes[v], block, phase, v);
    forall u | u in vs ensures u in after.nodes && after.nodes[u].chain == chain && Willing(g, after.signed, after.nodes[u], block) {
      InReachGrows(g, net.signed, after.signed, after.nodes[u], block);
    }
  }

  lemma QuorumGrows(g: Genesis, signed: set<Message>, more: set<Message>, h: Header, phase: Phase, votes: seq<PhaseVote>)
    requires signed <= more && VoteQuorum(g, signed, h, phase, votes)
    ensures VoteQuorum(g, more, h, phase, votes)
  {
  }

  lemma {:induction false} EveryoneVotes(g: Genesis, net: Net, vs: seq<Address>, n: nat, block: Block, phase: Phase, chain: seq<Block>)
    returns (steps: seq<Step>, after: Net)
    requires g.validators != [] && AllWilling(g, net, vs, block, chain) && n <= |vs|
    requires phase == Precommit ==> VoteQuorum(g, net.signed, block.header, Prevote, block.prevotes)
    ensures after == DoAll(g, net, steps) && AllWilling(g, after, vs, block, chain) && net.signed <= after.signed
    ensures Voted(g, after, vs[..n], block.header, phase)
  {
    steps, after := [], net;
    if n > 0 {
      steps, after := EveryoneVotes(g, net, vs, n - 1, block, phase, chain);
      var v := vs[n - 1];
      if phase == Precommit { QuorumGrows(g, net.signed, after.signed, block.header, Prevote, block.prevotes); }
      VoteStep(g, after, vs, v, block, phase, chain);
      DoSnoc(g, net, steps, Vote(v, block, phase));
      var before := after;
      steps, after := steps + [Vote(v, block, phase)], Do(g, after, Vote(v, block, phase));
      forall u | u in vs[..n] ensures VoteMsg(VoteFor(g, block.header, phase, u)) in after.signed {
        if u != v { assert u in vs[..n - 1]; }
      }
    }
  }

  function VotesOf(g: Genesis, h: Header, phase: Phase, vs: seq<Address>): (votes: seq<PhaseVote>)
    ensures |votes| == |vs| && forall i :: 0 <= i < |vs| ==> votes[i] == VoteFor(g, h, phase, vs[i])
  {
    seq(|vs|, i requires 0 <= i < |vs| => VoteFor(g, h, phase, vs[i]))
  }

  /** Different validators, more than two thirds of them. */
  ghost predicate Enough(g: Genesis, vs: seq<Address>) {
    Distinct(vs) && 3 * |vs| > 2 * |g.validators| && forall v :: v in vs ==> v in g.validators
  }

  lemma VotesAreQuorum(g: Genesis, net: Net, h: Header, phase: Phase, vs: seq<Address>)
    requires Enough(g, vs) && Voted(g, net, vs, h, phase) && h.chainId == g.chainId
    ensures VoteQuorum(g, net.signed, h, phase, VotesOf(g, h, phase, vs))
  {
  }

  // ---- the whole round ----

  /** The proposal with the certificates a collector adds. */
  function WithVotes(g: Genesis, block: Block, vs: seq<Address>): Block {
    block.(prevotes := VotesOf(g, block.header, Prevote, vs), precommits := VotesOf(g, block.header, Precommit, vs))
  }

  lemma FinalizeStep(g: Genesis, net: Net, v: Address, block: Block)
    requires g.validators != [] && v in net.nodes && Finalizable(g, net.signed, net.nodes[v], block)
    ensures var after := Do(g, net, Finalize(v, block));
            && after.signed == net.signed && after.nodes.Keys == net.nodes.Keys && after.nodes[v].chain == net.nodes[v].chain + [block]
            && forall u :: u in net.nodes && u != v ==> after.nodes[u] == net.nodes[u]
  {
    AcceptIff(g, net.signed, net.nodes[v], block);
  }

  /** The first of these validators have finalized the block; the others are as they were. */
  ghost predicate HaveFinalized(net: Net, after: Net, vs: seq<Address>, n: nat, chain: seq<Block>)
    requires n <= |vs|
  {
    && after.signed == net.signed && after.nodes.Keys == net.nodes.Keys
    && (forall i :: 0 <= i < n ==> vs[i] in after.nodes && after.nodes[vs[i]].chain == chain)
    && (forall i :: n <= i < |vs| ==> vs[i] in after.nodes && vs[i] in net.nodes && after.nodes[vs[i]] == net.nodes[vs[i]])
  }

  lemma FinalizedNext(g: Genesis, net: Net, mid: Net, vs: seq<Address>, n: nat, block: Block, chain: seq<Block>)
    requires g.validators != [] && n < |vs| && Distinct(vs) && HaveFinalized(net, mid, vs, n, chain + [block])
    requires net.nodes[vs[n]].chain == chain && Finalizable(g, mid.signed, mid.nodes[vs[n]], block)
    ensures HaveFinalized(net, Do(g, mid, Finalize(vs[n], block)), vs, n + 1, chain + [block])
  {
    FinalizeStep(g, mid, vs[n], block);
    assert forall i :: 0 <= i < |vs| && i != n ==> vs[i] != vs[n];
  }

  lemma {:induction false} EveryoneFinalizes(g: Genesis, net: Net, vs: seq<Address>, n: nat, block: Block, chain: seq<Block>)
    returns (steps: seq<Step>, after: Net)
    requires g.validators != [] && AllWilling(g, net, vs, block, chain) && n <= |vs| && Distinct(vs)
    requires VoteQuorum(g, net.signed, block.header, Prevote, block.prevotes) && VoteQuorum(g, net.signed, block.header, Precommit, block.precommits)
    ensures after == DoAll(g, net, steps) && HaveFinalized(net, after, vs, n, chain + [block])
  {
    if n == 0 {
      steps, after := [], net;
      forall i | 0 <= i < |vs| ensures vs[i] in net.nodes { assert vs[i] in vs; }
    } else {
      var mid;
      steps, mid := EveryoneFinalizes(g, net, vs, n - 1, block, chain);
      var v := vs[n - 1];
      assert v in vs;
      FinalizedNext(g, net, mid, vs, n - 1, block, chain);
      DoSnoc(g, net, steps, Finalize(v, block));
      steps, after := steps + [Finalize(v, block)], Do(g, mid, Finalize(v, block));
    }
  }

  /** From any point of any run: if more than two thirds of the validators are honest nodes on one chain, within
      reach of a proposal and with nothing against it, then once each of them has voted for it in both phases
      on each other's votes, all of them finalize it. */
  lemma RoundFinalizes(g: Genesis, honest: set<Address>, steps: seq<Step>, vs: seq<Address>, block: Block, chain: seq<Block>)
    returns (more: seq<Step>, net: Net)
    requires g.validators != [] && Enough(g, vs) && AllWilling(g, Run(g, honest, steps), vs, block, chain)
    ensures net == Run(g, honest, steps + more)
    ensures forall v :: v in vs ==> v in net.nodes && net.nodes[v].chain == chain + [WithVotes(g, block, vs)]
  {
    var start := Run(g, honest, steps);
    assert vs != [] && vs[0] in vs;
    assert block.header.chainId == g.chainId;
    var first, mid := EveryoneVotes(g, start, vs, |vs|, block, Prevote, chain);
    assert vs[..|vs|] == vs;
    VotesAreQuorum(g, mid, block.header, Prevote, vs);
    var carried := block.(prevotes := VotesOf(g, block.header, Prevote, vs));
    SameWilling(g, mid, vs, block, carried, chain);
    var second, late := EveryoneVotes(g, mid, vs, |vs|, carried, Precommit, chain);
    VotesAreQuorum(g, late, block.header, Precommit, vs);
    QuorumGrows(g, mid.signed, late.signed, block.header, Prevote, carried.prevotes);
    SameWilling(g, late, vs, carried, WithVotes(g, block, vs), chain);
    var third, end := EveryoneFinalizes(g, late, vs, |vs|, WithVotes(g, block, vs), chain);
    DoAppend(g, start, first, second);
    DoAppend(g, start, first + second, third);
    more, net := first + second + third, end;
    RunAppend(g, honest, steps, more);
    forall v | v in vs ensures v in net.nodes && net.nodes[v].chain == chain + [WithVotes(g, block, vs)] {
      var i :| 0 <= i < |vs| && vs[i] == v;
    }
  }

  lemma SameWilling(g: Genesis, net: Net, vs: seq<Address>, block: Block, other: Block, chain: seq<Block>)
    requires g.validators != [] && AllWilling(g, net, vs, block, chain)
    requires other.header == block.header && other.viewChanges == block.viewChanges
    ensures AllWilling(g, net, vs, other, chain)
  {
  }

  function FirstHeader(g: Genesis, txs: seq<Transaction>, after: Accounts, timestamp: int, signature: string): Header
    requires g.validators != []
  {
    Header(g.chainId, 1, ZeroHash, timestamp, g.validators[0], txs, Merkle.Root(TxIds(txs)), StateRoot(after), 0, signature)
  }

  lemma FreshWilling(g: Genesis, signed: set<Message>, txs: seq<Transaction>, after: Accounts, timestamp: int, signature: string)
    requires g.validators != [] && Execute(GenesisAccounts(g), txs, g.validators[0], RulesOf(g)) == Ok(after)
    requires ProposalMsg(FirstHeader(g, txs, after, timestamp, signature)) in signed
    ensures Willing(g, signed, Fresh(g), Block(FirstHeader(g, txs, after, timestamp, signature), [], [], []))
  {
  }

  /** In particular every batch that executes on the genesis accounts can become the first block of all of them. */
  lemma FirstBlockFinalizes(g: Genesis, honest: set<Address>, vs: seq<Address>, txs: seq<Transaction>, timestamp: int, signature: string)
    returns (steps: seq<Step>, net: Net)
    requires g.validators != [] && Enough(g, vs) && (forall v :: v in vs ==> v in honest)
    requires Execute(GenesisAccounts(g), txs, g.validators[0], RulesOf(g)).Ok?
    ensures net == Run(g, honest, steps)
    ensures forall v :: v in vs ==> v in net.nodes && |net.nodes[v].chain| == 1 && net.nodes[v].chain[0].header.transactions == txs
  {
    var after := Execute(GenesisAccounts(g), txs, g.validators[0], RulesOf(g)).value;
    var h := FirstHeader(g, txs, after, timestamp, signature);
    var proposed := [Forge(ProposalMsg(h))];
    var start := Run(g, honest, proposed);
    RunAppend(g, honest, [], proposed);
    assert [] + proposed == proposed;
    DoSnoc(g, Start(g, honest), [], Forge(ProposalMsg(h)));
    FreshWilling(g, start.signed, txs, after, timestamp, signature);
    var more;
    more, net := RoundFinalizes(g, honest, proposed, vs, Block(h, [], [], []), []);
    steps := proposed + more;
  }
}
