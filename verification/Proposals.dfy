/** Building a proposal, and collecting the votes that certify it. */
module Proposals {
  import opened Models
  import opened Execution
  import opened Blocks
  import opened Chain
  import opened Consensus
  import opened Network
  import Merkle
  import Mempool

  // ---- collecting votes ----

  ghost function Repliers(replies: seq<Option<PhaseVote>>): set<Address> {
    set i | 0 <= i < |replies| && replies[i].Some? :: replies[i].value.voter
  }

  /** A dictionary of votes by voter, in insertion order. */
  ghost predicate Ballot(g: Genesis, signed: set<Message>, header: Header, phase: Phase, votes: seq<PhaseVote>) {
    && (forall i :: 0 <= i < |votes| ==> VoteMatches(g, signed, header, phase, votes[i]))
    && (forall i, j :: 0 <= i < j < |votes| ==> votes[i].voter != votes[j].voter)
  }

  /** The vote collection of `collect_prevotes` and `collect_precommits`: `own` is the collector's
      vote, each reply is a vote that passed the peer checks, or nothing. */
  method CollectVotes(g: Genesis, signed: set<Message>, header: Header, phase: Phase, own: PhaseVote, replies: seq<Option<PhaseVote>>)
    returns (certificate: Option<seq<PhaseVote>>)
    requires VoteMatches(g, signed, header, phase, own)
    requires forall i :: 0 <= i < |replies| && replies[i].Some? ==> VoteMatches(g, signed, header, phase, replies[i].value)
    ensures certificate.Some? <==> |{own.voter} + Repliers(replies)| >= QuorumSize(g)
    ensures certificate.Some? ==> PhaseCertificate(g, signed, header, phase, certificate.value)
    ensures certificate.Some? ==> VoterSet(certificate.value) == {own.voter} + Repliers(replies)
  {
    var votes := [own];
    var voters := {own.voter};
    assert VoterSet(votes) == {own.voter} by { assert votes[0].voter == own.voter; }
    for i := 0 to |replies|
      invariant Ballot(g, signed, header, phase, votes)
      invariant voters == VoterSet(votes) == {own.voter} + Repliers(replies[..i])
    {
      RepliersSnoc(replies, i);
      if replies[i].Some? && replies[i].value.voter !in voters {
        forall k | 0 <= k < |votes| ensures votes[k].voter != replies[i].value.voter { assert votes[k].voter in VoterSet(votes); }
        VotersSnoc(votes, replies[i].value);
        votes := votes + [replies[i].value];
        voters := voters + {replies[i].value.voter};
      }
    }
    assert replies[..|replies|] == replies;
    DistinctVotersCount(votes);
    certificate := if |votes| < QuorumSize(g) then None else Some(votes);
  }

  lemma VotersSnoc(votes: seq<PhaseVote>, vote: PhaseVote)
    ensures VoterSet(votes + [vote]) == VoterSet(votes) + {vote.voter}
  {
    var all := votes + [vote];
    forall a | a in VoterSet(votes) + {vote.voter} ensures a in VoterSet(all) {
      if a == vote.voter { assert all[|votes|].voter == a; }
      else {
        var i :| 0 <= i < |votes| && votes[i].voter == a;
        assert all[i].voter == a;
      }
    }
  }

  lemma RepliersSnoc(replies: seq<Option<PhaseVote>>, i: nat)
    requires i < |replies|
    ensures Repliers(replies[..i + 1]) == Repliers(replies[..i]) + if replies[i].Some? then {replies[i].value.voter} else {}
  {
    var upTo := replies[..i + 1];
    forall a | a in Repliers(replies[..i]) ensures a in Repliers(upTo) {
      var k :| 0 <= k < i && replies[..i][k].Some? && replies[..i][k].value.voter == a;
      assert upTo[k].Some? && upTo[k].value.voter == a;
    }
    forall a | a in Repliers(upTo) ensures a in Repliers(replies[..i]) || (replies[i].Some? && a == replies[i].value.voter) {
      var k :| 0 <= k < i + 1 && upTo[k].Some? && upTo[k].value.voter == a;
      if k < i { assert replies[..i][k].Some? && replies[..i][k].value.voter == a; }
    }
    if replies[i].Some? { assert upTo[i].Some? && upTo[i].value.voter == replies[i].value.voter; }
  }

  // ---- building a block ----

  /** `build_block`, for transactions already selected; the node is synchronized first. */
  function BuildBlock(g: Genesis, s: NodeState, self: Address, round: int, txs: seq<Transaction>, timestamp: int, signature: string): Option<Block>
    requires g.validators != []
  {
    var t := Sync(s);
    var height := t.Height() + 1;
    if round < 0 || ProposerFor(g, height, round) != self then None
    else
      var changes := if round > 0 && (height, round) in t.certificates then t.certificates[(height, round)] else [];
      if round > 0 && |changes| < QuorumSize(g) then None
      else
        match Execute(t.accounts, txs, self, RulesOf(g))
        case Err(_) => None
        case Ok(after) =>
          Some(Block(Header(g.chainId, height, t.LastHash(), timestamp, self, txs, Merkle.Root(TxIds(txs)), StateRoot(after), round, signature),
                     changes, [], []))
  }

  /** Every certificate a node keeps is one for its height and round. */
  ghost predicate CertificatesOk(g: Genesis, signed: set<Message>, s: NodeState) {
    AllCollected(g, signed, s.certificates)
  }

  ghost predicate AllCollected(g: Genesis, signed: set<Message>, certificates: map<(int, int), seq<ViewChange>>) {
    forall k :: k in certificates ==> Collected(g, signed, k.0, k.1 - 1, certificates[k])
  }

  lemma OneMoreCollected(g: Genesis, signed: set<Message>, certificates: map<(int, int), seq<ViewChange>>, height: int, round: int, changes: seq<ViewChange>)
    requires AllCollected(g, signed, certificates) && Collected(g, signed, height, round - 1, changes)
    ensures AllCollected(g, signed, certificates[(height, round) := changes])
  {
  }

  lemma CertificatesGrow(g: Genesis, signed: set<Message>, more: set<Message>, s: NodeState)
    requires signed <= more && CertificatesOk(g, signed, s)
    ensures CertificatesOk(g, more, s)
  {
    forall k | k in s.certificates ensures Collected(g, more, k.0, k.1 - 1, s.certificates[k]) {
      assert Collected(g, signed, k.0, k.1 - 1, s.certificates[k]);
    }
  }

  lemma EnteredCertificates(s: NodeState, block: Block)
    requires s.roundHeight == s.Height() + 1
    ensures EnterRound(s, block).certificates
            == if block.header.round > s.currentRound then s.certificates[(block.header.height, block.header.round) := block.viewChanges]
               else s.certificates
  {
  }

  /** A proposal acceptable in a later round brings the certificate for it. */
  lemma AcceptableBrings(g: Genesis, signed: set<Message>, s: NodeState, block: Block)
    requires g.validators != [] && s.currentRound >= 0 && RoundAcceptable(g, signed, s, block) && block.header.round > s.currentRound
    ensures Collected(g, signed, block.header.height, block.header.round - 1, block.viewChanges)
  {
  }

  lemma EnterKeepsCertificates(g: Genesis, signed: set<Message>, s: NodeState, block: Block)
    requires g.validators != [] && Shape(g, signed, s) && CertificatesOk(g, signed, s) && RoundAcceptable(g, signed, s, block)
    ensures CertificatesOk(g, signed, EnterRound(s, block))
  {
    EnteredCertificates(s, block);
    if block.header.round > s.currentRound {
      AcceptableBrings(g, signed, s, block);
      OneMoreCollected(g, signed, s.certificates, block.header.height, block.header.round, block.viewChanges);
    }
  }

  lemma PrepareKeepsCertificates(g: Genesis, signed: set<Message>, s: NodeState, block: Block)
    requires g.validators != [] && Shape(g, signed, s) && CertificatesOk(g, signed, s)
    ensures CertificatesOk(g, signed, Prepare(g, signed, s, block).0)
  {
    if RoundAcceptable(g, signed, s, block) { EnterKeepsCertificates(g, signed, s, block); }
    PrepareCertificates(g, signed, s, block);
  }

  lemma PrepareCertificates(g: Genesis, signed: set<Message>, s: NodeState, block: Block)
    requires g.validators != [] && s.roundHeight == s.Height() + 1
    ensures Prepare(g, signed, s, block).0.certificates
            == if RoundAcceptable(g, signed, s, block) then EnterRound(s, block).certificates else s.certificates
  {
  }

  lemma VoteKeepsCertificates(g: Genesis, signed: set<Message>, s: NodeState, block: Block, phase: Phase, self: Address)
    requires g.validators != [] && Shape(g, signed, s) && CertificatesOk(g, signed, s)
    ensures CertificatesOk(g, signed, SignVote(g, signed, s, block, phase, self).0)
  {
    PrepareKeepsCertificates(g, signed, s, block);
    VoteCertificates(g, signed, s, block, phase, self);
  }

  lemma RecordsKeepCertificates(s: NodeState, h: Header, phase: Phase)
    ensures RecordVote(s, h, phase).certificates == s.certificates && RecordLock(s, h).certificates == s.certificates
  {
  }

  lemma VoteCertificates(g: Genesis, signed: set<Message>, s: NodeState, block: Block, phase: Phase, self: Address)
    requires g.validators != []
    ensures SignVote(g, signed, s, block, phase, self).0.certificates == Prepare(g, signed, s, block).0.certificates
  {
    var t := Prepare(g, signed, s, block).0;
    RecordsKeepCertificates(t, block.header, phase);
    RecordsKeepCertificates(RecordVote(t, block.header, phase), block.header, phase);
  }

  lemma FinishKeepsCertificates(g: Genesis, signed: set<Message>, s: NodeState, height: int, fromRound: int, changes: seq<ViewChange>)
    requires CertificatesOk(g, signed, s)
    ensures CertificatesOk(g, signed, FinishChange(g, signed, s, height, fromRound, changes))
  {
    if Collected(g, signed, height, fromRound, changes) {
      OneMoreCollected(g, signed, s.certificates, height, fromRound + 1, changes);
      SetRoundCertificates(s.(certificates := s.certificates[(height, fromRound + 1) := changes]), fromRound + 1);
    }
  }

  lemma SetRoundCertificates(s: NodeState, round: int)
    ensures SetRound(s, round).certificates == s.certificates
  {
    var t := Sync(s);
    SyncCertificates(s);
    RecordCertificates(t, t.roundHeight, round);
  }

  lemma SyncCertificates(s: NodeState)
    ensures Sync(s).certificates == s.certificates
  {
  }

  lemma RecordCertificates(s: NodeState, height: int, round: int)
    ensures RecordRound(s, height, round).certificates == s.certificates
  {
  }

  lemma StepKeepsCertificates(g: Genesis, net: Net, step: Step, v: Address)
    requires g.validators != [] && v in net.nodes && NodeInv(g, net.signed, v, net.nodes[v])
    requires CertificatesOk(g, net.signed, net.nodes[v]) && !step.Forge? && step.v == v
    ensures v in Do(g, net, step).nodes && CertificatesOk(g, net.signed, Do(g, net, step).nodes[v])
  {
    var s := net.nodes[v];
    match step {
      case Vote(_, block, phase) => VoteKeepsCertificates(g, net.signed, s, block, phase, v);
      case CrashedVote(_, block, phase, point) =>
      case AskChange(_, height, fromRound, toRound, timedOut) =>
      case EndCollecting(_, height, fromRound, changes) => FinishKeepsCertificates(g, net.signed, s, height, fromRound, changes);
      case Finalize(_, block) =>
      case CrashedFinalize(_, block) =>
      case Reboot(_) =>
    }
  }

  lemma {:induction false} RunCertificates(g: Genesis, honest: set<Address>, steps: seq<Step>, v: Address)
    requires g.validators != [] && v in honest
    ensures v in Run(g, honest, steps).nodes
    ensures CertificatesOk(g, Run(g, honest, steps).signed, Run(g, honest, steps).nodes[v])
  {
    if steps != [] {
      var init, last := steps[..|steps| - 1], steps[|steps| - 1];
      var net := Run(g, honest, init);
      RunCertificates(g, honest, init, v);
      RunNode(g, honest, init, v);
      StepKeepsNodes(g, net, last);
      if !last.Forge? && last.v == v { StepKeepsCertificates(g, net, last, v); }
      CertificatesGrow(g, net.signed, Do(g, net, last).signed, Do(g, net, last).nodes[v]);
    }
  }

  /** A built block passes the builder's own validation. */
  lemma BuiltIsValid(g: Genesis, signed: set<Message>, s: NodeState, self: Address, round: int, txs: seq<Transaction>, timestamp: int, signature: string)
    requires g.validators != [] && CertificatesOk(g, signed, s) && s.roundHeight == s.Height() + 1
    requires BuildBlock(g, s, self, round, txs, timestamp, signature).Some?
    ensures var block := BuildBlock(g, s, self, round, txs, timestamp, signature).value;
            ValidProposal(g, signed + {ProposalMsg(block.header)}, s, block)
  {
    var block := BuildBlock(g, s, self, round, txs, timestamp, signature).value;
    var more := signed + {ProposalMsg(block.header)};
    if round > 0 { assert Collected(g, signed, block.header.height, round - 1, block.viewChanges); }
    assert ChangeCertificate(g, more, block.header, block.viewChanges);
  }

  lemma SyncedSame(s: NodeState)
    ensures Sync(s).chain == s.chain && Sync(s).accounts == s.accounts && Sync(s).certificates == s.certificates
  {
  }

  /** A block is built exactly on the validator's turn, for transactions that execute, and with the kept
      certificate of a round above 0. */
  lemma BuildIff(g: Genesis, s: NodeState, self: Address, round: int, txs: seq<Transaction>, timestamp: int, signature: string)
    requires g.validators != []
    ensures var height := |s.chain| + 1;
            BuildBlock(g, s, self, round, txs, timestamp, signature).Some?
            <==> && round >= 0 && g.validators[(|s.chain| + round) % |g.validators|] == self
                 && Execute(s.accounts, txs, self, Rules(g.chainId, g.minFee)).Ok?
                 && (round > 0 ==> (height, round) in s.certificates && 3 * |s.certificates[(height, round)]| > 2 * |g.validators|)
  {
    SyncedSame(s);
  }

  /** It is for the open height, names its builder, and holds what was asked for. */
  lemma BuiltHolds(g: Genesis, s: NodeState, self: Address, round: int, txs: seq<Transaction>, timestamp: int, signature: string)
    requires g.validators != [] && BuildBlock(g, s, self, round, txs, timestamp, signature).Some?
    ensures var block := BuildBlock(g, s, self, round, txs, timestamp, signature).value; var h := block.header;
            && h.chainId == g.chainId && h.height == |s.chain| + 1 && h.round == round && h.proposer == self
            && h.previousHash == (if s.chain == [] then ZeroHash else BlockHash(s.chain[|s.chain| - 1].header))
            && h.transactions == txs && h.timestamp == timestamp && h.signature == signature
            && block.viewChanges == (if round > 0 then s.certificates[(|s.chain| + 1, round)] else [])
            && block.prevotes == block.precommits == []
  {
    SyncedSame(s);
    var block := BuildBlock(g, s, self, round, txs, timestamp, signature).value;
    assert block.header.previousHash == Tip(s.chain);
  }

  lemma BuiltCommits(g: Genesis, s: NodeState, self: Address, round: int, txs: seq<Transaction>, timestamp: int, signature: string)
    requires g.validators != [] && BuildBlock(g, s, self, round, txs, timestamp, signature).Some?
    ensures var h := BuildBlock(g, s, self, round, txs, timestamp, signature).value.header;
            && h.stateRoot.StateRoot? && Execute(s.accounts, txs, self, Rules(g.chainId, g.minFee)) == Ok(h.stateRoot.accounts)
            && h.txRoot == Merkle.Root(TxIds(txs))
  {
  }

  lemma SameLedgerSameVerdict(g: Genesis, signed: set<Message>, s: NodeState, t: NodeState, block: Block)
    requires g.validators != [] && s.Height() == t.Height() && s.LastHash() == t.LastHash() && s.accounts == t.accounts
    ensures ValidProposal(g, signed, s, block) == ValidProposal(g, signed, t, block)
  {
  }

  lemma SameHeadersSameTip(one: seq<Block>, other: seq<Block>)
    requires Headers(one) == Headers(other)
    ensures |one| == |other| && Tip(one) == Tip(other)
  {
    assert |Headers(one)| == |Headers(other)|;
    if one != [] { assert Headers(one)[|one| - 1] == Headers(other)[|one| - 1]; }
  }

  /** In every run, a block an honest validator builds is a valid proposal to every honest validator
      at the same height. */
  lemma HonestProposalsAreValid(g: Genesis, honest: set<Address>, steps: seq<Step>, u: Address, v: Address,
                                round: int, txs: seq<Transaction>, timestamp: int, signature: string)
    requires Setting(g, honest) && u in honest && v in honest
    requires u in Run(g, honest, steps).nodes && v in Run(g, honest, steps).nodes
    requires Run(g, honest, steps).nodes[u].Height() == Run(g, honest, steps).nodes[v].Height()
    requires BuildBlock(g, Run(g, honest, steps).nodes[u], u, round, txs, timestamp, signature).Some?
    ensures var net := Run(g, honest, steps); var block := BuildBlock(g, net.nodes[u], u, round, txs, timestamp, signature).value;
            ValidProposal(g, net.signed + {ProposalMsg(block.header)}, net.nodes[v], block)
  {
    var net := Run(g, honest, steps);
    var s, t := net.nodes[u], net.nodes[v];
    var block := BuildBlock(g, s, u, round, txs, timestamp, signature).value;
    RunNode(g, honest, steps, u);
    RunCertificates(g, honest, steps, u);
    BuiltIsValid(g, net.signed, s, u, round, txs, timestamp, signature);
    ChainsAgree(g, honest, steps, u, v);
    SameHeadersSameTip(s.chain, t.chain) by { assert Headers(s.chain) == Headers(t.chain); }
    SameLedgerSameVerdict(g, net.signed + {ProposalMsg(block.header)}, s, t, block);
  }

  /** A proposer with a mempool of distinct senders is never stuck on its transactions: its turn and
      the round's certificate are all it needs to build. */
  lemma SelectionBuilds(g: Genesis, s: NodeState, self: Address, round: int, pool: seq<Transaction>, config: Mempool.Config, limit: nat,
                        timestamp: int, signature: string)
    requires g.validators != [] && g.minFee >= 0 && DistinctSenders(pool) && s.roundHeight == s.Height() + 1
    ensures var txs := Mempool.ValidAlone(s.accounts, Mempool.Considered(pool, limit, config), self, RulesOf(g));
            BuildBlock(g, s, self, round, txs, timestamp, signature).Some?
            <==> && round >= 0 && ProposerFor(g, s.Height() + 1, round) == self
                 && (round > 0 ==> (s.Height() + 1, round) in s.certificates && |s.certificates[(s.Height() + 1, round)]| >= QuorumSize(g))
  {
    var txs := Mempool.ValidAlone(s.accounts, Mempool.Considered(pool, limit, config), self, RulesOf(g));
    Mempool.SelectionExecutes(pool, config, limit, s.accounts, self, RulesOf(g), txs);
  }
}
