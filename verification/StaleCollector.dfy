/** A run in which a view-change collector ends after its height has closed, and leaves its node
    in a round of the next height that nobody asked for. */
module StaleCollector {
  import opened Models
  import opened Execution
  import opened Blocks
  import opened Chain
  import opened Consensus
  import opened Network
  import opened Rounds
  import Merkle

  const A := Address("a")
  const G := Genesis("c", [A], map[], 0)
  const H := Header("c", 1, ZeroHash, 0, A, [], EmptyHash, StateRoot(map[]), 0, "")
  const PREVOTE := PhaseVote("c", 1, 0, Prevote, BlockHash(H), A)
  const PRECOMMIT := PhaseVote("c", 1, 0, Precommit, BlockHash(H), A)
  const CHANGE := ViewChange("c", 1, 0, 1, A, -1, None)

  const BARE := Block(H, [], [], [])
  const PREVOTED_BLOCK := Block(H, [], [PREVOTE], [])
  const BLOCK := Block(H, [], [PREVOTE], [PRECOMMIT])
  const TIMEOUTS: set<(Address, int, int)> := {(A, 1, 0)}

  const ASKED := Fresh(G).(changes := map[(1, 1) := 0])
  const PREVOTED := ASKED.(seen := map[(1, 0, A) := BlockHash(H)], votes := map[(1, 0, Prevote) := BlockHash(H)])
  const PRECOMMITTED := PREVOTED.(votes := map[(1, 0, Prevote) := BlockHash(H), (1, 0, Precommit) := BlockHash(H)],
                                  locks := map[1 := Lock(0, BlockHash(H))])

  function Alone(s: NodeState, signed: set<Message>): Net { Net(map[A := s], signed, TIMEOUTS) }

  /** `steps` leads the single validator to this network. */
  ghost predicate Leads(steps: seq<Step>, net: Net) { Run(G, {A}, steps) == net }

  lemma Extend(steps: seq<Step>, net: Net, step: Step, next: Net)
    requires Leads(steps, net) && Do(G, net, step) == next
    ensures Leads(steps + [step], next)
  {
    assert (steps + [step])[..|steps|] == steps;
  }

  /** The validator times out in round 0 and asks for round 1. */
  lemma Asking()
    ensures Do(G, Start(G, {A}), AskChange(A, 1, 0, 1, true)) == Alone(ASKED, {ChangeMsg(CHANGE)})
  {
    assert Start(G, {A}).nodes == map[A := Fresh(G)];
  }

  /** The block of the example is acceptable to a node at height 0, round 0. */
  lemma BlockHolds(signed: set<Message>, s: NodeState, block: Block)
    requires s.chain == [] && s.accounts == map[] && s.roundHeight == 1 && s.currentRound == 0
    requires SeenKey(H) in s.seen ==> s.seen[SeenKey(H)] == BlockHash(H)
    requires ProposalMsg(H) in signed && block.header == H && block.viewChanges == []
    ensures ValidProposal(G, signed, s, block)
    ensures ReplayTransactions(G, s.accounts, H) == Some(map[])
    ensures Prepare(G, signed, s, block) == (RecordSeen(s, H), true)
  {
    assert TxIds([]) == [];
  }

  /** Meanwhile the block of round 0 is prevoted and precommitted ... */
  lemma Prevoting(signed: set<Message>)
    requires ProposalMsg(H) in signed
    ensures SignVote(G, signed, ASKED, BARE, Prevote, A) == (PREVOTED, Some(PREVOTE))
  {
    BlockHolds(signed, ASKED, BARE);
  }

  lemma Precommitting(signed: set<Message>)
    requires ProposalMsg(H) in signed && VoteMsg(PREVOTE) in signed
    ensures SignVote(G, signed, PREVOTED, PREVOTED_BLOCK, Precommit, A) == (PRECOMMITTED, Some(PRECOMMIT))
  {
    BlockHolds(signed, PREVOTED, PREVOTED_BLOCK);
  }

  /** ... and finalized, which opens height 2 in round 0 ... */
  lemma Accepting(signed: set<Message>)
    requires ProposalMsg(H) in signed && VoteMsg(PREVOTE) in signed && VoteMsg(PRECOMMIT) in signed
    ensures var s := Accept(G, signed, PRECOMMITTED, BLOCK); s.Height() == 1 && s.roundHeight == 2 && s.currentRound == 0
  {
    BlockHolds(signed, PRECOMMITTED, BLOCK);
    assert Acceptable(G, signed, PRECOMMITTED, BLOCK);
    assert Prune(Applied(G, PRECOMMITTED, BLOCK), 1).rounds == map[];
  }

  /** ... before the collector of height 1 ends. */
  lemma Ending(signed: set<Message>, s: NodeState)
    requires ChangeMsg(CHANGE) in signed
    requires s.Height() == 1 && s.roundHeight == 2 && s.currentRound == 0
    ensures Includes([CHANGE], A)
    ensures var t := FinishChange(G, signed, s, 1, 0, [CHANGE]); t.roundHeight == 2 && t.currentRound == 1
  {
    assert [CHANGE][0].voter == A;
    assert Collected(G, signed, 1, 0, [CHANGE]);
  }

  lemma ReachProposed() returns (steps: seq<Step>)
    ensures Leads(steps, Alone(ASKED, {ChangeMsg(CHANGE), ProposalMsg(H)}))
  {
    Asking();
    Extend([], Start(G, {A}), AskChange(A, 1, 0, 1, true), Alone(ASKED, {ChangeMsg(CHANGE)}));
    steps := [] + [AskChange(A, 1, 0, 1, true)];
    Extend(steps, Alone(ASKED, {ChangeMsg(CHANGE)}), Forge(ProposalMsg(H)), Alone(ASKED, {ChangeMsg(CHANGE), ProposalMsg(H)}));
    steps := steps + [Forge(ProposalMsg(H))];
  }

  lemma ReachPrevoted() returns (steps: seq<Step>)
    ensures Leads(steps, Alone(PREVOTED, {ChangeMsg(CHANGE), ProposalMsg(H), VoteMsg(PREVOTE)}))
  {
    var before := ReachProposed();
    var net := Alone(ASKED, {ChangeMsg(CHANGE), ProposalMsg(H)});
    Prevoting(net.signed);
    Extend(before, net, Vote(A, BARE, Prevote), Alone(PREVOTED, {ChangeMsg(CHANGE), ProposalMsg(H), VoteMsg(PREVOTE)}));
    steps := before + [Vote(A, BARE, Prevote)];
  }

  lemma ReachPrecommitted() returns (steps: seq<Step>)
    ensures Leads(steps, Alone(PRECOMMITTED, {ChangeMsg(CHANGE), ProposalMsg(H), VoteMsg(PREVOTE), VoteMsg(PRECOMMIT)}))
  {
    var before := ReachPrevoted();
    var net := Alone(PREVOTED, {ChangeMsg(CHANGE), ProposalMsg(H), VoteMsg(PREVOTE)});
    Precommitting(net.signed);
    Extend(before, net, Vote(A, PREVOTED_BLOCK, Precommit),
           Alone(PRECOMMITTED, {ChangeMsg(CHANGE), ProposalMsg(H), VoteMsg(PREVOTE), VoteMsg(PRECOMMIT)}));
    steps := before + [Vote(A, PREVOTED_BLOCK, Precommit)];
  }

  lemma FinishLate(net: Net, next: Net)
    requires net.nodes.Keys == {A} && ChangeMsg(CHANGE) in net.signed && next == Do(G, net, EndCollecting(A, 1, 0, [CHANGE]))
    requires net.nodes[A].Height() == 1 && net.nodes[A].roundHeight == 2 && net.nodes[A].currentRound == 0
    requires forall c :: ChangeMsg(c) in net.signed ==> c == CHANGE
    ensures A in next.nodes && next.nodes[A].roundHeight == 2 && next.nodes[A].currentRound == 1
    ensures !Disciplined(G, next.signed, next.nodes[A])
  {
    Ending(net.signed, net.nodes[A]);
    assert Askers(G, net.signed, 2, 0) == {};
    assert !ChangeCertified(G, next.signed, 2, 0);
  }

  /** The discipline fails in this run, although every validator in it is honest. */
  lemma LateEndingSkipsQuorum() returns (steps: seq<Step>)
    ensures Setting(G, {A})
    ensures var net := Run(G, {A}, steps);
            && A in net.nodes && net.nodes[A].roundHeight == 2 && net.nodes[A].currentRound == 1
            && !Disciplined(G, net.signed, net.nodes[A])
  {
    assert ValidatorSet(G) == {A};
    var signed := {ChangeMsg(CHANGE), ProposalMsg(H), VoteMsg(PREVOTE), VoteMsg(PRECOMMIT)};
    var before := ReachPrecommitted();
    var precommitted := Alone(PRECOMMITTED, signed);
    var accepted := Do(G, precommitted, Finalize(A, BLOCK));
    Extend(before, precommitted, Finalize(A, BLOCK), accepted);
    Accepting(signed);
    var ended := Do(G, accepted, EndCollecting(A, 1, 0, [CHANGE]));
    Extend(before + [Finalize(A, BLOCK)], accepted, EndCollecting(A, 1, 0, [CHANGE]), ended);
    FinishLate(accepted, ended);
    steps := before + [Finalize(A, BLOCK)] + [EndCollecting(A, 1, 0, [CHANGE])];
  }
}
