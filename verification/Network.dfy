/** All validators together: every run of honest and faulty validators over a network that may
    drop, delay, reorder and duplicate, with crashes and restarts anywhere. */
module Network {
  import opened Models
  import opened Execution
  import opened Blocks
  import opened Chain
  import opened Consensus

  /** `signed` holds every message ever signed, so delivering any of them at any time, any number
      of times, is possible. `timeouts` records which honest validator saw which round time out. */
  datatype Net = Net(nodes: map<Address, NodeState>, signed: set<Message>, timeouts: set<(Address, int, int)>)

  /** How far a vote handler got with its durable writes when the process died. */
  datatype CrashPoint = AfterRound | AfterSeen | AfterVote | AfterLock

  datatype Step =
    | Forge(message: Message)                                                // a faulty validator, or any proposer
    | Vote(v: Address, block: Block, phase: Phase)
    | CrashedVote(v: Address, block: Block, phase: Phase, point: CrashPoint)
    | AskChange(v: Address, height: int, fromRound: int, toRound: int, timedOut: bool)
    | EndCollecting(v: Address, height: int, fromRound: int, changes: seq<ViewChange>)
    | Finalize(v: Address, block: Block)
    | CrashedFinalize(v: Address, block: Block)
    | Reboot(v: Address)

  /** Proposals may be signed freely; votes and view changes only by validators that are not honest. */
  predicate Forgeable(honest: set<Address>, message: Message) {
    match message
    case ProposalMsg(_) => true
    case VoteMsg(vote) => vote.voter !in honest
    case ChangeMsg(change) => change.voter !in honest
  }

  /** The collected dictionary always holds the collector's own message. */
  predicate Includes(changes: seq<ViewChange>, v: Address) {
    exists i :: 0 <= i < |changes| && changes[i].voter == v
  }

  function CrashState(g: Genesis, signed: set<Message>, s: NodeState, block: Block, phase: Phase, point: CrashPoint): NodeState
    requires g.validators != []
  {
    var (t, ok) := Prepare(g, signed, s, block);
    match point
    case AfterRound => if RoundAcceptable(g, signed, Sync(s), block) then EnterRound(Sync(s), block) else Sync(s)
    case AfterSeen => t
    case AfterVote => if ok && MayVote(g, signed, t, block, phase) then RecordVote(t, block.header, phase) else t
    case AfterLock => SignVote(g, signed, s, block, phase, Address("")).0
  }

  function Do(g: Genesis, net: Net, step: Step): Net
    requires g.validators != []
  {
    match step
    case Forge(message) =>
      if Forgeable(net.nodes.Keys, message) then net.(signed := net.signed + {message}) else net
    case Vote(v, block, phase) =>
      if v !in net.nodes then net
      else
        var (s, vote) := SignVote(g, net.signed, net.nodes[v], block, phase, v);
        net.(nodes := net.nodes[v := s], signed := if vote.Some? then net.signed + {VoteMsg(vote.value)} else net.signed)
    case CrashedVote(v, block, phase, point) =>
      if v !in net.nodes then net
      else net.(nodes := net.nodes[v := Restart(CrashState(g, net.signed, net.nodes[v], block, phase, point))])
    case AskChange(v, height, fromRound, toRound, timedOut) =>
      if v !in net.nodes then net
      else
        var (s, change) := SignChange(g, net.nodes[v], height, fromRound, toRound, timedOut, v);
        if change.None? then net.(nodes := net.nodes[v := s])
        else net.(nodes := net.nodes[v := s], signed := net.signed + {ChangeMsg(change.value)},
                  timeouts := net.timeouts + {(v, height, fromRound)})
    case EndCollecting(v, height, fromRound, changes) =>
      if v !in net.nodes || !Includes(changes, v) then net
      else net.(nodes := net.nodes[v := FinishChange(g, net.signed, net.nodes[v], height, fromRound, changes)])
    case Finalize(v, block) =>
      if v !in net.nodes then net
      else net.(nodes := net.nodes[v := Accept(g, net.signed, net.nodes[v], block)])
    case CrashedFinalize(v, block) =>
      if v !in net.nodes || !Acceptable(g, net.signed, net.nodes[v], block) then net
      else net.(nodes := net.nodes[v := Restart(Applied(g, net.nodes[v], block))])
    case Reboot(v) =>
      if v !in net.nodes then net else net.(nodes := net.nodes[v := Restart(net.nodes[v])])
  }

  function Start(g: Genesis, honest: set<Address>): Net {
    Net(map v | v in honest :: Fresh(g), {}, {})
  }

  function Run(g: Genesis, honest: set<Address>, steps: seq<Step>): Net
    requires g.validators != []
  {
    if steps == [] then Start(g, honest)
    else Do(g, Run(g, honest, steps[..|steps| - 1]), steps[|steps| - 1])
  }

  /** The setting of every theorem here: some validators are honest, and enough of them. */
  ghost predicate Setting(g: Genesis, honest: set<Address>) {
    ValidGenesis(g) && honest <= ValidatorSet(g) && EnoughHonest(g, honest)
  }

  // ---- what holds of one honest validator in every reachable network ----

  ghost predicate Says(signed: set<Message>, v: Address, m: PhaseVote) {
    VoteMsg(m) in signed && m.voter == v
  }

  ghost predicate Shape(g: Genesis, signed: set<Message>, s: NodeState)
    requires g.validators != []
  {
    && s.roundHeight == s.Height() + 1
    && s.currentRound == s.RoundAt(s.roundHeight) >= 0
    && (forall h :: h in s.rounds ==> h <= s.roundHeight)
    && Replay(g, signed, s.chain) == Some(s.accounts)
  }

  /** A released vote for the height still open is on record: vote, round, and lock if a precommit. */
  ghost predicate Recorded(s: NodeState, m: PhaseVote) {
    && m.height <= s.roundHeight
    && (m.height == s.roundHeight ==>
          && (m.height, m.round, m.phase) in s.votes && s.votes[(m.height, m.round, m.phase)] == m.blockHash
          && m.round <= s.currentRound
          && (m.phase == Precommit ==> m.height in s.locks && s.locks[m.height].hash == m.blockHash))
  }

  /** A released precommit was backed by a prevote quorum. */
  ghost predicate Backed(g: Genesis, signed: set<Message>, m: PhaseVote) {
    m.phase == Precommit ==> Certified(g, signed, m.height, m.round, Prevote, m.blockHash)
  }

  /** One vote per phase and round, and nothing else after a precommit. */
  ghost predicate Consistent(m: PhaseVote, n: PhaseVote) {
    m.height == n.height ==>
      && (m.round == n.round && m.phase == n.phase ==> m.blockHash == n.blockHash)
      && (m.phase == Precommit && m.round < n.round ==> m.blockHash == n.blockHash)
  }

  ghost predicate NodeInv(g: Genesis, signed: set<Message>, v: Address, s: NodeState)
    requires g.validators != []
  {
    && Shape(g, signed, s)
    && (forall m :: Says(signed, v, m) ==> Recorded(s, m) && Backed(g, signed, m))
    && (forall m, n :: Says(signed, v, m) && Says(signed, v, n) ==> Consistent(m, n))
  }

  ghost predicate Inv(g: Genesis, net: Net)
    requires g.validators != []
  {
    forall v :: v in net.nodes ==> NodeInv(g, net.signed, v, net.nodes[v])
  }

  // ---- one node moving inside a height ----

  /** The node stayed at its height, lost no vote or lock, and did not lower its round. */
  ghost predicate Advances(s: NodeState, t: NodeState) {
    && t.chain == s.chain && t.accounts == s.accounts && t.roundHeight == s.roundHeight
    && s.currentRound <= t.currentRound == t.RoundAt(t.roundHeight)
    && (forall h :: h in t.rounds ==> h <= t.roundHeight)
    && (forall k :: k in s.votes ==> k in t.votes && t.votes[k] == s.votes[k])
    && (forall h :: h in s.locks ==> h in t.locks && t.locks[h].hash == s.locks[h].hash)
  }

  lemma SetRoundAdvances(g: Genesis, signed: set<Message>, s: NodeState, round: int)
    requires g.validators != [] && Shape(g, signed, s)
    ensures Advances(s, SetRound(s, round))
    ensures SetRound(s, round).currentRound == if round <= s.currentRound then s.currentRound else round
    ensures SetRound(s, round).votes == s.votes && SetRound(s, round).locks == s.locks
  {
  }

  lemma EnterRoundAdvances(g: Genesis, signed: set<Message>, s: NodeState, block: Block)
    requires g.validators != [] && Shape(g, signed, s)
    ensures var t := EnterRound(s, block);
            && Advances(s, t) && t.votes == s.votes && t.locks == s.locks
            && t.currentRound == if block.header.round > s.currentRound then block.header.round else s.currentRound
  {
    var h := block.header;
    SetRoundAdvances(g, signed, s.(certificates := s.certificates[(h.height, h.round) := block.viewChanges]), h.round);
  }

  lemma PrepareAdvances(g: Genesis, signed: set<Message>, s: NodeState, block: Block)
    requires g.validators != [] && Shape(g, signed, s)
    ensures var (t, ok) := Prepare(g, signed, s, block);
            && Advances(s, t) && t.votes == s.votes && t.locks == s.locks
            && (ok ==> ValidProposal(g, signed, s, block) && t.currentRound == block.header.round)
  {
    EnterRoundAdvances(g, signed, s, block);
  }

  lemma RecordsAdvance(s: NodeState, t: NodeState, h: Header, phase: Phase)
    requires Advances(s, t)
    ensures (VoteKey(h, phase) in t.votes ==> t.votes[VoteKey(h, phase)] == BlockHash(h)) ==> Advances(s, RecordVote(t, h, phase))
    ensures (h.height in t.locks ==> t.locks[h.height].hash == BlockHash(h)) ==> Advances(s, RecordLock(t, h))
  {
  }

  lemma SignVoteAdvances(g: Genesis, signed: set<Message>, s: NodeState, block: Block, phase: Phase, self: Address)
    requires g.validators != [] && Shape(g, signed, s)
    ensures Advances(s, SignVote(g, signed, s, block, phase, self).0)
  {
    PrepareAdvances(g, signed, s, block);
    var (t, ok) := Prepare(g, signed, s, block);
    RecordsAdvance(s, t, block.header, phase);
    if ok && MayVote(g, signed, t, block, phase) { RecordsAdvance(s, RecordVote(t, block.header, phase), block.header, phase); }
  }

  lemma RestartAdvances(s: NodeState, t: NodeState)
    requires Advances(s, t) && s.roundHeight == s.Height() + 1
    ensures Advances(s, Restart(t))
  {
  }

  lemma VotedAdvances(g: Genesis, signed: set<Message>, s: NodeState, block: Block, phase: Phase)
    requires g.validators != [] && Shape(g, signed, s)
    ensures Advances(s, CrashState(g, signed, s, block, phase, AfterVote))
  {
    PrepareAdvances(g, signed, s, block);
    RecordsAdvance(s, Prepare(g, signed, s, block).0, block.header, phase);
  }

  lemma CrashAdvances(g: Genesis, signed: set<Message>, s: NodeState, block: Block, phase: Phase, point: CrashPoint)
    requires g.validators != [] && Shape(g, signed, s)
    ensures Advances(s, Restart(CrashState(g, signed, s, block, phase, point)))
  {
    match point {
      case AfterRound => EnterRoundAdvances(g, signed, s, block);
      case AfterSeen => PrepareAdvances(g, signed, s, block);
      case AfterVote => VotedAdvances(g, signed, s, block, phase);
      case AfterLock => SignVoteAdvances(g, signed, s, block, phase, Address(""));
    }
    RestartAdvances(s, CrashState(g, signed, s, block, phase, point));
  }

  lemma FinishAdvances(g: Genesis, signed: set<Message>, s: NodeState, height: int, fromRound: int, changes: seq<ViewChange>)
    requires g.validators != [] && Shape(g, signed, s)
    ensures Advances(s, FinishChange(g, signed, s, height, fromRound, changes))
  {
    if Collected(g, signed, height, fromRound, changes) {
      SetRoundAdvances(g, signed, s.(certificates := s.certificates[(height, fromRound + 1) := changes]), fromRound + 1);
    }
  }

  /** Moving inside a height keeps the node's invariant. */
  lemma AdvanceKeeps(g: Genesis, signed: set<Message>, v: Address, s: NodeState, t: NodeState)
    requires g.validators != [] && NodeInv(g, signed, v, s) && Advances(s, t)
    ensures NodeInv(g, signed, v, t)
  {
    forall m | Says(signed, v, m) ensures Recorded(t, m) { assert Recorded(s, m); }
  }

  /** Messages of others, and forged ones, keep the node's invariant. */
  lemma OthersKeep(g: Genesis, signed: set<Message>, more: set<Message>, v: Address, s: NodeState)
    requires g.validators != [] && NodeInv(g, signed, v, s) && signed <= more
    requires forall m :: Says(more, v, m) ==> Says(signed, v, m)
    ensures NodeInv(g, more, v, s)
  {
    ReplayGrows(g, signed, more, s.chain);
    forall m | Says(more, v, m) ensures Recorded(s, m) && Backed(g, more, m) {
      assert Recorded(s, m) && Backed(g, signed, m);
      if m.phase == Precommit { CertifiedGrows(g, signed, more, m.height, m.round, Prevote, m.blockHash); }
    }
  }

  /** What a vote handler guarantees about the vote it returns. */
  lemma ReleasedVote(g: Genesis, signed: set<Message>, v: Address, s: NodeState, block: Block, phase: Phase)
    requires g.validators != [] && NodeInv(g, signed, v, s)
    requires SignVote(g, signed, s, block, phase, v).1.Some?
    ensures var (t, vote) := SignVote(g, signed, s, block, phase, v); var m := vote.value;
            && m.voter == v && m.phase == phase
            && m.height == s.roundHeight && m.round == t.currentRound
            && Recorded(t, m) && Backed(g, signed, m)
            && (forall n :: Says(signed, v, n) ==> Consistent(m, n) && Consistent(n, m))
  {
    PrepareAdvances(g, signed, s, block);
    var (t, vote) := SignVote(g, signed, s, block, phase, v);
    var m := vote.value;
    if phase == Precommit { CertificateCertifies(g, signed, block.header, Prevote, block.prevotes); }
    forall n | Says(signed, v, n) ensures Consistent(m, n) && Consistent(n, m) {
      assert Recorded(s, n);
    }
  }

  /** Releasing a vote keeps the voter's invariant. */
  lemma VoteKeeps(g: Genesis, signed: set<Message>, v: Address, s: NodeState, block: Block, phase: Phase)
    requires g.validators != [] && NodeInv(g, signed, v, s)
    requires SignVote(g, signed, s, block, phase, v).1.Some?
    ensures var (t, vote) := SignVote(g, signed, s, block, phase, v);
            NodeInv(g, signed + {VoteMsg(vote.value)}, v, t)
  {
    var (t, vote) := SignVote(g, signed, s, block, phase, v);
    var m := vote.value;
    var more := signed + {VoteMsg(m)};
    SignVoteAdvances(g, signed, s, block, phase, v);
    AdvanceKeeps(g, signed, v, s, t);
    ReleasedVote(g, signed, v, s, block, phase);
    ReplayGrows(g, signed, more, t.chain);
    forall n | Says(more, v, n) ensures Recorded(t, n) && Backed(g, more, n) {
      assert n == m || Says(signed, v, n);
      assert Recorded(t, n) && Backed(g, signed, n);
      if n.phase == Precommit { CertifiedGrows(g, signed, more, n.height, n.round, Prevote, n.blockHash); }
    }
    forall n, k | Says(more, v, n) && Says(more, v, k) ensures Consistent(n, k) {
      assert n == m || Says(signed, v, n);
      assert k == m || Says(signed, v, k);
    }
  }

  /** The node finalized one more block; its records of closed heights no longer matter. */
  lemma FinalizeKeeps(g: Genesis, signed: set<Message>, v: Address, s: NodeState, block: Block, t: NodeState)
    requires g.validators != [] && NodeInv(g, signed, v, s) && Acceptable(g, signed, s, block)
    requires t == Accept(g, signed, s, block) || t == Restart(Applied(g, s, block))
    ensures NodeInv(g, signed, v, t) && t.chain == s.chain + [block] && t.currentRound == 0
  {
    ReplaySnoc(g, signed, s.chain, block);
    assert t.roundHeight == s.roundHeight + 1 && t.roundHeight !in t.rounds;
    forall m | Says(signed, v, m) ensures Recorded(t, m) { assert Recorded(s, m); }
  }

  lemma StartInv(g: Genesis, honest: set<Address>)
    requires g.validators != []
    ensures Inv(g, Start(g, honest))
  {
  }

  /** Replacing one node by a state its step allows, with signed messages growing by its own. */
  lemma UpdateKeeps(g: Genesis, net: Net, v: Address, t: NodeState, more: set<Message>, timeouts: set<(Address, int, int)>)
    requires g.validators != [] && Inv(g, net) && v in net.nodes && net.signed <= more
    requires NodeInv(g, more, v, t)
    requires forall u, m :: u in net.nodes && u != v && Says(more, u, m) ==> Says(net.signed, u, m)
    ensures Inv(g, Net(net.nodes[v := t], more, timeouts))
  {
    forall u | u in net.nodes ensures NodeInv(g, more, u, net.nodes[v := t][u]) {
      if u != v { OthersKeep(g, net.signed, more, u, net.nodes[u]); }
    }
  }

  lemma ForgeKeeps(g: Genesis, net: Net, message: Message)
    requires g.validators != [] && Inv(g, net) && Forgeable(net.nodes.Keys, message)
    ensures Inv(g, net.(signed := net.signed + {message}))
  {
    forall v | v in net.nodes ensures NodeInv(g, net.signed + {message}, v, net.nodes[v]) {
      OthersKeep(g, net.signed, net.signed + {message}, v, net.nodes[v]);
    }
  }

  lemma VoteStepKeeps(g: Genesis, net: Net, v: Address, block: Block, phase: Phase)
    requires g.validators != [] && Inv(g, net) && v in net.nodes
    ensures Inv(g, Do(g, net, Vote(v, block, phase)))
  {
    var (t, vote) := SignVote(g, net.signed, net.nodes[v], block, phase, v);
    if vote.Some? {
      VoteKeeps(g, net.signed, v, net.nodes[v], block, phase);
      UpdateKeeps(g, net, v, t, net.signed + {VoteMsg(vote.value)}, net.timeouts);
    } else {
      SignVoteAdvances(g, net.signed, net.nodes[v], block, phase, v);
      AdvanceKeeps(g, net.signed, v, net.nodes[v], t);
      UpdateKeeps(g, net, v, t, net.signed, net.timeouts);
    }
  }

  lemma SignChangeAdvances(g: Genesis, signed: set<Message>, s: NodeState, height: int, fromRound: int, toRound: int, timedOut: bool, self: Address)
    requires g.validators != [] && Shape(g, signed, s)
    ensures var (t, change) := SignChange(g, s, height, fromRound, toRound, timedOut, self);
            && Advances(s, t)
            && (change.Some? ==> timedOut && height == s.roundHeight && fromRound == s.currentRound && change.value.voter == self)
  {
  }

  lemma AskStepKeeps(g: Genesis, net: Net, v: Address, height: int, fromRound: int, toRound: int, timedOut: bool)
    requires g.validators != [] && Inv(g, net) && v in net.nodes
    ensures Inv(g, Do(g, net, AskChange(v, height, fromRound, toRound, timedOut)))
  {
    var after := Do(g, net, AskChange(v, height, fromRound, toRound, timedOut));
    var t := SignChange(g, net.nodes[v], height, fromRound, toRound, timedOut, v).0;
    assert after == Net(net.nodes[v := t], after.signed, after.timeouts);
    assert net.signed <= after.signed;
    assert forall u, m :: Says(after.signed, u, m) ==> Says(net.signed, u, m);
    SignChangeAdvances(g, net.signed, net.nodes[v], height, fromRound, toRound, timedOut, v);
    assert NodeInv(g, after.signed, v, t) by {
      AdvanceKeeps(g, net.signed, v, net.nodes[v], t);
      OthersKeep(g, net.signed, after.signed, v, t);
    }
    UpdateKeeps(g, net, v, t, after.signed, after.timeouts);
  }

  /** The state a step leaves one node in, for the steps that sign nothing. */
  lemma QuietStepKeeps(g: Genesis, net: Net, step: Step, v: Address)
    requires g.validators != [] && v in net.nodes && NodeInv(g, net.signed, v, net.nodes[v])
    requires || (step.CrashedVote? && step.v == v) || (step.EndCollecting? && step.v == v) || (step.Finalize? && step.v == v)
             || (step.CrashedFinalize? && step.v == v) || (step.Reboot? && step.v == v)
    ensures v in Do(g, net, step).nodes && NodeInv(g, net.signed, v, Do(g, net, step).nodes[v])
  {
    var s, t := net.nodes[v], Do(g, net, step).nodes[v];
    match step {
      case CrashedVote(_, block, phase, point) =>
        CrashAdvances(g, net.signed, s, block, phase, point);
        AdvanceKeeps(g, net.signed, v, s, t);
      case EndCollecting(_, height, fromRound, changes) =>
        FinishAdvances(g, net.signed, s, height, fromRound, changes);
        AdvanceKeeps(g, net.signed, v, s, t);
      case Finalize(_, block) =>
        if Acceptable(g, net.signed, s, block) { FinalizeKeeps(g, net.signed, v, s, block, t); }
      case CrashedFinalize(_, block) =>
        if Acceptable(g, net.signed, s, block) { FinalizeKeeps(g, net.signed, v, s, block, t); }
      case Reboot(_) =>
        AdvanceKeeps(g, net.signed, v, s, t);
    }
  }

  /** Every step of the protocol, by anyone, keeps the invariant of every honest validator. */
  lemma StepKeepsInv(g: Genesis, net: Net, step: Step)
    requires g.validators != [] && Inv(g, net)
    ensures Inv(g, Do(g, net, step))
  {
    match step {
      case Forge(message) =>
        if Forgeable(net.nodes.Keys, message) { ForgeKeeps(g, net, message); }
      case Vote(v, block, phase) =>
        if v in net.nodes { VoteStepKeeps(g, net, v, block, phase); }
      case AskChange(v, height, fromRound, toRound, timedOut) =>
        if v in net.nodes { AskStepKeeps(g, net, v, height, fromRound, toRound, timedOut); }
      case _ =>
        if step.v in net.nodes {
          QuietStepKeeps(g, net, step, step.v);
          UpdateKeeps(g, net, step.v, Do(g, net, step).nodes[step.v], net.signed, net.timeouts);
        }
    }
  }

  lemma StepKeepsNodes(g: Genesis, net: Net, step: Step)
    requires g.validators != []
    ensures Do(g, net, step).nodes.Keys == net.nodes.Keys && net.signed <= Do(g, net, step).signed
  {
  }

  lemma {:induction false} RunInv(g: Genesis, honest: set<Address>, steps: seq<Step>)
    requires g.validators != []
    ensures Inv(g, Run(g, honest, steps)) && Run(g, honest, steps).nodes.Keys == honest
  {
    if steps == [] { StartInv(g, honest); }
    else {
      var net := Run(g, honest, steps[..|steps| - 1]);
      assert Inv(g, net) && net.nodes.Keys == honest by { RunInv(g, honest, steps[..|steps| - 1]); }
      StepKeepsInv(g, net, steps[|steps| - 1]);
      StepKeepsNodes(g, net, steps[|steps| - 1]);
    }
  }

  /** Every honest validator of every run satisfies its invariant. */
  lemma RunNode(g: Genesis, honest: set<Address>, steps: seq<Step>, v: Address)
    requires g.validators != [] && v in honest
    ensures var net := Run(g, honest, steps); v in net.nodes && NodeInv(g, net.signed, v, net.nodes[v])
  {
    RunInv(g, honest, steps);
  }

  // ---- safety over all runs ----

  lemma HonestVoteIn(g: Genesis, net: Net, honest: set<Address>, height: int,
                     round1: int, phase1: Phase, hash1: Digest, round2: int, phase2: Phase, hash2: Digest)
    returns (m: PhaseVote, n: PhaseVote)
    requires Setting(g, honest)
    requires Certified(g, net.signed, height, round1, phase1, hash1) && Certified(g, net.signed, height, round2, phase2, hash2)
    ensures m == PhaseVote(g.chainId, height, round1, phase1, hash1, m.voter) && Says(net.signed, m.voter, m)
    ensures n == PhaseVote(g.chainId, height, round2, phase2, hash2, m.voter) && Says(net.signed, m.voter, n)
    ensures m.voter in honest
  {
    var a := QuorumsMeet(g, honest, Voters(g, net.signed, height, round1, phase1, hash1), Voters(g, net.signed, height, round2, phase2, hash2));
    m := PhaseVote(g.chainId, height, round1, phase1, hash1, a);
    n := PhaseVote(g.chainId, height, round2, phase2, hash2, a);
  }

  /** Once a quorum has precommitted a block, no prevote quorum for another hash exists at that
      height in the same or any later round. */
  lemma LockLemma(g: Genesis, honest: set<Address>, steps: seq<Step>, height: int,
                  round: int, hash: Digest, later: int, other: Digest)
    requires Setting(g, honest) && round <= later
    requires Certified(g, Run(g, honest, steps).signed, height, round, Precommit, hash)
    requires Certified(g, Run(g, honest, steps).signed, height, later, Prevote, other)
    ensures hash == other
  {
    var net := Run(g, honest, steps);
    var m, n := HonestVoteIn(g, net, honest, height, round, Precommit, hash, later, Prevote, other);
    RunNode(g, honest, steps, m.voter);
    if round == later {
      assert Backed(g, net.signed, m);
      var p, q := HonestVoteIn(g, net, honest, height, round, Prevote, hash, round, Prevote, other);
      RunNode(g, honest, steps, p.voter);
      assert Consistent(p, q);
    } else {
      assert Consistent(m, n);
    }
  }

  /** Agreement: in every run no two hashes at one height both get precommit certificates. */
  lemma Agreement(g: Genesis, honest: set<Address>, steps: seq<Step>, height: int,
                  round1: int, hash1: Digest, round2: int, hash2: Digest)
    requires Setting(g, honest)
    requires Certified(g, Run(g, honest, steps).signed, height, round1, Precommit, hash1)
    requires Certified(g, Run(g, honest, steps).signed, height, round2, Precommit, hash2)
    ensures hash1 == hash2
    decreases round1 > round2
  {
    if round1 > round2 {
      Agreement(g, honest, steps, height, round2, hash2, round1, hash1);
    } else {
      var net := Run(g, honest, steps);
      var m, n := HonestVoteIn(g, net, honest, height, round1, Precommit, hash1, round2, Precommit, hash2);
      RunNode(g, honest, steps, m.voter);
      assert Backed(g, net.signed, n);
      LockLemma(g, honest, steps, height, round1, hash1, round2, hash2);
    }
  }

  lemma FinalizedCertified(g: Genesis, honest: set<Address>, steps: seq<Step>, v: Address, i: nat)
    requires g.validators != [] && v in honest
    requires var net := Run(g, honest, steps); v in net.nodes && i < |net.nodes[v].chain|
    ensures var net := Run(g, honest, steps); var b := net.nodes[v].chain[i];
            Certified(g, net.signed, i + 1, b.header.round, Precommit, HashOf(b))
  {
    RunNode(g, honest, steps, v);
    var net := Run(g, honest, steps);
    var b := net.nodes[v].chain[i];
    ReplayAt(g, net.signed, net.nodes[v].chain, i);
    CertificateCertifies(g, net.signed, b.header, Precommit, b.precommits);
  }

  /** Two honest validators never finalize different headers at one height. */
  lemma SameHeaderAt(g: Genesis, honest: set<Address>, steps: seq<Step>, u: Address, v: Address, i: nat)
    requires Setting(g, honest) && u in honest && v in honest
    requires var net := Run(g, honest, steps);
             u in net.nodes && v in net.nodes && i < |net.nodes[u].chain| && i < |net.nodes[v].chain|
    ensures var net := Run(g, honest, steps); net.nodes[u].chain[i].header == net.nodes[v].chain[i].header
  {
    var net := Run(g, honest, steps);
    var a, b := net.nodes[u].chain[i], net.nodes[v].chain[i];
    FinalizedCertified(g, honest, steps, u, i);
    FinalizedCertified(g, honest, steps, v, i);
    Agreement(g, honest, steps, i + 1, a.header.round, HashOf(a), b.header.round, HashOf(b));
  }

  /** The finalized chains of any two honest validators are prefixes of one another, and equal
      heights mean equal account tables. */
  lemma ChainsAgree(g: Genesis, honest: set<Address>, steps: seq<Step>, u: Address, v: Address)
    requires Setting(g, honest) && u in honest && v in honest
    requires u in Run(g, honest, steps).nodes && v in Run(g, honest, steps).nodes
    requires |Run(g, honest, steps).nodes[u].chain| <= |Run(g, honest, steps).nodes[v].chain|
    ensures var cu, cv := Run(g, honest, steps).nodes[u], Run(g, honest, steps).nodes[v];
            && Headers(cu.chain) <= Headers(cv.chain)
            && (|cu.chain| == |cv.chain| ==> cu.accounts == cv.accounts)
  {
    var net := Run(g, honest, steps);
    var cu, cv := net.nodes[u].chain, net.nodes[v].chain;
    forall i | 0 <= i < |cu| ensures Headers(cu)[i] == Headers(cv)[i] {
      SameHeaderAt(g, honest, steps, u, v, i);
    }
    if |cu| == |cv| {
      RunNode(g, honest, steps, u);
      RunNode(g, honest, steps, v);
      assert Headers(cu) == Headers(cv);
      SameHeadersSameState(g, net.signed, cu, cv);
    }
  }
}
