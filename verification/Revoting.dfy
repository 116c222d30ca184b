/** No vote is lost: a validator that voted, and is asked again while it is still there, votes again. */
module Revoting {
  import opened Models
  import opened Execution
  import opened Blocks
  import opened Chain
  import opened Consensus
  import opened Network
  import opened Handlers

  /** Later signatures never make a proposal or a quorum worse. */
  lemma ExtendsGrows(g: Genesis, signed: set<Message>, more: set<Message>, s: NodeState, t: NodeState, block: Block)
    requires g.validators != [] && signed <= more && t.chain == s.chain && t.accounts == s.accounts
    requires Extends(g, signed, s, block)
    ensures Extends(g, more, t, block)
  {
  }

  /** The node is still in reach of the proposal, and holds nothing against this block. */
  ghost predicate Bound(s: NodeState, h: Header, phase: Phase) {
    && !SeenOther(s, h)
    && (h.height in s.locks ==> s.locks[h.height].hash == BlockHash(h))
    && ((h.height, h.round, phase) in s.votes ==> s.votes[(h.height, h.round, phase)] == BlockHash(h))
  }

  lemma VotesAgain(g: Genesis, signed: set<Message>, more: set<Message>, s: NodeState, t: NodeState, block: Block, phase: Phase, self: Address)
    requires g.validators != [] && signed <= more && SignVote(g, signed, s, block, phase, self).1.Some?
    requires t.chain == s.chain && t.accounts == s.accounts && Bound(t, block.header, phase)
    requires OpenRound(t) <= block.header.round <= OpenRound(t) + 1
    ensures SignVote(g, more, t, block, phase, self).1 == SignVote(g, signed, s, block, phase, self).1
  {
    ReleasedIff(g, signed, s, block, phase, self);
    ReleasedIff(g, more, t, block, phase, self);
    ExtendsGrows(g, signed, more, s, t, block);
  }

  lemma EnteredRecorded(g: Genesis, signed: set<Message>, s: NodeState, block: Block)
    requires g.validators != [] && Shape(g, signed, s) && s.currentRound <= block.header.round
    ensures var t := EnterRound(s, block);
            t.RoundAt(|s.chain| + 1) == block.header.round && SameButRound(s.(certificates := t.certificates), t)
  {
    EnteredMeans(s, block);
    SetRoundMeans(s.(certificates := s.certificates[(block.header.height, block.header.round) := block.viewChanges]), block.header.round);
  }

  /** The handler's durable writes, one after another. */
  lemma CrashStages(g: Genesis, signed: set<Message>, s: NodeState, block: Block, phase: Phase, point: CrashPoint, e: NodeState)
    requires g.validators != [] && Shape(g, signed, s) && e == EnterRound(s, block)
    requires SignVote(g, signed, s, block, phase, Address("")).1.Some?
    ensures CrashState(g, signed, s, block, phase, point)
            == match point
               case AfterRound => e
               case AfterSeen => RecordSeen(e, block.header)
               case AfterVote => RecordVote(RecordSeen(e, block.header), block.header, phase)
               case AfterLock =>
                 var u := RecordVote(RecordSeen(e, block.header), block.header, phase);
                 if phase == Precommit then RecordLock(u, block.header) else u
  {
  }

  lemma StagesBound(s: NodeState, h: Header, phase: Phase)
    requires Bound(s, h, phase)
    ensures Bound(RecordSeen(s, h), h, phase)
    ensures Bound(RecordVote(s, h, phase), h, phase)
  {
  }

  lemma LockBound(s: NodeState, h: Header, phase: Phase)
    requires Bound(s, h, phase)
    ensures Bound(RecordLock(s, h), h, phase)
  {
  }

  lemma ReleasedBound(g: Genesis, signed: set<Message>, s: NodeState, block: Block, phase: Phase, self: Address)
    requires g.validators != [] && Shape(g, signed, s) && SignVote(g, signed, s, block, phase, self).1.Some?
    ensures Bound(s, block.header, phase) && s.currentRound <= block.header.round
  {
    ReleasedIff(g, signed, s, block, phase, self);
  }

  lemma BoundSame(s: NodeState, e: NodeState, h: Header, phase: Phase)
    requires Bound(s, h, phase) && e.seen == s.seen && e.locks == s.locks && e.votes == s.votes
    ensures Bound(e, h, phase)
  {
  }

  lemma StagesKeep(e: NodeState, h: Header, phase: Phase)
    requires Bound(e, h, phase)
    ensures var u := RecordSeen(e, h); Bound(u, h, phase) && u == e.(seen := u.seen)
    ensures var u := RecordVote(RecordSeen(e, h), h, phase); Bound(u, h, phase) && u == e.(seen := u.seen, votes := u.votes)
    ensures var u := RecordLock(RecordVote(RecordSeen(e, h), h, phase), h);
            Bound(u, h, phase) && u == e.(seen := u.seen, votes := u.votes, locks := u.locks)
  {
    StagesBound(e, h, phase);
    StagesBound(RecordSeen(e, h), h, phase);
    LockBound(RecordVote(RecordSeen(e, h), h, phase), h, phase);
  }

  lemma CrashKeepsBound(g: Genesis, signed: set<Message>, s: NodeState, block: Block, phase: Phase, point: CrashPoint)
    requires g.validators != [] && Shape(g, signed, s) && SignVote(g, signed, s, block, phase, Address("")).1.Some?
    ensures var t := CrashState(g, signed, s, block, phase, point);
            t.chain == s.chain && t.accounts == s.accounts && Bound(t, block.header, phase) && t.RoundAt(|s.chain| + 1) == block.header.round
  {
    var h, e := block.header, EnterRound(s, block);
    ReleasedBound(g, signed, s, block, phase, Address(""));
    EnteredRecorded(g, signed, s, block);
    CrashStages(g, signed, s, block, phase, point, e);
    BoundSame(s, e, h, phase);
    StagesKeep(e, h, phase);
  }

  /** A vote that a crash kept from being returned, wherever the handler died, is returned when the
      validator is asked for the same block again. */
  lemma VoteSurvivesCrash(g: Genesis, signed: set<Message>, more: set<Message>, s: NodeState, block: Block, phase: Phase, point: CrashPoint, self: Address)
    requires g.validators != [] && Shape(g, signed, s) && signed <= more && SignVote(g, signed, s, block, phase, self).1.Some?
    ensures SignVote(g, more, Restart(CrashState(g, signed, s, block, phase, point)), block, phase, self).1
            == SignVote(g, signed, s, block, phase, self).1
  {
    ReleasedIff(g, signed, s, block, phase, self);
    ReleasedIff(g, signed, s, block, phase, Address(""));
    CrashKeepsBound(g, signed, s, block, phase, point);
    VotesAgain(g, signed, more, s, Restart(CrashState(g, signed, s, block, phase, point)), block, phase, self);
  }

  // ---- over whole runs ----

  function SeatKey(g: Genesis, height: int, round: int): (int, int, Address)
    requires g.validators != [] && height >= 1 && round >= 0
  {
    (height, round, ProposerFor(g, height, round))
  }

  /** Nothing a node holds in its present round speaks against a vote it released there. */
  ghost predicate Standing(g: Genesis, s: NodeState, m: PhaseVote)
    requires g.validators != []
  {
    m.height == s.roundHeight && m.round == s.currentRound && m.height >= 1 && m.round >= 0 ==>
      && SeatKey(g, m.height, m.round) in s.seen && s.seen[SeatKey(g, m.height, m.round)] == m.blockHash
      && (m.height in s.locks ==> s.locks[m.height].hash == m.blockHash)
  }

  ghost predicate AllStanding(g: Genesis, signed: set<Message>, v: Address, s: NodeState)
    requires g.validators != []
  {
    forall m :: Says(signed, v, m) ==> Standing(g, s, m) && NamesBlock(g, m)
  }

  /** The vote is for the height and round of the block it names. */
  ghost predicate NamesBlock(g: Genesis, m: PhaseVote) {
    m.chainId == g.chainId && m.blockHash.BlockHash? && m.height == m.blockHash.header.height && m.round == m.blockHash.header.round
  }

  /** The lock on the open height is the old one, or one on the proposal seen in the present round. */
  ghost predicate LockFits(g: Genesis, s: NodeState, t: NodeState)
    requires g.validators != [] && t.roundHeight >= 1 && t.currentRound >= 0
  {
    t.roundHeight in t.locks ==>
      || (t.roundHeight in s.locks && t.locks[t.roundHeight].hash == s.locks[t.roundHeight].hash)
      || (SeatKey(g, t.roundHeight, t.currentRound) in t.seen
          && t.locks[t.roundHeight].hash == t.seen[SeatKey(g, t.roundHeight, t.currentRound)])
  }

  ghost predicate SeenKept(s: NodeState, t: NodeState) {
    forall k :: k in s.seen ==> k in t.seen && t.seen[k] == s.seen[k]
  }

  /** The node moved inside its height without dropping a proposal or locking on another than the one seen. */
  ghost predicate Steady(g: Genesis, s: NodeState, t: NodeState)
    requires g.validators != []
  {
    && t.roundHeight == s.roundHeight >= 1 && t.currentRound >= s.currentRound >= 0
    && SeenKept(s, t) && LockFits(g, s, t)
  }

  lemma SteadyStands(g: Genesis, signed: set<Message>, v: Address, s: NodeState, t: NodeState)
    requires g.validators != [] && NodeInv(g, signed, v, s) && AllStanding(g, signed, v, s) && Steady(g, s, t)
    ensures AllStanding(g, signed, v, t)
  {
    forall m | Says(signed, v, m) ensures Standing(g, t, m) && NamesBlock(g, m) { assert Standing(g, s, m) && Recorded(s, m); }
  }

  lemma PrepareSteady(g: Genesis, signed: set<Message>, s: NodeState, block: Block)
    requires g.validators != [] && Shape(g, signed, s)
    ensures Steady(g, s, Prepare(g, signed, s, block).0)
  {
    PrepareIff(g, signed, s, block);
    PrepareKeeps(g, signed, s, block);
    if InReach(g, signed, s, block) { PrepareLeaves(g, signed, s, block); }
  }

  lemma RecordsSteady(g: Genesis, s: NodeState, t: NodeState, h: Header, phase: Phase)
    requires g.validators != [] && Steady(g, s, t) && h.height == t.roundHeight && h.round == t.currentRound
    requires h.proposer == ProposerFor(g, h.height, h.round)
    requires SeatKey(g, h.height, h.round) in t.seen && t.seen[SeatKey(g, h.height, h.round)] == BlockHash(h)
    ensures Steady(g, s, RecordVote(t, h, phase)) && Steady(g, s, RecordLock(t, h))
  {
  }

  lemma PreparedSeen(g: Genesis, signed: set<Message>, s: NodeState, block: Block)
    requires g.validators != [] && Shape(g, signed, s) && Prepare(g, signed, s, block).1
    ensures var h, t := block.header, Prepare(g, signed, s, block).0;
            && h.height == t.roundHeight && h.round == t.currentRound >= 0 && h.proposer == ProposerFor(g, h.height, h.round)
            && SeatKey(g, h.height, h.round) in t.seen && t.seen[SeatKey(g, h.height, h.round)] == BlockHash(h)
  {
    PrepareIff(g, signed, s, block);
    PrepareLeaves(g, signed, s, block);
  }

  lemma SignVoteSteady(g: Genesis, signed: set<Message>, s: NodeState, block: Block, phase: Phase, self: Address)
    requires g.validators != [] && Shape(g, signed, s)
    ensures Steady(g, s, SignVote(g, signed, s, block, phase, self).0)
    ensures SignVote(g, signed, s, block, phase, self).1.Some? ==>
              && Standing(g, SignVote(g, signed, s, block, phase, self).0, SignVote(g, signed, s, block, phase, self).1.value)
              && NamesBlock(g, SignVote(g, signed, s, block, phase, self).1.value)
  {
    PrepareSteady(g, signed, s, block);
    var (t, ok) := Prepare(g, signed, s, block);
    if ok && MayVote(g, signed, t, block, phase) {
      PreparedSeen(g, signed, s, block);
      RecordsSteady(g, s, t, block.header, phase);
      RecordsSteady(g, s, RecordVote(t, block.header, phase), block.header, phase);
    }
  }

  lemma CrashSteady(g: Genesis, signed: set<Message>, s: NodeState, block: Block, phase: Phase, point: CrashPoint)
    requires g.validators != [] && Shape(g, signed, s)
    ensures Steady(g, s, CrashState(g, signed, s, block, phase, point))
  {
    var (t, ok) := Prepare(g, signed, s, block);
    PrepareSteady(g, signed, s, block);
    match point {
      case AfterRound =>
        InReachIff(g, signed, s, block);
        if InReach(g, signed, s, block) { EnteredMeans(Sync(s), block); }
      case AfterSeen =>
      case AfterVote =>
        if ok {
          PreparedSeen(g, signed, s, block);
          RecordsSteady(g, s, t, block.header, phase);
        }
      case AfterLock => SignVoteSteady(g, signed, s, block, phase, Address(""));
    }
  }

  lemma RestartSteady(g: Genesis, s: NodeState, t: NodeState)
    requires g.validators != [] && Steady(g, s, t) && t.roundHeight == t.Height() + 1
    requires Restart(t).currentRound == t.currentRound
    ensures Steady(g, s, Restart(t))
  {
  }

  lemma CrashRecorded(g: Genesis, signed: set<Message>, s: NodeState, block: Block, phase: Phase, point: CrashPoint)
    requires g.validators != [] && Shape(g, signed, s)
    ensures Advances(s, CrashState(g, signed, s, block, phase, point))
  {
    match point {
      case AfterRound => EnterRoundAdvances(g, signed, s, block);
      case AfterSeen => PrepareAdvances(g, signed, s, block);
      case AfterVote => VotedAdvances(g, signed, s, block, phase);
      case AfterLock => SignVoteAdvances(g, signed, s, block, phase, Address(""));
    }
  }

  /** A step of this validator that stays at its height. */
  lemma OwnStepSteady(g: Genesis, net: Net, step: Step, v: Address)
    requires g.validators != [] && v in net.nodes && Shape(g, net.signed, net.nodes[v])
    requires (step.CrashedVote? || step.AskChange? || step.EndCollecting? || step.Reboot?) && step.v == v
    ensures Steady(g, net.nodes[v], Do(g, net, step).nodes[v])
    ensures forall m :: Says(Do(g, net, step).signed, v, m) ==> Says(net.signed, v, m)
  {
    var s := net.nodes[v];
    match step {
      case CrashedVote(_, block, phase, point) =>
        CrashSteady(g, net.signed, s, block, phase, point);
        CrashRecorded(g, net.signed, s, block, phase, point);
        RestartSteady(g, s, CrashState(g, net.signed, s, block, phase, point));
      case AskChange(_, height, fromRound, toRound, timedOut) =>
        SignChangeIff(g, s, height, fromRound, toRound, timedOut, v);
      case EndCollecting(_, height, fromRound, changes) =>
        FinishMeans(g, net.signed, s, height, fromRound, changes);
      case Reboot(_) =>
    }
  }

  lemma VoteStepStands(g: Genesis, net: Net, v: Address, block: Block, phase: Phase)
    requires g.validators != [] && v in net.nodes
    requires NodeInv(g, net.signed, v, net.nodes[v]) && AllStanding(g, net.signed, v, net.nodes[v])
    ensures var after := Do(g, net, Vote(v, block, phase)); AllStanding(g, after.signed, v, after.nodes[v])
  {
    var (t, vote) := SignVote(g, net.signed, net.nodes[v], block, phase, v);
    SignVoteSteady(g, net.signed, net.nodes[v], block, phase, v);
    SteadyStands(g, net.signed, v, net.nodes[v], t);
    var after := Do(g, net, Vote(v, block, phase));
    forall m | Says(after.signed, v, m) ensures Standing(g, t, m) && NamesBlock(g, m) {
      assert Says(net.signed, v, m) || (vote.Some? && m == vote.value);
    }
  }

  lemma FinalizeStepStands(g: Genesis, net: Net, step: Step, v: Address)
    requires g.validators != [] && v in net.nodes
    requires NodeInv(g, net.signed, v, net.nodes[v]) && AllStanding(g, net.signed, v, net.nodes[v])
    requires (step.Finalize? || step.CrashedFinalize?) && step.v == v
    ensures AllStanding(g, Do(g, net, step).signed, v, Do(g, net, step).nodes[v])
  {
    var s, t := net.nodes[v], Do(g, net, step).nodes[v];
    if Acceptable(g, net.signed, s, step.block) {
      FinalizeKeeps(g, net.signed, v, s, step.block, t);
      forall m | Says(net.signed, v, m) ensures Standing(g, t, m) && NamesBlock(g, m) { assert Standing(g, s, m) && Recorded(s, m); }
    }
  }

  lemma StepStands(g: Genesis, net: Net, step: Step, v: Address)
    requires g.validators != [] && Inv(g, net) && v in net.nodes && AllStanding(g, net.signed, v, net.nodes[v])
    ensures v in Do(g, net, step).nodes && AllStanding(g, Do(g, net, step).signed, v, Do(g, net, step).nodes[v])
  {
    var after := Do(g, net, step);
    if !step.Forge? && step.v == v {
      if step.Vote? { VoteStepStands(g, net, v, step.block, step.phase); }
      else if step.Finalize? || step.CrashedFinalize? { FinalizeStepStands(g, net, step, v); }
      else {
        OwnStepSteady(g, net, step, v);
        SteadyStands(g, net.signed, v, net.nodes[v], after.nodes[v]);
      }
    } else {
      OthersSilent(g, net, step, v);
    }
  }

  lemma OthersSilent(g: Genesis, net: Net, step: Step, v: Address)
    requires g.validators != [] && v in net.nodes && (step.Forge? || step.v != v)
    ensures v in Do(g, net, step).nodes && Do(g, net, step).nodes[v] == net.nodes[v]
    ensures forall m :: Says(Do(g, net, step).signed, v, m) ==> Says(net.signed, v, m)
  {
    if step.Vote? && step.v in net.nodes { ReleasedIff(g, net.signed, net.nodes[step.v], step.block, step.phase, step.v); }
  }

  lemma {:induction false} RunStands(g: Genesis, honest: set<Address>, steps: seq<Step>, v: Address)
    requires g.validators != [] && v in honest
    ensures var net := Run(g, honest, steps); v in net.nodes && AllStanding(g, net.signed, v, net.nodes[v])
  {
    if steps != [] {
      var init := steps[..|steps| - 1];
      RunStands(g, honest, init, v);
      RunInv(g, honest, init);
      StepStands(g, Run(g, honest, init), steps[|steps| - 1], v);
    }
  }

  lemma StandingIsBound(g: Genesis, s: NodeState, m: PhaseVote, h: Header)
    requires g.validators != [] && m.blockHash == BlockHash(h) && NamesBlock(g, m) && m.height >= 1 && m.round >= 0
    requires m.height == s.roundHeight && m.round == s.currentRound && h.proposer == ProposerFor(g, h.height, h.round)
    requires Standing(g, s, m) && Recorded(s, m)
    ensures Bound(s, h, m.phase)
  {
  }

  lemma ExtendsSeat(g: Genesis, signed: set<Message>, s: NodeState, block: Block)
    requires g.validators != [] && Extends(g, signed, s, block)
    ensures block.header.height == |s.chain| + 1 && block.header.round >= 0
    ensures block.header.proposer == ProposerFor(g, block.header.height, block.header.round)
  {
  }

  lemma BoundVotes(g: Genesis, signed: set<Message>, s: NodeState, block: Block, phase: Phase, self: Address)
    requires g.validators != [] && InReach(g, signed, s, block) && Bound(s, block.header, phase)
    requires phase == Precommit ==> VoteQuorum(g, signed, block.header, Prevote, block.prevotes)
    ensures SignVote(g, signed, s, block, phase, self).1 == Some(VoteFor(g, block.header, phase, self))
  {
    ReleasedIff(g, signed, s, block, phase, self);
  }

  lemma StandingReturns(g: Genesis, signed: set<Message>, s: NodeState, m: PhaseVote, block: Block)
    requires g.validators != [] && s.roundHeight == |s.chain| + 1 && Extends(g, signed, s, block) && BlockHash(block.header) == m.blockHash
    requires m.height == |s.chain| + 1 && m.round == s.currentRound
    requires Standing(g, s, m) && NamesBlock(g, m) && Recorded(s, m)
    requires m.phase == Precommit ==> VoteQuorum(g, signed, block.header, Prevote, block.prevotes)
    ensures SignVote(g, signed, s, block, m.phase, m.voter).1 == Some(m)
  {
    ExtendsSeat(g, signed, s, block);
    StandingIsBound(g, s, m, block.header);
    BoundVotes(g, signed, s, block, m.phase, m.voter);
  }

  /** In every run: a vote an honest validator ever released is returned again whenever it is asked for the
      same block while still in that height and round, after any crashes and restarts in between. */
  lemma NoVoteIsLost(g: Genesis, honest: set<Address>, steps: seq<Step>, v: Address, m: PhaseVote, block: Block)
    returns (net: Net)
    requires g.validators != [] && v in honest && VoteMsg(m) in Run(g, honest, steps).signed && m.voter == v
    requires var s := Run(g, honest, steps).nodes;
             v in s && m.height == |s[v].chain| + 1 && m.round == s[v].currentRound
             && Extends(g, Run(g, honest, steps).signed, s[v], block)
    requires BlockHash(block.header) == m.blockHash
    requires m.phase == Precommit ==> VoteQuorum(g, Run(g, honest, steps).signed, block.header, Prevote, block.prevotes)
    ensures net == Run(g, honest, steps) && SignVote(g, net.signed, net.nodes[v], block, m.phase, v).1 == Some(m)
  {
    net := Run(g, honest, steps);
    RunStands(g, honest, steps, v);
    RunNode(g, honest, steps, v);
    assert Says(net.signed, v, m);
    StandingReturns(g, net.signed, net.nodes[v], m, block);
  }
}
