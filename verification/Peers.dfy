/** What honest validators send passes every check of their peers, in every run. */
module Peers {
  import opened Models
  import opened Execution
  import opened Blocks
  import opened Chain
  import opened Consensus
  import opened Network

  /** No lock is above the open height, and the lock there is not above the node's round. */
  ghost predicate LocksOk(s: NodeState) {
    && (forall h :: h in s.locks ==> h <= s.roundHeight)
    && (s.roundHeight in s.locks ==> 0 <= s.locks[s.roundHeight].round <= s.currentRound)
  }

  lemma AdvanceKeepsLocks(s: NodeState, t: NodeState)
    requires LocksOk(s) && Advances(s, t) && t.locks == s.locks
    ensures LocksOk(t)
  {
  }

  lemma LockKeepsLocks(s: NodeState, h: Header)
    requires LocksOk(s) && h.height == s.roundHeight && h.round == s.currentRound >= 0
    ensures LocksOk(RecordLock(s, h))
  {
  }

  lemma VoteLocks(g: Genesis, signed: set<Message>, s: NodeState, block: Block, phase: Phase, self: Address)
    requires g.validators != [] && Shape(g, signed, s) && LocksOk(s)
    ensures LocksOk(SignVote(g, signed, s, block, phase, self).0)
  {
    PrepareAdvances(g, signed, s, block);
    var (t, ok) := Prepare(g, signed, s, block);
    AdvanceKeepsLocks(s, t);
    if ok && MayVote(g, signed, t, block, phase) {
      LockKeepsLocks(RecordVote(t, block.header, phase), block.header);
    }
  }

  lemma CrashLocks(g: Genesis, signed: set<Message>, s: NodeState, block: Block, phase: Phase, point: CrashPoint)
    requires g.validators != [] && Shape(g, signed, s) && LocksOk(s)
    ensures LocksOk(Restart(CrashState(g, signed, s, block, phase, point)))
  {
    var t := CrashState(g, signed, s, block, phase, point);
    CrashAdvances(g, signed, s, block, phase, point);
    match point {
      case AfterRound =>
        EnterRoundAdvances(g, signed, s, block);
        AdvanceKeepsLocks(s, Restart(t));
      case AfterSeen =>
        PrepareAdvances(g, signed, s, block);
        AdvanceKeepsLocks(s, Restart(t));
      case AfterVote =>
        PrepareAdvances(g, signed, s, block);
        AdvanceKeepsLocks(s, Restart(t));
      case AfterLock =>
        VoteLocks(g, signed, s, block, phase, Address(""));
        SignVoteAdvances(g, signed, s, block, phase, Address(""));
    }
  }

  lemma FinalizeLocks(g: Genesis, signed: set<Message>, v: Address, s: NodeState, block: Block, t: NodeState)
    requires g.validators != [] && NodeInv(g, signed, v, s) && LocksOk(s) && Acceptable(g, signed, s, block)
    requires t == Accept(g, signed, s, block) || t == Restart(Applied(g, s, block))
    ensures LocksOk(t)
  {
    FinalizeKeeps(g, signed, v, s, block, t);
    assert t.locks.Keys <= s.locks.Keys;
  }

  lemma StepKeepsLocks(g: Genesis, net: Net, step: Step, v: Address)
    requires g.validators != [] && v in net.nodes && NodeInv(g, net.signed, v, net.nodes[v]) && LocksOk(net.nodes[v])
    requires !step.Forge? && step.v == v
    ensures v in Do(g, net, step).nodes && LocksOk(Do(g, net, step).nodes[v])
  {
    var s := net.nodes[v];
    match step {
      case Vote(_, block, phase) => VoteLocks(g, net.signed, s, block, phase, v);
      case CrashedVote(_, block, phase, point) => CrashLocks(g, net.signed, s, block, phase, point);
      case AskChange(_, height, fromRound, toRound, timedOut) =>
      case EndCollecting(_, height, fromRound, changes) => FinishLocks(g, net.signed, s, height, fromRound, changes);
      case Finalize(_, block) =>
        if Acceptable(g, net.signed, s, block) { FinalizeLocks(g, net.signed, v, s, block, Accept(g, net.signed, s, block)); }
      case CrashedFinalize(_, block) =>
        if Acceptable(g, net.signed, s, block) { FinalizeLocks(g, net.signed, v, s, block, Restart(Applied(g, s, block))); }
      case Reboot(_) =>
    }
  }

  lemma FinishLocks(g: Genesis, signed: set<Message>, s: NodeState, height: int, fromRound: int, changes: seq<ViewChange>)
    requires g.validators != [] && Shape(g, signed, s) && LocksOk(s)
    ensures LocksOk(FinishChange(g, signed, s, height, fromRound, changes))
  {
    if Collected(g, signed, height, fromRound, changes) {
      SetRoundAdvances(g, signed, s.(certificates := s.certificates[(height, fromRound + 1) := changes]), fromRound + 1);
      AdvanceKeepsLocks(s, FinishChange(g, signed, s, height, fromRound, changes));
    }
  }

  lemma {:induction false} RunLocks(g: Genesis, honest: set<Address>, steps: seq<Step>, v: Address)
    requires g.validators != [] && v in honest
    ensures v in Run(g, honest, steps).nodes && LocksOk(Run(g, honest, steps).nodes[v])
  {
    if steps != [] {
      var init, last := steps[..|steps| - 1], steps[|steps| - 1];
      RunLocks(g, honest, init, v);
      RunNode(g, honest, init, v);
      if !last.Forge? && last.v == v { StepKeepsLocks(g, Run(g, honest, init), last, v); }
    }
  }

  /** In every run, a view change an honest validator answers with passes every check of the peer that
      asked, and reports the lock the validator really holds. */
  lemma HonestChangesAreAccepted(g: Genesis, honest: set<Address>, steps: seq<Step>, v: Address, height: int, fromRound: int, toRound: int, timedOut: bool)
    requires Setting(g, honest) && v in honest && v in Run(g, honest, steps).nodes
    requires SignChange(g, Run(g, honest, steps).nodes[v], height, fromRound, toRound, timedOut, v).1.Some?
    ensures var net := Run(g, honest, steps);
            var change := SignChange(g, net.nodes[v], height, fromRound, toRound, timedOut, v).1.value;
            && ChangeMatches(g, net.signed + {ChangeMsg(change)}, height, fromRound, toRound, change)
            && LockFieldsOk(change)
            && (change.lockedHash.Some? <==> height in net.nodes[v].locks)
            && (change.lockedHash.Some? ==> change.lockedHash.value == net.nodes[v].locks[height].hash)
  {
    RunLocks(g, honest, steps, v);
    RunNode(g, honest, steps, v);
  }

  /** A vote a validator returns for a proposal is one the collector of that proposal accepts. */
  lemma HonestVotesAreAccepted(g: Genesis, signed: set<Message>, s: NodeState, block: Block, phase: Phase, v: Address)
    requires g.validators != [] && v in g.validators
    requires SignVote(g, signed, s, block, phase, v).1.Some?
    ensures var vote := SignVote(g, signed, s, block, phase, v).1.value;
            VoteMatches(g, signed + {VoteMsg(vote)}, block.header, phase, vote) && vote.voter == v
  {
  }
}
