/** Round discipline: rounds only rise, and every round was entered through a quorum of view
    changes, unless a collector finishes after its height has closed. */
module Rounds {
  import opened Models
  import opened Execution
  import opened Blocks
  import opened Chain
  import opened Consensus
  import opened Network
  import Merkle

  /** What any step does to one honest validator: move inside its height, or finalize one block. */
  ghost predicate Moves(s: NodeState, t: NodeState) {
    || Advances(s, t)
    || (|t.chain| == |s.chain| + 1 && s.chain <= t.chain && t.roundHeight == s.roundHeight + 1 && t.currentRound == 0)
  }

  lemma FinalizeMoves(g: Genesis, signed: set<Message>, v: Address, s: NodeState, block: Block, t: NodeState)
    requires g.validators != [] && NodeInv(g, signed, v, s) && Acceptable(g, signed, s, block)
    requires t == Accept(g, signed, s, block) || t == Restart(Applied(g, s, block))
    ensures Moves(s, t)
  {
    FinalizeKeeps(g, signed, v, s, block, t);
  }

  /** A step of one validator, or a forgery, leaves every other validator alone. */
  lemma OthersStay(g: Genesis, net: Net, step: Step, v: Address)
    requires g.validators != [] && v in net.nodes && (step.Forge? || step.v != v)
    ensures v in Do(g, net, step).nodes && Do(g, net, step).nodes[v] == net.nodes[v]
  {
  }

  lemma StepMoves(g: Genesis, net: Net, step: Step, v: Address)
    requires g.validators != [] && v in net.nodes && NodeInv(g, net.signed, v, net.nodes[v])
    ensures v in Do(g, net, step).nodes && Moves(net.nodes[v], Do(g, net, step).nodes[v])
  {
    if step.Forge? || step.v != v { OthersStay(g, net, step, v); }
    else { OwnStepMoves(g, net, step, v); }
  }

  lemma OwnStepMoves(g: Genesis, net: Net, step: Step, v: Address)
    requires g.validators != [] && v in net.nodes && NodeInv(g, net.signed, v, net.nodes[v]) && !step.Forge? && step.v == v
    ensures v in Do(g, net, step).nodes && Moves(net.nodes[v], Do(g, net, step).nodes[v])
  {
    var s := net.nodes[v];
    match step {
      case Vote(_, block, phase) => SignVoteAdvances(g, net.signed, s, block, phase, v);
      case CrashedVote(_, block, phase, point) => CrashAdvances(g, net.signed, s, block, phase, point);
      case AskChange(_, height, fromRound, toRound, timedOut) =>
        SignChangeAdvances(g, net.signed, s, height, fromRound, toRound, timedOut, v);
      case EndCollecting(_, height, fromRound, changes) => FinishAdvances(g, net.signed, s, height, fromRound, changes);
      case Finalize(_, block) =>
        if Acceptable(g, net.signed, s, block) { FinalizeMoves(g, net.signed, v, s, block, Accept(g, net.signed, s, block)); }
      case CrashedFinalize(_, block) =>
        if Acceptable(g, net.signed, s, block) { FinalizeMoves(g, net.signed, v, s, block, Restart(Applied(g, s, block))); }
      case Reboot(_) =>
    }
  }

  ghost predicate NotBefore(s: NodeState, t: NodeState) {
    && s.chain <= t.chain
    && (|s.chain| == |t.chain| ==> s.currentRound <= t.currentRound)
  }

  /** Along every run a validator's finalized chain only grows, and its round at a height never
      goes down, crashes and restarts included. */
  lemma {:induction false} RoundsNeverDrop(g: Genesis, honest: set<Address>, steps: seq<Step>, n: nat, v: Address)
    requires g.validators != [] && v in honest && n <= |steps|
    ensures v in Run(g, honest, steps[..n]).nodes && v in Run(g, honest, steps).nodes
    ensures NotBefore(Run(g, honest, steps[..n]).nodes[v], Run(g, honest, steps).nodes[v])
    decreases |steps|
  {
    if n == |steps| {
      assert steps[..n] == steps;
      RunNode(g, honest, steps, v);
    } else {
      var init, last := steps[..|steps| - 1], steps[|steps| - 1];
      assert init[..n] == steps[..n];
      RoundsNeverDrop(g, honest, init, n, v);
      RunNode(g, honest, init, v);
      StepMoves(g, Run(g, honest, init), last, v);
    }
  }

  // ---- every round was entered through a quorum ----

  /** For every round below its own at the open height, a quorum signed the change to the next. */
  ghost predicate Disciplined(g: Genesis, signed: set<Message>, s: NodeState) {
    forall r :: 0 <= r < s.currentRound ==> ChangeCertified(g, signed, s.roundHeight, r)
  }

  /** A view change signed by an honest validator: it was in that round and saw it time out. */
  ghost predicate ChangeRecorded(net: Net, c: ViewChange)
    requires c.voter in net.nodes
  {
    var s := net.nodes[c.voter];
    && (c.voter, c.height, c.fromRound) in net.timeouts
    && c.height <= s.roundHeight
    && (c.height == s.roundHeight ==> c.fromRound <= s.currentRound)
  }

  ghost predicate ChangesRecorded(net: Net) {
    forall c :: ChangeMsg(c) in net.signed && c.voter in net.nodes ==> ChangeRecorded(net, c)
  }

  lemma NewChanges(g: Genesis, net: Net, step: Step, c: ViewChange)
    requires g.validators != [] && c.voter in net.nodes
    requires NodeInv(g, net.signed, c.voter, net.nodes[c.voter])
    requires ChangeMsg(c) in Do(g, net, step).signed && ChangeMsg(c) !in net.signed
    ensures c.voter in Do(g, net, step).nodes && ChangeRecorded(Do(g, net, step), c)
  {
    assert step.AskChange? && step.v == c.voter;
    SignChangeAdvances(g, net.signed, net.nodes[step.v], step.height, step.fromRound, step.toRound, step.timedOut, step.v);
  }

  lemma OldChanges(g: Genesis, net: Net, step: Step, c: ViewChange)
    requires g.validators != [] && c.voter in net.nodes && NodeInv(g, net.signed, c.voter, net.nodes[c.voter])
    requires ChangeRecorded(net, c)
    ensures c.voter in Do(g, net, step).nodes && ChangeRecorded(Do(g, net, step), c)
  {
    StepMoves(g, net, step, c.voter);
    assert net.timeouts <= Do(g, net, step).timeouts;
  }

  lemma StepKeepsChanges(g: Genesis, net: Net, step: Step)
    requires g.validators != [] && Inv(g, net) && ChangesRecorded(net)
    ensures ChangesRecorded(Do(g, net, step))
  {
    var after := Do(g, net, step);
    StepKeepsNodes(g, net, step);
    forall c | ChangeMsg(c) in after.signed && c.voter in after.nodes ensures ChangeRecorded(after, c) {
      if ChangeMsg(c) in net.signed { OldChanges(g, net, step, c); } else { NewChanges(g, net, step, c); }
    }
  }

  /** A collector that ends while its height is still open, or that raises nothing: what a caller
      can check before the ending. */
  ghost predicate Timely(g: Genesis, net: Net, step: Step) {
    step.EndCollecting? && step.v in net.nodes ==>
      || step.height == net.nodes[step.v].roundHeight
      || step.fromRound + 1 <= net.nodes[step.v].currentRound
      || !Collected(g, net.signed, step.height, step.fromRound, step.changes)
  }

  /** An ending that is timely, or that skips only changes which are certified anyway. */
  ghost predicate Harmless(g: Genesis, net: Net, step: Step) {
    step.EndCollecting? && step.v in net.nodes && Includes(step.changes, step.v) ==>
      || Timely(g, net, step)
      || forall r :: net.nodes[step.v].currentRound <= r <= step.fromRound ==>
           ChangeCertified(g, net.signed, net.nodes[step.v].roundHeight, r)
  }

  ghost predicate TimelyRun(g: Genesis, honest: set<Address>, steps: seq<Step>)
    requires g.validators != []
  {
    forall i :: 0 <= i < |steps| ==> Timely(g, Run(g, honest, steps[..i]), steps[i])
  }

  ghost predicate HarmlessRun(g: Genesis, honest: set<Address>, steps: seq<Step>)
    requires g.validators != []
  {
    forall i :: 0 <= i < |steps| ==> Harmless(g, Run(g, honest, steps[..i]), steps[i])
  }

  lemma TimelyIsHarmless(g: Genesis, honest: set<Address>, steps: seq<Step>)
    requires g.validators != [] && TimelyRun(g, honest, steps)
    ensures HarmlessRun(g, honest, steps)
  {
    forall i | 0 <= i < |steps| ensures Harmless(g, Run(g, honest, steps[..i]), steps[i]) {
      assert Timely(g, Run(g, honest, steps[..i]), steps[i]);
    }
  }

  lemma DisciplineGrows(g: Genesis, signed: set<Message>, more: set<Message>, s: NodeState)
    requires signed <= more && Disciplined(g, signed, s)
    ensures Disciplined(g, more, s)
  {
    forall r | 0 <= r < s.currentRound ensures ChangeCertified(g, more, s.roundHeight, r) {
      ChangeCertifiedGrows(g, signed, more, s.roundHeight, r);
    }
  }

  /** A proposal of the next round brings the certificate for leaving this one. */
  lemma EntryCertified(g: Genesis, signed: set<Message>, s: NodeState, block: Block)
    requires g.validators != [] && s.roundHeight == s.Height() + 1 && s.currentRound >= 0
    requires RoundAcceptable(g, signed, s, block) && block.header.round > s.currentRound
    ensures block.header.round == s.currentRound + 1 && ChangeCertified(g, signed, s.roundHeight, s.currentRound)
  {
    ChangesCertify(g, signed, block.header.height, s.currentRound, block.viewChanges);
  }

  lemma OneRoundUp(g: Genesis, signed: set<Message>, s: NodeState, t: NodeState)
    requires Disciplined(g, signed, s) && t.roundHeight == s.roundHeight
    requires t.currentRound == s.currentRound
             || (t.currentRound == s.currentRound + 1 && ChangeCertified(g, signed, s.roundHeight, s.currentRound))
    ensures Disciplined(g, signed, t)
  {
  }

  /** Entering a proposal's round is covered by the proposal's own certificate. */
  lemma PrepareDisciplined(g: Genesis, signed: set<Message>, s: NodeState, block: Block)
    requires g.validators != [] && Shape(g, signed, s) && Disciplined(g, signed, s)
    requires RoundAcceptable(g, signed, s, block)
    ensures Disciplined(g, signed, EnterRound(s, block))
  {
    EnterRoundAdvances(g, signed, s, block);
    if block.header.round > s.currentRound { EntryCertified(g, signed, s, block); }
    OneRoundUp(g, signed, s, EnterRound(s, block));
  }

  function Entered(g: Genesis, signed: set<Message>, s: NodeState, block: Block): NodeState
    requires g.validators != []
  {
    if RoundAcceptable(g, signed, s, block) then EnterRound(s, block) else s
  }

  ghost predicate SameRounds(t: NodeState, u: NodeState) {
    t.chain == u.chain && t.rounds == u.rounds && t.currentRound == u.currentRound && t.roundHeight == u.roundHeight
  }

  lemma SyncStays(s: NodeState)
    requires s.roundHeight == s.Height() + 1
    ensures Sync(s) == s
  {
  }

  lemma SeenKeepsRounds(s: NodeState, h: Header)
    ensures SameRounds(s, RecordSeen(s, h))
  {
  }

  lemma RecordsKeepRounds(s: NodeState, h: Header, phase: Phase)
    ensures SameRounds(s, RecordVote(s, h, phase)) && SameRounds(s, RecordLock(s, h))
  {
  }

  lemma PrepareRound(g: Genesis, signed: set<Message>, s: NodeState, block: Block)
    requires g.validators != [] && Shape(g, signed, s)
    ensures SameRounds(Entered(g, signed, s, block), Prepare(g, signed, s, block).0)
  {
    SyncStays(s);
    SeenKeepsRounds(EnterRound(s, block), block.header);
  }

  /** The round a vote handler leaves the node in, however far it got. */
  lemma VoteRound(g: Genesis, signed: set<Message>, s: NodeState, block: Block, phase: Phase, self: Address)
    requires g.validators != [] && Shape(g, signed, s)
    ensures SameRounds(Entered(g, signed, s, block), SignVote(g, signed, s, block, phase, self).0)
  {
    PrepareRound(g, signed, s, block);
    var t := Prepare(g, signed, s, block).0;
    RecordsKeepRounds(t, block.header, phase);
    RecordsKeepRounds(RecordVote(t, block.header, phase), block.header, phase);
  }

  lemma CrashRound(g: Genesis, signed: set<Message>, s: NodeState, block: Block, phase: Phase, point: CrashPoint)
    requires g.validators != [] && Shape(g, signed, s)
    ensures SameRounds(Entered(g, signed, s, block), CrashState(g, signed, s, block, phase, point))
  {
    match point {
      case AfterRound => SyncStays(s);
      case AfterSeen => PrepareRound(g, signed, s, block);
      case AfterVote =>
        PrepareRound(g, signed, s, block);
        RecordsKeepRounds(Prepare(g, signed, s, block).0, block.header, phase);
      case AfterLock => VoteRound(g, signed, s, block, phase, Address(""));
    }
  }

  lemma VoteDisciplined(g: Genesis, signed: set<Message>, s: NodeState, block: Block, phase: Phase, point: CrashPoint, self: Address)
    requires g.validators != [] && Shape(g, signed, s) && Disciplined(g, signed, s)
    ensures Disciplined(g, signed, SignVote(g, signed, s, block, phase, self).0)
    ensures Disciplined(g, signed, Restart(CrashState(g, signed, s, block, phase, point)))
  {
    var t := Entered(g, signed, s, block);
    assert Disciplined(g, signed, t) && Advances(s, t) by {
      EnterRoundAdvances(g, signed, s, block);
      if RoundAcceptable(g, signed, s, block) { PrepareDisciplined(g, signed, s, block); }
    }
    VoteRound(g, signed, s, block, phase, self);
    CrashRound(g, signed, s, block, phase, point);
  }

  lemma FinishRound(g: Genesis, signed: set<Message>, s: NodeState, height: int, fromRound: int, changes: seq<ViewChange>)
    requires g.validators != [] && Shape(g, signed, s) && Collected(g, signed, height, fromRound, changes)
    ensures var t := FinishChange(g, signed, s, height, fromRound, changes);
            && t.roundHeight == s.roundHeight
            && t.currentRound == if fromRound + 1 <= s.currentRound then s.currentRound else fromRound + 1
  {
    SetRoundAdvances(g, signed, s.(certificates := s.certificates[(height, fromRound + 1) := changes]), fromRound + 1);
  }

  /** The collector's own message places its certificate: not above the open height, and at the
      open height not above its round. */
  lemma OwnChange(g: Genesis, net: Net, v: Address, height: int, fromRound: int, changes: seq<ViewChange>)
    requires ChangesRecorded(net) && v in net.nodes && Includes(changes, v)
    requires Collected(g, net.signed, height, fromRound, changes)
    ensures height <= net.nodes[v].roundHeight
    ensures height == net.nodes[v].roundHeight ==> fromRound <= net.nodes[v].currentRound
    ensures ChangeCertified(g, net.signed, height, fromRound)
  {
    var i :| 0 <= i < |changes| && changes[i].voter == v;
    assert ChangeRecorded(net, changes[i]);
    ChangesCertify(g, net.signed, height, fromRound, changes);
  }

  /** An ending collector keeps the discipline of its node if and only if its height is still open,
      it raises nothing, or every change it skips is certified anyway. */
  lemma EndingDisciplinedIff(g: Genesis, net: Net, v: Address, height: int, fromRound: int, changes: seq<ViewChange>)
    requires g.validators != [] && v in net.nodes && NodeInv(g, net.signed, v, net.nodes[v])
    requires ChangesRecorded(net) && Includes(changes, v)
    requires Disciplined(g, net.signed, net.nodes[v])
    requires Collected(g, net.signed, height, fromRound, changes)
    ensures var s := net.nodes[v];
            Disciplined(g, net.signed, FinishChange(g, net.signed, s, height, fromRound, changes))
            <==> || height == s.roundHeight
                 || fromRound < s.currentRound
                 || forall r :: s.currentRound <= r <= fromRound ==> ChangeCertified(g, net.signed, s.roundHeight, r)
  {
    FinishRound(g, net.signed, net.nodes[v], height, fromRound, changes);
    OwnChange(g, net, v, height, fromRound, changes);
  }

  lemma StepDisciplined(g: Genesis, net: Net, step: Step, v: Address)
    requires g.validators != [] && Inv(g, net) && ChangesRecorded(net) && Harmless(g, net, step)
    requires v in net.nodes && Disciplined(g, net.signed, net.nodes[v])
    ensures v in Do(g, net, step).nodes && Disciplined(g, net.signed, Do(g, net, step).nodes[v])
  {
    var s := net.nodes[v];
    assert NodeInv(g, net.signed, v, s);
    if step.Vote? && step.v == v {
      VoteDisciplined(g, net.signed, s, step.block, step.phase, AfterSeen, v);
    } else if step.CrashedVote? && step.v == v {
      VoteDisciplined(g, net.signed, s, step.block, step.phase, step.point, v);
    } else if step.EndCollecting? {
      if step.v == v && Includes(step.changes, v) && Collected(g, net.signed, step.height, step.fromRound, step.changes) {
        EndingDisciplinedIff(g, net, v, step.height, step.fromRound, step.changes);
      }
    } else if step.Finalize? || step.CrashedFinalize? {
      FinalizeDisciplined(g, net, step, v);
    }
  }

  /** A finalizing step either does nothing or opens the next height at round 0. */
  lemma FinalizeDisciplined(g: Genesis, net: Net, step: Step, v: Address)
    requires g.validators != [] && v in net.nodes && NodeInv(g, net.signed, v, net.nodes[v])
    requires Disciplined(g, net.signed, net.nodes[v]) && (step.Finalize? || step.CrashedFinalize?)
    ensures Disciplined(g, net.signed, Do(g, net, step).nodes[v])
  {
    if step.v == v && Acceptable(g, net.signed, net.nodes[v], step.block) {
      FinalizeKeeps(g, net.signed, v, net.nodes[v], step.block, Do(g, net, step).nodes[v]);
    }
  }

  lemma {:induction false} RunChangesRecorded(g: Genesis, honest: set<Address>, steps: seq<Step>)
    requires g.validators != []
    ensures ChangesRecorded(Run(g, honest, steps))
  {
    if steps != [] {
      var net := Run(g, honest, steps[..|steps| - 1]);
      RunChangesRecorded(g, honest, steps[..|steps| - 1]);
      RunInv(g, honest, steps[..|steps| - 1]);
      StepKeepsChanges(g, net, steps[|steps| - 1]);
    }
  }

  lemma {:induction false} RunDisciplined(g: Genesis, honest: set<Address>, steps: seq<Step>, v: Address)
    requires g.validators != [] && v in honest && HarmlessRun(g, honest, steps)
    ensures var net := Run(g, honest, steps); v in net.nodes && Disciplined(g, net.signed, net.nodes[v])
  {
    if steps != [] {
      var init, last := steps[..|steps| - 1], steps[|steps| - 1];
      assert forall i :: 0 <= i < |init| ==> init[..i] == steps[..i] && init[i] == steps[i];
      RunDisciplined(g, honest, init, v);
      RunInv(g, honest, init);
      RunChangesRecorded(g, honest, init);
      DisciplinedNext(g, Run(g, honest, init), last, v);
    }
  }

  lemma DisciplinedNext(g: Genesis, net: Net, step: Step, v: Address)
    requires g.validators != [] && Inv(g, net) && ChangesRecorded(net) && Harmless(g, net, step)
    requires v in net.nodes && Disciplined(g, net.signed, net.nodes[v])
    ensures v in Do(g, net, step).nodes && Disciplined(g, Do(g, net, step).signed, Do(g, net, step).nodes[v])
  {
    StepDisciplined(g, net, step, v);
    StepKeepsNodes(g, net, step);
    DisciplineGrows(g, net.signed, Do(g, net, step).signed, Do(g, net, step).nodes[v]);
  }

  /** Every honest validator is disciplined at every moment of the run. */
  ghost predicate DisciplinedRun(g: Genesis, honest: set<Address>, steps: seq<Step>)
    requires g.validators != []
  {
    forall n, v :: 0 <= n <= |steps| && v in honest ==>
      var net := Run(g, honest, steps[..n]); v in net.nodes && Disciplined(g, net.signed, net.nodes[v])
  }

  lemma HarmfulStep(g: Genesis, net: Net, step: Step)
    requires g.validators != [] && Inv(g, net) && ChangesRecorded(net) && !Harmless(g, net, step)
    requires Disciplined(g, net.signed, net.nodes[step.v])
    ensures step.v in Do(g, net, step).nodes && !Disciplined(g, Do(g, net, step).signed, Do(g, net, step).nodes[step.v])
  {
    EndingDisciplinedIff(g, net, step.v, step.height, step.fromRound, step.changes);
  }

  lemma RunNext(g: Genesis, honest: set<Address>, steps: seq<Step>, i: nat) returns (net: Net, next: Net)
    requires g.validators != [] && i < |steps|
    ensures net == Run(g, honest, steps[..i]) && Inv(g, net) && ChangesRecorded(net) && net.nodes.Keys == honest
    ensures next == Run(g, honest, steps[..i + 1]) == Do(g, net, steps[i])
  {
    net, next := Run(g, honest, steps[..i]), Run(g, honest, steps[..i + 1]);
    RunInv(g, honest, steps[..i]);
    RunChangesRecorded(g, honest, steps[..i]);
    assert steps[..i + 1][..i] == steps[..i];
  }

  lemma HarmfulBreaks(g: Genesis, honest: set<Address>, steps: seq<Step>, i: nat)
    requires g.validators != [] && i < |steps| && !Harmless(g, Run(g, honest, steps[..i]), steps[i])
    ensures !DisciplinedRun(g, honest, steps)
  {
    var net, next := RunNext(g, honest, steps, i);
    var v := steps[i].v;
    if Disciplined(g, net.signed, net.nodes[v]) {
      HarmfulStep(g, net, steps[i]);
      assert !(v in next.nodes && Disciplined(g, next.signed, next.nodes[v]));
    }
  }

  /** Round discipline holds throughout a run if and only if every ending in it is harmless. */
  lemma DisciplinedRunIff(g: Genesis, honest: set<Address>, steps: seq<Step>)
    requires g.validators != []
    ensures DisciplinedRun(g, honest, steps) <==> HarmlessRun(g, honest, steps)
  {
    if HarmlessRun(g, honest, steps) {
      forall n, v | 0 <= n <= |steps| && v in honest
        ensures var net := Run(g, honest, steps[..n]); v in net.nodes && Disciplined(g, net.signed, net.nodes[v])
      {
        assert forall i :: 0 <= i < n ==> steps[..n][..i] == steps[..i] && steps[..n][i] == steps[i];
        RunDisciplined(g, honest, steps[..n], v);
      }
    } else {
      var i :| 0 <= i < |steps| && !Harmless(g, Run(g, honest, steps[..i]), steps[i]);
      HarmfulBreaks(g, honest, steps, i);
    }
  }

  /** A certified change has an honest signer who saw the round time out. */
  lemma CertifiedMeansTimeout(g: Genesis, net: Net, height: int, r: int) returns (a: Address)
    requires Setting(g, net.nodes.Keys) && ChangesRecorded(net) && ChangeCertified(g, net.signed, height, r)
    ensures a in net.nodes && (a, height, r) in net.timeouts
  {
    a := QuorumHasHonest(g, net.nodes.Keys, Askers(g, net.signed, height, r));
    var c :| ChangeMsg(c) in net.signed && c.voter == a && c.height == height && c.fromRound == r;
    assert ChangeRecorded(net, c);
  }

  /** In every harmless run, so in every timely one: a validator in round r of its height has behind it, for every smaller
      round, a signed quorum for the change, and in that quorum an honest validator that was in
      that round and saw it time out. */
  lemma RoundsAreEarned(g: Genesis, honest: set<Address>, steps: seq<Step>, v: Address, r: int) returns (a: Address)
    requires Setting(g, honest) && v in honest && HarmlessRun(g, honest, steps)
    requires v in Run(g, honest, steps).nodes && 0 <= r < Run(g, honest, steps).nodes[v].currentRound
    ensures var net := Run(g, honest, steps);
            && ChangeCertified(g, net.signed, net.nodes[v].roundHeight, r)
            && a in honest && (a, net.nodes[v].roundHeight, r) in net.timeouts
  {
    var net := Run(g, honest, steps);
    assert net.nodes.Keys == honest by { RunInv(g, honest, steps); }
    assert Disciplined(g, net.signed, net.nodes[v]) by { RunDisciplined(g, honest, steps, v); }
    assert ChangesRecorded(net) by { RunChangesRecorded(g, honest, steps); }
    a := CertifiedMeansTimeout(g, net, net.nodes[v].roundHeight, r);
  }
}
