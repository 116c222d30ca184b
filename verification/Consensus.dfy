/** One validator: its durable consensus records, its volatile round, and its vote handlers. */
module Consensus {
  import opened Models
  import opened Execution
  import opened Blocks
  import opened Chain
  import Mempool

  datatype Lock = Lock(round: int, hash: Digest)

  /** The ledger tables and the fields of a running node. Everything up to `changes` is durable. */
  datatype NodeState = NodeState(
    chain: seq<Block>,
    accounts: Accounts,
    rounds: map<int, int>,
    votes: map<(int, int, Phase), Digest>,
    locks: map<int, Lock>,
    seen: map<(int, int, Address), Digest>,
    changes: map<(int, int), int>,
    roundHeight: int,
    currentRound: int,
    certificates: map<(int, int), seq<ViewChange>>)
  {
    function Height(): nat { |chain| }
    function LastHash(): Digest { Tip(chain) }
    function RoundAt(height: int): int { if height in rounds then rounds[height] else 0 }
    function LockedAt(height: int): (int, Option<Digest>) {
      if height in locks then (locks[height].round, Some(locks[height].hash)) else (-1, None)
    }
  }

  function Fresh(g: Genesis): NodeState {
    NodeState([], GenesisAccounts(g), map[], map[], map[], map[], map[], 1, 0, map[])
  }

  /** A new process on the same database. */
  function Restart(s: NodeState): NodeState {
    s.(roundHeight := s.Height() + 1, currentRound := s.RoundAt(s.Height() + 1), certificates := map[])
  }

  function Sync(s: NodeState): NodeState {
    if s.Height() + 1 != s.roundHeight
    then s.(roundHeight := s.Height() + 1, currentRound := s.RoundAt(s.Height() + 1))
    else s
  }

  function RecordRound(s: NodeState, height: int, round: int): NodeState {
    if height !in s.rounds || round > s.rounds[height] then s.(rounds := s.rounds[height := round]) else s
  }

  function SetRound(s: NodeState, round: int): NodeState {
    var t := Sync(s);
    if round <= t.currentRound then t
    else RecordRound(t, t.roundHeight, round).(currentRound := round)
  }

  // ---- voting ----

  predicate ValidProposal(g: Genesis, signed: set<Message>, s: NodeState, block: Block)
    requires g.validators != []
  {
    && HeaderOk(g, signed, block.header, s.Height() + 1, s.LastHash())
    && ChangeCertificate(g, signed, block.header, block.viewChanges)
    && (forall i :: 0 <= i < |block.viewChanges| ==> LockFieldsOk(block.viewChanges[i]))
    && ReplayTransactions(g, s.accounts, block.header).Some?
  }

  /** The proposal is valid and its round is the node's own or the next one. */
  predicate RoundAcceptable(g: Genesis, signed: set<Message>, s: NodeState, block: Block)
    requires g.validators != []
  {
    ValidProposal(g, signed, s, block) && s.currentRound <= block.header.round <= s.currentRound + 1
  }

  function EnterRound(s: NodeState, block: Block): NodeState {
    var h := block.header;
    if h.round > s.currentRound
    then SetRound(s.(certificates := s.certificates[(h.height, h.round) := block.viewChanges]), h.round)
    else s
  }

  function SeenKey(h: Header): (int, int, Address) { (h.height, h.round, h.proposer) }

  predicate Equivocates(s: NodeState, h: Header) {
    SeenKey(h) in s.seen && s.seen[SeenKey(h)] != BlockHash(h)
  }

  function RecordSeen(s: NodeState, h: Header): NodeState {
    if SeenKey(h) in s.seen then s else s.(seen := s.seen[SeenKey(h) := BlockHash(h)])
  }

  /** `_prepare_vote_round`: what it leaves behind, and whether it raised. */
  function Prepare(g: Genesis, signed: set<Message>, s: NodeState, block: Block): (NodeState, bool)
    requires g.validators != []
  {
    var t := Sync(s);
    if !RoundAcceptable(g, signed, t, block) then (t, false)
    else
      var u := EnterRound(t, block);
      (RecordSeen(u, block.header), !Equivocates(u, block.header))
  }

  function VoteKey(h: Header, phase: Phase): (int, int, Phase) { (h.height, h.round, phase) }

  /** The lock, the prevote certificate a precommit needs, and the one vote per phase and round. */
  predicate MayVote(g: Genesis, signed: set<Message>, s: NodeState, block: Block, phase: Phase) {
    var h := block.header;
    && (h.height in s.locks ==> s.locks[h.height].hash == BlockHash(h))
    && (phase == Precommit ==> PhaseCertificate(g, signed, h, Prevote, block.prevotes))
    && (VoteKey(h, phase) in s.votes ==> s.votes[VoteKey(h, phase)] == BlockHash(h))
  }

  function RecordVote(s: NodeState, h: Header, phase: Phase): NodeState {
    s.(votes := s.votes[VoteKey(h, phase) := BlockHash(h)])
  }

  function RecordLock(s: NodeState, h: Header): NodeState {
    if h.height !in s.locks || h.round > s.locks[h.height].round
    then s.(locks := s.locks[h.height := Lock(h.round, BlockHash(h))])
    else s
  }

  function VoteFor(g: Genesis, h: Header, phase: Phase, self: Address): PhaseVote {
    PhaseVote(g.chainId, h.height, h.round, phase, BlockHash(h), self)
  }

  /** `_sign_phase_vote`: the new state and the vote it returns, if it returns one. */
  function SignVote(g: Genesis, signed: set<Message>, s: NodeState, block: Block, phase: Phase, self: Address): (NodeState, Option<PhaseVote>)
    requires g.validators != []
  {
    var (t, ok) := Prepare(g, signed, s, block);
    if !ok || !MayVote(g, signed, t, block, phase) then (t, None)
    else
      var u := RecordVote(t, block.header, phase);
      (if phase == Precommit then RecordLock(u, block.header) else u, Some(VoteFor(g, block.header, phase, self)))
  }

  // ---- view changes ----

  function RecordChange(s: NodeState, height: int, fromRound: int): NodeState {
    s.(changes := s.changes[(height, fromRound + 1) := fromRound])
  }

  /** `sign_view_change`; `timedOut` is the verdict of the monotonic clock. */
  function SignChange(g: Genesis, s: NodeState, height: int, fromRound: int, toRound: int, timedOut: bool, self: Address)
    : (NodeState, Option<ViewChange>)
  {
    var t := Sync(s);
    if height != t.Height() + 1 || fromRound != t.currentRound || toRound != fromRound + 1 || !timedOut then (t, None)
    else if (height, toRound) in t.changes && t.changes[(height, toRound)] != fromRound then (t, None)
    else
      var (lockedRound, lockedHash) := t.LockedAt(height);
      (RecordChange(t, height, fromRound),
       Some(ViewChange(g.chainId, height, fromRound, toRound, self, lockedRound, lockedHash)))
  }

  /** The collected messages are a certificate for `height`, `fromRound` as they were when collecting began. */
  predicate Collected(g: Genesis, signed: set<Message>, height: int, fromRound: int, changes: seq<ViewChange>) {
    && (forall i :: 0 <= i < |changes| ==>
          ChangeMatches(g, signed, height, fromRound, fromRound + 1, changes[i]) && LockFieldsOk(changes[i]))
    && (forall i, j :: 0 <= i < j < |changes| ==> changes[i].voter != changes[j].voter)
    && |changes| >= QuorumSize(g)
  }

  /** The rest of `collect_view_change_certificate`, after its network wait: `height` and
      `fromRound` are the ones read before the wait. */
  function FinishChange(g: Genesis, signed: set<Message>, s: NodeState, height: int, fromRound: int, changes: seq<ViewChange>): NodeState {
    if Collected(g, signed, height, fromRound, changes)
    then SetRound(s.(certificates := s.certificates[(height, fromRound + 1) := changes]), fromRound + 1)
    else s
  }

  // ---- finalization ----

  function Applied(g: Genesis, s: NodeState, block: Block): NodeState
    requires ReplayTransactions(g, s.accounts, block.header).Some?
  {
    s.(chain := s.chain + [block], accounts := ReplayTransactions(g, s.accounts, block.header).value)
  }

  function Prune(s: NodeState, height: int): NodeState {
    s.(rounds := map h | h in s.rounds && h > height :: s.rounds[h],
       votes := map k | k in s.votes && k.0 > height :: s.votes[k],
       locks := map h | h in s.locks && h > height :: s.locks[h],
       seen := map k | k in s.seen && k.0 > height :: s.seen[k],
       changes := map k | k in s.changes && k.0 > height :: s.changes[k])
  }

  function DropCertificates(s: NodeState, height: int): NodeState {
    s.(certificates := map k | k in s.certificates && k.0 > height :: s.certificates[k])
  }

  predicate Acceptable(g: Genesis, signed: set<Message>, s: NodeState, block: Block)
    requires g.validators != []
  {
    && ValidProposal(g, signed, s, block)
    && PhaseCertificate(g, signed, block.header, Prevote, block.prevotes)
    && PhaseCertificate(g, signed, block.header, Precommit, block.precommits)
  }

  /** `accept_block` */
  function Accept(g: Genesis, signed: set<Message>, s: NodeState, block: Block): NodeState
    requires g.validators != []
  {
    if !Acceptable(g, signed, s, block) then s
    else Sync(DropCertificates(Prune(Applied(g, s, block), block.header.height), block.header.height))
  }

  // ---- the running node ----

  /** A validator process. Signature checks consult `signed`, the messages genuinely signed so far. */
  class ValidatorNode {
    const g: Genesis
    const self: Address
    var chain: seq<Block>
    var accounts: Accounts
    var rounds: map<int, int>
    var votes: map<(int, int, Phase), Digest>
    var locks: map<int, Lock>
    var seen: map<(int, int, Address), Digest>
    var changes: map<(int, int), int>
    var roundHeight: int
    var currentRound: int
    var certificates: map<(int, int), seq<ViewChange>>
    const pool: Mempool.Pool

    ghost predicate Valid()
      reads pool
    {
      g.validators != [] && pool.Valid()
    }

    function State(): NodeState
      reads this
    {
      NodeState(chain, accounts, rounds, votes, locks, seen, changes, roundHeight, currentRound, certificates)
    }

    /** Start on the database left behind by an earlier process, with an empty pool. */
    constructor (g: Genesis, self: Address, disk: NodeState, limits: Mempool.Config)
      requires g.validators != []
      ensures Valid() && this.g == g && this.self == self && State() == Restart(disk)
      ensures fresh(pool) && pool.txs == [] && pool.config == limits
    {
      this.g, this.self := g, self;
      chain, accounts, rounds, votes, locks, seen, changes :=
        disk.chain, disk.accounts, disk.rounds, disk.votes, disk.locks, disk.seen, disk.changes;
      roundHeight := |disk.chain| + 1;
      currentRound := if |disk.chain| + 1 in disk.rounds then disk.rounds[|disk.chain| + 1] else 0;
      certificates := map[];
      pool := new Mempool.Pool(limits, RulesOf(g));
    }

    method SyncRoundHeight()
      modifies this
      ensures State() == Sync(old(State()))
    {
      if |chain| + 1 != roundHeight {
        roundHeight := |chain| + 1;
        currentRound := if roundHeight in rounds then rounds[roundHeight] else 0;
      }
    }

    method AdvanceTo(round: int)
      modifies this
      ensures State() == SetRound(old(State()), round)
    {
      SyncRoundHeight();
      if round < currentRound { return; }
      if round != currentRound {
        if roundHeight !in rounds || round > rounds[roundHeight] { rounds := rounds[roundHeight := round]; }
        currentRound := round;
      }
    }

    method PrepareVoteRound(signed: set<Message>, block: Block) returns (ok: bool)
      requires Valid()
      modifies this
      ensures Valid()
      ensures (State(), ok) == Prepare(g, signed, old(State()), block)
    {
      SyncRoundHeight();
      var h := block.header;
      if !ValidProposal(g, signed, State(), block) { return false; }
      if h.round < currentRound { return false; }
      if h.round > currentRound + 1 { return false; }
      if h.round > currentRound {
        certificates := certificates[(h.height, h.round) := block.viewChanges];
        AdvanceTo(h.round);
      }
      if SeenKey(h) !in seen {
        seen := seen[SeenKey(h) := BlockHash(h)];
        return true;
      }
      ok := seen[SeenKey(h)] == BlockHash(h);
    }

    /** The durable lock, the prevote certificate before a precommit, and the earlier vote of this round. */
    method CheckLockAndVotes(signed: set<Message>, block: Block, phase: Phase) returns (ok: bool)
      ensures ok == MayVote(g, signed, State(), block, phase)
    {
      var h := block.header;
      if h.height in locks && locks[h.height].hash != BlockHash(h) { return false; }
      if phase == Precommit {
        var certified := CheckPhaseCertificate(g, signed, h, Prevote, block.prevotes);
        if !certified { return false; }
      }
      ok := VoteKey(h, phase) in votes ==> votes[VoteKey(h, phase)] == BlockHash(h);
    }

    method RecordPhaseVote(h: Header, phase: Phase)
      modifies this
      ensures State() == RecordVote(old(State()), h, phase)
    {
      votes := votes[VoteKey(h, phase) := BlockHash(h)];
    }

    method SetConsensusLock(h: Header)
      modifies this
      ensures State() == RecordLock(old(State()), h)
    {
      if h.height !in locks || h.round > locks[h.height].round {
        locks := locks[h.height := Lock(h.round, BlockHash(h))];
      }
    }

    /** `_sign_phase_vote`: the vote leaves the node only after it, and the lock, are recorded. */
    method SignPhaseVote(signed: set<Message>, block: Block, phase: Phase) returns (vote: Option<PhaseVote>)
      requires Valid()
      modifies this
      ensures Valid()
      ensures (State(), vote) == SignVote(g, signed, old(State()), block, phase, self)
    {
      var h := block.header;
      var ok := PrepareVoteRound(signed, block);
      if !ok { return None; }
      ok := CheckLockAndVotes(signed, block, phase);
      if !ok { return None; }
      RecordPhaseVote(h, phase);
      if phase == Precommit { SetConsensusLock(h); }
      vote := Some(VoteFor(g, h, phase, self));
    }

    method SignViewChange(height: int, fromRound: int, toRound: int, timedOut: bool) returns (change: Option<ViewChange>)
      modifies this
      ensures (State(), change) == SignChange(g, old(State()), height, fromRound, toRound, timedOut, self)
    {
      SyncRoundHeight();
      if height != |chain| + 1 { return None; }
      if fromRound != currentRound { return None; }
      if toRound != fromRound + 1 { return None; }
      if !timedOut { return None; }
      if (height, toRound) in changes && changes[(height, toRound)] != fromRound { return None; }
      changes := changes[(height, toRound) := fromRound];
      var (lockedRound, lockedHash) := State().LockedAt(height);
      change := Some(ViewChange(g.chainId, height, fromRound, toRound, self, lockedRound, lockedHash));
    }

    method FinishViewChange(signed: set<Message>, height: int, fromRound: int, collected: seq<ViewChange>)
      modifies this
      ensures State() == FinishChange(g, signed, old(State()), height, fromRound, collected)
    {
      if Collected(g, signed, height, fromRound, collected) {
        certificates := certificates[(height, fromRound + 1) := collected];
        AdvanceTo(fromRound + 1);
      }
    }

    /** `Ledger.apply_block`: check, execute and store in one transaction. */
    method ApplyBlock(signed: set<Message>, block: Block) returns (ok: bool)
      requires Valid()
      modifies this
      ensures Valid()
      ensures ok == Acceptable(g, signed, old(State()), block)
      ensures State() == if ok then Applied(g, old(State()), block) else old(State())
    {
      if !ValidProposal(g, signed, State(), block) { return false; }
      var prevoted := CheckPhaseCertificate(g, signed, block.header, Prevote, block.prevotes);
      if !prevoted { return false; }
      var precommitted := CheckPhaseCertificate(g, signed, block.header, Precommit, block.precommits);
      if !precommitted { return false; }
      var result := Simulate(accounts, block.header.transactions, block.header.proposer, RulesOf(g));
      chain, accounts := chain + [block], result.value;
      ok := true;
    }

    method PruneConsensusState(height: int)
      modifies this
      ensures State() == Prune(old(State()), height)
    {
      rounds := map h | h in rounds && h > height :: rounds[h];
      votes := map k | k in votes && k.0 > height :: votes[k];
      locks := map h | h in locks && h > height :: locks[h];
      seen := map k | k in seen && k.0 > height :: seen[k];
      changes := map k | k in changes && k.0 > height :: changes[k];
    }

    /** Everything `apply_block` does to the node, and the included transactions leave the pool. */
    method AcceptBlock(signed: set<Message>, block: Block)
      requires Valid()
      modifies this, pool
      ensures Valid() && State() == Accept(g, signed, old(State()), block)
      ensures pool.txs == if Acceptable(g, signed, old(State()), block)
                          then Mempool.RemoveAll(old(pool.txs), block.header.transactions) else old(pool.txs)
    {
      var ok := ApplyBlock(signed, block);
      if !ok { return; }
      PruneConsensusState(block.header.height);
      pool.DropIncluded(block.header.transactions);
      certificates := map k | k in certificates && k.0 > block.header.height :: certificates[k];
      SyncRoundHeight();
    }
  }
}
