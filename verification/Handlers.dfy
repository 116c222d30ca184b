/** What each handler of a validator demands and leaves behind, field by field. */
module Handlers {
  import opened Models
  import opened Execution
  import opened Blocks
  import opened Chain
  import opened Consensus
  import Merkle
  import Network

  // ---- the parts of a demand ----

  /** Votes by different validators, all genuine and for this block and phase, from more than two thirds. */
  ghost predicate VoteQuorum(g: Genesis, signed: set<Message>, h: Header, phase: Phase, votes: seq<PhaseVote>) {
    && (forall i :: 0 <= i < |votes| ==>
          && votes[i].chainId == g.chainId && votes[i].height == h.height && votes[i].round == h.round
          && votes[i].phase == phase && votes[i].blockHash == BlockHash(h)
          && votes[i].voter in g.validators && VoteMsg(votes[i]) in signed)
    && (forall i, j :: 0 <= i < j < |votes| ==> votes[i].voter != votes[j].voter)
    && 3 * |votes| > 2 * |g.validators|
  }

  /** Genuine view changes by different validators from one round to the next, from more than two thirds,
      each reporting either no lock or one of an earlier round. */
  ghost predicate ChangeQuorum(g: Genesis, signed: set<Message>, height: int, round: int, changes: seq<ViewChange>) {
    && (forall i :: 0 <= i < |changes| ==>
          && changes[i].chainId == g.chainId && changes[i].height == height
          && changes[i].fromRound == round && changes[i].toRound == round + 1
          && changes[i].voter in g.validators && ChangeMsg(changes[i]) in signed
          && (if changes[i].lockedHash == None then changes[i].lockedRound == -1 && round >= -1 else 0 <= changes[i].lockedRound <= round))
    && (forall i, j :: 0 <= i < j < |changes| ==> changes[i].voter != changes[j].voter)
    && 3 * |changes| > 2 * |g.validators|
  }

  /** The transactions execute and lead to the table the header commits to. */
  ghost predicate Leads(g: Genesis, accounts: Accounts, h: Header) {
    h.stateRoot.StateRoot? && Execute(accounts, h.transactions, h.proposer, Rules(g.chainId, g.minFee)) == Ok(h.stateRoot.accounts)
  }

  lemma LeadsIff(g: Genesis, accounts: Accounts, h: Header)
    ensures ReplayTransactions(g, accounts, h) == if Leads(g, accounts, h) then Some(h.stateRoot.accounts) else None
  {
  }

  /** The header is for this chain and height, on top of this tip, commits to its transactions, and is signed by
      the validator whose turn it is. */
  ghost predicate InPlace(g: Genesis, signed: set<Message>, h: Header, height: int, tip: Digest)
    requires g.validators != [] && height >= 1
  {
    && h.chainId == g.chainId && h.height == height && h.round >= 0 && h.previousHash == tip
    && h.proposer == g.validators[(height - 1 + h.round) % |g.validators|] && ProposalMsg(h) in signed
    && h.txRoot == Merkle.Root(TxIds(h.transactions))
  }

  lemma InPlaceIff(g: Genesis, signed: set<Message>, h: Header, height: int, tip: Digest)
    requires g.validators != [] && height >= 1
    ensures HeaderOk(g, signed, h, height, tip) <==> InPlace(g, signed, h, height, tip)
  {
  }

  /** The hash of the last block, or of nothing. */
  ghost function TipOf(blocks: seq<Block>): Digest {
    if blocks == [] then ZeroHash else BlockHash(blocks[|blocks| - 1].header)
  }

  /** The block is in its place on this chain, leads to the table it commits to, and brings the certificate
      its round needs. */
  ghost predicate Extends(g: Genesis, signed: set<Message>, s: NodeState, block: Block)
    requires g.validators != []
  {
    var h := block.header;
    && InPlace(g, signed, h, |s.chain| + 1, TipOf(s.chain)) && Leads(g, s.accounts, h)
    && (if h.round == 0 then block.viewChanges == [] else ChangeQuorum(g, signed, h.height, h.round - 1, block.viewChanges))
  }

  lemma ExtendsIff(g: Genesis, signed: set<Message>, s: NodeState, block: Block)
    requires g.validators != []
    ensures ValidProposal(g, signed, s, block) <==> Extends(g, signed, s, block)
  {
    InPlaceIff(g, signed, block.header, |s.chain| + 1, TipOf(s.chain));
    LeadsIff(g, s.accounts, block.header);
  }

  lemma VoteQuorumIff(g: Genesis, signed: set<Message>, h: Header, phase: Phase, votes: seq<PhaseVote>)
    ensures PhaseCertificate(g, signed, h, phase, votes) <==> VoteQuorum(g, signed, h, phase, votes)
  {
  }

  /** The round of the height now open. */
  ghost function OpenRound(s: NodeState): int {
    if s.roundHeight == |s.chain| + 1 then s.currentRound
    else if |s.chain| + 1 in s.rounds then s.rounds[|s.chain| + 1] else 0
  }

  lemma SyncMeans(s: NodeState)
    ensures var t := Sync(s);
            && t == s.(roundHeight := |s.chain| + 1, currentRound := OpenRound(s))
  {
  }

  /** What a node that moves to a later round keeps. */
  ghost predicate SameButRound(s: NodeState, t: NodeState) {
    t == s.(currentRound := t.currentRound, rounds := t.rounds)
  }

  /** Setting a round raises it, in memory and on record, or changes nothing. */
  lemma SetRoundMeans(s: NodeState, round: int)
    requires s.roundHeight == |s.chain| + 1
    ensures round <= s.currentRound ==> SetRound(s, round) == s
    ensures round > s.currentRound ==> SetRound(s, round).currentRound == round && SameButRound(s, SetRound(s, round))
    ensures round > s.currentRound ==>
              SetRound(s, round).rounds == if s.roundHeight in s.rounds && s.rounds[s.roundHeight] >= round then s.rounds else s.rounds[s.roundHeight := round]
  {
  }

  lemma SyncTwice(s: NodeState, round: int)
    ensures SetRound(s, round) == SetRound(Sync(s), round)
  {
    SyncMeans(s);
  }

  // ---- preparing a vote ----

  /** The proposal is for the round reached or the next one. */
  ghost predicate InReach(g: Genesis, signed: set<Message>, s: NodeState, block: Block)
    requires g.validators != []
  {
    Extends(g, signed, s, block) && OpenRound(s) <= block.header.round <= OpenRound(s) + 1
  }

  lemma InReachIff(g: Genesis, signed: set<Message>, s: NodeState, block: Block)
    requires g.validators != []
    ensures RoundAcceptable(g, signed, Sync(s), block) <==> InReach(g, signed, s, block)
  {
    SyncMeans(s);
    ExtendsIff(g, signed, Sync(s), block);
    assert Extends(g, signed, Sync(s), block) <==> Extends(g, signed, s, block);
  }

  ghost predicate SeenOther(s: NodeState, h: Header) {
    (h.height, h.round, h.proposer) in s.seen && s.seen[(h.height, h.round, h.proposer)] != BlockHash(h)
  }

  lemma EnteredMeans(s: NodeState, block: Block)
    requires s.roundHeight == |s.chain| + 1 && s.currentRound <= block.header.round
    ensures var h, t := block.header, EnterRound(s, block);
            && t.currentRound == h.round && SameButRound(s.(certificates := t.certificates), t)
            && t.certificates == if h.round > s.currentRound then s.certificates[(h.height, h.round) := block.viewChanges] else s.certificates
  {
    SetRoundMeans(s.(certificates := s.certificates[(block.header.height, block.header.round) := block.viewChanges]), block.header.round);
  }

  /** Preparing succeeds exactly for a proposal within reach of a proposer whose other proposals for the
      round were not accepted. */
  lemma PrepareIff(g: Genesis, signed: set<Message>, s: NodeState, block: Block)
    requires g.validators != []
    ensures Prepare(g, signed, s, block).1 <==> InReach(g, signed, s, block) && !SeenOther(s, block.header)
    ensures !InReach(g, signed, s, block) ==> Prepare(g, signed, s, block).0 == s.(roundHeight := |s.chain| + 1, currentRound := OpenRound(s))
  {
    InReachIff(g, signed, s, block);
    SyncMeans(s);
    if InReach(g, signed, s, block) { EnteredMeans(Sync(s), block); }
  }

  /** Within reach the round entered, its certificate and the first proposal seen are on record; votes,
      locks, chain and accounts are untouched. */
  lemma PrepareLeaves(g: Genesis, signed: set<Message>, s: NodeState, block: Block)
    requires g.validators != [] && InReach(g, signed, s, block)
    ensures var h, t := block.header, Prepare(g, signed, s, block).0;
            && t.currentRound == h.round && t.roundHeight == |s.chain| + 1
            && SameButRound(s.(roundHeight := t.roundHeight, certificates := t.certificates, seen := t.seen), t)
            && t.seen == (if (h.height, h.round, h.proposer) in s.seen then s.seen else s.seen[(h.height, h.round, h.proposer) := BlockHash(h)])
            && t.certificates == if h.round > OpenRound(s) then s.certificates[(h.height, h.round) := block.viewChanges] else s.certificates
  {
    InReachIff(g, signed, s, block);
    SyncMeans(s);
    EnteredMeans(Sync(s), block);
  }

  // ---- voting ----

  /** What is left to ask of a node that accepted the proposal. */
  ghost predicate Unbound(g: Genesis, signed: set<Message>, s: NodeState, block: Block, phase: Phase) {
    var h := block.header;
    && (h.height in s.locks ==> s.locks[h.height].hash == BlockHash(h))
    && ((h.height, h.round, phase) in s.votes ==> s.votes[(h.height, h.round, phase)] == BlockHash(h))
    && (phase == Precommit ==> VoteQuorum(g, signed, h, Prevote, block.prevotes))
  }

  lemma UnboundIff(g: Genesis, signed: set<Message>, s: NodeState, block: Block, phase: Phase)
    ensures MayVote(g, signed, s, block, phase) <==> Unbound(g, signed, s, block, phase)
  {
    VoteQuorumIff(g, signed, block.header, Prevote, block.prevotes);
  }

  lemma PrepareKeeps(g: Genesis, signed: set<Message>, s: NodeState, block: Block)
    requires g.validators != []
    ensures var t := Prepare(g, signed, s, block).0;
            t.chain == s.chain && t.accounts == s.accounts && t.votes == s.votes && t.locks == s.locks && t.changes == s.changes
  {
    PrepareIff(g, signed, s, block);
    if InReach(g, signed, s, block) { PrepareLeaves(g, signed, s, block); }
  }

  lemma ReleasedIff(g: Genesis, signed: set<Message>, s: NodeState, block: Block, phase: Phase, self: Address)
    requires g.validators != []
    ensures SignVote(g, signed, s, block, phase, self).1
            == if InReach(g, signed, s, block) && !SeenOther(s, block.header) && Unbound(g, signed, s, block, phase)
               then Some(VoteFor(g, block.header, phase, self)) else None
  {
    PrepareIff(g, signed, s, block);
    PrepareKeeps(g, signed, s, block);
    var t := Prepare(g, signed, s, block).0;
    UnboundIff(g, signed, t, block, phase);
    assert Unbound(g, signed, t, block, phase) == Unbound(g, signed, s, block, phase);
  }

  /** A vote is released exactly if the block extends the chain in the round reached or the next one,
      the node is not locked on another block, has accepted no other proposal of this proposer and voted
      for no other block in this round and phase, and, for a precommit, sees a prevote quorum. */
  lemma SignVoteIff(g: Genesis, signed: set<Message>, s: NodeState, block: Block, phase: Phase, self: Address)
    requires g.validators != []
    ensures var h, vote := block.header, SignVote(g, signed, s, block, phase, self).1;
            && (vote.Some?
                <==> && Extends(g, signed, s, block)
                     && OpenRound(s) <= h.round <= OpenRound(s) + 1
                     && ((h.height, h.round, h.proposer) in s.seen ==> s.seen[(h.height, h.round, h.proposer)] == BlockHash(h))
                     && (h.height in s.locks ==> s.locks[h.height].hash == BlockHash(h))
                     && ((h.height, h.round, phase) in s.votes ==> s.votes[(h.height, h.round, phase)] == BlockHash(h))
                     && (phase == Precommit ==> VoteQuorum(g, signed, h, Prevote, block.prevotes)))
            && (vote.Some? ==> vote.value == PhaseVote(g.chainId, h.height, h.round, phase, BlockHash(h), self))
  {
    ReleasedIff(g, signed, s, block, phase, self);
  }

  lemma RecordsLeave(t: NodeState, h: Header, phase: Phase)
    ensures var u := if phase == Precommit then RecordLock(RecordVote(t, h, phase), h) else RecordVote(t, h, phase);
            u == t.(votes := t.votes[(h.height, h.round, phase) := BlockHash(h)],
                    locks := if phase == Precommit && (h.height in t.locks ==> h.round > t.locks[h.height].round)
                             then t.locks[h.height := Lock(h.round, BlockHash(h))] else t.locks)
  {
  }

  /** With the vote its record, and for a precommit the lock, are in place; without one nothing but what
      preparing did. */
  lemma SignVoteLeaves(g: Genesis, signed: set<Message>, s: NodeState, block: Block, phase: Phase, self: Address)
    requires g.validators != []
    ensures var h, p := block.header, Prepare(g, signed, s, block).0; var (t, vote) := SignVote(g, signed, s, block, phase, self);
            t == if vote.None? then p
                 else p.(votes := p.votes[(h.height, h.round, phase) := BlockHash(h)],
                         locks := if phase == Precommit && (h.height in p.locks ==> h.round > p.locks[h.height].round)
                                  then p.locks[h.height := Lock(h.round, BlockHash(h))] else p.locks)
  {
    RecordsLeave(Prepare(g, signed, s, block).0, block.header, phase);
  }

  // ---- view changes ----

  lemma ChangeQuorumIff(g: Genesis, signed: set<Message>, height: int, round: int, changes: seq<ViewChange>)
    ensures Collected(g, signed, height, round, changes) <==> ChangeQuorum(g, signed, height, round, changes)
  {
  }

  /** A view change is signed exactly for leaving the open height's round by one step after its timeout,
      unless another change to that round is on record. It reports the lock held, and is recorded. */
  lemma SignChangeIff(g: Genesis, s: NodeState, height: int, fromRound: int, toRound: int, timedOut: bool, self: Address)
    ensures var (t, change) := SignChange(g, s, height, fromRound, toRound, timedOut, self);
            && (change.Some?
                <==> && height == |s.chain| + 1 && fromRound == OpenRound(s) && toRound == fromRound + 1 && timedOut
                     && ((height, toRound) in s.changes ==> s.changes[(height, toRound)] == fromRound))
            && (change.Some? ==>
                  change.value == if height in s.locks
                                  then ViewChange(g.chainId, height, fromRound, toRound, self, s.locks[height].round, Some(s.locks[height].hash))
                                  else ViewChange(g.chainId, height, fromRound, toRound, self, -1, None))
            && t == s.(roundHeight := |s.chain| + 1, currentRound := OpenRound(s),
                       changes := if change.Some? then s.changes[(height, toRound) := fromRound] else s.changes)
  {
    SyncMeans(s);
  }

  /** A collected certificate is kept for the height and round it was collected for, but the round it
      raises is that of the height now open. Without a quorum nothing happens. */
  lemma FinishMeans(g: Genesis, signed: set<Message>, s: NodeState, height: int, fromRound: int, changes: seq<ViewChange>)
    ensures var t := FinishChange(g, signed, s, height, fromRound, changes);
            if !ChangeQuorum(g, signed, height, fromRound, changes) then t == s
            else
              && t.certificates == s.certificates[(height, fromRound + 1) := changes]
              && t.roundHeight == |s.chain| + 1
              && t.currentRound == (if fromRound + 1 > OpenRound(s) then fromRound + 1 else OpenRound(s))
              && SameButRound(s.(roundHeight := t.roundHeight, certificates := t.certificates), t)
  {
    ChangeQuorumIff(g, signed, height, fromRound, changes);
    if ChangeQuorum(g, signed, height, fromRound, changes) {
      var kept := s.(certificates := s.certificates[(height, fromRound + 1) := changes]);
      SyncMeans(kept);
      SyncTwice(kept, fromRound + 1);
      SetRoundMeans(Sync(kept), fromRound + 1);
    }
  }

  // ---- finalization, restart ----

  ghost predicate Finalizable(g: Genesis, signed: set<Message>, s: NodeState, block: Block)
    requires g.validators != []
  {
    && Extends(g, signed, s, block) && VoteQuorum(g, signed, block.header, Prevote, block.prevotes)
    && VoteQuorum(g, signed, block.header, Precommit, block.precommits)
  }

  lemma FinalizableIff(g: Genesis, signed: set<Message>, s: NodeState, block: Block)
    requires g.validators != []
    ensures Acceptable(g, signed, s, block) <==> Finalizable(g, signed, s, block)
  {
    ExtendsIff(g, signed, s, block);
    VoteQuorumIff(g, signed, block.header, Prevote, block.prevotes);
    VoteQuorumIff(g, signed, block.header, Precommit, block.precommits);
  }

  lemma AcceptedGrows(g: Genesis, signed: set<Message>, s: NodeState, block: Block)
    requires g.validators != [] && Acceptable(g, signed, s, block)
    ensures Accept(g, signed, s, block).chain == s.chain + [block]
    ensures Execute(s.accounts, block.header.transactions, block.header.proposer, RulesOf(g)) == Ok(Accept(g, signed, s, block).accounts)
  {
    SyncMeans(DropCertificates(Prune(Applied(g, s, block), block.header.height), block.header.height));
  }

  /** A block is finalized exactly if it extends the chain and carries quorums of prevotes and precommits. */
  lemma AcceptIff(g: Genesis, signed: set<Message>, s: NodeState, block: Block)
    requires g.validators != []
    ensures var t, fits := Accept(g, signed, s, block), Finalizable(g, signed, s, block);
            && (!fits ==> t == s)
            && (fits ==> t.chain == s.chain + [block])
            && (fits ==> Execute(s.accounts, block.header.transactions, block.header.proposer, Rules(g.chainId, g.minFee)) == Ok(t.accounts))
  {
    FinalizableIff(g, signed, s, block);
    if Acceptable(g, signed, s, block) { AcceptedGrows(g, signed, s, block); }
  }

  /** Records that speak of a height above the given one, unchanged. */
  ghost predicate Above<K(!new), V>(from: map<K, V>, to: map<K, V>, height: K -> int, bound: int) {
    && (forall k :: k in to <==> k in from && height(k) > bound)
    && (forall k :: k in to ==> to[k] == from[k])
  }

  /** Exactly the records of heights above `h` are left. */
  ghost predicate Pruned(s: NodeState, t: NodeState, h: int) {
    && Above(s.rounds, t.rounds, (k: int) => k, h) && Above(s.locks, t.locks, (k: int) => k, h)
    && Above(s.votes, t.votes, (k: (int, int, Phase)) => k.0, h) && Above(s.seen, t.seen, (k: (int, int, Address)) => k.0, h)
    && Above(s.changes, t.changes, (k: (int, int)) => k.0, h) && Above(s.certificates, t.certificates, (k: (int, int)) => k.0, h)
  }

  lemma PruneLeaves(s: NodeState, h: int)
    ensures Pruned(s, DropCertificates(Prune(s, h), h), h)
  {
  }

  /** Finalizing drops exactly the records of closed heights, and opens the next height in the round on
      record for it, which is 0 unless there is one. */
  lemma AcceptLeaves(g: Genesis, signed: set<Message>, s: NodeState, block: Block)
    requires g.validators != [] && Acceptable(g, signed, s, block)
    ensures var h, t := |s.chain| + 1, Accept(g, signed, s, block);
            && Pruned(s, t, h) && t.roundHeight == h + 1
            && (s.roundHeight != h + 1 ==> t.currentRound == if h + 1 in s.rounds then s.rounds[h + 1] else 0)
  {
    var h, u := block.header.height, Applied(g, s, block);
    PruneLeaves(u, h);
    SyncMeans(DropCertificates(Prune(u, h), h));
  }

  /** A restart keeps the database, forgets certificates, and is in the round on record. */
  lemma RestartMeans(s: NodeState)
    ensures Restart(s) == s.(roundHeight := |s.chain| + 1, certificates := map[],
                             currentRound := if |s.chain| + 1 in s.rounds then s.rounds[|s.chain| + 1] else 0)
  {
  }

  // ---- replaying ----

  /** One more block replays exactly if it is in its place, signed by the validator whose turn it is, commits to
      its transactions and to the table they lead to, and carries the three certificates. What the view
      changes report about locks is not looked at. */
  lemma ReplayNextIff(g: Genesis, signed: set<Message>, blocks: seq<Block>, accounts: Accounts, block: Block)
    requires g.validators != [] && Replay(g, signed, blocks) == Some(accounts)
    ensures var h := block.header;
            Replay(g, signed, blocks + [block])
            == if && InPlace(g, signed, h, |blocks| + 1, TipOf(blocks)) && Leads(g, accounts, h)
                  && (if h.round == 0 then block.viewChanges == [] else Entitled(g, signed, h, block.viewChanges))
                  && VoteQuorum(g, signed, h, Prevote, block.prevotes) && VoteQuorum(g, signed, h, Precommit, block.precommits)
               then Some(h.stateRoot.accounts) else None
  {
    ReplaySnoc(g, signed, blocks, block);
    InPlaceIff(g, signed, block.header, |blocks| + 1, TipOf(blocks));
    LeadsIff(g, accounts, block.header);
    EntitledIff(g, signed, block.header, block.viewChanges);
    VoteQuorumIff(g, signed, block.header, Prevote, block.prevotes);
    VoteQuorumIff(g, signed, block.header, Precommit, block.precommits);
  }

  /** Genuine view changes into the round by different validators, from more than two thirds. */
  ghost predicate Entitled(g: Genesis, signed: set<Message>, h: Header, changes: seq<ViewChange>) {
    && (forall i :: 0 <= i < |changes| ==>
          && changes[i].chainId == g.chainId && changes[i].height == h.height
          && changes[i].fromRound == h.round - 1 && changes[i].toRound == h.round
          && changes[i].voter in g.validators && ChangeMsg(changes[i]) in signed)
    && (forall i, j :: 0 <= i < j < |changes| ==> changes[i].voter != changes[j].voter)
    && 3 * |changes| > 2 * |g.validators|
  }

  lemma EntitledIff(g: Genesis, signed: set<Message>, h: Header, changes: seq<ViewChange>)
    ensures ChangeCertificate(g, signed, h, changes) <==> if h.round == 0 then changes == [] else Entitled(g, signed, h, changes)
  {
  }
}
