/** Genesis, blocks, votes and the certificate checks shared by validators and archives. */
module Blocks {
  import opened Models
  import opened Execution
  import Merkle

  datatype Genesis = Genesis(chainId: string, validators: seq<Address>, allocations: map<Address, int>, minFee: int)

  /** What `Genesis.load` insists on. */
  ghost predicate ValidGenesis(g: Genesis) {
    g.validators != [] && Distinct(g.validators)
  }

  function RulesOf(g: Genesis): Rules {
    Rules(g.chainId, g.minFee)
  }

  function GenesisAccounts(g: Genesis): Accounts {
    map a | a in g.allocations :: Account(g.allocations[a], 0)
  }

  /** What the genesis fingerprint covers; the minimum fee is not part of it. */
  datatype Fingerprint = Fingerprint(chainId: string, validators: seq<Address>, allocations: map<Address, int>)

  function FingerprintOf(g: Genesis): Fingerprint {
    Fingerprint(g.chainId, g.validators, g.allocations)
  }

  function QuorumSize(g: Genesis): nat {
    2 * |g.validators| / 3 + 1
  }

  function ProposerFor(g: Genesis, height: int, round: int): Address
    requires g.validators != [] && height >= 1 && round >= 0
  {
    g.validators[(height - 1 + round) % |g.validators|]
  }

  datatype Phase = Prevote | Precommit

  datatype PhaseVote = PhaseVote(chainId: string, height: int, round: int, phase: Phase, blockHash: Digest, voter: Address)

  /** `lockedHash` is `None` for the empty string. */
  datatype ViewChange = ViewChange(chainId: string, height: int, fromRound: int, toRound: int, voter: Address,
                                   lockedRound: int, lockedHash: Option<Digest>)

  datatype Block = Block(header: Header, viewChanges: seq<ViewChange>, prevotes: seq<PhaseVote>, precommits: seq<PhaseVote>)

  /** A message together with the key that genuinely signed it. A signature check succeeds
      exactly for the messages in the set of signed ones. */
  datatype Message = VoteMsg(vote: PhaseVote) | ChangeMsg(change: ViewChange) | ProposalMsg(header: Header)

  function HashOf(block: Block): Digest {
    BlockHash(block.header)
  }

  // ---- certificates ----

  predicate VoteMatches(g: Genesis, signed: set<Message>, header: Header, phase: Phase, vote: PhaseVote) {
    && vote == PhaseVote(g.chainId, header.height, header.round, phase, BlockHash(header), vote.voter)
    && vote.voter in g.validators
    && VoteMsg(vote) in signed
  }

  /** A list of votes is a certificate: all for this block and phase, by different validators, a quorum. */
  predicate PhaseCertificate(g: Genesis, signed: set<Message>, header: Header, phase: Phase, votes: seq<PhaseVote>) {
    && (forall i :: 0 <= i < |votes| ==> VoteMatches(g, signed, header, phase, votes[i]))
    && (forall i, j :: 0 <= i < j < |votes| ==> votes[i].voter != votes[j].voter)
    && |votes| >= QuorumSize(g)
  }

  /** The certificate loop, with its set of voters already seen. */
  method CheckPhaseCertificate(g: Genesis, signed: set<Message>, header: Header, phase: Phase, votes: seq<PhaseVote>)
    returns (ok: bool)
    ensures ok == PhaseCertificate(g, signed, header, phase, votes)
  {
    var seen: set<Address> := {};
    for i := 0 to |votes|
      invariant forall a :: a in seen <==> exists k :: 0 <= k < i && votes[k].voter == a
      invariant forall k :: 0 <= k < i ==> VoteMatches(g, signed, header, phase, votes[k])
      invariant forall j, k :: 0 <= j < k < i ==> votes[j].voter != votes[k].voter
      invariant |seen| == i
    {
      if votes[i].voter in seen { return false; }
      seen := seen + {votes[i].voter};
      if !VoteMatches(g, signed, header, phase, votes[i]) { return false; }
    }
    ok := |seen| >= QuorumSize(g);
  }

  predicate ChangeMatches(g: Genesis, signed: set<Message>, height: int, fromRound: int, toRound: int, change: ViewChange) {
    && change.chainId == g.chainId && change.height == height
    && change.fromRound == fromRound && change.toRound == toRound
    && change.voter in g.validators
    && ChangeMsg(change) in signed
  }

  predicate LockFieldsOk(change: ViewChange) {
    && -1 <= change.lockedRound < change.toRound
    && (change.lockedRound == -1 <==> change.lockedHash == None)
  }

  predicate ChangeCertificate(g: Genesis, signed: set<Message>, header: Header, changes: seq<ViewChange>) {
    if header.round == 0 then changes == []
    else
      && (forall i :: 0 <= i < |changes| ==> ChangeMatches(g, signed, header.height, header.round - 1, header.round, changes[i]))
      && (forall i, j :: 0 <= i < j < |changes| ==> changes[i].voter != changes[j].voter)
      && |changes| >= QuorumSize(g)
  }

  method CheckChangeCertificate(g: Genesis, signed: set<Message>, header: Header, changes: seq<ViewChange>) returns (ok: bool)
    ensures ok == ChangeCertificate(g, signed, header, changes)
  {
    if header.round == 0 { return changes == []; }
    var seen: set<Address> := {};
    for i := 0 to |changes|
      invariant forall a :: a in seen <==> exists k :: 0 <= k < i && changes[k].voter == a
      invariant forall k :: 0 <= k < i ==> ChangeMatches(g, signed, header.height, header.round - 1, header.round, changes[k])
      invariant forall j, k :: 0 <= j < k < i ==> changes[j].voter != changes[k].voter
      invariant |seen| == i
    {
      if changes[i].voter in seen { return false; }
      seen := seen + {changes[i].voter};
      if !ChangeMatches(g, signed, header.height, header.round - 1, header.round, changes[i]) { return false; }
    }
    ok := |seen| >= QuorumSize(g);
  }

  // ---- header checks ----

  /** Everything about the block itself except its certificates and its state root. */
  predicate HeaderOk(g: Genesis, signed: set<Message>, header: Header, height: int, tip: Digest)
    requires g.validators != []
  {
    && header.chainId == g.chainId
    && header.height == height && height >= 1
    && header.previousHash == tip
    && header.round >= 0
    && header.proposer == ProposerFor(g, header.height, header.round)
    && ProposalMsg(header) in signed
    && header.txRoot == Merkle.Root(TxIds(header.transactions))
  }

  /** The account table after the block, if its transactions execute to the claimed root. */
  function ReplayTransactions(g: Genesis, accounts: Accounts, header: Header): Option<Accounts> {
    match Execute(accounts, header.transactions, header.proposer, RulesOf(g))
    case Err(_) => None
    case Ok(after) => if header.stateRoot == StateRoot(after) then Some(after) else None
  }

  // ---- quorums as sets ----

  ghost function Voters(g: Genesis, signed: set<Message>, height: int, round: int, phase: Phase, hash: Digest): set<Address> {
    set a | a in g.validators && VoteMsg(PhaseVote(g.chainId, height, round, phase, hash, a)) in signed
  }

  /** A quorum of genuine votes of this phase for this hash exists. */
  ghost predicate Certified(g: Genesis, signed: set<Message>, height: int, round: int, phase: Phase, hash: Digest) {
    |Voters(g, signed, height, round, phase, hash)| >= QuorumSize(g)
  }

  ghost predicate AsksChange(g: Genesis, signed: set<Message>, height: int, round: int, a: Address) {
    exists change :: ChangeMsg(change) in signed && change.voter == a && change.chainId == g.chainId
                     && change.height == height && change.fromRound == round && change.toRound == round + 1
  }

  ghost function Askers(g: Genesis, signed: set<Message>, height: int, round: int): set<Address> {
    set a | a in g.validators && AsksChange(g, signed, height, round, a)
  }

  /** A quorum genuinely signed the change from `round` to the next one. */
  ghost predicate ChangeCertified(g: Genesis, signed: set<Message>, height: int, round: int) {
    |Askers(g, signed, height, round)| >= QuorumSize(g)
  }

  ghost function VoterSet(votes: seq<PhaseVote>): set<Address> {
    set i | 0 <= i < |votes| :: votes[i].voter
  }

  lemma {:induction false} DistinctVotersCount(votes: seq<PhaseVote>)
    requires forall i, j :: 0 <= i < j < |votes| ==> votes[i].voter != votes[j].voter
    ensures |VoterSet(votes)| == |votes|
  {
    if votes != [] {
      var n := |votes| - 1;
      DistinctVotersCount(votes[..n]);
      assert VoterSet(votes) == VoterSet(votes[..n]) + {votes[n].voter};
    }
  }

  /** A vote list that passes the check exhibits a quorum of genuine votes. */
  lemma CertificateCertifies(g: Genesis, signed: set<Message>, header: Header, phase: Phase, votes: seq<PhaseVote>)
    requires PhaseCertificate(g, signed, header, phase, votes)
    ensures Certified(g, signed, header.height, header.round, phase, BlockHash(header))
  {
    DistinctVotersCount(votes);
    SubsetSmaller(VoterSet(votes), Voters(g, signed, header.height, header.round, phase, BlockHash(header)));
  }

  ghost function ChangerSet(changes: seq<ViewChange>): set<Address> {
    set i | 0 <= i < |changes| :: changes[i].voter
  }

  lemma {:induction false} DistinctChangersCount(changes: seq<ViewChange>)
    requires forall i, j :: 0 <= i < j < |changes| ==> changes[i].voter != changes[j].voter
    ensures |ChangerSet(changes)| == |changes|
  {
    if changes != [] {
      var n := |changes| - 1;
      DistinctChangersCount(changes[..n]);
      assert ChangerSet(changes) == ChangerSet(changes[..n]) + {changes[n].voter};
    }
  }

  lemma ChangesCertify(g: Genesis, signed: set<Message>, height: int, fromRound: int, changes: seq<ViewChange>)
    requires forall i :: 0 <= i < |changes| ==> ChangeMatches(g, signed, height, fromRound, fromRound + 1, changes[i])
    requires forall i, j :: 0 <= i < j < |changes| ==> changes[i].voter != changes[j].voter
    requires |changes| >= QuorumSize(g)
    ensures ChangeCertified(g, signed, height, fromRound)
  {
    DistinctChangersCount(changes);
    forall a | a in ChangerSet(changes) ensures a in Askers(g, signed, height, fromRound) {
      var i :| 0 <= i < |changes| && changes[i].voter == a;
      assert ChangeMsg(changes[i]) in signed;
    }
    SubsetSmaller(ChangerSet(changes), Askers(g, signed, height, fromRound));
  }

  /** Signed messages only accumulate, and with them quorums. */
  lemma CertifiedGrows(g: Genesis, signed: set<Message>, more: set<Message>, height: int, round: int, phase: Phase, hash: Digest)
    requires signed <= more && Certified(g, signed, height, round, phase, hash)
    ensures Certified(g, more, height, round, phase, hash)
  {
    SubsetSmaller(Voters(g, signed, height, round, phase, hash), Voters(g, more, height, round, phase, hash));
  }

  lemma ChangeCertifiedGrows(g: Genesis, signed: set<Message>, more: set<Message>, height: int, round: int)
    requires signed <= more && ChangeCertified(g, signed, height, round)
    ensures ChangeCertified(g, more, height, round)
  {
    SubsetSmaller(Askers(g, signed, height, round), Askers(g, more, height, round));
  }

  // ---- quorum arithmetic ----

  ghost function ValidatorSet(g: Genesis): set<Address> {
    set a | a in g.validators
  }

  /** The quorum is the least number above two thirds. */
  lemma QuorumIsLeast(g: Genesis, n: nat)
    ensures n >= QuorumSize(g) <==> 3 * n > 2 * |g.validators|
  {
  }

  /** Among any as many consecutive rounds as there are validators, each of them has exactly one turn. */
  lemma EveryoneHasOneTurn(g: Genesis, height: int, round: int, i: nat) returns (turn: int)
    requires ValidGenesis(g) && height >= 1 && round >= 0 && i < |g.validators|
    ensures round <= turn < round + |g.validators| && ProposerFor(g, height, turn) == g.validators[i]
    ensures forall r :: round <= r < round + |g.validators| && ProposerFor(g, height, r) == g.validators[i] ==> r == turn
  {
    var n := |g.validators|;
    var here := (height - 1 + round) % n;
    turn := if i >= here then round + (i - here) else round + n + i - here;
    TurnAt(height - 1 + round, turn - round, n);
    forall r | round <= r < round + n && ProposerFor(g, height, r) == g.validators[i] ensures r == turn {
      TurnAt(height - 1 + round, r - round, n);
    }
  }

  lemma TurnAt(a: nat, d: nat, n: nat)
    requires d < n
    ensures (a + d) % n == if a % n + d < n then a % n + d else a % n + d - n
  {
    var q, r := a / n, a % n;
    if r + d < n { Remainder(a + d, q, r + d, n); }
    else {
      assert (q + 1) * n == q * n + n;
      Remainder(a + d, q + 1, r + d - n, n);
    }
  }

  lemma Remainder(b: nat, q: nat, r: nat, n: nat)
    requires b == q * n + r && r < n
    ensures b % n == r
  {
    var d, m := b / n, b % n;
    assert b == d * n + m;
    if d > q { Multiple(d - q, n, d * n - q * n); }
    if d < q { Multiple(q - d, n, q * n - d * n); }
  }

  lemma Multiple(k: nat, n: nat, product: int)
    requires k >= 1 && product == k * n
    ensures product >= n
  {
    assert (k - 1) * n >= 0;
    assert product == (k - 1) * n + n;
  }

  lemma {:induction false} DistinctSize(xs: seq<Address>)
    requires Distinct(xs)
    ensures |set a | a in xs| == |xs|
  {
    if xs != [] {
      var n := |xs| - 1;
      DistinctSize(xs[..n]);
      assert (set a | a in xs) == (set a | a in xs[..n]) + {xs[n]};
    }
  }

  /** At most the tolerated number of validators is not honest: floor((n - 1) / 3). */
  ghost predicate EnoughHonest(g: Genesis, honest: set<Address>) {
    |ValidatorSet(g) - honest| <= (|g.validators| - 1) / 3
  }

  /** Two quorums share an honest validator. */
  lemma QuorumsMeet(g: Genesis, honest: set<Address>, p: set<Address>, q: set<Address>) returns (a: Address)
    requires ValidGenesis(g) && EnoughHonest(g, honest)
    requires p <= ValidatorSet(g) && q <= ValidatorSet(g)
    requires |p| >= QuorumSize(g) && |q| >= QuorumSize(g)
    ensures a in p && a in q && a in honest
  {
    var all, faulty := ValidatorSet(g), ValidatorSet(g) - honest;
    DistinctSize(g.validators);
    assert |p + q| == |p| + |q| - |p * q|;
    SubsetSmaller(p + q, all);
    if p * q <= faulty { SubsetSmaller(p * q, faulty); }
    a :| a in p * q && a !in faulty;
  }

  /** A quorum contains an honest validator. */
  lemma QuorumHasHonest(g: Genesis, honest: set<Address>, q: set<Address>) returns (a: Address)
    requires ValidGenesis(g) && EnoughHonest(g, honest)
    requires q <= ValidatorSet(g) && |q| >= QuorumSize(g)
    ensures a in q && a in honest
  {
    a := QuorumsMeet(g, honest, q, q);
  }
}
