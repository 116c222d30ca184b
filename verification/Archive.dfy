/** Genesis-anchored history archives: verification by replay, export from a validator's chain,
    and backfill of the history a snapshot-restored node lacks. */
module Archive {
  import opened Models
  import opened Execution
  import opened Blocks
  import opened Chain
  import opened Network
  import Merkle

  /** A block entry of an archive, with the hash field it may carry. */
  datatype RawBlock = RawBlock(block: Block, hash: Option<Digest>)

  /** The hash of the whole block list. */
  datatype PayloadHash = PayloadHash(blocks: seq<RawBlock>)

  datatype Manifest = Manifest(chainId: string, fingerprint: Fingerprint, startHeight: int, endHeight: int, count: int,
                               tip: Digest, payload: PayloadHash)

  datatype Archive = Archive(manifest: Manifest, blocks: seq<RawBlock>)

  datatype Summary = Summary(endHeight: nat, tip: Digest, payload: PayloadHash, stateRoot: Digest)

  function Bare(raws: seq<RawBlock>): (blocks: seq<Block>)
    ensures |blocks| == |raws| && forall i :: 0 <= i < |raws| ==> blocks[i] == raws[i].block
  {
    seq(|raws|, i requires 0 <= i < |raws| => raws[i].block)
  }

  predicate HashFieldOk(raw: RawBlock) {
    raw.hash.Some? ==> raw.hash.value == HashOf(raw.block)
  }

  predicate ManifestOk(g: Genesis, a: Archive) {
    && a.manifest.chainId == g.chainId && a.manifest.fingerprint == FingerprintOf(g)
    && a.manifest.startHeight == 1 && a.manifest.count == |a.blocks| && a.manifest.payload == PayloadHash(a.blocks)
  }

  /** An archive is accepted exactly if its manifest fits its blocks and they replay from genesis. */
  ghost predicate Accepted(g: Genesis, signed: set<Message>, a: Archive)
    requires g.validators != []
  {
    && ManifestOk(g, a) && a.manifest.endHeight == |a.blocks| && a.manifest.tip == Tip(Bare(a.blocks))
    && (forall i :: 0 <= i < |a.blocks| ==> HashFieldOk(a.blocks[i]))
    && Replay(g, signed, Bare(a.blocks)).Some?
  }

  ghost function SummaryOf(g: Genesis, signed: set<Message>, a: Archive): Summary
    requires g.validators != [] && Accepted(g, signed, a)
  {
    Summary(|a.blocks|, a.manifest.tip, a.manifest.payload, StateRoot(Replay(g, signed, Bare(a.blocks)).value))
  }

  lemma BareSnoc(raws: seq<RawBlock>, i: nat)
    requires i < |raws|
    ensures Bare(raws[..i + 1]) == Bare(raws[..i]) + [raws[i].block]
    ensures Bare(raws)[..i] == Bare(raws[..i])
  {
  }

  /** Replaying one archived block: the checks in order, then its transactions on the shared state. */
  method ReplayArchivedBlock(g: Genesis, signed: set<Message>, state: Accounts, expectedHeight: nat, previous: Digest, raw: RawBlock)
    returns (next: Option<Accounts>)
    requires g.validators != [] && expectedHeight >= 1
    ensures next == if HashFieldOk(raw) then ReplayBlock(g, signed, state, expectedHeight, previous, raw.block) else None
  {
    var h := raw.block.header;
    if h.height != expectedHeight || h.chainId != g.chainId || h.previousHash != previous { return None; }
    if h.round < 0 || h.proposer != ProposerFor(g, h.height, h.round) { return None; }
    if ProposalMsg(h) !in signed { return None; }
    if raw.hash.Some? && raw.hash.value != HashOf(raw.block) { return None; }
    var root := Merkle.MerkleRoot(TxIds(h.transactions));
    if h.txRoot != root { return None; }
    var changed := CheckChangeCertificate(g, signed, h, raw.block.viewChanges);
    if !changed { return None; }
    var prevoted := CheckPhaseCertificate(g, signed, h, Prevote, raw.block.prevotes);
    if !prevoted { return None; }
    var precommitted := CheckPhaseCertificate(g, signed, h, Precommit, raw.block.precommits);
    if !precommitted { return None; }
    var result := Simulate(state, h.transactions, h.proposer, RulesOf(g));
    if result.Err? || h.stateRoot != StateRoot(result.value) { return None; }
    next := Some(result.value);
  }

  ghost function ArchivedStep(g: Genesis, signed: set<Message>, state: Accounts, i: nat, previous: Digest, raw: RawBlock): Option<Accounts>
    requires g.validators != []
  {
    if HashFieldOk(raw) then ReplayBlock(g, signed, state, i + 1, previous, raw.block) else None
  }

  /** The first `i` blocks replay to this state and end in this hash. */
  ghost predicate Replayed(g: Genesis, signed: set<Message>, a: Archive, i: nat, state: Accounts, previous: Digest)
    requires g.validators != [] && i <= |a.blocks|
  {
    && Replay(g, signed, Bare(a.blocks[..i])) == Some(state)
    && previous == Tip(Bare(a.blocks[..i]))
    && forall k :: 0 <= k < i ==> HashFieldOk(a.blocks[k])
  }

  lemma ReplayStep(g: Genesis, signed: set<Message>, a: Archive, i: nat, state: Accounts, previous: Digest)
    requires g.validators != [] && i < |a.blocks| && Replayed(g, signed, a, i, state, previous)
    ensures var next := ArchivedStep(g, signed, state, i, previous, a.blocks[i]);
            if next.Some? then Replayed(g, signed, a, i + 1, next.value, HashOf(a.blocks[i].block)) else !Accepted(g, signed, a)
  {
    BareSnoc(a.blocks, i);
    ReplaySnoc(g, signed, Bare(a.blocks[..i]), a.blocks[i].block);
    if Accepted(g, signed, a) {
      assert Bare(a.blocks)[..i + 1] == Bare(a.blocks[..i + 1]);
      ReplayPrefix(g, signed, Bare(a.blocks), i + 1);
    }
  }

  lemma ReplayedAll(g: Genesis, signed: set<Message>, a: Archive, state: Accounts, previous: Digest)
    requires g.validators != [] && Replayed(g, signed, a, |a.blocks|, state, previous) && ManifestOk(g, a)
    ensures Accepted(g, signed, a) <==> a.manifest.endHeight == |a.blocks| && a.manifest.tip == previous
    ensures Accepted(g, signed, a) ==> SummaryOf(g, signed, a) == Summary(|a.blocks|, previous, PayloadHash(a.blocks), StateRoot(state))
  {
    assert a.blocks[..|a.blocks|] == a.blocks;
  }

  /** `verify_history_archive` */
  method VerifyHistoryArchive(g: Genesis, signed: set<Message>, a: Archive) returns (r: Option<Summary>)
    requires g.validators != []
    ensures r.Some? <==> Accepted(g, signed, a)
    ensures r.Some? ==> r.value == SummaryOf(g, signed, a)
  {
    if !ManifestOk(g, a) { return None; }
    var state, previous := GenesisAccounts(g), ZeroHash;
    for i := 0 to |a.blocks|
      invariant Replayed(g, signed, a, i, state, previous)
    {
      var next := ReplayArchivedBlock(g, signed, state, i + 1, previous, a.blocks[i]);
      ReplayStep(g, signed, a, i, state, previous);
      if next.None? { return None; }
      state, previous := next.value, HashOf(a.blocks[i].block);
    }
    ReplayedAll(g, signed, a, state, previous);
    if a.manifest.endHeight != |a.blocks| || a.manifest.tip != previous { return None; }
    r := Some(Summary(|a.blocks|, previous, PayloadHash(a.blocks), StateRoot(state)));
  }

  // ---- soundness ----

  /** Two accepted archives with one tip hash hold the same blocks up to vote and view-change
      certificates, and replay to the same state. */
  lemma SameTipSameHistory(g: Genesis, signed: set<Message>, a: Archive, b: Archive)
    requires g.validators != [] && Accepted(g, signed, a) && Accepted(g, signed, b) && a.manifest.tip == b.manifest.tip
    ensures Headers(Bare(a.blocks)) == Headers(Bare(b.blocks))
    ensures SummaryOf(g, signed, a).stateRoot == SummaryOf(g, signed, b).stateRoot
    ensures SummaryOf(g, signed, a).endHeight == SummaryOf(g, signed, b).endHeight
  {
    SameTipSameHeaders(g, signed, Bare(a.blocks), Bare(b.blocks));
    SameHeadersSameState(g, signed, Bare(a.blocks), Bare(b.blocks));
    assert |Headers(Bare(a.blocks))| == |Headers(Bare(b.blocks))|;
  }

  /** The manifest an exporter writes for these blocks. */
  function Rebuilt(g: Genesis, raws: seq<RawBlock>): Archive {
    Archive(Manifest(g.chainId, FingerprintOf(g), 1, |raws|, |raws|, Tip(Bare(raws)), PayloadHash(raws)), raws)
  }

  /** An archive is accepted exactly if its manifest is the one an exporter writes for its blocks, each
      hash field it has is right, and the blocks replay from genesis. */
  lemma AcceptedIff(g: Genesis, signed: set<Message>, a: Archive)
    requires g.validators != []
    ensures Accepted(g, signed, a)
            <==> && a.manifest.chainId == g.chainId
                 && a.manifest.fingerprint == Fingerprint(g.chainId, g.validators, g.allocations)
                 && a.manifest.startHeight == 1 && a.manifest.endHeight == a.manifest.count == |a.blocks|
                 && a.manifest.tip == (if a.blocks == [] then ZeroHash else BlockHash(a.blocks[|a.blocks| - 1].block.header))
                 && a.manifest.payload == PayloadHash(a.blocks)
                 && (forall i :: 0 <= i < |a.blocks| ==> a.blocks[i].hash == None || a.blocks[i].hash == Some(BlockHash(a.blocks[i].block.header)))
                 && Replay(g, signed, Bare(a.blocks)).Some?
    ensures Accepted(g, signed, a) ==> a == Rebuilt(g, a.blocks)
    ensures Accepted(g, signed, a) ==>
              var summary := SummaryOf(g, signed, a);
              && summary.endHeight == |a.blocks| && summary.tip == a.manifest.tip && summary.payload == PayloadHash(a.blocks)
              && Replay(g, signed, Bare(a.blocks)) == Some(summary.stateRoot.accounts)
  {
  }

  /** Every prefix of an accepted archive is accepted once its manifest is rebuilt. */
  lemma PrefixAccepted(g: Genesis, signed: set<Message>, a: Archive, n: nat)
    requires g.validators != [] && Accepted(g, signed, a) && n <= |a.blocks|
    ensures Accepted(g, signed, Rebuilt(g, a.blocks[..n]))
  {
    assert Bare(a.blocks)[..n] == Bare(a.blocks[..n]);
    ReplayPrefix(g, signed, Bare(a.blocks), n);
  }

  /** An accepted archive accounts for exactly the genesis supply and repeats no transaction. */
  lemma AcceptedConserves(g: Genesis, signed: set<Message>, a: Archive, i: nat, j: nat, tx: Transaction)
    requires g.validators != [] && Accepted(g, signed, a)
    ensures Total(Replay(g, signed, Bare(a.blocks)).value) == Total(GenesisAccounts(g))
    ensures i <= j < |a.blocks| && tx in a.blocks[i].block.header.transactions && tx in a.blocks[j].block.header.transactions ==> i == j
  {
    ReplayConserves(g, signed, Bare(a.blocks));
    if i <= j < |a.blocks| && tx in a.blocks[i].block.header.transactions && tx in a.blocks[j].block.header.transactions {
      ReplayNoRepeat(g, signed, Bare(a.blocks), i, j, tx);
    }
  }

  // ---- export ----

  function Stored(chain: seq<Block>): (raws: seq<RawBlock>)
    ensures |raws| == |chain| && forall i :: 0 <= i < |chain| ==> raws[i] == RawBlock(chain[i], Some(HashOf(chain[i])))
  {
    seq(|chain|, i requires 0 <= i < |chain| => RawBlock(chain[i], Some(HashOf(chain[i]))))
  }

  /** The table of block bodies that a chain fills. */
  function Bodies(blocks: seq<Block>): map<int, Block> {
    if blocks == [] then map[] else Bodies(blocks[..|blocks| - 1])[|blocks| := blocks[|blocks| - 1]]
  }

  lemma {:induction false} BodiesKeys(blocks: seq<Block>)
    ensures forall h :: h in Bodies(blocks) <==> 1 <= h <= |blocks|
    ensures forall h :: h in Bodies(blocks) ==> Bodies(blocks)[h] == blocks[h - 1]
  {
    if blocks != [] { BodiesKeys(blocks[..|blocks| - 1]); }
  }

  ghost predicate Present(blocks: map<int, Block>, n: int) {
    forall h :: 1 <= h <= n ==> h in blocks
  }

  ghost function UpTo(blocks: map<int, Block>, n: nat): seq<Block>
    requires Present(blocks, n)
  {
    seq(n, i requires 0 <= i < n => blocks[i + 1])
  }

  /** `export_history_archive` from the block table of a ledger: refused outside its range, where a
      block is missing (as below the base of a restored node), or where the blocks do not verify. */
  method ExportHistoryArchive(g: Genesis, signed: set<Message>, blocks: map<int, Block>, height: int, end: int) returns (a: Option<Archive>)
    requires g.validators != []
    ensures a.Some? <==> 0 <= end <= height && Present(blocks, end) && Accepted(g, signed, Rebuilt(g, Stored(UpTo(blocks, end))))
    ensures a.Some? ==> a.value == Rebuilt(g, Stored(UpTo(blocks, end)))
  {
    if end < 0 || end > height { return None; }
    var raws: seq<RawBlock> := [];
    for i := 0 to end
      invariant Present(blocks, i) && raws == Stored(UpTo(blocks, i))
    {
      if i + 1 !in blocks { return None; }
      raws := raws + [RawBlock(blocks[i + 1], Some(HashOf(blocks[i + 1])))];
    }
    var built := Rebuilt(g, raws);
    var summary := VerifyHistoryArchive(g, signed, built);
    a := if summary.Some? then Some(built) else None;
  }

  lemma PrefixExports(g: Genesis, signed: set<Message>, chain: seq<Block>, end: nat)
    requires g.validators != [] && Replay(g, signed, chain).Some? && end <= |chain|
    ensures Accepted(g, signed, Rebuilt(g, Stored(chain[..end]))) && Bare(Stored(chain[..end])) == chain[..end]
  {
    ReplayPrefix(g, signed, chain, end);
    assert Bare(Stored(chain[..end])) == chain[..end];
  }

  /** In every run, an honest validator's history exports at any height it has finalized; the
      archive of its whole chain replays to its own account table. */
  lemma HonestHistoryExports(g: Genesis, honest: set<Address>, steps: seq<Step>, v: Address, end: nat)
    requires g.validators != [] && v in honest
    requires v in Run(g, honest, steps).nodes && end <= |Run(g, honest, steps).nodes[v].chain|
    ensures var net := Run(g, honest, steps); var s := net.nodes[v];
            && Present(Bodies(s.chain), end) && UpTo(Bodies(s.chain), end) == s.chain[..end]
            && var a := Rebuilt(g, Stored(s.chain[..end]));
               && Accepted(g, net.signed, a)
               && (end == |s.chain| ==> SummaryOf(g, net.signed, a).stateRoot == StateRoot(s.accounts))
  {
    RunNode(g, honest, steps, v);
    var net := Run(g, honest, steps);
    var chain := net.nodes[v].chain;
    BodiesKeys(chain);
    PrefixExports(g, net.signed, chain, end);
    if end == |chain| { assert chain[..end] == chain; }
  }

  lemma StoredTip(g: Genesis, chain: seq<Block>, end: nat)
    requires end <= |chain|
    ensures Rebuilt(g, Stored(chain[..end])).manifest.tip == if end == 0 then ZeroHash else BlockHash(chain[end - 1].header)
  {
    assert Bare(Stored(chain[..end])) == chain[..end];
  }

  lemma SameTip(g: Genesis, one: seq<Block>, other: seq<Block>, end: nat)
    requires end <= |one| && end <= |other| && (end > 0 ==> one[end - 1].header == other[end - 1].header)
    ensures Rebuilt(g, Stored(one[..end])).manifest.tip == Rebuilt(g, Stored(other[..end])).manifest.tip
  {
    StoredTip(g, one, end);
    StoredTip(g, other, end);
  }

  /** The archives of two honest validators at one height have the same tip. */
  lemma HonestArchivesAgree(g: Genesis, honest: set<Address>, steps: seq<Step>, u: Address, v: Address, end: nat)
    requires Setting(g, honest) && u in honest && v in honest
    requires u in Run(g, honest, steps).nodes && v in Run(g, honest, steps).nodes
    requires end <= |Run(g, honest, steps).nodes[u].chain| && end <= |Run(g, honest, steps).nodes[v].chain|
    ensures var net := Run(g, honest, steps);
            Rebuilt(g, Stored(net.nodes[u].chain[..end])).manifest.tip == Rebuilt(g, Stored(net.nodes[v].chain[..end])).manifest.tip
  {
    var net := Run(g, honest, steps);
    if end > 0 { SameHeaderAt(g, honest, steps, u, v, end - 1); }
    SameTip(g, net.nodes[u].chain, net.nodes[v].chain, end);
  }
}
