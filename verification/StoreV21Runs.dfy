/** Every schedule of stage, replay, commit and crash against the store with governance. */
module StoreV21Runs {
  import opened Models
  import opened Execution
  import opened Blocks
  import opened StoreV21
  import ExternalStore
  import Governance

  // ---- the reference meaning ----

  ghost function BatchOf(req: Request): Batch
    requires Split(req.items).Ok?
  {
    Split(req.items).value
  }

  /** The request is the next one, and both its transfers and its change are good. */
  ghost predicate Follows(app: App, t: Tables, req: Request) {
    && ExternalStore.IsHex64(req.blockHash) && Split(req.items).Ok? && req.height == t.height + 1
    && Evaluate(app, t, req.height, BatchOf(req), app.feePool).Ok?
  }

  ghost function EffectOf(app: App, t: Tables, req: Request): Effect
    requires Follows(app, t, req)
  {
    Evaluate(app, t, req.height, BatchOf(req), app.feePool).value
  }

  ghost predicate GovernanceOk(app: App, t: Tables) {
    Governance.Inv(app.g, t.governance, t.height)
  }

  lemma GovernanceCommits(app: App, t: Tables, req: Request)
    requires Follows(app, t, req) && GovernanceOk(app, t)
    ensures Governance.Commit(app.g, t.governance, req.height, BatchOf(req).change).Some?
    ensures var (after, outcome) := Governance.Commit(app.g, t.governance, req.height, BatchOf(req).change).value;
            && outcome == EffectOf(app, t, req).outcome && after.Read() == outcome.state
            && Governance.Inv(app.g, after, req.height)
            && EmissionFor(after, req.height) == outcome.updates
            && forall h :: h <= t.height ==> EmissionFor(after, h) == EmissionFor(t.governance, h)
  {
    Governance.CommitIsSimulate(app.g, t.governance, req.height, BatchOf(req).change);
    Governance.CommitKeepsInv(app.g, t.governance, req.height, BatchOf(req).change);
    var after, outcome := Governance.CommitRecords(app.g, t.governance, req.height, BatchOf(req).change);
  }

  ghost function GovernanceAfter(app: App, t: Tables, req: Request): Governance.Tables
    requires Follows(app, t, req)
  {
    match Governance.Commit(app.g, t.governance, req.height, BatchOf(req).change)
    case Some((after, _)) => after
    case None => t.governance
  }

  ghost function StagedRow(app: App, t: Tables, req: Request): Row
    requires Follows(app, t, req)
  {
    RowFor(app, t, req, EffectOf(app, t, req))
  }

  /** The tables once the request is committed. */
  ghost function Applied(app: App, t: Tables, req: Request): Tables
    requires Follows(app, t, req)
  {
    Tables(req.height, ExternalStore.Lower(req.blockHash), EffectOf(app, t, req).accounts, GovernanceAfter(app, t, req), map[],
           t.commits[req.height := StagedRow(app, t, req)], t.txHeights + MarkIds(Ids(req.items), req.height), t.origin)
  }

  ghost function Fold(app: App, start: Tables, reqs: seq<Request>): Option<Tables> {
    if reqs == [] then Some(start)
    else
      match Fold(app, start, reqs[..|reqs| - 1])
      case None => None
      case Some(t) =>
        if Follows(app, t, reqs[|reqs| - 1]) then Some(Applied(app, t, reqs[|reqs| - 1])) else None
  }

  /** A store that has committed nothing since genesis or since its snapshot. */
  ghost predicate AtBase(app: App, t: Tables) {
    && t.pending == map[] && t.commits == map[] && t.txHeights == map[] && t.height == t.base >= 0
    && GovernanceOk(app, t)
  }

  lemma FoldLast(app: App, start: Tables, reqs: seq<Request>) returns (before: Tables)
    requires reqs != [] && Fold(app, start, reqs).Some?
    ensures Fold(app, start, reqs[..|reqs| - 1]) == Some(before) && Follows(app, before, reqs[|reqs| - 1])
    ensures Fold(app, start, reqs) == Some(Applied(app, before, reqs[|reqs| - 1]))
  {
    before := Fold(app, start, reqs[..|reqs| - 1]).value;
  }

  // ---- what every fold keeps ----

  /** Every recorded transfer has used up its nonce; every recorded change names its own height. */
  ghost predicate Spent(t: Tables) {
    forall id :: id in t.txHeights ==> UsedUp(t, id)
  }

  /** Rows exactly for the heights above the base, each named by its request hash. */
  ghost predicate Rows(t: Tables, base: int, n: nat) {
    && t.base == base && t.height == base + n && |t.commits| == n
    && (forall h :: h in t.commits <==> base < h <= t.height)
    && (forall h :: h in t.commits ==> t.commits[h].requestHash.RequestHash? && t.commits[h].requestHash.height == h)
  }

  ghost predicate Sound(app: App, t: Tables, base: int, n: nat) {
    Rows(t, base, n) && Spent(t) && GovernanceOk(app, t) && t.pending == map[]
  }

  lemma {:induction false} PartsCover(items: seq<Item>, i: nat)
    requires Parts(items).Some? && i < |items|
    ensures match items[i]
            case Transfer(tx) => tx in Parts(items).value.transfers
            case Change(e) => Parts(items).value.change == Some(e)
    decreases |items|
  {
    if i < |items| - 1 { PartsCover(items[..|items| - 1], i); }
  }

  lemma ChangeIsForHeight(app: App, t: Tables, req: Request, e: Governance.Envelope)
    requires Follows(app, t, req) && BatchOf(req).change == Some(e)
    ensures e.request.emitHeight == req.height
  {
  }

  /** A request that follows brings only identifiers that are new, and keeps them spent. */
  lemma ItemsAreNew(app: App, t: Tables, req: Request, i: nat)
    requires Follows(app, t, req) && Spent(t) && i < |req.items|
    ensures IdOf(req.items[i]) !in t.txHeights
    ensures match req.items[i]
            case Transfer(tx) => tx.nonce <= Get(EffectOf(app, t, req).accounts, tx.sender).nonce
            case Change(e) => e.request.emitHeight == req.height
  {
    PartsCover(req.items, i);
    ExecutedNonces(t.accounts, BatchOf(req).transfers, app.feePool, RulesOf(app.g));
    if req.items[i].Change? { ChangeIsForHeight(app, t, req, req.items[i].envelope); }
  }

  /** What `Spent` says of one identifier. */
  ghost predicate UsedUp(t: Tables, id: ItemId) {
    match id
    case TransferId(tx) => tx.nonce <= Get(t.accounts, tx.sender).nonce
    case ChangeTxId(e) => e.request.emitHeight <= t.height
  }

  lemma StaysUsedUp(app: App, t: Tables, req: Request, id: ItemId)
    requires Follows(app, t, req) && UsedUp(t, id)
    ensures UsedUp(Applied(app, t, req), id)
  {
    ExecutedNonces(t.accounts, BatchOf(req).transfers, app.feePool, RulesOf(app.g));
    if id.TransferId? {
      assert Get(t.accounts, id.tx.sender).nonce <= Get(EffectOf(app, t, req).accounts, id.tx.sender).nonce;
    }
  }

  lemma AppliedSpent(app: App, t: Tables, req: Request)
    requires Follows(app, t, req) && Spent(t)
    ensures Spent(Applied(app, t, req))
    ensures forall id :: id in Ids(req.items) ==> id !in t.txHeights
  {
    var next := Applied(app, t, req);
    forall i | 0 <= i < |req.items| ensures Ids(req.items)[i] !in t.txHeights && UsedUp(next, Ids(req.items)[i]) {
      ItemsAreNew(app, t, req, i);
    }
    forall id | id in next.txHeights ensures UsedUp(next, id) {
      if id in t.txHeights { StaysUsedUp(app, t, req, id); }
    }
  }

  lemma RowAdded(t: Tables, base: int, n: nat, row: Row, next: Tables)
    requires Rows(t, base, n) && row.requestHash.RequestHash? && row.requestHash.height == t.height + 1
    requires next.height == t.height + 1 && next.origin == t.origin && next.commits == t.commits[t.height + 1 := row]
    ensures Rows(next, base, n + 1)
  {
  }

  lemma {:induction false} FoldSound(app: App, start: Tables, reqs: seq<Request>) returns (t: Tables)
    requires AtBase(app, start) && Fold(app, start, reqs).Some?
    ensures Fold(app, start, reqs) == Some(t) && Sound(app, t, start.base, |reqs|)
  {
    t := Fold(app, start, reqs).value;
    if reqs != [] {
      var last := reqs[|reqs| - 1];
      var before := FoldSound(app, start, reqs[..|reqs| - 1]);
      RowAdded(before, start.base, |reqs| - 1, StagedRow(app, before, last), Applied(app, before, last));
      AppliedSpent(app, before, last);
      GovernanceCommits(app, before, last);
    }
  }

  // ---- schedules ----

  datatype Op = StageOp(req: Request) | CommitOp | Reopen

  ghost function Perform(app: App, t: Tables, op: Op): Tables {
    match op
    case StageOp(req) => Stage(app, t, req).0
    case CommitOp => Commit(app, t).0
    case Reopen => t
  }

  ghost function PerformAll(app: App, start: Tables, ops: seq<Op>): Tables {
    if ops == [] then start else Perform(app, PerformAll(app, start, ops[..|ops| - 1]), ops[|ops| - 1])
  }

  ghost function Pending(app: App, t: Tables, req: Request): Tables
    requires Follows(app, t, req)
  {
    t.(pending := map[req.height := PendingRow(StagedRow(app, t, req), req.items)])
  }

  /** The tables are `image`, with `staged` (if any) pending on top of it. */
  ghost predicate OnTop(app: App, image: Tables, t: Tables, staged: Option<Request>) {
    match staged
    case None => t == image
    case Some(req) => Follows(app, image, req) && t == Pending(app, image, req)
  }

  /** The tables are the fold of `done`, with `staged` (if any) pending on top of it. */
  ghost predicate Describes(app: App, start: Tables, t: Tables, done: seq<Request>, staged: Option<Request>) {
    Fold(app, start, done).Some? && OnTop(app, Fold(app, start, done).value, t, staged)
  }

  /** With nothing pending, staging writes a row for exactly the requests that follow. */
  lemma StageOnClean(app: App, t: Tables, req: Request)
    requires t.pending == map[]
    ensures Stage(app, t, req).0 == if Follows(app, t, req) then Pending(app, t, req) else t
    ensures Follows(app, t, req) ==>
              Stage(app, t, req).1 == Ok(Reply(req.height, StagedRow(app, t, req), EffectOf(app, t, req).outcome.updates, true, false, false))
  {
  }

  lemma LowerTwice(s: string)
    ensures ExternalStore.Lower(ExternalStore.Lower(s)) == ExternalStore.Lower(s)
  {
  }

  /** With a request pending, staging changes nothing; at the pending height it answers exactly
      that request, from its row, with its validator updates. */
  lemma StageOnPending(app: App, image: Tables, staged: Request, req: Request)
    requires image.pending == map[] && Follows(app, image, staged)
    ensures Stage(app, Pending(app, image, staged), req).0 == Pending(app, image, staged)
    ensures req.height == staged.height ==>
              var reply := Stage(app, Pending(app, image, staged), req).1;
              && (reply.Ok? <==> Same(req, staged))
              && (reply.Ok? ==> reply == Ok(Reply(req.height, StagedRow(app, image, staged), EffectOf(app, image, staged).outcome.updates, true, false, true)))
  {
    var t := Pending(app, image, staged);
    assert CurrentHash(app, t) == CurrentHash(app, image);
    assert forall b, pool :: Evaluate(app, t, req.height, b, pool) == Evaluate(app, image, req.height, b, pool);
    if req.height == staged.height {
      SameRequestSameHash(app, req, staged);
      if Same(req, staged) { ExternalStore.HexCase(req.blockHash, staged.blockHash); }
    }
  }

  lemma ChecksPass(app: App, image: Tables, req: Request)
    requires Follows(app, image, req)
    ensures CheckPending(app, Pending(app, image, req), req.height, PendingRow(StagedRow(app, image, req), req.items))
            == Ok((BatchOf(req), EffectOf(app, image, req)))
  {
    var t := Pending(app, image, req);
    LowerTwice(req.blockHash);
    assert CurrentHash(app, t) == CurrentHash(app, image);
    assert Evaluate(app, t, req.height, BatchOf(req), app.feePool) == Evaluate(app, image, req.height, BatchOf(req), app.feePool);
  }

  lemma CommitRowPasses(app: App, t: Tables, h: int, p: PendingRow, b: Batch, effect: Effect, accounts: Accounts,
                        governance: Governance.Tables, outcome: Governance.Outcome, txHeights: map<ItemId, int>)
    requires CheckPending(app, t, h, p) == Ok((b, effect))
    requires ApplyTransfers(app, t.accounts, b.transfers, p.row.feeRecipient) == Ok(accounts)
    requires Governance.Commit(app.g, t.governance, h, b.change) == Some((governance, outcome))
    requires InsertIds(t.txHeights, Ids(p.items), h) == Some(txHeights)
    requires NextHash(app, h, p.row.blockHash, accounts, governance.Read()) == p.row.next
    requires h !in t.commits && !CommitTaken(t.commits, p.row.requestHash)
    ensures CommitRow(app, t, h, p)
            == (Tables(h, p.row.blockHash, accounts, governance, t.pending - {h}, t.commits[h := p.row], txHeights, t.origin),
                Ok(Committed(h, p.row, outcome.updates)))
  {
  }

  lemma GovernanceIs(app: App, t: Tables, req: Request)
    requires Follows(app, t, req) && GovernanceOk(app, t)
    ensures Governance.Commit(app.g, t.governance, req.height, BatchOf(req).change)
            == Some((GovernanceAfter(app, t, req), EffectOf(app, t, req).outcome))
    ensures GovernanceAfter(app, t, req).Read() == EffectOf(app, t, req).outcome.state
  {
    GovernanceCommits(app, t, req);
  }

  lemma TransfersAre(app: App, t: Tables, req: Request)
    requires Follows(app, t, req)
    ensures ApplyTransfers(app, t.accounts, BatchOf(req).transfers, app.feePool) == Ok(EffectOf(app, t, req).accounts)
  {
    TransfersRefineSimulation(app, t.accounts, BatchOf(req).transfers, app.feePool);
  }

  /** Committing a staged request succeeds, whatever it is. */
  lemma CommitOnPending(app: App, image: Tables, req: Request, base: int, n: nat)
    requires Sound(app, image, base, n) && Follows(app, image, req)
    ensures Commit(app, Pending(app, image, req))
            == (Applied(app, image, req), Ok(Committed(req.height, StagedRow(app, image, req), EffectOf(app, image, req).outcome.updates)))
  {
    var row, e := StagedRow(app, image, req), EffectOf(app, image, req);
    var p := PendingRow(row, req.items);
    ExternalStore.OnlyLowest(req.height, p);
    ChecksPass(app, image, req);
    LowerTwice(req.blockHash);
    TransfersAre(app, image, req);
    GovernanceIs(app, image, req);
    InsertsPass(app, image, req);
    RowIsNew(image, base, n, row);
    CommitRowPasses(app, Pending(app, image, req), req.height, p, BatchOf(req), e, e.accounts, GovernanceAfter(app, image, req), e.outcome,
                    image.txHeights + MarkIds(Ids(req.items), req.height));
    assert map[req.height := p] - {req.height} == map[];
  }

  lemma InsertsPass(app: App, image: Tables, req: Request)
    requires Follows(app, image, req) && Spent(image)
    ensures InsertIds(image.txHeights, Ids(req.items), req.height) == Some(image.txHeights + MarkIds(Ids(req.items), req.height))
  {
    AppliedSpent(app, image, req);
    AllDifferentMeans(Ids(req.items));
    InsertIdsMeans(image.txHeights, Ids(req.items), req.height);
  }

  lemma RowIsNew(image: Tables, base: int, n: nat, row: Row)
    requires Rows(image, base, n) && row.requestHash.RequestHash? && row.requestHash.height == image.height + 1
    ensures !CommitTaken(image.commits, row.requestHash) && image.height + 1 !in image.commits
  {
  }

  lemma FoldSnoc(app: App, start: Tables, done: seq<Request>, image: Tables, req: Request)
    requires Fold(app, start, done) == Some(image) && Follows(app, image, req)
    ensures Fold(app, start, done + [req]) == Some(Applied(app, image, req))
  {
    assert (done + [req])[..|done|] == done;
  }

  lemma CommitDescribes(app: App, start: Tables, t: Tables, done: seq<Request>, req: Request) returns (image: Tables)
    requires AtBase(app, start) && Describes(app, start, t, done, Some(req))
    ensures Fold(app, start, done) == Some(image) && Follows(app, image, req)
    ensures Commit(app, t)
            == (Applied(app, image, req), Ok(Committed(req.height, StagedRow(app, image, req), EffectOf(app, image, req).outcome.updates)))
    ensures Describes(app, start, Commit(app, t).0, done + [req], None)
  {
    image := FoldSound(app, start, done);
    CommitOnPending(app, image, req, start.base, |done|);
    FoldSnoc(app, start, done, image, req);
  }

  lemma PerformDescribes(app: App, start: Tables, t: Tables, done: seq<Request>, staged: Option<Request>, op: Op)
    returns (done': seq<Request>, staged': Option<Request>)
    requires AtBase(app, start) && Describes(app, start, t, done, staged)
    ensures Describes(app, start, Perform(app, t, op), done', staged')
    ensures || (done' == done && (staged' == staged || (staged == None && op.StageOp? && staged' == Some(op.req))))
            || (op.CommitOp? && staged.Some? && done' == done + [staged.value] && staged' == None)
  {
    done', staged' := done, staged;
    var image := FoldSound(app, start, done);
    if op.StageOp? {
      if staged.Some? { StageOnPending(app, image, staged.value, op.req); }
      else {
        StageOnClean(app, image, op.req);
        if Follows(app, image, op.req) { staged' := Some(op.req); }
      }
    } else if op.CommitOp? && staged.Some? {
      var _ := CommitDescribes(app, start, t, done, staged.value);
      done', staged' := done + [staged.value], None;
    }
  }

  /** Every request committed or staged came from the schedule. */
  ghost predicate Scheduled(ops: seq<Op>, done: seq<Request>, staged: Option<Request>) {
    forall req :: req in done || Some(req) == staged ==> StageOp(req) in ops
  }

  lemma ScheduledNext(init: seq<Op>, op: Op, d: seq<Request>, s: Option<Request>, done: seq<Request>, staged: Option<Request>)
    requires Scheduled(init, d, s)
    requires || (done == d && (staged == s || (op.StageOp? && staged == Some(op.req))))
             || (s.Some? && done == d + [s.value] && staged == None)
    ensures Scheduled(init + [op], done, staged)
  {
  }

  /** After these operations the tables are the fold of `done` with `staged` on top, all of it scheduled. */
  ghost predicate Reached(app: App, start: Tables, ops: seq<Op>, done: seq<Request>, staged: Option<Request>) {
    Describes(app, start, PerformAll(app, start, ops), done, staged) && Scheduled(ops, done, staged)
  }

  lemma ReachedNext(app: App, start: Tables, init: seq<Op>, d: seq<Request>, s: Option<Request>, op: Op)
    returns (done: seq<Request>, staged: Option<Request>)
    requires AtBase(app, start) && Reached(app, start, init, d, s)
    ensures Reached(app, start, init + [op], done, staged)
  {
    assert PerformAll(app, start, init + [op]) == Perform(app, PerformAll(app, start, init), op) by { assert (init + [op])[..|init|] == init; }
    done, staged := PerformDescribes(app, start, PerformAll(app, start, init), d, s, op);
    ScheduledNext(init, op, d, s, done, staged);
  }

  lemma {:induction false} ReachedIsFold(app: App, start: Tables, ops: seq<Op>) returns (done: seq<Request>, staged: Option<Request>)
    requires AtBase(app, start)
    ensures Reached(app, start, ops, done, staged)
  {
    if ops == [] {
      done, staged := [], None;
    } else {
      var init, last := ops[..|ops| - 1], ops[|ops| - 1];
      var d, s := ReachedIsFold(app, start, init);
      done, staged := ReachedNext(app, start, init, d, s, last);
      assert ops == init + [last];
    }
  }

  /** Every reachable state of the store is a fold of the requests committed so far, with at most
      one request pending on top of it; every request in it came from the schedule. */
  lemma ReachableIsFold(app: App, start: Tables, ops: seq<Op>) returns (done: seq<Request>, staged: Option<Request>)
    requires AtBase(app, start)
    ensures Describes(app, start, PerformAll(app, start, ops), done, staged) && Scheduled(ops, done, staged)
  {
    done, staged := ReachedIsFold(app, start, ops);
  }

  lemma OnTopShape(app: App, image: Tables, t: Tables, staged: Option<Request>)
    requires OnTop(app, image, t, staged) && image.pending == map[]
    ensures t == image.(pending := t.pending)
    ensures if staged == None then t.pending == map[] else t.pending.Keys == {t.height + 1}
  {
  }

  lemma DescribedTables(app: App, start: Tables, t: Tables, done: seq<Request>, staged: Option<Request>) returns (image: Tables)
    requires AtBase(app, start) && Describes(app, start, t, done, staged)
    ensures Fold(app, start, done) == Some(image) && Sound(app, image, start.base, |done|) && t == image.(pending := t.pending)
    ensures if staged == None then t.pending == map[] else t.pending.Keys == {t.height + 1}
  {
    image := FoldSound(app, start, done);
    OnTopShape(app, image, t, staged);
  }

  /** In every reachable state: rows exactly for base+1 .. height, used-up identifiers, a valid
      validator set with at most one change waiting, and at most one pending finalize, at height+1. */
  lemma StoreInvariant(app: App, start: Tables, ops: seq<Op>) returns (t: Tables, image: Tables, n: nat)
    requires AtBase(app, start)
    ensures t == PerformAll(app, start, ops) && t == image.(pending := t.pending) && Sound(app, image, start.base, n)
    ensures t.pending == map[] || t.pending.Keys == {t.height + 1}
  {
    t := PerformAll(app, start, ops);
    var done, staged := ReachableIsFold(app, start, ops);
    n := |done|;
    image := DescribedTables(app, start, t, done, staged);
  }

  lemma AppliedHash(app: App, t: Tables, req: Request)
    requires Follows(app, t, req) && GovernanceOk(app, t)
    ensures CurrentHash(app, Applied(app, t, req)) == StagedRow(app, t, req).next
  {
    LowerTwice(req.blockHash);
    GovernanceCommits(app, t, req);
  }

  /** The result of a commit: with nothing pending nothing changes, otherwise the pending row is
      committed as it was staged, and the application hash promised then is reached. */
  ghost predicate AsStaged(app: App, t: Tables, result: (Tables, Result<CommitReply, StoreError>)) {
    var h := t.height + 1;
    if t.pending == map[] then result == (t, Ok(NothingPending(t.height, CurrentHash(app, t))))
    else
      h in t.pending && result.1.Ok? && result.1.value.Committed?
      && result.1.value.row == t.pending[h].row && CurrentHash(app, result.0) == t.pending[h].row.next
  }

  lemma OneRowAsStaged(app: App, t: Tables, p: PendingRow, after: Tables, updates: seq<Governance.Update>)
    requires t.pending == map[t.height + 1 := p] && CurrentHash(app, after) == p.row.next
    ensures AsStaged(app, t, (after, Ok(Committed(t.height + 1, p.row, updates))))
  {
    assert t.height + 1 in t.pending;
  }

  lemma StagedAsStaged(app: App, image: Tables, req: Request, after: Tables, updates: seq<Governance.Update>,
                       result: (Tables, Result<CommitReply, StoreError>))
    requires Follows(app, image, req) && CurrentHash(app, after) == StagedRow(app, image, req).next
    requires result == (after, Ok(Committed(req.height, StagedRow(app, image, req), updates)))
    ensures AsStaged(app, Pending(app, image, req), result)
  {
    OneRowAsStaged(app, Pending(app, image, req), PendingRow(StagedRow(app, image, req), req.items), after, updates);
  }

  lemma PendingCommits(app: App, image: Tables, req: Request, base: int, n: nat)
    requires Sound(app, image, base, n) && Follows(app, image, req)
    ensures AsStaged(app, Pending(app, image, req), Commit(app, Pending(app, image, req)))
  {
    AppliedHash(app, image, req);
    CommitOnPending(app, image, req, base, n);
    StagedAsStaged(app, image, req, Applied(app, image, req), EffectOf(app, image, req).outcome.updates, Commit(app, Pending(app, image, req)));
  }

  /** In every reachable state committing succeeds as staged. */
  lemma CommitNeverFails(app: App, start: Tables, ops: seq<Op>)
    requires AtBase(app, start)
    ensures AsStaged(app, PerformAll(app, start, ops), Commit(app, PerformAll(app, start, ops)))
  {
    var done, staged := ReachableIsFold(app, start, ops);
    var image := FoldSound(app, start, done);
    match staged {
      case None =>
      case Some(req) => PendingCommits(app, image, req, start.base, |done|);
    }
  }

  // ---- one decided sequence ----

  lemma SameApplied(app: App, t: Tables, r: Request, q: Request)
    requires Same(r, q) && Follows(app, t, r)
    ensures Follows(app, t, q) && Applied(app, t, r) == Applied(app, t, q)
  {
    SameRequestSameHash(app, r, q);
    ExternalStore.HexCase(r.blockHash, q.blockHash);
  }

  lemma {:induction false} FoldSame(app: App, start: Tables, rs: seq<Request>, qs: seq<Request>)
    requires |rs| == |qs| && forall i :: 0 <= i < |rs| ==> Same(rs[i], qs[i])
    requires Fold(app, start, rs).Some?
    ensures Fold(app, start, rs) == Fold(app, start, qs)
  {
    if rs != [] {
      var n := |rs| - 1;
      var before := FoldLast(app, start, rs);
      FoldSame(app, start, rs[..n], qs[..n]);
      SameApplied(app, before, rs[n], qs[n]);
    }
  }

  ghost predicate Delivers(start: Tables, decided: seq<Request>, ops: seq<Op>) {
    && (forall i :: 0 <= i < |decided| ==> decided[i].height == start.base + i + 1)
    && (forall req :: StageOp(req) in ops ==> exists i :: 0 <= i < |decided| && Same(req, decided[i]))
  }

  lemma {:induction false} FoldHeights(app: App, start: Tables, reqs: seq<Request>, k: nat)
    requires AtBase(app, start) && Fold(app, start, reqs).Some? && k < |reqs|
    ensures reqs[k].height == start.base + k + 1
    decreases |reqs|
  {
    var before := FoldSound(app, start, reqs[..|reqs| - 1]);
    if k < |reqs| - 1 { FoldHeights(app, start, reqs[..|reqs| - 1], k); }
  }

  lemma DoneAt(start: Tables, decided: seq<Request>, ops: seq<Op>, req: Request, k: nat)
    requires Delivers(start, decided, ops) && StageOp(req) in ops && req.height == start.base + k + 1
    ensures k < |decided| && Same(req, decided[k])
  {
  }

  lemma DoneIsPrefix(app: App, start: Tables, decided: seq<Request>, ops: seq<Op>, done: seq<Request>)
    requires AtBase(app, start) && Delivers(start, decided, ops) && Fold(app, start, done).Some?
    requires forall req :: req in done ==> StageOp(req) in ops
    ensures |done| <= |decided| && forall k :: 0 <= k < |done| ==> Same(done[k], decided[k])
  {
    forall k | 0 <= k < |done| ensures k < |decided| && Same(done[k], decided[k]) {
      FoldHeights(app, start, done, k);
      DoneAt(start, decided, ops, done[k], k);
    }
  }

  /** For every schedule over one decided sequence, the committed tables (accounts, validator set,
      pending change, rows, transaction index) are the plain fold of a prefix of that sequence. */
  lemma ScheduleIsDeterministic(app: App, start: Tables, decided: seq<Request>, ops: seq<Op>) returns (n: nat)
    requires AtBase(app, start) && Delivers(start, decided, ops)
    ensures n <= |decided| && PerformAll(app, start, ops).height == start.base + n
    ensures Fold(app, start, decided[..n]) == Some(PerformAll(app, start, ops).(pending := map[]))
  {
    var done, staged := ReachableIsFold(app, start, ops);
    n := |done|;
    DoneIsPrefix(app, start, decided, ops, done);
    FoldSame(app, start, done, decided[..n]);
    var image := FoldSound(app, start, done);
  }

  // ---- replays ----

  /** The tables answer a replay of `req`: its row and its validator updates are on record. */
  ghost predicate Answers(app: App, t: Tables, before: Tables, req: Request)
    requires Follows(app, before, req)
  {
    && req.height in t.commits && t.commits[req.height] == StagedRow(app, before, req)
    && EmissionFor(t.governance, req.height) == EffectOf(app, before, req).outcome.updates
  }

  lemma AnswersApplied(app: App, t: Tables, req: Request)
    requires Follows(app, t, req) && GovernanceOk(app, t)
    ensures Answers(app, Applied(app, t, req), t, req)
  {
    GovernanceCommits(app, t, req);
  }

  lemma AnswersLater(app: App, t: Tables, next: Request, before: Tables, req: Request)
    requires Follows(app, t, next) && GovernanceOk(app, t) && Follows(app, before, req) && Answers(app, t, before, req)
    requires req.height <= t.height
    ensures Answers(app, Applied(app, t, next), before, req)
  {
    GovernanceCommits(app, t, next);
  }

  lemma LastAnswers(app: App, start: Tables, reqs: seq<Request>, before: Tables, t: Tables)
    requires AtBase(app, start) && reqs != [] && Fold(app, start, reqs[..|reqs| - 1]) == Some(before) && Fold(app, start, reqs) == Some(t)
    ensures Follows(app, before, reqs[|reqs| - 1]) && Answers(app, t, before, reqs[|reqs| - 1])
  {
    var before' := FoldSound(app, start, reqs[..|reqs| - 1]);
    AnswersApplied(app, before, reqs[|reqs| - 1]);
  }

  lemma NextAnswers(app: App, start: Tables, reqs: seq<Request>, last: Tables, t: Tables, before: Tables, req: Request)
    requires reqs != [] && Fold(app, start, reqs[..|reqs| - 1]) == Some(last) && Fold(app, start, reqs) == Some(t) && GovernanceOk(app, last)
    requires Follows(app, before, req) && Answers(app, last, before, req) && req.height <= last.height
    ensures Answers(app, t, before, req)
  {
    AnswersLater(app, last, reqs[|reqs| - 1], before, req);
  }

  lemma EarlierHeight(app: App, start: Tables, reqs: seq<Request>, k: nat, t: Tables)
    requires AtBase(app, start) && k < |reqs| && Fold(app, start, reqs) == Some(t)
    ensures reqs[k].height <= t.height && GovernanceOk(app, t)
  {
    var t' := FoldSound(app, start, reqs);
    FoldHeights(app, start, reqs, k);
  }

  lemma {:induction false} FoldKeepsAnswers(app: App, start: Tables, reqs: seq<Request>, k: nat, before: Tables, t: Tables)
    requires AtBase(app, start) && k < |reqs| && Fold(app, start, reqs[..k]) == Some(before) && Fold(app, start, reqs) == Some(t)
    ensures Follows(app, before, reqs[k]) && Answers(app, t, before, reqs[k])
    decreases |reqs|
  {
    if k == |reqs| - 1 {
      LastAnswers(app, start, reqs, before, t);
    } else {
      var init := reqs[..|reqs| - 1];
      var last := FoldLast(app, start, reqs);
      assert init[..k] == reqs[..k] && init[k] == reqs[k];
      FoldKeepsAnswers(app, start, init, k, before, last);
      EarlierHeight(app, start, init, k, last);
      NextAnswers(app, start, reqs, last, t, before, reqs[k]);
    }
  }

  lemma {:induction false} FoldPrefix(app: App, start: Tables, reqs: seq<Request>, n: nat)
    requires n <= |reqs| && Fold(app, start, reqs).Some?
    ensures Fold(app, start, reqs[..n]).Some?
    decreases |reqs|
  {
    if n == |reqs| { assert reqs[..n] == reqs; }
    else {
      assert reqs[..|reqs| - 1][..n] == reqs[..n];
      FoldPrefix(app, start, reqs[..|reqs| - 1], n);
    }
  }

  lemma FoldAnswers(app: App, start: Tables, reqs: seq<Request>, k: nat) returns (before: Tables)
    requires AtBase(app, start) && Fold(app, start, reqs).Some? && k < |reqs|
    ensures Fold(app, start, reqs[..k]) == Some(before) && Follows(app, before, reqs[k])
    ensures Answers(app, Fold(app, start, reqs).value, before, reqs[k])
  {
    FoldPrefix(app, start, reqs, k);
    before := Fold(app, start, reqs[..k]).value;
    FoldKeepsAnswers(app, start, reqs, k, before, Fold(app, start, reqs).value);
  }

  lemma RowEnds(app: App, t: Tables, before: Tables, req: Request)
    requires Follows(app, before, req) && GovernanceOk(app, before) && Answers(app, t, before, req)
    ensures t.commits[req.height].previous == CurrentHash(app, before)
    ensures t.commits[req.height].next == CurrentHash(app, Applied(app, before, req))
  {
    AppliedHash(app, before, req);
  }

  lemma BeforeSound(app: App, start: Tables, reqs: seq<Request>, t: Tables)
    requires AtBase(app, start) && Fold(app, start, reqs) == Some(t)
    ensures GovernanceOk(app, t)
  {
    var t' := FoldSound(app, start, reqs);
  }

  lemma SnocSlice(reqs: seq<Request>, k: nat)
    requires k < |reqs|
    ensures reqs[..k] + [reqs[k]] == reqs[..k + 1]
  {
  }

  ghost predicate Leads(app: App, t: Tables, height: int, before: Tables, after: Tables) {
    height in t.commits && t.commits[height].previous == CurrentHash(app, before) && t.commits[height].next == CurrentHash(app, after)
  }

  /** Each row leads from the application hash before its request to the one after it. */
  lemma RowLeads(app: App, start: Tables, reqs: seq<Request>, k: nat, t: Tables) returns (before: Tables, after: Tables)
    requires AtBase(app, start) && Fold(app, start, reqs) == Some(t) && k < |reqs|
    ensures Fold(app, start, reqs[..k]) == Some(before) && Fold(app, start, reqs[..k + 1]) == Some(after)
    ensures Leads(app, t, reqs[k].height, before, after)
  {
    before := FoldAnswers(app, start, reqs, k);
    after := Applied(app, before, reqs[k]);
    FoldSnoc(app, start, reqs[..k], before, reqs[k]);
    SnocSlice(reqs, k);
    BeforeSound(app, start, reqs[..k], before);
    RowEnds(app, t, before, reqs[k]);
  }

  /** Consecutive rows meet, the first starts at the base hash, and the last ends at the current one. */
  lemma RowsLinked(app: App, start: Tables, reqs: seq<Request>, k: nat, t: Tables)
    requires AtBase(app, start) && Fold(app, start, reqs) == Some(t) && k < |reqs|
    ensures reqs[k].height == start.base + k + 1 && reqs[k].height in t.commits
    ensures k == 0 ==> t.commits[reqs[k].height].previous == CurrentHash(app, start)
    ensures k + 1 < |reqs| ==> reqs[k + 1].height == reqs[k].height + 1 && reqs[k + 1].height in t.commits
                               && t.commits[reqs[k + 1].height].previous == t.commits[reqs[k].height].next
    ensures k + 1 == |reqs| ==> t.commits[reqs[k].height].next == CurrentHash(app, t)
  {
    FoldHeights(app, start, reqs, k);
    var before, after := RowLeads(app, start, reqs, k, t);
    if k + 1 < |reqs| {
      FoldHeights(app, start, reqs, k + 1);
      var before', after' := RowLeads(app, start, reqs, k + 1, t);
    } else {
      assert reqs[..k + 1] == reqs;
    }
  }

  /** At a committed height the committed request, and no other, is answered again: from its row,
      and with exactly the validator updates its first staging returned. Nothing changes. */
  lemma CommittedHeightIsSettled(app: App, start: Tables, t: Tables, done: seq<Request>, staged: Option<Request>, k: nat, req: Request)
    returns (before: Tables)
    requires AtBase(app, start) && Describes(app, start, t, done, staged) && k < |done| && req.height == start.base + k + 1
    ensures Fold(app, start, done[..k]) == Some(before) && Follows(app, before, done[k])
    ensures Stage(app, t, req).0 == t
    ensures Stage(app, t, req).1.Ok? <==> Same(req, done[k])
    ensures Same(req, done[k]) ==>
              Stage(app, t, req).1 == Ok(Reply(req.height, StagedRow(app, before, done[k]), EffectOf(app, before, done[k]).outcome.updates, false, true, true))
  {
    before := FoldAnswers(app, start, done, k);
    FoldHeights(app, start, done, k);
    var image := FoldSound(app, start, done);
    SameRequestSameHash(app, req, done[k]);
    if Same(req, done[k]) { ExternalStore.HexCase(req.blockHash, done[k].blockHash); }
  }

  // ---- the validator set along a schedule ----

  ghost function Changes(reqs: seq<Request>): seq<Option<Governance.Envelope>> {
    if reqs == [] then []
    else Changes(reqs[..|reqs| - 1]) + [if Split(reqs[|reqs| - 1].items).Ok? then BatchOf(reqs[|reqs| - 1]).change else None]
  }

  lemma AppliedGovernance(app: App, t: Tables, req: Request)
    requires Follows(app, t, req) && GovernanceOk(app, t)
    ensures Governance.Next(app.g, t.governance, t.height + 1, BatchOf(req).change) == Some(Applied(app, t, req).governance)
  {
    GovernanceCommits(app, t, req);
  }

  lemma StepRunsGovernance(app: App, from: Governance.Tables, height: int, changes: seq<Option<Governance.Envelope>>, t: Tables, req: Request,
                           after: Governance.Tables)
    requires Governance.RunHeights(app.g, from, height, changes) == Some(t.governance)
    requires Follows(app, t, req) && GovernanceOk(app, t) && t.height == height + |changes|
    requires after == Applied(app, t, req).governance
    ensures Governance.RunHeights(app.g, from, height, changes + [BatchOf(req).change]) == Some(after)
  {
    AppliedGovernance(app, t, req);
    Governance.RunSnoc(app.g, from, height, changes, t.governance, BatchOf(req).change);
  }

  lemma {:induction false} ChangesLength(reqs: seq<Request>)
    ensures |Changes(reqs)| == |reqs|
  {
    if reqs != [] { ChangesLength(reqs[..|reqs| - 1]); }
  }

  lemma {:induction false} FoldRunsGovernance(app: App, start: Tables, reqs: seq<Request>, t: Tables)
    requires AtBase(app, start) && Fold(app, start, reqs) == Some(t)
    ensures Governance.RunHeights(app.g, start.governance, start.height, Changes(reqs)) == Some(t.governance)
  {
    if reqs != [] {
      var init, last := reqs[..|reqs| - 1], reqs[|reqs| - 1];
      var before := FoldLast(app, start, reqs);
      FoldRunsGovernance(app, start, init, before);
      ChangesLength(init);
      assert GovernanceOk(app, before) && before.height == start.height + |init| by { var _ := FoldSound(app, start, init); }
      StepRunsGovernance(app, start.governance, start.height, Changes(init), before, last, t.governance);
      assert Changes(reqs) == Changes(init) + [BatchOf(last).change];
    }
  }

  /** In every reachable state of a store started without a waiting change, the active validator
      set is the one the committed changes plan: each takes effect two heights after its own. */
  lemma ValidatorsFollowPlan(app: App, start: Tables, ops: seq<Op>) returns (done: seq<Request>)
    requires AtBase(app, start) && start.governance.pending == []
    ensures PerformAll(app, start, ops).height == start.height + |done|
    ensures PerformAll(app, start, ops).governance.active == Governance.PlanAfter(start.governance.active, Changes(done)).active
  {
    var staged;
    done, staged := ReachableIsFold(app, start, ops);
    var image := FoldSound(app, start, done);
    FoldRunsGovernance(app, start, done, image);
    ChangesLength(done);
    Governance.ChangesTakeEffectTwoLater(app.g, start.governance, start.height, Changes(done));
  }
}
