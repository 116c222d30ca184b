/** Every schedule of stage, replay, commit and crash against the application store. */
module StoreRuns {
  import opened Models
  import opened Execution
  import opened ExternalStore
  import Merkle

  // ---- the reference meaning: a plain fold of decided requests ----

  /** The request is the next one for these tables, and its batch executes. */
  ghost predicate Follows(app: App, t: Tables, req: Request) {
    && AllDifferent(req.txs) && IsHex64(req.blockHash) && req.height == t.height + 1
    && Execute(t.accounts, req.txs, app.feePool, app.rules).Ok?
  }

  ghost function After(app: App, t: Tables, req: Request): Accounts
    requires Follows(app, t, req)
  {
    Execute(t.accounts, req.txs, app.feePool, app.rules).value
  }

  /** The tables once the request is committed. */
  ghost function Applied(app: App, t: Tables, req: Request): Tables
    requires Follows(app, t, req)
  {
    Tables(req.height, Lower(req.blockHash), After(app, t, req), map[],
           t.commits[req.height := RowFor(app, t, req, After(app, t, req))],
           Recorded(t.txHeights, req.txs, req.height), t.origin)
  }

  /** The tables after a sequence of requests, if each of them follows. */
  ghost function Fold(app: App, start: Tables, reqs: seq<Request>): Option<Tables> {
    if reqs == [] then Some(start)
    else
      match Fold(app, start, reqs[..|reqs| - 1])
      case None => None
      case Some(t) =>
        if Follows(app, t, reqs[|reqs| - 1]) then Some(Applied(app, t, reqs[|reqs| - 1])) else None
  }

  /** A store that has committed nothing since genesis or since its snapshot. */
  ghost predicate AtBase(t: Tables) {
    t.pending == map[] && t.commits == map[] && t.txHeights == map[] && t.height == t.base >= 0
  }

  lemma FoldSnoc(app: App, start: Tables, reqs: seq<Request>, req: Request)
    requires Fold(app, start, reqs).Some?
    ensures Fold(app, start, reqs + [req])
            == if Follows(app, Fold(app, start, reqs).value, req) then Some(Applied(app, Fold(app, start, reqs).value, req)) else None
  {
    assert (reqs + [req])[..|reqs|] == reqs;
  }

  lemma {:induction false} FoldPrefix(app: App, start: Tables, reqs: seq<Request>, n: nat)
    requires n <= |reqs| && Fold(app, start, reqs).Some?
    ensures Fold(app, start, reqs[..n]).Some?
    decreases |reqs|
  {
    if n == |reqs| { assert reqs[..n] == reqs; }
    else {
      assert reqs[..|reqs| - 1][..n] == reqs[..n];
      FoldPrefix(app, start, reqs[..|reqs| - 1], n);
    }
  }

  lemma FoldLast(app: App, start: Tables, reqs: seq<Request>) returns (before: Tables)
    requires reqs != [] && Fold(app, start, reqs).Some?
    ensures Fold(app, start, reqs[..|reqs| - 1]) == Some(before) && Follows(app, before, reqs[|reqs| - 1])
    ensures Fold(app, start, reqs) == Some(Applied(app, before, reqs[|reqs| - 1]))
  {
    before := Fold(app, start, reqs[..|reqs| - 1]).value;
  }

  /** `n` rows, covering exactly the heights above the base. */
  ghost predicate Covers(t: Tables, base: int, n: nat) {
    && t.base == base && t.height == base + n && |t.commits| == n
    && forall h :: h in t.commits <==> base < h <= t.height
  }

  lemma CoversNext(t: Tables, base: int, n: nat, row: Row, next: Tables)
    requires Covers(t, base, n) && next.height == t.height + 1 && next.origin == t.origin && next.commits == t.commits[t.height + 1 := row]
    ensures Covers(next, base, n + 1)
  {
  }

  /** Every recorded identifier belongs to a transaction whose nonce its sender has used up. */
  ghost predicate Spent(t: Tables) {
    forall id :: id in t.txHeights ==> id.TxId? && id.tx.nonce <= Get(t.accounts, id.tx.sender).nonce
  }

  lemma AppliedSpent(app: App, t: Tables, req: Request)
    requires Follows(app, t, req) && Spent(t)
    ensures Spent(Applied(app, t, req))
    ensures forall tx :: tx in req.txs ==> TxId(tx) !in t.txHeights
  {
    ExecutedNonces(t.accounts, req.txs, app.feePool, app.rules);
    var next := Applied(app, t, req);
    forall id | id in next.txHeights ensures id.TxId? && id.tx.nonce <= Get(next.accounts, id.tx.sender).nonce {
      if id !in t.txHeights {
        var i :| 0 <= i < |req.txs| && TxIds(req.txs)[i] == id;
        assert req.txs[i] in req.txs;
      } else {
        assert Get(t.accounts, id.tx.sender).nonce <= Get(next.accounts, id.tx.sender).nonce;
      }
    }
  }

  /** A request hash names the height of its row, so no two rows share one. */
  ghost predicate HashesNameHeights(t: Tables) {
    forall h :: h in t.commits ==> t.commits[h].requestHash.RequestHash? && t.commits[h].requestHash.height == h
  }

  lemma NamesNext(t: Tables, row: Row, next: Tables)
    requires HashesNameHeights(t) && row.requestHash.RequestHash? && row.requestHash.height == t.height + 1
    requires next.commits == t.commits[t.height + 1 := row]
    ensures HashesNameHeights(next)
  {
  }

  /** What every fold keeps. */
  ghost predicate Sound(t: Tables, base: int, n: nat) {
    Covers(t, base, n) && Spent(t) && HashesNameHeights(t) && t.pending == map[]
  }

  lemma {:induction false} FoldSound(app: App, start: Tables, reqs: seq<Request>) returns (t: Tables)
    requires AtBase(start) && Fold(app, start, reqs).Some?
    ensures Fold(app, start, reqs) == Some(t) && Sound(t, start.base, |reqs|)
  {
    t := Fold(app, start, reqs).value;
    if reqs != [] {
      var last := reqs[|reqs| - 1];
      var before := FoldSound(app, start, reqs[..|reqs| - 1]);
      var row := RowFor(app, before, last, After(app, before, last));
      CoversNext(before, start.base, |reqs| - 1, row, t);
      NamesNext(before, row, t);
      AppliedSpent(app, before, last);
    }
  }

  lemma {:induction false} FoldPosition(app: App, start: Tables, reqs: seq<Request>, k: nat)
    requires AtBase(start) && Fold(app, start, reqs).Some? && k < |reqs|
    ensures reqs[k].height == start.base + k + 1
    decreases |reqs|
  {
    var before := FoldSound(app, start, reqs[..|reqs| - 1]);
    if k < |reqs| - 1 { FoldPosition(app, start, reqs[..|reqs| - 1], k); }
  }

  lemma FoldHeight(app: App, start: Tables, reqs: seq<Request>, k: nat) returns (t: Tables)
    requires AtBase(start) && Fold(app, start, reqs).Some? && k < |reqs|
    ensures Fold(app, start, reqs) == Some(t) && reqs[k].height <= t.height
  {
    t := FoldSound(app, start, reqs);
    FoldPosition(app, start, reqs, k);
  }

  // ---- the rows ----

  /** The tables hold the row that committing `req` on top of `before` writes. */
  ghost predicate HasRow(app: App, t: Tables, before: Tables, req: Request)
    requires Follows(app, before, req)
  {
    req.height in t.commits && t.commits[req.height] == RowFor(app, before, req, After(app, before, req))
  }

  lemma RowApplied(app: App, t: Tables, req: Request)
    requires Follows(app, t, req)
    ensures HasRow(app, Applied(app, t, req), t, req)
  {
  }

  lemma RowLater(app: App, t: Tables, next: Request, before: Tables, req: Request)
    requires Follows(app, t, next) && Follows(app, before, req) && HasRow(app, t, before, req) && req.height <= t.height
    ensures HasRow(app, Applied(app, t, next), before, req)
  {
  }

  lemma LastHasRow(app: App, start: Tables, reqs: seq<Request>, before: Tables, t: Tables)
    requires reqs != [] && Fold(app, start, reqs[..|reqs| - 1]) == Some(before) && Fold(app, start, reqs) == Some(t)
    ensures Follows(app, before, reqs[|reqs| - 1]) && HasRow(app, t, before, reqs[|reqs| - 1])
  {
    RowApplied(app, before, reqs[|reqs| - 1]);
  }

  lemma NextKeepsRow(app: App, start: Tables, reqs: seq<Request>, last: Tables, t: Tables, before: Tables, req: Request)
    requires reqs != [] && Fold(app, start, reqs[..|reqs| - 1]) == Some(last) && Fold(app, start, reqs) == Some(t)
    requires Follows(app, before, req) && HasRow(app, last, before, req) && req.height <= last.height
    ensures HasRow(app, t, before, req)
  {
    RowLater(app, last, reqs[|reqs| - 1], before, req);
  }

  lemma {:induction false} FoldKeepsRow(app: App, start: Tables, reqs: seq<Request>, k: nat, before: Tables, t: Tables)
    requires AtBase(start) && k < |reqs| && Fold(app, start, reqs[..k]) == Some(before) && Fold(app, start, reqs) == Some(t)
    ensures Follows(app, before, reqs[k]) && HasRow(app, t, before, reqs[k])
    decreases |reqs|
  {
    if k == |reqs| - 1 {
      LastHasRow(app, start, reqs, before, t);
    } else {
      var init := reqs[..|reqs| - 1];
      var last := FoldHeight(app, start, init, k);
      assert init[..k] == reqs[..k] && init[k] == reqs[k];
      FoldKeepsRow(app, start, init, k, before, last);
      NextKeepsRow(app, start, reqs, last, t, before, reqs[k]);
    }
  }

  /** The row of the k-th request is the one computed from the fold of those before it. */
  lemma FoldRow(app: App, start: Tables, reqs: seq<Request>, k: nat) returns (before: Tables)
    requires AtBase(start) && Fold(app, start, reqs).Some? && k < |reqs|
    ensures Fold(app, start, reqs[..k]) == Some(before) && Follows(app, before, reqs[k])
    ensures HasRow(app, Fold(app, start, reqs).value, before, reqs[k])
  {
    FoldPrefix(app, start, reqs, k);
    before := Fold(app, start, reqs[..k]).value;
    FoldKeepsRow(app, start, reqs, k, before, Fold(app, start, reqs).value);
  }

  lemma LinkToPredecessor(app: App, t: Tables, before: Tables, r: Request, q: Request)
    requires Follows(app, before, r) && HasRow(app, t, before, r)
    requires Follows(app, Applied(app, before, r), q) && HasRow(app, t, Applied(app, before, r), q)
    ensures t.commits[q.height].previous == t.commits[r.height].next
  {
  }

  lemma FoldStep(app: App, start: Tables, reqs: seq<Request>, k: nat, before: Tables, next: Tables)
    requires k < |reqs| && Fold(app, start, reqs[..k]) == Some(before) && Fold(app, start, reqs[..k + 1]) == Some(next)
    ensures Follows(app, before, reqs[k]) && next == Applied(app, before, reqs[k])
  {
    assert reqs[..k + 1][..k] == reqs[..k];
  }

  /** Each row starts from the application hash its predecessor ended with. */
  lemma RowsLinked(app: App, start: Tables, reqs: seq<Request>, k: nat) returns (t: Tables)
    requires AtBase(start) && Fold(app, start, reqs).Some? && k + 1 < |reqs|
    ensures Fold(app, start, reqs) == Some(t)
    ensures reqs[k].height == start.base + k + 1 && reqs[k].height in t.commits
    ensures reqs[k + 1].height == reqs[k].height + 1 && reqs[k + 1].height in t.commits
    ensures t.commits[reqs[k + 1].height].previous == t.commits[reqs[k].height].next
  {
    t := Fold(app, start, reqs).value;
    FoldPosition(app, start, reqs, k);
    FoldPosition(app, start, reqs, k + 1);
    var before := FoldRow(app, start, reqs, k);
    var next := FoldRow(app, start, reqs, k + 1);
    FoldStep(app, start, reqs, k, before, next);
    LinkToPredecessor(app, t, before, reqs[k], reqs[k + 1]);
  }

  lemma RowEnds(app: App, t: Tables, before: Tables, req: Request)
    requires Follows(app, before, req) && HasRow(app, t, before, req)
    ensures t.commits[req.height].previous == CurrentHash(app, before)
    ensures t.commits[req.height].next == CurrentHash(app, Applied(app, before, req))
  {
  }

  /** The first row starts from the application hash of the base. */
  lemma FirstRowAnchored(app: App, start: Tables, reqs: seq<Request>)
    requires AtBase(start) && Fold(app, start, reqs).Some? && reqs != []
    ensures reqs[0].height == start.base + 1 && reqs[0].height in Fold(app, start, reqs).value.commits
    ensures Fold(app, start, reqs).value.commits[reqs[0].height].previous == CurrentHash(app, start)
  {
    var before := FoldRow(app, start, reqs, 0);
    FoldPosition(app, start, reqs, 0);
    assert reqs[..0] == [];
    RowEnds(app, Fold(app, start, reqs).value, before, reqs[0]);
  }

  /** The last row ends with the current application hash. */
  lemma LastRowAnchored(app: App, start: Tables, reqs: seq<Request>)
    requires AtBase(start) && Fold(app, start, reqs).Some? && reqs != []
    ensures var t := Fold(app, start, reqs).value;
            t.height in t.commits && t.commits[t.height].next == CurrentHash(app, t)
  {
    var before := FoldLast(app, start, reqs);
  }

  // ---- conservation and at-most-once, along the fold ----

  lemma {:induction false} FoldConserves(app: App, start: Tables, reqs: seq<Request>)
    requires Fold(app, start, reqs).Some?
    ensures Total(Fold(app, start, reqs).value.accounts) == Total(start.accounts)
  {
    if reqs != [] {
      var init, last := reqs[..|reqs| - 1], reqs[|reqs| - 1];
      FoldConserves(app, start, init);
      ExecuteConserves(Fold(app, start, init).value.accounts, last.txs, app.feePool, app.rules);
    }
  }

  ghost predicate HasAll(t: Tables, txs: seq<Transaction>) {
    forall tx :: tx in txs ==> TxId(tx) in t.txHeights
  }

  lemma AppliedRecords(app: App, t: Tables, req: Request)
    requires Follows(app, t, req)
    ensures HasAll(Applied(app, t, req), req.txs)
    ensures t.txHeights.Keys <= Applied(app, t, req).txHeights.Keys
  {
    forall tx | tx in req.txs ensures TxId(tx) in TxIds(req.txs) {
      var i :| 0 <= i < |req.txs| && req.txs[i] == tx;
      assert TxIds(req.txs)[i] == TxId(tx);
    }
  }

  lemma {:induction false} FoldRecords(app: App, start: Tables, reqs: seq<Request>, k: nat)
    requires Fold(app, start, reqs).Some? && k < |reqs|
    ensures HasAll(Fold(app, start, reqs).value, reqs[k].txs)
    decreases |reqs|
  {
    var before := FoldLast(app, start, reqs);
    AppliedRecords(app, before, reqs[|reqs| - 1]);
    if k < |reqs| - 1 {
      FoldRecords(app, start, reqs[..|reqs| - 1], k);
      assert HasAll(before, reqs[k].txs);
    }
  }

  /** No transaction is committed twice, neither in one batch nor in two. */
  lemma NoTransactionTwice(app: App, start: Tables, reqs: seq<Request>, i: nat, j: nat, tx: Transaction)
    requires AtBase(start) && Fold(app, start, reqs).Some? && i <= j < |reqs|
    requires tx in reqs[i].txs && tx in reqs[j].txs
    ensures i == j && Distinct(reqs[i].txs)
  {
    var before := FoldRow(app, start, reqs, j);
    var before' := FoldSound(app, start, reqs[..j]);
    AppliedSpent(app, before, reqs[j]);
    ExecutedNonces(before.accounts, reqs[j].txs, app.feePool, app.rules);
    if i < j { FoldRecords(app, start, reqs[..j], i); }
  }

  // ---- schedules ----

  /** What an engine, an operator or a crash can do. A crash between two calls, or inside one
      (a database transaction either took effect or did not), leaves the tables of a `Reopen`. */
  datatype Op = StageOp(req: Request) | ReplayOp(req: Request) | CommitOp | Reopen

  ghost function Perform(app: App, t: Tables, op: Op): Tables {
    match op
    case StageOp(req) => Stage(app, t, req).0
    case ReplayOp(req) => ReplaySafe(app, t, req).0
    case CommitOp => Commit(app, t).0
    case Reopen => t
  }

  ghost function PerformAll(app: App, start: Tables, ops: seq<Op>): Tables {
    if ops == [] then start else Perform(app, PerformAll(app, start, ops[..|ops| - 1]), ops[|ops| - 1])
  }

  /** Nothing is pending, and no row is above the height. */
  ghost predicate Clean(t: Tables) {
    t.pending == map[] && t.height >= 0 && forall h :: h in t.commits ==> h <= t.height
  }

  /** The tables with this request pending. */
  ghost function Pending(app: App, t: Tables, req: Request): Tables
    requires Follows(app, t, req)
  {
    t.(pending := map[req.height := PendingRow(RowFor(app, t, req, After(app, t, req)), req.txs)])
  }

  /** The tables are `image`, with `staged` (if any) pending on top of it. */
  ghost predicate OnTop(app: App, image: Tables, t: Tables, staged: Option<Request>) {
    match staged
    case None => t == image
    case Some(req) => Follows(app, image, req) && t == Pending(app, image, req)
  }

  /** The tables are the fold of `done`, with `staged` (if any) pending on top of it. */
  ghost predicate Describes(app: App, start: Tables, t: Tables, done: seq<Request>, staged: Option<Request>) {
    Fold(app, start, done).Some? && OnTop(app, Fold(app, start, done).value, t, staged)
  }

  /** With nothing pending, staging writes a row for exactly the requests that follow. */
  lemma StageOnClean(app: App, t: Tables, req: Request)
    requires Clean(t)
    ensures Stage(app, t, req).0 == if Follows(app, t, req) then Pending(app, t, req) else t
    ensures ReplaySafe(app, t, req).0 == Stage(app, t, req).0
    ensures Follows(app, t, req) ==>
              Stage(app, t, req).1 == Ok(Reply(req.height, RowFor(app, t, req, After(app, t, req)), Some(StateRoot(After(app, t, req))), true, false, false))
  {
  }

  /** With a request pending, staging changes nothing; at the pending height it answers exactly
      that request, from its row. */
  lemma StageOnPending(app: App, image: Tables, staged: Request, req: Request)
    requires Clean(image) && Follows(app, image, staged)
    ensures var t := Pending(app, image, staged);
            Stage(app, t, req).0 == t && ReplaySafe(app, t, req).0 == t
    ensures req.height == staged.height ==>
              var t := Pending(app, image, staged); var (_, reply) := Stage(app, t, req);
              && ReplaySafe(app, t, req).1 == reply
              && (reply.Ok? <==> Same(req, staged))
              && (reply.Ok? ==> reply == Ok(Reply(req.height, RowFor(app, image, staged, After(app, image, staged)),
                                                  Some(StateRoot(After(app, image, staged))), true, false, true)))
  {
    var t := Pending(app, image, staged);
    assert CurrentHash(app, t) == CurrentHash(app, image);
    if req.height == staged.height {
      SameRequestSameHash(app, CurrentHash(app, image), req, staged);
      if Same(req, staged) { HexCase(req.blockHash, staged.blockHash); }
    }
  }

  lemma CommitOnPending(app: App, image: Tables, req: Request)
    requires Clean(image) && Follows(app, image, req)
    requires forall tx :: tx in req.txs ==> TxId(tx) !in image.txHeights
    requires HashesNameHeights(image)
    ensures Commit(app, Pending(app, image, req))
            == (Applied(app, image, req), Ok(Committed(req.height, RowFor(app, image, req, After(app, image, req)))))
  {
    var row := RowFor(app, image, req, After(app, image, req));
    OnlyLowest(req.height, PendingRow(row, req.txs));
    RowsRefineSimulation(app, Rows(image.accounts, image.txHeights), req.txs, req.height, app.feePool);
    assert map[req.height := PendingRow(row, req.txs)] - {req.height} == map[];
  }

  /** Committing a staged request succeeds, whatever it is, and appends it to the fold. */
  lemma CommitDescribes(app: App, start: Tables, t: Tables, done: seq<Request>, req: Request) returns (image: Tables)
    requires AtBase(start) && Describes(app, start, t, done, Some(req))
    ensures Fold(app, start, done) == Some(image) && Follows(app, image, req)
    ensures Commit(app, t) == (Applied(app, image, req), Ok(Committed(req.height, RowFor(app, image, req, After(app, image, req)))))
    ensures Describes(app, start, Commit(app, t).0, done + [req], None)
  {
    image := FoldSound(app, start, done);
    AppliedSpent(app, image, req);
    CommitOnPending(app, image, req);
    FoldSnoc(app, start, done, req);
  }

  /** One step of a schedule, by anyone. */
  lemma PerformDescribes(app: App, start: Tables, t: Tables, done: seq<Request>, staged: Option<Request>, op: Op)
    returns (done': seq<Request>, staged': Option<Request>)
    requires AtBase(start) && Describes(app, start, t, done, staged)
    ensures Describes(app, start, Perform(app, t, op), done', staged')
    ensures || (done' == done && (staged' == staged || (staged == None && (op.StageOp? || op.ReplayOp?) && staged' == Some(op.req))))
            || (op.CommitOp? && staged.Some? && done' == done + [staged.value] && staged' == None)
  {
    done', staged' := done, staged;
    var image := FoldSound(app, start, done);
    if op.StageOp? || op.ReplayOp? {
      if staged.Some? { StageOnPending(app, image, staged.value, op.req); }
      else {
        StageOnClean(app, image, op.req);
        if Follows(app, image, op.req) { staged' := Some(op.req); }
      }
    } else if op.CommitOp? && staged.Some? {
      var _ := CommitDescribes(app, start, t, done, staged.value);
      done', staged' := done + [staged.value], None;
    }
  }

  /** Every request committed or staged came from the schedule. */
  ghost predicate Scheduled(ops: seq<Op>, done: seq<Request>, staged: Option<Request>) {
    forall req :: req in done || Some(req) == staged ==> StageOp(req) in ops || ReplayOp(req) in ops
  }

  lemma ScheduledNext(init: seq<Op>, op: Op, d: seq<Request>, s: Option<Request>, done: seq<Request>, staged: Option<Request>)
    requires Scheduled(init, d, s)
    requires || (done == d && (staged == s || ((op.StageOp? || op.ReplayOp?) && staged == Some(op.req))))
             || (s.Some? && done == d + [s.value] && staged == None)
    ensures Scheduled(init + [op], done, staged)
  {
  }

  lemma ReachedNext(app: App, start: Tables, t: Tables, init: seq<Op>, d: seq<Request>, s: Option<Request>, op: Op, next: Tables)
    returns (done: seq<Request>, staged: Option<Request>)
    requires AtBase(start) && Describes(app, start, t, d, s) && Scheduled(init, d, s) && next == Perform(app, t, op)
    ensures Describes(app, start, next, done, staged) && Scheduled(init + [op], done, staged)
  {
    done, staged := PerformDescribes(app, start, t, d, s, op);
    ScheduledNext(init, op, d, s, done, staged);
  }

  lemma {:induction false} ReachedIsFold(app: App, start: Tables, ops: seq<Op>, t: Tables) returns (done: seq<Request>, staged: Option<Request>)
    requires AtBase(start) && t == PerformAll(app, start, ops)
    ensures Describes(app, start, t, done, staged) && Scheduled(ops, done, staged)
  {
    if ops == [] {
      done, staged := [], None;
    } else {
      var init, last := ops[..|ops| - 1], ops[|ops| - 1];
      var before := PerformAll(app, start, init);
      var d, s := ReachedIsFold(app, start, init, before);
      done, staged := ReachedNext(app, start, before, init, d, s, last, t);
      assert ops == init + [last];
    }
  }

  /** Every reachable state of the store is a fold of the requests committed so far, with at most
      one request pending on top of it; every request in it came from the schedule. */
  lemma ReachableIsFold(app: App, start: Tables, ops: seq<Op>) returns (done: seq<Request>, staged: Option<Request>)
    requires AtBase(start)
    ensures Describes(app, start, PerformAll(app, start, ops), done, staged) && Scheduled(ops, done, staged)
  {
    done, staged := ReachedIsFold(app, start, ops, PerformAll(app, start, ops));
  }

  lemma OnTopShape(app: App, image: Tables, t: Tables, staged: Option<Request>)
    requires OnTop(app, image, t, staged) && image.pending == map[]
    ensures t == image.(pending := t.pending)
    ensures if staged == None then t.pending == map[] else t.pending.Keys == {t.height + 1}
  {
  }

  lemma DescribedTables(app: App, start: Tables, t: Tables, done: seq<Request>, staged: Option<Request>) returns (image: Tables)
    requires AtBase(start) && Describes(app, start, t, done, staged)
    ensures Fold(app, start, done) == Some(image) && Sound(image, start.base, |done|) && t == image.(pending := t.pending)
    ensures if staged == None then t.pending == map[] else t.pending.Keys == {t.height + 1}
  {
    image := FoldSound(app, start, done);
    OnTopShape(app, image, t, staged);
  }

  /** In every reachable state: the commit rows cover exactly base+1 .. height, at most one
      finalize is pending and it sits at height+1, opening the database succeeds, and no unit was
      created or lost. */
  lemma StoreInvariant(app: App, start: Tables, ops: seq<Op>) returns (t: Tables)
    requires AtBase(start)
    ensures t == PerformAll(app, start, ops)
    ensures start.base <= t.height && Covers(t, start.base, t.height - start.base) && Opens(t)
    ensures t.pending == map[] || t.pending.Keys == {t.height + 1}
    ensures Total(t.accounts) == Total(start.accounts)
  {
    t := PerformAll(app, start, ops);
    var done, staged := ReachableIsFold(app, start, ops);
    var image := DescribedTables(app, start, t, done, staged);
    FoldConserves(app, start, done);
  }

  /** In every reachable state committing succeeds, and commits the pending row as it was staged. */
  lemma CommitNeverFails(app: App, start: Tables, ops: seq<Op>) returns (t: Tables)
    requires AtBase(start)
    ensures t == PerformAll(app, start, ops)
    ensures t.pending == map[] ==> Commit(app, t) == (t, Ok(NothingPending(t.height, CurrentHash(app, t))))
    ensures t.pending != map[] ==>
              && t.height + 1 in t.pending
              && var row := t.pending[t.height + 1].row;
                 && Commit(app, t).1 == Ok(Committed(t.height + 1, row))
                 && CurrentHash(app, Commit(app, t).0) == row.next
  {
    t := PerformAll(app, start, ops);
    var done, staged := ReachableIsFold(app, start, ops);
    if staged.Some? { var image := CommitDescribes(app, start, t, done, staged.value); }
    else { var image := FoldSound(app, start, done); }
  }

  // ---- one decided sequence ----

  lemma LowerSameRow(app: App, t: Tables, r: Request, q: Request)
    requires Same(r, q) && Follows(app, t, r) && Follows(app, t, q)
    ensures Applied(app, t, r) == Applied(app, t, q)
  {
    SameRequestSameHash(app, CurrentHash(app, t), r, q);
  }

  lemma {:induction false} FoldSame(app: App, start: Tables, rs: seq<Request>, qs: seq<Request>)
    requires |rs| == |qs| && forall i :: 0 <= i < |rs| ==> Same(rs[i], qs[i])
    ensures Fold(app, start, rs) == Fold(app, start, qs)
  {
    if rs != [] {
      var n := |rs| - 1;
      FoldSame(app, start, rs[..n], qs[..n]);
      HexCase(rs[n].blockHash, qs[n].blockHash);
      if Fold(app, start, rs).Some? { LowerSameRow(app, Fold(app, start, rs[..n]).value, rs[n], qs[n]); }
    }
  }

  /** The engine only ever delivers decisions of this sequence, in any order and any number of times. */
  ghost predicate Delivers(start: Tables, decided: seq<Request>, ops: seq<Op>) {
    && (forall i :: 0 <= i < |decided| ==> decided[i].height == start.base + i + 1)
    && (forall req :: StageOp(req) in ops || ReplayOp(req) in ops ==> exists i :: 0 <= i < |decided| && Same(req, decided[i]))
  }

  lemma DoneAt(start: Tables, decided: seq<Request>, ops: seq<Op>, req: Request, k: nat)
    requires Delivers(start, decided, ops) && (StageOp(req) in ops || ReplayOp(req) in ops)
    requires req.height == start.base + k + 1
    ensures k < |decided| && Same(req, decided[k])
  {
  }

  lemma DoneIsPrefix(app: App, start: Tables, decided: seq<Request>, ops: seq<Op>, done: seq<Request>)
    requires AtBase(start) && Delivers(start, decided, ops) && Fold(app, start, done).Some?
    requires forall req :: req in done ==> StageOp(req) in ops || ReplayOp(req) in ops
    ensures |done| <= |decided| && forall k :: 0 <= k < |done| ==> Same(done[k], decided[k])
  {
    forall k | 0 <= k < |done| ensures k < |decided| && Same(done[k], decided[k]) {
      FoldPosition(app, start, done, k);
      DoneAt(start, decided, ops, done[k], k);
    }
  }

  /** For every schedule over one decided sequence, the committed tables are the plain fold of a
      prefix of that sequence, and its length is the height above the base. */
  lemma ScheduleIsDeterministic(app: App, start: Tables, decided: seq<Request>, ops: seq<Op>) returns (n: nat)
    requires AtBase(start) && Delivers(start, decided, ops)
    ensures var t := PerformAll(app, start, ops);
            n <= |decided| && t.height == start.base + n
            && Fold(app, start, decided[..n]) == Some(t.(pending := map[]))
  {
    var done, staged := ReachableIsFold(app, start, ops);
    DoneIsPrefix(app, start, decided, ops, done);
    n := |done|;
    FoldSame(app, start, done, decided[..n]);
    var image := FoldSound(app, start, done);
  }

  /** Two stores fed the same decisions hold the same committed tables whenever their heights are
      equal, whatever their schedules. */
  lemma SchedulesAgree(app: App, start: Tables, decided: seq<Request>, ops1: seq<Op>, ops2: seq<Op>)
    requires AtBase(start) && Delivers(start, decided, ops1) && Delivers(start, decided, ops2)
    requires PerformAll(app, start, ops1).height == PerformAll(app, start, ops2).height
    ensures PerformAll(app, start, ops1).(pending := map[]) == PerformAll(app, start, ops2).(pending := map[])
  {
    var n := ScheduleIsDeterministic(app, start, decided, ops1);
    var m := ScheduleIsDeterministic(app, start, decided, ops2);
    assert n == m;
  }

  lemma PerformTwo(app: App, start: Tables, ops: seq<Op>, first: Op, second: Op)
    ensures PerformAll(app, start, ops + [first] + [second]) == Perform(app, Perform(app, PerformAll(app, start, ops), first), second)
  {
    assert (ops + [first])[..|ops|] == ops;
    assert (ops + [first] + [second])[..|ops| + 1] == ops + [first];
  }

  lemma ReachableClean(app: App, start: Tables, ops: seq<Op>) returns (done: seq<Request>)
    requires AtBase(start) && PerformAll(app, start, ops).pending == map[]
    ensures Fold(app, start, done) == Some(PerformAll(app, start, ops)) && Clean(PerformAll(app, start, ops))
  {
    var staged;
    done, staged := ReachableIsFold(app, start, ops);
    var image := DescribedTables(app, start, PerformAll(app, start, ops), done, staged);
  }

  /** A decision that follows can always be driven through: stage (or replay) it, then commit. */
  lemma Progress(app: App, start: Tables, ops: seq<Op>, req: Request)
    requires AtBase(start)
    requires PerformAll(app, start, ops).pending == map[] && Follows(app, PerformAll(app, start, ops), req)
    ensures PerformAll(app, start, ops + [ReplayOp(req)] + [CommitOp]) == Applied(app, PerformAll(app, start, ops), req)
    ensures PerformAll(app, start, ops + [StageOp(req)] + [CommitOp]) == Applied(app, PerformAll(app, start, ops), req)
  {
    var t := PerformAll(app, start, ops);
    var done := ReachableClean(app, start, ops);
    PerformTwo(app, start, ops, ReplayOp(req), CommitOp);
    PerformTwo(app, start, ops, StageOp(req), CommitOp);
    StageOnClean(app, t, req);
    var _ := CommitDescribes(app, start, Pending(app, t, req), done, req);
  }

  // ---- repeated and conflicting requests ----

  /** At the pending height the staged request is answered again from its row, and any other
      request is refused; neither changes a table. */
  lemma PendingHeightIsSettled(app: App, start: Tables, t: Tables, done: seq<Request>, staged: Request, req: Request)
    requires AtBase(start) && Describes(app, start, t, done, Some(staged)) && req.height == staged.height
    ensures ReplaySafe(app, t, req) == Stage(app, t, req) && Stage(app, t, req).0 == t
    ensures Stage(app, t, req).1.Ok? <==> Same(req, staged)
    ensures Stage(app, t, req).1.Ok? ==>
              && req.height in t.pending
              && var reply := Stage(app, t, req).1.value;
                 reply.row == t.pending[req.height].row && reply.staged && reply.idempotent && !reply.alreadyCommitted
  {
    var image := FoldSound(app, start, done);
    StageOnPending(app, image, staged, req);
  }

  lemma ReplayOfRow(app: App, t: Tables, before: Tables, q: Request, req: Request)
    requires Follows(app, before, q) && HasRow(app, t, before, q) && req.height == q.height <= t.height
    ensures ReplaySafe(app, t, req).0 == t
    ensures ReplaySafe(app, t, req).1
            == if Same(req, q) then Ok(Reply(req.height, t.commits[q.height], None, false, true, true)) else Err(ConflictCommitted)
    ensures Stage(app, t, req).0 == t && Stage(app, t, req).1.Err?
    ensures AllDifferent(req.txs) && IsHex64(req.blockHash) ==> Stage(app, t, req).1 == Err(ConflictCommitted)
  {
    SameRequestSameHash(app, CurrentHash(app, before), req, q);
    assert HashRequest(app, CurrentHash(app, t), req) != t.commits[q.height].requestHash;
  }

  /** At a committed height the replay wrapper answers the committed request from its row, and
      refuses any other; neither changes a table. Plain staging refuses every request there, the
      committed one included, because the current application hash has moved on. */
  lemma CommittedHeightIsSettled(app: App, start: Tables, t: Tables, done: seq<Request>, staged: Option<Request>, k: nat, req: Request)
    requires AtBase(start) && Describes(app, start, t, done, staged) && k < |done| && req.height == start.base + k + 1
    ensures req.height in t.commits
    ensures ReplaySafe(app, t, req)
            == (t, if Same(req, done[k]) then Ok(Reply(req.height, t.commits[req.height], None, false, true, true)) else Err(ConflictCommitted))
    ensures Stage(app, t, req).0 == t && Stage(app, t, req).1.Err?
    ensures AllDifferent(req.txs) && IsHex64(req.blockHash) ==> Stage(app, t, req).1 == Err(ConflictCommitted)
  {
    var image := FoldSound(app, start, done);
    var before := FoldRow(app, start, done, k);
    FoldPosition(app, start, done, k);
    var before' := FoldSound(app, start, done[..k]);
    ReplayOfRow(app, t, before, done[k], req);
  }

  /** At and below the snapshot base nothing can be replayed. */
  lemma BelowBaseIsRefused(app: App, start: Tables, t: Tables, done: seq<Request>, staged: Option<Request>, req: Request)
    requires AtBase(start) && Describes(app, start, t, done, staged) && req.height <= start.base
    ensures ReplaySafe(app, t, req) == (t, Err(NoCommittedRecord))
    ensures Stage(app, t, req).0 == t && Stage(app, t, req).1.Err?
  {
    var image := FoldSound(app, start, done);
  }
}
