/** What a whole run of the store with governance amounts to, read off its decisions alone. */
module LedgerV21 {
  import opened Models
  import opened Execution
  import opened Blocks
  import opened StoreV21
  import opened StoreV21Runs
  import ExternalStore
  import Governance
  import Ledger

  // ---- splitting a decision ----

  /** The places of the transfers among the items, in order. */
  ghost predicate TransfersAt(items: seq<Item>, transfers: seq<Transaction>, places: seq<nat>) {
    && |places| == |transfers| && (forall i, j :: 0 <= i < j < |places| ==> places[i] < places[j])
    && (forall i :: 0 <= i < |places| ==> places[i] < |items| && items[places[i]] == Transfer(transfers[i]))
    && (forall i :: 0 <= i < |items| && items[i].Transfer? ==> i in places)
  }

  ghost predicate OneChange(items: seq<Item>) {
    forall i, j :: 0 <= i < j < |items| ==> items[i].Transfer? || items[j].Transfer?
  }

  ghost predicate ChangeIs(items: seq<Item>, change: Option<Governance.Envelope>) {
    forall i :: 0 <= i < |items| && items[i].Change? ==> change == Some(items[i].envelope)
  }

  lemma OneChangeSnoc(init: seq<Item>, last: Item)
    ensures OneChange(init + [last]) <==> OneChange(init) && (last.Transfer? || forall i :: 0 <= i < |init| ==> init[i].Transfer?)
  {
    var all := init + [last];
    assert forall i :: 0 <= i < |init| ==> all[i] == init[i];
    assert all[|init|] == last;
    if OneChange(init) && (last.Transfer? || forall i :: 0 <= i < |init| ==> init[i].Transfer?) {
      forall i, j | 0 <= i < j < |all| ensures all[i].Transfer? || all[j].Transfer? {
        if j < |init| { assert init[i].Transfer? || init[j].Transfer?; }
      }
    }
    if OneChange(all) && last.Change? {
      forall i | 0 <= i < |init| ensures init[i].Transfer? { assert all[i] == init[i]; }
    }
    if OneChange(all) {
      forall i, j | 0 <= i < j < |init| ensures init[i].Transfer? || init[j].Transfer? { assert all[i].Transfer? || all[j].Transfer?; }
    }
  }

  /** The batch holds the transfers in their order, and the one change if there is one. */
  ghost predicate BatchIs(items: seq<Item>, b: Batch, places: seq<nat>) {
    && TransfersAt(items, b.transfers, places) && ChangeIs(items, b.change)
    && (b.change.Some? ==> Change(b.change.value) in items)
  }

  lemma BatchTransfer(init: seq<Item>, b: Batch, places: seq<nat>, tx: Transaction)
    requires BatchIs(init, b, places)
    ensures BatchIs(init + [Transfer(tx)], b.(transfers := b.transfers + [tx]), places + [|init|])
  {
  }

  lemma BatchChange(init: seq<Item>, b: Batch, places: seq<nat>, e: Governance.Envelope)
    requires BatchIs(init, b, places) && b.change.None?
    ensures BatchIs(init + [Change(e)], b.(change := Some(e)), places)
  {
    assert forall i :: 0 <= i < |init| ==> init[i].Transfer?;
  }

  /** Splitting refuses exactly two changes, and otherwise describes the items. */
  lemma {:induction false} PartsMean(items: seq<Item>) returns (places: seq<nat>)
    ensures Parts(items).Some? <==> OneChange(items)
    ensures Parts(items).Some? ==> BatchIs(items, Parts(items).value, places)
  {
    places := [];
    if items != [] {
      var init, last := items[..|items| - 1], items[|items| - 1];
      places := PartsMean(init);
      assert items == init + [last];
      OneChangeSnoc(init, last);
      if Parts(init).Some? {
        var b := Parts(init).value;
        match last {
          case Transfer(tx) =>
            BatchTransfer(init, b, places, tx);
            places := places + [|init|];
          case Change(e) =>
            if b.change.None? { BatchChange(init, b, places, e); }
            else { assert Change(b.change.value) in init; }
        }
      }
    }
  }

  lemma DifferentSnoc(init: seq<ItemId>, last: ItemId)
    ensures ExternalStore.AllDifferent(init + [last]) <==> ExternalStore.AllDifferent(init) && last !in init
  {
    AllDifferentMeans(init);
    assert (set x | x in init + [last]) == (set x | x in init) + {last};
  }

  lemma DistinctSnoc(init: seq<Item>, last: Item)
    ensures Distinct(init + [last]) <==> Distinct(init) && last !in init
  {
    var all := init + [last];
    assert all[|init|] == last && forall i :: 0 <= i < |init| ==> all[i] == init[i];
    if Distinct(all) {
      forall i, j | 0 <= i < j < |init| ensures init[i] != init[j] { assert all[i] != all[j]; }
      forall i | 0 <= i < |init| ensures init[i] != last { assert all[i] != all[|init|]; }
    }
  }

  lemma {:induction false} DistinctIds(items: seq<Item>)
    ensures ExternalStore.AllDifferent(Ids(items)) <==> Distinct(items)
  {
    if items != [] {
      var init, last := items[..|items| - 1], items[|items| - 1];
      DistinctIds(init);
      DistinctSnoc(init, last);
      DifferentSnoc(Ids(init), IdOf(last));
      assert items == init + [last] && Ids(items) == Ids(init) + [IdOf(last)];
      if IdOf(last) in Ids(init) {
        var i :| 0 <= i < |init| && Ids(init)[i] == IdOf(last);
        assert init[i] == last;
      }
    }
  }

  /** A decision is split exactly if it has at most one change and repeats nothing; two changes are the first
      complaint. */
  lemma SplitMeans(items: seq<Item>) returns (places: seq<nat>)
    ensures Split(items).Ok? <==> OneChange(items) && Distinct(items)
    ensures Split(items) == Err(TwoChanges) <==> !OneChange(items)
    ensures Split(items) == Err(DuplicateTransaction) <==> OneChange(items) && !Distinct(items)
    ensures Split(items).Ok? ==> BatchIs(items, Split(items).value, places)
  {
    places := PartsMean(items);
    DistinctIds(items);
  }

  // ---- one long batch ----

  function PartsOf(req: Request): Batch {
    if Split(req.items).Ok? then Split(req.items).value else Batch([], None)
  }

  /** All transfers of the decisions, in order. */
  function Transfers(reqs: seq<Request>): seq<Transaction> {
    if reqs == [] then [] else Transfers(reqs[..|reqs| - 1]) + PartsOf(reqs[|reqs| - 1]).transfers
  }

  lemma TransfersSnoc(reqs: seq<Request>, req: Request)
    ensures Transfers(reqs + [req]) == Transfers(reqs) + PartsOf(req).transfers
    ensures Changes(reqs + [req]) == Changes(reqs) + [PartsOf(req).change]
  {
    assert (reqs + [req])[..|reqs|] == reqs;
  }

  lemma BeforeLast(app: App, start: Tables, init: seq<Request>, last: Request) returns (before: Tables)
    requires Fold(app, start, init + [last]).Some?
    ensures Fold(app, start, init) == Some(before) && Follows(app, before, last)
    ensures Fold(app, start, init + [last]).value == Applied(app, before, last)
  {
    assert (init + [last])[..|init|] == init;
    before := Fold(app, start, init).value;
  }

  lemma LastExecutes(app: App, start: Tables, init: seq<Request>, last: Request, t: Tables) returns (before: Tables)
    requires Fold(app, start, init + [last]) == Some(t)
    ensures Fold(app, start, init) == Some(before) && t.height == before.height + 1
    ensures Execute(before.accounts, PartsOf(last).transfers, app.feePool, RulesOf(app.g)) == Ok(t.accounts)
  {
    before := BeforeLast(app, start, init, last);
    FollowsExecutes(app, before, last);
  }

  lemma FollowsExecutes(app: App, before: Tables, req: Request)
    requires Follows(app, before, req)
    ensures Execute(before.accounts, PartsOf(req).transfers, app.feePool, RulesOf(app.g)) == Ok(Applied(app, before, req).accounts)
    ensures Applied(app, before, req).height == before.height + 1
  {
  }

  lemma BatchNext(app: App, accounts: Accounts, init: seq<Request>, last: Request, before: Accounts, after: Accounts)
    requires Execute(accounts, Transfers(init), app.feePool, RulesOf(app.g)) == Ok(before)
    requires Execute(before, PartsOf(last).transfers, app.feePool, RulesOf(app.g)) == Ok(after)
    ensures Execute(accounts, Transfers(init + [last]), app.feePool, RulesOf(app.g)) == Ok(after)
  {
    TransfersSnoc(init, last);
    ExecuteAppend(accounts, Transfers(init), PartsOf(last).transfers, app.feePool, RulesOf(app.g));
  }

  /** Splitting the transfers into decisions makes no difference to the accounts. */
  lemma {:induction false} FoldIsBatch(app: App, start: Tables, reqs: seq<Request>, t: Tables)
    requires Fold(app, start, reqs) == Some(t)
    ensures Execute(start.accounts, Transfers(reqs), app.feePool, RulesOf(app.g)) == Ok(t.accounts) && t.height == start.height + |reqs|
    decreases |reqs|
  {
    if reqs != [] {
      var init, last := reqs[..|reqs| - 1], reqs[|reqs| - 1];
      assert reqs == init + [last];
      var before := LastExecutes(app, start, init, last, t);
      FoldIsBatch(app, start, init, before);
      BatchNext(app, start.accounts, init, last, before.accounts, t.accounts);
    }
  }

  /** What is asked of a decision by itself: its place, its hash, one change at most, nothing twice. */
  ghost predicate WellPut(req: Request, height: int) {
    req.height == height && ExternalStore.IsHex64(req.blockHash) && OneChange(req.items) && Distinct(req.items)
  }

  lemma FollowsIff(app: App, t: Tables, req: Request)
    requires GovernanceOk(app, t)
    ensures Follows(app, t, req)
            <==> && WellPut(req, t.height + 1)
                 && Execute(t.accounts, PartsOf(req).transfers, app.feePool, RulesOf(app.g)).Ok?
                 && Governance.Next(app.g, t.governance, t.height + 1, PartsOf(req).change).Some?
  {
    var places := SplitMeans(req.items);
    Governance.CommitIsSimulate(app.g, t.governance, t.height + 1, PartsOf(req).change);
  }

  ghost predicate InLine(start: Tables, reqs: seq<Request>) {
    forall k :: 0 <= k < |reqs| ==> WellPut(reqs[k], start.height + k + 1)
  }

  ghost predicate Folds(app: App, start: Tables, reqs: seq<Request>) {
    Fold(app, start, reqs).Some?
    <==> && InLine(start, reqs) && Execute(start.accounts, Transfers(reqs), app.feePool, RulesOf(app.g)).Ok?
         && Governance.RunHeights(app.g, start.governance, start.height, Changes(reqs)).Some?
  }

  lemma InLineSnoc(start: Tables, init: seq<Request>, last: Request)
    ensures InLine(start, init + [last]) <==> InLine(start, init) && WellPut(last, start.height + |init| + 1)
  {
    var all := init + [last];
    assert all[|init|] == last && forall k :: 0 <= k < |init| ==> all[k] == init[k];
    if InLine(start, all) {
      forall k | 0 <= k < |init| ensures WellPut(init[k], start.height + k + 1) { assert WellPut(all[k], start.height + k + 1); }
    }
  }

  lemma FoldSnocIff(app: App, start: Tables, init: seq<Request>, t: Tables, last: Request) returns (folds: bool, put: bool, executes: bool, carried: bool)
    requires Fold(app, start, init) == Some(t) && GovernanceOk(app, t)
    ensures folds == Fold(app, start, init + [last]).Some? && put == WellPut(last, t.height + 1)
    ensures executes == Execute(t.accounts, PartsOf(last).transfers, app.feePool, RulesOf(app.g)).Ok?
    ensures carried == Governance.Next(app.g, t.governance, t.height + 1, PartsOf(last).change).Some?
    ensures folds <==> put && executes && carried
  {
    assert (init + [last])[..|init|] == init;
    FollowsIff(app, t, last);
    folds, put := Follows(app, t, last), WellPut(last, t.height + 1);
    executes := Execute(t.accounts, PartsOf(last).transfers, app.feePool, RulesOf(app.g)).Ok?;
    carried := Governance.Next(app.g, t.governance, t.height + 1, PartsOf(last).change).Some?;
  }

  lemma ExecutesNext(app: App, start: Tables, init: seq<Request>, t: Tables, last: Request)
    requires Execute(start.accounts, Transfers(init), app.feePool, RulesOf(app.g)) == Ok(t.accounts)
    ensures Execute(start.accounts, Transfers(init + [last]), app.feePool, RulesOf(app.g)).Ok?
            <==> Execute(t.accounts, PartsOf(last).transfers, app.feePool, RulesOf(app.g)).Ok?
  {
    TransfersSnoc(init, last);
    ExecuteAppend(start.accounts, Transfers(init), PartsOf(last).transfers, app.feePool, RulesOf(app.g));
  }

  lemma CarriedSnoc(g: Genesis, from: Governance.Tables, height: int, changes: seq<Option<Governance.Envelope>>, mid: Governance.Tables,
                    e: Option<Governance.Envelope>, at: int)
    requires Governance.RunHeights(g, from, height, changes) == Some(mid) && at == height + |changes| + 1
    ensures Governance.RunHeights(g, from, height, changes + [e]) == Governance.Next(g, mid, at, e)
  {
    Governance.RunSnoc(g, from, height, changes, mid, e);
  }

  lemma NextFolds(app: App, start: Tables, init: seq<Request>, last: Request, t: Tables)
    requires AtBase(app, start) && Fold(app, start, init) == Some(t) && Folds(app, start, init)
    ensures Folds(app, start, init + [last])
  {
    FoldIsBatch(app, start, init, t);
    FoldRunsGovernance(app, start, init, t);
    var t' := FoldSound(app, start, init);
    var folds, put, executes, carried := FoldSnocIff(app, start, init, t, last);
    ExecutesNext(app, start, init, t, last);
    TransfersSnoc(init, last);
    ChangesLength(init);
    CarriedSnoc(app.g, start.governance, start.height, Changes(init), t.governance, PartsOf(last).change, t.height + 1);
    InLineSnoc(start, init, last);
  }

  lemma NoneFolds(app: App, start: Tables, init: seq<Request>, last: Request)
    requires Fold(app, start, init).None? && Folds(app, start, init)
    ensures Folds(app, start, init + [last])
  {
    assert (init + [last])[..|init|] == init;
    TransfersSnoc(init, last);
    InLineSnoc(start, init, last);
    ExecuteAppend(start.accounts, Transfers(init), PartsOf(last).transfers, app.feePool, RulesOf(app.g));
    assert (Changes(init) + [PartsOf(last).change])[..|Changes(init)|] == Changes(init);
  }

  lemma {:induction false} FoldsIff(app: App, start: Tables, reqs: seq<Request>)
    requires AtBase(app, start)
    ensures Folds(app, start, reqs)
  {
    if reqs != [] {
      var init, last := reqs[..|reqs| - 1], reqs[|reqs| - 1];
      FoldsIff(app, start, init);
      match Fold(app, start, init) {
        case None => NoneFolds(app, start, init, last);
        case Some(t) => NextFolds(app, start, init, last, t);
      }
      assert reqs == init + [last];
    }
  }

  /** The validator change of each decision, if it has one, is admissible where the plan has come to. */
  ghost predicate ChangesAdmissible(app: App, start: Tables, reqs: seq<Request>) {
    forall k :: 0 <= k < |Changes(reqs)| ==>
      Governance.Admissible(app.g, start.height + k + 1, Governance.PlanAfter(start.governance.active, Changes(reqs)[..k]), Changes(reqs)[k])
  }

  /** A sequence of decisions can be committed exactly if each is well put at its height, no transfer has a
      fault where it stands among all of them, and each validator change comes when none came just
      before and verifies against the validators the plan has come to. */
  lemma CommittableIff(app: App, start: Tables, reqs: seq<Request>)
    requires AtBase(app, start) && start.governance.pending == []
    ensures Fold(app, start, reqs).Some?
            <==> InLine(start, reqs) && Faultless(start.accounts, Transfers(reqs), app.feePool, RulesOf(app.g)) && ChangesAdmissible(app, start, reqs)
  {
    FoldsIff(app, start, reqs);
    ExecuteMeans(start.accounts, Transfers(reqs), app.feePool, RulesOf(app.g));
    Governance.RunSucceedsIff(app.g, start.governance, start.height, Changes(reqs));
  }

  /** Over any run of commits, nonce and balance of an account are moved by the committed transfers alone; if
      none of them is an authentic one of its own, its nonce stands still and nothing was taken from it. */
  lemma OnlyOwnersSpend(app: App, start: Tables, reqs: seq<Request>, t: Tables, a: Address)
    requires Fold(app, start, reqs) == Some(t)
    ensures Get(t.accounts, a).nonce == Get(start.accounts, a).nonce + SentBy(Transfers(reqs), a)
    ensures Get(t.accounts, a).balance == Get(start.accounts, a).balance + Delta(Transfers(reqs), app.feePool, a)
    ensures (forall tx :: tx in Transfers(reqs) && tx.authentic ==> tx.sender != a) ==>
              && Get(t.accounts, a).nonce == Get(start.accounts, a).nonce
              && (app.g.minFee >= 0 || a != app.feePool ==> Get(t.accounts, a).balance >= Get(start.accounts, a).balance)
  {
    FoldIsBatch(app, start, reqs, t);
    NothingTouchedOrMoved(start.accounts, Transfers(reqs), app.feePool, RulesOf(app.g), a);
    ExecutedAreGenuine(start.accounts, Transfers(reqs), app.feePool, RulesOf(app.g));
    if forall tx :: tx in Transfers(reqs) && tx.authentic ==> tx.sender != a {
      OthersSpare(start.accounts, Transfers(reqs), app.feePool, RulesOf(app.g), a);
    }
  }

  // ---- the transaction index ----

  /** The index has the item exactly if a decision holds it, and then at the height of that decision. */
  ghost predicate Indexed(index: map<ItemId, int>, base: int, reqs: seq<Request>, item: Item) {
    && (IdOf(item) in index <==> exists k :: 0 <= k < |reqs| && item in reqs[k].items)
    && (forall k :: 0 <= k < |reqs| && item in reqs[k].items ==> IdOf(item) in index && index[IdOf(item)] == base + k + 1)
  }

  /** An index after the marks of one more decision, which brought nothing it had. */
  ghost predicate Grown(index: map<ItemId, int>, req: Request, next: map<ItemId, int>, item: Item) {
    && (IdOf(item) in next <==> item in req.items || IdOf(item) in index)
    && (item in req.items ==> IdOf(item) !in index && next[IdOf(item)] == req.height)
    && (item !in req.items && IdOf(item) in index ==> next[IdOf(item)] == index[IdOf(item)])
  }

  lemma IndexedSnoc(index: map<ItemId, int>, base: int, init: seq<Request>, last: Request, next: map<ItemId, int>, item: Item)
    requires Indexed(index, base, init, item) && Grown(index, last, next, item) && last.height == base + |init| + 1
    ensures Indexed(next, base, init + [last], item)
  {
    var all := init + [last];
    assert all[|init|] == last && forall k :: 0 <= k < |init| ==> all[k] == init[k];
    if item in last.items {
      assert item in all[|init|].items;
      forall k | 0 <= k < |init| ensures item !in init[k].items { }
    } else if IdOf(item) in index {
      var k :| 0 <= k < |init| && item in init[k].items;
      assert item in all[k].items;
    }
  }

  lemma MarksMean(items: seq<Item>, item: Item, height: int)
    ensures IdOf(item) in MarkIds(Ids(items), height) <==> item in items
    ensures item in items ==> MarkIds(Ids(items), height)[IdOf(item)] == height
    ensures item in items ==> IdOf(item) in Ids(items)
  {
    if item in items {
      var i :| 0 <= i < |items| && items[i] == item;
      assert Ids(items)[i] == IdOf(item);
    }
    if IdOf(item) in Ids(items) {
      var i :| 0 <= i < |items| && Ids(items)[i] == IdOf(item);
      assert IdOf(items[i]) == IdOf(item);
    }
  }

  /** An index nothing in which could be used again grows by the new items. */
  ghost predicate GrowsIfSpent(before: Tables, req: Request, t: Tables, item: Item) {
    StoreV21Runs.Spent(before) ==> Grown(before.txHeights, req, t.txHeights, item) && req.height == before.height + 1
  }

  lemma AppliedGrows(app: App, before: Tables, req: Request, item: Item)
    requires Follows(app, before, req)
    ensures GrowsIfSpent(before, req, Applied(app, before, req), item)
  {
    if StoreV21Runs.Spent(before) {
      AppliedSpent(app, before, req);
      MarksMean(req.items, item, req.height);
    }
  }

  lemma LastIndexes(app: App, start: Tables, init: seq<Request>, last: Request, t: Tables, item: Item) returns (before: Tables)
    requires Fold(app, start, init + [last]) == Some(t)
    ensures Fold(app, start, init) == Some(before) && GrowsIfSpent(before, last, t, item)
  {
    before := BeforeLast(app, start, init, last);
    AppliedGrows(app, before, last, item);
  }

  lemma SpentBefore(app: App, start: Tables, reqs: seq<Request>, t: Tables)
    requires AtBase(app, start) && Fold(app, start, reqs) == Some(t)
    ensures StoreV21Runs.Spent(t) && t.height == start.height + |reqs|
  {
    var t' := FoldSound(app, start, reqs);
  }

  /** The transaction index holds exactly the committed transfers and changes, each at the height of its decision. */
  lemma {:induction false} IndexIsExact(app: App, start: Tables, reqs: seq<Request>, t: Tables, item: Item)
    requires AtBase(app, start) && Fold(app, start, reqs) == Some(t)
    ensures Indexed(t.txHeights, start.height, reqs, item)
    decreases |reqs|
  {
    if reqs != [] {
      var init, last := reqs[..|reqs| - 1], reqs[|reqs| - 1];
      assert reqs == init + [last];
      var before := LastIndexes(app, start, init, last, t, item);
      IndexIsExact(app, start, init, before, item);
      SpentBefore(app, start, init, before);
      IndexedSnoc(before.txHeights, start.height, init, last, t.txHeights, item);
    }
  }

  // ---- exactly what is answered ----

  lemma CleanAnswersIff(app: App, t: Tables, req: Request)
    requires t.pending == map[] && req.height > t.height && GovernanceOk(app, t)
    ensures Stage(app, t, req).1.Ok?
            <==> && WellPut(req, t.height + 1) && Faultless(t.accounts, PartsOf(req).transfers, app.feePool, RulesOf(app.g))
                 && Governance.Next(app.g, t.governance, t.height + 1, PartsOf(req).change).Some?
  {
    CleanFollows(app, t, req);
    FollowsIff(app, t, req);
    ExecuteMeans(t.accounts, PartsOf(req).transfers, app.feePool, RulesOf(app.g));
  }

  lemma CleanFollows(app: App, t: Tables, req: Request)
    requires t.pending == map[] && req.height > t.height
    ensures Stage(app, t, req).1.Ok? <==> Follows(app, t, req)
  {
    StageOnClean(app, t, req);
  }

  lemma BelowBase(app: App, start: Tables, t: Tables, done: seq<Request>, staged: Option<Request>, req: Request)
    requires AtBase(app, start) && StoreV21Runs.Describes(app, start, t, done, staged) && req.height <= start.base
    ensures Stage(app, t, req).1.Err?
  {
    var image := DescribedTables(app, start, t, done, staged);
  }

  lemma PendingAnswersIff(app: App, start: Tables, done: seq<Request>, image: Tables, staged: Request, req: Request)
    requires AtBase(app, start) && Fold(app, start, done) == Some(image) && Follows(app, image, staged) && req.height > image.height
    ensures Stage(app, Pending(app, image, staged), req).1.Ok? <==> req.height == image.height + 1 && Same(req, staged)
  {
    var image' := FoldSound(app, start, done);
    StageOnPending(app, image, staged, req);
    FarAhead(app, Pending(app, image, staged), req);
  }

  lemma FarAhead(app: App, t: Tables, req: Request)
    ensures req.height > t.height + 1 ==> Stage(app, t, req).1.Err?
  {
  }

  /** In every reachable state a request is answered exactly if it is the committed decision of its height, or
      the one staged at the open height, or, with none staged, any that is well put, has no fault, and
      whose change the validators in force admit. */
  lemma AnsweredIff(app: App, start: Tables, ops: seq<Op>, req: Request)
    returns (t: Tables, done: seq<Request>, staged: Option<Request>)
    requires AtBase(app, start)
    ensures t == PerformAll(app, start, ops) && StoreV21Runs.Describes(app, start, t, done, staged) && t.height == start.base + |done|
    ensures Stage(app, t, req).1.Ok?
            <==> if req.height <= t.height then req.height > start.base && Same(req, done[req.height - start.base - 1])
                 else
                   match staged
                   case Some(s) => req.height == t.height + 1 && Same(req, s)
                   case None => && WellPut(req, t.height + 1) && Faultless(t.accounts, PartsOf(req).transfers, app.feePool, RulesOf(app.g))
                                && Governance.Next(app.g, t.governance, t.height + 1, PartsOf(req).change).Some?
  {
    t := PerformAll(app, start, ops);
    done, staged := ReachableIsFold(app, start, ops);
    var image := DescribedTables(app, start, t, done, staged);
    if req.height <= start.base { BelowBase(app, start, t, done, staged, req); }
    else if req.height <= t.height {
      var before := CommittedHeightIsSettled(app, start, t, done, staged, req.height - start.base - 1, req);
    } else {
      match staged {
        case None => CleanAnswersIff(app, t, req);
        case Some(s) => PendingAnswersIff(app, start, done, image, s, req);
      }
    }
  }

  /** Which complaint a refused request hears, in any state: the first that applies. */
  lemma StageRefusals(app: App, t: Tables, req: Request)
    ensures var r, hex := Stage(app, t, req).1, ExternalStore.IsHex64(req.blockHash);
            var sound := hex && OneChange(req.items) && Distinct(req.items);
            && (r == Err(BadBlockHash) <==> !hex)
            && (r == Err(TwoChanges) <==> hex && !OneChange(req.items))
            && (r == Err(DuplicateTransaction) <==> hex && OneChange(req.items) && !Distinct(req.items))
            && (r == Err(NoCommittedRecord) <==> sound && req.height <= t.height && req.height !in t.commits)
            && (r == Err(ConflictCommitted) <==>
                  sound && req.height <= t.height && req.height in t.commits
                  && t.commits[req.height].requestHash != RequestHash(app.g.chainId, req.height, ExternalStore.Lower(req.blockHash), Ids(req.items)))
            && (r == Err(UnexpectedHeight) <==> sound && req.height > t.height + 1)
            && (forall e :: r == Err(BadBatch(e)) <==>
                              sound && req.height == t.height + 1
                              && Execute(t.accounts, PartsOf(req).transfers, app.feePool, RulesOf(app.g)) == Err(e))
            && (r.Err? ==> Stage(app, t, req).0 == t)
  {
    var places := SplitMeans(req.items);
  }
}
