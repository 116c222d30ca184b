/** Validator-set governance: verified change requests, emitted at one height and active two later. */
module Governance {
  import opened Models
  import opened Blocks
  import Folds

  datatype Member = Member(name: string, power: int)

  /** The active set by address; an address stands for the one public key it is derived from. */
  type ValidatorSet = map<Address, Member>

  /** `keyMatches`: the public key is well formed and the address is the one derived from it. */
  datatype Update = Update(address: Address, keyMatches: bool, power: int, name: string, operation: string)

  datatype SetHash = SetHash(validators: ValidatorSet)

  datatype Request = Request(chainId: string, fingerprint: Fingerprint, kind: string, emitHeight: int, effectiveHeight: int,
                             source: SetHash, target: SetHash, updates: seq<Update>)

  /** The hash of a request, or some other text offered as one. */
  datatype ChangeId = ChangeId(request: Request) | OtherId(text: string)

  /** `keyMatches`: the public key is that of the validator; `authentic`: it signed this request. */
  datatype Approval = Approval(validator: Address, keyMatches: bool, authentic: bool)

  datatype Envelope = Envelope(tag: string, format: string, changeId: ChangeId, request: Request, approvals: seq<Approval>)

  /** A verified change waiting for its activation height. */
  datatype Change = Change(id: ChangeId, emit: int, effective: int, source: SetHash, targetHash: SetHash, target: ValidatorSet,
                           envelope: Envelope, updates: seq<Update>)

  /** The governance part of the application state. */
  datatype State = State(active: ValidatorSet, pending: seq<Change>)

  const TAG := "validator_governance"
  const FORMAT := "crakbit-validator-governance-tx/1"

  /** What `normalize_validator_set` insists on. */
  predicate ValidSet(s: ValidatorSet) {
    s != map[] && forall a :: a in s ==> s[a].power > 0
  }

  // ---- updates ----

  function ApplyUpdate(current: ValidatorSet, u: Update): Option<ValidatorSet> {
    if !u.keyMatches || !(u.operation in ["", "add", "remove"]) then None
    else if u.power == 0 then if u.address in current then Some(current - {u.address}) else None
    else if u.power < 0 || u.address in current then None
    else Some(current[u.address := Member(if u.name == "" then "validator-new" else u.name, u.power)])
  }

  function ApplyEach(current: ValidatorSet, updates: seq<Update>): Option<ValidatorSet> {
    if updates == [] then Some(current)
    else
      match ApplyEach(current, updates[..|updates| - 1])
      case None => None
      case Some(mid) => ApplyUpdate(mid, updates[|updates| - 1])
  }

  /** `_apply_updates` */
  function Target(active: ValidatorSet, updates: seq<Update>): Option<ValidatorSet> {
    match ApplyEach(active, updates)
    case None => None
    case Some(target) => if target == map[] then None else Some(target)
  }

  lemma {:induction false} TargetValid(active: ValidatorSet, updates: seq<Update>)
    requires ValidSet(active)
    ensures ApplyEach(active, updates).Some? ==> forall a :: a in ApplyEach(active, updates).value ==> ApplyEach(active, updates).value[a].power > 0
    ensures Target(active, updates).Some? ==> ValidSet(Target(active, updates).value)
  {
    if updates != [] { TargetValid(active, updates[..|updates| - 1]); }
  }

  // ---- what an update list means, address by address ----

  /** The `i`-th update is the last one before position `n` that names `a`. */
  ghost predicate LastNamed(updates: seq<Update>, n: nat, i: int, a: Address)
    requires n <= |updates|
  {
    0 <= i < n && updates[i].address == a && forall j :: i < j < n ==> updates[j].address != a
  }

  ghost predicate Unnamed(updates: seq<Update>, n: nat, a: Address)
    requires n <= |updates|
  {
    forall i :: 0 <= i < n ==> updates[i].address != a
  }

  /** The member `a` once the first `n` updates are made, if it is one. */
  ghost function Standing(active: ValidatorSet, updates: seq<Update>, n: nat, a: Address): Option<Member>
    requires n <= |updates|
  {
    if n == 0 then if a in active then Some(active[a]) else None
    else
      var u := updates[n - 1];
      if u.address != a then Standing(active, updates, n - 1, a)
      else if u.power == 0 then None
      else Some(Member(if u.name == "" then "validator-new" else u.name, u.power))
  }

  /** The last update naming an address decides: it holds just the name and power of that update, or is
      gone; without one it is as before. */
  lemma {:induction false} StandingMeans(active: ValidatorSet, updates: seq<Update>, n: nat, a: Address)
    requires n <= |updates|
    ensures Unnamed(updates, n, a) ==> Standing(active, updates, n, a) == if a in active then Some(active[a]) else None
    ensures forall i :: LastNamed(updates, n, i, a) && updates[i].power == 0 ==> Standing(active, updates, n, a) == None
    ensures forall i :: LastNamed(updates, n, i, a) && updates[i].power != 0 ==>
              Standing(active, updates, n, a) == Some(Member(if updates[i].name == "" then "validator-new" else updates[i].name, updates[i].power))
  {
    if n > 0 {
      StandingMeans(active, updates, n - 1, a);
      if updates[n - 1].address != a {
        forall i | LastNamed(updates, n, i, a) ensures LastNamed(updates, n - 1, i, a) { }
      }
    }
  }

  /** An update fits what the ones before it left: a positive power adds a new member, power 0 removes
      a present one. */
  ghost predicate Fits(active: ValidatorSet, updates: seq<Update>, i: int)
    requires 0 <= i < |updates|
  {
    && updates[i].keyMatches && updates[i].operation in ["", "add", "remove"] && updates[i].power >= 0
    && (updates[i].power == 0 <==> Standing(active, updates, i, updates[i].address).Some?)
  }

  ghost predicate Holds(t: ValidatorSet, a: Address, m: Option<Member>) {
    m == if a in t then Some(t[a]) else None
  }

  /** The set holds what the first `n` updates leave standing. */
  ghost predicate Stands(active: ValidatorSet, updates: seq<Update>, n: nat, t: ValidatorSet)
    requires n <= |updates|
  {
    forall a :: Holds(t, a, Standing(active, updates, n, a))
  }

  lemma UpdateStands(active: ValidatorSet, updates: seq<Update>, n: nat, mid: ValidatorSet)
    requires n < |updates| && Stands(active, updates, n, mid)
    ensures ApplyUpdate(mid, updates[n]).Some? <==> Fits(active, updates, n)
    ensures ApplyUpdate(mid, updates[n]).Some? ==> Stands(active, updates, n + 1, ApplyUpdate(mid, updates[n]).value)
  {
    assert Holds(mid, updates[n].address, Standing(active, updates, n, updates[n].address));
    if ApplyUpdate(mid, updates[n]).Some? {
      var next, m := ApplyUpdate(mid, updates[n]).value, n + 1;
      forall a ensures Holds(next, a, Standing(active, updates, m, a)) {
        assert Holds(mid, a, Standing(active, updates, n, a));
      }
    }
  }

  lemma EachSnoc(active: ValidatorSet, updates: seq<Update>, n: nat)
    requires n < |updates|
    ensures ApplyEach(active, updates[..n + 1])
            == match ApplyEach(active, updates[..n]) case None => None case Some(mid) => ApplyUpdate(mid, updates[n])
  {
    assert updates[..n + 1][..n] == updates[..n];
  }

  /** The outcome of the first `n` updates. */
  ghost predicate EachOk(active: ValidatorSet, updates: seq<Update>, n: nat, r: Option<ValidatorSet>)
    requires n <= |updates|
  {
    && (r.Some? <==> forall i :: 0 <= i < n ==> Fits(active, updates, i))
    && (r.Some? ==> Stands(active, updates, n, r.value))
  }

  lemma EachOkNext(active: ValidatorSet, updates: seq<Update>, n: nat, r: Option<ValidatorSet>)
    requires n < |updates| && EachOk(active, updates, n, r)
    ensures EachOk(active, updates, n + 1, match r case None => None case Some(mid) => ApplyUpdate(mid, updates[n]))
  {
    if r.Some? { UpdateStands(active, updates, n, r.value); }
  }

  lemma {:induction false} EachMeans(active: ValidatorSet, updates: seq<Update>, n: nat)
    requires n <= |updates|
    ensures EachOk(active, updates, n, ApplyEach(active, updates[..n]))
  {
    if n > 0 {
      EachMeans(active, updates, n - 1);
      EachSnoc(active, updates, n - 1);
      EachOkNext(active, updates, n - 1, ApplyEach(active, updates[..n - 1]));
    }
  }

  /** An update list is accepted exactly if each update fits and some member is left, and the target then
      holds for each address what the last update naming it says. */
  lemma TargetMeans(active: ValidatorSet, updates: seq<Update>)
    ensures Target(active, updates).Some?
            <==> && (forall i :: 0 <= i < |updates| ==> Fits(active, updates, i))
                 && exists a :: Standing(active, updates, |updates|, a).Some?
    ensures Target(active, updates).Some? ==> Stands(active, updates, |updates|, Target(active, updates).value)
  {
    EachMeans(active, updates, |updates|);
    assert updates[..|updates|] == updates;
    if ApplyEach(active, updates).Some? { SomeoneStands(active, updates, ApplyEach(active, updates).value); }
  }

  lemma SomeoneStands(active: ValidatorSet, updates: seq<Update>, t: ValidatorSet)
    requires Stands(active, updates, |updates|, t)
    ensures t != map[] <==> exists a :: Standing(active, updates, |updates|, a).Some?
  {
    if t != map[] {
      var a :| a in t;
      assert Holds(t, a, Standing(active, updates, |updates|, a));
      assert Standing(active, updates, |updates|, a).Some?;
    } else {
      forall a ensures Standing(active, updates, |updates|, a).None? { assert Holds(t, a, Standing(active, updates, |updates|, a)); }
    }
  }

  /** The same in one statement about the target: members named last by an addition, members no update
      names, and nobody else. */
  lemma TargetIsLastUpdates(active: ValidatorSet, updates: seq<Update>, a: Address)
    requires Target(active, updates).Some?
    ensures var t := Target(active, updates).value;
            && (Unnamed(updates, |updates|, a) ==> (a in t <==> a in active) && (a in t ==> t[a] == active[a]))
            && (forall i :: LastNamed(updates, |updates|, i, a) ==> (a in t <==> updates[i].power != 0))
            && (forall i :: LastNamed(updates, |updates|, i, a) && updates[i].power != 0 ==>
                  t[a].power == updates[i].power && t[a].name == if updates[i].name == "" then "validator-new" else updates[i].name)
  {
    TargetMeans(active, updates);
    StandingMeans(active, updates, |updates|, a);
    assert Holds(Target(active, updates).value, a, Standing(active, updates, |updates|, a));
  }

  method ApplyUpdates(active: ValidatorSet, updates: seq<Update>) returns (target: Option<ValidatorSet>)
    ensures target == Target(active, updates)
  {
    var current := active;
    for i := 0 to |updates|
      invariant ApplyEach(active, updates[..i]) == Some(current)
    {
      assert updates[..i + 1][..i] == updates[..i];
      var next := ApplyUpdate(current, updates[i]);
      if next.None? {
        EachStaysRefused(active, updates, i + 1);
        return None;
      }
      current := next.value;
    }
    assert updates[..|updates|] == updates;
    target := if current == map[] then None else Some(current);
  }

  lemma {:induction false} EachStaysRefused(active: ValidatorSet, updates: seq<Update>, n: nat)
    requires n <= |updates| && ApplyEach(active, updates[..n]).None?
    ensures ApplyEach(active, updates).None?
    decreases |updates|
  {
    if n == |updates| { assert updates[..n] == updates; }
    else {
      assert updates[..|updates| - 1][..n] == updates[..n];
      EachStaysRefused(active, updates[..|updates| - 1], n);
    }
  }

  // ---- voting power ----

  ghost function PowerOf(active: ValidatorSet, members: set<Address>): int
    requires members <= active.Keys
    decreases |members|
  {
    if members == {} then 0 else var a := Pick(members); active[a].power + PowerOf(active, members - {a})
  }

  lemma {:induction false} PowerPull(active: ValidatorSet, members: set<Address>, a: Address)
    requires members <= active.Keys && a in members
    ensures PowerOf(active, members) == active[a].power + PowerOf(active, members - {a})
    decreases |members|
  {
    var b := Pick(members);
    if b != a {
      PowerPull(active, members - {b}, a);
      PowerPull(active, members - {a}, b);
      assert members - {b} - {a} == members - {a} - {b};
    }
  }

  ghost function TotalPower(active: ValidatorSet): int { PowerOf(active, active.Keys) }

  ghost function Approvers(approvals: seq<Approval>): set<Address> {
    set i | 0 <= i < |approvals| :: approvals[i].validator
  }

  /** Every approval is a genuine one of a different active validator. */
  predicate GenuineApprovals(active: ValidatorSet, approvals: seq<Approval>) {
    && (forall i :: 0 <= i < |approvals| ==>
          approvals[i].validator in active && approvals[i].keyMatches && approvals[i].authentic)
    && (forall i, j :: 0 <= i < j < |approvals| ==> approvals[i].validator != approvals[j].validator)
  }

  /** More than two thirds of the active power approved. */
  ghost predicate Quorum(active: ValidatorSet, approvals: seq<Approval>) {
    && GenuineApprovals(active, approvals) && Approvers(approvals) <= active.Keys
    && PowerOf(active, Approvers(approvals)) * 3 > TotalPower(active) * 2
  }

  lemma ApproversSnoc(approvals: seq<Approval>, i: nat)
    requires i < |approvals|
    ensures Approvers(approvals[..i + 1]) == Approvers(approvals[..i]) + {approvals[i].validator}
  {
    forall a | a in Approvers(approvals[..i]) + {approvals[i].validator} ensures a in Approvers(approvals[..i + 1]) {
      if a == approvals[i].validator { assert approvals[..i + 1][i].validator == a; }
      else {
        var k :| 0 <= k < i && approvals[..i][k].validator == a;
        assert approvals[..i + 1][k].validator == a;
      }
    }
    forall a | a in Approvers(approvals[..i + 1]) ensures a in Approvers(approvals[..i]) + {approvals[i].validator} {
      var k :| 0 <= k < i + 1 && approvals[..i + 1][k].validator == a;
      if k < i { assert approvals[..i][k].validator == a; }
    }
  }

  method SumPower(active: ValidatorSet) returns (total: int)
    ensures total == TotalPower(active)
  {
    var todo := active.Keys;
    total := 0;
    while todo != {}
      invariant todo <= active.Keys && total + PowerOf(active, todo) == TotalPower(active)
      decreases |todo|
    {
      var a :| a in todo;
      PowerPull(active, todo, a);
      total := total + active[a].power;
      todo := todo - {a};
    }
  }

  /** The approval loop, with its set of validators already seen. */
  method CheckApprovals(active: ValidatorSet, approvals: seq<Approval>) returns (ok: bool)
    ensures ok == Quorum(active, approvals)
  {
    var seen: set<Address> := {};
    var power := 0;
    for i := 0 to |approvals|
      invariant seen == Approvers(approvals[..i]) && seen <= active.Keys
      invariant GenuineApprovals(active, approvals[..i]) && power == PowerOf(active, seen)
    {
      var a := approvals[i];
      ApproversSnoc(approvals, i);
      if a.validator in seen {
        var k :| 0 <= k < i && approvals[..i][k].validator == a.validator;
        assert approvals[k].validator == approvals[i].validator;
        return false;
      }
      if a.validator !in active || !a.keyMatches || !a.authentic { return false; }
      forall k | 0 <= k < i ensures approvals[k].validator != a.validator { assert approvals[..i][k].validator in seen; }
      PowerPull(active, seen + {a.validator}, a.validator);
      assert seen + {a.validator} - {a.validator} == seen;
      seen := seen + {a.validator};
      power := power + active[a.validator].power;
    }
    assert approvals[..|approvals|] == approvals;
    var total := SumPower(active);
    ok := power * 3 > total * 2;
  }

  // ---- verifying an envelope ----

  /** The checks of `verify_envelope` before the approvals. */
  predicate WellFormed(g: Genesis, e: Envelope, active: ValidatorSet, emit: int) {
    var r := e.request;
    && e.tag == TAG && e.format == FORMAT && e.changeId == ChangeId(r)
    && r.chainId == g.chainId && r.fingerprint == FingerprintOf(g)
    && r.kind in ["join", "remove", "replace"]
    && r.emitHeight >= 1 && r.effectiveHeight == r.emitHeight + 2 && r.emitHeight == emit
    && r.source == SetHash(active)
    && r.updates != []
    && Target(active, r.updates).Some? && r.target == SetHash(Target(active, r.updates).value)
  }

  ghost function VerifyEnvelope(g: Genesis, e: Envelope, active: ValidatorSet, emit: int): Option<Change> {
    if WellFormed(g, e, active, emit) && Quorum(active, e.approvals)
    then Some(Change(e.changeId, e.request.emitHeight, e.request.effectiveHeight, e.request.source, e.request.target,
                     Target(active, e.request.updates).value, e, e.request.updates))
    else None
  }

  method CheckEnvelope(g: Genesis, e: Envelope, active: ValidatorSet, emit: int) returns (change: Option<Change>)
    ensures change == VerifyEnvelope(g, e, active, emit)
  {
    var target := ApplyUpdates(active, e.request.updates);
    if !WellFormed(g, e, active, emit) { return None; }
    var quorum := CheckApprovals(active, e.approvals);
    if !quorum { return None; }
    change := Some(Change(e.changeId, e.request.emitHeight, e.request.effectiveHeight, e.request.source, e.request.target, target.value, e, e.request.updates));
  }

  /** Approvals carry exactly if different active validators genuinely gave them who hold more than two
      thirds of the power. */
  lemma QuorumIff(active: ValidatorSet, approvals: seq<Approval>)
    ensures Quorum(active, approvals)
            <==> && (forall i :: 0 <= i < |approvals| ==>
                       approvals[i].validator in active && approvals[i].keyMatches && approvals[i].authentic)
                 && (forall i, j :: 0 <= i < j < |approvals| ==> approvals[i].validator != approvals[j].validator)
                 && 3 * PowerOf(active, (set x | x in approvals :: x.validator) * active.Keys) > 2 * PowerOf(active, active.Keys)
  {
    ApproversAre(approvals);
    if GenuineApprovals(active, approvals) {
      assert Approvers(approvals) <= active.Keys;
      assert Approvers(approvals) * active.Keys == Approvers(approvals);
    }
  }

  /** An envelope is verified exactly if it names this chain, its own content, the next height but one and
      the active set, its updates fit and lead to the set it names, and the approvals carry. The change
      is then the one it describes. */
  lemma VerifiedIff(g: Genesis, e: Envelope, active: ValidatorSet, emit: int)
    ensures VerifyEnvelope(g, e, active, emit).Some?
            <==> && e.tag == "validator_governance" && e.format == "crakbit-validator-governance-tx/1" && e.changeId == ChangeId(e.request)
                 && e.request.chainId == g.chainId && e.request.fingerprint == Fingerprint(g.chainId, g.validators, g.allocations)
                 && (e.request.kind == "join" || e.request.kind == "remove" || e.request.kind == "replace")
                 && 1 <= e.request.emitHeight == emit && e.request.effectiveHeight == emit + 2
                 && e.request.source == SetHash(active) && |e.request.updates| > 0
                 && (forall i :: 0 <= i < |e.request.updates| ==> Fits(active, e.request.updates, i))
                 && (exists a :: Standing(active, e.request.updates, |e.request.updates|, a).Some?)
                 && e.request.target.validators == LastStanding(active, e.request.updates)
                 && Quorum(active, e.approvals)
    ensures VerifyEnvelope(g, e, active, emit).Some? ==>
              VerifyEnvelope(g, e, active, emit).value
              == Change(e.changeId, emit, emit + 2, SetHash(active), e.request.target, LastStanding(active, e.request.updates), e, e.request.updates)
  {
    TargetMeans(active, e.request.updates);
    if Target(active, e.request.updates).Some? { TargetIs(active, e.request.updates); }
  }

  /** The set of all that the updates leave standing. */
  ghost function LastStanding(active: ValidatorSet, updates: seq<Update>): ValidatorSet {
    map a | a in active.Keys + (set u | u in updates :: u.address) && Standing(active, updates, |updates|, a).Some?
      :: Standing(active, updates, |updates|, a).value
  }

  lemma {:induction false} StandingKnown(active: ValidatorSet, updates: seq<Update>, n: nat, a: Address)
    requires n <= |updates| && Standing(active, updates, n, a).Some?
    ensures a in active || exists u :: u in updates && u.address == a
  {
    if n > 0 {
      if updates[n - 1].address == a { assert updates[n - 1] in updates; } else { StandingKnown(active, updates, n - 1, a); }
    }
  }

  lemma TargetIs(active: ValidatorSet, updates: seq<Update>)
    requires Target(active, updates).Some?
    ensures Target(active, updates).value == LastStanding(active, updates)
  {
    TargetMeans(active, updates);
    var t, all := Target(active, updates).value, LastStanding(active, updates);
    forall a ensures a in t <==> a in all {
      assert Holds(t, a, Standing(active, updates, |updates|, a));
      if a in t { StandingKnown(active, updates, |updates|, a); }
    }
    forall a | a in t ensures t[a] == all[a] { assert Holds(t, a, Standing(active, updates, |updates|, a)); }
  }

  lemma ApproversAre(approvals: seq<Approval>)
    ensures Approvers(approvals) == set x | x in approvals :: x.validator
  {
    forall a | a in Approvers(approvals) ensures a in (set x | x in approvals :: x.validator) {
      var i :| 0 <= i < |approvals| && approvals[i].validator == a;
      assert approvals[i] in approvals;
    }
  }

  // ---- one height ----

  datatype Due = Due(active: ValidatorSet, remaining: seq<Change>, activated: seq<Change>)

  /** `_activate_due_on_state`; nothing where a change was missed. */
  function ActivateDue(active: ValidatorSet, pending: seq<Change>, height: int): Option<Due> {
    if pending == [] then Some(Due(active, [], []))
    else
      var c := pending[|pending| - 1];
      match ActivateDue(active, pending[..|pending| - 1], height)
      case None => None
      case Some(d) =>
        if c.effective < height then None
        else if c.effective == height then Some(Due(c.target, d.remaining, d.activated + [c]))
        else Some(d.(remaining := d.remaining + [c]))
  }

  datatype Outcome = Outcome(state: State, updates: seq<Update>, activated: seq<Change>, added: Option<Change>)

  /** `simulate_height` */
  ghost function Simulate(g: Genesis, s: State, height: int, envelope: Option<Envelope>): Option<Outcome> {
    match ActivateDue(s.active, s.pending, height)
    case None => None
    case Some(due) =>
      if envelope.None? then Some(Outcome(State(due.active, due.remaining), [], due.activated, None))
      else if due.remaining != [] then None
      else
        match VerifyEnvelope(g, envelope.value, due.active, height)
        case None => None
        case Some(c) => Some(Outcome(State(due.active, [c]), c.updates, due.activated, Some(c)))
  }

  method SimulateHeight(g: Genesis, s: State, height: int, envelope: Option<Envelope>) returns (r: Option<Outcome>)
    ensures r == Simulate(g, s, height, envelope)
  {
    var active, remaining, activated := s.active, [], [];
    for i := 0 to |s.pending|
      invariant ActivateDue(s.active, s.pending[..i], height) == Some(Due(active, remaining, activated))
    {
      assert s.pending[..i + 1][..i] == s.pending[..i];
      var c := s.pending[i];
      if c.effective < height {
        DueStaysRefused(s.active, s.pending, height, i + 1);
        return None;
      }
      if c.effective == height {
        active, activated := c.target, activated + [c];
      } else {
        remaining := remaining + [c];
      }
    }
    assert s.pending[..|s.pending|] == s.pending;
    if envelope.None? { return Some(Outcome(State(active, remaining), [], activated, None)); }
    if remaining != [] { return None; }
    var change := CheckEnvelope(g, envelope.value, active, height);
    if change.None? { return None; }
    r := Some(Outcome(State(active, [change.value]), change.value.updates, activated, change));
  }

  lemma {:induction false} DueStaysRefused(active: ValidatorSet, pending: seq<Change>, height: int, n: nat)
    requires n <= |pending| && ActivateDue(active, pending[..n], height).None?
    ensures ActivateDue(active, pending, height).None?
    decreases |pending|
  {
    if n == |pending| { assert pending[..n] == pending; }
    else {
      assert pending[..|pending| - 1][..n] == pending[..n];
      DueStaysRefused(active, pending[..|pending| - 1], height, n);
    }
  }

  // ---- the tables ----

  datatype Emission = Emission(id: ChangeId, updates: seq<Update>)

  datatype Applied = Applied(change: Change, height: int)

  datatype Tables = Tables(active: ValidatorSet, pending: seq<Change>, history: map<ChangeId, Applied>, emissions: map<int, Emission>)
  {
    function Read(): State { State(active, pending) }
  }

  function DeleteChange(pending: seq<Change>, id: ChangeId): seq<Change> {
    if pending == [] then []
    else
      var rest := DeleteChange(pending[..|pending| - 1], id);
      if pending[|pending| - 1].id == id then rest else rest + [pending[|pending| - 1]]
  }

  /** The statements that activate one change. */
  function Activate(t: Tables, c: Change, height: int): Tables {
    t.(active := c.target, pending := DeleteChange(t.pending, c.id), history := t.history[c.id := Applied(c, height)])
  }

  function ActivateAll(t: Tables, changes: seq<Change>, height: int): Tables {
    if changes == [] then t
    else Activate(ActivateAll(t, changes[..|changes| - 1], height), changes[|changes| - 1], height)
  }

  /** `INSERT OR REPLACE`: a row of the same height or the same change goes. */
  function Emit(emissions: map<int, Emission>, height: int, e: Emission): map<int, Emission> {
    (map h | h in emissions && emissions[h].id != e.id :: emissions[h])[height := e]
  }

  /** `commit_height` */
  ghost function Commit(g: Genesis, t: Tables, height: int, envelope: Option<Envelope>): Option<(Tables, Outcome)> {
    match Simulate(g, t.Read(), height, envelope)
    case None => None
    case Some(o) =>
      var u := ActivateAll(t, o.activated, height);
      if o.added.None? then Some((u, o))
      else if u.pending != [] then None
      else
        var c := o.added.value;
        Some((u.(pending := [c], emissions := Emit(u.emissions, height, Emission(c.id, c.updates))), o))
  }

  class ValidatorGovernanceStore {
    const g: Genesis
    var active: ValidatorSet
    var pending: seq<Change>
    var history: map<ChangeId, Applied>
    var emissions: map<int, Emission>

    function Rows(): Tables
      reads this
    {
      Tables(active, pending, history, emissions)
    }

    constructor (g: Genesis, t: Tables)
      ensures this.g == g && Rows() == t
    {
      this.g := g;
      active, pending, history, emissions := t.active, t.pending, t.history, t.emissions;
    }

    /** On refusal the surrounding transaction is rolled back, so nothing is written here. */
    method CommitHeight(height: int, envelope: Option<Envelope>) returns (r: Option<Outcome>)
      modifies this
      ensures match Commit(g, old(Rows()), height, envelope)
              case None => r == None && Rows() == old(Rows())
              case Some((t, o)) => r == Some(o) && Rows() == t
    {
      ghost var start := Rows();
      r := SimulateHeight(g, State(active, pending), height, envelope);
      if r.None? { return; }
      var o := r.value;
      var saved := Rows();
      for i := 0 to |o.activated|
        invariant Rows() == ActivateAll(start, o.activated[..i], height)
      {
        assert o.activated[..i + 1][..i] == o.activated[..i];
        var c := o.activated[i];
        active := c.target;
        pending := DeleteChange(pending, c.id);
        history := history[c.id := Applied(c, height)];
      }
      assert o.activated[..|o.activated|] == o.activated;
      if o.added.Some? {
        if pending != [] {
          active, pending, history, emissions := saved.active, saved.pending, saved.history, saved.emissions;
          return None;
        }
        pending := [o.added.value];
        emissions := Emit(emissions, height, Emission(o.added.value.id, o.added.value.updates));
      }
    }
  }

  // ---- invariants of every height ----

  /** A pending change is verified against the set still active, and due one or two heights ahead. */
  ghost predicate PendingOk(g: Genesis, active: ValidatorSet, c: Change, height: int) {
    && c.emit <= height < c.effective == c.emit + 2
    && VerifyEnvelope(g, c.envelope, active, c.emit) == Some(c)
  }

  predicate EmittedAt(id: ChangeId, height: int) {
    id.ChangeId? && id.request.emitHeight == height
  }

  ghost predicate Inv(g: Genesis, t: Tables, height: int) {
    && ValidSet(t.active) && |t.pending| <= 1
    && (t.pending != [] ==> PendingOk(g, t.active, t.pending[0], height))
    && (forall h :: h in t.emissions ==> h <= height && EmittedAt(t.emissions[h].id, h))
  }

  lemma DueOfOne(active: ValidatorSet, c: Change, height: int)
    ensures ActivateDue(active, [c], height)
            == if c.effective < height then None
               else if c.effective == height then Some(Due(c.target, [], [c]))
               else Some(Due(active, [c], []))
  {
    assert [c][..0] == [];
    assert ActivateDue(active, [], height) == Some(Due(active, [], []));
    assert [] + [c] == [c];
  }

  lemma ActivateOne(t: Tables, c: Change, height: int)
    requires t.pending == [c]
    ensures ActivateAll(t, [c], height) == Tables(c.target, [], t.history[c.id := Applied(c, height)], t.emissions)
  {
    assert [c][..0] == [];
    assert DeleteChange([c], c.id) == [];
  }

  /** The tables once a due change is active. */
  function AfterDue(t: Tables, height: int): Tables {
    if t.pending != [] && t.pending[0].effective == height
    then Tables(t.pending[0].target, [], t.history[t.pending[0].id := Applied(t.pending[0], height)], t.emissions)
    else t
  }

  function Activated(t: Tables, height: int): seq<Change> {
    if t.pending != [] && t.pending[0].effective == height then [t.pending[0]] else []
  }

  lemma DueMeans(g: Genesis, t: Tables, height: int)
    requires Inv(g, t, height - 1)
    ensures var a := AfterDue(t, height);
            && ActivateDue(t.active, t.pending, height) == Some(Due(a.active, a.pending, Activated(t, height)))
            && ActivateAll(t, Activated(t, height), height) == a
            && ValidSet(a.active) && a.emissions == t.emissions
            && (a.pending != [] ==> a.pending == t.pending && a.active == t.active && PendingOk(g, a.active, a.pending[0], height))
  {
    if t.pending != [] {
      var c := t.pending[0];
      assert t.pending == [c];
      DueOfOne(t.active, c, height);
      TargetValid(t.active, c.updates);
      if c.effective == height { ActivateOne(t, c, height); }
    }
  }

  lemma EmitMeans(emissions: map<int, Emission>, height: int, e: Emission)
    requires forall h :: h in emissions ==> h < height && EmittedAt(emissions[h].id, h)
    requires EmittedAt(e.id, height)
    ensures Emit(emissions, height, e) == emissions[height := e]
  {
    assert forall h :: h in emissions ==> emissions[h].id != e.id;
    assert (map h | h in emissions && emissions[h].id != e.id :: emissions[h]) == emissions;
  }

  /** What committing the next height does: it never parts from the simulation, a due change becomes
      the active set, a new change waits alone, and its updates are recorded for replays. */
  lemma CommitMeans(g: Genesis, t: Tables, height: int, envelope: Option<Envelope>)
    requires Inv(g, t, height - 1)
    ensures var a := AfterDue(t, height);
            Commit(g, t, height, envelope)
            == if envelope == None then Some((a, Outcome(a.Read(), [], Activated(t, height), None)))
               else if a.pending != [] || VerifyEnvelope(g, envelope.value, a.active, height).None? then None
               else
                 var c := VerifyEnvelope(g, envelope.value, a.active, height).value;
                 Some((a.(pending := [c], emissions := a.emissions[height := Emission(c.id, c.updates)]),
                       Outcome(State(a.active, [c]), c.updates, Activated(t, height), Some(c))))
  {
    DueMeans(g, t, height);
    var a := AfterDue(t, height);
    if envelope.Some? && VerifyEnvelope(g, envelope.value, a.active, height).Some? {
      var c := VerifyEnvelope(g, envelope.value, a.active, height).value;
      EmitMeans(a.emissions, height, Emission(c.id, c.updates));
    }
  }

  lemma CommitIsSimulate(g: Genesis, t: Tables, height: int, envelope: Option<Envelope>)
    requires Inv(g, t, height - 1)
    ensures match Commit(g, t, height, envelope)
            case None => Simulate(g, t.Read(), height, envelope) == None
            case Some((u, o)) => Simulate(g, t.Read(), height, envelope) == Some(o) && u.Read() == o.state
  {
    CommitMeans(g, t, height, envelope);
    DueMeans(g, t, height);
  }

  lemma CommitKeepsInv(g: Genesis, t: Tables, height: int, envelope: Option<Envelope>)
    requires Inv(g, t, height - 1) && Commit(g, t, height, envelope).Some?
    ensures Inv(g, Commit(g, t, height, envelope).value.0, height)
  {
    CommitMeans(g, t, height, envelope);
    DueMeans(g, t, height);
  }

  /** A commit records its updates under its own height and leaves the earlier records alone. */
  lemma CommitRecords(g: Genesis, t: Tables, height: int, envelope: Option<Envelope>) returns (u: Tables, o: Outcome)
    requires Inv(g, t, height - 1) && Commit(g, t, height, envelope).Some?
    ensures Commit(g, t, height, envelope) == Some((u, o))
    ensures if height in u.emissions then u.emissions[height].updates == o.updates else o.updates == []
    ensures forall h :: h < height ==> (h in u.emissions <==> h in t.emissions)
    ensures forall h :: h < height && h in t.emissions ==> u.emissions[h] == t.emissions[h]
  {
    u, o := Commit(g, t, height, envelope).value.0, Commit(g, t, height, envelope).value.1;
    CommitMeans(g, t, height, envelope);
  }

  // ---- every run of heights ----

  /** The tables after one more height, if it commits. */
  ghost function Next(g: Genesis, t: Tables, height: int, envelope: Option<Envelope>): Option<Tables> {
    match Commit(g, t, height, envelope)
    case None => None
    case Some((u, _)) => Some(u)
  }

  ghost function HeightStep(g: Genesis): (Tables, int, Option<Envelope>) -> Option<Tables> {
    (t: Tables, height: int, e: Option<Envelope>) => Next(g, t, height, e)
  }

  /** Committing the heights after `from`, one after another; `envelopes[i]` is the governance
      transaction of height `from + i + 1`, if it has one. */
  ghost function RunHeights(g: Genesis, t: Tables, from: int, envelopes: seq<Option<Envelope>>): Option<Tables> {
    Folds.Run(HeightStep(g), t, from, envelopes)
  }

  /** The change carried at `height`, or at the height before, is all that can be pending. */
  ghost predicate Waiting(g: Genesis, height: int, newest: Option<Envelope>, older: Option<Envelope>, t: Tables) {
    if newest.Some? then
      older == None && VerifyEnvelope(g, newest.value, t.active, height).Some?
      && t.pending == [VerifyEnvelope(g, newest.value, t.active, height).value]
    else if older.Some? then
      VerifyEnvelope(g, older.value, t.active, height - 1).Some?
      && t.pending == [VerifyEnvelope(g, older.value, t.active, height - 1).value]
    else t.pending == []
  }

  function Updated(active: ValidatorSet, envelope: Option<Envelope>): ValidatorSet {
    if envelope.Some? && Target(active, envelope.value.request.updates).Some?
    then Target(active, envelope.value.request.updates).value else active
  }

  lemma WaitingNext(g: Genesis, height: int, newest: Option<Envelope>, older: Option<Envelope>, t: Tables, envelope: Option<Envelope>, u: Tables)
    requires Inv(g, t, height - 1) && Waiting(g, height - 1, newest, older, t) && Next(g, t, height, envelope) == Some(u)
    ensures Waiting(g, height, envelope, newest, u) && Inv(g, u, height) && u.active == Updated(t.active, older)
  {
    CommitMeans(g, t, height, envelope);
    DueMeans(g, t, height);
    CommitKeepsInv(g, t, height, envelope);
  }

  /** The reference meaning of the whole mechanism, a delay line of two places: the updates carried
      at one height are applied two heights later. */
  datatype Plan = Plan(active: ValidatorSet, newest: Option<Envelope>, older: Option<Envelope>)

  ghost function PlanStep(): (Plan, Option<Envelope>) -> Plan {
    (p: Plan, e: Option<Envelope>) => Plan(Updated(p.active, p.older), e, p.newest)
  }

  ghost function PlanAfter(start: ValidatorSet, envelopes: seq<Option<Envelope>>): Plan {
    Folds.Scan(PlanStep(), Plan(start, None, None), envelopes)
  }

  /** The tables at a height are where the plan says. */
  ghost predicate Tracks(g: Genesis, height: int, p: Plan, t: Tables) {
    t.active == p.active && Waiting(g, height, p.newest, p.older, t) && Inv(g, t, height)
  }

  lemma TracksNext(g: Genesis, height: int, mid: Tables, e: Option<Envelope>, t: Tables, p: Plan, q: Plan)
    requires Tracks(g, height - 1, p, mid) && Next(g, mid, height, e) == Some(t)
    requires q == Plan(Updated(p.active, p.older), e, p.newest)
    ensures Tracks(g, height, q, t)
  {
    WaitingNext(g, height, p.newest, p.older, mid, e, t);
  }

  /** A governance transaction can be carried at a height exactly if none was carried at the height
      before and it verifies against the set active by then. */
  ghost predicate Admissible(g: Genesis, height: int, p: Plan, e: Option<Envelope>) {
    e.Some? ==> p.newest == None && VerifyEnvelope(g, e.value, Updated(p.active, p.older), height).Some?
  }

  lemma NextIff(g: Genesis, height: int, p: Plan, mid: Tables, e: Option<Envelope>)
    requires Tracks(g, height - 1, p, mid)
    ensures Next(g, mid, height, e).Some? <==> Admissible(g, height, p, e)
  {
    CommitMeans(g, mid, height, e);
    DueMeans(g, mid, height);
  }

  ghost function TracksFor(g: Genesis): (int, Plan, Tables) -> bool {
    (height: int, p: Plan, t: Tables) => Tracks(g, height, p, t)
  }

  ghost function AdmissibleFor(g: Genesis): (int, Plan, Option<Envelope>) -> bool {
    (height: int, p: Plan, e: Option<Envelope>) => Admissible(g, height, p, e)
  }

  lemma HeightStepIs(g: Genesis, t: Tables, height: int, e: Option<Envelope>)
    ensures HeightStep(g)(t, height, e) == Next(g, t, height, e)
  {
  }

  lemma PlanStepIs(p: Plan, e: Option<Envelope>)
    ensures PlanStep()(p, e) == Plan(Updated(p.active, p.older), e, p.newest)
  {
  }

  /** One height, with its outcome and the plan after it named. */
  lemma OneHeight(g: Genesis, height: int, p: Plan, t: Tables, e: Option<Envelope>, r: Option<Tables>, q: Plan)
    requires r == Next(g, t, height, e) && q == Plan(Updated(p.active, p.older), e, p.newest)
    requires TracksFor(g)(height - 1, p, t)
    ensures r.Some? <==> AdmissibleFor(g)(height, p, e)
    ensures r.Some? ==> TracksFor(g)(height, q, r.value)
  {
    NextIff(g, height, p, t, e);
    if r.Some? { TracksNext(g, height, t, e, r.value, p, q); }
  }

  lemma HeightKeeps(g: Genesis, height: int, p: Plan, t: Tables, e: Option<Envelope>)
    ensures Folds.Keeps(HeightStep(g), PlanStep(), TracksFor(g), AdmissibleFor(g), height, p, t, e)
  {
    HeightStepIs(g, t, height + 1, e);
    PlanStepIs(p, e);
    if TracksFor(g)(height, p, t) { OneHeight(g, height + 1, p, t, e, HeightStep(g)(t, height + 1, e), PlanStep()(p, e)); }
  }

  lemma RunsFollow(g: Genesis, start: Tables, from: int, envelopes: seq<Option<Envelope>>)
    requires Inv(g, start, from) && start.pending == []
    ensures var step, next := HeightStep(g), PlanStep(); var p := Plan(start.active, None, None);
            && (Folds.Run(step, start, from, envelopes).Some?
                <==> forall k :: 0 <= k < |envelopes| ==> Folds.AdmissibleAt(next, AdmissibleFor(g), p, from, envelopes, k))
            && (Folds.Run(step, start, from, envelopes).Some? ==>
                  Tracks(g, from + |envelopes|, Folds.Scan(next, p, envelopes), Folds.Run(step, start, from, envelopes).value))
  {
    var step, next, rel, ok := HeightStep(g), PlanStep(), TracksFor(g), AdmissibleFor(g);
    forall h, q, t, e ensures Folds.Keeps(step, next, rel, ok, h, q, t, e) { HeightKeeps(g, h, q, t, e); }
    assert rel(from, Plan(start.active, None, None), start);
    Folds.RunFollows(step, next, rel, ok, start, Plan(start.active, None, None), from, envelopes);
  }

  /** A run of heights from a state with nothing pending goes through exactly if each governance
      transaction in it comes when none came just before and verifies against the set active by then. */
  lemma RunSucceedsIff(g: Genesis, start: Tables, from: int, envelopes: seq<Option<Envelope>>)
    requires Inv(g, start, from) && start.pending == []
    ensures RunHeights(g, start, from, envelopes).Some?
            <==> forall k :: 0 <= k < |envelopes| ==> Admissible(g, from + k + 1, PlanAfter(start.active, envelopes[..k]), envelopes[k])
  {
    RunsFollow(g, start, from, envelopes);
    forall k | 0 <= k < |envelopes|
      ensures Folds.AdmissibleAt(PlanStep(), AdmissibleFor(g), Plan(start.active, None, None), from, envelopes, k)
              <==> Admissible(g, from + k + 1, PlanAfter(start.active, envelopes[..k]), envelopes[k])
    {
    }
  }

  /** For every run of heights from a state with nothing pending, the active set is the planned one:
      each verified change, and nothing else, takes effect exactly two heights after it. */
  lemma ChangesTakeEffectTwoLater(g: Genesis, start: Tables, from: int, envelopes: seq<Option<Envelope>>)
    requires Inv(g, start, from) && start.pending == [] && RunHeights(g, start, from, envelopes).Some?
    ensures Tracks(g, from + |envelopes|, PlanAfter(start.active, envelopes), RunHeights(g, start, from, envelopes).value)
  {
    RunsFollow(g, start, from, envelopes);
  }

  lemma RunSnoc(g: Genesis, t: Tables, from: int, envelopes: seq<Option<Envelope>>, mid: Tables, e: Option<Envelope>)
    requires RunHeights(g, t, from, envelopes) == Some(mid)
    ensures RunHeights(g, t, from, envelopes + [e]) == Next(g, mid, from + |envelopes| + 1, e)
  {
    Folds.RunSnoc(HeightStep(g), t, from, envelopes, e);
  }

  lemma RunPrefix(g: Genesis, t: Tables, from: int, envelopes: seq<Option<Envelope>>, n: nat)
    requires n <= |envelopes| && RunHeights(g, t, from, envelopes).Some?
    ensures RunHeights(g, t, from, envelopes[..n]).Some?
  {
    Folds.RunPrefix(HeightStep(g), t, from, envelopes, n);
  }

  /** Every change in a run was approved by more than two thirds of the power active at its height,
      leaves a valid set, and is not followed by another change at the next height. */
  lemma EveryChangeIsApproved(g: Genesis, start: Tables, from: int, envelopes: seq<Option<Envelope>>, k: nat, e: Envelope)
    returns (active: ValidatorSet)
    requires Inv(g, start, from) && start.pending == [] && RunHeights(g, start, from, envelopes).Some?
    requires k < |envelopes| && envelopes[k] == Some(e)
    ensures active == PlanAfter(start.active, envelopes[..k + 1]).active
    ensures Quorum(active, e.approvals) && e.request.emitHeight == from + k + 1
    ensures Target(active, e.request.updates).Some? && ValidSet(Target(active, e.request.updates).value)
    ensures k + 1 < |envelopes| ==> envelopes[k + 1] == None
    ensures k + 2 < |envelopes| ==> PlanAfter(start.active, envelopes[..k + 3]).active == Target(active, e.request.updates).value
  {
    RunPrefix(g, start, from, envelopes, k + 1);
    ChangesTakeEffectTwoLater(g, start, from, envelopes[..k + 1]);
    active := RunHeights(g, start, from, envelopes[..k + 1]).value.active;
    TargetValid(active, e.request.updates);
    if k + 1 < |envelopes| {
      RunPrefix(g, start, from, envelopes, k + 2);
      ChangesTakeEffectTwoLater(g, start, from, envelopes[..k + 2]);
      PlanSnoc(start.active, envelopes, k + 1);
      if k + 2 < |envelopes| { PlanSnoc(start.active, envelopes, k + 2); }
    }
  }

  lemma PlanSnoc(start: ValidatorSet, envelopes: seq<Option<Envelope>>, n: nat)
    requires n < |envelopes|
    ensures var p := PlanAfter(start, envelopes[..n]);
            PlanAfter(start, envelopes[..n + 1]) == Plan(Updated(p.active, p.older), envelopes[n], p.newest)
  {
    Folds.ScanSnoc(PlanStep(), Plan(start, None, None), envelopes[..n], envelopes[n]);
    assert envelopes[..n] + [envelopes[n]] == envelopes[..n + 1];
  }
}
