/** The Merkle root of a list of transaction identifiers, and what it binds. */
module Merkle {
  import opened Models

  /** An odd layer repeats its last entry. */
  function Padded(layer: seq<Digest>): (p: seq<Digest>)
    requires layer != []
    ensures |p| % 2 == 0 && |p| >= 2 && layer <= p
  {
    if |layer| % 2 == 1 then layer + [layer[|layer| - 1]] else layer
  }

  function Parents(layer: seq<Digest>): (next: seq<Digest>)
    requires layer != []
    ensures |next| == (|layer| + 1) / 2
  {
    var p := Padded(layer);
    seq(|p| / 2, i requires 0 <= i < |p| / 2 => PairHash(p[2 * i], p[2 * i + 1]))
  }

  function Climb(layer: seq<Digest>): Digest
    requires layer != []
    decreases |layer|
  {
    if |layer| == 1 then layer[0] else Climb(Parents(layer))
  }

  /** The root as a tree of pair hashes over the items. */
  function Root(items: seq<Digest>): Digest {
    if items == [] then EmptyHash else Climb(items)
  }

  /** Hash the neighbours of a padded layer. */
  method PairUp(padded: seq<Digest>, ghost layer: seq<Digest>) returns (next: seq<Digest>)
    requires layer != [] && padded == Padded(layer)
    ensures next == Parents(layer)
  {
    next := [];
    var i := 0;
    while i < |padded|
      invariant 0 <= i <= |padded| && i == 2 * |next|
      invariant forall k :: 0 <= k < |next| ==> next[k] == PairHash(padded[2 * k], padded[2 * k + 1])
    {
      next := next + [PairHash(padded[i], padded[i + 1])];
      i := i + 2;
    }
  }

  /** The loop of `merkle_root`: one layer replaced by the next until a single digest is left. */
  method MerkleRoot(items: seq<Digest>) returns (root: Digest)
    ensures root == Root(items)
  {
    if items == [] { return EmptyHash; }
    var layer := items;
    while |layer| > 1
      invariant layer != [] && Climb(layer) == Root(items)
      decreases |layer|
    {
      var padded := layer;
      if |layer| % 2 == 1 { padded := padded + [layer[|layer| - 1]]; }
      layer := PairUp(padded, layer);
    }
    root := layer[0];
  }

  lemma ParentsBind(a: seq<Digest>, b: seq<Digest>)
    requires a != [] && b != [] && Parents(a) == Parents(b)
    ensures Padded(a) == Padded(b)
  {
    var p, q := Padded(a), Padded(b);
    assert |p| / 2 == |Parents(a)| == |Parents(b)| == |q| / 2;
    forall k | 0 <= k < |p| ensures p[k] == q[k] {
      assert Parents(a)[k / 2] == PairHash(p[2 * (k / 2)], p[2 * (k / 2) + 1]);
      assert Parents(b)[k / 2] == PairHash(q[2 * (k / 2)], q[2 * (k / 2) + 1]);
    }
  }

  lemma {:induction false} ClimbBinds(a: seq<Digest>, b: seq<Digest>)
    requires a != [] && |a| == |b| && Climb(a) == Climb(b)
    ensures a == b
    decreases |a|
  {
    if |a| > 1 {
      ClimbBinds(Parents(a), Parents(b));
      ParentsBind(a, b);
      assert a == Padded(a)[..|a|] && b == Padded(b)[..|b|];
    }
  }

  /** Lists of one length with one root are one list, whatever the digests are. */
  lemma RootBinds(a: seq<Digest>, b: seq<Digest>)
    requires |a| == |b| && Root(a) == Root(b)
    ensures a == b
  {
    if a != [] { ClimbBinds(a, b); }
  }

  /** Across lengths the root does not bind: repeating the last of an odd list changes nothing. */
  lemma OddRepeatSameRoot(items: seq<Digest>)
    requires |items| % 2 == 1 && |items| > 1
    ensures Root(items + [items[|items| - 1]]) == Root(items)
  {
    var longer := items + [items[|items| - 1]];
    assert Padded(longer) == longer == Padded(items);
    assert Parents(longer) == Parents(items);
  }

  function Height(d: Digest): nat {
    match d
    case PairHash(l, r) => 1 + Height(l)
    case _ => 0
  }

  ghost predicate Uniform(layer: seq<Digest>, h: nat) {
    forall d :: d in layer ==> Height(d) == h
  }

  lemma ParentsUniformDistinct(layer: seq<Digest>, h: nat)
    requires layer != [] && Uniform(layer, h) && Distinct(layer)
    ensures Uniform(Parents(layer), h + 1) && Distinct(Parents(layer))
  {
    var p, next := Padded(layer), Parents(layer);
    forall i | 0 <= i < |next| ensures Height(next[i]) == h + 1 {
      assert p[2 * i] == layer[2 * i] && layer[2 * i] in layer;
    }
    forall i, j | 0 <= i < j < |next| ensures next[i] != next[j] {
      assert p[2 * i] == layer[2 * i] && p[2 * j] == layer[2 * j];
    }
  }

  lemma {:induction false} ClimbHeight(layer: seq<Digest>, h: nat)
    requires layer != [] && Uniform(layer, h) && Distinct(layer)
    ensures Height(Climb(layer)) >= h
    ensures |layer| > 1 ==> Height(Climb(layer)) > h
    decreases |layer|
  {
    if |layer| == 1 { assert layer[0] in layer; }
    else {
      ParentsUniformDistinct(layer, h);
      ClimbHeight(Parents(layer), h + 1);
    }
  }

  /** In a padded distinct list a repeated tail is the mark of padding. */
  lemma PaddingShows(layer: seq<Digest>)
    requires |layer| > 1 && Distinct(layer)
    ensures var p := Padded(layer);
            |layer| == if p[|p| - 1] == p[|p| - 2] then |p| - 1 else |p|
  {
    var p := Padded(layer);
    assert p[|p| - 2] == layer[|p| - 2];
  }

  lemma SamePaddingSameList(a: seq<Digest>, b: seq<Digest>)
    requires |a| > 1 && |b| > 1 && Distinct(a) && Distinct(b) && Padded(a) == Padded(b)
    ensures a == b
  {
    PaddingShows(a);
    PaddingShows(b);
    assert a == Padded(a)[..|a|] && b == Padded(b)[..|b|];
  }

  lemma {:induction false} DistinctClimbBinds(a: seq<Digest>, b: seq<Digest>, h: nat)
    requires a != [] && b != [] && Climb(a) == Climb(b)
    requires Uniform(a, h) && Uniform(b, h) && Distinct(a) && Distinct(b)
    ensures a == b
    decreases |a| + |b|
  {
    ClimbHeight(a, h);
    ClimbHeight(b, h);
    if |a| == 1 || |b| == 1 {
      assert a[0] in a && b[0] in b;
    } else {
      ParentsUniformDistinct(a, h);
      ParentsUniformDistinct(b, h);
      DistinctClimbBinds(Parents(a), Parents(b), h + 1);
      ParentsBind(a, b);
      SamePaddingSameList(a, b);
    }
  }

  /** For transaction lists without repetition, which is every list that executes, the root
      alone determines the list: no assumption on the lengths. */
  lemma DistinctBatchesBind(a: seq<Transaction>, b: seq<Transaction>)
    requires Distinct(a) && Distinct(b)
    requires Root(TxIds(a)) == Root(TxIds(b))
    ensures a == b
  {
    assert forall d :: d in TxIds(a) ==> d.TxId?;
    assert forall d :: d in TxIds(b) ==> d.TxId?;
    if a != [] && b != [] {
      DistinctClimbBinds(TxIds(a), TxIds(b), 0);
      TxIdsInjective(a, b);
    } else if a != [] {
      ClimbNotEmptyHash(TxIds(a));
    } else if b != [] {
      ClimbNotEmptyHash(TxIds(b));
    }
  }

  lemma {:induction false} ClimbNotEmptyHash(layer: seq<Digest>)
    requires layer != [] && EmptyHash !in layer
    ensures Climb(layer) != EmptyHash
    decreases |layer|
  {
    if |layer| == 1 { assert layer[0] in layer; } else { ClimbNotEmptyHash(Parents(layer)); }
  }

  // ---- the tree seen from the root ----

  /** How many nodes the layer `k` above `n` leaves has. */
  function Width(n: nat, k: nat): nat {
    if k == 0 then n else (Width(n, k - 1) + 1) / 2
  }

  /** The `i`-th node `k` layers above the leaves: the hash of its two children in their order, where a
      last node without a neighbour stands in for it. */
  function Node(items: seq<Digest>, k: nat, i: nat): Digest
    requires i < Width(|items|, k)
    decreases k
  {
    if k == 0 then items[i]
    else
      var left := Node(items, k - 1, 2 * i);
      PairHash(left, if 2 * i + 1 < Width(|items|, k - 1) then Node(items, k - 1, 2 * i + 1) else left)
  }

  function Layer(items: seq<Digest>, k: nat): (layer: seq<Digest>)
    ensures |layer| == Width(|items|, k)
  {
    seq(Width(|items|, k), i requires 0 <= i < Width(|items|, k) => Node(items, k, i))
  }

  lemma LayerAbove(items: seq<Digest>, k: nat)
    requires Width(|items|, k) > 0
    ensures Layer(items, k + 1) == Parents(Layer(items, k))
  {
    var layer := Layer(items, k);
    forall i | 0 <= i < Width(|items|, k + 1) ensures Layer(items, k + 1)[i] == Parents(layer)[i] {
      assert 2 * i < |layer|;
      assert Padded(layer)[2 * i] == layer[2 * i];
      if 2 * i + 1 < |layer| { assert Padded(layer)[2 * i + 1] == layer[2 * i + 1]; }
      else { assert Padded(layer)[2 * i + 1] == layer[2 * i]; }
    }
  }

  lemma ClimbOnce(items: seq<Digest>, k: nat)
    requires Width(|items|, k) > 1
    ensures 0 < Width(|items|, k + 1) < Width(|items|, k)
    ensures Climb(Layer(items, k)) == Climb(Layer(items, k + 1))
  {
    LayerAbove(items, k);
  }

  lemma {:induction false} ClimbIsNode(items: seq<Digest>, k: nat) returns (top: nat)
    requires Width(|items|, k) > 0
    ensures k <= top && Width(|items|, top) == 1 && Climb(Layer(items, k)) == Node(items, top, 0)
    ensures forall j :: k <= j < top ==> Width(|items|, j) > 1
    decreases Width(|items|, k)
  {
    if Width(|items|, k) == 1 {
      top := k;
    } else {
      ClimbOnce(items, k);
      top := ClimbIsNode(items, k + 1);
    }
  }

  /** The root is the one node of the lowest layer that has only one. */
  lemma RootIsNode(items: seq<Digest>) returns (top: nat)
    requires items != []
    ensures Width(|items|, top) == 1 && Root(items) == Node(items, top, 0)
    ensures forall j :: 0 <= j < top ==> Width(|items|, j) > 1
  {
    top := ClimbIsNode(items, 0);
    assert Layer(items, 0) == items;
  }
}
