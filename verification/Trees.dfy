/**
 * Binary hash trees over any node function: built layer by layer from the leaves, as the code does, and
 * reasoned about by halves. Nothing here depends on how nodes are hashed.
 */
module Trees {
  import opened Options
  import opened Sequences

  function Pow2(d: nat): (r: nat)
    ensures r >= 1
  {
    if d == 0 then 1 else 2 * Pow2(d - 1)
  }

  // ---------- layers ----------

  function NextLayer<H>(node: (H, H) -> H, layer: seq<H>): (next: seq<H>)
    requires |layer| % 2 == 0
    ensures |next| == |layer| / 2
  {
    if layer == [] then [] else [node(layer[0], layer[1])] + NextLayer(node, layer[2..])
  }

  lemma {:induction false} NextLayerAt<H>(node: (H, H) -> H, layer: seq<H>, i: nat)
    requires |layer| % 2 == 0 && i < |layer| / 2
    ensures NextLayer(node, layer)[i] == node(layer[2 * i], layer[2 * i + 1])
  {
    if i > 0 {
      NextLayerAt(node, layer[2..], i - 1);
    }
  }

  /** All layers above a leaf layer of size 2^d, that layer first. */
  function Layers<H>(node: (H, H) -> H, layer: seq<H>, d: nat): (ls: seq<seq<H>>)
    requires |layer| == Pow2(d)
    ensures |ls| == d + 1
    decreases d
  {
    if d == 0 then [layer] else [layer] + Layers(node, NextLayer(node, layer), d - 1)
  }

  function Root<H>(node: (H, H) -> H, layer: seq<H>, d: nat): H
    requires |layer| == Pow2(d)
    decreases d
  {
    if d == 0 then layer[0] else Root(node, NextLayer(node, layer), d - 1)
  }

  lemma HalfPow(d: nat)
    requires d > 0
    ensures Pow2(d) % 2 == 0 && Pow2(d) / 2 == Pow2(d - 1)
  {
  }

  lemma Halves<H>(node: (H, H) -> H, layer: seq<H>, d: nat)
    requires d > 0 && |layer| == Pow2(d)
    ensures |layer| % 2 == 0 && |NextLayer(node, layer)| == Pow2(d - 1)
  {
    HalfPow(d);
  }

  lemma {:induction false} LayerSize<H>(node: (H, H) -> H, layer: seq<H>, d: nat, i: nat)
    requires |layer| == Pow2(d) && i <= d
    ensures |Layers(node, layer, d)[i]| == Pow2(d - i)
    decreases d
  {
    if i > 0 {
      Halves(node, layer, d);
      LayerSize(node, NextLayer(node, layer), d - 1, i - 1);
    }
  }

  lemma {:induction false} LayerAbove<H>(node: (H, H) -> H, layer: seq<H>, d: nat, i: nat)
    requires |layer| == Pow2(d) && i < d
    ensures |Layers(node, layer, d)[i]| % 2 == 0
    ensures Layers(node, layer, d)[i + 1] == NextLayer(node, Layers(node, layer, d)[i])
    decreases d
  {
    Halves(node, layer, d);
    if i > 0 {
      LayerAbove(node, NextLayer(node, layer), d - 1, i - 1);
    }
  }

  lemma {:induction false} LayerRoot<H>(node: (H, H) -> H, layer: seq<H>, d: nat, i: nat)
    requires |layer| == Pow2(d) && i <= d
    ensures |Layers(node, layer, d)[i]| == Pow2(d - i)
    ensures Root(node, Layers(node, layer, d)[i], d - i) == Root(node, layer, d)
    decreases d
  {
    LayerSize(node, layer, d, i);
    if i > 0 {
      Halves(node, layer, d);
      LayerRoot(node, NextLayer(node, layer), d - 1, i - 1);
    }
  }

  lemma LayerFacts<H>(node: (H, H) -> H, layer: seq<H>, d: nat, i: nat)
    requires |layer| == Pow2(d) && i <= d
    ensures |Layers(node, layer, d)[i]| == Pow2(d - i)
    ensures i < d ==> |Layers(node, layer, d)[i]| % 2 == 0
    ensures i < d ==> Layers(node, layer, d)[i + 1] == NextLayer(node, Layers(node, layer, d)[i])
    ensures Root(node, Layers(node, layer, d)[i], d - i) == Root(node, layer, d)
  {
    LayerRoot(node, layer, d, i);
    if i < d {
      LayerAbove(node, layer, d, i);
    }
  }

  // ---------- inclusion proofs ----------

  /** The way from leaf `i` to the root: each sibling, and whether it stands on the right. */
  function Siblings<H>(node: (H, H) -> H, layer: seq<H>, d: nat, i: nat): (path: seq<(H, bool)>)
    requires |layer| == Pow2(d) && i < |layer|
    ensures |path| == d
    decreases d
  {
    if d == 0 then []
    else
      [if i % 2 == 0 then (layer[i + 1], true) else (layer[i - 1], false)]
      + Siblings(node, NextLayer(node, layer), d - 1, i / 2)
  }

  /** What stands beside place `j` of a layer, and whether on its right. */
  predicate StandsBeside<H(==)>(layer: seq<H>, j: nat, step: (H, bool)) {
    if j % 2 == 0 then j + 1 < |layer| && step == (layer[j + 1], true)
    else j - 1 < |layer| && step == (layer[j - 1], false)
  }

  /** The place of what stands `k` layers above leaf `i`. */
  function Ancestor(i: nat, k: nat): nat { if k == 0 then i else Ancestor(i / 2, k - 1) }

  /** Each step of the way stands beside the ancestor of leaf `i` in its layer. */
  lemma {:induction false} SiblingBesideAncestor<H>(node: (H, H) -> H, layer: seq<H>, d: nat, i: nat, k: nat)
    requires |layer| == Pow2(d) && i < |layer| && k < d
    ensures StandsBeside(Layers(node, layer, d)[k], Ancestor(i, k), Siblings(node, layer, d, i)[k])
    decreases d
  {
    Halves(node, layer, d);
    if k > 0 {
      SiblingBesideAncestor(node, NextLayer(node, layer), d - 1, i / 2, k - 1);
    }
  }

  /** Where a list of proof steps leads from `x`. */
  function Climb<H, S>(step: (H, S) -> Option<H>, x: H, proof: seq<S>): Option<H> {
    if proof == [] then Some(x)
    else
      var next :- step(x, proof[0]);
      Climb(step, next, proof[1..])
  }

  /** A step joins the current hash and a sibling on its stated side. */
  ghost predicate StepJoins<H(!new), S>(step: (H, S) -> Option<H>, node: (H, H) -> H, tag: (H, bool) -> S) {
    forall x, y {:trigger Joins(step, node, tag, x, y)} :: Joins(step, node, tag, x, y)
  }

  ghost predicate Joins<H, S>(step: (H, S) -> Option<H>, node: (H, H) -> H, tag: (H, bool) -> S, x: H, y: H) {
    step(x, tag(y, true)) == Some(node(x, y)) && step(x, tag(y, false)) == Some(node(y, x))
  }

  function Tagged<H, S>(tag: (H, bool) -> S, path: seq<(H, bool)>): (proof: seq<S>)
    ensures |proof| == |path|
  {
    if path == [] then [] else [tag(path[0].0, path[0].1)] + Tagged(tag, path[1..])
  }

  lemma {:induction false} TaggedAt<H, S>(tag: (H, bool) -> S, path: seq<(H, bool)>, k: nat)
    requires k < |path|
    ensures Tagged(tag, path)[k] == tag(path[k].0, path[k].1)
  {
    if k > 0 {
      TaggedAt(tag, path[1..], k - 1);
    }
  }

  lemma {:induction false} ProofsComplete<H(!new), S>(step: (H, S) -> Option<H>, node: (H, H) -> H, tag: (H, bool) -> S,
                                                      layer: seq<H>, d: nat, i: nat)
    requires |layer| == Pow2(d) && i < |layer| && StepJoins(step, node, tag)
    ensures Climb(step, layer[i], Tagged(tag, Siblings(node, layer, d, i))) == Some(Root(node, layer, d))
    decreases d
  {
    if d > 0 {
      var path := Siblings(node, layer, d, i);
      var next := NextLayer(node, layer);
      ProofsComplete(step, node, tag, next, d - 1, i / 2);
      assert path[1..] == Siblings(node, next, d - 1, i / 2);
      var proof := Tagged(tag, path);
      assert proof[0] == tag(path[0].0, path[0].1) && proof[1..] == Tagged(tag, path[1..]);
      StepUp(step, node, tag, layer, d, i);
    }
  }

  lemma StepUp<H(!new), S>(step: (H, S) -> Option<H>, node: (H, H) -> H, tag: (H, bool) -> S,
                           layer: seq<H>, d: nat, i: nat)
    requires |layer| == Pow2(d) && d > 0 && i < |layer| && StepJoins(step, node, tag)
    ensures var sibling := Siblings(node, layer, d, i)[0];
            step(layer[i], tag(sibling.0, sibling.1)) == Some(NextLayer(node, layer)[i / 2])
  {
    var j := i / 2;
    Halves(node, layer, d);
    NextLayerAt(node, layer, j);
    assert Joins(step, node, tag, layer[2 * j], layer[2 * j + 1]);
    assert Joins(step, node, tag, layer[2 * j + 1], layer[2 * j]);
    assert i == 2 * j || i == 2 * j + 1;
  }

  // ---------- which pairs were hashed ----------

  ghost function LayerPairs<H>(layer: seq<H>): set<(H, H)>
    requires |layer| % 2 == 0
  {
    if layer == [] then {} else {(layer[0], layer[1])} + LayerPairs(layer[2..])
  }

  lemma {:induction false} PairIsIn<H>(layer: seq<H>, i: nat)
    requires |layer| % 2 == 0 && i < |layer| / 2
    ensures (layer[2 * i], layer[2 * i + 1]) in LayerPairs(layer)
  {
    if i > 0 {
      PairIsIn(layer[2..], i - 1);
    }
  }

  /** Every pair of nodes hashed while building the layers above `layer`. */
  ghost function TreePairs<H>(node: (H, H) -> H, layer: seq<H>, d: nat): set<(H, H)>
    requires |layer| == Pow2(d)
    decreases d
  {
    if d == 0 then {} else LayerPairs(layer) + TreePairs(node, NextLayer(node, layer), d - 1)
  }

  /** Every pair of a hash and a proof step met while climbing. */
  ghost function ClimbSteps<H, S>(step: (H, S) -> Option<H>, x: H, proof: seq<S>): set<(H, S)> {
    if proof == [] then {}
    else
      {(x, proof[0])} + if step(x, proof[0]).None? then {} else ClimbSteps(step, step(x, proof[0]).value, proof[1..])
  }

  /** Among these steps and pairs, a step that reaches a node starts from one of its children. */
  ghost predicate StepsBind<H, S>(step: (H, S) -> Option<H>, node: (H, H) -> H, steps: set<(H, S)>,
                                  pairs: set<(H, H)>)
  {
    forall c, p {:trigger StepBinds(step, node, c, p)} :: c in steps && p in pairs ==> StepBinds(step, node, c, p)
  }

  ghost predicate StepBinds<H, S>(step: (H, S) -> Option<H>, node: (H, H) -> H, c: (H, S), p: (H, H)) {
    step(c.0, c.1) == Some(node(p.0, p.1)) ==> c.0 == p.0 || c.0 == p.1
  }

  lemma PeelPairs<H>(node: (H, H) -> H, layer: seq<H>, d: nat)
    requires d > 0 && |layer| == Pow2(d)
    ensures |layer| % 2 == 0 && |NextLayer(node, layer)| == Pow2(d - 1)
    ensures TreePairs(node, NextLayer(node, layer), d - 1) <= TreePairs(node, layer, d)
  {
    Halves(node, layer, d);
  }

  lemma PairInLayer<H>(node: (H, H) -> H, layer: seq<H>, d: nat, j: nat)
    requires |layer| == Pow2(d) && |layer| % 2 == 0 && 2 * j + 1 < |layer|
    ensures (layer[2 * j], layer[2 * j + 1]) in TreePairs(node, layer, d)
  {
    PairIsIn(layer, j);
  }

  lemma PeelStep<H, S>(step: (H, S) -> Option<H>, x: H, proof: seq<S>)
    requires proof != [] && Climb(step, x, proof).Some?
    ensures step(x, proof[0]).Some?
    ensures Climb(step, step(x, proof[0]).value, proof[1..]) == Climb(step, x, proof)
    ensures ClimbSteps(step, step(x, proof[0]).value, proof[1..]) <= ClimbSteps(step, x, proof)
    ensures (x, proof[0]) in ClimbSteps(step, x, proof)
  {
  }

  lemma {:induction false} ProofsSound<H, S>(step: (H, S) -> Option<H>, node: (H, H) -> H, layer: seq<H>, d: nat,
                                             x: H, proof: seq<S>, steps: set<(H, S)>, pairs: set<(H, H)>)
    requires |layer| == Pow2(d) && |proof| == d
    requires StepsBind(step, node, steps, pairs)
    requires ClimbSteps(step, x, proof) <= steps && TreePairs(node, layer, d) <= pairs
    requires Climb(step, x, proof) == Some(Root(node, layer, d))
    ensures x in layer
    decreases d
  {
    if d > 0 {
      PeelPairs(node, layer, d);
      var next := NextLayer(node, layer);
      var parent := step(x, proof[0]).value;
      PeelStep(step, x, proof);
      ProofsSound(step, node, next, d - 1, parent, proof[1..], steps, pairs);
      var j :| 0 <= j < |next| && next[j] == parent;
      ChildIsNamed(step, node, layer, x, proof[0], steps, pairs, j);
    }
  }

  lemma ChildIsNamed<H, S>(step: (H, S) -> Option<H>, node: (H, H) -> H, layer: seq<H>, x: H, s: S,
                           steps: set<(H, S)>, pairs: set<(H, H)>, j: nat)
    requires |layer| % 2 == 0 && j < |layer| / 2 && LayerPairs(layer) <= pairs
    requires StepsBind(step, node, steps, pairs) && (x, s) in steps && step(x, s) == Some(NextLayer(node, layer)[j])
    ensures x in layer
  {
    var pair := (layer[2 * j], layer[2 * j + 1]);
    PairIsIn(layer, j);
    NextLayerAt(node, layer, j);
    assert StepBinds(step, node, (x, s), pair);
  }

  lemma {:induction false} InnerTreePairs<H>(node: (H, H) -> H, layer: seq<H>, d: nat, i: nat)
    requires |layer| == Pow2(d) && i <= d
    ensures |Layers(node, layer, d)[i]| == Pow2(d - i)
    ensures TreePairs(node, Layers(node, layer, d)[i], d - i) <= TreePairs(node, layer, d)
    decreases i
  {
    LayerFacts(node, layer, d, i);
    if i > 0 {
      InnerTreePairs(node, layer, d, i - 1);
      LayerFacts(node, layer, d, i - 1);
      PeelPairs(node, Layers(node, layer, d)[i - 1], d - i + 1);
    }
  }

  /** The children of a node above the leaves; they were hashed together. */
  lemma ChildrenOf<H>(node: (H, H) -> H, layer: seq<H>, d: nat, i: nat, below: seq<H>, next: H) returns (j: nat)
    requires |layer| == Pow2(d) && i < d
    requires below == Layers(node, layer, d)[i] && next in Layers(node, layer, d)[i + 1]
    ensures 2 * j + 1 < |below| && next == node(below[2 * j], below[2 * j + 1])
    ensures (below[2 * j], below[2 * j + 1]) in TreePairs(node, layer, d)
  {
    LayerAbove(node, layer, d, i);
    j :| 0 <= j < |NextLayer(node, below)| && NextLayer(node, below)[j] == next;
    NextLayerAt(node, below, j);
    InnerTreePairs(node, layer, d, i);
    PairInLayer(node, below, d - i, j);
  }

  /** A proof of any length up to the depth that reaches the root names a member of the layer that far below it. */
  lemma ProofsNameLayerMembers<H, S>(step: (H, S) -> Option<H>, node: (H, H) -> H, layer: seq<H>, d: nat,
                                     x: H, proof: seq<S>)
    requires |layer| == Pow2(d) && |proof| <= d
    requires StepsBind(step, node, ClimbSteps(step, x, proof), TreePairs(node, layer, d))
    requires Climb(step, x, proof) == Some(Root(node, layer, d))
    ensures x in Layers(node, layer, d)[d - |proof|]
  {
    var i := d - |proof|;
    LayerRoot(node, layer, d, i);
    InnerTreePairs(node, layer, d, i);
    ProofsSound(step, node, Layers(node, layer, d)[i], |proof|, x, proof,
                ClimbSteps(step, x, proof), TreePairs(node, layer, d));
  }

  // ---------- the same tree by halves ----------

  lemma {:induction false} NextLayerOfHalves<H>(node: (H, H) -> H, a: seq<H>, b: seq<H>)
    requires |a| % 2 == 0 && |b| % 2 == 0
    ensures NextLayer(node, a + b) == NextLayer(node, a) + NextLayer(node, b)
    ensures LayerPairs(a + b) == LayerPairs(a) + LayerPairs(b)
  {
    if a == [] {
      assert a + b == b;
    } else {
      assert (a + b)[2..] == a[2..] + b && (a + b)[0] == a[0] && (a + b)[1] == a[1];
      NextLayerOfHalves(node, a[2..], b);
    }
  }

  /** Built layer by layer, the root is the node over the roots of the two halves, and building it hashed all that
      building the halves hashes, and that node. */
  lemma {:induction false} RootOfHalves<H>(node: (H, H) -> H, a: seq<H>, b: seq<H>, d: nat)
    requires |a| == |b| == Pow2(d)
    ensures Root(node, a + b, d + 1) == node(Root(node, a, d), Root(node, b, d))
    ensures TreePairs(node, a, d) + TreePairs(node, b, d) + {(Root(node, a, d), Root(node, b, d))}
            <= TreePairs(node, a + b, d + 1)
    decreases d
  {
    if d == 0 {
      var c := a + b;
      PairIsIn(c, 0);
    } else {
      NextLayerOfHalves(node, a, b);
      RootOfHalves(node, NextLayer(node, a), NextLayer(node, b), d - 1);
    }
  }

  // ---------- exchanging subtrees ----------

  /** Which internal nodes of a tree have their two subtrees exchanged. */
  datatype Swaps = Here | Fork(swap: bool, left: Swaps, right: Swaps)

  predicate Fits(p: Swaps, d: nat) {
    if d == 0 then p.Here? else p.Fork? && Fits(p.left, d - 1) && Fits(p.right, d - 1)
  }

  function Rearranged<H>(p: Swaps, layer: seq<H>, d: nat): (r: seq<H>)
    requires |layer| == Pow2(d) && Fits(p, d)
    ensures |r| == |layer|
    decreases d
  {
    if d == 0 then layer
    else
      var half := Pow2(d - 1);
      var l, r := Rearranged(p.left, layer[..half], d - 1), Rearranged(p.right, layer[half..], d - 1);
      if p.swap then r + l else l + r
  }

  ghost predicate Commutes<H(!new)>(node: (H, H) -> H) {
    forall x, y :: node(x, y) == node(y, x)
  }

  /** Among these pairs, equal nodes have equal children, up to order. */
  ghost predicate PairsBind<H>(node: (H, H) -> H, pairs: set<(H, H)>) {
    forall p, q {:trigger PairBinds(node, p, q)} :: p in pairs && q in pairs ==> PairBinds(node, p, q)
  }

  ghost predicate PairBinds<H>(node: (H, H) -> H, p: (H, H), q: (H, H)) {
    node(p.0, p.1) == node(q.0, q.1) ==> p == q || p == (q.1, q.0)
  }

  lemma SplitPow<H>(layer: seq<H>, d: nat)
    requires d > 0 && |layer| == Pow2(d)
    ensures var half := Pow2(d - 1);
            && half <= |layer| && |layer[..half]| == |layer[half..]| == half && layer == layer[..half] + layer[half..]
  {
  }

  lemma ForkRearranges<H>(a: seq<H>, b: seq<H>, d: nat, swap: bool, l: Swaps, r: Swaps)
    requires |a| == |b| == Pow2(d) && Fits(l, d) && Fits(r, d)
    ensures var a', b' := Rearranged(l, a, d), Rearranged(r, b, d);
            && Fits(Fork(swap, l, r), d + 1) && |a + b| == Pow2(d + 1)
            && Rearranged(Fork(swap, l, r), a + b, d + 1) == if swap then b' + a' else a' + b'
  {
    assert (a + b)[..Pow2(d)] == a && (a + b)[Pow2(d)..] == b;
  }

  /** Exchanging subtrees anywhere keeps the root and the leaves. */
  lemma {:induction false} SwapsKeepRoot<H(!new)>(node: (H, H) -> H, layer: seq<H>, d: nat, p: Swaps)
    requires |layer| == Pow2(d) && Fits(p, d) && Commutes(node)
    ensures Root(node, Rearranged(p, layer, d), d) == Root(node, layer, d)
    ensures multiset(Rearranged(p, layer, d)) == multiset(layer)
    decreases d
  {
    if d > 0 {
      SplitPow(layer, d);
      var half := Pow2(d - 1);
      SwapsKeepRoot(node, layer[..half], d - 1, p.left);
      SwapsKeepRoot(node, layer[half..], d - 1, p.right);
      ForkKeepsRoot(node, layer[..half], layer[half..], d - 1, p.swap, p.left, p.right);
    }
  }

  lemma ForkKeepsRoot<H(!new)>(node: (H, H) -> H, a: seq<H>, b: seq<H>, d: nat, swap: bool, l: Swaps, r: Swaps)
    requires |a| == |b| == Pow2(d) && Fits(l, d) && Fits(r, d) && Commutes(node)
    requires Root(node, Rearranged(l, a, d), d) == Root(node, a, d)
    requires Root(node, Rearranged(r, b, d), d) == Root(node, b, d)
    requires multiset(Rearranged(l, a, d)) == multiset(a) && multiset(Rearranged(r, b, d)) == multiset(b)
    ensures Fits(Fork(swap, l, r), d + 1) && |a + b| == Pow2(d + 1)
    ensures Root(node, Rearranged(Fork(swap, l, r), a + b, d + 1), d + 1) == Root(node, a + b, d + 1)
    ensures multiset(Rearranged(Fork(swap, l, r), a + b, d + 1)) == multiset(a + b)
  {
    var a', b' := Rearranged(l, a, d), Rearranged(r, b, d);
    ForkRearranges(a, b, d, swap, l, r);
    RootOfHalves(node, a, b, d);
    if swap {
      RootOfHalves(node, b', a', d);
    } else {
      RootOfHalves(node, a', b', d);
    }
  }

  /** Whether some exchange of subtrees turns `a` into `b`. */
  ghost predicate Swapped<H>(a: seq<H>, b: seq<H>, d: nat)
    requires |a| == Pow2(d)
  {
    exists p :: SwapsInto(p, a, b, d)
  }

  predicate SwapsInto<H(==)>(p: Swaps, a: seq<H>, b: seq<H>, d: nat)
    requires |a| == Pow2(d)
  {
    Fits(p, d) && Rearranged(p, a, d) == b
  }

  lemma SwappedHalves<H>(a0: seq<H>, a1: seq<H>, b0: seq<H>, b1: seq<H>, d: nat, swap: bool)
    requires |a0| == |a1| == Pow2(d) && Swapped(a0, b0, d) && Swapped(a1, b1, d)
    ensures Swapped(a0 + a1, if swap then b1 + b0 else b0 + b1, d + 1)
  {
    var l :| SwapsInto(l, a0, b0, d);
    var r :| SwapsInto(r, a1, b1, d);
    ForkRearranges(a0, a1, d, swap, l, r);
    assert SwapsInto(Fork(swap, l, r), a0 + a1, if swap then b1 + b0 else b0 + b1, d + 1);
  }

  lemma HalvesAreBound<H>(node: (H, H) -> H, a0: seq<H>, a1: seq<H>, b0: seq<H>, b1: seq<H>, d: nat, pairs: set<(H, H)>)
    requires |a0| == |a1| == |b0| == |b1| == Pow2(d) && PairsBind(node, pairs)
    requires TreePairs(node, a0 + a1, d + 1) <= pairs && TreePairs(node, b0 + b1, d + 1) <= pairs
    requires Root(node, a0 + a1, d + 1) == Root(node, b0 + b1, d + 1)
    ensures TreePairs(node, a0, d) <= pairs && TreePairs(node, a1, d) <= pairs
    ensures TreePairs(node, b0, d) <= pairs && TreePairs(node, b1, d) <= pairs
    ensures || (Root(node, a0, d) == Root(node, b0, d) && Root(node, a1, d) == Root(node, b1, d))
            || (Root(node, a0, d) == Root(node, b1, d) && Root(node, a1, d) == Root(node, b0, d))
  {
    RootOfHalves(node, a0, a1, d);
    RootOfHalves(node, b0, b1, d);
    var pa, pb := (Root(node, a0, d), Root(node, a1, d)), (Root(node, b0, d), Root(node, b1, d));
    assert pa in pairs && pb in pairs;
    assert PairBinds(node, pa, pb);
  }

  lemma {:induction false} EqualRootsAreSwaps<H>(node: (H, H) -> H, a: seq<H>, b: seq<H>, d: nat, pairs: set<(H, H)>)
    requires |a| == |b| == Pow2(d) && PairsBind(node, pairs)
    requires TreePairs(node, a, d) <= pairs && TreePairs(node, b, d) <= pairs
    requires Root(node, a, d) == Root(node, b, d)
    ensures Swapped(a, b, d)
    decreases d, 1
  {
    if d == 0 {
      assert a == b && SwapsInto(Here, a, b, d);
    } else {
      var half := Pow2(d - 1);
      assert a == a[..half] + a[half..] && b == b[..half] + b[half..];
      EqualRootsOfHalves(node, a[..half], a[half..], b[..half], b[half..], d - 1, pairs);
    }
  }

  lemma {:induction false} EqualRootsOfHalves<H>(node: (H, H) -> H, a0: seq<H>, a1: seq<H>, b0: seq<H>, b1: seq<H>,
                                                 d: nat, pairs: set<(H, H)>)
    requires |a0| == |a1| == |b0| == |b1| == Pow2(d) && PairsBind(node, pairs)
    requires TreePairs(node, a0 + a1, d + 1) <= pairs && TreePairs(node, b0 + b1, d + 1) <= pairs
    requires Root(node, a0 + a1, d + 1) == Root(node, b0 + b1, d + 1)
    ensures Swapped(a0 + a1, b0 + b1, d + 1)
    decreases d + 1, 0
  {
    HalvesAreBound(node, a0, a1, b0, b1, d, pairs);
    if Root(node, a0, d) == Root(node, b0, d) && Root(node, a1, d) == Root(node, b1, d) {
      EqualRootsAreSwaps(node, a0, b0, d, pairs);
      EqualRootsAreSwaps(node, a1, b1, d, pairs);
      SwappedHalves(a0, a1, b0, b1, d, false);
    } else {
      EqualRootsAreSwaps(node, a0, b1, d, pairs);
      EqualRootsAreSwaps(node, a1, b0, d, pairs);
      SwappedHalves(a0, a1, b1, b0, d, true);
    }
  }

  lemma RootBindsUpToSwaps<H(!new)>(node: (H, H) -> H, a: seq<H>, b: seq<H>, d: nat)
    requires |a| == |b| == Pow2(d) && Commutes(node)
    requires PairsBind(node, TreePairs(node, a, d) + TreePairs(node, b, d))
    ensures Root(node, a, d) == Root(node, b, d) <==> Swapped(a, b, d)
    ensures Swapped(a, b, d) ==> multiset(a) == multiset(b)
  {
    if Root(node, a, d) == Root(node, b, d) {
      EqualRootsAreSwaps(node, a, b, d, TreePairs(node, a, d) + TreePairs(node, b, d));
    }
    if p :| SwapsInto(p, a, b, d) {
      SwapsKeepRoot(node, a, d, p);
    }
  }

  // ---------- the loops ----------

  lemma LayersPeel<H>(node: (H, H) -> H, layer: seq<H>, d: nat)
    requires |layer| == Pow2(d) && d > 0
    ensures Layers(node, layer, d) == [layer] + Layers(node, NextLayer(node, layer), d - 1)
  {
  }

  method BuildNextLayer<H>(node: (H, H) -> H, current: seq<H>) returns (nextLayer: seq<H>)
    requires |current| % 2 == 0
    ensures nextLayer == NextLayer(node, current)
  {
    nextLayer := [];
    for i := 0 to |current| / 2
      invariant nextLayer + NextLayer(node, current[2 * i..]) == NextLayer(node, current)
    {
      assert current[2 * i..][2..] == current[2 * (i + 1)..];
      nextLayer := nextLayer + [node(current[2 * i], current[2 * i + 1])];
    }
  }

  /** Pairs up each layer until one node is left. */
  method BuildLayers<H>(node: (H, H) -> H, leaves: seq<H>, ghost d: nat) returns (all: seq<seq<H>>)
    requires |leaves| == Pow2(d)
    ensures all == Layers(node, leaves, d)
  {
    all := [leaves];
    var current := leaves;
    ghost var left: nat := d;
    ghost var full := Layers(node, leaves, d);
    while |current| > 1
      invariant left <= d && |current| == Pow2(left)
      invariant |all| == d - left + 1 && all == full[..|all|]
      invariant Layers(node, current, left) == full[d - left..]
      decreases left
    {
      Halves(node, current, left);
      var nextLayer := BuildNextLayer(node, current);
      LayersPeel(node, current, left);
      assert full[d - left + 1..] == full[d - left..][1..];
      assert full[d - left + 1] == full[d - left + 1..][0] == nextLayer;
      left := left - 1;
      all := all + [nextLayer];
      current := nextLayer;
    }
    assert full[..d + 1] == full;
  }

  /** The sibling at each layer below the root, tagged with its side. */
  method BuildProof<H, S>(node: (H, H) -> H, tag: (H, bool) -> S, layers: seq<seq<H>>, ghost d: nat, leafIndex: nat)
    returns (proof: seq<S>)
    requires |layers| == d + 1 && |layers[0]| == Pow2(d) && layers == Layers(node, layers[0], d)
    requires leafIndex < |layers[0]|
    ensures proof == Tagged(tag, Siblings(node, layers[0], d, leafIndex))
  {
    proof := [];
    var idx: nat := leafIndex;
    ghost var full := Siblings(node, layers[0], d, leafIndex);
    for k := 0 to |layers| - 1
      invariant k <= d && |layers[k]| == Pow2(d - k) && 0 <= idx < |layers[k]|
      invariant proof == Tagged(tag, full[..k])
      invariant Siblings(node, layers[k], d - k, idx) == full[k..]
    {
      LayerFacts(node, layers[0], d, k);
      LayerFacts(node, layers[0], d, k + 1);
      TakeOneMore(full, k);
      TaggedAppend(tag, full[..k], full[k]);
      var sibling, right := if idx % 2 == 0 then idx + 1 else idx - 1, idx % 2 == 0;
      if sibling < |layers[k]| {
        proof := proof + [tag(layers[k][sibling], right)];
      }
      idx := idx / 2;
    }
    assert full[..d] == full;
  }

  lemma {:induction false} TaggedAppend<H, S>(tag: (H, bool) -> S, path: seq<(H, bool)>, last: (H, bool))
    ensures Tagged(tag, path + [last]) == Tagged(tag, path) + [tag(last.0, last.1)]
  {
    if path != [] {
      assert (path + [last])[1..] == path[1..] + [last];
      TaggedAppend(tag, path[1..], last);
    }
  }

  /** Where a proof leads; `None` when a step raises. */
  method RunProof<H, S>(step: (H, S) -> Option<H>, x: H, proof: seq<S>) returns (r: Option<H>)
    ensures r == Climb(step, x, proof)
  {
    var current := x;
    for k := 0 to |proof|
      invariant Climb(step, current, proof[k..]) == Climb(step, x, proof)
    {
      assert proof[k..][0] == proof[k] && proof[k..][1..] == proof[k + 1..];
      var next := step(current, proof[k]);
      if next.None? {
        return None;
      }
      current := next.value;
    }
    return Some(current);
  }
}
