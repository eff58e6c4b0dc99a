/** The sorted-pair Merkle tree: construction, inclusion proofs, and what a root binds (attestation/merkle.py). */
module Merkle {
  import opened Options
  import opened Bytes
  import opened Trees

  // ---------- hashing a pair ----------

  /** Python's `a > b` on strings. */
  predicate Greater(a: string, b: string) {
    a != "" && (b == "" || a[0] > b[0] || (a[0] == b[0] && Greater(a[1..], b[1..])))
  }

  lemma {:induction false} GreaterIsTotal(a: string, b: string)
    ensures Greater(a, b) ==> !Greater(b, a)
    ensures Greater(a, b) || Greater(b, a) || a == b
  {
    if a != "" && b != "" && a[0] == b[0] {
      GreaterIsTotal(a[1..], b[1..]);
      assert a == [a[0]] + a[1..] && b == [b[0]] + b[1..];
    }
  }

  /** `a` comes after `b` when it continues it, or is greater where they first differ. */
  ghost predicate ComesAfter(a: string, b: string) {
    exists k :: 0 <= k < |a| && k <= |b| && a[..k] == b[..k] && (k == |b| || a[k] > b[k])
  }

  lemma {:induction false} GreaterComesAfter(a: string, b: string)
    ensures Greater(a, b) <==> ComesAfter(a, b)
  {
    if a != "" && b != "" && a[0] == b[0] {
      GreaterComesAfter(a[1..], b[1..]);
      SplitHeads(a, b);
    } else if Greater(a, b) {
      assert a[..0] == b[..0];
    }
  }

  lemma SplitHeads(a: string, b: string)
    requires a != "" && b != "" && a[0] == b[0]
    ensures ComesAfter(a, b) <==> ComesAfter(a[1..], b[1..])
  {
    if k :| 0 <= k < |a| && k <= |b| && a[..k] == b[..k] && (k == |b| || a[k] > b[k]) {
      assert a[1..][..k - 1] == a[..k][1..] && b[1..][..k - 1] == b[..k][1..];
    }
    if k :| 0 <= k < |a[1..]| && k <= |b[1..]| && a[1..][..k] == b[1..][..k]
            && (k == |b[1..]| || a[1..][k] > b[1..][k]) {
      assert a[..k + 1] == [a[0]] + a[1..][..k] && b[..k + 1] == [b[0]] + b[1..][..k];
    }
  }

  function Smaller(a: string, b: string): string { if Greater(a, b) then b else a }

  function Larger(a: string, b: string): string { if Greater(a, b) then a else b }

  /** A string that stands for 32 bytes; well-formed hashes do, and so do the same in upper case or with white space. */
  predicate Names32Bytes(x: string) { FromHex(x).Some? && |FromHex(x).value| == 32 }

  /** The bytes hashed for a pair, smaller string first; `None` when one of them is not hexadecimal. */
  function PairInput(a: string, b: string): Option<seq<byte>> { Joined(Smaller(a, b), Larger(a, b)) }

  function Joined(first: string, second: string): Option<seq<byte>> {
    var lo :- FromHex(first);
    var hi :- FromHex(second);
    Some(lo + hi)
  }

  /** The bytes of two strings in one order or the other. */
  predicate JoinsEither(input: Option<seq<byte>>, a: string, b: string) {
    input == Joined(a, b) || input == Joined(b, a)
  }

  lemma EitherOrder(a: string, b: string)
    ensures JoinsEither(PairInput(a, b), a, b)
  {
  }

  function HashPair(sha: HashFn, a: string, b: string): Option<Digest> {
    var input :- PairInput(a, b);
    Some(sha(input))
  }

  /** The hash of a pair is that of its two decodings, the one of the string that comes first in front. */
  lemma PairIsOrdered(sha: HashFn, a: string, b: string)
    requires FromHex(a).Some? && FromHex(b).Some?
    ensures HashPair(sha, a, b)
         == Some(sha(if ComesAfter(a, b) then FromHex(b).value + FromHex(a).value
                     else FromHex(a).value + FromHex(b).value))
  {
    GreaterComesAfter(a, b);
  }

  lemma PairInputCommutes(a: string, b: string)
    ensures PairInput(a, b) == PairInput(b, a)
  {
    GreaterIsTotal(a, b);
  }

  lemma DigestNames(a: Digest)
    ensures Names32Bytes(a)
  {
    FromHexDecodes(a);
  }

  lemma DigestsDecode(a: Digest, b: Digest)
    ensures FromHex(a).Some? && |FromHex(a).value| == 32
    ensures PairInput(a, b).Some?
    ensures FromHex(a) == FromHex(b) ==> a == b
  {
    FromHexDecodes(a);
    FromHexDecodes(b);
    if FromHex(a) == FromHex(b) {
      FromHexInjective(a, b);
    }
  }

  /** The parent of two well-formed nodes. */
  function Node(sha: HashFn, l: Digest, r: Digest): (d: Digest)
    ensures HashPair(sha, l, r) == Some(d)
  {
    DigestsDecode(l, r);
    HashPair(sha, l, r).value
  }

  function NodeFn(sha: HashFn): (Digest, Digest) -> Digest { (l, r) => Node(sha, l, r) }

  lemma EqualHalves(a: seq<byte>, b: seq<byte>, a': seq<byte>, b': seq<byte>)
    requires a + b == a' + b' && |a| == |b| == 32 && (|a'| == 32 || |b'| == 32)
    ensures a == a' && b == b'
  {
    assert |a + b| == |a' + b'|;
    assert a == (a + b)[..32] && b == (a + b)[32..];
    assert a' == (a' + b')[..32] && b' == (a' + b')[32..];
  }

  /** Two strings decode like two others, in one order or the other. */
  predicate DecodeAlike(x: string, y: string, l: string, r: string) {
    (FromHex(x) == FromHex(l) && FromHex(y) == FromHex(r)) || (FromHex(x) == FromHex(r) && FromHex(y) == FromHex(l))
  }

  /** A string that decodes to 32 bytes, paired with anything at all, gives the bytes of a node only if the two decode
      like the node's children. */
  lemma ChildrenAreBound(x: string, y: string, l: string, r: string)
    requires Names32Bytes(l) && Names32Bytes(r) && Names32Bytes(x)
    requires PairInput(x, y).Some? && PairInput(x, y) == PairInput(l, r)
    ensures DecodeAlike(x, y, l, r)
  {
    EitherOrder(l, r);
    EitherOrder(x, y);
    BoundInput(PairInput(x, y), x, y, l, r);
  }

  lemma BoundInput(input: Option<seq<byte>>, x: string, y: string, l: string, r: string)
    requires Names32Bytes(l) && Names32Bytes(r) && Names32Bytes(x)
    requires JoinsEither(input, x, y) && JoinsEither(input, l, r)
    ensures DecodeAlike(x, y, l, r)
  {
    if input == Joined(x, y) {
      OrderedChildren(x, y, l, r);
    } else {
      OrderedChildren(y, x, l, r);
    }
  }

  lemma OrderedChildren(a: string, b: string, l: string, r: string)
    requires Names32Bytes(l) && Names32Bytes(r) && (Names32Bytes(a) || Names32Bytes(b))
    requires JoinsEither(Joined(a, b), l, r)
    ensures DecodeAlike(a, b, l, r)
  {
    if Joined(a, b) == Joined(l, r) {
      JoinedBinds(a, b, l, r);
    } else {
      JoinedBinds(a, b, r, l);
    }
  }

  lemma JoinedBinds(a: string, b: string, l: string, r: string)
    requires Names32Bytes(l) && Names32Bytes(r) && (Names32Bytes(a) || Names32Bytes(b)) && Joined(a, b) == Joined(l, r)
    ensures FromHex(a) == FromHex(l) && FromHex(b) == FromHex(r)
  {
    EqualHalves(FromHex(l).value, FromHex(r).value, FromHex(a).value, FromHex(b).value);
  }

  // ---------- proof steps ----------

  /** A sibling and the side it stands on; anything but "left" counts as right. */
  type Step = (string, string)

  function StepInput(current: string, step: Step): Option<seq<byte>> {
    if step.1 == "left" then PairInput(step.0, current) else PairInput(current, step.0)
  }

  function ProofStep(sha: HashFn, current: string, step: Step): Option<Digest> {
    var input :- StepInput(current, step);
    Some(sha(input))
  }

  /** One round of the verifier, which starts from any string. */
  function VerifyFn(sha: HashFn): (string, Step) -> Option<string> { (x, s) => ProofStep(sha, x, s) }

  /** The same from a well-formed hash, as it is from the second round on. */
  function StepFn(sha: HashFn): (Digest, Step) -> Option<Digest> { (x, s) => ProofStep(sha, x, s) }

  lemma {:induction false} SameClimb(sha: HashFn, x: Digest, proof: seq<Step>)
    ensures Climb(VerifyFn(sha), x, proof) == Climb(StepFn(sha), x, proof)
    decreases |proof|
  {
    if proof != [] && ProofStep(sha, x, proof[0]).Some? {
      SameClimb(sha, ProofStep(sha, x, proof[0]).value, proof[1..]);
    }
  }

  function TagFn(): (Digest, bool) -> Step { (sibling, right) => (sibling, if right then "right" else "left") }

  lemma StepsJoin(sha: HashFn)
    ensures StepJoins(StepFn(sha), NodeFn(sha), TagFn())
  {
    forall x: Digest, y: Digest ensures Joins(StepFn(sha), NodeFn(sha), TagFn(), x, y) {
      DigestsDecode(x, y);
      DigestsDecode(y, x);
    }
  }

  lemma NodesCommute(sha: HashFn)
    ensures Commutes(NodeFn(sha))
  {
    forall l: Digest, r: Digest ensures NodeFn(sha)(l, r) == NodeFn(sha)(r, l) {
      PairInputCommutes(l, r);
    }
  }

  // ---------- what was hashed ----------

  /** The byte strings hashed while building the tree above a leaf layer. */
  ghost function TreeInputs(sha: HashFn, layer: seq<Digest>, d: nat): set<seq<byte>>
    requires |layer| == Pow2(d)
  {
    set p | p in TreePairs(NodeFn(sha), layer, d) && PairInput(p.0, p.1).Some? :: PairInput(p.0, p.1).value
  }

  /** The byte strings hashed while checking a proof. */
  ghost function ProofInputs(sha: HashFn, leaf: string, proof: seq<Step>): set<seq<byte>>
    decreases |proof|
  {
    if proof == [] || StepInput(leaf, proof[0]).None? then {}
    else
      var input := StepInput(leaf, proof[0]).value;
      {input} + ProofInputs(sha, sha(input), proof[1..])
  }

  lemma {:induction false} StepsAreHashed(sha: HashFn, leaf: Digest, proof: seq<Step>, x: Digest, step: Step)
    requires (x, step) in ClimbSteps(StepFn(sha), leaf, proof) && StepInput(x, step).Some?
    ensures StepInput(x, step).value in ProofInputs(sha, leaf, proof)
    decreases |proof|
  {
    if (x, step) != (leaf, proof[0]) {
      StepsAreHashed(sha, StepFn(sha)(leaf, proof[0]).value, proof[1..], x, step);
    }
  }

  lemma PairsAreHashed(sha: HashFn, layer: seq<Digest>, d: nat, l: Digest, r: Digest)
    requires |layer| == Pow2(d) && (l, r) in TreePairs(NodeFn(sha), layer, d)
    ensures PairInput(l, r).Some? && PairInput(l, r).value in TreeInputs(sha, layer, d)
  {
    DigestsDecode(l, r);
  }

  lemma CollisionFreeBindsSteps(sha: HashFn, layer: seq<Digest>, d: nat, leaf: Digest, proof: seq<Step>)
    requires |layer| == Pow2(d) && CollisionFree(sha, TreeInputs(sha, layer, d) + ProofInputs(sha, leaf, proof))
    ensures StepsBind(StepFn(sha), NodeFn(sha), ClimbSteps(StepFn(sha), leaf, proof), TreePairs(NodeFn(sha), layer, d))
  {
    var inputs := TreeInputs(sha, layer, d) + ProofInputs(sha, leaf, proof);
    forall c, p | c in ClimbSteps(StepFn(sha), leaf, proof) && p in TreePairs(NodeFn(sha), layer, d)
      ensures StepBinds(StepFn(sha), NodeFn(sha), c, p)
    {
      if StepInput(c.0, c.1).Some? && StepFn(sha)(c.0, c.1) == Some(NodeFn(sha)(p.0, p.1)) {
        StepsAreHashed(sha, leaf, proof, c.0, c.1);
        PairsAreHashed(sha, layer, d, p.0, p.1);
        StepBindsChild(sha, inputs, c.0, c.1, p.0, p.1);
        DigestsBound(c.0, p.0, p.1);
      }
    }
  }

  /** A step from 32 bytes that reaches a node starts from what decodes like one of its children. */
  lemma StepBindsChild(sha: HashFn, inputs: set<seq<byte>>, x: string, step: Step, l: Digest, r: Digest)
    requires CollisionFree(sha, inputs) && (IsDigest(x) || Names32Bytes(x))
    requires ProofStep(sha, x, step) == Some(Node(sha, l, r))
    requires PairInput(l, r).Some? && PairInput(l, r).value in inputs
    requires StepInput(x, step).Some? && StepInput(x, step).value in inputs
    ensures FromHex(x) == FromHex(l) || FromHex(x) == FromHex(r)
  {
    if IsDigest(x) {
      DigestNames(x);
    }
    StepIsPair(x, step);
    NodeHashes(sha, l, r);
    SameInput(sha, inputs, StepInput(x, step).value, PairInput(l, r).value);
    DigestNames(l);
    DigestNames(r);
    ChildrenAreBound(x, step.0, l, r);
  }

  lemma NodeHashes(sha: HashFn, l: Digest, r: Digest)
    ensures PairInput(l, r).Some? && Node(sha, l, r) == sha(PairInput(l, r).value)
  {
    DigestsDecode(l, r);
  }

  lemma StepIsPair(x: string, step: Step)
    ensures StepInput(x, step) == PairInput(x, step.0)
  {
    PairInputCommutes(x, step.0);
  }

  lemma SameInput(sha: HashFn, inputs: set<seq<byte>>, a: seq<byte>, b: seq<byte>)
    requires CollisionFree(sha, inputs) && a in inputs && b in inputs && sha(a) == sha(b)
    ensures a == b
  {
  }

  lemma DigestsBound(x: Digest, l: Digest, r: Digest)
    requires FromHex(x) == FromHex(l) || FromHex(x) == FromHex(r)
    ensures x == l || x == r
  {
    DigestsDecode(x, l);
    DigestsDecode(x, r);
  }

  lemma CollisionFreeBindsPairs(sha: HashFn, a: seq<Digest>, b: seq<Digest>, d: nat)
    requires |a| == |b| == Pow2(d) && CollisionFree(sha, TreeInputs(sha, a, d) + TreeInputs(sha, b, d))
    ensures PairsBind(NodeFn(sha), TreePairs(NodeFn(sha), a, d) + TreePairs(NodeFn(sha), b, d))
  {
    var pairs := TreePairs(NodeFn(sha), a, d) + TreePairs(NodeFn(sha), b, d);
    var inputs := TreeInputs(sha, a, d) + TreeInputs(sha, b, d);
    forall p, q | p in pairs && q in pairs ensures PairBinds(NodeFn(sha), p, q) {
      if NodeFn(sha)(p.0, p.1) == NodeFn(sha)(q.0, q.1) {
        PairOfEither(sha, a, b, d, p.0, p.1);
        PairOfEither(sha, a, b, d, q.0, q.1);
        NodesBind(sha, inputs, p.0, p.1, q.0, q.1);
      }
    }
  }

  lemma PairOfEither(sha: HashFn, a: seq<Digest>, b: seq<Digest>, d: nat, l: Digest, r: Digest)
    requires |a| == |b| == Pow2(d) && (l, r) in TreePairs(NodeFn(sha), a, d) + TreePairs(NodeFn(sha), b, d)
    ensures PairInput(l, r).Some? && PairInput(l, r).value in TreeInputs(sha, a, d) + TreeInputs(sha, b, d)
  {
    if (l, r) in TreePairs(NodeFn(sha), a, d) {
      PairsAreHashed(sha, a, d, l, r);
    } else {
      PairsAreHashed(sha, b, d, l, r);
    }
  }

  lemma NodesBind(sha: HashFn, inputs: set<seq<byte>>, l: Digest, r: Digest, l': Digest, r': Digest)
    requires CollisionFree(sha, inputs) && Node(sha, l, r) == Node(sha, l', r')
    requires PairInput(l, r).Some? && PairInput(l, r).value in inputs
    requires PairInput(l', r').Some? && PairInput(l', r').value in inputs
    ensures (l == l' && r == r') || (l == r' && r == l')
  {
    DigestsDecode(l, l');
    DigestsDecode(l, r');
    DigestsDecode(r, l');
    DigestsDecode(r, r');
    DigestNames(l);
    DigestNames(l');
    DigestNames(r');
    ChildrenAreBound(l, r, l', r');
  }

  // ---------- main results ----------

  function ProofFor(sha: HashFn, layer: seq<Digest>, d: nat, i: nat): (proof: seq<Step>)
    requires |layer| == Pow2(d) && i < |layer|
    ensures |proof| == d
  {
    Tagged(TagFn(), Siblings(NodeFn(sha), layer, d, i))
  }

  function RootHash(sha: HashFn, layer: seq<Digest>, d: nat): Digest
    requires |layer| == Pow2(d)
  {
    Root(NodeFn(sha), layer, d)
  }

  /** Every leaf, padding included, is proved by its own proof. */
  lemma InclusionProofsComplete(sha: HashFn, layer: seq<Digest>, d: nat, i: nat)
    requires |layer| == Pow2(d) && i < |layer|
    ensures Climb(VerifyFn(sha), layer[i], ProofFor(sha, layer, d, i)) == Some(RootHash(sha, layer, d))
  {
    StepsJoin(sha);
    ProofsComplete(StepFn(sha), NodeFn(sha), TagFn(), layer, d, i);
    SameClimb(sha, layer[i], ProofFor(sha, layer, d, i));
  }

  /** The layer that a proof of this length speaks about; with one step per layer, the leaves. */
  function LayerOf(sha: HashFn, layer: seq<Digest>, d: nat, proof: seq<Step>): seq<Digest>
    requires |layer| == Pow2(d) && |proof| <= d
  {
    Layers(NodeFn(sha), layer, d)[d - |proof|]
  }

  /** From a well-formed hash, a proof that reaches the root names a member of the layer as far below it. */
  lemma DigestProofsSound(sha: HashFn, layer: seq<Digest>, d: nat, leaf: Digest, proof: seq<Step>)
    requires |layer| == Pow2(d) && |proof| <= d
    requires CollisionFree(sha, TreeInputs(sha, layer, d) + ProofInputs(sha, leaf, proof))
    requires Climb(StepFn(sha), leaf, proof) == Some(RootHash(sha, layer, d))
    ensures leaf in LayerOf(sha, layer, d, proof)
  {
    CollisionFreeBindsSteps(sha, layer, d, leaf, proof);
    ProofsNameLayerMembers(StepFn(sha), NodeFn(sha), layer, d, leaf, proof);
  }

  /** Some member of the layer stands for the same bytes. */
  predicate NamesMember(leaf: string, layer: seq<Digest>) {
    exists i :: 0 <= i < |layer| && FromHex(layer[i]) == FromHex(leaf)
  }

  /** Whatever its siblings and tags are, a proof that verifies starts from a member of the layer it speaks about, up
      to decoding, exactly when it starts from 32 bytes, and from the member itself exactly when it starts from a
      well-formed hash. The verifier does not look. */
  lemma InclusionProofsSound(sha: HashFn, layer: seq<Digest>, d: nat, leaf: string, proof: seq<Step>)
    requires |layer| == Pow2(d) && |proof| <= d
    requires CollisionFree(sha, TreeInputs(sha, layer, d) + ProofInputs(sha, leaf, proof))
    requires Climb(VerifyFn(sha), leaf, proof) == Some(RootHash(sha, layer, d))
    ensures NamesMember(leaf, LayerOf(sha, layer, d, proof)) <==> Names32Bytes(leaf)
    ensures leaf in LayerOf(sha, layer, d, proof) <==> IsDigest(leaf)
    ensures |proof| == d ==> LayerOf(sha, layer, d, proof) == layer
  {
    MembersDecode(leaf, LayerOf(sha, layer, d, proof));
    EndLayers(sha, layer, d, proof);
    if IsDigest(leaf) {
      DigestNames(leaf);
    }
    if Names32Bytes(leaf) {
      ProofNamesMember(sha, layer, d, leaf, proof);
    }
  }

  /** A proof as long as the tree is deep speaks about the leaves, and an empty one about the root. */
  lemma EndLayers(sha: HashFn, layer: seq<Digest>, d: nat, proof: seq<Step>)
    requires |layer| == Pow2(d) && |proof| <= d
    ensures |proof| == d ==> LayerOf(sha, layer, d, proof) == layer
    ensures proof == [] ==> LayerOf(sha, layer, d, proof) == [RootHash(sha, layer, d)]
  {
    LayerRoot(NodeFn(sha), layer, d, d - |proof|);
  }

  lemma ProofNamesMember(sha: HashFn, layer: seq<Digest>, d: nat, leaf: string, proof: seq<Step>)
    requires |layer| == Pow2(d) && |proof| <= d && Names32Bytes(leaf)
    requires CollisionFree(sha, TreeInputs(sha, layer, d) + ProofInputs(sha, leaf, proof))
    requires Climb(VerifyFn(sha), leaf, proof) == Some(RootHash(sha, layer, d))
    ensures NamesMember(leaf, LayerOf(sha, layer, d, proof))
  {
    if proof == [] {
      EndLayers(sha, layer, d, proof);
      assert LayerOf(sha, layer, d, proof)[0] == leaf;
    } else {
      FirstStepNamesMember(sha, layer, d, leaf, proof);
    }
  }

  lemma MembersDecode(leaf: string, layer: seq<Digest>)
    ensures NamesMember(leaf, layer) ==> Names32Bytes(leaf)
    ensures leaf in layer ==> IsDigest(leaf) && NamesMember(leaf, layer)
    ensures IsDigest(leaf) && NamesMember(leaf, layer) ==> leaf in layer
  {
    if i :| 0 <= i < |layer| && FromHex(layer[i]) == FromHex(leaf) {
      DigestsDecode(layer[i], layer[i]);
      if IsDigest(leaf) {
        DigestsDecode(leaf, layer[i]);
      }
    }
  }

  /** After one step the proof goes on from a well-formed hash, which is a node. */
  lemma FirstStepReachesNode(sha: HashFn, layer: seq<Digest>, d: nat, leaf: string, proof: seq<Step>)
    requires |layer| == Pow2(d) && 0 < |proof| <= d
    requires CollisionFree(sha, TreeInputs(sha, layer, d) + ProofInputs(sha, leaf, proof))
    requires Climb(VerifyFn(sha), leaf, proof) == Some(RootHash(sha, layer, d))
    ensures ProofStep(sha, leaf, proof[0]).Some?
    ensures ProofStep(sha, leaf, proof[0]).value in LayerOf(sha, layer, d, proof[1..])
  {
    var next: Digest := ProofStep(sha, leaf, proof[0]).value;
    SameClimb(sha, next, proof[1..]);
    InputsOfRest(sha, leaf, proof, next, TreeInputs(sha, layer, d));
    DigestProofsSound(sha, layer, d, next, proof[1..]);
  }

  lemma InputsOfRest(sha: HashFn, leaf: string, proof: seq<Step>, next: Digest, others: set<seq<byte>>)
    requires proof != [] && ProofStep(sha, leaf, proof[0]) == Some(next)
    requires CollisionFree(sha, others + ProofInputs(sha, leaf, proof))
    ensures CollisionFree(sha, others + ProofInputs(sha, next, proof[1..]))
  {
    assert ProofInputs(sha, next, proof[1..]) <= ProofInputs(sha, leaf, proof);
  }

  lemma ChildrenInLayer(sha: HashFn, layer: seq<Digest>, d: nat, proof: seq<Step>, next: Digest)
    returns (l: Digest, r: Digest)
    requires |layer| == Pow2(d) && 0 < |proof| <= d && next in LayerOf(sha, layer, d, proof[1..])
    ensures l in LayerOf(sha, layer, d, proof) && r in LayerOf(sha, layer, d, proof) && next == Node(sha, l, r)
    ensures (l, r) in TreePairs(NodeFn(sha), layer, d)
  {
    var below := LayerOf(sha, layer, d, proof);
    var i := d - |proof|;
    assert d - |proof[1..]| == i + 1;
    var j := ChildrenOf(NodeFn(sha), layer, d, i, below, next);
    l, r := below[2 * j], below[2 * j + 1];
  }

  lemma FirstStepNamesMember(sha: HashFn, layer: seq<Digest>, d: nat, leaf: string, proof: seq<Step>)
    requires |layer| == Pow2(d) && 0 < |proof| <= d && Names32Bytes(leaf)
    requires CollisionFree(sha, TreeInputs(sha, layer, d) + ProofInputs(sha, leaf, proof))
    requires Climb(VerifyFn(sha), leaf, proof) == Some(RootHash(sha, layer, d))
    ensures NamesMember(leaf, LayerOf(sha, layer, d, proof))
  {
    FirstStepReachesNode(sha, layer, d, leaf, proof);
    var l, r := ChildrenInLayer(sha, layer, d, proof, ProofStep(sha, leaf, proof[0]).value);
    PairsAreHashed(sha, layer, d, l, r);
    StepBindsChild(sha, TreeInputs(sha, layer, d) + ProofInputs(sha, leaf, proof), leaf, proof[0], l, r);
  }

  /** Why 32 bytes are asked for: in every tree with more than one leaf the empty string, which is no leaf, verifies. It
      takes both children of a node as its sibling, and then follows that node's own proof. */
  lemma EmptyLeafVerifies(sha: HashFn, layer: seq<Digest>, d: nat, i: nat)
    requires d > 0 && |layer| == Pow2(d) && i < |layer|
    ensures var sibling := Siblings(NodeFn(sha), layer, d, i)[0].0;
            var proof := [(Smaller(layer[i], sibling) + Larger(layer[i], sibling), "right")]
                         + ProofFor(sha, layer, d, i)[1..];
            && |proof| == d && Climb(VerifyFn(sha), "", proof) == Some(RootHash(sha, layer, d))
            && !Names32Bytes("") && "" !in layer
  {
    var node, path := NodeFn(sha), Siblings(NodeFn(sha), layer, d, i);
    var own := ProofFor(sha, layer, d, i);
    var both := Smaller(layer[i], path[0].0) + Larger(layer[i], path[0].0);
    var proof := [(both, "right")] + own[1..];
    BothAsSibling(layer[i], path[0].0);
    assert own[0].0 == path[0].0;
    StepIsPair(layer[i], own[0]);
    StepIsPair("", proof[0]);
    InclusionProofsComplete(sha, layer, d, i);
    SameFirstInput(sha, "", proof, layer[i], own);
  }

  /** A proof of more steps than the tree is deep, if it verifies, stands at a leaf when as many steps are left. */
  lemma {:induction false} LongProofsReachLeaf(sha: HashFn, layer: seq<Digest>, d: nat, leaf: string, proof: seq<Step>)
    requires |layer| == Pow2(d) && |proof| > d
    requires CollisionFree(sha, TreeInputs(sha, layer, d) + ProofInputs(sha, leaf, proof))
    requires Climb(VerifyFn(sha), leaf, proof) == Some(RootHash(sha, layer, d))
    ensures var h := Climb(VerifyFn(sha), leaf, proof[..|proof| - d]); h.Some? && h.value in layer
    decreases |proof|
  {
    var next: Digest := ProofStep(sha, leaf, proof[0]).value;
    ClimbTake(sha, leaf, proof, |proof| - d);
    InputsOfRest(sha, leaf, proof, next, TreeInputs(sha, layer, d));
    if |proof| == d + 1 {
      FullProofStartsAtLeaf(sha, layer, d, next, proof[1..]);
      assert proof[1..][..0] == [];
    } else {
      LongProofsReachLeaf(sha, layer, d, next, proof[1..]);
    }
  }

  lemma FullProofStartsAtLeaf(sha: HashFn, layer: seq<Digest>, d: nat, leaf: Digest, proof: seq<Step>)
    requires |layer| == Pow2(d) && |proof| == d
    requires CollisionFree(sha, TreeInputs(sha, layer, d) + ProofInputs(sha, leaf, proof))
    requires Climb(VerifyFn(sha), leaf, proof) == Some(RootHash(sha, layer, d))
    ensures leaf in layer
  {
    SameClimb(sha, leaf, proof);
    DigestProofsSound(sha, layer, d, leaf, proof);
    EndLayers(sha, layer, d, proof);
  }

  lemma ClimbTake(sha: HashFn, x: string, proof: seq<Step>, k: nat)
    requires 0 < k <= |proof| && ProofStep(sha, x, proof[0]).Some?
    ensures Climb(VerifyFn(sha), x, proof[..k])
         == Climb(VerifyFn(sha), ProofStep(sha, x, proof[0]).value, proof[1..][..k - 1])
  {
    assert proof[..k][1..] == proof[1..][..k - 1];
  }

  /** Such proofs exist: leaves and nodes are hashed alike, so a leaf whose data are the 64 bytes of two hashes acts
      as a node above them. */
  lemma LeafDataActsAsNode(sha: HashFn, layer: seq<Digest>, d: nat, i: nat, x: Digest, y: Digest)
    requires |layer| == Pow2(d) && i < |layer|
    requires PairInput(x, y).Some? && layer[i] == sha(PairInput(x, y).value)
    ensures var proof := [(y, "right")] + ProofFor(sha, layer, d, i);
            |proof| == d + 1 && Climb(VerifyFn(sha), x, proof) == Some(RootHash(sha, layer, d))
  {
    var own := ProofFor(sha, layer, d, i);
    var proof := [(y, "right")] + own;
    InclusionProofsComplete(sha, layer, d, i);
    assert proof[1..] == own;
    assert ProofStep(sha, x, proof[0]) == Some(layer[i]);
  }

  lemma SameFirstInput(sha: HashFn, x: string, p: seq<Step>, y: string, q: seq<Step>)
    requires p != [] && q != [] && p[1..] == q[1..] && StepInput(x, p[0]) == StepInput(y, q[0])
    ensures Climb(VerifyFn(sha), x, p) == Climb(VerifyFn(sha), y, q)
  {
  }

  lemma BothAsSibling(x: Digest, y: Digest)
    ensures PairInput("", Smaller(x, y) + Larger(x, y)) == PairInput(x, y)
  {
    DigestsDecode(x, y);
    DigestsDecode(y, x);
    FromHexConcat(Smaller(x, y), Larger(x, y));
    var both := Smaller(x, y) + Larger(x, y);
    assert Smaller("", both) == "" && Larger("", both) == both;
    assert [] + FromHex(both).value == FromHex(both).value;
  }

  /** Two trees of equal depth have the same root exactly when exchanging subtrees turns one leaf layer into the other;
      the leaves are then the same up to order. */
  lemma RootBindsLeavesUpToSwaps(sha: HashFn, a: seq<Digest>, b: seq<Digest>, d: nat)
    requires |a| == |b| == Pow2(d)
    requires CollisionFree(sha, TreeInputs(sha, a, d) + TreeInputs(sha, b, d))
    ensures RootHash(sha, a, d) == RootHash(sha, b, d) <==> Swapped(a, b, d)
    ensures RootHash(sha, a, d) == RootHash(sha, b, d) ==> multiset(a) == multiset(b)
  {
    NodesCommute(sha);
    CollisionFreeBindsPairs(sha, a, b, d);
    RootBindsUpToSwaps(NodeFn(sha), a, b, d);
  }
}
