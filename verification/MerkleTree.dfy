/** The tree object of attestation/merkle.py, with its loops. */
module MerkleTree {
  import opened Options
  import opened Bytes
  import opened Trees
  import opened Merkle

  /** The leaf layer of `leaves`: their hashes, then just enough empty leaves to reach a power of two. */
  ghost predicate IsPadded(sha: HashFn, leaves: seq<seq<byte>>, layer: seq<Digest>, d: nat) {
    && |leaves| <= |layer| == Pow2(d)
    && (d > 0 ==> Pow2(d - 1) < |leaves|)
    && forall i :: 0 <= i < |layer| ==> layer[i] == sha(if i < |leaves| then leaves[i] else [])
  }

  /** What stands beside place `j` of a layer, with the side it stands on. */
  predicate IsBeside(layer: seq<Digest>, j: nat, step: Step) {
    if j % 2 == 0 then j + 1 < |layer| && step == (layer[j + 1], "right")
    else j - 1 < |layer| && step == (layer[j - 1], "left")
  }

  lemma ProofIsBeside(sha: HashFn, layer: seq<Digest>, d: nat, i: nat, k: nat)
    requires |layer| == Pow2(d) && i < |layer| && k < d
    ensures IsBeside(Layers(NodeFn(sha), layer, d)[k], Ancestor(i, k), ProofFor(sha, layer, d, i)[k])
  {
    SiblingBesideAncestor(NodeFn(sha), layer, d, i, k);
    TaggedAt(TagFn(), Siblings(NodeFn(sha), layer, d, i), k);
  }

  lemma ProofStandsBeside(sha: HashFn, layers: seq<seq<Digest>>, d: nat, i: nat)
    requires |layers| == d + 1 && |layers[0]| == Pow2(d) && layers == Layers(NodeFn(sha), layers[0], d)
    requires i < |layers[0]|
    ensures AllBeside(layers, d, i, ProofFor(sha, layers[0], d, i))
  {
    forall k | 0 <= k < d ensures IsBeside(layers[k], Ancestor(i, k), ProofFor(sha, layers[0], d, i)[k]) {
      ProofIsBeside(sha, layers[0], d, i, k);
    }
  }

  /** One step for each layer but the root: what stands beside the ancestor there, and on which side. */
  predicate AllBeside(layers: seq<seq<Digest>>, d: nat, i: nat, proof: seq<Step>) {
    && |proof| == d <= |layers|
    && forall k :: 0 <= k < d ==> IsBeside(layers[k], Ancestor(i, k), proof[k])
  }

  class MerkleTree {
    const sha: HashFn
    var layers: seq<seq<Digest>>
    ghost var depth: nat

    ghost predicate Valid()
      reads this
    {
      |layers| == depth + 1 && |layers[0]| == Pow2(depth) && layers == Layers(NodeFn(sha), layers[0], depth)
    }

    constructor (sha: HashFn, leaves: seq<seq<byte>>)
      ensures Valid() && this.sha == sha && IsPadded(sha, leaves, layers[0], depth)
    {
      this.sha := sha;
      var all: seq<seq<Digest>> := [[sha([])]];
      ghost var d := 0;
      if leaves != [] {
        var leafHashes: seq<Digest> := [];
        for i := 0 to |leaves|
          invariant |leafHashes| == i && forall k :: 0 <= k < i ==> leafHashes[k] == sha(leaves[k])
        {
          leafHashes := leafHashes + [sha(leaves[i])];
        }
        var nextPow2 := 1;
        while nextPow2 < |leafHashes|
          invariant nextPow2 == Pow2(d) && (d > 0 ==> Pow2(d - 1) < |leafHashes|)
          decreases |leafHashes| - nextPow2
        {
          nextPow2 := 2 * nextPow2;
          d := d + 1;
        }
        while |leafHashes| < nextPow2
          invariant |leaves| <= |leafHashes| <= nextPow2
          invariant forall k :: 0 <= k < |leafHashes| ==> leafHashes[k] == sha(if k < |leaves| then leaves[k] else [])
        {
          leafHashes := leafHashes + [sha([])];
        }
        all := BuildLayers(NodeFn(sha), leafHashes, d);
      }
      layers := all;
      depth := d;
    }

    method GetRoot() returns (r: Digest)
      requires Valid()
      ensures r == RootHash(sha, layers[0], depth)
    {
      LayerFacts(NodeFn(sha), layers[0], depth, depth);
      r := layers[|layers| - 1][0];
    }

    /** The sibling at each layer below the root; an index outside the leaf layer raises. */
    method GetProof(leafIndex: int) returns (r: Option<seq<Step>>)
      requires Valid()
      ensures r.None? <==> !(0 <= leafIndex < |layers[0]|)
      ensures r.Some? ==> r.value == ProofFor(sha, layers[0], depth, leafIndex)
      ensures r.Some? ==> AllBeside(layers, depth, leafIndex, r.value)
      ensures r.Some? ==> Climb(VerifyFn(sha), layers[0][leafIndex], r.value) == Some(RootHash(sha, layers[0], depth))
    {
      if leafIndex < 0 || leafIndex >= |layers[0]| {
        return None;
      }
      var proof := BuildProof(NodeFn(sha), TagFn(), layers, depth, leafIndex);
      InclusionProofsComplete(sha, layers[0], depth, leafIndex);
      ProofStandsBeside(sha, layers, depth, leafIndex);
      return Some(proof);
    }

    /** Any string is taken for a leaf; `None` when one on the way is not hexadecimal, which raises. */
    static method VerifyProof(sha: HashFn, leafHash: string, proof: seq<Step>, root: string) returns (r: Option<bool>)
      ensures var top := Climb(VerifyFn(sha), leafHash, proof);
              r == if top.None? then None else Some(top.value == root)
    {
      var current := RunProof(VerifyFn(sha), leafHash, proof);
      return if current.None? then None else Some(current.value == root);
    }
  }
}
