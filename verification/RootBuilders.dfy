/**
  The level-by-level forms of the tree: buildMTRoot and ComputeSiblings build every level bottom-up,
  calculateRoot climbs a proof, computeFrontierFromProof turns a proof into a frontier.
 */
module RootBuilders {
  import opened Bits
  import opened Hashing
  import opened CompleteTree
  import opened Outcomes

  datatype TreeError = ManyRoots | IndexOutOfBounds | InnerIndexOutOfBounds | ProofLength

  /** A stored tree node: parent hash and its two children. */
  datatype Triple = Triple(parent: Digest, left: Digest, right: Digest)

  /** Index of the last leaf; the empty list counts as one zero leaf. */
  function Last(s: seq<Digest>): nat
  {
    if |s| == 0 then 0 else |s| - 1
  }

  /** `level` holds exactly the subtrees of height h that contain a leaf of s. */
  ghost predicate IsLevel(s: seq<Digest>, level: seq<Digest>, h: nat)
  {
    && |level| == Shr(Last(s), h) + 1
    && forall k :: 0 <= k < |level| ==> level[k] == Node(s, h, k)
  }

  /** A level evened out with the zero hash of its height still holds subtrees of the padded tree. */
  ghost predicate IsEvenLevel(s: seq<Digest>, level: seq<Digest>, h: nat)
  {
    && |level| == 2 * (Shr(Last(s), h + 1) + 1)
    && forall k :: 0 <= k < |level| ==> level[k] == Node(s, h, k)
  }

  method EvenOut(ghost s: seq<Digest>, level: seq<Digest>, h: nat) returns (even: seq<Digest>)
    requires IsLevel(s, level, h)
    ensures IsEvenLevel(s, even, h) && |level| <= |even|
  {
    even := level;
    if |level| % 2 == 1 {
      NodeBeyond(s, h, |level|);
      even := even + [ZeroHash(h)];
    }
  }

  method BuildIntermediate(leaves: seq<Digest>) returns (nodes: seq<Triple>, hashes: seq<Digest>)
    requires |leaves| % 2 == 0
    ensures |nodes| == |hashes| == |leaves| / 2
    ensures forall k :: 0 <= k < |hashes| ==>
              hashes[k] == Pair(leaves[2 * k], leaves[2 * k + 1]) &&
              nodes[k] == Triple(hashes[k], leaves[2 * k], leaves[2 * k + 1])
  {
    nodes, hashes := [], [];
    var i := 0;
    while i < |leaves|
      invariant 0 <= i <= |leaves| && i % 2 == 0
      invariant |nodes| == |hashes| == i / 2
      invariant forall k :: 0 <= k < |hashes| ==>
                  hashes[k] == Pair(leaves[2 * k], leaves[2 * k + 1]) &&
                  nodes[k] == Triple(hashes[k], leaves[2 * k], leaves[2 * k + 1])
    {
      var left, right := i, i + 1;
      var hash := Pair(leaves[left], leaves[right]);
      nodes := nodes + [Triple(hash, leaves[left], leaves[right])];
      hashes := hashes + [hash];
      i := i + 2;
    }
  }

  /** One level up: the nodes built are the parents of the next level. */
  method BuildLevel(ghost s: seq<Digest>, level: seq<Digest>, h: nat) returns (ns: seq<Triple>, next: seq<Digest>)
    requires IsEvenLevel(s, level, h)
    ensures IsLevel(s, next, h + 1)
    ensures |ns| == |next| && forall k :: 0 <= k < |ns| ==> ns[k].parent == next[k]
  {
    ns, next := BuildIntermediate(level);
  }

  /** buildMTRoot: fails exactly on more leaves than the tree holds, and otherwise gives the padded tree's root. */
  method BuildMTRoot(leaves: seq<Digest>, height: nat) returns (r: Result<Digest, TreeError>)
    ensures r.Ok? <==> height >= 1 && |leaves| <= Pow2(height)
    ensures r.Ok? ==> r.value == Root(leaves, height)
  {
    var level := leaves;
    var ns: seq<Triple> := [];
    if |level| == 0 {
      level := level + [ZeroHash(0)];
    }
    for h := 0 to height
      invariant IsLevel(leaves, level, h)
      invariant if h == 0 then ns == [] else |ns| == |level|
      invariant forall k :: 0 <= k < |ns| ==> ns[k].parent == level[k]
    {
      level := EvenOut(leaves, level, h);
      ns, level := BuildLevel(leaves, level, h);
    }
    ShrVanishes(Last(leaves), height);
    if |ns| != 1 {
      return Err(ManyRoots);
    }
    return Ok(ns[0].parent);
  }

  /** ComputeSiblings halves the index through floating point and truncation. */
  function FloatHalf(i: nat): (r: nat)
    ensures r == i / 2
  {
    (i as real / 2.0).Floor
  }

  /** The neighbour of a node in an evened-out level; it is never out of bounds. */
  method PickSibling(ghost s: seq<Digest>, level: seq<Digest>, index: nat, ghost h: nat, ghost i: nat)
      returns (r: Option<Digest>)
    requires IsEvenLevel(s, level, h) && index == Shr(i, h) < |level|
    ensures r == Some(SiblingNode(s, i, h))
  {
    if index % 2 == 1 {
      return Some(level[index - 1]);
    }
    if index + 1 >= |level| {
      return None;
    }
    return Some(level[index + 1]);
  }

  /**
    ComputeSiblings: fails exactly when the index has no leaf or the leaves do not fit, never through
    the inner bounds check, and otherwise returns the proof of that leaf and buildMTRoot's root.
   */
  method ComputeSiblings(rollupIndex: nat, leaves: seq<Digest>, height: nat)
    returns (r: Result<(seq<Digest>, Digest), TreeError>)
    ensures r.Ok? <==> rollupIndex <= Last(leaves) && height >= 1 && |leaves| <= Pow2(height)
    ensures r.Ok? ==> r.value == (Proof(leaves, rollupIndex, height), Root(leaves, height))
    ensures r.Err? ==> r.error == if rollupIndex > Last(leaves) then IndexOutOfBounds else ManyRoots
  {
    var level := leaves;
    var ns: seq<Triple> := [];
    if |level| == 0 {
      level := level + [ZeroHash(0)];
    }
    if rollupIndex >= |level| {
      return Err(IndexOutOfBounds);
    }
    var siblings: seq<Digest> := [];
    var index := rollupIndex;
    for h := 0 to height
      invariant IsLevel(leaves, level, h)
      invariant if h == 0 then ns == [] else |ns| == |level|
      invariant forall k :: 0 <= k < |ns| ==> ns[k].parent == level[k]
      invariant index == Shr(rollupIndex, h) < |level|
      invariant |siblings| == h
      invariant forall g :: 0 <= g < h ==> siblings[g] == SiblingNode(leaves, rollupIndex, g)
    {
      level := EvenOut(leaves, level, h);
      var sibling := PickSibling(leaves, level, index, h, rollupIndex);
      if sibling.None? {
        return Err(InnerIndexOutOfBounds);
      }
      siblings := siblings + [sibling.value];
      ns, level := BuildLevel(leaves, level, h);
      index := FloatHalf(index);
    }
    ShrVanishes(Last(leaves), height);
    if |ns| != 1 {
      return Err(ManyRoots);
    }
    assert siblings == Proof(leaves, rollupIndex, height);
    return Ok((siblings, ns[0].parent));
  }

  method CalculateRoot(leafHash: Digest, smtProof: seq<Digest>, index: nat, height: nat) returns (root: Digest)
    requires height <= |smtProof|
    ensures root == Climb(leafHash, smtProof, index, height)
  {
    root := leafHash;
    for h := 0 to height
      invariant root == Climb(leafHash, smtProof, index, h)
    {
      if Bit(index, h) {
        root := Pair(smtProof[h], root);
      } else {
        root := Pair(root, smtProof[h]);
      }
    }
  }

  /** computeFrontierFromProof: from the proof of leaf n in any larger tree, a frontier of its first n leaves. */
  method ComputeFrontierFromProof(n: nat, proof: seq<Digest>, height: nat)
    returns (r: Result<seq<Digest>, TreeError>)
    ensures r.Ok? <==> |proof| == height
    ensures r.Ok? ==> |r.value| == height
    ensures r.Ok? ==> forall h :: 0 <= h < height ==> r.value[h] == if Bit(n, h) then proof[h] else HASH_ZERO
    ensures r.Ok? ==> forall s: seq<Digest> :: n <= |s| && proof == Proof(s, n, height) ==>
              Frontier(s[..n], r.value, height)
  {
    if |proof| != height {
      return Err(ProofLength);
    }
    var frontier := [];
    for i := 0 to height
      invariant |frontier| == i
      invariant forall h :: 0 <= h < i ==> frontier[h] == if Bit(n, h) then proof[h] else HASH_ZERO
    {
      if Bit(n, i) {
        frontier := frontier + [proof[i]];
      } else {
        frontier := frontier + [HASH_ZERO];
      }
    }
    forall s: seq<Digest> | n <= |s| && proof == Proof(s, n, height)
      ensures Frontier(s[..n], frontier, height)
    {
      ProofHoldsFrontier(s, n, height, frontier);
    }
    return Ok(frontier);
  }

  /** On the set bits of n, the proof of leaf n holds the full subtrees left of it. */
  lemma ProofHoldsFrontier(s: seq<Digest>, n: nat, height: nat, frontier: seq<Digest>)
    requires n <= |s| && |frontier| == height
    requires forall h :: 0 <= h < height && Bit(n, h) ==> frontier[h] == Proof(s, n, height)[h]
    ensures Frontier(s[..n], frontier, height)
  {
    forall h | 0 <= h < height && Bit(n, h)
      ensures frontier[h] == Node(s[..n], h, Shr(n, h) - 1)
    {
      NodeTruncate(s, n, h, Shr(n, h) - 1);
    }
  }
}
