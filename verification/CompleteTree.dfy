/**
  The reference for every form of the exit tree: the complete binary tree over a list of leaves,
  padded with zero leaves. `Node(s, h, k)` is the hash of the k-th subtree of height h.
 */
module CompleteTree {
  import opened Bits
  import opened Hashing

  function LeafAt(s: seq<Digest>, i: nat): Digest
  {
    if i < |s| then s[i] else HASH_ZERO
  }

  function Node(s: seq<Digest>, h: nat, k: nat): Digest
  {
    if h == 0 then LeafAt(s, k) else Pair(Node(s, h - 1, 2 * k), Node(s, h - 1, 2 * k + 1))
  }

  function Root(s: seq<Digest>, height: nat): Digest
  {
    Node(s, height, 0)
  }

  /** Three leaves of a tree of height two, in their places. */
  lemma SmallTree(a: Digest, b: Digest, c: Digest)
    ensures Root([a, b, c], 2) == Pair(Pair(a, b), Pair(c, HASH_ZERO))
  {
    var s := [a, b, c];
    assert Node(s, 1, 0) == Pair(LeafAt(s, 0), LeafAt(s, 1));
    assert Node(s, 1, 1) == Pair(LeafAt(s, 2), LeafAt(s, 3));
  }

  /** A subtree depends only on the leaves below it. */
  lemma {:induction false} NodeLocal(a: seq<Digest>, b: seq<Digest>, h: nat, k: nat)
    requires forall i: nat :: Shr(i, h) == k ==> LeafAt(a, i) == LeafAt(b, i)
    ensures Node(a, h, k) == Node(b, h, k)
  {
    if h == 0 {
      assert Shr(k, 0) == k;
    } else {
      forall i: nat | Shr(i, h - 1) == 2 * k || Shr(i, h - 1) == 2 * k + 1
        ensures LeafAt(a, i) == LeafAt(b, i)
      {
        assert Shr(i, h) == k;
      }
      NodeLocal(a, b, h - 1, 2 * k);
      NodeLocal(a, b, h - 1, 2 * k + 1);
    }
  }

  lemma {:induction false} EmptyNode(h: nat, k: nat)
    ensures Node([], h, k) == ZeroHash(h)
  {
    if h > 0 {
      EmptyNode(h - 1, 2 * k);
      EmptyNode(h - 1, 2 * k + 1);
    }
  }

  /** Right of the last leaf there are only empty subtrees. */
  lemma NodeBeyond(s: seq<Digest>, h: nat, k: nat)
    requires |s| == 0 || Shr(|s| - 1, h) < k
    ensures Node(s, h, k) == ZeroHash(h)
  {
  }

  /** Appending a leaf leaves every subtree it is not below unchanged. */
  lemma NodeAppend(s: seq<Digest>, x: Digest, h: nat, k: nat)
    requires k != Shr(|s|, h)
    ensures Node(s + [x], h, k) == Node(s, h, k)
  {
  }

  /** A subtree that ends before leaf n is the same in the tree of the first n leaves. */
  lemma NodeTruncate(s: seq<Digest>, n: nat, h: nat, k: nat)
    requires n <= |s| && k < Shr(n, h)
    ensures Node(s[..n], h, k) == Node(s, h, k)
  {
  }

  /** Two padded lists with the same subtree hash have the same leaves below it. */
  lemma {:induction false} NodeInjective(a: seq<Digest>, b: seq<Digest>, h: nat, k: nat, i: nat)
    requires Node(a, h, k) == Node(b, h, k) && Shr(i, h) == k
    ensures LeafAt(a, i) == LeafAt(b, i)
  {
    if h > 0 { NodeInjective(a, b, h - 1, Shr(i, h - 1), i); }
  }

  // ---------- Merkle proofs ----------

  /** The sibling subtree of leaf i's ancestor at level h. */
  function SiblingNode(s: seq<Digest>, i: nat, h: nat): Digest
  {
    Node(s, h, Sibling(Shr(i, h)))
  }

  function Proof(s: seq<Digest>, i: nat, height: nat): (p: seq<Digest>)
    ensures |p| == height
  {
    seq(height, (h: nat) => SiblingNode(s, i, h))
  }

  /** The hash reached from x after h levels of the proof. */
  function Climb(x: Digest, proof: seq<Digest>, i: nat, h: nat): Digest
    requires h <= |proof|
  {
    if h == 0 then x
    else if Bit(i, h - 1) then Pair(proof[h - 1], Climb(x, proof, i, h - 1))
    else Pair(Climb(x, proof, i, h - 1), proof[h - 1])
  }

  /** Completeness: the proof of leaf i climbs through leaf i's own ancestors. */
  lemma {:induction false} ProofClimbs(s: seq<Digest>, i: nat, height: nat, h: nat)
    requires h <= height
    ensures Climb(LeafAt(s, i), Proof(s, i, height), i, h) == Node(s, h, Shr(i, h))
  {
    if h > 0 { ProofClimbs(s, i, height, h - 1); }
  }

  /** Soundness: a leaf and a proof that reach the ancestor of leaf i are leaf i and its proof. */
  lemma {:induction false} ClimbBinds(x: Digest, proof: seq<Digest>, s: seq<Digest>, i: nat, h: nat)
    requires h <= |proof|
    requires Climb(x, proof, i, h) == Node(s, h, Shr(i, h))
    ensures x == LeafAt(s, i)
    ensures forall g :: 0 <= g < h ==> proof[g] == SiblingNode(s, i, g)
  {
    if h > 0 {
      ClimbBinds(x, proof, s, i, h - 1);
    }
  }

  /** A leaf verifies at index i against the root exactly when it is leaf i with its own proof. */
  lemma ProofVerifiesExactly(x: Digest, proof: seq<Digest>, s: seq<Digest>, i: nat, height: nat)
    requires |proof| == height && i < Pow2(height)
    ensures Climb(x, proof, i, height) == Root(s, height) <==> x == LeafAt(s, i) && proof == Proof(s, i, height)
  {
    ShrVanishes(i, height);
    ProofClimbs(s, i, height, height);
    if Climb(x, proof, i, height) == Root(s, height) {
      ClimbBinds(x, proof, s, i, height);
    }
  }

  // ---------- Frontiers ----------

  /** The frontier invariant: on set bits of the leaf count, the full subtree left of the next leaf. */
  ghost predicate Frontier(s: seq<Digest>, siblings: seq<Digest>, height: nat)
  {
    && |siblings| == height
    && forall h :: 0 <= h < height && Bit(|s|, h) ==> siblings[h] == Node(s, h, Shr(|s|, h) - 1)
  }

  /** The hash reached at level h when x is placed at leaf n on top of a frontier of n leaves. */
  function FrontierClimb(siblings: seq<Digest>, n: nat, x: Digest, h: nat): Digest
    requires h <= |siblings|
  {
    if h == 0 then x
    else if Bit(n, h - 1) then Pair(siblings[h - 1], FrontierClimb(siblings, n, x, h - 1))
    else Pair(FrontierClimb(siblings, n, x, h - 1), ZeroHash(h - 1))
  }

  /** A frontier carries enough to place one more leaf: no other stored hash is needed. */
  lemma {:induction false} FrontierClimbIsNode(s: seq<Digest>, siblings: seq<Digest>, height: nat, x: Digest, h: nat)
    requires Frontier(s, siblings, height) && h <= height
    ensures FrontierClimb(siblings, |s|, x, h) == Node(s + [x], h, Shr(|s|, h))
  {
    if h > 0 {
      FrontierClimbIsNode(s, siblings, height, x, h - 1);
      var k := Shr(|s|, h - 1);
      if Bit(|s|, h - 1) {
        NodeAppend(s, x, h - 1, k - 1);
      } else {
        NodeBeyond(s + [x], h - 1, k + 1);
      }
    }
  }

  /** Any frontier of s, whatever its free slots hold, recomputes the root of s. */
  lemma FrontierGivesRoot(s: seq<Digest>, siblings: seq<Digest>, height: nat)
    requires Frontier(s, siblings, height) && |s| < Pow2(height)
    ensures FrontierClimb(siblings, |s|, HASH_ZERO, height) == Root(s, height)
  {
    ShrVanishes(|s|, height);
    FrontierClimbIsNode(s, siblings, height, HASH_ZERO, height);
    NodeLocal(s + [HASH_ZERO], s, height, 0);
  }

  /** The frontier after placing x: only the lowest clear bit's slot changes. */
  lemma {:induction false} FrontierAdvances(s: seq<Digest>, siblings: seq<Digest>, height: nat, x: Digest, free: nat)
    requires Frontier(s, siblings, height)
    requires free < height && Ones(|s|, free) && !Bit(|s|, free)
    ensures Frontier(s + [x], siblings[free := Node(s + [x], free, Shr(|s|, free))], height)
  {
    var n, t := |s|, s + [x];
    var next := siblings[free := Node(t, free, Shr(n, free))];
    forall h | 0 <= h < height && Bit(n + 1, h)
      ensures next[h] == Node(t, h, Shr(n + 1, h) - 1)
    {
      Increment(n, h);
      if h < free {
        OnesShorter(n, h + 1, free);
      } else if h > free {
        if Ones(n, h) { OnesShorter(n, free + 1, h); }
        NodeAppend(s, x, h, Shr(n, h) - 1);
      }
    }
  }

  /** Changing a slot whose count bit is clear keeps the frontier. */
  lemma FrontierFreeSlot(s: seq<Digest>, siblings: seq<Digest>, height: nat, free: nat, v: Digest)
    requires Frontier(s, siblings, height) && free < height && !Bit(|s|, free)
    ensures Frontier(s, siblings[free := v], height)
  {
  }

  /** When every bit below the height is set, the new leaf fills the tree and no slot is constrained. */
  lemma FrontierFull(s: seq<Digest>, siblings: seq<Digest>, height: nat, x: Digest)
    requires |siblings| == height && Ones(|s|, height)
    ensures Frontier(s + [x], siblings, height)
  {
    var n := |s + [x]|;
    forall h | 0 <= h < height
      ensures !Bit(n, h)
    {
      Increment(|s|, h);
      OnesShorter(|s|, h + 1, height);
    }
  }
}
