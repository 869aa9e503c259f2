/** Going on from a frontier: the roots that follow depend on the leaves alone, not on how the frontier came about. */
module FrontierRuns {
  import opened Bits
  import opened Hashing
  import opened CompleteTree
  import opened RootBuilders

  /** The lowest clear bit of n below a height, or the height. */
  function FreeSlot(n: nat, height: nat, from: nat := 0): (f: nat)
    requires from <= height && Ones(n, from)
    ensures from <= f <= height && Ones(n, f)
    ensures f < height ==> !Bit(n, f)
    decreases height - from
  {
    if from == height || !Bit(n, from) then from else FreeSlot(n, height, from + 1)
  }

  /** The frontier in memory after one more leaf. */
  function Absorbed(siblings: seq<Digest>, n: nat, x: Digest): (r: seq<Digest>)
    ensures |r| == |siblings|
  {
    var f := FreeSlot(n, |siblings|);
    if f < |siblings| then siblings[f := FrontierClimb(siblings, n, x, f)] else siblings
  }

  /** The roots met while adding leaves on top of n others, from memory alone. */
  function RootsFrom(siblings: seq<Digest>, n: nat, xs: seq<Digest>): (r: seq<Digest>)
    ensures |r| == |xs|
    decreases |xs|
  {
    if xs == [] then []
    else [FrontierClimb(siblings, n, xs[0], |siblings|)] + RootsFrom(Absorbed(siblings, n, xs[0]), n + 1, xs[1..])
  }

  lemma AbsorbedIsFrontier(s: seq<Digest>, siblings: seq<Digest>, height: nat, x: Digest)
    requires Frontier(s, siblings, height)
    ensures Frontier(s + [x], Absorbed(siblings, |s|, x), height)
  {
    var f := FreeSlot(|s|, height);
    if f < height {
      FrontierClimbIsNode(s, siblings, height, x, f);
      FrontierAdvances(s, siblings, height, x, f);
    } else {
      FrontierFull(s, siblings, height, x);
    }
  }

  lemma SplitFirst(s: seq<Digest>, xs: seq<Digest>, n: nat)
    requires 1 <= n <= |xs|
    ensures (s + [xs[0]]) + xs[1..][..n - 1] == s + xs[..n]
  {
  }

  /** From any frontier of some leaves, rebuilt or kept, adding leaves gives the roots of never having stopped. */
  lemma {:induction false} ContinuesAsNeverStopped(s: seq<Digest>, siblings: seq<Digest>, height: nat,
                                                   xs: seq<Digest>, k: nat)
    requires Frontier(s, siblings, height) && |s| + |xs| <= Pow2(height) && k < |xs|
    ensures RootsFrom(siblings, |s|, xs)[k] == Root(s + xs[..k + 1], height)
    decreases |xs|
  {
    var x, rest := xs[0], xs[1..];
    if k == 0 {
      ShrVanishes(|s|, height);
      FrontierClimbIsNode(s, siblings, height, x, height);
      assert xs[..1] == [x];
    } else {
      AbsorbedIsFrontier(s, siblings, height, x);
      ContinuesAsNeverStopped(s + [x], Absorbed(siblings, |s|, x), height, rest, k - 1);
      SplitFirst(s, xs, k + 1);
    }
  }

  /** The frontier taken from the proof of leaf n goes on to every later root of the tree the proof came from. */
  lemma ProofFrontierContinues(s: seq<Digest>, n: nat, height: nat, frontier: seq<Digest>, k: nat)
    requires n + k < |s| <= Pow2(height) && |frontier| == height
    requires forall h :: 0 <= h < height ==> frontier[h] == if Bit(n, h) then Proof(s, n, height)[h] else HASH_ZERO
    ensures FrontierClimb(frontier, n, HASH_ZERO, height) == Root(s[..n], height)
    ensures RootsFrom(frontier, n, s[n..])[k] == Root(s[..n + k + 1], height)
  {
    ProofHoldsFrontier(s, n, height, frontier);
    FrontierGivesRoot(s[..n], frontier, height);
    ContinuesAsNeverStopped(s[..n], frontier, height, s[n..], k);
    assert s[..n] + s[n..][..k + 1] == s[..n + k + 1];
  }
}
