/** The proof endpoints: node lookups through an LRU cache, Merkle proofs, and claim proofs over both trees. */
module ProofServer {
  import opened Bits
  import opened Hashing
  import opened CompleteTree
  import opened Outcomes
  import opened Storage
  import opened TableInvariants
  import opened Database
  import opened ExitTree
  import opened RootBuilders
  import opened RollupExits

  datatype Entry = Entry(key: Digest, left: Digest, right: Digest)

  /** A bounded cache, least recently used first. */
  class LruCache {
    const size: nat
    var entries: seq<Entry>

    ghost predicate Valid()
      reads this
    {
      && 1 <= size && |entries| <= size
      && forall i, j :: 0 <= i < j < |entries| ==> entries[i].key != entries[j].key
    }

    constructor (size: nat)
      requires size >= 1
      ensures this.size == size && entries == [] && Valid()
    {
      this.size := size;
      entries := [];
    }

    /** A hit moves the entry to the most recent place; no entry is gained or lost. */
    method Get(key: Digest) returns (r: Option<Entry>)
      requires Valid()
      modifies this
      ensures Valid() && forall e :: e in entries <==> e in old(entries)
      ensures r.None? <==> forall e :: e in old(entries) ==> e.key != key
      ensures r.None? ==> entries == old(entries)
      ensures r.Some? ==> r.value in old(entries) && r.value.key == key
      ensures r.Some? ==> |entries| > 0 && entries[|entries| - 1] == r.value
    {
      for i := 0 to |entries|
        invariant forall j :: 0 <= j < i ==> entries[j].key != key
        invariant entries == old(entries)
      {
        if entries[i].key == key {
          var e := entries[i];
          entries := entries[..i] + entries[i + 1..] + [e];
          Rotated(old(entries), i);
          return Some(e);
        }
      }
      return None;
    }

    /** Adds a missing key as the most recent entry; the oldest goes only when the cache is full. */
    method Add(e: Entry)
      requires Valid() && forall f :: f in entries ==> f.key != e.key
      modifies this
      ensures Valid()
      ensures entries == (if |old(entries)| < size then old(entries) else old(entries)[1..]) + [e]
    {
      if |entries| < size {
        entries := entries + [e];
      } else {
        entries := entries[1..] + [e];
      }
    }
  }

  lemma Rotated(s: seq<Entry>, i: nat)
    requires i < |s| && forall j, k :: 0 <= j < k < |s| ==> s[j].key != s[k].key
    ensures var t := s[..i] + s[i + 1..] + [s[i]];
            && |t| == |s| && (forall e :: e in t <==> e in s)
            && forall j, k :: 0 <= j < k < |t| ==> t[j].key != t[k].key
  {
  }

  // ---------- proofs read off a digest ----------

  /** Siblings met from a root down to leaf `index`, leaf level first; None when a node has no children. */
  function TermProof(root: Digest, index: nat, h: nat): Option<seq<Digest>>
  {
    if h == 0 then Some([])
    else if root.Word? then None
    else
      match TermProof(if Bit(index, h - 1) then root.right else root.left, index, h - 1)
      case None => None
      case Some(p) => Some(p + [if Bit(index, h - 1) then root.left else root.right])
  }

  /** The digest below the root at leaf `index`. */
  function TermLeaf(root: Digest, index: nat, h: nat): Digest
  {
    if h == 0 || root.Word? then root
    else TermLeaf(if Bit(index, h - 1) then root.right else root.left, index, h - 1)
  }

  /** Every node from the root down to above leaf `index` has a stored row. */
  ghost predicate PathStored(t: Tables, root: Digest, index: nat, h: nat)
  {
    h == 0 ||
    (root.Pair? && HasKey(t, root) && PathStored(t, if Bit(index, h - 1) then root.right else root.left, index, h - 1))
  }

  /** A proof read off a root climbs back to that root from the leaf below it. */
  lemma {:induction false} TermProofClimbs(root: Digest, index: nat, h: nat)
    requires TermProof(root, index, h).Some?
    ensures |TermProof(root, index, h).value| == h
    ensures Climb(TermLeaf(root, index, h), TermProof(root, index, h).value, index, h) == root
  {
    if h > 0 {
      var child := if Bit(index, h - 1) then root.right else root.left;
      TermProofClimbs(child, index, h - 1);
      var p, q := TermProof(child, index, h - 1).value, TermProof(root, index, h).value;
      ClimbPrefix(TermLeaf(child, index, h - 1), p, q, index, h - 1);
    }
  }

  lemma {:induction false} ClimbPrefix(x: Digest, p: seq<Digest>, q: seq<Digest>, i: nat, h: nat)
    requires h <= |p| && h <= |q| && forall g :: 0 <= g < h ==> p[g] == q[g]
    ensures Climb(x, p, i, h) == Climb(x, q, i, h)
  {
    if h > 0 { ClimbPrefix(x, p, q, i, h - 1); }
  }

  /** On a tree of leaves, the proof and leaf read off the root are those of the tree. */
  lemma {:induction false} TermProofOfTree(s: seq<Digest>, index: nat, h: nat)
    ensures TermProof(Node(s, h, Shr(index, h)), index, h) == Some(Proof(s, index, h))
    ensures TermLeaf(Node(s, h, Shr(index, h)), index, h) == LeafAt(s, index)
  {
    if h > 0 {
      TermProofOfTree(s, index, h - 1);
      assert Proof(s, index, h) == Proof(s, index, h - 1) + [SiblingNode(s, index, h - 1)];
    }
  }

  /** `root` is the root of the first j+1 deposits of a network. */
  ghost predicate RecordedRoot(t: Tables, net: Network, j: nat, root: Digest, height: nat)
  {
    j < |DepositsOf(t, net)| && root == Root(Leaves(DepositsOf(t, net))[..j + 1], height)
  }

  /** Under a recorded root, every path to a leaf that existed then is stored, whatever was deleted since. */
  lemma {:induction false} RecordedPathStored(t: Tables, net: Network, j: nat, height: nat, i: nat, h: nat)
    requires TreeOk(t, net, height) && i <= j < |DepositsOf(t, net)| && h <= height
    ensures PathStored(t, Node(Leaves(DepositsOf(t, net))[..j + 1], h, Shr(i, h)), i, h)
  {
    if h > 0 {
      AncestorStored(t, net, height, i, j, h);
      RecordedPathStored(t, net, j, height, i, h - 1);
    }
  }

  /** Vector i has this root, and its leaf for the rollup is the root of the rollup's first j+1 deposits. */
  ghost predicate RollupCovers(t: Tables, batches: seq<Batch>, i: nat, root: Digest, net: Network, j: nat, height: nat)
    requires net > 0
  {
    && i < |batches| && batches[i].root == root && net <= |batches[i].leaves|
    && RecordedRoot(t, net, j, batches[i].leaves[net - 1], height)
  }

  /** The exit roots of a global exit root. */
  datatype ExitRoots = ExitRoots(mainnet: Digest, rollup: Digest)

  datatype ClaimProof = ClaimProof(roots: ExitRoots, merkle: seq<Digest>, rollup: seq<Digest>)

  /** What the service knows of a deposit besides its leaf, and whether only final exit roots count. */
  datatype ClaimFlags = ClaimFlags(ready: bool, destination: Network, finalizedGER: bool)

  /** The claimed leaf climbs to the mainnet root, or to its rollup's leaf and on to the rollup root. */
  ghost predicate ClaimVerifies(p: ClaimProof, leaf: Digest, depositCnt: nat, net: Network, height: nat)
  {
    && |p.merkle| == height
    && if net == 0
       then p.rollup == seq(32, _ => HASH_ZERO) && Climb(leaf, p.merkle, depositCnt, height) == p.roots.mainnet
       else && |p.rollup| == height
            && Climb(Climb(leaf, p.merkle, depositCnt, height), p.rollup, net - 1, height) == p.roots.rollup
  }

  /** The exit roots cover the first j+1 deposits of a network, for a rollup through the i-th recorded vector. */
  ghost predicate Covered(t: Tables, batches: seq<Batch>, i: nat, roots: ExitRoots, net: Network, j: nat, height: nat)
  {
    if net == 0 then RecordedRoot(t, 0, j, roots.mainnet, height)
    else RollupCovers(t, batches, i, roots.rollup, net, j, height)
  }

  /**
    A claim that verifies under exit roots which cover a deposit is the claim of that deposit: its leaf, and the
    proofs, can be no other.
   */
  lemma ClaimBinds(p: ClaimProof, leaf: Digest, depositCnt: nat, net: Network, height: nat, t: Tables,
                   batches: seq<Batch>, i: nat, j: nat)
    requires ClaimVerifies(p, leaf, depositCnt, net, height) && Covered(t, batches, i, p.roots, net, j, height)
    requires depositCnt <= j && depositCnt < Pow2(height)
    requires net > 0 ==> net <= Pow2(height) && BatchOk(batches[i], height)
    ensures leaf == DepositsOf(t, net)[depositCnt].leaf
    ensures p.merkle == Proof(Leaves(DepositsOf(t, net))[..j + 1], depositCnt, height)
    ensures net > 0 ==> p.rollup == Proof(batches[i].leaves, net - 1, height)
  {
    var s := Leaves(DepositsOf(t, net))[..j + 1];
    if net > 0 {
      RollupPartBinds(p, leaf, depositCnt, net, height, t, batches, i, j);
    }
    ProofVerifiesExactly(leaf, p.merkle, s, depositCnt, height);
  }

  lemma RollupPartBinds(p: ClaimProof, leaf: Digest, depositCnt: nat, net: Network, height: nat, t: Tables,
                        batches: seq<Batch>, i: nat, j: nat)
    requires ClaimVerifies(p, leaf, depositCnt, net, height) && Covered(t, batches, i, p.roots, net, j, height)
    requires 0 < net <= Pow2(height) && BatchOk(batches[i], height)
    ensures Climb(leaf, p.merkle, depositCnt, height) == batches[i].leaves[net - 1]
    ensures p.rollup == Proof(batches[i].leaves, net - 1, height)
  {
    ProofVerifiesExactly(Climb(leaf, p.merkle, depositCnt, height), p.rollup, batches[i].leaves, net - 1, height);
  }

  datatype LETData = LETData(root: Digest, leaf: Digest, proof: seq<Digest>, frontier: seq<Digest>)

  class ProofService {
    const store: Connection
    const cache: LruCache
    const height: nat

    constructor (store: Connection, height: nat, cacheSize: nat)
      requires height >= 1 && cacheSize >= 1
      ensures this.store == store && this.height == height && fresh(cache)
      ensures Coherent()
    {
      this.store := store;
      this.height := height;
      cache := new LruCache(cacheSize);
    }

    /** Every cached node still hashes to its key; its row may be gone. */
    ghost predicate Coherent()
      reads this, cache
    {
      cache.Valid() && forall e :: e in cache.entries ==> e.key == Pair(e.left, e.right)
    }

    /** Whether from the cache or from the table, the children returned are the children of the hash. */
    method GetNode(parent: Digest) returns (r: Result<(Digest, Digest), StoreError>)
      requires Coherent() && TablesOk(store.committed, store.height)
      modifies cache, store`aborted, store`faults
      ensures Coherent() && old(store.faults) <= store.faults
      ensures r.Ok? ==> parent == Pair(r.value.0, r.value.1)
      ensures HasKey(store.committed, parent) ==> r.Ok? || store.faults > old(store.faults)
    {
      var hit := cache.Get(parent);
      if hit.Some? {
        return Ok((hit.value.left, hit.value.right));
      }
      r := store.Get(parent, false);
      if r.Ok? {
        cache.Add(Entry(parent, r.value.0, r.value.1));
      }
    }

    /**
      A returned proof is the one read off the root alone, so it does not depend on the cache; and a
      proof is returned whenever the path is stored, in particular for every leaf under every
      recorded root.
     */
    method GetProof(index: nat, root: Digest) returns (r: Result<seq<Digest>, StoreError>)
      requires Coherent() && TablesOk(store.committed, store.height)
      modifies cache, store`aborted, store`faults
      ensures Coherent() && old(store.faults) <= store.faults
      ensures r.Ok? ==> TermProof(root, index, height) == Some(r.value)
      ensures r.Ok? ==> |r.value| == height && Climb(TermLeaf(root, index, height), r.value, index, height) == root
      ensures PathStored(store.committed, root, index, height) ==> r.Ok? || store.faults > old(store.faults)
      ensures height == store.height && store.faults == old(store.faults) ==>
                forall net: Network, j: nat :: RecordedRoot(store.committed, net, j, root, height) && index <= j ==>
                  r == Ok(Proof(Leaves(DepositsOf(store.committed, net))[..j + 1], index, height)) &&
                  TermLeaf(root, index, height) == DepositsOf(store.committed, net)[index].leaf
    {
      var siblings: seq<Digest> := [];
      var cur := root;
      var h := height;
      assert TermProof(root, index, height).Some? ==>
          TermProof(root, index, height).value + Reversed([]) == TermProof(root, index, height).value;
      while h > 0
        invariant 0 <= h <= height && |siblings| == height - h
        invariant Coherent() && old(store.faults) <= store.faults
        invariant PathStored(store.committed, root, index, height) ==> PathStored(store.committed, cur, index, h)
        invariant Unwound(root, index, height, cur, h, siblings)
      {
        var node := GetNode(cur);
        if node.Err? {
          RecordedCase(root, index);
          return Err(node.error);
        }
        var (left, right) := node.value;
        h := h - 1;
        UnwindStep(root, index, height, cur, h + 1, siblings);
        if Bit(index, h) {
          siblings := siblings + [left];
          cur := right;
        } else {
          siblings := siblings + [right];
          cur := left;
        }
      }
      var reversed := Reverse(siblings);
      UnwoundProof(root, index, height, cur, siblings, reversed);
      TermProofClimbs(root, index, height);
      RecordedCase(root, index);
      return Ok(reversed);
    }

    lemma RecordedCase(root: Digest, index: nat)
      requires TablesOk(store.committed, store.height)
      ensures height == store.height ==>
                forall net: Network, j: nat :: RecordedRoot(store.committed, net, j, root, height) && index <= j ==>
                  && PathStored(store.committed, root, index, height)
                  && TermProof(root, index, height) ==
                      Some(Proof(Leaves(DepositsOf(store.committed, net))[..j + 1], index, height))
                  && TermLeaf(root, index, height) == DepositsOf(store.committed, net)[index].leaf
    {
      if height == store.height {
        forall net: Network, j: nat | RecordedRoot(store.committed, net, j, root, height) && index <= j
          ensures PathStored(store.committed, root, index, height)
          ensures TermProof(root, index, height) ==
                    Some(Proof(Leaves(DepositsOf(store.committed, net))[..j + 1], index, height))
          ensures TermLeaf(root, index, height) == DepositsOf(store.committed, net)[index].leaf
        {
          assert TreeOk(store.committed, net, height);
          ShrVanishes(index, height);
          RecordedPathStored(store.committed, net, j, height, index, height);
          TermProofOfTree(Leaves(DepositsOf(store.committed, net))[..j + 1], index, height);
        }
      }
    }

    /** The two proofs under given exit roots: in the network's own tree, and in the tree of rollups. */
    method ProveUnder(depositCnt: nat, net: Network, roots: ExitRoots, exits: seq<ExitRow>, ghost batches: seq<Batch>)
      returns (r: Option<ClaimProof>, ghost leaf: Digest)
      requires height >= 1 && Coherent() && TablesOk(store.committed, store.height)
      requires ExitsOk(exits, batches, height)
      modifies cache, store`aborted, store`faults
      ensures Coherent() && old(store.faults) <= store.faults
      ensures r.Some? ==> r.value.roots == roots && ClaimVerifies(r.value, leaf, depositCnt, net, height)
      ensures height == store.height && store.faults == old(store.faults) ==>
                forall i: nat, j: nat ::
                  Covered(store.committed, batches, i, roots, net, j, height) && depositCnt <= j ==>
                  r.Some? && leaf == DepositsOf(store.committed, net)[depositCnt].leaf
    {
      if net == 0 {
        leaf := TermLeaf(roots.mainnet, depositCnt, height);
        var proof := GetProof(depositCnt, roots.mainnet);
        if proof.Err? {
          return None, leaf;
        }
        return Some(ClaimProof(roots, proof.value, seq(32, _ => HASH_ZERO))), leaf;
      }
      leaf := HASH_ZERO;
      var ok := store.Read();
      var rollup := GetRollupExitProof(exits, !ok, net - 1, roots.rollup, height, batches);
      if rollup.Err? {
        return None, leaf;
      }
      var (rollupProof, rollupLeaf) := rollup.value;
      leaf := TermLeaf(rollupLeaf, depositCnt, height);
      var proof := GetProof(depositCnt, rollupLeaf);
      if proof.Err? {
        return None, leaf;
      }
      return Some(ClaimProof(roots, proof.value, rollupProof)), leaf;
    }

    /**
      GetClaimProof. There is an answer only for a stored deposit that is ready and for which exit roots are
      known: the trusted ones for a claim between rollups where only final roots count, else the latest. The
      answer verifies under these roots; and there is one, if no query is refused, whenever they cover the deposit.
     */
    method GetClaimProof(depositCnt: nat, net: Network, flags: ClaimFlags, trusted: Option<ExitRoots>,
                         latest: Option<ExitRoots>, exits: seq<ExitRow>, ghost batches: seq<Batch>)
      returns (r: Option<ClaimProof>, ghost leaf: Digest)
      requires height >= 1 && Coherent() && TablesOk(store.committed, store.height)
      requires ExitsOk(exits, batches, height)
      modifies cache, store`aborted, store`faults
      ensures Coherent() && old(store.faults) <= store.faults
      ensures r.Some? ==>
                && depositCnt < |DepositsOf(store.committed, net)| && flags.ready
                && Some(r.value.roots) ==
                   (if flags.finalizedGER && flags.destination != 0 && net != 0 then trusted else latest)
                && ClaimVerifies(r.value, leaf, depositCnt, net, height)
      ensures var roots := if flags.finalizedGER && flags.destination != 0 && net != 0 then trusted else latest;
              height == store.height && flags.ready && roots.Some? && store.faults == old(store.faults) ==>
                forall i: nat, j: nat ::
                  Covered(store.committed, batches, i, roots.value, net, j, height) && depositCnt <= j ==>
                  r.Some? && leaf == DepositsOf(store.committed, net)[depositCnt].leaf
    {
      leaf := HASH_ZERO;
      var ok := store.Read();
      var found := HasDeposit(depositCnt, net);
      if !ok || !found || !flags.ready {
        return None, leaf;
      }
      var roots := if flags.finalizedGER && flags.destination != 0 && net != 0 then trusted else latest;
      ok := store.Read();
      if !ok || roots.None? {
        return None, leaf;
      }
      r, leaf := ProveUnder(depositCnt, net, roots.value, exits, batches);
    }

    /** Whether a deposit of this count is stored. */
    method HasDeposit(count: nat, net: Network) returns (found: bool)
      requires TablesOk(store.committed, store.height)
      ensures found <==> count < |DepositsOf(store.committed, net)|
    {
      var d := DepositsOf(store.committed, net);
      assert TreeOk(store.committed, net, store.height);
      for i := 0 to |d|
        invariant count < |d| ==> i <= count
      {
        if d[i].count == count {
          return true;
        }
      }
      return false;
    }

    /** The hash of a deposit, or of an empty leaf where there is none; no answer if the query is refused. */
    method GetLeaf(index: nat, net: Network) returns (leaf: Option<Digest>)
      requires TablesOk(store.committed, store.height)
      modifies store`faults
      ensures old(store.faults) <= store.faults
      ensures leaf == if store.faults > old(store.faults) then None
                else Some(LeafAt(Leaves(DepositsOf(store.committed, net)), index))
    {
      var ok := store.Read();
      if !ok {
        return None;
      }
      var d := DepositsOf(store.committed, net);
      assert TreeOk(store.committed, net, store.height);
      for i := 0 to |d|
        invariant index < |d| ==> i <= index
      {
        if d[i].count == index {
          return Some(d[i].leaf);
        }
      }
      return Some(HASH_ZERO);
    }

    /**
      What a rollup needs to take its exit tree back to its first `index` leaves: the current root, the
      leaf to be removed with its proof, and a frontier of the leaves that stay. There is an answer for
      every deposit of a rollup, and for mainnet never.
     */
    method GetBackwardLETData(index: nat, net: Network) returns (r: Option<LETData>)
      requires Coherent() && TablesOk(store.committed, store.height) && height == store.height
      modifies cache, store`aborted, store`faults
      ensures Coherent() && old(store.faults) <= store.faults
      ensures net == 0 ==> r.None?
      ensures net > 0 && index < |DepositsOf(store.committed, net)| && store.faults == old(store.faults) ==> r.Some?
      ensures r.Some? ==> r.value.root == Root(Leaves(DepositsOf(store.committed, net)), height)
      ensures r.Some? && index < Pow2(height) ==>
                var s := Leaves(DepositsOf(store.committed, net));
                && r.value.leaf == LeafAt(s, index)
                && r.value.proof == Proof(s, index, height)
                && Climb(r.value.leaf, r.value.proof, index, height) == r.value.root
                && (index <= |s| ==> Frontier(s[..index], r.value.frontier, height))
    {
      if net == 0 {
        return None;
      }
      ghost var s := Leaves(DepositsOf(store.committed, net));
      assert TreeOk(store.committed, net, height);
      var leaf := GetLeaf(index, net);
      if leaf.None? {
        return None;
      }
      var root := store.GetLastComputedRoot(net);
      if root.None? {
        return None;
      }
      assert s[..|s| - 1 + 1] == s;
      assert RecordedRoot(store.committed, net, |s| - 1, root.value, height);
      var proof := GetProof(index, root.value);
      if proof.Err? {
        return None;
      }
      if index < Pow2(height) {
        ShrVanishes(index, height);
        TermProofOfTree(s, index, height);
      }
      var frontier := ComputeFrontierFromProof(index, proof.value, height);
      return Some(LETData(root.value, leaf.value, proof.value, frontier.value));
    }
  }

  /** The walk so far: reading the proof off `root` is reading it off `cur` and adding the siblings met, last first. */
  ghost predicate Unwound(root: Digest, index: nat, height: nat, cur: Digest, h: nat, siblings: seq<Digest>)
    requires h <= height && |siblings| == height - h
  {
    && (TermProof(cur, index, h).Some? ==>
          TermProof(root, index, height) == Some(TermProof(cur, index, h).value + Reversed(siblings)))
    && TermLeaf(root, index, height) == TermLeaf(cur, index, h)
  }

  function Reversed(s: seq<Digest>): (r: seq<Digest>)
    ensures |r| == |s|
    ensures forall k :: 0 <= k < |s| ==> r[k] == s[|s| - 1 - k]
  {
    seq(|s|, k requires 0 <= k < |s| => s[|s| - 1 - k])
  }

  lemma UnwindStep(root: Digest, index: nat, height: nat, cur: Digest, h: nat, siblings: seq<Digest>)
    requires 0 < h <= height && |siblings| == height - h && cur.Pair?
    requires Unwound(root, index, height, cur, h, siblings)
    ensures Bit(index, h - 1) ==> Unwound(root, index, height, cur.right, h - 1, siblings + [cur.left])
    ensures !Bit(index, h - 1) ==> Unwound(root, index, height, cur.left, h - 1, siblings + [cur.right])
  {
    var child := if Bit(index, h - 1) then cur.right else cur.left;
    var other := if Bit(index, h - 1) then cur.left else cur.right;
    assert Reversed(siblings + [other]) == [other] + Reversed(siblings);
    if TermProof(child, index, h - 1).Some? {
      var p := TermProof(child, index, h - 1).value;
      assert p + Reversed(siblings + [other]) == (p + [other]) + Reversed(siblings);
    }
  }

  lemma UnwoundProof(root: Digest, index: nat, height: nat, cur: Digest, siblings: seq<Digest>, reversed: seq<Digest>)
    requires |siblings| == height == |reversed| && Unwound(root, index, height, cur, 0, siblings)
    requires forall k :: 0 <= k < height ==> reversed[k] == siblings[height - 1 - k]
    ensures TermProof(root, index, height) == Some(reversed)
  {
    assert [] + Reversed(siblings) == reversed;
  }
}
