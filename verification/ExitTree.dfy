/** The exit tree of one network: the in-memory frontier kept in step with the tables. */
module ExitTree {
  import opened Bits
  import opened Hashing
  import opened CompleteTree
  import opened Outcomes
  import opened Storage
  import opened TableInvariants
  import opened Database
  import opened RootBuilders

  datatype AddError = CountMismatch | StoreFailed

  /** Reverses a list by swapping from both ends. */
  method Reverse(s: seq<Digest>) returns (r: seq<Digest>)
    ensures |r| == |s|
    ensures forall k :: 0 <= k < |s| ==> r[k] == s[|s| - 1 - k]
  {
    r := s;
    var st, en := 0, |s| - 1;
    while st < en
      invariant 0 <= st <= |s| && en == |s| - 1 - st && |r| == |s|
      invariant forall k :: st <= k <= en ==> r[k] == s[k]
      invariant forall k :: 0 <= k < st ==> r[k] == s[|s| - 1 - k] && r[|s| - 1 - k] == s[k]
      invariant st <= en + 2
    {
      r := r[st := r[en]][en := r[st]];
      st, en := st + 1, en - 1;
    }
    forall k | 0 <= k < |s|
      ensures r[k] == s[|s| - 1 - k]
    {
      if k > en { assert r[|s| - 1 - (|s| - 1 - k)] == s[|s| - 1 - k]; }
    }
  }

  class MerkleTree {
    const store: Connection
    const network: Network
    const height: nat
    var count: nat
    var siblings: seq<Digest>

    /** The memory holds the tree of these leaves. */
    ghost predicate Holds(s: seq<Digest>)
      reads this
    {
      count == |s| && Frontier(s, siblings, height)
    }

    /** The memory holds the tree of the deposits stored in these tables. */
    ghost predicate Matches(t: Tables)
      reads this
    {
      Holds(Leaves(DepositsOf(t, network)))
    }

    method GetRoot(tx: bool) returns (r: Result<Digest, StoreError>)
      modifies store`aborted, store`faults
      ensures store.Aged()
      ensures count == 0 ==> store.Idle()
      ensures !tx ==> store.aborted == old(store.aborted)
      ensures !tx && store.faults > old(store.faults) ==> old(store.faults) < store.limit
      ensures count == 0 ==> r == Ok(ZeroHash(height))
      ensures count > 0 && !store.Refused(tx) ==>
                match LookupRoot(store.View(tx).roots, network, DepositsOf(store.View(tx), network), count - 1)
                case Some(root) => r == Ok(root)
                case None => r == Err(NotFound)
      ensures count > 0 && store.Refused(tx) ==> r == Err(Fault)
    {
      if count == 0 {
        return Ok(ZeroHash(height));
      }
      r := store.GetRoot(count - 1, network, tx);
    }

    /** The root reported for a memory that matches the tables is the root of the stored deposits. */
    lemma RootOfMatching(t: Tables)
      requires height >= 1 && TablesOk(t, height) && Matches(t) && count > 0
      ensures LookupRoot(t.roots, network, DepositsOf(t, network), count - 1) ==
              Some(Root(Leaves(DepositsOf(t, network)), height))
    {
      assert TreeOk(t, network, height);
      LookupRootIsRoot(t, network, height, count - 1);
      var s := Leaves(DepositsOf(t, network));
      assert s[..count] == s;
    }

    /**
      Rebuilds the frontier from the stored nodes, walking from the stored root of the last leaf
      down to it. It works for every count up to the number of stored deposits, and fails above it.
     */
    method InitSiblings(tx: bool) returns (r: Result<seq<Digest>, StoreError>)
      requires height >= 1 && TablesOk(store.View(tx), height)
      modifies store`aborted, store`faults
      ensures store.Aged()
      ensures !tx ==> store.aborted == old(store.aborted)
      ensures !tx && store.faults > old(store.faults) ==> r.Err? && old(store.faults) < store.limit
      ensures r.Ok? ==> count <= |DepositsOf(store.View(tx), network)|
      ensures r.Ok? ==> Frontier(Leaves(DepositsOf(store.View(tx), network))[..count], r.value, height)
      ensures r.Err? ==> store.Refused(tx) || count > |DepositsOf(store.View(tx), network)|
    {
      if count == 0 {
        var siblings: seq<Digest> := [];
        for h := 0 to height
          invariant |siblings| == h
        {
          siblings := siblings + [ZeroHash(h)];
        }
        EmptyFrontier(siblings, height);
        return Ok(siblings);
      }
      var root := GetRoot(tx);
      assert TreeOk(store.View(tx), network, height);
      LookupRootIsRoot(store.View(tx), network, height, count - 1);
      if root.Err? {
        return Err(root.error);
      }
      r := WalkDown(root.value, tx);
    }

    /** From the root of the first `count` leaves down to the last of them, keeping every left child. */
    method WalkDown(root: Digest, tx: bool) returns (r: Result<seq<Digest>, StoreError>)
      requires height >= 1 && TablesOk(store.View(tx), height)
      requires 0 < count <= |DepositsOf(store.View(tx), network)|
      requires root == Root(Leaves(DepositsOf(store.View(tx), network))[..count], height)
      modifies store`aborted, store`faults
      ensures store.Aged()
      ensures !tx ==> store.aborted == old(store.aborted)
      ensures !tx && store.faults > old(store.faults) ==> r.Err? && old(store.faults) < store.limit
      ensures r.Ok? ==> Frontier(Leaves(DepositsOf(store.View(tx), network))[..count], r.value, height)
      ensures r.Err? ==> store.Refused(tx)
    {
      ghost var s := Leaves(DepositsOf(store.View(tx), network))[..count];
      var siblings: seq<Digest> := [];
      var index := count - 1;
      var cur := root;
      assert TreeOk(store.View(tx), network, height);
      ShrVanishes(index, height);
      var h := height;
      while h > 0
        invariant 0 <= h <= height && |siblings| == height - h
        invariant cur == Node(s, h, Shr(index, h))
        invariant Walked(s, index, height, siblings)
        invariant store.Aged()
        invariant !tx ==> store.Idle()
      {
        AncestorStored(store.View(tx), network, height, index, index, h);
        var value := store.Get(cur, tx);
        if value.Err? {
          return Err(value.error);
        }
        assert cur == Pair(value.value.0, value.value.1);
        WalkStep(s, index, height, h, siblings);
        h := h - 1;
        siblings := siblings + [value.value.0];
        if Bit(index, h) {
          cur := value.value.1;
        } else {
          cur := value.value.0;
        }
      }
      var reversed := Reverse(siblings);
      WalkIsFrontier(s, siblings, reversed, height);
      return Ok(reversed);
    }

    /**
      Climbs from a new leaf to the root, level by level, with the frontier on its left and empty subtrees on its
      right. The lowest free slot is overwritten on the way: the memory is a frontier of the old leaves still,
      and of the new ones already.
     */
    method Combine(leaf: Digest, ghost s: seq<Digest>) returns (root: Digest, leaves: seq<Triple>)
      requires Holds(s) && |s| < Pow2(height)
      modifies this`siblings
      ensures root == Root(s + [leaf], height)
      ensures |leaves| == height
      ensures forall g, id :: 0 <= g < height ==> RowOfTriple(leaves[g], id) == PathRow(s + [leaf], |s|, id, g)
      ensures Frontier(s, siblings, height) && Frontier(s + [leaf], siblings, height)
    {
      ghost var t := s + [leaf];
      var cur := leaf;
      var isFilledSubTree := true;
      leaves := [];
      for h := 0 to height
        invariant cur == Node(t, h, Shr(count, h))
        invariant isFilledSubTree <==> Ones(count, h)
        invariant isFilledSubTree ==> siblings == old(siblings)
        invariant isFilledSubTree || Advanced(s, leaf, old(siblings), siblings, h)
        invariant Frontier(s, siblings, height)
        invariant |leaves| == h
        invariant forall g, id :: 0 <= g < h ==> RowOfTriple(leaves[g], id) == PathRow(t, count, id, g)
      {
        var k := Shr(count, h);
        if Bit(count, h) {
          NodeAppend(s, leaf, h, k - 1);
          var parent := Pair(siblings[h], cur);
          leaves := leaves + [Triple(parent, siblings[h], cur)];
          cur := parent;
        } else {
          if isFilledSubTree {
            FrontierFreeSlot(s, siblings, height, h, cur);
            siblings := siblings[h := cur];
            isFilledSubTree := false;
          }
          NodeBeyond(t, h, k + 1);
          var parent := Pair(cur, ZeroHash(h));
          leaves := leaves + [Triple(parent, cur, ZeroHash(h))];
          cur := parent;
        }
      }
      ShrVanishes(count, height);
      root := cur;
      if isFilledSubTree {
        FrontierFull(s, siblings, height, leaf);
      } else {
        AdvancedIsFrontier(s, leaf, old(siblings), siblings, height);
      }
    }

    /**
      Adds one leaf. On success the root and path rows of the new tree are stored and the memory holds it,
      unless its count does not fit 32 bits: then the count is back at 0. On any failure the memory still
      holds the old tree.
     */
    method AddLeaf(depositId: nat, leaf: Digest, index: nat, ghost s: seq<Digest>) returns (err: Option<AddError>)
      requires Holds(s) && |s| <= MAX_UINT32 && (index == |s| ==> |s| < Pow2(height))
      modifies this, store`pending, store`aborted, store`faults
      ensures store.Aged()
      ensures err == Some(CountMismatch) <==> index != |s|
      ensures err == Some(CountMismatch) ==> store.Idle() && store.pending == old(store.pending)
      ensures err.Some? ==> store.aborted || index != |s|
      ensures err.Some? ==> Holds(s)
      ensures err.None? ==> !store.aborted && depositId !in old(store.pending).roots
      ensures err.None? ==> count == (|s| + 1) % 0x1_0000_0000 && (|s| < MAX_UINT32 ==> Holds(s + [leaf]))
      ensures err.None? ==>
                store.pending ==
                InsertNodes(InsertRoot(old(store.pending), network, depositId, Root(s + [leaf], height)),
                            PathRows(s + [leaf], |s|, depositId, height))
    {
      if index != count {
        return Some(CountMismatch);
      }
      var root, leaves := Combine(leaf, s);
      var ok := store.SetRoot(root, depositId, network);
      if !ok {
        return Some(StoreFailed);
      }
      var nodes := RowsOfTriples(leaves, depositId);
      assert (set r | r in nodes) == PathRows(s + [leaf], index, depositId, height) by {
        PathRowsAsList(s + [leaf], index, depositId, height, nodes);
      }
      ok := store.BulkSet(nodes);
      if !ok {
        return Some(StoreFailed);
      }
      count := (count + 1) % 0x1_0000_0000;
      return None;
    }

    method ResetLeaf(depositCount: nat) returns (err: Option<StoreError>)
      requires height >= 1 && TablesOk(store.pending, height)
      modifies this, store`aborted, store`faults
      ensures store.Aged()
      ensures err.None? ==> depositCount <= |DepositsOf(store.pending, network)|
      ensures err.None? ==> Holds(Leaves(DepositsOf(store.pending, network))[..depositCount])
      ensures err.Some? ==> store.aborted || depositCount > |DepositsOf(store.pending, network)|
    {
      count := depositCount;
      var r := InitSiblings(true);
      if r.Err? {
        siblings := [];
        return Some(r.error);
      }
      siblings := r.value;
      return None;
    }

    /**
      Rebuilds the memory from the committed tables, whatever the memory held. A failed count query is taken for a
      single deposit, so the tree is restored exactly when no error is returned, and the count query went through
      or exactly one deposit is committed. It returns an error only if a read of the root or of a node was
      refused, or if the count query failed with no deposit committed.
     */
    method RollbackMT(queryFails: bool) returns (err: Option<StoreError>)
      requires height >= 1 && height == store.height && store.Valid()
      modifies this, store`aborted, store`faults
      ensures old(store.faults) <= store.faults && store.aborted == old(store.aborted)
      ensures Matches(store.committed) <==> err.None? && (!queryFails || |DepositsOf(store.committed, network)| == 1)
      ensures store.faults > old(store.faults) ==> err.Some? && old(store.faults) < store.limit
      ensures err.Some? ==>
                store.faults > old(store.faults) || (queryFails && DepositsOf(store.committed, network) == [])
      ensures queryFails && DepositsOf(store.committed, network) == [] ==> err.Some?
      ensures queryFails && err.None? ==> Holds(Leaves(DepositsOf(store.committed, network))[..1])
    {
      assert TreeOk(store.committed, network, height);
      var depositCnt := store.GetLastDepositCount(network, queryFails);
      match depositCnt {
        case Err(_) => count := 0;
        case Ok(c) => count := c + 1;
      }
      var r := InitSiblings(false);
      if r.Err? {
        siblings := [];
        return Some(r.error);
      }
      siblings := r.value;
      ghost var s := Leaves(DepositsOf(store.committed, network));
      if count == |s| {
        assert s[..count] == s;
      }
      return None;
    }

    constructor (store: Connection, network: Network, height: nat)
      ensures this.store == store && this.network == network && this.height == height
    {
      this.store := store;
      this.network := network;
      this.height := height;
      count := 0;
      siblings := [];
    }
  }

  /** A tree for the committed tables, as at start-up; it matches them under the same conditions as after a rollback. */
  method NewMerkleTree(store: Connection, network: Network, height: nat, queryFails: bool)
    returns (tree: MerkleTree, err: Option<StoreError>)
    requires height >= 1 && store.height == height && store.Valid()
    modifies store`aborted, store`faults
    ensures fresh(tree) && tree.store == store && tree.network == network && tree.height == height
    ensures old(store.faults) <= store.faults && store.aborted == old(store.aborted)
    ensures tree.Matches(store.committed) <==>
            err.None? && (!queryFails || |DepositsOf(store.committed, network)| == 1)
    ensures store.faults > old(store.faults) ==> err.Some? && old(store.faults) < store.limit
    ensures err.Some? ==>
              store.faults > old(store.faults) || (queryFails && DepositsOf(store.committed, network) == [])
  {
    tree := new MerkleTree(store, network, height);
    err := tree.RollbackMT(queryFails);
  }

  /**
    The failing input of RollbackMT: with two deposits committed, a failed count query leaves the first of them
    alone in memory, and the call reports no error.
   */
  method SilentRollback(net: Network, a: Digest, b: Digest) returns (tree: MerkleTree, err: Option<StoreError>)
    ensures fresh(tree) && fresh(tree.store) && tree.network == net && tree.height == tree.store.height == 1
    ensures Leaves(DepositsOf(tree.store.committed, net)) == [a, b]
    ensures err.None? && tree.count == 1 && tree.Holds([a])
    ensures !tree.Matches(tree.store.committed)
  {
    EmptyTablesOk(1);
    var none := NO_ROWS;
    var first, second := DepositRow(1, 0, a, 0), DepositRow(2, 1, b, 0);
    assert Pow2(1) == 2;
    WithLeafOk(none, net, first, 1);
    var one := WithLeaf(none, net, first, 1);
    WithLeafOk(one, net, second, 1);
    var store := new Connection.Restored(1, WithLeaf(one, net, second, 1), 3, 0);
    tree, err := NewMerkleTree(store, net, 1, false);
    assert DepositsOf(store.committed, net) == [first, second];
    assert Leaves([first, second]) == [a, b] && [a, b][..1] == [a];
    err := tree.RollbackMT(true);
  }

  // ---------- lemmas ----------

  lemma {:induction false} ShrOfZero(h: nat)
    ensures Shr(0, h) == 0
  {
    if h > 0 { ShrOfZero(h - 1); }
  }

  /** With no leaves every slot is free. */
  lemma EmptyFrontier(siblings: seq<Digest>, height: nat)
    requires |siblings| == height
    ensures Frontier([], siblings, height)
  {
    forall h | 0 <= h < height
      ensures !Bit(0, h)
    {
      ShrOfZero(h);
    }
  }

  /** The left children met so far on the way down to a leaf, the root's first. */
  ghost predicate Walked(s: seq<Digest>, index: nat, height: nat, siblings: seq<Digest>)
  {
    |siblings| <= height && forall i :: 0 <= i < |siblings| ==>
          siblings[i] == Node(s, height - 1 - i, 2 * Shr(index, height - i))
  }

  lemma WalkStep(s: seq<Digest>, index: nat, height: nat, h: nat, siblings: seq<Digest>)
    requires Walked(s, index, height, siblings) && 0 < h <= height && |siblings| == height - h
    ensures var k := Shr(index, h);
            && Node(s, h, k) == Pair(Node(s, h - 1, 2 * k), Node(s, h - 1, 2 * k + 1))
            && Walked(s, index, height, siblings + [Node(s, h - 1, 2 * k)])
            && Shr(index, h - 1) == if Bit(index, h - 1) then 2 * k + 1 else 2 * k
  {
  }

  /** The left children met on the way down to the last leaf form a frontier of the whole tree. */
  lemma WalkIsFrontier(s: seq<Digest>, walked: seq<Digest>, siblings: seq<Digest>, height: nat)
    requires |s| > 0 && |walked| == |siblings| == height && Walked(s, |s| - 1, height, walked)
    requires forall h :: 0 <= h < height ==> siblings[h] == walked[height - 1 - h]
    ensures Frontier(s, siblings, height)
  {
    var index := |s| - 1;
    forall h | 0 <= h < height && Bit(|s|, h)
      ensures siblings[h] == Node(s, h, Shr(|s|, h) - 1)
    {
      assert walked[height - 1 - h] == Node(s, h, 2 * Shr(index, h + 1));
      Increment(index, h);
    }
  }

  function RowOfTriple(t: Triple, depositId: nat): NodeRow
  {
    NodeRow(t.parent, t.left, t.right, depositId)
  }

  method RowsOfTriples(leaves: seq<Triple>, depositId: nat) returns (nodes: seq<NodeRow>)
    ensures |nodes| == |leaves|
    ensures forall i :: 0 <= i < |leaves| ==> nodes[i] == RowOfTriple(leaves[i], depositId)
  {
    nodes := [];
    for i := 0 to |leaves|
      invariant |nodes| == i
      invariant forall j :: 0 <= j < i ==> nodes[j] == RowOfTriple(leaves[j], depositId)
    {
      nodes := nodes + [RowOfTriple(leaves[i], depositId)];
    }
  }

  lemma PathRowsAsList(s: seq<Digest>, i: nat, id: nat, height: nat, rows: seq<NodeRow>)
    requires |rows| == height && forall h :: 0 <= h < height ==> rows[h] == PathRow(s, i, id, h)
    ensures (set r | r in rows) == PathRows(s, i, id, height)
  {
  }

  /** Between two levels: the slot of the lowest clear bit has received the new leaf's subtree. */
  ghost predicate Advanced(s: seq<Digest>, leaf: Digest, before: seq<Digest>, after: seq<Digest>, h: nat)
  {
    exists free: nat :: free < h && free < |before| && Ones(|s|, free) && !Bit(|s|, free) &&
                        after == before[free := Node(s + [leaf], free, Shr(|s|, free))]
  }

  lemma AdvancedIsFrontier(s: seq<Digest>, leaf: Digest, before: seq<Digest>, after: seq<Digest>, height: nat)
    requires Frontier(s, before, height) && Advanced(s, leaf, before, after, height)
    ensures Frontier(s + [leaf], after, height)
  {
    var free: nat :| free < height && free < |before| && Ones(|s|, free) && !Bit(|s|, free) &&
                     after == before[free := Node(s + [leaf], free, Shr(|s|, free))];
    FrontierAdvances(s, before, height, leaf, free);
  }
}
