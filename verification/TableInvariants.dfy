/** How appending and truncating keep the tables those of a fresh tree over the stored deposits. */
module TableInvariants {
  import opened Bits
  import opened Hashing
  import opened CompleteTree
  import opened Outcomes
  import opened Storage

  // ---------- appending one deposit ----------

  lemma FreshIdUnused(t: Tables, height: nat, id: nat)
    requires TablesOk(t, height) && FreshFrom(t, id)
    ensures id !in t.roots
    ensures RowsOf(t, id) == {}
    ensures forall net: Network :: id !in Ids(DepositsOf(t, net))
  {
    forall net: Network
      ensures id !in RootIds(t.roots, net)
    {
      assert TreeOk(t, net, height);
    }
    assert id in t.roots ==> id in RootIds(t.roots, t.roots[id].network);
    forall r | r in t.nodes
      ensures r.depositId != id
    {
      assert Owned(t, r.depositId);
      var net: Network :| r.depositId in Ids(DepositsOf(t, net));
    }
  }

  lemma PathRowsTagged(s: seq<Digest>, i: nat, id: nat, height: nat)
    ensures forall r :: r in PathRows(s, i, id, height) ==> r.depositId == id && r.key == Pair(r.left, r.right)
  {
  }

  lemma WithLeafOther(t: Tables, net: Network, row: DepositRow, height: nat, other: Network)
    requires TablesOk(t, height) && FreshFrom(t, row.id) && other != net
    ensures TreeOk(WithLeaf(t, net, row, height), other, height)
  {
    var t' := WithLeaf(t, net, row, height);
    var d := DepositsOf(t, other);
    FreshIdUnused(t, height, row.id);
    PathRowsTagged(Leaves(DepositsOf(t, net)) + [row.leaf], |DepositsOf(t, net)|, row.id, height);
    assert TreeOk(t, other, height);
    assert RootIds(t'.roots, other) == RootIds(t.roots, other);
    forall i | 0 <= i < |d|
      ensures RowsOf(t', d[i].id) == RowsOf(t, d[i].id) && d[i].id != row.id
    {
    }
  }

  lemma WithLeafSelf(t: Tables, net: Network, row: DepositRow, height: nat)
    requires TablesOk(t, height) && FreshFrom(t, row.id)
    requires row.count == |DepositsOf(t, net)| < Capacity(height)
    requires WithinBlock(DepositsOf(t, net), row.block)
    ensures TreeOk(WithLeaf(t, net, row, height), net, height)
  {
    FreshIdUnused(t, height, row.id);
    assert TreeOk(t, net, height);
    WithLeafNodes(t, net, row, height);
    WithLeafRoots(t, net, row, height);
    assert DepositsOf(WithLeaf(t, net, row, height), net) == DepositsOf(t, net) + [row];
  }

  lemma WithLeafNodes(t: Tables, net: Network, row: DepositRow, height: nat)
    requires NodesOk(t, net, height) && RowsOf(t, row.id) == {}
    requires forall i :: 0 <= i < |DepositsOf(t, net)| ==> DepositsOf(t, net)[i].id < row.id
    ensures NodesOk(WithLeaf(t, net, row, height), net, height)
  {
    var t' := WithLeaf(t, net, row, height);
    var d := DepositsOf(t, net);
    var s := Leaves(d) + [row.leaf];
    LeavesAppend(d, row);
    PathRowsTagged(s, |d|, row.id, height);
    assert forall r :: r in t.nodes && r.depositId == row.id ==> r in RowsOf(t, row.id);
    assert RowsOf(t', row.id) == PathRows(s, |d|, row.id, height) && s[..|d| + 1] == s;
    forall i | 0 <= i < |d|
      ensures RowsOf(t', d[i].id) == RowsOf(t, d[i].id) && s[..i + 1] == Leaves(d)[..i + 1]
    {
    }
  }

  lemma WithLeafRoots(t: Tables, net: Network, row: DepositRow, height: nat)
    requires RootsOk(t, net, height) && row.id !in t.roots
    ensures RootsOk(WithLeaf(t, net, row, height), net, height)
  {
    var t' := WithLeaf(t, net, row, height);
    var d := DepositsOf(t, net);
    var s := Leaves(d) + [row.leaf];
    LeavesAppend(d, row);
    IdsAppend(d, row);
    assert s[..|d| + 1] == s;
    forall i | 0 <= i < |d|
      ensures (d + [row])[i] == d[i] && s[..i + 1] == Leaves(d)[..i + 1]
    {
    }
    assert RootIds(t'.roots, net) == RootIds(t.roots, net) + {row.id};
  }

  lemma IdsAppend(d: seq<DepositRow>, row: DepositRow)
    ensures Ids(d + [row]) == Ids(d) + {row.id}
  {
    var e := d + [row];
    forall id | id in Ids(d) + {row.id}
      ensures id in Ids(e)
    {
      if id in Ids(d) {
        var i :| 0 <= i < |d| && d[i].id == id;
        assert e[i].id == id;
      } else {
        assert e[|d|].id == id;
      }
    }
  }

  /** Storing a deposit and adding it to its tree keeps every network's tables those of a fresh tree. */
  lemma WithLeafOk(t: Tables, net: Network, row: DepositRow, height: nat)
    requires TablesOk(t, height) && FreshFrom(t, row.id)
    requires row.count == |DepositsOf(t, net)| < Capacity(height)
    requires WithinBlock(DepositsOf(t, net), row.block)
    ensures TablesOk(WithLeaf(t, net, row, height), height)
    ensures FreshFrom(WithLeaf(t, net, row, height), row.id + 1)
    ensures DepositsOf(WithLeaf(t, net, row, height), net) == DepositsOf(t, net) + [row]
  {
    var t' := WithLeaf(t, net, row, height);
    var d := DepositsOf(t, net);
    assert forall m: Network :: BlocksOf(t', m) == BlocksOf(t, m);
    forall m: Network
      ensures TreeOk(t', m, height)
    {
      if m == net { WithLeafSelf(t, net, row, height); } else { WithLeafOther(t, net, row, height, m); }
    }
    FreshIdUnused(t, height, row.id);
    IdsAppend(d, row);
    PathRowsTagged(Leaves(d) + [row.leaf], |d|, row.id, height);
    forall m: Network
      ensures Ids(DepositsOf(t', m)) == if m == net then Ids(d) + {row.id} else Ids(DepositsOf(t, m))
    {
    }
    forall r | r in t'.nodes
      ensures Owned(t', r.depositId)
    {
      if r in t.nodes {
        assert Owned(t, r.depositId);
        var m: Network :| r.depositId in Ids(DepositsOf(t, m));
        assert r.depositId in Ids(DepositsOf(t', m));
      } else {
        assert r.depositId in Ids(DepositsOf(t', net));
      }
    }
  }

  // ---------- truncating ----------

  lemma IdsPrefix(d: seq<DepositRow>, n: nat)
    requires n <= |d| && LogOk(d)
    ensures Ids(d[..n]) <= Ids(d)
    ensures forall i :: 0 <= i < n ==> d[i].id in Ids(d[..n])
    ensures forall i :: n <= i < |d| ==> d[i].id in Ids(d) - Ids(d[..n])
  {
  }

  /** Deleting a suffix of a network's deposits, in cascade, keeps every network's tables. */
  lemma TruncateOk(t: Tables, net: Network, n: nat, height: nat)
    requires TablesOk(t, height) && n <= |DepositsOf(t, net)|
    ensures TablesOk(KeepDeposits(t, net, DepositsOf(t, net)[..n]), height)
  {
    var d := DepositsOf(t, net);
    var t' := KeepDeposits(t, net, d[..n]);
    var gone := Ids(d) - Ids(d[..n]);
    assert TreeOk(t, net, height);
    assert forall m: Network :: BlocksOf(t', m) == BlocksOf(t, m);
    IdsPrefix(d, n);
    forall m: Network
      ensures TreeOk(t', m, height)
      ensures Ids(DepositsOf(t', m)) == Ids(DepositsOf(t, m)) - gone
    {
      if m == net { TruncateSelf(t, net, n, height); } else { TruncateOther(t, net, n, height, m); }
    }
    forall r | r in t'.nodes
      ensures Owned(t', r.depositId)
    {
      assert Owned(t, r.depositId);
      var m: Network :| r.depositId in Ids(DepositsOf(t, m));
      assert r.depositId in Ids(DepositsOf(t', m));
    }
  }

  lemma TruncateFresh(t: Tables, net: Network, n: nat, nextId: nat)
    requires FreshFrom(t, nextId) && n <= |DepositsOf(t, net)|
    ensures FreshFrom(KeepDeposits(t, net, DepositsOf(t, net)[..n]), nextId)
  {
    var t' := KeepDeposits(t, net, DepositsOf(t, net)[..n]);
    forall m: Network, i | 0 <= i < |DepositsOf(t', m)|
      ensures DepositsOf(t', m)[i].id < nextId
    {
      assert DepositsOf(t', m)[i] == DepositsOf(t, m)[i];
    }
  }

  lemma TruncateSelf(t: Tables, net: Network, n: nat, height: nat)
    requires TablesOk(t, height) && n <= |DepositsOf(t, net)|
    ensures TreeOk(KeepDeposits(t, net, DepositsOf(t, net)[..n]), net, height)
    ensures Ids(DepositsOf(t, net)[..n]) <= Ids(DepositsOf(t, net))
  {
    var d := DepositsOf(t, net);
    var t' := KeepDeposits(t, net, d[..n]);
    assert TreeOk(t, net, height);
    IdsPrefix(d, n);
    assert DepositsOf(t', net) == d[..n];
    assert Leaves(d[..n]) == Leaves(d)[..n];
    forall i | 0 <= i < n
      ensures RowsOf(t', d[i].id) == RowsOf(t, d[i].id)
      ensures Leaves(d)[..n][..i + 1] == Leaves(d)[..i + 1]
    {
    }
    forall id | id in RootIds(t'.roots, net)
      ensures id in Ids(d[..n])
    {
      assert id in RootIds(t.roots, net);
    }
  }

  lemma TruncateOther(t: Tables, net: Network, n: nat, height: nat, other: Network)
    requires TablesOk(t, height) && n <= |DepositsOf(t, net)| && other != net
    ensures TreeOk(KeepDeposits(t, net, DepositsOf(t, net)[..n]), other, height)
    ensures Ids(DepositsOf(t, other)) !! Ids(DepositsOf(t, net))
  {
    var d, e := DepositsOf(t, net), DepositsOf(t, other);
    var t' := KeepDeposits(t, net, d[..n]);
    assert TreeOk(t, other, height);
    assert Ids(e) !! Ids(d);
    assert DepositsOf(t', other) == e;
    forall i | 0 <= i < |e|
      ensures RowsOf(t', e[i].id) == RowsOf(t, e[i].id) && e[i].id in t'.roots
    {
      assert e[i].id in Ids(e);
    }
    forall id | id in RootIds(t'.roots, other)
      ensures id in RootIds(t.roots, other)
    {
    }
  }

  // ---------- the deletions of the service are truncations ----------

  lemma {:induction false} CountBelowFrom(d: seq<DepositRow>, from: nat, count: nat)
    requires from <= |d| && forall i :: 0 <= i < |d| ==> d[i].count == i
    ensures CountBelow(d[from..], count) ==
              d[from..if from <= count <= |d| then count else if count < from then from else |d|]
    decreases |d| - from
  {
    if from < |d| {
      assert d[from..][1..] == d[from + 1..];
      CountBelowFrom(d, from + 1, count);
      assert d[from..][0] == d[from];
    }
  }

  lemma CountBelowIsPrefix(d: seq<DepositRow>, count: nat)
    requires LogOk(d)
    ensures CountBelow(d, count) == d[..if count <= |d| then count else |d|]
  {
    assert d[0..] == d;
    CountBelowFrom(d, 0, count);
  }

  /** How many deposits lie in blocks up to a number. */
  function PrefixUpTo(d: seq<DepositRow>, block: nat): (n: nat)
    ensures n <= |d|
    ensures forall i :: 0 <= i < n ==> d[i].block <= block
    ensures n < |d| ==> d[n].block > block
  {
    if d == [] || d[0].block > block then 0
    else
      var n := PrefixUpTo(d[1..], block);
      assert forall i :: 0 <= i < n ==> d[1..][i] == d[i + 1];
      n + 1
  }

  lemma {:induction false} BlockUpToIsPrefix(d: seq<DepositRow>, block: nat)
    requires forall i, j :: 0 <= i < j < |d| ==> d[i].block <= d[j].block
    ensures BlockUpTo(d, block) == d[..PrefixUpTo(d, block)]
  {
    if d != [] {
      var rest := d[1..];
      assert forall i :: 0 <= i < |rest| ==> rest[i] == d[i + 1];
      BlockUpToIsPrefix(rest, block);
      if d[0].block > block {
        if rest != [] { assert rest[0].block > block; }
        assert rest[..PrefixUpTo(rest, block)] == [];
      } else {
        var n := PrefixUpTo(rest, block);
        assert [d[0]] + rest[..n] == d[..n + 1];
      }
    }
  }

  /** Block and event rows play no part in the tree tables. */
  lemma SameTreeTables(t: Tables, t': Tables, height: nat)
    requires TablesOk(t, height) && t'.deposits == t.deposits && t'.roots == t.roots && t'.nodes == t.nodes
    requires forall m: Network :: BlocksOk(BlocksOf(t', m))
    ensures TablesOk(t', height)
    ensures forall m: Network :: DepositsOf(t', m) == DepositsOf(t, m)
  {
    assert forall m: Network :: DepositsOf(t', m) == DepositsOf(t, m);
    forall m: Network
      ensures TreeOk(t', m, height)
    {
      assert TreeOk(t, m, height);
      assert forall id :: RowsOf(t', id) == RowsOf(t, id);
    }
    forall r | r in t'.nodes
      ensures Owned(t', r.depositId)
    {
      assert Owned(t, r.depositId);
      var m: Network :| r.depositId in Ids(DepositsOf(t, m));
      assert r.depositId in Ids(DepositsOf(t', m));
    }
  }

  // ---------- block rows ----------

  lemma {:induction false} PlaceOk(b: seq<BlockRow>, row: BlockRow)
    requires BlocksOk(b) && forall i :: 0 <= i < |b| ==> b[i].hash != row.hash
    ensures BlocksOk(Place(b, row))
    ensures forall r :: r in Place(b, row) <==> r in b || r == row
  {
    if b != [] && b[|b| - 1].number > row.number {
      var front, last := b[..|b| - 1], b[|b| - 1];
      assert b == front + [last];
      PlaceOk(front, row);
      var p := Place(front, row);
      forall i | 0 <= i < |p|
        ensures p[i].number <= last.number && p[i].hash != last.hash
      {
        assert p[i] in p;
        assert p[i] in front || p[i] == row;
      }
    }
  }

  /** Storing a block keeps the rows in order, keeps every row, and adds the block unless its hash is there. */
  lemma WithBlockOk(b: seq<BlockRow>, row: BlockRow)
    requires BlocksOk(b)
    ensures BlocksOk(WithBlock(b, row))
    ensures exists r :: r in WithBlock(b, row) && r.hash == row.hash
    ensures forall r :: r in b ==> r in WithBlock(b, row)
    ensures forall r :: r in WithBlock(b, row) ==> r in b || r == row
  {
    if !exists r :: r in b && r.hash == row.hash {
      PlaceOk(b, row);
      assert row in WithBlock(b, row);
    }
  }

  lemma {:induction false} NumberUpToOk(b: seq<BlockRow>, number: nat)
    requires BlocksOk(b)
    ensures BlocksOk(NumberUpTo(b, number))
    ensures forall r :: r in NumberUpTo(b, number) <==> r in b && r.number <= number
  {
    if b != [] {
      NumberUpToOk(b[1..], number);
      assert b == [b[0]] + b[1..];
      FirstOfSome(b, NumberUpTo(b[1..], number));
    }
  }

  /** The first row can go before any rows, in order, of the others. */
  lemma FirstOfSome(b: seq<BlockRow>, some: seq<BlockRow>)
    requires BlocksOk(b) && b != [] && BlocksOk(some) && forall r :: r in some ==> r in b[1..]
    ensures BlocksOk([b[0]] + some)
  {
    forall i | 0 <= i < |some|
      ensures b[0].number <= some[i].number && b[0].hash != some[i].hash
    {
      assert some[i] in some;
      var j :| 0 <= j < |b[1..]| && b[1..][j] == some[i];
    }
  }

  /** Block rows play no part in the tree tables. */
  lemma InsertBlockOk(t: Tables, net: Network, row: BlockRow, height: nat)
    requires TablesOk(t, height)
    ensures TablesOk(InsertBlock(t, net, row), height)
    ensures BlocksOf(InsertBlock(t, net, row), net) == WithBlock(BlocksOf(t, net), row)
    ensures forall m: Network :: DepositsOf(InsertBlock(t, net, row), m) == DepositsOf(t, m)
  {
    var t' := InsertBlock(t, net, row);
    WithBlockOk(BlocksOf(t, net), row);
    assert forall m: Network :: m != net ==> BlocksOf(t', m) == BlocksOf(t, m);
    SameTreeTables(t, t', height);
  }

  /** A tree of 32 levels takes 2^32 - 1 deposits, and a lower one takes as many as it has leaves. */
  lemma CapacityIs(height: nat)
    ensures Capacity(32) == 0xFFFF_FFFF
    ensures Pow2(height) <= 0xFFFF_FFFF ==> Capacity(height) == Pow2(height)
  {
    assert Pow2(8) == 256;
    assert Pow2(16) == 65536;
    assert Pow2(24) == 16777216;
    assert Pow2(32) == 4294967296;
  }

  /** Deleting the event rows above a number deletes each by its own block. */
  lemma {:induction false} EventsUpToConcat(a: seq<EventRow>, b: seq<EventRow>, block: nat)
    ensures EventsUpTo(a + b, block) == EventsUpTo(a, block) + EventsUpTo(b, block)
  {
    if a == [] {
      assert a + b == b;
    } else {
      assert (a + b)[1..] == a[1..] + b;
      EventsUpToConcat(a[1..], b, block);
    }
  }

  lemma EventsUpToOne(row: EventRow, block: nat)
    ensures EventsUpTo([row], block) == if row.block <= block then [row] else []
  {
    assert [row][1..] == [];
  }

  /** All rows stay if they lie at or below the number, and none if they lie above it. */
  lemma {:induction false} EventsUpToAll(rows: seq<EventRow>, block: nat)
    ensures (forall i :: 0 <= i < |rows| ==> rows[i].block <= block) ==> EventsUpTo(rows, block) == rows
    ensures (forall i :: 0 <= i < |rows| ==> rows[i].block > block) ==> EventsUpTo(rows, block) == []
  {
    if rows != [] {
      var rest := rows[1..];
      assert forall i :: 0 <= i < |rest| ==> rest[i] == rows[i + 1];
      EventsUpToAll(rest, block);
      assert rows == [rows[0]] + rest;
    }
  }

  lemma InsertEventOk(t: Tables, net: Network, row: EventRow, height: nat)
    requires TablesOk(t, height)
    ensures TablesOk(InsertEvent(t, net, row), height)
    ensures forall m: Network :: DepositsOf(InsertEvent(t, net, row), m) == DepositsOf(t, m)
  {
    var t' := InsertEvent(t, net, row);
    assert forall m: Network :: BlocksOf(t', m) == BlocksOf(t, m);
    SameTreeTables(t, t', height);
  }

  /** Deleting the blocks above a number truncates the network's deposits. */
  lemma ResetBlocksOk(t: Tables, net: Network, number: nat, height: nat, nextId: nat)
    requires TablesOk(t, height) && FreshFrom(t, nextId)
    ensures var t' := ResetBlocksTable(t, net, number);
            && TablesOk(t', height) && FreshFrom(t', nextId)
            && BlocksOf(t', net) == NumberUpTo(BlocksOf(t, net), number)
            && EventsOf(t', net) == EventsUpTo(EventsOf(t, net), number)
            && DepositsOf(t', net) == BlockUpTo(DepositsOf(t, net), number)
            && DepositsOf(t', net) == DepositsOf(t, net)[..PrefixUpTo(DepositsOf(t, net), number)]
            && forall m: Network :: m != net ==> DepositsOf(t', m) == DepositsOf(t, m)
  {
    var d := DepositsOf(t, net);
    var t0 := KeepBlocks(t, net, number);
    assert TreeOk(t, net, height);
    BlockUpToIsPrefix(d, number);
    NumberUpToOk(BlocksOf(t, net), number);
    assert forall m: Network :: m != net ==> BlocksOf(t0, m) == BlocksOf(t, m);
    SameTreeTables(t, t0, height);
    TruncateOk(t0, net, PrefixUpTo(d, number), height);
    TruncateFresh(t0, net, PrefixUpTo(d, number), nextId);
  }

  /** Deleting the deposits from a count on truncates them to that count. */
  lemma ResetDepositsOk(t: Tables, net: Network, count: nat, height: nat, nextId: nat)
    requires TablesOk(t, height) && FreshFrom(t, nextId)
    ensures var t' := ResetDepositsTable(t, net, count);
            var d := DepositsOf(t, net);
            && TablesOk(t', height) && FreshFrom(t', nextId)
            && DepositsOf(t', net) == d[..if count <= |d| then count else |d|]
            && forall m: Network :: m != net ==> DepositsOf(t', m) == DepositsOf(t, m)
  {
    var d := DepositsOf(t, net);
    assert TreeOk(t, net, height);
    CountBelowIsPrefix(d, count);
    TruncateOk(t, net, if count <= |d| then count else |d|, height);
    TruncateFresh(t, net, if count <= |d| then count else |d|, nextId);
  }

  /** The count query over deposits numbered from `from` upwards. */
  lemma {:induction false} NumberDepositsFrom(d: seq<DepositRow>, from: nat, block: nat)
    requires forall i :: 0 <= i < |d| ==> d[i].count == from + i
    requires forall i, j :: 0 <= i < j < |d| ==> d[i].block <= d[j].block
    ensures NumberDeposits(d, block) == if PrefixUpTo(d, block) == 0 then 0 else from + PrefixUpTo(d, block)
  {
    if d != [] {
      var rest := d[1..];
      assert forall i :: 0 <= i < |rest| ==> rest[i] == d[i + 1];
      NumberDepositsFrom(rest, from + 1, block);
      if d[0].block > block {
        if rest != [] { assert rest[0].block > block; }
      }
    }
  }

  lemma NumberDepositsIsPrefix(d: seq<DepositRow>, block: nat)
    requires LogOk(d)
    ensures NumberDeposits(d, block) == PrefixUpTo(d, block)
  {
    NumberDepositsFrom(d, 0, block);
  }

  /** When every deposit lies at or below the block, the count query returns the number of deposits. */
  lemma NumberDepositsAll(d: seq<DepositRow>, block: nat)
    requires LogOk(d) && WithinBlock(d, block)
    ensures NumberDeposits(d, block) == |d|
  {
    NumberDepositsIsPrefix(d, block);
    var n := PrefixUpTo(d, block);
  }

  // ---------- reading back ----------

  lemma {:induction false} LookupRootFrom(roots: map<nat, RootRow>, net: Network, d: seq<DepositRow>, from: nat,
                                          count: nat)
    requires forall i :: 0 <= i < |d| ==> d[i].count == from + i && d[i].id in roots && roots[d[i].id].network == net
    ensures LookupRoot(roots, net, d, count) ==
            if from <= count < from + |d| then Some(roots[d[count - from].id].root) else None
  {
    if d != [] {
      assert forall i :: 0 <= i < |d[1..]| ==> d[1..][i] == d[i + 1];
      LookupRootFrom(roots, net, d[1..], from + 1, count);
    }
  }

  lemma LookupRootIsRoot(t: Tables, net: Network, height: nat, count: nat)
    requires TreeOk(t, net, height)
    ensures LookupRoot(t.roots, net, DepositsOf(t, net), count) ==
            if count < |DepositsOf(t, net)| then Some(Root(Leaves(DepositsOf(t, net))[..count + 1], height)) else None
  {
    LookupRootFrom(t.roots, net, DepositsOf(t, net), 0, count);
  }

  lemma {:induction false} CountOfIdFinds(d: seq<DepositRow>, i: nat)
    requires i < |d| && forall j, k :: 0 <= j < k < |d| ==> d[j].id < d[k].id
    ensures CountOfId(d, d[i].id) == Some(d[i].count)
  {
    if i > 0 {
      assert d[0].id < d[i].id;
      assert forall j :: 0 <= j < |d[1..]| ==> d[1..][j] == d[j + 1];
      CountOfIdFinds(d[1..], i - 1);
    }
  }

  /** The largest deposit id with a root row belongs to the last stored deposit. */
  lemma LastRootId(t: Tables, net: Network, height: nat, id: nat)
    requires TreeOk(t, net, height)
    requires id in RootIds(t.roots, net) && forall j :: j in RootIds(t.roots, net) ==> j <= id
    ensures |DepositsOf(t, net)| > 0
    ensures CountOfId(DepositsOf(t, net), id) == Some(|DepositsOf(t, net)| - 1 as nat)
    ensures id == DepositsOf(t, net)[|DepositsOf(t, net)| - 1].id
  {
    var d := DepositsOf(t, net);
    assert id in Ids(d);
    var i :| 0 <= i < |d| && d[i].id == id;
    assert d[|d| - 1].id in RootIds(t.roots, net);
    assert i == |d| - 1;
    CountOfIdFinds(d, i);
  }

  ghost predicate HasKey(t: Tables, key: Digest)
  {
    exists r :: r in t.nodes && r.key == key
  }

  /**
    Every node on the way to leaf i in the tree of the first j+1 leaves is still stored: deposit j
    stored it, or an earlier deposit did and the subtree has not changed since.
   */
  lemma {:induction false} AncestorStored(t: Tables, net: Network, height: nat, i: nat, j: nat, h: nat)
    requires TreeOk(t, net, height) && i <= j < |DepositsOf(t, net)| && 1 <= h <= height
    ensures HasKey(t, Node(Leaves(DepositsOf(t, net))[..j + 1], h, Shr(i, h)))
    decreases j
  {
    var d := DepositsOf(t, net);
    var s := Leaves(d);
    if Shr(j, h) == Shr(i, h) {
      var row := PathRow(s[..j + 1], j, d[j].id, h - 1);
      assert row in PathRows(s[..j + 1], j, d[j].id, height);
      assert row in RowsOf(t, d[j].id);
      assert row in t.nodes && row.key == Node(s[..j + 1], h, Shr(i, h));
    } else {
      assert s[..j + 1] == s[..j] + [s[j]];
      NodeAppend(s[..j], s[j], h, Shr(i, h));
      AncestorStored(t, net, height, i, j - 1, h);
    }
  }
}
