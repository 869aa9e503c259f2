/**
  The rollup exit tree: mt.rollup_exit keeps, per recorded root, the full vector of rollup leaves.
  Rows are kept in id order; `batches` is the ghost list of recorded vectors.
 */
module RollupExits {
  import opened Bits
  import opened Hashing
  import opened CompleteTree
  import opened Outcomes
  import opened RootBuilders

  datatype ExitRow = ExitRow(leaf: Digest, rollupId: nat, root: Digest, block: nat)

  /** A leaf as the queries hand it out. */
  datatype ExitLeaf = ExitLeaf(block: nat, leaf: Digest, rollupId: nat)

  datatype ExitError = TooManyLeaves | RollupIdMismatch | RootMismatch | NoSiblings | BadIndex | Refused

  /** One recorded root with its leaves for rollups 1, 2, ... */
  datatype Batch = Batch(root: Digest, leaves: seq<Digest>, block: nat)

  function BatchRows(b: Batch): (rows: seq<ExitRow>)
    ensures |rows| == |b.leaves|
  {
    seq(|b.leaves|, i requires 0 <= i < |b.leaves| => ExitRow(b.leaves[i], i + 1, b.root, b.block))
  }

  function Flatten(batches: seq<Batch>): seq<ExitRow>
  {
    if batches == [] then [] else Flatten(batches[..|batches| - 1]) + BatchRows(batches[|batches| - 1])
  }

  ghost predicate BatchOk(b: Batch, height: nat)
  {
    1 <= |b.leaves| <= Pow2(height) && b.root == Root(b.leaves, height)
  }

  /** The table is a list of full vectors under distinct roots, none shorter than an earlier one. */
  ghost predicate ExitsOk(rows: seq<ExitRow>, batches: seq<Batch>, height: nat)
  {
    && rows == Flatten(batches)
    && (forall b :: b in batches ==> BatchOk(b, height))
    && Growing(batches)
  }

  /** Roots are distinct and no vector is shorter than an earlier one. */
  ghost predicate Growing(batches: seq<Batch>)
  {
    forall i, j :: 0 <= i < j < |batches| ==>
      batches[i].root != batches[j].root && |batches[i].leaves| <= |batches[j].leaves|
  }

  /** The leaves recorded last. */
  function LatestLeaves(batches: seq<Batch>): seq<Digest>
  {
    if batches == [] then [] else batches[|batches| - 1].leaves
  }

  ghost predicate Recorded(batches: seq<Batch>, root: Digest)
  {
    exists i :: 0 <= i < |batches| && batches[i].root == root
  }

  // ---------- queries ----------

  /** The last row of a rollup. */
  function LastOf(rows: seq<ExitRow>, rollupId: nat): Option<ExitRow>
  {
    if rows == [] then None
    else if rows[|rows| - 1].rollupId == rollupId then Some(rows[|rows| - 1])
    else LastOf(rows[..|rows| - 1], rollupId)
  }

  function MaxRollupId(rows: seq<ExitRow>): (m: nat)
    ensures forall r :: r in rows ==> r.rollupId <= m
  {
    if rows == [] then 0
    else
      var m := MaxRollupId(rows[1..]);
      assert forall r :: r in rows ==> r == rows[0] || r in rows[1..];
      if rows[0].rollupId > m then rows[0].rollupId else m
  }

  /** GetLatestRollupExitLeaves: the last row of every rollup, by rollup id. */
  function LatestUpTo(rows: seq<ExitRow>, bound: nat): seq<ExitLeaf>
  {
    if bound == 0 then match LastOf(rows, 0) case None => [] case Some(r) => [ExitLeaf(r.block, r.leaf, 0)]
    else LatestUpTo(rows, bound - 1) +
         match LastOf(rows, bound) case None => [] case Some(r) => [ExitLeaf(r.block, r.leaf, bound)]
  }

  function GetLatest(rows: seq<ExitRow>): seq<ExitLeaf>
  {
    LatestUpTo(rows, MaxRollupId(rows))
  }

  /** GetRollupExitLeavesByRoot; the rows of one root were inserted by rollup id. */
  function ByRoot(rows: seq<ExitRow>, root: Digest): seq<ExitRow>
  {
    if rows == [] then []
    else
      var rest := ByRoot(rows[..|rows| - 1], root);
      if rows[|rows| - 1].root == root then rest + [rows[|rows| - 1]] else rest
  }

  /** IsRollupExitRoot. */
  predicate IsExitRoot(rows: seq<ExitRow>, root: Digest)
  {
    |ByRoot(rows, root)| > 0
  }

  /** Reset deletes the rows of blocks above a number. */
  function RowsUpTo(rows: seq<ExitRow>, block: nat): seq<ExitRow>
  {
    if rows == [] then []
    else
      var rest := RowsUpTo(rows[..|rows| - 1], block);
      if rows[|rows| - 1].block <= block then rest + [rows[|rows| - 1]] else rest
  }

  function BatchesUpTo(batches: seq<Batch>, block: nat): seq<Batch>
  {
    if batches == [] then []
    else
      var rest := BatchesUpTo(batches[..|batches| - 1], block);
      if batches[|batches| - 1].block <= block then rest + [batches[|batches| - 1]] else rest
  }

  // ---------- the queries on a well-kept table ----------

  lemma {:induction false} ByRootConcat(a: seq<ExitRow>, b: seq<ExitRow>, root: Digest)
    ensures ByRoot(a + b, root) == ByRoot(a, root) + ByRoot(b, root)
  {
    if b == [] {
      assert a + b == a;
    } else {
      assert (a + b)[..|a + b| - 1] == a + b[..|b| - 1];
      ByRootConcat(a, b[..|b| - 1], root);
    }
  }

  lemma {:induction false} ByRootUniform(rows: seq<ExitRow>, root: Digest, other: Digest)
    requires forall r :: r in rows ==> r.root == other
    ensures ByRoot(rows, root) == if root == other then rows else []
  {
    if rows != [] {
      assert rows[|rows| - 1] in rows;
      ByRootUniform(rows[..|rows| - 1], root, other);
    }
  }

  lemma {:induction false} ByRootAbsent(batches: seq<Batch>, root: Digest)
    requires forall i :: 0 <= i < |batches| ==> batches[i].root != root
    ensures ByRoot(Flatten(batches), root) == []
  {
    if batches != [] {
      var front, b := batches[..|batches| - 1], batches[|batches| - 1];
      ByRootConcat(Flatten(front), BatchRows(b), root);
      ByRootUniform(BatchRows(b), root, b.root);
      ByRootAbsent(front, root);
    }
  }

  /** Reading a recorded root back gives exactly the vector recorded under it. */
  lemma {:induction false} ByRootReadsBack(batches: seq<Batch>, i: nat)
    requires i < |batches| && Growing(batches)
    ensures ByRoot(Flatten(batches), batches[i].root) == BatchRows(batches[i])
  {
    var n := |batches| - 1;
    var front, b := batches[..n], batches[n];
    ByRootConcat(Flatten(front), BatchRows(b), batches[i].root);
    ByRootUniform(BatchRows(b), batches[i].root, b.root);
    if i == n {
      assert forall j :: 0 <= j < n ==> batches[j].root != b.root;
      ByRootAbsent(front, b.root);
    } else {
      assert front[i] == batches[i] && batches[i].root != b.root;
      ByRootReadsBack(front, i);
    }
  }

  lemma RootsOfRows(batches: seq<Batch>, root: Digest)
    requires Growing(batches) && forall b :: b in batches ==> |b.leaves| >= 1
    ensures IsExitRoot(Flatten(batches), root) <==> Recorded(batches, root)
  {
    if Recorded(batches, root) {
      var i :| 0 <= i < |batches| && batches[i].root == root;
      assert batches[i] in batches;
      ByRootReadsBack(batches, i);
    } else {
      ByRootAbsent(batches, root);
    }
  }

  lemma {:induction false} LastOfConcat(a: seq<ExitRow>, b: seq<ExitRow>, rollupId: nat)
    ensures LastOf(a + b, rollupId) == if LastOf(b, rollupId).Some? then LastOf(b, rollupId) else LastOf(a, rollupId)
  {
    if b == [] {
      assert a + b == a;
    } else {
      assert (a + b)[..|a + b| - 1] == a + b[..|b| - 1];
      LastOfConcat(a, b[..|b| - 1], rollupId);
    }
  }

  /** Rows numbered 1, 2, ..., n. */
  lemma {:induction false} LastOfNumbered(rows: seq<ExitRow>, rollupId: nat)
    requires forall i :: 0 <= i < |rows| ==> rows[i].rollupId == i + 1
    ensures LastOf(rows, rollupId) == if 1 <= rollupId <= |rows| then Some(rows[rollupId - 1]) else None
  {
    if rows != [] { LastOfNumbered(rows[..|rows| - 1], rollupId); }
  }

  lemma {:induction false} NoRollupBeyond(batches: seq<Batch>, bound: nat, rollupId: nat)
    requires forall b :: b in batches ==> |b.leaves| <= bound
    requires rollupId == 0 || rollupId > bound
    ensures LastOf(Flatten(batches), rollupId) == None
  {
    if batches != [] {
      var front, b := batches[..|batches| - 1], batches[|batches| - 1];
      assert b in batches;
      LastOfConcat(Flatten(front), BatchRows(b), rollupId);
      LastOfNumbered(BatchRows(b), rollupId);
      NoRollupBeyond(front, bound, rollupId);
    }
  }

  /** Per rollup, the last row is the one of the last vector, because no vector is shorter than before. */
  lemma LastOfIsLatest(rows: seq<ExitRow>, batches: seq<Batch>, height: nat, rollupId: nat)
    requires ExitsOk(rows, batches, height) && batches != []
    ensures LastOf(rows, rollupId) ==
            if 1 <= rollupId <= |LatestLeaves(batches)|
            then Some(BatchRows(batches[|batches| - 1])[rollupId - 1]) else None
  {
    var n := |batches| - 1;
    var front, b := batches[..n], batches[n];
    LastOfConcat(Flatten(front), BatchRows(b), rollupId);
    LastOfNumbered(BatchRows(b), rollupId);
    if !(1 <= rollupId <= |b.leaves|) {
      forall c | c in front
        ensures |c.leaves| <= |b.leaves|
      {
        var j :| 0 <= j < n && front[j] == c;
        assert batches[j] == c;
      }
      NoRollupBeyond(front, |b.leaves|, rollupId);
    }
  }

  lemma {:induction false} LatestUpToIsLatest(rows: seq<ExitRow>, batches: seq<Batch>, height: nat, bound: nat)
    requires ExitsOk(rows, batches, height) && batches != []
    ensures var n := |LatestLeaves(batches)|;
            var r := LatestUpTo(rows, bound);
            && |r| == (if bound <= n then bound else n)
            && forall i :: 0 <= i < |r| ==> r[i].leaf == LatestLeaves(batches)[i] && r[i].rollupId == i + 1
  {
    LastOfIsLatest(rows, batches, height, bound);
    if bound > 0 {
      LatestUpToIsLatest(rows, batches, height, bound - 1);
    }
  }

  lemma {:induction false} FlattenIds(batches: seq<Batch>)
    requires batches != []
    ensures MaxRollupId(Flatten(batches)) >= |LatestLeaves(batches)|
  {
    var b := batches[|batches| - 1];
    if |b.leaves| > 0 {
      var last := BatchRows(b)[|b.leaves| - 1];
      assert last in Flatten(batches);
    }
  }

  /** GetLatestRollupExitLeaves hands out the vector recorded last. */
  lemma GetLatestIsLatest(rows: seq<ExitRow>, batches: seq<Batch>, height: nat)
    requires ExitsOk(rows, batches, height)
    ensures |GetLatest(rows)| == |LatestLeaves(batches)|
    ensures forall i :: 0 <= i < |GetLatest(rows)| ==>
              GetLatest(rows)[i].leaf == LatestLeaves(batches)[i] && GetLatest(rows)[i].rollupId == i + 1
  {
    if batches != [] {
      FlattenIds(batches);
      LatestUpToIsLatest(rows, batches, height, MaxRollupId(rows));
    }
  }

  // ---------- recording ----------

  /** The vector after one rollup's leaf changed, padded with empty rollups up to its id. */
  function Updated(leaves: seq<Digest>, rollupId: nat, leaf: Digest): (v: seq<Digest>)
    requires rollupId >= 1
    ensures |v| == if rollupId > |leaves| then rollupId else |leaves|
    ensures forall i :: 0 <= i < |v| ==>
              v[i] == if i == rollupId - 1 then leaf else if i < |leaves| then leaves[i] else HASH_ZERO
  {
    var padded := leaves + seq(if rollupId > |leaves| then rollupId - |leaves| else 0, _ => HASH_ZERO);
    padded[rollupId - 1 := leaf]
  }

  /** Which of the statements of an update the database refuses. */
  datatype ExitFaults = ExitFaults(latest: bool, lookup: bool, insert: bool)

  /** A vector cannot be recorded: it has too many leaves, or a statement that is needed for it is refused. */
  ghost predicate StoreFails(batches: seq<Batch>, leaves: seq<Digest>, height: nat, faults: ExitFaults)
  {
    |leaves| > Pow2(height) || faults.lookup || (faults.insert && !Recorded(batches, Root(leaves, height)))
  }

  /** storeLeaves: a root already recorded is not recorded again. */
  method StoreLeaves(rows: seq<ExitRow>, leaves: seq<Digest>, block: nat, height: nat, faults: ExitFaults,
                     ghost batches: seq<Batch>)
    returns (r: Result<seq<ExitRow>, ExitError>, ghost batches': seq<Batch>)
    requires height >= 1 && ExitsOk(rows, batches, height)
    requires |leaves| >= 1 && |leaves| >= |LatestLeaves(batches)|
    ensures r.Err? <==> StoreFails(batches, leaves, height, faults)
    ensures r.Err? <==> || |leaves| > Pow2(height) || faults.lookup
                        || (faults.insert && !Recorded(batches, Root(leaves, height)))
    ensures r.Err? ==> r.error == (if |leaves| > Pow2(height) then TooManyLeaves else Refused) && batches' == batches
    ensures r.Ok? ==> ExitsOk(r.value, batches', height) && Recorded(batches', Root(leaves, height))
    ensures r.Ok? ==> batches' == if Recorded(batches, Root(leaves, height)) then batches
                                  else batches + [Batch(Root(leaves, height), leaves, block)]
    ensures r.Ok? && Recorded(batches, Root(leaves, height)) ==> r.value == rows
  {
    batches' := batches;
    var root := BuildMTRoot(leaves, height);
    if root.Err? {
      return Err(TooManyLeaves), batches';
    }
    if faults.lookup {
      return Err(Refused), batches';
    }
    RootsOfRows(batches, root.value);
    if IsExitRoot(rows, root.value) {
      return Ok(rows), batches';
    }
    if faults.insert {
      return Err(Refused), batches';
    }
    var inserts: seq<ExitRow> := [];
    for i := 0 to |leaves|
      invariant |inserts| == i
      invariant forall j :: 0 <= j < i ==> inserts[j] == ExitRow(leaves[j], j + 1, root.value, block)
    {
      inserts := inserts + [ExitRow(leaves[i], i + 1, root.value, block)];
    }
    ghost var b := Batch(root.value, leaves, block);
    assert inserts == BatchRows(b);
    batches' := batches + [b];
    assert batches'[..|batches|] == batches;
    assert batches'[|batches|].root == root.value;
    forall i | 0 <= i < |batches|
      ensures |batches[i].leaves| <= |leaves| && batches[i].root != root.value
    {
    }
    return Ok(rows + inserts), batches';
  }

  /** Adds empty rollups until the vector reaches the id of the new leaf. */
  method PadRollups(latest: seq<ExitLeaf>, leaf: ExitLeaf, ghost leaves: seq<Digest>) returns (stored: seq<ExitLeaf>)
    requires |latest| == |leaves|
    requires forall i :: 0 <= i < |latest| ==> latest[i].leaf == leaves[i] && latest[i].rollupId == i + 1
    ensures |stored| == if leaf.rollupId > |leaves| then leaf.rollupId else |leaves|
    ensures forall i :: 0 <= i < |stored| ==> stored[i].rollupId == i + 1
    ensures forall i :: 0 <= i < |stored| ==> stored[i].leaf == if i < |leaves| then leaves[i] else HASH_ZERO
  {
    stored := latest;
    for i := |latest| to if leaf.rollupId > |latest| then leaf.rollupId else |latest|
      invariant |stored| == i
      invariant forall j :: 0 <= j < i ==> stored[j].rollupId == j + 1
      invariant forall j :: 0 <= j < i ==> stored[j].leaf == if j < |leaves| then leaves[j] else HASH_ZERO
    {
      stored := stored + [ExitLeaf(leaf.block, HASH_ZERO, i + 1)];
    }
  }

  method LeavesOf(stored: seq<ExitLeaf>) returns (leaves: seq<Digest>)
    ensures |leaves| == |stored|
    ensures forall i :: 0 <= i < |stored| ==> leaves[i] == stored[i].leaf
  {
    leaves := [];
    for k := 0 to |stored|
      invariant |leaves| == k
      invariant forall j :: 0 <= j < k ==> leaves[j] == stored[j].leaf
    {
      leaves := leaves + [stored[k].leaf];
    }
  }

  /**
    addRollupExitLeaf: the recorded table stays a list of full vectors, and the root of the updated
    vector is recorded afterwards. The id-mismatch error never fires.
   */
  method AddRollupExitLeaf(rows: seq<ExitRow>, leaf: ExitLeaf, height: nat, faults: ExitFaults,
                           ghost batches: seq<Batch>)
    returns (r: Result<seq<ExitRow>, ExitError>, ghost batches': seq<Batch>)
    requires height >= 1 && leaf.rollupId >= 1 && ExitsOk(rows, batches, height)
    ensures r.Err? <==>
              || faults.latest
              || StoreFails(batches, Updated(LatestLeaves(batches), leaf.rollupId, leaf.leaf), height, faults)
    ensures var v := Updated(LatestLeaves(batches), leaf.rollupId, leaf.leaf);
            r.Err? <==> || faults.latest || faults.lookup || |v| > Pow2(height)
                        || (faults.insert && !Recorded(batches, Root(v, height)))
    ensures r.Err? ==> r.error != RollupIdMismatch && batches' == batches
    ensures r.Ok? ==> ExitsOk(r.value, batches', height)
    ensures r.Ok? ==> var v := Updated(LatestLeaves(batches), leaf.rollupId, leaf.leaf);
                      batches' == if Recorded(batches, Root(v, height)) then batches
                                  else batches + [Batch(Root(v, height), v, leaf.block)]
  {
    if faults.latest {
      return Err(Refused), batches;
    }
    var stored := GetLatest(rows);
    GetLatestIsLatest(rows, batches, height);
    ghost var latest := LatestLeaves(batches);
    stored := PadRollups(stored, leaf, latest);
    if stored[leaf.rollupId - 1].rollupId == leaf.rollupId {
      stored := stored[leaf.rollupId - 1 := leaf];
    } else {
      return Err(RollupIdMismatch), batches;
    }
    var leaves := LeavesOf(stored);
    assert leaves == Updated(latest, leaf.rollupId, leaf.leaf);
    r, batches' := StoreLeaves(rows, leaves, leaf.block, height, faults, batches);
  }

  /**
    The last vector follows an update exactly when the updated vector's root is not the root of a
    superseded vector: storing a root that was recorded earlier is skipped, and the last vector
    then stays the superseding one.
   */
  lemma LatestFollowsUpdate(batches: seq<Batch>, rows: seq<ExitRow>, height: nat, v: seq<Digest>, block: nat,
                            batches': seq<Batch>)
    requires ExitsOk(rows, batches, height) && 1 <= |v| <= Pow2(height)
    requires batches' == if Recorded(batches, Root(v, height)) then batches
                         else batches + [Batch(Root(v, height), v, block)]
    ensures (forall i: nat :: LeafAt(LatestLeaves(batches'), i) == LeafAt(v, i)) <==>
            batches == [] || !Recorded(batches[..|batches| - 1], Root(v, height))
  {
    var root := Root(v, height);
    if Recorded(batches, root) {
      var n := |batches| - 1;
      var last := batches[n];
      assert BatchOk(last, height);
      if last.root == root {
        SameRootSameLeaves(last.leaves, v, height);
        assert !Recorded(batches[..n], root);
      } else {
        var i :| 0 <= i < |batches| && batches[i].root == root;
        assert batches[..n][i].root == root;
        if forall i: nat :: LeafAt(last.leaves, i) == LeafAt(v, i) {
          NodeLocal(last.leaves, v, height, 0);
          assert false;
        }
      }
    } else if batches != [] {
      var front := batches[..|batches| - 1];
      assert forall i :: 0 <= i < |front| ==> front[i] == batches[i];
    }
  }

  /** Equal roots of one height mean equal leaves, up to trailing zero leaves. */
  lemma SameRootSameLeaves(a: seq<Digest>, b: seq<Digest>, height: nat)
    requires Root(a, height) == Root(b, height) && |a| <= Pow2(height) && |b| <= Pow2(height)
    ensures forall i: nat :: LeafAt(a, i) == LeafAt(b, i)
  {
    forall i: nat
      ensures LeafAt(a, i) == LeafAt(b, i)
    {
      if i < Pow2(height) {
        ShrVanishes(i, height);
        NodeInjective(a, b, height, 0, i);
      }
    }
  }

  // ---------- reorganisations and whole runs ----------

  lemma {:induction false} RowsUpToConcat(a: seq<ExitRow>, b: seq<ExitRow>, block: nat)
    ensures RowsUpTo(a + b, block) == RowsUpTo(a, block) + RowsUpTo(b, block)
  {
    if b == [] {
      assert a + b == a;
    } else {
      assert (a + b)[..|a + b| - 1] == a + b[..|b| - 1];
      RowsUpToConcat(a, b[..|b| - 1], block);
    }
  }

  lemma {:induction false} RowsUpToUniform(rows: seq<ExitRow>, block: nat, at: nat)
    requires forall r :: r in rows ==> r.block == at
    ensures RowsUpTo(rows, block) == if at <= block then rows else []
  {
    if rows != [] {
      assert rows[|rows| - 1] in rows;
      RowsUpToUniform(rows[..|rows| - 1], block, at);
    }
  }

  /** Deleting blocks deletes whole vectors. */
  lemma {:induction false} ResetDropsBatches(batches: seq<Batch>, block: nat)
    ensures RowsUpTo(Flatten(batches), block) == Flatten(BatchesUpTo(batches, block))
    ensures forall b :: b in BatchesUpTo(batches, block) ==> b in batches && b.block <= block
  {
    if batches != [] {
      var front, b := batches[..|batches| - 1], batches[|batches| - 1];
      RowsUpToConcat(Flatten(front), BatchRows(b), block);
      RowsUpToUniform(BatchRows(b), block, b.block);
      ResetDropsBatches(front, block);
      var rest := BatchesUpTo(front, block);
      if b.block <= block { assert (rest + [b])[..|rest|] == rest; }
    }
  }

  /** A reset keeps exactly the vectors of blocks up to the number. */
  lemma {:induction false} BatchesUpToExactly(batches: seq<Batch>, block: nat, b: Batch)
    ensures b in BatchesUpTo(batches, block) <==> b in batches && b.block <= block
    ensures (forall i :: 0 <= i < |batches| ==> batches[i].block <= block) ==> BatchesUpTo(batches, block) == batches
  {
    if batches != [] {
      var front := batches[..|batches| - 1];
      BatchesUpToExactly(front, block, b);
      assert batches == front + [batches[|batches| - 1]];
    }
  }

  lemma GrowingAppend(batches: seq<Batch>, b: Batch)
    requires Growing(batches) && forall c :: c in batches ==> c.root != b.root && |c.leaves| <= |b.leaves|
    ensures Growing(batches + [b])
  {
  }

  /** What remains keeps its order, so distinct roots and growing lengths survive. */
  lemma {:induction false} ResetKeepsOrder(batches: seq<Batch>, block: nat)
    requires Growing(batches)
    ensures Growing(BatchesUpTo(batches, block))
  {
    if batches != [] {
      var n := |batches| - 1;
      var front, b := batches[..n], batches[n];
      ResetKeepsOrder(front, block);
      ResetDropsBatches(front, block);
      forall c | c in BatchesUpTo(front, block)
        ensures c.root != b.root && |c.leaves| <= |b.leaves|
      {
        var j :| 0 <= j < n && front[j] == c;
        assert batches[j] == c;
      }
      GrowingAppend(BatchesUpTo(front, block), b);
    }
  }

  lemma ResetKeepsExits(rows: seq<ExitRow>, batches: seq<Batch>, height: nat, block: nat)
    requires ExitsOk(rows, batches, height)
    ensures ExitsOk(RowsUpTo(rows, block), BatchesUpTo(batches, block), height)
  {
    ResetDropsBatches(batches, block);
    ResetKeepsOrder(batches, block);
  }

  datatype ExitOp = Verify(leaf: ExitLeaf, faults: ExitFaults) | Reorg(block: nat)

  /** The recorded vectors after one step, on the level of vectors. */
  ghost function ApplyOp(batches: seq<Batch>, op: ExitOp, height: nat): seq<Batch>
    requires op.Verify? ==> op.leaf.rollupId >= 1
  {
    match op
    case Verify(leaf, faults) =>
      var v := Updated(LatestLeaves(batches), leaf.rollupId, leaf.leaf);
      if faults.latest || StoreFails(batches, v, height, faults) || Recorded(batches, Root(v, height)) then batches
      else batches + [Batch(Root(v, height), v, leaf.block)]
    case Reorg(block) => BatchesUpTo(batches, block)
  }

  ghost function Replay(ops: seq<ExitOp>, height: nat): seq<Batch>
    requires forall op :: op in ops && op.Verify? ==> op.leaf.rollupId >= 1
  {
    if ops == [] then [] else ApplyOp(Replay(ops[..|ops| - 1], height), ops[|ops| - 1], height)
  }

  method RunExitOp(rows: seq<ExitRow>, op: ExitOp, height: nat, ghost batches: seq<Batch>) returns (rows': seq<ExitRow>)
    requires height >= 1 && ExitsOk(rows, batches, height) && (op.Verify? ==> op.leaf.rollupId >= 1)
    ensures ExitsOk(rows', ApplyOp(batches, op, height), height)
  {
    rows' := rows;
    match op {
      case Verify(leaf, faults) =>
        var r, _ := AddRollupExitLeaf(rows, leaf, height, faults, batches);
        if r.Ok? {
          rows' := r.value;
        }
      case Reorg(block) =>
        ResetKeepsExits(rows, batches, height, block);
        rows' := RowsUpTo(rows, block);
    }
  }

  /** Any run of verified batches, with refused statements, and reorganisations leaves exactly the rows of the vectors
    recorded and not reset. */
  method RunExitOps(ops: seq<ExitOp>, height: nat) returns (rows: seq<ExitRow>)
    requires height >= 1
    requires forall op :: op in ops && op.Verify? ==> op.leaf.rollupId >= 1
    ensures ExitsOk(rows, Replay(ops, height), height)
  {
    rows := [];
    for k := 0 to |ops|
      invariant ExitsOk(rows, Replay(ops[..k], height), height)
    {
      ghost var batches := Replay(ops[..k], height);
      assert ops[..k + 1][..k] == ops[..k];
      assert ops[k] in ops;
      rows := RunExitOp(rows, ops[k], height, batches);
    }
    assert ops[..|ops|] == ops;
  }

  /** A rollup that returns to an earlier leaf: the third update is skipped, and the second one stays the latest. */
  lemma ReturningLeafIsNotTracked(a: Digest, b: Digest, block: nat)
    requires a != b
    ensures var none := ExitFaults(false, false, false);
            var va, vb := Verify(ExitLeaf(block, a, 1), none), Verify(ExitLeaf(block, b, 1), none);
            && Replay([va, vb, va], 1) == [Batch(Root([a], 1), [a], block), Batch(Root([b], 1), [b], block)]
            && LatestLeaves(Replay([va, vb, va], 1)) == [b]
  {
    var none := ExitFaults(false, false, false);
    var va, vb := Verify(ExitLeaf(block, a, 1), none), Verify(ExitLeaf(block, b, 1), none);
    var b0, b1 := Batch(Root([a], 1), [a], block), Batch(Root([b], 1), [b], block);
    assert Pow2(1) == 2;
    assert Root([a], 1).left == a && Root([b], 1).left == b by {
      assert Node([a], 0, 0) == a && Node([b], 0, 0) == b;
    }
    assert Updated([], 1, a) == [a] && Updated([a], 1, b) == [b] && Updated([b], 1, a) == [a];
    assert [va, vb, va][..2] == [va, vb] && [va, vb][..1] == [va] && [va][..0] == [];
    assert Replay([], 1) == [];
    assert Replay([va], 1) == [b0];
    assert Replay([va, vb], 1) == [b0, b1];
    assert [b0, b1][0].root == Root([a], 1);
    assert Recorded([b0, b1], Root([a], 1));
  }

  /** The rows under a root: those of the one vector recorded under it, or none. */
  lemma RowsUnder(rows: seq<ExitRow>, batches: seq<Batch>, root: Digest, height: nat) returns (at: int)
    requires ExitsOk(rows, batches, height)
    ensures at < 0 ==> !Recorded(batches, root) && ByRoot(rows, root) == []
    ensures at >= 0 ==>
              && at < |batches| && batches[at].root == root && BatchOk(batches[at], height)
              && ByRoot(rows, root) == BatchRows(batches[at])
              && forall i :: 0 <= i < |batches| && batches[i].root == root ==> i == at
  {
    at := -1;
    if Recorded(batches, root) {
      at :| 0 <= at < |batches| && batches[at].root == root;
      ByRootReadsBack(batches, at);
      assert BatchOk(batches[at], height);
    } else {
      ByRootAbsent(batches, root);
    }
  }

  method LeafColumn(rows: seq<ExitRow>) returns (ls: seq<Digest>)
    ensures |ls| == |rows| && forall i :: 0 <= i < |rows| ==> ls[i] == rows[i].leaf
  {
    ls := [];
    for k := 0 to |rows|
      invariant |ls| == k
      invariant forall j :: 0 <= j < k ==> ls[j] == rows[j].leaf
    {
      ls := ls + [rows[k].leaf];
    }
  }

  lemma LeafUnderRoot(ls: seq<Digest>, index: nat, height: nat)
    requires index < |ls| <= Pow2(height)
    ensures Climb(ls[index], Proof(ls, index, height), index, height) == Root(ls, height)
  {
    ProofClimbs(ls, index, height, height);
    ShrVanishes(index, height);
  }

  /**
    getRollupExitProof: succeeds exactly if the query for the rows is not refused, the root is recorded and covers
    the rollup, and then returns that rollup's leaf with its proof against the root.
   */
  method GetRollupExitProof(rows: seq<ExitRow>, refused: bool, rollupIndex: nat, root: Digest, height: nat,
                            ghost batches: seq<Batch>)
    returns (r: Result<(seq<Digest>, Digest), ExitError>)
    requires height >= 1 && ExitsOk(rows, batches, height)
    ensures r.Ok? <==> !refused && exists i ::
                         0 <= i < |batches| && batches[i].root == root && rollupIndex < |batches[i].leaves|
    ensures !refused ==>
              forall i :: 0 <= i < |batches| && batches[i].root == root && rollupIndex < |batches[i].leaves| ==>
                r == Ok((Proof(batches[i].leaves, rollupIndex, height), batches[i].leaves[rollupIndex]))
    ensures r.Ok? ==> |r.value.0| == height && Climb(r.value.1, r.value.0, rollupIndex, height) == root
  {
    if refused {
      return Err(Refused);
    }
    ghost var at := RowsUnder(rows, batches, root, height);
    var ls := LeafColumn(ByRoot(rows, root));
    assert at >= 0 ==> ls == batches[at].leaves;
    var s := ComputeSiblings(rollupIndex, ls, height);
    if s.Err? {
      return Err(BadIndex);
    } else if root != s.value.1 {
      return Err(RootMismatch);
    }
    if |s.value.0| == 0 || |ls| == 0 {
      return Err(NoSiblings);
    }
    if |ls| <= rollupIndex {
      return Err(BadIndex);
    }
    LeafUnderRoot(ls, rollupIndex, height);
    return Ok((s.value.0, ls[rollupIndex]));
  }
}
