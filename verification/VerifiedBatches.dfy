/**
  Verified batches: the exit root a batch reports for a rollup is recorded only if it is a root of the deposits
  stored for that rollup, provided that the service follows the rollup.
 */
module VerifiedBatches {
  import opened Bits
  import opened Hashing
  import opened CompleteTree
  import opened Outcomes
  import opened Storage
  import opened TableInvariants
  import opened Database
  import opened RollupExits
  import opened ProofServer
  import opened Synchronizer

  datatype VerifiedBatch = VerifiedBatch(rollupId: nat, localExitRoot: Digest)

  /** The root of some first deposits of a network. */
  ghost predicate HasRoot(t: Tables, net: Network, root: Digest, height: nat)
  {
    exists j: nat :: RecordedRoot(t, net, j, root, height)
  }

  /** Every leaf recorded for a followed rollup is empty or a root of deposits that are stored for it. */
  ghost predicate Vouched(t: Tables, batches: seq<Batch>, nets: set<Network>, height: nat)
  {
    forall i, net: Network :: 0 <= i < |batches| && net in nets ==> LeafVouched(t, batches[i].leaves, net, height)
  }

  ghost predicate LeafVouched(t: Tables, leaves: seq<Digest>, net: Network, height: nat)
  {
    1 <= net <= |leaves| && leaves[net - 1] != HASH_ZERO ==> HasRoot(t, net, leaves[net - 1], height)
  }

  /** The root rows of a network are the roots of its first deposits. */
  lemma RootRowsAre(t: Tables, net: Network, root: Digest, height: nat)
    requires TreeOk(t, net, height)
    ensures (exists id :: id in t.roots && t.roots[id] == RootRow(root, net)) <==> HasRoot(t, net, root, height)
  {
    var d := DepositsOf(t, net);
    if id :| id in t.roots && t.roots[id] == RootRow(root, net) {
      assert id in RootIds(t.roots, net);
      var j :| 0 <= j < |d| && d[j].id == id;
      assert RecordedRoot(t, net, j, root, height);
    }
    if HasRoot(t, net, root, height) {
      var j: nat :| RecordedRoot(t, net, j, root, height);
      assert t.roots[d[j].id] == RootRow(root, net);
    }
  }

  /** The count of a root in the root table; a refused query counts none. */
  method CheckIfRootExists(store: Connection, root: Digest, net: Network) returns (ok: bool)
    requires TablesOk(store.pending, store.height)
    modifies store`aborted, store`faults
    ensures store.Aged()
    ensures ok <==> !store.aborted && HasRoot(store.pending, net, root, store.height)
  {
    ok := store.Attempt();
    assert TreeOk(store.pending, net, store.height);
    RootRowsAre(store.pending, net, root, store.height);
    if ok {
      ok := exists id :: id in store.pending.roots && store.pending.roots[id] == RootRow(root, net);
    }
  }

  /** The vector that an accepted batch records. */
  function VectorOf(batches: seq<Batch>, e: VerifiedBatch): seq<Digest>
    requires e.rollupId >= 1
  {
    Updated(LatestLeaves(batches), e.rollupId, e.localExitRoot)
  }

  /** A batch is accepted: its vector can be recorded, and the exit root of a followed rollup is one of its roots. */
  ghost predicate Accepts(t: Tables, batches: seq<Batch>, e: VerifiedBatch, nets: set<Network>, height: nat,
                          faults: ExitFaults)
    requires e.rollupId >= 1
  {
    && (e.rollupId in nets ==> HasRoot(t, e.rollupId, e.localExitRoot, height))
    && !faults.latest && !StoreFails(batches, VectorOf(batches, e), height, faults)
  }

  /** The recorded vectors after a batch; an empty exit root records nothing. */
  ghost function WithBatch(t: Tables, batches: seq<Batch>, e: VerifiedBatch, block: nat, nets: set<Network>,
                           height: nat, faults: ExitFaults): seq<Batch>
    requires e.rollupId >= 1
  {
    if e.localExitRoot == HASH_ZERO || !Accepts(t, batches, e, nets, height, faults) then batches
    else ApplyOp(batches, Verify(ExitLeaf(block, e.localExitRoot, e.rollupId), faults), height)
  }

  /** At most one vector is recorded, after the others, and it has the block's number. */
  ghost predicate RecordedIn(batches: seq<Batch>, batches': seq<Batch>, block: nat)
  {
    batches <= batches' && |batches'| <= |batches| + 1 &&
    forall i :: |batches| <= i < |batches'| ==> batches'[i].block == block
  }

  /** A reorganisation undoes a batch: a reset below its block leaves the vectors of before. */
  lemma BatchUndone(t: Tables, batches: seq<Batch>, e: VerifiedBatch, block: nat, nets: set<Network>, height: nat,
                    faults: ExitFaults, k: nat)
    requires e.rollupId >= 1 && k < block && forall i :: 0 <= i < |batches| ==> batches[i].block <= k
    ensures BatchesUpTo(WithBatch(t, batches, e, block, nets, height, faults), k) == batches
  {
    var more := WithBatch(t, batches, e, block, nets, height, faults);
    if batches == [] {
      assert BatchesUpTo(batches, k) == [];
    } else {
      BatchesUpToExactly(batches, k, batches[0]);
    }
    if more != batches {
      assert more[..|more| - 1] == batches;
    }
  }

  /** Some recorded vector of this root covers first deposits of the network. */
  ghost predicate CoveredBySome(t: Tables, batches: seq<Batch>, root: Digest, net: Network, height: nat)
    requires net > 0
  {
    exists i: nat, j: nat :: RollupCovers(t, batches, i, root, net, j, height)
  }

  /**
    processVerifyBatch inside the transaction of a block. An empty exit root changes nothing. Otherwise the batch is
    accepted exactly if no query was refused and it is acceptable; then the recorded vector covers the deposits of a
    followed rollup. A batch that is not accepted is rolled back.
   */
  method ProcessVerifyBatch(s: ClientSynchronizer, rows: seq<ExitRow>, e: VerifiedBatch, block: nat, nets: set<Network>,
                            faults: ExitFaults, ghost batches: seq<Batch>)
    returns (r: Option<seq<ExitRow>>, ghost batches': seq<Batch>)
    requires s.InBlock(block) && !s.store.aborted
    requires ExitsOk(rows, batches, s.store.height) && e.rollupId >= 1
    modifies s.tree, s.store
    ensures s.store.Aged() && s.store.committed == old(s.store.committed)
    ensures e.localExitRoot == HASH_ZERO ==> r == Some(rows) && batches' == batches
    ensures r.None? ==> s.AtRest() && e.localExitRoot != HASH_ZERO && batches' == batches
    ensures RecordedIn(batches, batches', block)
    ensures r.None? ==> s.store.aborted || !Accepts(old(s.store.pending), batches, e, nets, s.store.height, faults)
    ensures r.None? ==>
              || s.store.aborted || faults != ExitFaults(false, false, false)
              || |Updated(LatestLeaves(batches), e.rollupId, e.localExitRoot)| > Pow2(s.store.height)
              || (e.rollupId in nets && !HasRoot(old(s.store.pending), e.rollupId, e.localExitRoot, s.store.height))
    ensures r.Some? ==> s.InBlock(block) && !s.store.aborted && s.store.pending == old(s.store.pending)
    ensures r.Some? ==> ExitsOk(r.value, batches', s.store.height)
    ensures r.Some? ==> batches' == WithBatch(old(s.store.pending), batches, e, block, nets, s.store.height, faults)
    ensures r.Some? && e.localExitRoot != HASH_ZERO ==>
              && Accepts(s.store.pending, batches, e, nets, s.store.height, faults)
              && (e.rollupId in nets ==>
                    CoveredBySome(s.store.pending, batches', Root(VectorOf(batches, e), s.store.height), e.rollupId,
                                  s.store.height))
  {
    if e.localExitRoot == HASH_ZERO {
      return Some(rows), batches;
    }
    if e.rollupId in nets {
      var ok := CheckIfRootExists(s.store, e.localExitRoot, e.rollupId);
      if !ok {
        s.Rollback();
        return None, batches;
      }
    }
    r, batches' := RecordBatch(s.store.pending, rows, e, block, nets, s.store.height, faults, batches);
    if r.None? {
      s.Rollback();
    }
  }

  /** Recording a batch whose exit root has been checked. */
  method RecordBatch(ghost t: Tables, rows: seq<ExitRow>, e: VerifiedBatch, block: nat, ghost nets: set<Network>,
                     height: nat, faults: ExitFaults, ghost batches: seq<Batch>)
    returns (r: Option<seq<ExitRow>>, ghost batches': seq<Batch>)
    requires height >= 1 && ExitsOk(rows, batches, height) && e.rollupId >= 1 && e.localExitRoot != HASH_ZERO
    requires e.rollupId in nets ==> HasRoot(t, e.rollupId, e.localExitRoot, height)
    ensures r.Some? <==> Accepts(t, batches, e, nets, height, faults)
    ensures r.None? ==> faults != ExitFaults(false, false, false) || |VectorOf(batches, e)| > Pow2(height)
    ensures batches' == WithBatch(t, batches, e, block, nets, height, faults)
    ensures RecordedIn(batches, batches', block)
    ensures r.Some? ==> ExitsOk(r.value, batches', height)
    ensures r.Some? && e.rollupId in nets ==>
              CoveredBySome(t, batches', Root(VectorOf(batches, e), height), e.rollupId, height)
  {
    var added;
    added, batches' :=
      AddRollupExitLeaf(rows, ExitLeaf(block, e.localExitRoot, e.rollupId), height, faults, batches);
    if added.Err? {
      return None, batches';
    }
    OneRecorded(batches, batches', VectorOf(batches, e), block, height);
    if e.rollupId in nets {
      NewestRecorded(batches, batches', VectorOf(batches, e), height);
      CoveredWhenRecorded(t, added.value, batches', VectorOf(batches, e), e.rollupId, height);
    }
    return Some(added.value), batches';
  }

  lemma OneRecorded(batches: seq<Batch>, batches': seq<Batch>, v: seq<Digest>, block: nat, height: nat)
    requires batches' == if Recorded(batches, Root(v, height)) then batches
                         else batches + [Batch(Root(v, height), v, block)]
    ensures RecordedIn(batches, batches', block)
  {
  }

  lemma NewestRecorded(batches: seq<Batch>, batches': seq<Batch>, v: seq<Digest>, height: nat)
    requires Recorded(batches, Root(v, height)) ==> batches' == batches
    requires !Recorded(batches, Root(v, height)) ==>
               exists block :: batches' == batches + [Batch(Root(v, height), v, block)]
    ensures Recorded(batches', Root(v, height))
  {
    if !Recorded(batches, Root(v, height)) {
      assert batches'[|batches|].root == Root(v, height);
    }
  }

  /** A block with one verified batch, as one transaction: the batch is recorded with the block, or nothing changes. */
  method ProcessBatchBlock(s: ClientSynchronizer, rows: seq<ExitRow>, e: VerifiedBatch, b: BlockRow, nets: set<Network>,
                           faults: ExitFaults, ghost batches: seq<Batch>)
    returns (ok: bool, rows': seq<ExitRow>, ghost batches': seq<Batch>)
    requires s.AtRest() && WithinBlock(DepositsOf(s.store.committed, s.net), b.number)
    requires ExitsOk(rows, batches, s.store.height) && e.rollupId >= 1
    modifies s.tree, s.store
    ensures s.AtRest() && old(s.store.faults) <= s.store.faults
    ensures !ok ==> s.store.committed == old(s.store.committed) && rows' == rows && batches' == batches
    ensures !ok ==> s.store.faults > old(s.store.faults) ||
                    (e.localExitRoot != HASH_ZERO &&
                     !Accepts(old(s.store.committed), batches, e, nets, s.store.height, faults))
    ensures RecordedIn(batches, batches', b.number)
    ensures ok ==> s.store.committed == InsertBlock(old(s.store.committed), s.net, b)
    ensures ok ==> ExitsOk(rows', batches', s.store.height)
    ensures ok ==> batches' == WithBatch(old(s.store.committed), batches, e, b.number, nets, s.store.height, faults)
  {
    rows', batches' := rows, batches;
    s.store.Begin();
    ok := s.store.AddBlock(s.net, b.number, b.hash);
    if !ok {
      s.Rollback();
      return;
    }
    ghost var t := s.store.committed;
    InsertBlockOk(t, s.net, b, s.store.height);
    SameVerdict(t, s.store.pending, batches, e, b.number, nets, s.store.height, faults);
    var r;
    ghost var more;
    r, more := ProcessVerifyBatch(s, rows, e, b.number, nets, faults, batches);
    if r.None? {
      return false, rows, batches;
    }
    ok := s.store.Commit();
    if !ok {
      s.Rollback();
      return;
    }
    rows', batches' := r.value, more;
  }

  lemma SameRoots(t: Tables, t': Tables, net: Network, root: Digest, height: nat)
    requires DepositsOf(t', net) == DepositsOf(t, net)
    ensures HasRoot(t', net, root, height) <==> HasRoot(t, net, root, height)
  {
    assert forall j: nat :: RecordedRoot(t', net, j, root, height) <==> RecordedRoot(t, net, j, root, height);
  }

  /** A batch is judged by the deposits of its rollup alone. */
  lemma SameVerdict(t: Tables, t': Tables, batches: seq<Batch>, e: VerifiedBatch, block: nat, nets: set<Network>,
                    height: nat, faults: ExitFaults)
    requires e.rollupId >= 1 && DepositsOf(t', e.rollupId) == DepositsOf(t, e.rollupId)
    ensures Accepts(t', batches, e, nets, height, faults) <==> Accepts(t, batches, e, nets, height, faults)
    ensures WithBatch(t', batches, e, block, nets, height, faults) ==
            WithBatch(t, batches, e, block, nets, height, faults)
  {
    SameRoots(t, t', e.rollupId, e.localExitRoot, height);
  }

  /** A new vector keeps the leaves of the last one, but for the checked leaf and empty rollups before it. */
  lemma RecordingKeeps(t: Tables, batches: seq<Batch>, nets: set<Network>, height: nat, e: VerifiedBatch, block: nat)
    requires e.rollupId >= 1
    requires e.rollupId in nets ==> HasRoot(t, e.rollupId, e.localExitRoot, height)
    ensures var v := Updated(LatestLeaves(batches), e.rollupId, e.localExitRoot);
            Vouched(t, batches, nets, height) ==> Vouched(t, batches + [Batch(Root(v, height), v, block)], nets, height)
  {
    var v := Updated(LatestLeaves(batches), e.rollupId, e.localExitRoot);
    if Vouched(t, batches, nets, height) {
      forall net: Network | net in nets
        ensures LeafVouched(t, v, net, height)
      {
        if batches != [] {
          assert LeafVouched(t, batches[|batches| - 1].leaves, net, height);
        }
      }
    }
  }

  /** A recorded root leads to a vector that has the rollup's leaf, even if the vector was recorded long before. */
  lemma CoveredWhenRecorded(t: Tables, rows: seq<ExitRow>, batches: seq<Batch>, v: seq<Digest>, net: Network,
                            height: nat)
    requires ExitsOk(rows, batches, height) && Recorded(batches, Root(v, height))
    requires 1 <= net <= |v| <= Pow2(height) && v[net - 1] != HASH_ZERO && HasRoot(t, net, v[net - 1], height)
    ensures exists i: nat, j: nat :: RollupCovers(t, batches, i, Root(v, height), net, j, height)
  {
    var i: nat :| i < |batches| && batches[i].root == Root(v, height);
    var j: nat :| RecordedRoot(t, net, j, v[net - 1], height);
    assert BatchOk(batches[i], height);
    SameRootSameLeaves(batches[i].leaves, v, height);
    assert LeafAt(batches[i].leaves, net - 1) == LeafAt(v, net - 1);
    assert RollupCovers(t, batches, i, Root(v, height), net, j, height);
  }

  /** More deposits leave every recorded leaf a root. */
  lemma DepositKeepsVouched(t: Tables, net: Network, row: DepositRow, batches: seq<Batch>, nets: set<Network>,
                            height: nat)
    requires Vouched(t, batches, nets, height)
    ensures Vouched(WithLeaf(t, net, row, height), batches, nets, height)
  {
    var t' := WithLeaf(t, net, row, height);
    forall i, m: Network | 0 <= i < |batches| && m in nets
      ensures LeafVouched(t', batches[i].leaves, m, height)
    {
      var leaves := batches[i].leaves;
      assert LeafVouched(t, leaves, m, height);
      if 1 <= m <= |leaves| && leaves[m - 1] != HASH_ZERO {
        var j: nat :| RecordedRoot(t, m, j, leaves[m - 1], height);
        assert Leaves(DepositsOf(t', m))[..j + 1] == Leaves(DepositsOf(t, m))[..j + 1];
        assert RecordedRoot(t', m, j, leaves[m - 1], height);
      }
    }
  }

  /** A reorganisation that removes recorded vectors leaves the others vouched for. */
  lemma ResetKeepsVouched(t: Tables, batches: seq<Batch>, block: nat, nets: set<Network>, height: nat)
    requires Vouched(t, batches, nets, height)
    ensures Vouched(t, BatchesUpTo(batches, block), nets, height)
  {
    ResetDropsBatches(batches, block);
    var kept := BatchesUpTo(batches, block);
    forall i, net: Network | 0 <= i < |kept| && net in nets
      ensures LeafVouched(t, kept[i].leaves, net, height)
    {
      assert kept[i] in kept;
      var j :| 0 <= j < |batches| && batches[j] == kept[i];
      assert LeafVouched(t, batches[j].leaves, net, height);
    }
  }

  /**
    A backward LET, or a reset, that keeps the first n deposits of a rollup: the root of its first j+1 deposits is
    still one of its roots exactly if these deposits were kept, or those removed from them were empty leaves.
   */
  lemma RootSurvives(t: Tables, t': Tables, net: Network, n: nat, j: nat, root: Digest, height: nat)
    requires TreeOk(t, net, height) && RecordedRoot(t, net, j, root, height)
    requires n <= |DepositsOf(t, net)| && DepositsOf(t', net) == DepositsOf(t, net)[..n]
    ensures HasRoot(t', net, root, height) <==>
            j < n || (n > 0 && forall k :: n <= k <= j ==> DepositsOf(t, net)[k].leaf == HASH_ZERO)
  {
    var d := DepositsOf(t, net);
    var s := Leaves(d);
    var s' := Leaves(DepositsOf(t', net));
    assert s' == s[..n];
    if j < n {
      assert s'[..j + 1] == s[..j + 1];
      assert RecordedRoot(t', net, j, root, height);
    } else if n > 0 && forall k :: n <= k <= j ==> d[k].leaf == HASH_ZERO {
      NodeLocal(s[..n], s[..j + 1], height, 0);
      assert s'[..n] == s[..n];
      assert RecordedRoot(t', net, n - 1, root, height);
    } else if HasRoot(t', net, root, height) {
      var i: nat :| RecordedRoot(t', net, i, root, height);
      assert s'[..i + 1] == s[..i + 1];
      SameRootSameLeaves(s[..i + 1], s[..j + 1], height);
      forall k | n <= k <= j
        ensures d[k].leaf == HASH_ZERO
      {
        assert LeafAt(s[..i + 1], k) == LeafAt(s[..j + 1], k);
      }
    }
  }

  /** So a backward LET ends the cover of a recorded vector as soon as it removes a deposit that the vector counts. */
  lemma BackwardLETEndsCover(t: Tables, batches: seq<Batch>, i: nat, root: Digest, net: Network, j: nat, n: nat,
                             height: nat, nextId: nat)
    requires net > 0 && TablesOk(t, height) && FreshFrom(t, nextId) && RollupCovers(t, batches, i, root, net, j, height)
    requires n <= j && DepositsOf(t, net)[n].leaf != HASH_ZERO
    ensures !exists k: nat :: RollupCovers(ResetDepositsTable(t, net, n), batches, i, root, net, k, height)
  {
    var t' := ResetDepositsTable(t, net, n);
    assert TreeOk(t, net, height);
    ResetDepositsOk(t, net, n, height, nextId);
    RootSurvives(t, t', net, n, j, batches[i].leaves[net - 1], height);
    forall k: nat
      ensures !RollupCovers(t', batches, i, root, net, k, height)
    {
      assert !RecordedRoot(t', net, k, batches[i].leaves[net - 1], height);
    }
  }

  // ---------- runs ----------

  /** What is committed: the tables with the next deposit id, and the recorded vectors. */
  datatype Ledger = Ledger(t: Tables, nextId: nat, batches: seq<Batch>)
  {
    ghost predicate Ok(height: nat)
    {
      TablesOk(t, height) && FreshFrom(t, nextId)
    }
  }

  /** What may be committed: a deposit, a backward LET or reset of a rollup, a verified batch, a reset of mainnet. */
  datatype Change =
    | Deposited(net: Network, leaf: Digest, block: nat)
    | CutBackTo(net: Network, n: nat)
    | Batched(e: VerifiedBatch, block: nat, faults: ExitFaults)
    | MainnetReset(block: nat)

  ghost function Changed(c: Ledger, ch: Change, nets: set<Network>, height: nat): Ledger
  {
    match ch
    case Deposited(net, leaf, block) =>
      var d := DepositsOf(c.t, net);
      if |d| < Capacity(height) && WithinBlock(d, block)
      then c.(t := WithLeaf(c.t, net, DepositRow(c.nextId, |d|, leaf, block), height), nextId := c.nextId + 1)
      else c
    case CutBackTo(net, n) => c.(t := ResetDepositsTable(c.t, net, n))
    case Batched(e, block, faults) =>
      if e.rollupId == 0 then c
      else c.(batches := WithBatch(c.t, c.batches, e, block, nets, height, faults))
    case MainnetReset(block) =>
      c.(t := ResetBlocksTable(c.t, 0, block), batches := BatchesUpTo(c.batches, block))
  }

  ghost function ChangedBy(c: Ledger, changes: seq<Change>, nets: set<Network>, height: nat): Ledger
  {
    if changes == [] then c
    else Changed(ChangedBy(c, changes[..|changes| - 1], nets, height), changes[|changes| - 1], nets, height)
  }

  /** A cut to n deposits leaves a recorded leaf a root: it keeps the deposits of it, or removes empty leaves only. */
  ghost predicate Spared(t: Tables, net: Network, n: nat, leaf: Digest, height: nat)
  {
    forall j: nat :: RecordedRoot(t, net, j, leaf, height) && n <= j ==>
      n > 0 && forall k :: n <= k <= j ==> DepositsOf(t, net)[k].leaf == HASH_ZERO
  }

  /** A change is harmless: a cut of a followed rollup spares every leaf recorded for it. */
  ghost predicate Harmless(c: Ledger, ch: Change, nets: set<Network>, height: nat)
  {
    ch.CutBackTo? && ch.net in nets && ch.net >= 1 && ch.n <= |DepositsOf(c.t, ch.net)| ==>
      forall i :: 0 <= i < |c.batches| ==> LeafSpared(c.t, c.batches[i].leaves, ch.net, ch.n, height)
  }

  ghost predicate LeafSpared(t: Tables, leaves: seq<Digest>, net: Network, n: nat, height: nat)
    requires net >= 1
  {
    net <= |leaves| && leaves[net - 1] != HASH_ZERO ==> Spared(t, net, n, leaves[net - 1], height)
  }

  /** Of one recorded leaf: it stays a root exactly if the cut spares it. */
  lemma LeafSurvives(t: Tables, t': Tables, net: Network, n: nat, leaves: seq<Digest>, height: nat)
    requires TreeOk(t, net, height) && n <= |DepositsOf(t, net)| && DepositsOf(t', net) == DepositsOf(t, net)[..n]
    requires net >= 1 && LeafVouched(t, leaves, net, height)
    ensures LeafVouched(t', leaves, net, height) <==> LeafSpared(t, leaves, net, n, height)
  {
    if net <= |leaves| && leaves[net - 1] != HASH_ZERO {
      var leaf := leaves[net - 1];
      forall j: nat | RecordedRoot(t, net, j, leaf, height)
        ensures HasRoot(t', net, leaf, height) <==>
                j < n || (n > 0 && forall k :: n <= k <= j ==> DepositsOf(t, net)[k].leaf == HASH_ZERO)
      {
        RootSurvives(t, t', net, n, j, leaf, height);
      }
    }
  }

  lemma OtherLeaves(t: Tables, t': Tables, net: Network, leaves: seq<Digest>, height: nat)
    requires net >= 1 ==> DepositsOf(t', net) == DepositsOf(t, net)
    ensures LeafVouched(t', leaves, net, height) <==> LeafVouched(t, leaves, net, height)
  {
    if 1 <= net <= |leaves| { SameRoots(t, t', net, leaves[net - 1], height); }
  }

  /** A cut keeps every recorded leaf a root exactly if it is harmless. */
  lemma CutKeepsVouched(c: Ledger, net: Network, n: nat, nets: set<Network>, height: nat)
    requires c.Ok(height) && Vouched(c.t, c.batches, nets, height)
    ensures Vouched(ResetDepositsTable(c.t, net, n), c.batches, nets, height) <==>
            Harmless(c, CutBackTo(net, n), nets, height)
  {
    var t' := ResetDepositsTable(c.t, net, n);
    var d := DepositsOf(c.t, net);
    ResetDepositsOk(c.t, net, n, height, c.nextId);
    assert TreeOk(c.t, net, height);
    assert n > |d| ==> d[..|d|] == d;
    forall i, m: Network | 0 <= i < |c.batches| && m in nets
      ensures LeafVouched(t', c.batches[i].leaves, m, height) <==>
              (m == net && net >= 1 && n <= |d| ==> LeafSpared(c.t, c.batches[i].leaves, net, n, height))
    {
      assert LeafVouched(c.t, c.batches[i].leaves, m, height);
      if m == net && net >= 1 && n <= |d| {
        LeafSurvives(c.t, t', net, n, c.batches[i].leaves, height);
      } else {
        OtherLeaves(c.t, t', m, c.batches[i].leaves, height);
      }
    }
  }

  lemma ResetKeepsLeaves(t: Tables, t': Tables, batches: seq<Batch>, nets: set<Network>, height: nat)
    requires Vouched(t, batches, nets, height) && forall m: Network :: m != 0 ==> DepositsOf(t', m) == DepositsOf(t, m)
    ensures Vouched(t', batches, nets, height)
  {
    forall i, m: Network | 0 <= i < |batches| && m in nets
      ensures LeafVouched(t', batches[i].leaves, m, height)
    {
      assert LeafVouched(t, batches[i].leaves, m, height);
      OtherLeaves(t, t', m, batches[i].leaves, height);
    }
  }

  /** From vouched-for vectors, one change leaves them so exactly if it is harmless. */
  lemma ChangeKeepsVouched(c: Ledger, ch: Change, nets: set<Network>, height: nat)
    requires c.Ok(height) && Vouched(c.t, c.batches, nets, height)
    ensures Changed(c, ch, nets, height).Ok(height)
    ensures Vouched(Changed(c, ch, nets, height).t, Changed(c, ch, nets, height).batches, nets, height) <==>
            Harmless(c, ch, nets, height)
  {
    match ch
    case Deposited(net, leaf, block) =>
      var d := DepositsOf(c.t, net);
      if |d| < Capacity(height) && WithinBlock(d, block) {
        WithLeafOk(c.t, net, DepositRow(c.nextId, |d|, leaf, block), height);
        DepositKeepsVouched(c.t, net, DepositRow(c.nextId, |d|, leaf, block), c.batches, nets, height);
      }
    case CutBackTo(net, n) =>
      ResetDepositsOk(c.t, net, n, height, c.nextId);
      CutKeepsVouched(c, net, n, nets, height);
    case Batched(e, block, faults) =>
      if e.rollupId >= 1 && e.localExitRoot != HASH_ZERO && Accepts(c.t, c.batches, e, nets, height, faults) {
        RecordingKeeps(c.t, c.batches, nets, height, e, block);
      }
    case MainnetReset(block) =>
      ResetBlocksOk(c.t, 0, block, height, c.nextId);
      ResetKeepsVouched(c.t, c.batches, block, nets, height);
      ResetKeepsLeaves(c.t, ResetBlocksTable(c.t, 0, block), BatchesUpTo(c.batches, block), nets, height);
  }

  /**
    Over any run of deposits, backward LETs, batches and resets: the recorded leaves of followed rollups are empty or
    roots of stored deposits at every time exactly if every cut of a followed rollup was harmless when it was made.
   */
  lemma {:induction false} RunStaysVouched(c: Ledger, changes: seq<Change>, nets: set<Network>, height: nat)
    requires c.Ok(height) && Vouched(c.t, c.batches, nets, height)
    ensures VouchedThroughout(c, changes, nets, height) <==> HarmlessThroughout(c, changes, nets, height)
    ensures HarmlessThroughout(c, changes, nets, height) ==> ChangedBy(c, changes, nets, height).Ok(height)
  {
    if changes == [] {
      assert changes[..0] == [];
    } else {
      var n := |changes| - 1;
      var front := changes[..n];
      RunStaysVouched(c, front, nets, height);
      VouchedSplit(c, changes, n, n + 1, nets, height);
      HarmlessSplit(c, changes, n, nets, height);
      if HarmlessThroughout(c, front, nets, height) {
        assert VouchedAfter(c, front, n, nets, height);
        SamePrefix(c, changes, n, n, nets, height);
        LastChange(c, changes, n, n + 1, nets, height);
      }
    }
  }

  ghost predicate VouchedAfter(c: Ledger, changes: seq<Change>, k: nat, nets: set<Network>, height: nat)
    requires k <= |changes|
  {
    var now := ChangedBy(c, changes[..k], nets, height);
    Vouched(now.t, now.batches, nets, height)
  }

  ghost predicate HarmlessAt(c: Ledger, changes: seq<Change>, k: nat, nets: set<Network>, height: nat)
    requires k < |changes|
  {
    Harmless(ChangedBy(c, changes[..k], nets, height), changes[k], nets, height)
  }

  ghost predicate VouchedThroughout(c: Ledger, changes: seq<Change>, nets: set<Network>, height: nat)
  {
    forall k :: 0 <= k <= |changes| ==> VouchedAfter(c, changes, k, nets, height)
  }

  ghost predicate HarmlessThroughout(c: Ledger, changes: seq<Change>, nets: set<Network>, height: nat)
  {
    forall k :: 0 <= k < |changes| ==> HarmlessAt(c, changes, k, nets, height)
  }

  /** A run up to some time does not depend on what comes later. */
  lemma SamePrefix(c: Ledger, changes: seq<Change>, n: nat, k: nat, nets: set<Network>, height: nat)
    requires k <= n <= |changes|
    ensures VouchedAfter(c, changes[..n], k, nets, height) <==> VouchedAfter(c, changes, k, nets, height)
    ensures k < n ==> (HarmlessAt(c, changes[..n], k, nets, height) <==> HarmlessAt(c, changes, k, nets, height))
  {
    assert changes[..n][..k] == changes[..k];
  }

  /** The last change and the run before it. */
  lemma VouchedSplit(c: Ledger, changes: seq<Change>, n: nat, n': nat, nets: set<Network>, height: nat)
    requires |changes| == n' == n + 1
    ensures VouchedThroughout(c, changes, nets, height) <==>
            VouchedThroughout(c, changes[..n], nets, height) && VouchedAfter(c, changes, n', nets, height)
  {
    forall k | 0 <= k <= n
      ensures VouchedAfter(c, changes[..n], k, nets, height) <==> VouchedAfter(c, changes, k, nets, height)
    {
      SamePrefix(c, changes, n, k, nets, height);
    }
  }

  lemma HarmlessSplit(c: Ledger, changes: seq<Change>, n: nat, nets: set<Network>, height: nat)
    requires |changes| == n + 1
    ensures HarmlessThroughout(c, changes, nets, height) <==>
            HarmlessThroughout(c, changes[..n], nets, height) && HarmlessAt(c, changes, n, nets, height)
  {
    forall k | 0 <= k < n
      ensures HarmlessAt(c, changes[..n], k, nets, height) <==> HarmlessAt(c, changes, k, nets, height)
    {
      SamePrefix(c, changes, n, k, nets, height);
    }
  }

  /** The last change of a run whose cuts were harmless so far. */
  lemma LastChange(c: Ledger, changes: seq<Change>, n: nat, n': nat, nets: set<Network>, height: nat)
    requires |changes| == n' == n + 1 && ChangedBy(c, changes[..n], nets, height).Ok(height)
    requires VouchedAfter(c, changes, n, nets, height)
    ensures VouchedAfter(c, changes, n', nets, height) <==> HarmlessAt(c, changes, n, nets, height)
    ensures ChangedBy(c, changes, nets, height).Ok(height)
  {
    assert changes[..n'] == changes;
    ChangeKeepsVouched(ChangedBy(c, changes[..n], nets, height), changes[n], nets, height);
  }
}
