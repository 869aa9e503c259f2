/** The difference between the loaded and the worked-on claims, and writing it to the tables. */
module ClaimDiff {
  import opened Outcomes
  import opened ClaimTypes
  import opened ClaimPending

  datatype Added = Added(id: nat, row: GroupRow)
  datatype Updated = Updated(id: nat, entry: Entry)
  datatype StoreChanges = StoreChanges(adds: seq<Added>, updates: seq<Updated>, txs: seq<Tx>)

  /** New groups are added once each, with the deposits of their transactions. */
  ghost predicate AddsAre(adds: seq<Added>, before: map<nat, Group>, after: map<nat, Group>)
  {
    && (forall k :: 0 <= k < |adds| ==>
          adds[k].id in after && adds[k].id !in before &&
          adds[k].row == GroupRow(after[adds[k].id].entry, IdsOf(after[adds[k].id].txs)))
    && (forall k, l :: 0 <= k < l < |adds| ==> adds[k].id != adds[l].id)
    && (forall id :: id in after && id !in before ==> exists k :: 0 <= k < |adds| && adds[k].id == id)
  }

  /** Groups that were there are updated, once each, exactly if their entry changed. */
  ghost predicate UpdatesAre(updates: seq<Updated>, before: map<nat, Group>, after: map<nat, Group>)
  {
    && (forall k :: 0 <= k < |updates| ==>
          && updates[k].id in after && updates[k].id in before
          && updates[k].entry == after[updates[k].id].entry && updates[k].entry != before[updates[k].id].entry)
    && (forall k, l :: 0 <= k < l < |updates| ==> updates[k].id != updates[l].id)
    && (forall id :: id in after && id in before && before[id].entry != after[id].entry ==>
          exists k :: 0 <= k < |updates| && updates[k].id == id)
  }

  /** The first transaction of a deposit. */
  function Was(txs: seq<Tx>, depositId: nat): Option<Tx>
  {
    if txs == [] then None
    else if txs[0].depositId == depositId then Some(txs[0])
    else Was(txs[1..], depositId)
  }

  /** The i-th transaction of a group is new or not what it was. */
  ghost predicate ChangedAt(before: map<nat, Group>, after: map<nat, Group>, g: nat, i: nat)
  {
    && g in after && i < |after[g].txs|
    && (g in before ==> Was(before[g].txs, after[g].txs[i].depositId) != Some(after[g].txs[i]))
  }

  /** Exactly the changed transactions are updated, the one at each place once. */
  ghost predicate TxsAt(txs: seq<Tx>, at: seq<(nat, nat)>, before: map<nat, Group>, after: map<nat, Group>)
  {
    && |at| == |txs|
    && (forall k :: 0 <= k < |at| ==>
          ChangedAt(before, after, at[k].0, at[k].1) && txs[k] == after[at[k].0].txs[at[k].1])
    && (forall k, l :: 0 <= k < l < |at| ==> at[k] != at[l])
    && (forall g: nat, i: nat :: ChangedAt(before, after, g, i) ==> (g, i) in at)
  }

  /** Every transaction that is not as it was is updated, and only transactions of the groups are. */
  ghost predicate TxsAre(txs: seq<Tx>, before: map<nat, Group>, after: map<nat, Group>)
  {
    && (forall k :: 0 <= k < |txs| ==> HeldBySome(after, txs[k]))
    && (forall g, x :: Holds(after, g, x) && !Holds(before, g, x) ==> x in txs)
  }

  lemma AddsStep(adds: seq<Added>, before: map<nat, Group>, seen: map<nat, Group>, id: nat, g: Group)
    requires AddsAre(adds, before, seen) && id !in seen
    ensures id in before ==> AddsAre(adds, before, seen[id := g])
    ensures id !in before ==> AddsAre(adds + [Added(id, GroupRow(g.entry, IdsOf(g.txs)))], before, seen[id := g])
  {
    var more := adds + [Added(id, GroupRow(g.entry, IdsOf(g.txs)))];
    assert forall k :: 0 <= k < |adds| ==> more[k] == adds[k];
    assert more[|adds|].id == id;
  }

  lemma UpdatesStep(updates: seq<Updated>, before: map<nat, Group>, seen: map<nat, Group>, id: nat, g: Group)
    requires UpdatesAre(updates, before, seen) && id !in seen
    ensures id !in before || before[id].entry == g.entry ==> UpdatesAre(updates, before, seen[id := g])
    ensures id in before && before[id].entry != g.entry ==>
              UpdatesAre(updates + [Updated(id, g.entry)], before, seen[id := g])
  {
    var more := updates + [Updated(id, g.entry)];
    assert forall k :: 0 <= k < |updates| ==> more[k] == updates[k];
    assert more[|updates|].id == id;
  }

  method DiffGroup(before: map<nat, Group>, id: nat, g: Group, adds: seq<Added>, updates: seq<Updated>,
                   ghost seen: map<nat, Group>)
    returns (adds': seq<Added>, updates': seq<Updated>)
    requires AddsAre(adds, before, seen) && UpdatesAre(updates, before, seen) && id !in seen
    ensures AddsAre(adds', before, seen[id := g]) && UpdatesAre(updates', before, seen[id := g])
  {
    adds', updates' := adds, updates;
    AddsStep(adds, before, seen, id, g);
    UpdatesStep(updates, before, seen, id, g);
    if id !in before {
      adds' := adds + [Added(id, GroupRow(g.entry, IdsOf(g.txs)))];
    } else if before[id].entry != g.entry {
      updates' := updates + [Updated(id, g.entry)];
    }
  }

  method DiffGroups(before: map<nat, Group>, after: map<nat, Group>) returns (adds: seq<Added>, updates: seq<Updated>)
    ensures AddsAre(adds, before, after) && UpdatesAre(updates, before, after)
  {
    adds, updates := [], [];
    ghost var seen: map<nat, Group> := map[];
    var todo := after.Keys;
    while todo != {}
      invariant todo <= after.Keys
      invariant forall id :: id in seen <==> id in after && id !in todo
      invariant forall id :: id in seen ==> seen[id] == after[id]
      invariant AddsAre(adds, before, seen) && UpdatesAre(updates, before, seen)
      decreases |todo|
    {
      var id :| id in todo;
      todo := todo - {id};
      adds, updates := DiffGroup(before, id, after[id], adds, updates, seen);
      seen := seen[id := after[id]];
    }
    assert seen == after;
  }

  ghost predicate FoundIn(among: seq<Tx>, depositId: nat)
  {
    exists j :: 0 <= j < |among| && among[j].depositId == depositId
  }

  method GetTxByDepositID(txs: seq<Tx>, depositId: nat) returns (r: Option<Tx>)
    ensures r == Was(txs, depositId)
    ensures r.Some? <==> FoundIn(txs, depositId)
    ensures r.Some? ==> r.value in txs && r.value.depositId == depositId
  {
    for i := 0 to |txs|
      invariant forall j :: 0 <= j < i ==> txs[j].depositId != depositId
      invariant Was(txs, depositId) == Was(txs[i..], depositId)
    {
      if txs[i].depositId == depositId {
        return Some(txs[i]);
      }
    }
    r := None;
  }

  ghost predicate AllFound(txs: seq<Tx>, among: seq<Tx>)
  {
    forall i :: 0 <= i < |txs| ==> FoundIn(among, txs[i].depositId)
  }

  /** The transaction at a place differs from what it was. */
  ghost predicate Differs(before: Option<Group>, x: Tx)
  {
    before.Some? ==> Was(before.value.txs, x.depositId) != Some(x)
  }

  /** These are the places, in order, of the first n transactions that differ. */
  ghost predicate DiffsAt(before: Option<Group>, txs: seq<Tx>, n: nat, at: seq<nat>, changed: seq<Tx>)
    requires n <= |txs|
  {
    && |at| == |changed|
    && (forall k :: 0 <= k < |at| ==> at[k] < n && changed[k] == txs[at[k]] && Differs(before, txs[at[k]]))
    && (forall k, l :: 0 <= k < l < |at| ==> at[k] < at[l])
    && (forall i: nat :: i < n && Differs(before, txs[i]) ==> i in at)
  }

  /** The transactions of one group that differ from what they were. */
  method DiffMembers(before: Option<Group>, after: Group) returns (r: Option<seq<Tx>>, ghost at: seq<nat>)
    ensures r.Some? <==> (before.Some? ==> AllFound(after.txs, before.value.txs))
    ensures r.Some? ==> DiffsAt(before, after.txs, |after.txs|, at, r.value)
  {
    var changed := [];
    at := [];
    for i := 0 to |after.txs|
      invariant before.Some? ==> AllFound(after.txs[..i], before.value.txs)
      invariant DiffsAt(before, after.txs, i, at, changed)
    {
      var differs := true;
      if before.Some? {
        var old_ := GetTxByDepositID(before.value.txs, after.txs[i].depositId);
        if old_.None? {
          assert !AllFound(after.txs, before.value.txs);
          return None, at;
        }
        differs := old_.value != after.txs[i];
      }
      if differs {
        changed, at := changed + [after.txs[i]], at + [i];
      }
    }
    assert after.txs[..|after.txs|] == after.txs;
    r := Some(changed);
  }

  /** The places of one more group's changes. */
  ghost function PlacesIn(g: nat, at: seq<nat>): (r: seq<(nat, nat)>)
    ensures |r| == |at|
    ensures forall k :: 0 <= k < |at| ==> r[k] == (g, at[k])
  {
    seq(|at|, k requires 0 <= k < |at| => (g, at[k]))
  }

  /** With one more group seen. */
  lemma TxsAtStep(txs: seq<Tx>, at: seq<(nat, nat)>, before: map<nat, Group>, seen: map<nat, Group>, g: nat,
                  group: Group, changed: seq<Tx>, places: seq<nat>)
    requires TxsAt(txs, at, before, seen) && g !in seen
    requires DiffsAt(if g in before then Some(before[g]) else None, group.txs, |group.txs|, places, changed)
    ensures TxsAt(txs + changed, at + PlacesIn(g, places), before, seen[g := group])
  {
    var seen', at' := seen[g := group], at + PlacesIn(g, places);
    forall k | 0 <= k < |at'|
      ensures ChangedAt(before, seen', at'[k].0, at'[k].1)
      ensures (txs + changed)[k] == seen'[at'[k].0].txs[at'[k].1]
    {
      if k < |at| {
        assert at'[k] == at[k] && ChangedAt(before, seen, at[k].0, at[k].1);
      } else {
        assert at'[k] == (g, places[k - |at|]);
      }
    }
    forall k, l | 0 <= k < l < |at'|
      ensures at'[k] != at'[l]
    {
      if l >= |at| {
        assert at'[l].0 == g;
        if k < |at| { assert ChangedAt(before, seen, at[k].0, at[k].1); }
      }
    }
    forall h: nat, i: nat | ChangedAt(before, seen', h, i)
      ensures (h, i) in at'
    {
      PlaceFound(at, before, seen, g, group, places, h, i);
    }
  }

  lemma PlaceFound(at: seq<(nat, nat)>, before: map<nat, Group>, seen: map<nat, Group>, g: nat, group: Group,
                   places: seq<nat>, h: nat, i: nat)
    requires forall h: nat, i: nat :: ChangedAt(before, seen, h, i) ==> (h, i) in at
    requires forall i: nat ::
               i < |group.txs| && Differs(if g in before then Some(before[g]) else None, group.txs[i]) ==> i in places
    requires ChangedAt(before, seen[g := group], h, i)
    ensures (h, i) in at + PlacesIn(g, places)
  {
    if h != g {
      assert ChangedAt(before, seen, h, i);
    } else {
      assert Differs(if g in before then Some(before[g]) else None, group.txs[i]);
      var k :| 0 <= k < |places| && places[k] == i;
      assert (at + PlacesIn(g, places))[|at| + k] == (h, i);
    }
  }

  method DiffTxs(before: map<nat, Group>, after: map<nat, Group>)
    returns (r: Option<seq<Tx>>, ghost at: seq<(nat, nat)>)
    ensures r.Some? <==> forall g :: g in before && g in after ==> AllFound(after[g].txs, before[g].txs)
    ensures r.Some? ==> TxsAt(r.value, at, before, after)
  {
    var txs := [];
    var todo := after.Keys;
    ghost var seen: map<nat, Group> := map[];
    at := [];
    while todo != {}
      invariant todo <= after.Keys
      invariant forall g :: g in seen <==> g in after && g !in todo
      invariant forall g :: g in seen ==> seen[g] == after[g]
      invariant forall g :: g in before && g in seen ==> AllFound(after[g].txs, before[g].txs)
      invariant TxsAt(txs, at, before, seen)
      decreases |todo|
    {
      var g :| g in todo;
      ghost var places;
      var changed;
      changed, places := DiffMembers(if g in before then Some(before[g]) else None, after[g]);
      if changed.None? {
        return None, at;
      }
      TxsAtStep(txs, at, before, seen, g, after[g], changed.value, places);
      txs, at := txs + changed.value, at + PlacesIn(g, places);
      todo, seen := todo - {g}, seen[g := after[g]];
    }
    assert seen == after;
    r := Some(txs);
  }

  /** What is updated is in some group, and what is not as it was is updated. */
  lemma TxsAtAre(txs: seq<Tx>, at: seq<(nat, nat)>, before: map<nat, Group>, after: map<nat, Group>)
    requires TxsAt(txs, at, before, after)
    ensures TxsAre(txs, before, after)
  {
    forall k | 0 <= k < |txs|
      ensures HeldBySome(after, txs[k])
    {
      assert Holds(after, at[k].0, txs[k]);
    }
    forall g: nat, x | Holds(after, g, x) && !Holds(before, g, x)
      ensures x in txs
    {
      var i: nat :| i < |after[g].txs| && after[g].txs[i] == x;
      if g in before { WasIn(before[g].txs, x.depositId); }
      assert ChangedAt(before, after, g, i);
      var k :| 0 <= k < |at| && at[k] == (g, i);
      assert txs[k] == x;
    }
  }

  lemma {:induction false} WasIn(txs: seq<Tx>, depositId: nat)
    ensures Was(txs, depositId).Some? ==> Was(txs, depositId).value in txs
  {
    if txs != [] { WasIn(txs[1..], depositId); }
  }

  /** The changes to store, unless a transaction of a known group is unknown in it. */
  method GenerateStoreUpdate(before: map<nat, Group>, after: map<nat, Group>)
    returns (r: Option<StoreChanges>, ghost at: seq<(nat, nat)>)
    ensures r.Some? <==> forall g :: g in before && g in after ==> AllFound(after[g].txs, before[g].txs)
    ensures r.Some? ==>
          AddsAre(r.value.adds, before, after) && UpdatesAre(r.value.updates, before, after)
    ensures r.Some? ==> TxsAt(r.value.txs, at, before, after)
  {
    var adds, updates := DiffGroups(before, after);
    var txs;
    txs, at := DiffTxs(before, after);
    r := if txs.None? then None else Some(StoreChanges(adds, updates, txs.value));
  }

  ghost predicate AddsDone(t: ClaimTables, t': ClaimTables, adds: seq<Added>)
  {
    && t'.txs == t.txs
    && (forall id :: id in t.groups ==> id in t'.groups && t'.groups[id] == t.groups[id])
    && (forall k :: 0 <= k < |adds| ==> adds[k].id in t'.groups && t'.groups[adds[k].id] == adds[k].row)
    && (forall id :: id in t'.groups ==> id in t.groups || exists k :: 0 <= k < |adds| && adds[k].id == id)
  }

  /** A stored group after an update of its entry; its age is not written. */
  function RewrittenRow(row: GroupRow, e: Entry): GroupRow
  {
    row.(entry := e.(createdAt := row.entry.createdAt))
  }

  ghost predicate UpdatesDone(t: ClaimTables, t': ClaimTables, updates: seq<Updated>)
  {
    && t'.txs == t.txs
    && t'.groups.Keys == t.groups.Keys
    && (forall k :: 0 <= k < |updates| && updates[k].id in t.groups ==>
          t'.groups[updates[k].id] == RewrittenRow(t.groups[updates[k].id], updates[k].entry))
    && (forall id :: id in t.groups && (forall k :: 0 <= k < |updates| ==> updates[k].id != id) ==>
          t'.groups[id] == t.groups[id])
  }

  /** A stored transaction after an update of it; its exit root, age and destination are not written. */
  function Merged(row: Tx, tx: Tx): Tx
  {
    row.(status := tx.status, groupId := tx.groupId, sent := tx.sent, data := tx.data)
  }

  ghost predicate TxsDone(t: ClaimTables, t': ClaimTables, txs: seq<Tx>)
  {
    && t'.groups == t.groups
    && t'.txs.Keys == t.txs.Keys
    && (forall k :: 0 <= k < |txs| && txs[k].depositId in t.txs ==>
          t'.txs[txs[k].depositId] == Merged(t.txs[txs[k].depositId], txs[k]))
    && (forall d :: d in t.txs && (forall k :: 0 <= k < |txs| ==> txs[k].depositId != d) ==> t'.txs[d] == t.txs[d])
  }

  /** The tables of claims, and their version inside a transaction. */
  class ClaimStore {
    var committed: ClaimTables
    var working: ClaimTables

    constructor (t: ClaimTables)
      ensures committed == working == t
    {
      committed, working := t, t;
    }

    method Begin()
      modifies this`working
      ensures working == committed
    {
      working := committed;
    }

    method Rollback()
      modifies this`working
      ensures working == committed
    {
      working := committed;
    }

    method Commit(fails: bool) returns (ok: bool)
      modifies this`committed
      ensures ok == !fails
      ensures committed == if ok then working else old(committed)
    {
      if !fails {
        committed := working;
      }
      ok := !fails;
    }

    method AddMonitoredTxsGroup(id: nat, row: GroupRow, fails: bool) returns (ok: bool)
      modifies this`working
      ensures ok <==> !fails && id !in old(working.groups)
      ensures working == if ok then old(working).(groups := old(working.groups)[id := row]) else old(working)
    {
      ok := !fails && id !in working.groups;
      if ok {
        working := working.(groups := working.groups[id := row]);
      }
    }

    method UpdateMonitoredTxsGroup(id: nat, entry: Entry, fails: bool) returns (ok: bool)
      modifies this`working
      ensures ok == !fails
      ensures working == if ok && id in old(working.groups)
                         then old(working).(groups := old(working.groups)[id :=
                                RewrittenRow(old(working.groups)[id], entry)])
                         else old(working)
    {
      if !fails && id in working.groups {
        working := working.(groups := working.groups[id := RewrittenRow(working.groups[id], entry)]);
      }
      ok := !fails;
    }

    method UpdateClaimTx(tx: Tx, fails: bool) returns (ok: bool)
      modifies this`working
      ensures ok == !fails
      ensures working == if ok && tx.depositId in old(working.txs)
                         then old(working).(txs := old(working.txs)[tx.depositId :=
                                Merged(old(working.txs)[tx.depositId], tx)])
                         else old(working)
    {
      if !fails && tx.depositId in working.txs {
        working := working.(txs := working.txs[tx.depositId := Merged(working.txs[tx.depositId], tx)]);
      }
      ok := !fails;
    }

    method ExecuteAdds(adds: seq<Added>, faults: nat -> bool) returns (ok: bool)
      modifies this`working
      ensures ok ==> AddsDone(old(working), working, adds)
      ensures (&& (forall n :: !faults(n))
               && (forall k :: 0 <= k < |adds| ==> adds[k].id !in old(working.groups))
               && (forall k, l :: 0 <= k < l < |adds| ==> adds[k].id != adds[l].id)) ==> ok
    {
      for i := 0 to |adds|
        invariant AddsDone(old(working), working, adds[..i])
      {
        ghost var before := working;
        var done := AddMonitoredTxsGroup(adds[i].id, adds[i].row, faults(i));
        if !done {
          return false;
        }
        AddsSnoc(old(working), before, working, adds[..i], adds[i]);
        assert adds[..i + 1] == adds[..i] + [adds[i]];
      }
      assert adds[..|adds|] == adds;
      ok := true;
    }

    method ExecuteUpdates(updates: seq<Updated>, faults: nat -> bool) returns (ok: bool)
      requires forall k, l :: 0 <= k < l < |updates| && updates[k].id == updates[l].id ==>
            updates[k].entry == updates[l].entry
      modifies this`working
      ensures ok ==> UpdatesDone(old(working), working, updates)
      ensures (forall n :: !faults(n)) ==> ok
    {
      for i := 0 to |updates|
        invariant UpdatesDone(old(working), working, updates[..i])
      {
        ghost var before := working;
        var done := UpdateMonitoredTxsGroup(updates[i].id, updates[i].entry, faults(i));
        if !done {
          return false;
        }
        UpdatesSnoc(old(working), before, working, updates[..i], updates[i]);
        assert updates[..i + 1] == updates[..i] + [updates[i]];
      }
      assert updates[..|updates|] == updates;
      ok := true;
    }

    method ExecuteTxs(txs: seq<Tx>, faults: nat -> bool) returns (ok: bool)
      requires forall k, l :: 0 <= k < l < |txs| && txs[k].depositId == txs[l].depositId ==> txs[k] == txs[l]
      modifies this`working
      ensures ok ==> TxsDone(old(working), working, txs)
      ensures (forall n :: !faults(n)) ==> ok
    {
      for i := 0 to |txs|
        invariant TxsDone(old(working), working, txs[..i])
      {
        ghost var before := working;
        var done := UpdateClaimTx(txs[i], faults(i));
        if !done {
          return false;
        }
        TxsSnoc(old(working), before, working, txs[..i], txs[i]);
        assert txs[..i + 1] == txs[..i] + [txs[i]];
      }
      assert txs[..|txs|] == txs;
      ok := true;
    }
  }

  lemma AddsSnoc(t: ClaimTables, m: ClaimTables, t': ClaimTables, adds: seq<Added>, a: Added)
    requires AddsDone(t, m, adds) && a.id !in m.groups && t' == m.(groups := m.groups[a.id := a.row])
    ensures AddsDone(t, t', adds + [a])
  {
    var more := adds + [a];
    assert forall k :: 0 <= k < |adds| ==> more[k] == adds[k];
    assert more[|adds|] == a;
  }

  lemma UpdatesSnoc(t: ClaimTables, m: ClaimTables, t': ClaimTables, updates: seq<Updated>, u: Updated)
    requires UpdatesDone(t, m, updates)
    requires forall k :: 0 <= k < |updates| && updates[k].id == u.id ==> updates[k].entry == u.entry
    requires t' == if u.id in m.groups
                   then m.(groups := m.groups[u.id := RewrittenRow(m.groups[u.id], u.entry)])
                   else m
    ensures UpdatesDone(t, t', updates + [u])
  {
    var more := updates + [u];
    assert forall k :: 0 <= k < |updates| ==> more[k] == updates[k];
    assert more[|updates|] == u;
    if u.id in t.groups {
      if k :| 0 <= k < |updates| && updates[k].id == u.id {
        assert m.groups[u.id] == RewrittenRow(t.groups[u.id], u.entry);
      }
    }
  }

  lemma TxsSnoc(t: ClaimTables, m: ClaimTables, t': ClaimTables, txs: seq<Tx>, x: Tx)
    requires TxsDone(t, m, txs)
    requires forall k :: 0 <= k < |txs| && txs[k].depositId == x.depositId ==> txs[k] == x
    requires t' == if x.depositId in m.txs then m.(txs := m.txs[x.depositId := Merged(m.txs[x.depositId], x)]) else m
    ensures TxsDone(t, t', txs + [x])
  {
    var more := txs + [x];
    assert forall k :: 0 <= k < |txs| ==> more[k] == txs[k];
    assert more[|txs|] == x;
    if x.depositId in t.txs {
      if k :| 0 <= k < |txs| && txs[k].depositId == x.depositId {
        assert m.txs[x.depositId] == Merged(t.txs[x.depositId], x);
      }
    }
  }
}
