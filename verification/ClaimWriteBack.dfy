/** Loading claims, writing them back, and reloading them. */
module ClaimWriteBack {
  import opened Hashing
  import opened Outcomes
  import opened ClaimTypes
  import opened ClaimPending
  import opened ClaimDiff

  /** The groups in memory are those of the open transactions of a network, entries and members as stored. */
  ghost predicate LoadedFrom(groups: map<nat, Group>, t: ClaimTables, rollup: nat)
  {
    && (forall g :: g in groups ==>
          g in t.groups && groups[g].entry == t.groups[g].entry && groups[g].txs != [] && Distinct(groups[g].txs))
    && (forall g, x :: Holds(groups, g, x) ==>
          x.depositId in t.txs && t.txs[x.depositId] == x && Wanted(x, rollup) && InGroup(x, g))
    && (forall d :: d in t.txs && Wanted(t.txs[d], rollup) && t.txs[d].groupId.Some? ==>
          Holds(groups, t.txs[d].groupId.value, t.txs[d]))
  }

  /** Candidates are open, unsent, ungrouped transactions of the network under one exit root, oldest first. */
  ghost predicate CandidatesFrom(txs: seq<Tx>, t: ClaimTables, rollup: nat)
  {
    && Distinct(txs)
    && (forall i :: 0 <= i < |txs| ==>
          && txs[i].depositId in t.txs && t.txs[txs[i].depositId] == txs[i]
          && Wanted(txs[i], rollup) && txs[i].IsCandidateToBeGrouped(txs[i].ger))
    && (forall i, j :: 0 <= i < j < |txs| ==> txs[i].ger == txs[j].ger)
  }

  /** A global exit root of an oldest open transaction of the network. */
  ghost predicate OldestRoot(t: ClaimTables, rollup: nat, ger: Digest)
  {
    exists d :: d in t.txs && Wanted(t.txs[d], rollup) && t.txs[d].ger == ger && OldestOf(t, rollup, t.txs[d].createdAt)
  }

  ghost predicate OldestOf(t: ClaimTables, rollup: nat, createdAt: int)
  {
    forall d :: d in t.txs && Wanted(t.txs[d], rollup) ==> createdAt <= t.txs[d].createdAt
  }

  /** All candidates under one exit root. */
  ghost predicate CandidatesUnder(txs: seq<Tx>, t: ClaimTables, rollup: nat, ger: Digest)
  {
    forall d :: d in t.txs && Wanted(t.txs[d], rollup) ==> (t.txs[d] in txs <==> t.txs[d].IsCandidateToBeGrouped(ger))
  }

  /** What can be grouped now, oldest first: all candidates under the exit root of the oldest open transaction. */
  ghost predicate AllCandidates(txs: seq<Tx>, t: ClaimTables, rollup: nat)
  {
    && CandidatesFrom(txs, t, rollup)
    && OldestFirst(txs)
    && ((exists d :: d in t.txs && Wanted(t.txs[d], rollup)) ==>
          exists ger :: OldestRoot(t, rollup, ger) && CandidatesUnder(txs, t, rollup, ger))
  }

  method GetLatestMonitoredTxGroupID(t: ClaimTables) returns (last: nat)
    ensures forall g :: g in t.groups ==> g <= last
    ensures last == 0 || last in t.groups
  {
    last := 0;
    var todo := t.groups.Keys;
    while todo != {}
      invariant todo <= t.groups.Keys
      invariant forall g :: g in t.groups ==> g in todo || g <= last
      invariant last == 0 || last in t.groups
      decreases |todo|
    {
      var g :| g in todo;
      if g > last {
        last := g;
      }
      todo := todo - {g};
    }
  }

  lemma LoadIsFaithful(t: ClaimTables, rollup: nat, txs: seq<Tx>, rows: map<nat, GroupRow>, groups: map<nat, Group>)
    requires Keyed(t) && Selection(t, rollup, txs) && GroupsOf(groups, txs, rows)
    requires forall g :: g in rows ==> g in t.groups && rows[g] == t.groups[g]
    ensures LoadedFrom(groups, t, rollup)
  {
    forall g | g in groups
      ensures Distinct(groups[g].txs)
      ensures forall x :: x in groups[g].txs <==> x in txs && InGroup(x, g)
    {
      MembersAre(txs, g);
    }
  }

  lemma CandidatesAreFaithful(t: ClaimTables, rollup: nat, txs: seq<Tx>)
    requires Selection(t, rollup, txs) && txs != []
    ensures CandidatesFrom(Candidates(txs, txs[0].ger), t, rollup)
  {
    var c := Candidates(txs, txs[0].ger);
    CandidatesAre(txs, txs[0].ger);
    forall i | 0 <= i < |c|
      ensures c[i] in txs && c[i].IsCandidateToBeGrouped(txs[0].ger)
    {
      assert c[i] in c;
    }
  }

  lemma {:induction false} CandidatesSorted(txs: seq<Tx>, ger: Digest)
    requires OldestFirst(txs)
    ensures OldestFirst(Candidates(txs, ger))
  {
    if txs != [] {
      var n := |txs| - 1;
      CandidatesSorted(txs[..n], ger);
      CandidatesAre(txs[..n], ger);
      var c := Candidates(txs[..n], ger);
      forall i | 0 <= i < |c|
        ensures c[i].createdAt <= txs[n].createdAt
      {
        assert c[i] in c;
        var j :| 0 <= j < n && txs[j] == c[i];
      }
    }
  }

  /** The candidates that are loaded are all there are. */
  lemma LoadedCandidates(t: ClaimTables, rollup: nat, txs: seq<Tx>, c: seq<Tx>)
    requires Selection(t, rollup, txs) && c == if txs == [] then [] else Candidates(txs, txs[0].ger)
    ensures AllCandidates(c, t, rollup)
  {
    if txs != [] {
      var first := txs[0];
      CandidatesAreFaithful(t, rollup, txs);
      CandidatesSorted(txs, first.ger);
      CandidatesAre(txs, first.ger);
      forall d | d in t.txs && Wanted(t.txs[d], rollup)
        ensures first.createdAt <= t.txs[d].createdAt
      {
        var j :| 0 <= j < |txs| && txs[j] == t.txs[d];
      }
      assert OldestOf(t, rollup, t.txs[first.depositId].createdAt);
      assert OldestRoot(t, rollup, first.ger) && CandidatesUnder(c, t, rollup, first.ger);
    }
  }

  /** An open claim of a network whose deposit is there. */
  ghost predicate OpenClaim(x: Tx, rollup: nat)
  {
    (x.status == Created || x.status == Compressing || x.status == Claiming) && !x.gone && x.dest == rollup
  }

  /**
    Which stored claims are candidates: under the exit root of an oldest open claim of the network, all that were just
    created, are in no group, were never sent on their own, and whose deposits are there. Without open claims none is.
   */
  lemma CandidatesExactly(c: seq<Tx>, t: ClaimTables, rollup: nat) returns (ger: Digest)
    requires AllCandidates(c, t, rollup)
    ensures c != [] ==> exists d :: d in t.txs && OpenClaim(t.txs[d], rollup)
    ensures (exists d :: d in t.txs && OpenClaim(t.txs[d], rollup)) ==>
              exists d :: d in t.txs && OpenClaim(t.txs[d], rollup) && t.txs[d].ger == ger &&
                          forall e :: e in t.txs && OpenClaim(t.txs[e], rollup) ==>
                            t.txs[d].createdAt <= t.txs[e].createdAt
    ensures (exists d :: d in t.txs && OpenClaim(t.txs[d], rollup)) ==>
              forall d :: d in t.txs ==>
                (t.txs[d] in c <==>
                 && t.txs[d].status == Created && !t.txs[d].sent && t.txs[d].groupId == None && t.txs[d].ger == ger
                 && !t.txs[d].gone && t.txs[d].dest == rollup)
  {
    ger := HASH_ZERO;
    assert forall d :: d in t.txs ==> (OpenClaim(t.txs[d], rollup) <==> Wanted(t.txs[d], rollup));
    if c != [] {
      assert Wanted(c[0], rollup) && t.txs[c[0].depositId] == c[0];
    }
    if exists d :: d in t.txs && OpenClaim(t.txs[d], rollup) {
      ger :| OldestRoot(t, rollup, ger) && CandidatesUnder(c, t, rollup, ger);
      forall d | d in t.txs && t.txs[d] in c
        ensures Wanted(t.txs[d], rollup)
      {
        var i :| 0 <= i < |c| && c[i] == t.txs[d];
      }
    }
  }

  /** Every open transaction's group is stored. */
  ghost predicate GroupsKnown(t: ClaimTables, rollup: nat)
  {
    forall d :: d in t.txs && Wanted(t.txs[d], rollup) && t.txs[d].groupId.Some? ==> t.txs[d].groupId.value in t.groups
  }

  /** The stored rows of the groups that some transactions name. */
  method GetGroups(t: ClaimTables, txs: seq<Tx>, ghost rollup: nat) returns (rows: map<nat, GroupRow>)
    requires Selection(t, rollup, txs)
    ensures forall g :: g in rows ==> g in t.groups && rows[g] == t.groups[g]
    ensures (forall i :: 0 <= i < |txs| && txs[i].groupId.Some? ==> txs[i].groupId.value in rows) <==>
              GroupsKnown(t, rollup)
  {
    var ids := set i | 0 <= i < |txs| && txs[i].groupId.Some? :: txs[i].groupId.value;
    rows := map g | g in ids && g in t.groups :: t.groups[g];
  }

  method GetPendingTxs(t: ClaimTables, rollup: nat) returns (r: Option<PendingTxs>)
    requires Keyed(t)
    ensures r.Some? <==> GroupsKnown(t, rollup)
    ensures r.Some? ==>
          fresh(r.value) && LoadedFrom(r.value.groups, t, rollup) && AllCandidates(r.value.candidates, t, rollup)
    ensures r.Some? ==> forall g :: g in t.groups ==> g <= r.value.lastGroupId
    ensures r.Some? ==> r.value.lastGroupId == 0 || r.value.lastGroupId in t.groups
  {
    var txs := GetClaimTxsByStatus(t, rollup);
    var rows := GetGroups(t, txs, rollup);
    var last := GetLatestMonitoredTxGroupID(t);
    r := NewPendingTxs(txs, rows, last);
    if r.Some? {
      LoadIsFaithful(t, rollup, txs, rows, r.value.groups);
      LoadedCandidates(t, rollup, txs, r.value.candidates);
    }
  }

  /** Tables hold the groups in memory and their transactions, and are otherwise as they were. */
  ghost predicate WrittenBack(t: ClaimTables, t': ClaimTables, after: map<nat, Group>)
  {
    && GroupsWritten(t, t', after)
    && t'.txs.Keys == t.txs.Keys
    && (forall g, x :: Holds(after, g, x) ==> x.depositId in t'.txs && t'.txs[x.depositId] == x)
    && (forall d :: d in t.txs ==> t'.txs[d] == t.txs[d] || (HeldBySome(after, t'.txs[d]) && t'.txs[d].depositId == d))
  }

  ghost predicate GroupsWritten(t: ClaimTables, t': ClaimTables, after: map<nat, Group>)
  {
    && t'.groups.Keys == t.groups.Keys + after.Keys
    && (forall g :: g in after && g in t.groups ==> t'.groups[g] == t.groups[g].(entry := after[g].entry))
    && (forall g :: g in after && g !in t.groups ==> t'.groups[g] == GroupRow(after[g].entry, IdsOf(after[g].txs)))
    && (forall g :: g in t.groups && g !in after ==> t'.groups[g] == t.groups[g])
  }

  /** The groups in memory change only what an update writes, and no deposit is in two places. */
  ghost predicate Fits(t: ClaimTables, after: map<nat, Group>)
  {
    && (forall g, x :: Holds(after, g, x) ==> x.depositId in t.txs && Merged(t.txs[x.depositId], x) == x)
    && (forall g, h, x, y :: Holds(after, g, x) && Holds(after, h, y) && x.depositId == y.depositId ==> x == y)
  }

  /** Groups that were there keep their age. */
  ghost predicate AgesKept(before: map<nat, Group>, after: map<nat, Group>)
  {
    forall g :: g in before && g in after ==> after[g].entry.createdAt == before[g].entry.createdAt
  }

  /** A group whose entry is as it was is not touched. */
  lemma EntryKept(t: ClaimTables, t1: ClaimTables, t2: ClaimTables, adds: seq<Added>, updates: seq<Updated>,
                  before: map<nat, Group>, after: map<nat, Group>, g: nat)
    requires UpdatesAre(updates, before, after) && AddsDone(t, t1, adds) && UpdatesDone(t1, t2, updates)
    requires g in t.groups && (g in before && g in after ==> before[g].entry == after[g].entry)
    ensures g in t2.groups && t2.groups[g] == t.groups[g]
  {
    assert forall k :: 0 <= k < |updates| ==> updates[k].id != g;
  }

  lemma EntryWritten(t: ClaimTables, t1: ClaimTables, t2: ClaimTables, adds: seq<Added>, updates: seq<Updated>,
                     before: map<nat, Group>, after: map<nat, Group>, g: nat)
    requires UpdatesAre(updates, before, after) && AddsDone(t, t1, adds) && UpdatesDone(t1, t2, updates)
    requires AgesKept(before, after) && g in before && g in after && g in t.groups
    requires before[g].entry == t.groups[g].entry && before[g].entry != after[g].entry
    ensures g in t2.groups && t2.groups[g] == t.groups[g].(entry := after[g].entry)
  {
    var k :| 0 <= k < |updates| && updates[k].id == g;
    assert t1.groups[g] == t.groups[g];
    assert t2.groups[g] == RewrittenRow(t1.groups[g], updates[k].entry);
  }

  lemma EntryAdded(t: ClaimTables, t1: ClaimTables, t2: ClaimTables, adds: seq<Added>, updates: seq<Updated>,
                   before: map<nat, Group>, after: map<nat, Group>, g: nat)
    requires AddsAre(adds, before, after) && UpdatesAre(updates, before, after)
    requires AddsDone(t, t1, adds) && UpdatesDone(t1, t2, updates) && g in after && g !in before
    ensures g in t2.groups && t2.groups[g] == GroupRow(after[g].entry, IdsOf(after[g].txs))
  {
    var k :| 0 <= k < |adds| && adds[k].id == g;
    assert t1.groups[g] == adds[k].row;
    assert forall l :: 0 <= l < |updates| ==> updates[l].id != g;
  }

  lemma GroupsComeBack(t: ClaimTables, t1: ClaimTables, t2: ClaimTables, adds: seq<Added>, updates: seq<Updated>,
                       before: map<nat, Group>, after: map<nat, Group>)
    requires AddsAre(adds, before, after) && UpdatesAre(updates, before, after)
    requires AddsDone(t, t1, adds) && UpdatesDone(t1, t2, updates) && AgesKept(before, after)
    requires forall g :: g in before ==> g in after && g in t.groups && before[g].entry == t.groups[g].entry
    requires forall g :: g in after && g !in before ==> g !in t.groups
    ensures GroupsWritten(t, t2, after)
  {
    forall g | g in t.groups && g !in after
      ensures g in t2.groups && t2.groups[g] == t.groups[g]
    {
      EntryKept(t, t1, t2, adds, updates, before, after, g);
    }
    forall g | g in before
      ensures g in t2.groups && t2.groups[g] == t.groups[g].(entry := after[g].entry)
    {
      if before[g].entry == after[g].entry {
        EntryKept(t, t1, t2, adds, updates, before, after, g);
      } else {
        EntryWritten(t, t1, t2, adds, updates, before, after, g);
      }
    }
    forall g | g in after && g !in before
      ensures g in t2.groups && t2.groups[g] == GroupRow(after[g].entry, IdsOf(after[g].txs))
    {
      EntryAdded(t, t1, t2, adds, updates, before, after, g);
    }
    KeysComeBack(t, t1, t2, adds, updates, before, after);
  }

  lemma KeysComeBack(t: ClaimTables, t1: ClaimTables, t2: ClaimTables, adds: seq<Added>, updates: seq<Updated>,
                     before: map<nat, Group>, after: map<nat, Group>)
    requires AddsAre(adds, before, after) && AddsDone(t, t1, adds) && UpdatesDone(t1, t2, updates)
    requires forall g :: g in before ==> g in t.groups
    ensures t2.groups.Keys == t.groups.Keys + after.Keys
  {
    forall g | g in after && g !in before
      ensures g in t1.groups
    {
      var k :| 0 <= k < |adds| && adds[k].id == g;
    }
  }

  lemma TxsComeBack(t2: ClaimTables, t3: ClaimTables, txs: seq<Tx>, before: map<nat, Group>, after: map<nat, Group>)
    requires TxsAre(txs, before, after) && TxsDone(t2, t3, txs) && Fits(t2, after)
    requires forall g, x :: Holds(before, g, x) ==> x.depositId in t2.txs && t2.txs[x.depositId] == x
    ensures forall g, x :: Holds(after, g, x) ==> x.depositId in t3.txs && t3.txs[x.depositId] == x
    ensures forall d :: d in t2.txs ==>
              t3.txs[d] == t2.txs[d] || (HeldBySome(after, t3.txs[d]) && t3.txs[d].depositId == d)
  {
  }

  /** Storing the difference of the loaded and the worked-on groups writes the worked-on groups back. */
  lemma DifferenceWritesBack(t: ClaimTables, t1: ClaimTables, t2: ClaimTables, t3: ClaimTables, changes: StoreChanges,
                             before: map<nat, Group>, after: map<nat, Group>, rollup: nat)
    requires LoadedFrom(before, t, rollup) && Fits(t, after) && before.Keys <= after.Keys && AgesKept(before, after)
    requires forall g :: g in after && g !in before ==> g !in t.groups
    requires AddsAre(changes.adds, before, after) && UpdatesAre(changes.updates, before, after) &&
              TxsAre(changes.txs, before, after)
    requires AddsDone(t, t1, changes.adds) && UpdatesDone(t1, t2, changes.updates) && TxsDone(t2, t3, changes.txs)
    ensures WrittenBack(t, t3, after)
  {
    GroupsComeBack(t, t1, t2, changes.adds, changes.updates, before, after);
    TxsComeBack(t2, t3, changes.txs, before, after);
  }

  /** Groups in memory whose members are theirs, there, of the network, and of the group's status. */
  ghost predicate InPlace(after: map<nat, Group>, rollup: nat)
  {
    && (forall g, x :: Holds(after, g, x) ==>
          InGroup(x, g) && !x.gone && x.dest == rollup && x.status == MemberStatus(after[g].entry.status))
    && (forall g :: g in after ==> after[g].txs != [])
  }

  /** No member is lost. */
  ghost predicate NoneLost(before: map<nat, Group>, after: map<nat, Group>)
  {
    forall h, y :: Holds(before, h, y) ==> exists z :: Holds(after, h, z) && z.depositId == y.depositId
  }

  /** What is reloaded was written, in a group that is live. */
  lemma ReloadedWasWritten(t: ClaimTables, t': ClaimTables, before: map<nat, Group>, after: map<nat, Group>,
                           again: map<nat, Group>, rollup: nat)
    requires LoadedFrom(before, t, rollup) && before.Keys <= after.Keys && WrittenBack(t, t', after)
    requires LoadedFrom(again, t', rollup) && InPlace(after, rollup) && NoneLost(before, after)
    ensures forall g, x :: Holds(again, g, x) ==> Holds(after, g, x)
    ensures forall g :: g in again ==> g in after && IsLive(after[g].entry.status)
  {
    forall g: nat, x | Holds(again, g, x)
      ensures Holds(after, g, x)
    {
      Reloaded(t, t', before, after, x, g, rollup);
    }
    forall g | g in again
      ensures g in after && IsLive(after[g].entry.status)
    {
      assert Holds(again, g, again[g].txs[0]);
      assert Holds(after, g, again[g].txs[0]);
    }
  }

  /** What was written in a live group is reloaded. */
  lemma WrittenIsReloaded(t: ClaimTables, t': ClaimTables, after: map<nat, Group>, again: map<nat, Group>, rollup: nat)
    requires WrittenBack(t, t', after) && LoadedFrom(again, t', rollup) && InPlace(after, rollup)
    ensures forall g, x :: Holds(after, g, x) && IsLive(after[g].entry.status) ==> Holds(again, g, x)
    ensures forall g :: g in after && IsLive(after[g].entry.status) ==> g in again
  {
    forall g: nat, x | Holds(after, g, x) && IsLive(after[g].entry.status)
      ensures Holds(again, g, x)
    {
      assert t'.txs[x.depositId] == x;
    }
    forall g | g in after && IsLive(after[g].entry.status)
      ensures g in again
    {
      assert Holds(after, g, after[g].txs[0]);
    }
  }

  /** Written-back tables reload to the groups written: the live ones as they were, the ended ones not at all. */
  lemma ReloadGivesWritten(t: ClaimTables, t': ClaimTables, before: map<nat, Group>, after: map<nat, Group>,
                           again: map<nat, Group>, rollup: nat)
    requires LoadedFrom(before, t, rollup) && before.Keys <= after.Keys && WrittenBack(t, t', after)
    requires LoadedFrom(again, t', rollup) && InPlace(after, rollup) && NoneLost(before, after)
    ensures again.Keys == set g | g in after && IsLive(after[g].entry.status)
    ensures forall g :: g in again ==>
          again[g].entry == after[g].entry && forall x :: Holds(again, g, x) <==> Holds(after, g, x)
  {
    ReloadedWasWritten(t, t', before, after, again, rollup);
    WrittenIsReloaded(t, t', after, again, rollup);
  }

  lemma Reloaded(t: ClaimTables, t': ClaimTables, before: map<nat, Group>, after: map<nat, Group>, x: Tx, g: nat,
                 rollup: nat)
    requires LoadedFrom(before, t, rollup) && before.Keys <= after.Keys && WrittenBack(t, t', after)
    requires forall h, y :: Holds(after, h, y) ==> InGroup(y, h)
    requires x.depositId in t'.txs && t'.txs[x.depositId] == x && Wanted(x, rollup) && InGroup(x, g)
    requires forall h, y :: Holds(before, h, y) ==> exists z :: Holds(after, h, z) && z.depositId == y.depositId
    ensures Holds(after, g, x)
  {
  }
}
