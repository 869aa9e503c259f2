/** The claims a tick works on: loading them, choosing a group, composing its call and writing the changes back. */
module ClaimPending {
  import opened Hashing
  import opened Outcomes
  import opened ClaimTypes

  ghost predicate Distinct(txs: seq<Tx>)
  {
    forall i, j :: 0 <= i < j < |txs| ==> txs[i].depositId != txs[j].depositId
  }

  ghost predicate OldestFirst(txs: seq<Tx>)
  {
    forall i, j :: 0 <= i < j < |txs| ==> txs[i].createdAt <= txs[j].createdAt
  }

  function IdsOf(txs: seq<Tx>): (ids: seq<nat>)
    ensures |ids| == |txs|
    ensures forall i :: 0 <= i < |txs| ==> ids[i] == txs[i].depositId
  {
    seq(|txs|, i requires 0 <= i < |txs| => txs[i].depositId)
  }

  /** Every row stands under its own deposit. */
  ghost predicate Keyed(t: ClaimTables)
  {
    forall d :: d in t.txs ==> t.txs[d].depositId == d
  }

  predicate Wanted(tx: Tx, rollup: nat)
  {
    tx.IsOpen() && !tx.gone && tx.dest == rollup
  }

  /** The answer to the query for the open transactions of a network, oldest first. */
  ghost predicate Selection(t: ClaimTables, rollup: nat, txs: seq<Tx>)
  {
    && Distinct(txs)
    && (forall i :: 0 <= i < |txs| ==>
          txs[i].depositId in t.txs && t.txs[txs[i].depositId] == txs[i] && Wanted(txs[i], rollup))
    && (forall d :: d in t.txs && Wanted(t.txs[d], rollup) ==> t.txs[d] in txs)
    && OldestFirst(txs)
  }

  lemma {:induction false} OldestExists(t: ClaimTables, todo: set<nat>)
    requires todo != {} && todo <= t.txs.Keys
    ensures exists d :: d in todo && forall e :: e in todo ==> t.txs[d].createdAt <= t.txs[e].createdAt
  {
    var x :| x in todo;
    var rest := todo - {x};
    if rest != {} {
      OldestExists(t, rest);
      var y :| y in rest && forall e :: e in rest ==> t.txs[y].createdAt <= t.txs[e].createdAt;
      var m := if t.txs[x].createdAt <= t.txs[y].createdAt then x else y;
      assert forall e :: e in todo ==> e == x || e in rest;
      assert m in todo && forall e :: e in todo ==> t.txs[m].createdAt <= t.txs[e].createdAt;
    } else {
      assert todo == {x};
    }
  }

  /** The rows selected so far, with those still to come. */
  ghost predicate Selecting(t: ClaimTables, rollup: nat, txs: seq<Tx>, todo: set<nat>)
  {
    && Distinct(txs)
    && (forall i :: 0 <= i < |txs| ==>
          txs[i].depositId in t.txs && t.txs[txs[i].depositId] == txs[i] && Wanted(txs[i], rollup) &&
              txs[i].depositId !in todo)
    && (forall d :: d in todo ==> d in t.txs && Wanted(t.txs[d], rollup))
    && (forall d :: d in t.txs && Wanted(t.txs[d], rollup) ==> d in todo || t.txs[d] in txs)
    && (forall i, d :: 0 <= i < |txs| && d in todo ==> txs[i].createdAt <= t.txs[d].createdAt)
    && OldestFirst(txs)
  }

  lemma SelectNext(t: ClaimTables, rollup: nat, txs: seq<Tx>, todo: set<nat>, d: nat)
    requires Keyed(t) && Selecting(t, rollup, txs, todo)
    requires d in todo && forall e :: e in todo ==> t.txs[d].createdAt <= t.txs[e].createdAt
    ensures Selecting(t, rollup, txs + [t.txs[d]], todo - {d})
  {
  }

  method GetClaimTxsByStatus(t: ClaimTables, rollup: nat) returns (txs: seq<Tx>)
    requires Keyed(t)
    ensures Selection(t, rollup, txs)
    ensures forall d :: d in t.txs ==>
              (t.txs[d] in txs <==>
               && (t.txs[d].status == Created || t.txs[d].status == Compressing || t.txs[d].status == Claiming)
               && !t.txs[d].gone && t.txs[d].dest == rollup)
  {
    txs := [];
    var todo := set d | d in t.txs && Wanted(t.txs[d], rollup);
    while todo != {}
      invariant Selecting(t, rollup, txs, todo)
      decreases |todo|
    {
      assert todo <= t.txs.Keys;
      OldestExists(t, todo);
      var d :| d in todo && forall e :: e in todo ==> t.txs[d].createdAt <= t.txs[e].createdAt;
      SelectNext(t, rollup, txs, todo, d);
      txs := txs + [t.txs[d]];
      todo := todo - {d};
    }
  }

  predicate InGroup(tx: Tx, g: nat)
  {
    tx.groupId == Some(g)
  }

  /** The transactions of a group among some, in their order. */
  function Members(txs: seq<Tx>, g: nat): seq<Tx>
  {
    if txs == [] then []
    else
      var n := |txs| - 1;
      Members(txs[..n], g) + (if InGroup(txs[n], g) then [txs[n]] else [])
  }

  function Candidates(txs: seq<Tx>, ger: Digest): seq<Tx>
  {
    if txs == [] then []
    else
      var n := |txs| - 1;
      Candidates(txs[..n], ger) + (if txs[n].IsCandidateToBeGrouped(ger) then [txs[n]] else [])
  }

  /** Some of distinct transactions and one more stay distinct. */
  lemma DistinctSnoc(txs: seq<Tx>, some: seq<Tx>, x: Tx)
    requires Distinct(txs + [x]) && Distinct(some) && forall y :: y in some ==> y in txs
    ensures Distinct(some + [x])
  {
    forall i | 0 <= i < |some|
      ensures some[i].depositId != x.depositId
    {
      assert some[i] in some;
      var j :| 0 <= j < |txs| && txs[j] == some[i];
      assert (txs + [x])[j] == txs[j] && (txs + [x])[|txs|] == x;
    }
  }

  lemma {:induction false} MembersAre(txs: seq<Tx>, g: nat)
    ensures forall x :: x in Members(txs, g) <==> x in txs && InGroup(x, g)
    ensures Distinct(txs) ==> Distinct(Members(txs, g))
  {
    if txs != [] {
      var n := |txs| - 1;
      var front := txs[..n];
      assert txs == front + [txs[n]];
      MembersAre(front, g);
      if Distinct(txs) {
        DistinctSnoc(front, Members(front, g), txs[n]);
      }
    }
  }

  lemma {:induction false} CandidatesAre(txs: seq<Tx>, ger: Digest)
    ensures forall x :: x in Candidates(txs, ger) <==> x in txs && x.IsCandidateToBeGrouped(ger)
    ensures Distinct(txs) ==> Distinct(Candidates(txs, ger))
  {
    if txs != [] {
      var n := |txs| - 1;
      var front := txs[..n];
      assert txs == front + [txs[n]];
      CandidatesAre(front, ger);
      if Distinct(txs) {
        DistinctSnoc(front, Candidates(front, ger), txs[n]);
      }
    }
  }

  lemma MembersSnoc(txs: seq<Tx>, tx: Tx, g: nat)
    ensures Members(txs + [tx], g) == Members(txs, g) + (if InGroup(tx, g) then [tx] else [])
  {
  }

  lemma CandidatesSnoc(txs: seq<Tx>, tx: Tx, ger: Digest)
    ensures Candidates(txs + [tx], ger) == Candidates(txs, ger) + (if tx.IsCandidateToBeGrouped(ger) then [tx] else [])
  {
  }

  class PendingTxs {
    var groups: map<nat, Group>
    var candidates: seq<Tx>
    var lastGroupId: nat

    constructor (lastGroupId: nat)
      ensures groups == map[] && candidates == [] && this.lastGroupId == lastGroupId
    {
      groups, candidates, this.lastGroupId := map[], [], lastGroupId;
    }

    method GenerateNewGroupID() returns (id: nat)
      modifies this`lastGroupId
      ensures id == lastGroupId == old(lastGroupId) + 1
    {
      lastGroupId := lastGroupId + 1;
      id := lastGroupId;
    }

    method SetGroupDBEntry(id: nat, entry: Entry)
      modifies this`groups
      ensures groups == old(groups)[id := Group(entry, if id in old(groups) then old(groups)[id].txs else [])]
    {
      if id in groups {
        groups := groups[id := groups[id].(entry := entry)];
      } else {
        groups := groups[id := Group(entry, [])];
      }
    }

    method AddTxToGroup(id: nat, tx: Tx)
      requires id in groups
      modifies this`groups
      ensures groups ==
              old(groups)[id := Group(old(groups)[id].entry, old(groups)[id].txs + [tx.(groupId := Some(id))])]
    {
      groups := groups[id := groups[id].(txs := groups[id].txs + [tx.(groupId := Some(id))])];
    }

    method AddGroup(id: nat, group: Group)
      modifies this`groups
      ensures groups == if id in old(groups) then old(groups) else old(groups)[id := group]
    {
      if id !in groups {
        groups := groups[id := group];
      }
    }
  }

  /** A transaction is a member of a group in memory. */
  ghost predicate Holds(groups: map<nat, Group>, g: nat, x: Tx)
  {
    g in groups && x in groups[g].txs
  }

  ghost predicate HeldBySome(groups: map<nat, Group>, x: Tx)
  {
    exists g :: Holds(groups, g, x)
  }

  /** The groups of some transactions, with the entries that are stored for them. */
  ghost predicate GroupsOf(groups: map<nat, Group>, txs: seq<Tx>, rows: map<nat, GroupRow>)
  {
    && (forall g :: g in groups ==>
        g in rows && groups[g] == Group(rows[g].entry, Members(txs, g)) && groups[g].txs != [])
    && (forall i :: 0 <= i < |txs| && txs[i].groupId.Some? ==> txs[i].groupId.value in groups)
  }

  lemma GroupsOfSkip(groups: map<nat, Group>, txs: seq<Tx>, rows: map<nat, GroupRow>, tx: Tx)
    requires GroupsOf(groups, txs, rows) && tx.groupId.None?
    ensures GroupsOf(groups, txs + [tx], rows)
  {
  }

  lemma GroupsOfAdd(groups: map<nat, Group>, txs: seq<Tx>, rows: map<nat, GroupRow>, tx: Tx)
    requires GroupsOf(groups, txs, rows) && tx.groupId.Some? && tx.groupId.value in rows
    ensures var g := tx.groupId.value;
            var before := if g in groups then groups[g].txs else [];
            GroupsOf(groups[g := Group(rows[g].entry, before + [tx])], txs + [tx], rows)
  {
    var g := tx.groupId.value;
    if g !in groups {
      NoMembers(txs, g);
    }
    forall o
      ensures Members(txs + [tx], o) == Members(txs, o) + (if o == g then [tx] else [])
    {
      MembersSnoc(txs, tx, o);
    }
  }

  lemma {:induction false} NoMembers(txs: seq<Tx>, g: nat)
    requires forall i :: 0 <= i < |txs| ==> !InGroup(txs[i], g)
    ensures Members(txs, g) == []
  {
    if txs != [] {
      NoMembers(txs[..|txs| - 1], g);
    }
  }

  method PlaceInGroup(p: PendingTxs, g: nat, entry: Entry, tx: Tx)
    requires tx.groupId == Some(g)
    modifies p`groups
    ensures p.groups == var before := old(p.groups);
                        before[g := Group(entry, (if g in before then before[g].txs else []) + [tx])]
  {
    p.SetGroupDBEntry(g, entry);
    p.AddTxToGroup(g, tx);
  }

  /** One transaction of the load: a candidate, a member of its group, or neither. */
  method Place(p: PendingTxs, tx: Tx, ger: Digest, rows: map<nat, GroupRow>, ghost upto: seq<Tx>) returns (ok: bool)
    requires GroupsOf(p.groups, upto, rows) && p.candidates == Candidates(upto, ger)
    modifies p`groups, p`candidates
    ensures ok <==> (tx.groupId.Some? ==> tx.groupId.value in rows)
    ensures ok ==> GroupsOf(p.groups, upto + [tx], rows) && p.candidates == Candidates(upto + [tx], ger)
  {
    CandidatesSnoc(upto, tx, ger);
    if tx.IsCandidateToBeGrouped(ger) {
      GroupsOfSkip(p.groups, upto, rows, tx);
      p.candidates := p.candidates + [tx];
    } else if tx.groupId.Some? {
      var g := tx.groupId.value;
      if g !in rows {
        return false;
      }
      GroupsOfAdd(p.groups, upto, rows, tx);
      PlaceInGroup(p, g, rows[g].entry, tx);
    } else {
      GroupsOfSkip(p.groups, upto, rows, tx);
    }
    ok := true;
  }

  method NewPendingTxs(txs: seq<Tx>, rows: map<nat, GroupRow>, lastGroupId: nat) returns (r: Option<PendingTxs>)
    ensures r.Some? <==> forall i :: 0 <= i < |txs| && txs[i].groupId.Some? ==> txs[i].groupId.value in rows
    ensures r.Some? ==> fresh(r.value) && r.value.lastGroupId == lastGroupId
    ensures r.Some? ==> r.value.candidates == if txs == [] then [] else Candidates(txs, txs[0].ger)
    ensures r.Some? ==> GroupsOf(r.value.groups, txs, rows)
  {
    var p := new PendingTxs(lastGroupId);
    var ger := if txs != [] then txs[0].ger else HASH_ZERO;
    for i := 0 to |txs|
      invariant fresh(p) && p.lastGroupId == lastGroupId
      invariant forall j :: 0 <= j < i && txs[j].groupId.Some? ==> txs[j].groupId.value in rows
      invariant p.candidates == Candidates(txs[..i], ger)
      invariant GroupsOf(p.groups, txs[..i], rows)
    {
      var ok := Place(p, txs[i], ger, rows, txs[..i]);
      if !ok {
        return None;
      }
      assert txs[..i + 1] == txs[..i] + [txs[i]];
    }
    assert txs[..|txs|] == txs;
    r := Some(p);
  }
}
