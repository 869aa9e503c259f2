/** What every tick keeps of the stored claims, and how claims and groups may change over time. */
module ClaimInvariant {
  import opened Hashing
  import opened Outcomes
  import opened ClaimTypes
  import opened ClaimSteps
  import opened ClaimPending
  import opened ClaimGrouping
  import opened ClaimWriteBack

  ghost predicate RowsOk(t: ClaimTables)
  {
    Keyed(t) && forall d :: d in t.txs ==> t.txs[d].ger == Pair(t.txs[d].data.mainnetRoot, t.txs[d].data.rollupRoot)
  }

  ghost predicate GroupsOk(t: ClaimTables, cfg: Config)
  {
    forall g :: g in t.groups ==>
      && GroupOk(t.groups[g].entry, cfg.maxRetries)
      && |t.groups[g].depositIds| >= 1
      && (cfg.maxPerGroup > 0 ==> |t.groups[g].depositIds| <= cfg.maxPerGroup)
      && forall i, j :: 0 <= i < j < |t.groups[g].depositIds| ==> t.groups[g].depositIds[i] != t.groups[g].depositIds[j]
  }

  /**
    A transaction is in a group exactly if the group lists its deposit, and has the group's status while its
    deposit is there.
   */
  ghost predicate MembersOk(t: ClaimTables)
  {
    && (forall d :: d in t.txs && t.txs[d].groupId.Some? ==>
          && t.txs[d].groupId.value in t.groups
          && d in t.groups[t.txs[d].groupId.value].depositIds
          && (!t.txs[d].gone ==> t.txs[d].status == MemberStatus(t.groups[t.txs[d].groupId.value].entry.status)))
    && (forall g, i :: g in t.groups && 0 <= i < |t.groups[g].depositIds| ==>
          t.groups[g].depositIds[i] in t.txs && InGroup(t.txs[t.groups[g].depositIds[i]], g))
  }

  /** A transaction has the global exit root and the destination of the first one that a group lists. */
  ghost predicate LikeFirst(t: ClaimTables, x: Tx, g: nat)
  {
    && g in t.groups && t.groups[g].depositIds != [] && t.groups[g].depositIds[0] in t.txs
    && x.ger == t.txs[t.groups[g].depositIds[0]].ger
    && x.dest == t.txs[t.groups[g].depositIds[0]].dest
  }

  /** The members of a group have one global exit root and one destination. */
  ghost predicate AlikeOk(t: ClaimTables)
  {
    forall d :: d in t.txs && t.txs[d].groupId.Some? ==> LikeFirst(t, t.txs[d], t.txs[d].groupId.value)
  }

  ghost predicate ClaimsOk(t: ClaimTables, cfg: Config)
  {
    RowsOk(t) && GroupsOk(t, cfg) && MembersOk(t) && AlikeOk(t)
  }

  /** Candidates of stored rows were all proved against one pair of exit roots. */
  lemma CandidatesShareRoot(t: ClaimTables, txs: seq<Tx>, rollup: nat)
    requires RowsOk(t) && CandidatesFrom(txs, t, rollup)
    ensures ShareRoot(txs)
  {
    forall i | 0 <= i < |txs|
      ensures txs[i].ger == Pair(txs[i].data.mainnetRoot, txs[i].data.rollupRoot)
    {
      assert t.txs[txs[i].depositId] == txs[i];
    }
  }

  /** A group has an open transaction of the network. */
  ghost predicate Open(t: ClaimTables, g: nat, rollup: nat)
  {
    exists d :: d in t.txs && Wanted(t.txs[d], rollup) && InGroup(t.txs[d], g)
  }

  ghost function EntryAfter(g: nat, e: Entry, cfg: Config, w: World): Entry
  {
    Step(g, Group(e, []), cfg, w).entry
  }

  ghost function TxAfter(x: Tx, groups: map<nat, GroupRow>, rollup: nat, chosen: seq<Tx>, id: nat): Tx
  {
    if Wanted(x, rollup) && x.groupId.Some? && x.groupId.value in groups then
      x.(status := MemberStatus(groups[x.groupId.value].entry.status))
    else if x in chosen then x.(groupId := Some(id))
    else x
  }

  /**
   * What a tick does to the tables, said row by row: every open group makes one step and its
   * transactions take its status, the chosen claims become a new group, and nothing else changes.
   */
  ghost predicate Ticked(t: ClaimTables, t': ClaimTables, rollup: nat, cfg: Config, w: World, chosen: seq<Tx>, id: nat)
  {
    && CandidatesFrom(chosen, t, rollup)
    && (cfg.maxPerGroup > 0 ==> |chosen| <= cfg.maxPerGroup)
    && (chosen != [] ==> Callable(chosen, w) && forall g :: g in t.groups ==> g < id)
    && GroupsTicked(t, t', rollup, cfg, w, chosen, id)
    && t'.txs.Keys == t.txs.Keys
    && (forall d :: d in t.txs ==> t'.txs[d] == TxAfter(t.txs[d], t'.groups, rollup, chosen, id))
  }

  lemma StepIgnoresMembers(id: nat, g: Group, cfg: Config, w: World)
    ensures Step(id, g, cfg, w).entry == EntryAfter(id, g.entry, cfg, w)
  {
  }

  /** A group with an open transaction has not ended, so ended groups are never loaded again. */
  lemma OpenIsLive(t: ClaimTables, cfg: Config, g: nat, rollup: nat)
    requires ClaimsOk(t, cfg) && Open(t, g, rollup)
    ensures g in t.groups && IsLive(t.groups[g].entry.status)
  {
  }

  /** An ended group is not among the loaded groups, and a loaded one has all its members that are still there. */
  lemma LoadedAreLive(t: ClaimTables, cfg: Config, before: map<nat, Group>, rollup: nat)
    requires ClaimsOk(t, cfg) && LoadedFrom(before, t, rollup)
    ensures forall g :: g in before <==> Open(t, g, rollup)
    ensures forall g :: g in before ==>
          g in t.groups && IsLive(before[g].entry.status) && GroupOk(before[g].entry, cfg.maxRetries)
    ensures forall g, x :: Holds(before, g, x) ==> x.status == Created
    ensures forall g, d :: g in before && d in t.txs && InGroup(t.txs[d], g) && !t.txs[d].gone ==>
              Holds(before, g, t.txs[d])
  {
    forall g | g in before
      ensures Open(t, g, rollup)
    {
      var x := before[g].txs[0];
      assert Holds(before, g, x);
      assert t.txs[x.depositId] == x;
    }
    forall g | Open(t, g, rollup)
      ensures g in before && g in t.groups && IsLive(t.groups[g].entry.status)
    {
      OpenIsLive(t, cfg, g, rollup);
      var d :| d in t.txs && Wanted(t.txs[d], rollup) && InGroup(t.txs[d], g);
      assert Holds(before, g, t.txs[d]);
    }
    forall g: nat, x | Holds(before, g, x)
      ensures x.status == Created
    {
      assert t.txs[x.depositId] == x && x.groupId == Some(g);
    }
    forall g, d | g in before && d in t.txs && InGroup(t.txs[d], g) && !t.txs[d].gone
      ensures Holds(before, g, t.txs[d])
    {
      var y := before[g].txs[0];
      assert Holds(before, g, y);
      assert LikeFirst(t, t.txs[d], g) && LikeFirst(t, t.txs[y.depositId], g);
      assert Wanted(t.txs[d], rollup);
    }
  }

  /** The worked-on groups: the loaded ones one step on, and perhaps one new group under a fresh number. */
  ghost predicate WorkedFrom(before: map<nat, Group>, after: map<nat, Group>, cfg: Config, w: World, chosen: seq<Tx>,
                             id: nat)
  {
    && after.Keys == before.Keys + (if chosen == [] then {} else {id})
    && (forall g :: g in before ==> after[g] == Step(g, before[g], cfg, w))
    && (chosen != [] ==> Callable(chosen, w) && id !in before && after[id] == NewGroup(chosen, id, w))
  }

  /** The row that a transaction in memory comes from, and what may differ from it. */
  ghost predicate ComesFrom(x: Tx, y: Tx, g: nat, after: map<nat, Group>, rollup: nat, chosen: seq<Tx>, id: nat)
    requires g in after
  {
    && Wanted(y, rollup)
    && ((InGroup(y, g) && (chosen == [] || g != id) && x == y.(status := MemberStatus(after[g].entry.status)))
        || (chosen != [] && g == id && y.groupId.None? && y in chosen && x == y.(groupId := Some(id))))
  }

  ghost predicate MembersStepped(before: map<nat, Group>, after: map<nat, Group>)
  {
    forall g :: g in before ==>
      g in after && after[g].txs == WithStatus(before[g].txs, MemberStatus(after[g].entry.status))
  }

  lemma StepsMembers(t: ClaimTables, cfg: Config, w: World, before: map<nat, Group>, after: map<nat, Group>,
                     rollup: nat, chosen: seq<Tx>, id: nat)
    requires ClaimsOk(t, cfg) && LoadedFrom(before, t, rollup) && WorkedFrom(before, after, cfg, w, chosen, id)
    ensures MembersStepped(before, after)
  {
    forall g | g in before
      ensures after[g].txs == WithStatus(before[g].txs, MemberStatus(after[g].entry.status))
    {
      LoadedGroup(t, cfg, before, rollup, g);
      StepOk(g, before[g], cfg, w);
    }
  }

  /** A loaded group is live and good, and its loaded members are not ended. */
  lemma LoadedGroup(t: ClaimTables, cfg: Config, before: map<nat, Group>, rollup: nat, g: nat)
    requires ClaimsOk(t, cfg) && LoadedFrom(before, t, rollup) && g in before
    ensures IsLive(before[g].entry.status) && GroupOk(before[g].entry, cfg.maxRetries)
    ensures forall i :: 0 <= i < |before[g].txs| ==> before[g].txs[i].status == Created
  {
    LoadedAreLive(t, cfg, before, rollup);
    forall i | 0 <= i < |before[g].txs|
      ensures before[g].txs[i].status == Created
    {
      assert Holds(before, g, before[g].txs[i]);
    }
  }

  lemma Origin(t: ClaimTables, cfg: Config, w: World, before: map<nat, Group>, after: map<nat, Group>, rollup: nat,
               chosen: seq<Tx>, id: nat, g: nat, x: Tx)
    requires LoadedFrom(before, t, rollup) && CandidatesFrom(chosen, t, rollup) &&
              WorkedFrom(before, after, cfg, w, chosen, id)
    requires MembersStepped(before, after) && Holds(after, g, x)
    ensures x.depositId in t.txs && ComesFrom(x, t.txs[x.depositId], g, after, rollup, chosen, id)
  {
    var i :| 0 <= i < |after[g].txs| && after[g].txs[i] == x;
    if g in before {
      assert Holds(before, g, before[g].txs[i]);
    } else {
      assert x == chosen[i].(groupId := Some(id));
    }
  }

  lemma Reaches(before: map<nat, Group>, after: map<nat, Group>, g: nat, y: Tx)
    requires MembersStepped(before, after) && Holds(before, g, y)
    ensures Holds(after, g, y.(status := MemberStatus(after[g].entry.status)))
  {
  }

  lemma WorkedFits(t: ClaimTables, cfg: Config, w: World, before: map<nat, Group>, after: map<nat, Group>,
                   rollup: nat, chosen: seq<Tx>, id: nat)
    requires LoadedFrom(before, t, rollup) && CandidatesFrom(chosen, t, rollup) &&
              WorkedFrom(before, after, cfg, w, chosen, id)
    requires MembersStepped(before, after)
    ensures Fits(t, after)
  {
    forall g: nat, x | Holds(after, g, x)
      ensures x.depositId in t.txs && ComesFrom(x, t.txs[x.depositId], g, after, rollup, chosen, id)
    {
      Origin(t, cfg, w, before, after, rollup, chosen, id, g, x);
    }
    forall g: nat, h: nat, x, y | Holds(after, g, x) && Holds(after, h, y) && x.depositId == y.depositId
      ensures x == y
    {
      assert ComesFrom(x, t.txs[x.depositId], g, after, rollup, chosen, id);
      assert ComesFrom(y, t.txs[y.depositId], h, after, rollup, chosen, id);
    }
  }

  lemma WrittenRow(t: ClaimTables, t': ClaimTables, cfg: Config, w: World, before: map<nat, Group>,
                   after: map<nat, Group>, rollup: nat, chosen: seq<Tx>, id: nat, d: nat)
    requires Keyed(t) && LoadedFrom(before, t, rollup) && CandidatesFrom(chosen, t, rollup) &&
              WorkedFrom(before, after, cfg, w, chosen, id)
    requires MembersStepped(before, after) && WrittenBack(t, t', after) && d in t.txs
    ensures t'.txs[d] == TxAfter(t.txs[d], t'.groups, rollup, chosen, id)
  {
    var x := t.txs[d];
    if Wanted(x, rollup) && x.groupId.Some? {
      var g := x.groupId.value;
      assert Holds(before, g, x);
      Reaches(before, after, g, x);
      assert t'.txs[d] == x.(status := MemberStatus(after[g].entry.status));
    } else if x in chosen {
      var i :| 0 <= i < |chosen| && chosen[i] == x;
      var y := x.(groupId := Some(id));
      assert after[id].txs[i] == y;
      assert Holds(after, id, y);
    } else if t'.txs[d] != x {
      var g :| Holds(after, g, t'.txs[d]);
      Origin(t, cfg, w, before, after, rollup, chosen, id, g, t'.txs[d]);
    }
  }

  ghost predicate GroupsTicked(t: ClaimTables, t': ClaimTables, rollup: nat, cfg: Config, w: World, chosen: seq<Tx>,
                               id: nat)
    requires chosen != [] ==> Callable(chosen, w)
  {
    && t'.groups.Keys == t.groups.Keys + (if chosen == [] then {} else {id})
    && (forall g :: g in t.groups && Open(t, g, rollup) ==>
          t'.groups[g] == t.groups[g].(entry := EntryAfter(g, t.groups[g].entry, cfg, w)))
    && (forall g :: g in t.groups && !Open(t, g, rollup) ==> t'.groups[g] == t.groups[g])
    && (chosen != [] ==> t'.groups[id] == GroupRow(NewGroup(chosen, id, w).entry, IdsOf(chosen)))
  }

  lemma WrittenGroups(t: ClaimTables, t': ClaimTables, cfg: Config, w: World, before: map<nat, Group>,
                      after: map<nat, Group>, rollup: nat, chosen: seq<Tx>, id: nat)
    requires WorkedFrom(before, after, cfg, w, chosen, id) && GroupsWritten(t, t', after)
    requires forall g :: g in before <==> Open(t, g, rollup)
    requires forall g :: g in before ==> g in t.groups && before[g].entry == t.groups[g].entry
    requires id !in t.groups
    ensures GroupsTicked(t, t', rollup, cfg, w, chosen, id)
  {
    forall g | g in before
      ensures after[g].entry == EntryAfter(g, t.groups[g].entry, cfg, w)
    {
      StepIgnoresMembers(g, before[g], cfg, w);
    }
    IdsOfGroup(chosen, id);
  }

  lemma IdsOfGroup(txs: seq<Tx>, id: nat)
    ensures IdsOf(WithGroup(txs, id)) == IdsOf(txs)
  {
  }

  /** Writing the worked-on groups back is a tick. */
  lemma WrittenIsTicked(t: ClaimTables, t': ClaimTables, cfg: Config, w: World, before: map<nat, Group>,
                        after: map<nat, Group>, rollup: nat, chosen: seq<Tx>, id: nat)
    requires ClaimsOk(t, cfg) && LoadedFrom(before, t, rollup) && CandidatesFrom(chosen, t, rollup)
    requires WorkedFrom(before, after, cfg, w, chosen, id)
    requires WrittenBack(t, t', after)
    requires forall g :: g in t.groups ==> g < id
    requires cfg.maxPerGroup > 0 ==> |chosen| <= cfg.maxPerGroup
    ensures Ticked(t, t', rollup, cfg, w, chosen, id)
  {
    assert forall g :: g in before <==> Open(t, g, rollup) by {
      LoadedAreLive(t, cfg, before, rollup);
    }
    WrittenGroups(t, t', cfg, w, before, after, rollup, chosen, id);
    StepsMembers(t, cfg, w, before, after, rollup, chosen, id);
    forall d | d in t.txs
      ensures t'.txs[d] == TxAfter(t.txs[d], t'.groups, rollup, chosen, id)
    {
      WrittenRow(t, t', cfg, w, before, after, rollup, chosen, id, d);
    }
  }
}
