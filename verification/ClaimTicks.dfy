/** Ticks keep the stored claims in order, for whole runs. */
module ClaimTicks {
  import opened Outcomes
  import opened ClaimTypes
  import opened ClaimSteps
  import opened ClaimPending
  import opened ClaimWriteBack
  import opened ClaimInvariant

  /** What time may do to a transaction: it joins a group once, ends once, and may lose its deposit. */
  ghost predicate TxKept(x: Tx, x': Tx)
  {
    && x'.depositId == x.depositId && x'.ger == x.ger && x'.data == x.data && x'.createdAt == x.createdAt
    && x'.sent == x.sent
    && (x.groupId.Some? ==> x'.groupId == x.groupId)
    && (!x.IsOpen() ==> x'.status == x.status)
    && x'.dest == x.dest && (x.gone ==> x'.gone)
  }

  /** What time may do to a group: its members stay, its history only grows, and once it has ended it is final. */
  ghost predicate GroupKept(r: GroupRow, r': GroupRow)
  {
    && r'.depositIds == r.depositIds && SameGroup(r.entry, r'.entry)
    && HistoryKept(r.entry.history, r'.entry.history) && r.entry.retries <= r'.entry.retries
    && (!IsLive(r.entry.status) ==> r' == r)
  }

  ghost predicate Evolves(t: ClaimTables, t': ClaimTables)
  {
    && (forall d :: d in t.txs ==> d in t'.txs && TxKept(t.txs[d], t'.txs[d]))
    && (forall g :: g in t.groups ==> g in t'.groups && GroupKept(t.groups[g], t'.groups[g]))
    && (forall g, h :: g in t.groups && h in t'.groups && h !in t.groups ==> g < h)
  }

  lemma GroupKeptTransitive(r0: GroupRow, r1: GroupRow, r2: GroupRow)
    requires GroupKept(r0, r1) && GroupKept(r1, r2)
    ensures GroupKept(r0, r2)
  {
  }

  lemma EvolvesTransitive(t0: ClaimTables, t1: ClaimTables, t2: ClaimTables)
    requires Evolves(t0, t1) && Evolves(t1, t2)
    ensures Evolves(t0, t2)
  {
    forall g | g in t0.groups
      ensures g in t2.groups && GroupKept(t0.groups[g], t2.groups[g])
    {
      GroupKeptTransitive(t0.groups[g], t1.groups[g], t2.groups[g]);
    }
  }

  /** The members of an open group whose deposits are still there are all open for the same network. */
  lemma OpenMembersWanted(t: ClaimTables, cfg: Config, g: nat, rollup: nat, d: nat)
    requires ClaimsOk(t, cfg) && Open(t, g, rollup) && d in t.txs && InGroup(t.txs[d], g) && !t.txs[d].gone
    ensures Wanted(t.txs[d], rollup)
  {
  }

  lemma EntryAfterOk(t: ClaimTables, cfg: Config, w: World, g: nat, rollup: nat)
    requires ClaimsOk(t, cfg) && Open(t, g, rollup)
    ensures g in t.groups && IsLive(t.groups[g].entry.status)
    ensures var e, e' := t.groups[g].entry, EntryAfter(g, t.groups[g].entry, cfg, w);
            && GroupOk(e, cfg.maxRetries) && GroupOk(e', cfg.maxRetries)
            && SameGroup(e, e') && HistoryGrows(e.history, e'.history)
  {
    OpenIsLive(t, cfg, g, rollup);
    StepOk(g, Group(t.groups[g].entry, []), cfg, w);
  }

  lemma TickKeepsRows(t: ClaimTables, t': ClaimTables, rollup: nat, cfg: Config, w: World, chosen: seq<Tx>, id: nat)
    requires RowsOk(t) && Ticked(t, t', rollup, cfg, w, chosen, id)
    ensures RowsOk(t')
  {
  }

  lemma TickKeepsGroups(t: ClaimTables, t': ClaimTables, rollup: nat, cfg: Config, w: World, chosen: seq<Tx>, id: nat)
    requires ClaimsOk(t, cfg) && Ticked(t, t', rollup, cfg, w, chosen, id)
    ensures GroupsOk(t', cfg)
    ensures forall g :: g in t.groups ==> GroupKept(t.groups[g], t'.groups[g])
  {
    forall g | g in t.groups
      ensures GroupKept(t.groups[g], t'.groups[g]) && GroupOk(t'.groups[g].entry, cfg.maxRetries)
    {
      if Open(t, g, rollup) {
        EntryAfterOk(t, cfg, w, g, rollup);
      }
    }
  }

  /** A row after a tick: its group is that of before, or the new one if it was chosen. */
  lemma TickKeepsTx(t: ClaimTables, t': ClaimTables, rollup: nat, cfg: Config, w: World, chosen: seq<Tx>, id: nat,
                    d: nat)
    requires MembersOk(t) && Ticked(t, t', rollup, cfg, w, chosen, id) && d in t.txs
    ensures TxKept(t.txs[d], t'.txs[d]) && t'.txs[d].gone == t.txs[d].gone
    ensures t'.txs[d].groupId == if t.txs[d] in chosen then Some(id) else t.txs[d].groupId
    ensures t.txs[d] in chosen ==> t.txs[d].groupId.None? && t'.txs[d].status == Created
  {
    var x := t.txs[d];
    if x in chosen {
      var i :| 0 <= i < |chosen| && chosen[i] == x;
    }
  }

  lemma TickKeepsMember(t: ClaimTables, t': ClaimTables, rollup: nat, cfg: Config, w: World, chosen: seq<Tx>, id: nat,
                        d: nat)
    requires ClaimsOk(t, cfg) && Ticked(t, t', rollup, cfg, w, chosen, id) && d in t.txs && t.txs[d].groupId.Some?
    ensures var g := t.txs[d].groupId.value;
            && g in t.groups
            && d in t'.groups[g].depositIds
            && (!t.txs[d].gone ==> t'.txs[d].status == MemberStatus(t'.groups[g].entry.status))
  {
    var x := t.txs[d];
    var g := x.groupId.value;
    if Open(t, g, rollup) && !x.gone {
      OpenMembersWanted(t, cfg, g, rollup, d);
    }
  }

  lemma TickKeepsMembers(t: ClaimTables, t': ClaimTables, rollup: nat, cfg: Config, w: World, chosen: seq<Tx>, id: nat)
    requires ClaimsOk(t, cfg) && Ticked(t, t', rollup, cfg, w, chosen, id)
    ensures MembersOk(t')
  {
    forall d | d in t'.txs && t'.txs[d].groupId.Some?
      ensures t'.txs[d].groupId.value in t'.groups
      ensures d in t'.groups[t'.txs[d].groupId.value].depositIds
      ensures !t'.txs[d].gone ==> t'.txs[d].status == MemberStatus(t'.groups[t'.txs[d].groupId.value].entry.status)
    {
      TickKeepsTx(t, t', rollup, cfg, w, chosen, id, d);
      if t.txs[d] in chosen {
        var i :| 0 <= i < |chosen| && chosen[i] == t.txs[d];
        assert IdsOf(chosen)[i] == d;
      } else {
        TickKeepsMember(t, t', rollup, cfg, w, chosen, id, d);
      }
    }
    forall g, i | g in t'.groups && 0 <= i < |t'.groups[g].depositIds|
      ensures t'.groups[g].depositIds[i] in t'.txs && InGroup(t'.txs[t'.groups[g].depositIds[i]], g)
    {
      TickKeepsListing(t, t', rollup, cfg, w, chosen, id, g, i);
    }
  }

  lemma TickKeepsListing(t: ClaimTables, t': ClaimTables, rollup: nat, cfg: Config, w: World, chosen: seq<Tx>,
                         id: nat, g: nat, i: nat)
    requires MembersOk(t) && Ticked(t, t', rollup, cfg, w, chosen, id) && g in t'.groups &&
              i < |t'.groups[g].depositIds|
    ensures t'.groups[g].depositIds[i] in t'.txs && InGroup(t'.txs[t'.groups[g].depositIds[i]], g)
  {
    var d := t'.groups[g].depositIds[i];
    if g in t.groups {
      assert t.groups[g].depositIds[i] == d;
    } else {
      assert t.txs[d] == chosen[i];
    }
    TickKeepsTx(t, t', rollup, cfg, w, chosen, id, d);
  }

  lemma TickKeepsAlike(t: ClaimTables, t': ClaimTables, rollup: nat, cfg: Config, w: World, chosen: seq<Tx>, id: nat)
    requires MembersOk(t) && AlikeOk(t) && Ticked(t, t', rollup, cfg, w, chosen, id)
    ensures AlikeOk(t')
  {
    forall d | d in t'.txs && t'.txs[d].groupId.Some?
      ensures LikeFirst(t', t'.txs[d], t'.txs[d].groupId.value)
    {
      TickKeepsTx(t, t', rollup, cfg, w, chosen, id, d);
      if t.txs[d] in chosen {
        var i :| 0 <= i < |chosen| && chosen[i] == t.txs[d];
        assert IdsOf(chosen)[0] == chosen[0].depositId && (i == 0 || chosen[0].ger == chosen[i].ger);
        TickKeepsTx(t, t', rollup, cfg, w, chosen, id, chosen[0].depositId);
      } else {
        var g := t.txs[d].groupId.value;
        assert LikeFirst(t, t.txs[d], g);
        TickKeepsTx(t, t', rollup, cfg, w, chosen, id, t.groups[g].depositIds[0]);
      }
    }
  }

  /** A tick keeps all that is said of the stored claims, and changes them only as time may. */
  lemma TickKeeps(t: ClaimTables, t': ClaimTables, rollup: nat, cfg: Config, w: World, chosen: seq<Tx>, id: nat)
    requires ClaimsOk(t, cfg) && Ticked(t, t', rollup, cfg, w, chosen, id)
    ensures ClaimsOk(t', cfg) && Evolves(t, t')
  {
    TickKeepsRows(t, t', rollup, cfg, w, chosen, id);
    TickKeepsGroups(t, t', rollup, cfg, w, chosen, id);
    TickKeepsMembers(t, t', rollup, cfg, w, chosen, id);
    TickKeepsAlike(t, t', rollup, cfg, w, chosen, id);
    forall d | d in t.txs
      ensures TxKept(t.txs[d], t'.txs[d])
    {
      TickKeepsTx(t, t', rollup, cfg, w, chosen, id, d);
    }
  }

  /** No deposit is in two groups, or twice in one. */
  lemma GroupsAreDisjoint(t: ClaimTables, cfg: Config, g: nat, i: nat, h: nat, j: nat)
    requires ClaimsOk(t, cfg) && g in t.groups && h in t.groups && i < |t.groups[g].depositIds| &&
              j < |t.groups[h].depositIds|
    requires t.groups[g].depositIds[i] == t.groups[h].depositIds[j]
    ensures g == h && i == j
  {
  }

  /** The exit roots of any claim of a group are those of every claim of it. */
  lemma GroupSharesRoots(t: ClaimTables, cfg: Config, g: nat, i: nat, j: nat)
    requires ClaimsOk(t, cfg) && g in t.groups && i < |t.groups[g].depositIds| && j < |t.groups[g].depositIds|
    ensures var d, e := t.groups[g].depositIds[i], t.groups[g].depositIds[j];
            && d in t.txs && e in t.txs && t.txs[d].ger == t.txs[e].ger
            && t.txs[d].data.mainnetRoot == t.txs[e].data.mainnetRoot &&
                t.txs[d].data.rollupRoot == t.txs[e].data.rollupRoot
  {
  }

  /**
   * The tables a tick leaves reload to what it worked out: every group that has not ended with its
   * entry and members, and no group that has.
   */
  lemma ReloadAfterTick(t: ClaimTables, t': ClaimTables, cfg: Config, w: World, before: map<nat, Group>,
                        after: map<nat, Group>, again: map<nat, Group>, rollup: nat, chosen: seq<Tx>, id: nat)
    requires ClaimsOk(t, cfg) && LoadedFrom(before, t, rollup) && CandidatesFrom(chosen, t, rollup)
    requires WorkedFrom(before, after, cfg, w, chosen, id)
    requires WrittenBack(t, t', after) && LoadedFrom(again, t', rollup)
    ensures again.Keys == set g | g in after && IsLive(after[g].entry.status)
    ensures forall g :: g in again ==>
          again[g].entry == after[g].entry && forall x :: Holds(again, g, x) <==> Holds(after, g, x)
  {
    StepsMembers(t, cfg, w, before, after, rollup, chosen, id);
    WorkedInPlace(t, cfg, w, before, after, rollup, chosen, id);
    ReloadGivesWritten(t, t', before, after, again, rollup);
  }

  /** After the work every group has its members, with its status, and no member is lost. */
  lemma WorkedInPlace(t: ClaimTables, cfg: Config, w: World, before: map<nat, Group>, after: map<nat, Group>,
                      rollup: nat, chosen: seq<Tx>, id: nat)
    requires LoadedFrom(before, t, rollup) && CandidatesFrom(chosen, t, rollup) && MembersStepped(before, after)
    requires WorkedFrom(before, after, cfg, w, chosen, id)
    ensures InPlace(after, rollup) && NoneLost(before, after)
  {
    forall g: nat, x | Holds(after, g, x)
      ensures InGroup(x, g) && !x.gone && x.dest == rollup && x.status == MemberStatus(after[g].entry.status)
    {
      Origin(t, cfg, w, before, after, rollup, chosen, id, g, x);
      ChosenAreCreated(t, chosen, rollup);
    }
    forall h: nat, y | Holds(before, h, y)
      ensures exists z :: Holds(after, h, z) && z.depositId == y.depositId
    {
      Reaches(before, after, h, y);
    }
  }

  lemma ChosenAreCreated(t: ClaimTables, chosen: seq<Tx>, rollup: nat)
    requires CandidatesFrom(chosen, t, rollup)
    ensures forall x :: x in chosen ==> x.status == Created
  {
  }
}
