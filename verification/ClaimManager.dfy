/** The manager of grouped claims: ticks against the store, and whole runs of ticks, new claims and lost deposits. */
module ClaimManager {
  import opened Hashing
  import opened Outcomes
  import opened ClaimTypes
  import opened ClaimPending
  import opened ClaimGrouping
  import opened ClaimDiff
  import opened ClaimWriteBack
  import opened ClaimInvariant
  import opened ClaimTicks

  /** Which statements of a tick the database refuses. */
  datatype Faults = Faults(query: bool, requery: bool, adds: nat -> bool, updates: nat -> bool, txs: nat -> bool,
                           commit: bool)

  ghost predicate NoFaults(f: Faults)
  {
    && !f.query && !f.requery && !f.commit
    && (forall n :: !f.adds(n)) && (forall n :: !f.updates(n)) && (forall n :: !f.txs(n))
  }

  /** Two loads of the same tables agree, up to the order of the members. */
  lemma SameLoad(t: ClaimTables, a: map<nat, Group>, b: map<nat, Group>, rollup: nat)
    requires LoadedFrom(a, t, rollup) && LoadedFrom(b, t, rollup)
    ensures a.Keys == b.Keys
    ensures forall g, x :: Holds(a, g, x) <==> Holds(b, g, x)
    ensures forall g :: g in a ==> a[g].entry == b[g].entry
  {
    forall g: nat, x | Holds(a, g, x)
      ensures Holds(b, g, x)
    {
      assert t.txs[x.depositId] == x && x.groupId.value == g;
    }
    forall g: nat, x | Holds(b, g, x)
      ensures Holds(a, g, x)
    {
      assert t.txs[x.depositId] == x && x.groupId.value == g;
    }
    forall g | g in a
      ensures g in b
    {
      assert Holds(a, g, a[g].txs[0]);
    }
    forall g | g in b
      ensures g in a
    {
      assert Holds(b, g, b[g].txs[0]);
    }
  }

  /** Every member of a stepped group is found in the group as it was loaded the other time. */
  lemma MembersFound(t: ClaimTables, before: map<nat, Group>, again: map<nat, Group>, after: map<nat, Group>,
                     rollup: nat)
    requires LoadedFrom(before, t, rollup) && LoadedFrom(again, t, rollup) && MembersStepped(before, after)
    ensures forall g :: g in again ==> g in after && AllFound(after[g].txs, again[g].txs)
  {
    SameLoad(t, before, again, rollup);
    forall g | g in again
      ensures g in after && AllFound(after[g].txs, again[g].txs)
    {
      forall i | 0 <= i < |after[g].txs|
        ensures FoundIn(again[g].txs, after[g].txs[i].depositId)
      {
        var y := before[g].txs[i];
        assert Holds(before, g, y);
        assert Holds(again, g, y);
        var j :| 0 <= j < |again[g].txs| && again[g].txs[j] == y;
        assert again[g].txs[j].depositId == after[g].txs[i].depositId;
      }
    }
  }

  lemma WorkKeepsAges(before: map<nat, Group>, after: map<nat, Group>, cfg: Config, w: World, chosen: seq<Tx>, id: nat)
    requires WorkedFrom(before, after, cfg, w, chosen, id)
    ensures AgesKept(before, after)
  {
  }

  lemma ChangesAgree(t: ClaimTables, changes: StoreChanges, before: map<nat, Group>, after: map<nat, Group>)
    requires Fits(t, after) && TxsAre(changes.txs, before, after)
    ensures forall k, l :: 0 <= k < l < |changes.txs| && changes.txs[k].depositId == changes.txs[l].depositId ==>
          changes.txs[k] == changes.txs[l]
  {
  }

  /** Writes the changes, in order, until one is refused. */
  method Execute(store: ClaimStore, changes: StoreChanges, faults: Faults, ghost before: map<nat, Group>,
                 ghost after: map<nat, Group>, ghost rollup: nat)
    returns (ok: bool)
    requires LoadedFrom(before, store.working, rollup) && Fits(store.working, after)
    requires before.Keys <= after.Keys && AgesKept(before, after)
    requires forall g :: g in after && g !in before ==> g !in store.working.groups
    requires AddsAre(changes.adds, before, after) && UpdatesAre(changes.updates, before, after) &&
              TxsAre(changes.txs, before, after)
    modifies store`working
    ensures ok ==> WrittenBack(old(store.working), store.working, after)
    ensures NoFaults(faults) ==> ok
  {
    ghost var t := store.working;
    ChangesAgree(t, changes, before, after);
    ok := store.ExecuteAdds(changes.adds, faults.adds);
    if !ok {
      return;
    }
    ghost var t1 := store.working;
    ok := store.ExecuteUpdates(changes.updates, faults.updates);
    if !ok {
      return;
    }
    ghost var t2 := store.working;
    ok := store.ExecuteTxs(changes.txs, faults.txs);
    if ok {
      DifferenceWritesBack(t, t1, t2, store.working, changes, before, after, rollup);
    }
  }

  /** What is worked out from one load can be written as a difference to another load of the same tables. */
  lemma ReadyToWrite(t: ClaimTables, cfg: Config, w: World, before: map<nat, Group>, initial: map<nat, Group>,
                     after: map<nat, Group>, rollup: nat, chosen: seq<Tx>, id: nat)
    requires ClaimsOk(t, cfg) && LoadedFrom(before, t, rollup) && LoadedFrom(initial, t, rollup)
    requires CandidatesFrom(chosen, t, rollup) && WorkedFrom(before, after, cfg, w, chosen, id)
    requires forall g :: g in t.groups ==> g < id
    ensures Fits(t, after) && initial.Keys <= after.Keys && AgesKept(initial, after)
    ensures forall g :: g in initial && g in after ==> AllFound(after[g].txs, initial[g].txs)
    ensures forall g :: g in after && g !in initial ==> g !in t.groups
  {
    StepsMembers(t, cfg, w, before, after, rollup, chosen, id);
    WorkedFits(t, cfg, w, before, after, rollup, chosen, id);
    SameLoad(t, before, initial, rollup);
    MembersFound(t, before, initial, after, rollup);
    WorkKeepsAges(before, after, cfg, w, chosen, id);
  }

  /** One thing that happens to the stored claims. */
  datatype Op =
    | NewClaim(depositId: nat, call: Call, createdAt: int, dest: nat, skipped: bool)
    | DepositLost(depositId: nat)
    | TickOf(rollup: nat, world: World, faults: Faults)

  /** What a tick met: whether it was committed, which claims could be grouped, and the number of a new group. */
  datatype Beat = Beat(ok: bool, candidates: seq<Tx>, id: nat)

  /** The number a new group gets. */
  ghost predicate IsNext(id: nat, t: ClaimTables)
  {
    id >= 1 && (forall g :: g in t.groups ==> g < id) && (id == 1 || id - 1 in t.groups)
  }

  /** A tick is the row-by-row tick, or nothing; without refused statements it is nothing only if it cannot group. */
  ghost predicate TickDone(t: ClaimTables, t': ClaimTables, rollup: nat, cfg: Config, w: World, faults: Faults,
                           beat: Beat)
  {
    && (beat.ok || NoFaults(faults) ==> AllCandidates(beat.candidates, t, rollup) && IsNext(beat.id, t))
    && (beat.ok ==> Ticked(t, t', rollup, cfg, w, ChosenNow(beat.candidates, cfg, w), beat.id))
    && (!beat.ok ==> t' == t)
    && (NoFaults(faults) ==> (beat.ok <==> CanGroup(beat.candidates, cfg, w)))
  }

  /** Nothing is refused: no query, no write and no commit. */
  lemma NoFaultsMeans(f: Faults)
    ensures NoFaults(f) <==>
            && !f.query && !f.requery && !f.commit
            && (forall k :: !f.adds(k)) && (forall k :: !f.updates(k)) && (forall k :: !f.txs(k))
  {
  }

  /**
    A tick that nothing disturbs makes the group: the candidates that are due, if their calls can be read and
    compressed, are afterwards the members of one new group under the next number.
   */
  lemma TickMakesGroup(t: ClaimTables, t': ClaimTables, rollup: nat, cfg: Config, w: World, faults: Faults, beat: Beat)
    requires TickDone(t, t', rollup, cfg, w, faults, beat) && ClaimsOk(t, cfg)
    requires !faults.query && !faults.requery && !faults.commit
    requires forall k :: !faults.adds(k) && !faults.updates(k) && !faults.txs(k)
    ensures var chosen := ChosenNow(beat.candidates, cfg, w);
            chosen != [] &&
            (forall i :: 0 <= i < |chosen| ==> chosen[i].data.selector != UnknownMethod && chosen[i].data.unpacks) &&
            w.compress(chosen[0].data.mainnetRoot, chosen[0].data.rollupRoot, multiset(Datas(chosen))).Ok? ==>
              && beat.id !in t.groups && beat.id in t'.groups && t'.groups[beat.id].depositIds == IdsOf(chosen)
              && t'.groups[beat.id].entry.status == GroupCreated
              && forall i :: 0 <= i < |chosen| ==>
                   chosen[i].depositId in t'.txs && t'.txs[chosen[i].depositId] == chosen[i].(groupId := Some(beat.id))
  {
    var chosen := ChosenNow(beat.candidates, cfg, w);
    NoFaultsMeans(faults);
    GroupableWhen(beat.candidates, cfg, w);
    if chosen != [] && beat.ok {
      forall i | 0 <= i < |chosen|
        ensures chosen[i].depositId in t'.txs
        ensures t'.txs[chosen[i].depositId] == chosen[i].(groupId := Some(beat.id))
      {
        assert t.txs[chosen[i].depositId] == chosen[i] && chosen[i] in chosen;
      }
    }
  }

  /** The claim that is stored for a deposit; its call proves against the global exit root of the two roots it names. */
  function ClaimOf(depositId: nat, call: Call, createdAt: int, dest: nat): Tx
  {
    Tx(depositId, Created, None, Pair(call.mainnetRoot, call.rollupRoot), false, createdAt, call, dest, false)
  }

  /** What each thing does to the tables. */
  ghost predicate OpDone(op: Op, t: ClaimTables, t': ClaimTables, cfg: Config, beat: Beat)
  {
    match op
    case NewClaim(d, call, at, dest, skipped) =>
      t' == if skipped || d in t.txs then t else t.(txs := t.txs[d := ClaimOf(d, call, at, dest)])
    case DepositLost(d) => t' == if d in t.txs then t.(txs := t.txs[d := t.txs[d].(gone := true)]) else t
    case TickOf(rollup, w, faults) => TickDone(t, t', rollup, cfg, w, faults, beat)
  }

  class ClaimTxManager {
    const store: ClaimStore
    const cfg: Config

    constructor (store: ClaimStore, cfg: Config)
      ensures this.store == store && this.cfg == cfg
    {
      this.store, this.cfg := store, cfg;
    }

    /** Loading never fails on claims in order. */
    method Load(rollup: nat) returns (pending: PendingTxs)
      requires ClaimsOk(store.working, cfg)
      ensures fresh(pending) && LoadedFrom(pending.groups, store.working, rollup)
      ensures AllCandidates(pending.candidates, store.working, rollup) && IsNext(pending.lastGroupId + 1, store.working)
    {
      var r := GetPendingTxs(store.working, rollup);
      pending := r.value;
    }

    /** The work of a tick inside its transaction. */
    method InternalMonitorTxs(rollup: nat, w: World, faults: Faults) returns (ok: bool, ghost candidates: seq<Tx>,
                              ghost id: nat)
      requires ClaimsOk(store.working, cfg)
      modifies store`working
      ensures ok || NoFaults(faults) ==>
                AllCandidates(candidates, old(store.working), rollup) && IsNext(id, old(store.working))
      ensures ok ==> Ticked(old(store.working), store.working, rollup, cfg, w, ChosenNow(candidates, cfg, w), id)
      ensures NoFaults(faults) ==> (ok <==> CanGroup(candidates, cfg, w))
    {
      candidates, id := [], 0;
      if faults.query {
        return false, candidates, id;
      }
      var pending := Load(rollup);
      candidates, id := pending.candidates, pending.lastGroupId + 1;
      if |pending.groups| == 0 && |pending.candidates| == 0 {
        IdleTick(store.working, cfg, w, rollup, pending.groups, candidates, id);
        return true, candidates, id;
      }
      ok := Work(pending, rollup, w, faults, ChosenNow(candidates, cfg, w), id);
    }

    method Work(pending: PendingTxs, rollup: nat, w: World, faults: Faults, ghost chosen: seq<Tx>,
                ghost id: nat) returns (ok: bool)
      requires ClaimsOk(store.working, cfg)
      requires LoadedFrom(pending.groups, store.working, rollup) &&
                CandidatesFrom(pending.candidates, store.working, rollup)
      requires forall g :: g in store.working.groups ==> g <= pending.lastGroupId
      requires chosen == ChosenNow(pending.candidates, cfg, w) && id == pending.lastGroupId + 1
      modifies store`working, pending
      ensures ok ==> Ticked(old(store.working), store.working, rollup, cfg, w, chosen, id)
      ensures NoFaults(faults) ==> (ok <==> CanGroup(old(pending.candidates), cfg, w))
    {
      var second := Load(rollup);
      if faults.requery {
        return false;
      }
      ghost var before := pending.groups;
      ChosenAreCandidates(store.working, pending.candidates, cfg, w, rollup);
      CandidatesShareRoot(store.working, pending.candidates, rollup);
      ok := WorkOut(pending, w, chosen, id);
      if ok {
        ok := WriteBack(second.groups, pending.groups, faults, before, rollup, w, chosen, id);
      }
    }

    /** The groups after the tick, in memory. */
    method WorkOut(pending: PendingTxs, w: World, ghost chosen: seq<Tx>, ghost id: nat) returns (ok: bool)
      requires Distinct(pending.candidates) && ShareRoot(pending.candidates)
      requires chosen == ChosenNow(pending.candidates, cfg, w) && id == pending.lastGroupId + 1
      requires forall g :: g in pending.groups ==> g <= pending.lastGroupId
      modifies pending
      ensures ok <==> CanGroup(old(pending.candidates), cfg, w)
      ensures ok ==> WorkedFrom(old(pending.groups), pending.groups, cfg, w, chosen, id)
    {
      ghost var before, candidates, last := pending.groups, pending.candidates, pending.lastGroupId;
      ok := Process(pending, cfg, w);
      if ok {
        ShareRootPrefix(candidates, chosen);
        WorkedIs(before, candidates, last, cfg, w);
      }
    }

    /** Stores what changed between the second load and the worked-on groups. */
    method WriteBack(initial: map<nat, Group>, after: map<nat, Group>, faults: Faults, ghost before: map<nat, Group>,
                     ghost rollup: nat, ghost w: World, ghost chosen: seq<Tx>, ghost id: nat)
      returns (ok: bool)
      requires ClaimsOk(store.working, cfg) && LoadedFrom(before, store.working, rollup) &&
                LoadedFrom(initial, store.working, rollup)
      requires CandidatesFrom(chosen, store.working, rollup) && WorkedFrom(before, after, cfg, w, chosen, id)
      requires forall g :: g in store.working.groups ==> g < id
      requires cfg.maxPerGroup > 0 ==> |chosen| <= cfg.maxPerGroup
      modifies store`working
      ensures ok ==> Ticked(old(store.working), store.working, rollup, cfg, w, chosen, id)
      ensures NoFaults(faults) ==> ok
    {
      ghost var t := store.working;
      ReadyToWrite(t, cfg, w, before, initial, after, rollup, chosen, id);
      var changes, at := GenerateStoreUpdate(initial, after);
      TxsAtAre(changes.value.txs, at, initial, after);
      ok := Execute(store, changes.value, faults, initial, after, rollup);
      if ok {
        WrittenIsTicked(t, store.working, cfg, w, before, after, rollup, chosen, id);
      }
    }

    /** One tick: all of its changes are committed, or none. */
    method MonitorTxs(rollup: nat, w: World, faults: Faults) returns (ghost beat: Beat)
      requires ClaimsOk(store.committed, cfg)
      modifies store
      ensures ClaimsOk(store.committed, cfg) && Evolves(old(store.committed), store.committed)
      ensures TickDone(old(store.committed), store.committed, rollup, cfg, w, faults, beat)
    {
      store.Begin();
      ghost var candidates, id;
      var ok;
      ok, candidates, id := InternalMonitorTxs(rollup, w, faults);
      if ok {
        ok := store.Commit(faults.commit);
      } else {
        store.Rollback();
      }
      if ok {
        TickKeeps(old(store.committed), store.committed, rollup, cfg, w, ChosenNow(candidates, cfg, w), id);
      } else {
        EvolvesFromItself(store.committed);
      }
      beat := Beat(ok, candidates, id);
    }

    /** Stores a claim once per deposit, unless an estimation, a nonce or the storage fails first. */
    method AddClaimTx(depositId: nat, call: Call, createdAt: int, dest: nat, skipped: bool)
      requires ClaimsOk(store.committed, cfg)
      modifies store`committed
      ensures ClaimsOk(store.committed, cfg) && Evolves(old(store.committed), store.committed)
      ensures OpDone(NewClaim(depositId, call, createdAt, dest, skipped), old(store.committed), store.committed, cfg,
                Beat(false, [], 0))
      ensures store.committed == old(store.committed).(txs :=
                if skipped || depositId in old(store.committed.txs) then old(store.committed.txs)
                else old(store.committed.txs)[depositId :=
                       Tx(depositId, Created, None, Pair(call.mainnetRoot, call.rollupRoot), false, createdAt, call,
                          dest, false)])
    {
      if !skipped && depositId !in store.committed.txs {
        var tx := ClaimOf(depositId, call, createdAt, dest);
        AddingKeeps(store.committed, cfg, tx);
        store.committed := store.committed.(txs := store.committed.txs[depositId := tx]);
      } else {
        EvolvesFromItself(store.committed);
      }
    }

    /** A reorganisation removes a deposit; its claim is no longer selected. */
    method LoseDeposit(depositId: nat)
      requires ClaimsOk(store.committed, cfg)
      modifies store`committed
      ensures ClaimsOk(store.committed, cfg) && Evolves(old(store.committed), store.committed)
      ensures OpDone(DepositLost(depositId), old(store.committed), store.committed, cfg, Beat(false, [], 0))
      ensures store.committed.groups == old(store.committed.groups)
      ensures store.committed.txs.Keys == old(store.committed.txs).Keys
      ensures forall d :: d in old(store.committed.txs) ==>
                store.committed.txs[d] ==
                if d == depositId then old(store.committed.txs)[d].(gone := true) else old(store.committed.txs)[d]
    {
      if depositId in store.committed.txs {
        LosingKeeps(store.committed, cfg, depositId);
        var tx := store.committed.txs[depositId].(gone := true);
        store.committed := store.committed.(txs := store.committed.txs[depositId := tx]);
      } else {
        EvolvesFromItself(store.committed);
      }
    }

    method Perform(op: Op) returns (ghost beat: Beat)
      requires ClaimsOk(store.committed, cfg)
      modifies store
      ensures ClaimsOk(store.committed, cfg) && Evolves(old(store.committed), store.committed)
      ensures OpDone(op, old(store.committed), store.committed, cfg, beat)
    {
      beat := Beat(false, [], 0);
      match op {
        case NewClaim(d, call, at, dest, skipped) => AddClaimTx(d, call, at, dest, skipped);
        case DepositLost(d) => LoseDeposit(d);
        case TickOf(rollup, w, faults) => beat := MonitorTxs(rollup, w, faults);
      }
    }

    /**
      Whatever happens, in any order and with any failures: each thing does to the tables what it is for, the
      claims stay in order, and they change only as time may.
     */
    method Run(ops: seq<Op>) returns (ghost trace: seq<ClaimTables>, ghost beats: seq<Beat>)
      requires ClaimsOk(store.committed, cfg)
      modifies store
      ensures ClaimsOk(store.committed, cfg) && Evolves(old(store.committed), store.committed)
      ensures |trace| == |ops| + 1 && |beats| == |ops|
      ensures trace[0] == old(store.committed) && trace[|ops|] == store.committed
      ensures forall i :: 0 <= i < |ops| ==> OpDone(ops[i], trace[i], trace[i + 1], cfg, beats[i])
    {
      trace, beats := [store.committed], [];
      EvolvesFromItself(store.committed);
      for i := 0 to |ops|
        invariant ClaimsOk(store.committed, cfg) && Evolves(old(store.committed), store.committed)
        invariant |trace| == i + 1 && |beats| == i
        invariant trace[0] == old(store.committed) && trace[i] == store.committed
        invariant forall j :: 0 <= j < i ==> OpDone(ops[j], trace[j], trace[j + 1], cfg, beats[j])
      {
        ghost var t := store.committed;
        ghost var beat := Perform(ops[i]);
        trace, beats := trace + [store.committed], beats + [beat];
        EvolvesTransitive(old(store.committed), t, store.committed);
      }
    }
  }

  /** Nothing loaded, nothing to do: the tables as they are are those after a tick. */
  lemma IdleTick(t: ClaimTables, cfg: Config, w: World, rollup: nat, before: map<nat, Group>, candidates: seq<Tx>,
                 id: nat)
    requires ClaimsOk(t, cfg) && LoadedFrom(before, t, rollup) && |before| == 0 && candidates == []
    requires forall g :: g in t.groups ==> g < id
    ensures Ticked(t, t, rollup, cfg, w, ChosenNow(candidates, cfg, w), id) && CanGroup(candidates, cfg, w)
  {
    assert before == map[];
    WrittenIsTicked(t, t, cfg, w, before, before, rollup, [], id);
  }

  lemma WorkedIs(before: map<nat, Group>, candidates: seq<Tx>, last: nat, cfg: Config, w: World)
    requires CanGroup(candidates, cfg, w) && forall g :: g in before ==> g <= last
    requires ShareRoot(ChosenNow(candidates, cfg, w))
    ensures WorkedFrom(before, Worked(before, candidates, last, cfg, w), cfg, w, ChosenNow(candidates, cfg, w),
              last + 1)
  {
  }

  lemma AddingKeeps(t: ClaimTables, cfg: Config, x: Tx)
    requires ClaimsOk(t, cfg) && x.depositId !in t.txs && x.groupId.None? &&
              x.ger == Pair(x.data.mainnetRoot, x.data.rollupRoot)
    ensures ClaimsOk(t.(txs := t.txs[x.depositId := x]), cfg) && Evolves(t, t.(txs := t.txs[x.depositId := x]))
  {
    var t' := t.(txs := t.txs[x.depositId := x]);
    assert forall d :: d in t.txs ==> t'.txs[d] == t.txs[d];
    assert MembersOk(t');
    assert AlikeOk(t');
  }

  lemma LosingKeeps(t: ClaimTables, cfg: Config, d: nat)
    requires ClaimsOk(t, cfg) && d in t.txs
    ensures var t' := t.(txs := t.txs[d := t.txs[d].(gone := true)]);
            ClaimsOk(t', cfg) && Evolves(t, t')
  {
    var t' := t.(txs := t.txs[d := t.txs[d].(gone := true)]);
    LosingKeepsMembers(t, t', d);
    LosingKeepsAlike(t, t', d);
  }

  lemma LosingKeepsMembers(t: ClaimTables, t': ClaimTables, d: nat)
    requires MembersOk(t) && d in t.txs && t' == t.(txs := t.txs[d := t.txs[d].(gone := true)])
    ensures MembersOk(t')
  {
  }

  lemma LosingKeepsAlike(t: ClaimTables, t': ClaimTables, d: nat)
    requires AlikeOk(t) && d in t.txs && t' == t.(txs := t.txs[d := t.txs[d].(gone := true)])
    ensures AlikeOk(t')
  {
    forall e | e in t'.txs && t'.txs[e].groupId.Some?
      ensures LikeFirst(t', t'.txs[e], t'.txs[e].groupId.value)
    {
      assert LikeFirst(t, t.txs[e], t.txs[e].groupId.value);
    }
  }

  lemma EvolvesFromItself(t: ClaimTables)
    ensures Evolves(t, t)
  {
  }

  lemma ChosenAreCandidates(t: ClaimTables, candidates: seq<Tx>, cfg: Config, w: World, rollup: nat)
    requires CandidatesFrom(candidates, t, rollup)
    ensures CandidatesFrom(ChosenNow(candidates, cfg, w), t, rollup)
    ensures cfg.maxPerGroup > 0 ==> |ChosenNow(candidates, cfg, w)| <= cfg.maxPerGroup
  {
  }
}
