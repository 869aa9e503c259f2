/** Choosing the claims of a new group, composing its call, and the passes of a tick over all groups. */
module ClaimGrouping {
  import opened Hashing
  import opened Outcomes
  import opened ClaimTypes
  import opened ClaimSteps
  import opened ClaimPending

  /** Some claim has waited too long, or there are enough of them. */
  ghost predicate Triggered(txs: seq<Tx>, cfg: Config, now: int)
  {
    |txs| >= cfg.trigger || exists i :: 0 <= i < |txs| && now - txs[i].createdAt > cfg.retainedPeriod
  }

  /** The oldest claims, as many as one group may hold. */
  function Chosen(txs: seq<Tx>, cfg: Config): (r: seq<Tx>)
    ensures r <= txs
    ensures txs != [] ==> r != []
    ensures cfg.maxPerGroup > 0 ==> |r| <= cfg.maxPerGroup
  {
    if 0 < cfg.maxPerGroup <= |txs| then txs[..cfg.maxPerGroup] else txs
  }

  method IsRetainedPeriodSurpassed(now: int, txs: seq<Tx>, cfg: Config) returns (r: bool)
    ensures r <==> exists i :: 0 <= i < |txs| && now - txs[i].createdAt > cfg.retainedPeriod
  {
    for i := 0 to |txs|
      invariant forall j :: 0 <= j < i ==> now - txs[j].createdAt <= cfg.retainedPeriod
    {
      if now - txs[i].createdAt > cfg.retainedPeriod {
        return true;
      }
    }
    r := false;
  }

  method ChooseGroupTx(txs: seq<Tx>, cfg: Config) returns (group: seq<Tx>)
    ensures group == Chosen(txs, cfg)
  {
    group := [];
    for i := 0 to |txs|
      invariant group == txs[..i]
      invariant i > 0 && cfg.maxPerGroup > 0 ==> i < cfg.maxPerGroup
    {
      group := group + [txs[i]];
      if |group| == cfg.maxPerGroup {
        break;
      }
    }
  }

  method ChooseTxs(now: int, txs: seq<Tx>, cfg: Config) returns (group: seq<Tx>)
    ensures group == if Triggered(txs, cfg, now) then Chosen(txs, cfg) else []
    ensures group == if || |txs| >= cfg.trigger
                        || exists i :: 0 <= i < |txs| && now - txs[i].createdAt > cfg.retainedPeriod
                     then txs[..if 0 < cfg.maxPerGroup < |txs| then cfg.maxPerGroup else |txs|] else []
  {
    var late := IsRetainedPeriodSurpassed(now, txs, cfg);
    if late || |txs| >= cfg.trigger {
      group := ChooseGroupTx(txs, cfg);
    } else {
      group := [];
    }
  }

  datatype CompressParams = CompressParams(mainnetRoot: Digest, rollupRoot: Digest, claims: seq<Call>)

  method MaxKey(calls: map<nat, Call>) returns (m: nat)
    requires calls != map[]
    ensures m in calls && forall d :: d in calls ==> d <= m
  {
    m :| m in calls;
    var todo := calls.Keys - {m};
    while todo != {}
      invariant todo <= calls.Keys && m in calls
      invariant forall d :: d in calls ==> d in todo || d <= m
      decreases |todo|
    {
      var d :| d in todo;
      if d > m {
        m := d;
      }
      todo := todo - {d};
    }
  }

  /** A list of keys without repetition. */
  ghost predicate Listed(keys: seq<nat>, all: set<nat>)
  {
    && (forall i :: 0 <= i < |keys| ==> keys[i] in all)
    && (forall i, j :: 0 <= i < j < |keys| ==> keys[i] != keys[j])
    && (forall d :: d in all ==> d in keys)
  }

  /** The calls of all keys, one for one in some order, unless one of them is unreadable. */
  method ListCalls(calls: map<nat, Call>) returns (r: Option<seq<Call>>, ghost keys: seq<nat>)
    ensures r.Some? <==> forall d :: d in calls ==> calls[d].Readable()
    ensures r.Some? ==> Listed(keys, calls.Keys) && ClaimsAt(r.value, calls, keys)
  {
    var todo, claims := calls.Keys, [];
    ghost var seen: set<nat> := {};
    keys := [];
    while todo != {}
      invariant todo !! seen && todo + seen == calls.Keys
      invariant Listed(keys, seen) && ClaimsAt(claims, calls, keys)
      invariant forall d :: d in seen ==> calls[d].Readable()
      decreases |todo|
    {
      var d :| d in todo;
      if !calls[d].Readable() {
        return None, keys;
      }
      ListedSnoc(keys, seen, d);
      ClaimsAtSnoc(claims, calls, keys, d);
      claims, keys, todo, seen := claims + [calls[d]], keys + [d], todo - {d}, seen + {d};
    }
    assert seen == calls.Keys;
    return Some(claims), keys;
  }

  /** One call for all claims: the exit roots of the newest deposit, and the claim of every deposit once. */
  method GetCompressClaimParameters(calls: map<nat, Call>) returns (r: Option<CompressParams>, ghost keys: seq<nat>)
    requires calls != map[]
    ensures r.Some? <==> forall d :: d in calls ==> calls[d].Readable()
    ensures r.Some? ==> exists m :: m in calls && (forall d :: d in calls ==> d <= m) && RootsFrom(r.value, calls[m])
    ensures r.Some? ==> Listed(keys, calls.Keys) && ClaimsAt(r.value.claims, calls, keys)
  {
    var claims;
    claims, keys := ListCalls(calls);
    if claims.None? {
      return None, keys;
    }
    var m := MaxKey(calls);
    r := Some(CompressParams(calls[m].mainnetRoot, calls[m].rollupRoot, claims.value));
  }

  predicate RootsFrom(p: CompressParams, call: Call)
  {
    p.mainnetRoot == call.mainnetRoot && p.rollupRoot == call.rollupRoot
  }

  /** The claims are the calls of these keys, one for one. */
  ghost predicate ClaimsAt(claims: seq<Call>, calls: map<nat, Call>, keys: seq<nat>)
  {
    |claims| == |keys| && forall i :: 0 <= i < |keys| ==> keys[i] in calls && claims[i] == calls[keys[i]]
  }

  lemma ClaimsAtSnoc(claims: seq<Call>, calls: map<nat, Call>, keys: seq<nat>, d: nat)
    requires ClaimsAt(claims, calls, keys) && d in calls
    ensures ClaimsAt(claims + [calls[d]], calls, keys + [d])
  {
  }

  lemma ListedSnoc(keys: seq<nat>, all: set<nat>, d: nat)
    requires Listed(keys, all) && d !in all
    ensures Listed(keys + [d], all + {d})
  {
    forall e | e in all + {d}
      ensures e in keys + [d]
    {
      if e != d { assert e in keys; }
    }
  }

  /** The call data of some transactions. */
  function Datas(txs: seq<Tx>): (r: seq<Call>)
    ensures |r| == |txs|
    ensures forall i :: 0 <= i < |txs| ==> r[i] == txs[i].data
  {
    seq(|txs|, i requires 0 <= i < |txs| => txs[i].data)
  }

  /** Taking the call data by deposit gives every transaction's once, in some order. */
  lemma {:induction false} EveryClaimOnce(txs: seq<Tx>, keys: seq<nat>, claims: seq<Call>)
    requires Distinct(txs) && |claims| == |keys|
    requires Listed(keys, set i | 0 <= i < |txs| :: txs[i].depositId)
    requires forall k, i :: 0 <= k < |keys| && 0 <= i < |txs| && txs[i].depositId == keys[k] ==>
               claims[k] == txs[i].data
    ensures multiset(claims) == multiset(Datas(txs))
  {
    if keys == [] {
      BothEmpty(txs, keys);
    } else {
      var n := |keys| - 1;
      var i :| 0 <= i < |txs| && txs[i].depositId == keys[n];
      var rest := txs[..i] + txs[i + 1..];
      RestListed(txs, keys, i, rest);
      EveryClaimOnce(rest, keys[..n], claims[..n]);
      assert claims == claims[..n] + [txs[i].data];
      DatasWithout(txs, i, rest);
    }
  }

  lemma BothEmpty(txs: seq<Tx>, keys: seq<nat>)
    requires Listed(keys, set i | 0 <= i < |txs| :: txs[i].depositId)
    ensures keys == [] ==> txs == []
  {
    if txs != [] { assert txs[0].depositId in keys; }
  }

  /** The other transactions have the other keys. */
  lemma RestListed(txs: seq<Tx>, keys: seq<nat>, i: nat, rest: seq<Tx>)
    requires Distinct(txs) && Listed(keys, set i | 0 <= i < |txs| :: txs[i].depositId) && keys != []
    requires i < |txs| && txs[i].depositId == keys[|keys| - 1] && rest == txs[..i] + txs[i + 1..]
    ensures Distinct(rest) && Listed(keys[..|keys| - 1], set i | 0 <= i < |rest| :: rest[i].depositId)
    ensures forall j :: 0 <= j < |rest| ==> rest[j] in txs
  {
    var n := |keys| - 1;
    var ids := set i | 0 <= i < |rest| :: rest[i].depositId;
    forall k | 0 <= k < n
      ensures keys[k] in ids
    {
      var j :| 0 <= j < |txs| && txs[j].depositId == keys[k];
      assert rest[if j < i then j else j - 1] == txs[j];
    }
    forall d | d in ids
      ensures d in keys[..n]
    {
      var j :| 0 <= j < |rest| && rest[j].depositId == d;
      RestKey(txs, keys, i, rest, j);
    }
  }

  lemma RestKey(txs: seq<Tx>, keys: seq<nat>, i: nat, rest: seq<Tx>, j: nat)
    requires Distinct(txs) && Listed(keys, set i | 0 <= i < |txs| :: txs[i].depositId) && keys != []
    requires i < |txs| && txs[i].depositId == keys[|keys| - 1] && rest == txs[..i] + txs[i + 1..] && j < |rest|
    ensures rest[j].depositId in keys[..|keys| - 1]
  {
    var l := if j < i then j else j + 1;
    assert rest[j] == txs[l] && txs[l].depositId in keys;
    var k :| 0 <= k < |keys| && keys[k] == rest[j].depositId;
    assert k != |keys| - 1;
  }

  lemma DatasWithout(txs: seq<Tx>, i: nat, rest: seq<Tx>)
    requires i < |txs| && rest == txs[..i] + txs[i + 1..]
    ensures multiset(Datas(txs)) == multiset(Datas(rest)) + multiset{txs[i].data}
  {
    var a, b := Datas(txs[..i]), Datas(txs[i + 1..]);
    assert Datas(txs) == a + ([txs[i].data] + b);
    assert Datas(rest) == a + b;
  }

  /** All claims were proved against one global exit root. */
  ghost predicate ShareRoot(txs: seq<Tx>)
  {
    && (forall i :: 0 <= i < |txs| ==> txs[i].ger == Pair(txs[i].data.mainnetRoot, txs[i].data.rollupRoot))
    && (forall i, j :: 0 <= i < j < |txs| ==> txs[i].ger == txs[j].ger)
  }

  ghost predicate Composable(txs: seq<Tx>)
  {
    forall i :: 0 <= i < |txs| ==> txs[i].data.Readable()
  }

  /** The call data of some transactions, by deposit. */
  ghost predicate CallsOf(txs: seq<Tx>, calls: map<nat, Call>)
  {
    && (forall j :: 0 <= j < |txs| ==> txs[j].depositId in calls)
    && (forall d :: d in calls ==> CallOf(txs, d, calls[d]))
    && (Distinct(txs) ==> |calls| == |txs|)
  }

  ghost predicate CallOf(txs: seq<Tx>, d: nat, call: Call)
  {
    exists j :: 0 <= j < |txs| && txs[j].depositId == d && call == txs[j].data
  }

  lemma CallsOfSnoc(txs: seq<Tx>, calls: map<nat, Call>, tx: Tx)
    requires CallsOf(txs, calls)
    ensures CallsOf(txs + [tx], calls[tx.depositId := tx.data])
  {
    var more, calls' := txs + [tx], calls[tx.depositId := tx.data];
    assert more[|txs|] == tx && forall j :: 0 <= j < |txs| ==> more[j] == txs[j];
    forall d | d in calls'
      ensures CallOf(more, d, calls'[d])
    {
      if d != tx.depositId {
        assert CallOf(txs, d, calls[d]);
        var j :| 0 <= j < |txs| && txs[j].depositId == d && calls[d] == txs[j].data;
        assert more[j].depositId == d;
      }
    }
    NewCaller(txs, calls, tx);
  }

  /** A transaction that stays distinct from the others has no call yet. */
  lemma NewCaller(txs: seq<Tx>, calls: map<nat, Call>, tx: Tx)
    requires CallsOf(txs, calls)
    ensures Distinct(txs + [tx]) ==> Distinct(txs) && tx.depositId !in calls
  {
    if Distinct(txs + [tx]) {
      var more := txs + [tx];
      assert forall j :: 0 <= j < |txs| ==> more[j] == txs[j] && more[j].depositId != more[|txs|].depositId;
      if tx.depositId in calls {
        assert CallOf(txs, tx.depositId, calls[tx.depositId]);
      }
    }
  }

  lemma CallsOfDistinct(txs: seq<Tx>, calls: map<nat, Call>)
    requires CallsOf(txs, calls) && Distinct(txs)
    ensures forall i :: 0 <= i < |txs| ==> calls[txs[i].depositId] == txs[i].data
    ensures Composable(txs) <==> forall d :: d in calls ==> calls[d].Readable()
  {
  }

  method CallsByDeposit(txs: seq<Tx>) returns (calls: map<nat, Call>)
    ensures CallsOf(txs, calls)
  {
    calls := map[];
    for i := 0 to |txs|
      invariant CallsOf(txs[..i], calls)
    {
      CallsOfSnoc(txs[..i], calls, txs[i]);
      assert txs[..i + 1] == txs[..i] + [txs[i]];
      calls := calls[txs[i].depositId := txs[i].data];
    }
    assert txs[..|txs|] == txs;
  }

  lemma RootsAreShared(txs: seq<Tx>, calls: map<nat, Call>, m: nat)
    requires CallsOf(txs, calls) && m in calls && ShareRoot(txs)
    ensures forall i :: 0 <= i < |txs| ==>
              calls[m].mainnetRoot == txs[i].data.mainnetRoot && calls[m].rollupRoot == txs[i].data.rollupRoot
  {
    assert CallOf(txs, m, calls[m]);
    var k :| 0 <= k < |txs| && calls[m] == txs[k].data;
    SharedRoots(txs, k);
  }

  method GetCompressClaimParametersFromMonitoredTx(txs: seq<Tx>) returns (r: Option<CompressParams>)
    requires txs != []
    ensures Distinct(txs) ==> (r.Some? <==> Composable(txs))
    ensures r.Some? && Distinct(txs) ==> multiset(r.value.claims) == multiset(Datas(txs))
    ensures r.Some? && ShareRoot(txs) ==> forall i :: 0 <= i < |txs| ==> RootsFrom(r.value, txs[i].data)
  {
    var calls := CallsByDeposit(txs);
    assert txs[0].depositId in calls;
    ghost var keys;
    r, keys := GetCompressClaimParameters(calls);
    if Distinct(txs) {
      CallsOfDistinct(txs, calls);
      if r.Some? {
        assert calls.Keys == set i | 0 <= i < |txs| :: txs[i].depositId by { KeysOfCalls(txs, calls); }
        EveryClaimOnce(txs, keys, r.value.claims);
      }
    }
    if r.Some? && ShareRoot(txs) {
      var m :| m in calls && RootsFrom(r.value, calls[m]);
      RootsAreShared(txs, calls, m);
    }
  }

  lemma KeysOfCalls(txs: seq<Tx>, calls: map<nat, Call>)
    requires CallsOf(txs, calls)
    ensures calls.Keys == set i | 0 <= i < |txs| :: txs[i].depositId
  {
    forall d | d in calls
      ensures exists i :: 0 <= i < |txs| && txs[i].depositId == d
    {
      assert CallOf(txs, d, calls[d]);
    }
  }

  /** The exit roots of one claim are those of every claim proved against the same global exit root. */
  lemma SharedRoots(txs: seq<Tx>, k: nat)
    requires ShareRoot(txs) && k < |txs|
    ensures forall i :: 0 <= i < |txs| ==>
          txs[i].data.mainnetRoot == txs[k].data.mainnetRoot && txs[i].data.rollupRoot == txs[k].data.rollupRoot
  {
  }

  function WithGroup(txs: seq<Tx>, id: nat): (r: seq<Tx>)
    ensures |r| == |txs|
    ensures forall i :: 0 <= i < |txs| ==> r[i] == txs[i].(groupId := Some(id))
  {
    seq(|txs|, i requires 0 <= i < |txs| => txs[i].(groupId := Some(id)))
  }

  /** The answer to the one call that claims all of these: their common exit roots, and the claim of each once. */
  function Compressed(txs: seq<Tx>, w: World): Result<Option<nat>, ()>
    requires txs != []
  {
    w.compress(txs[0].data.mainnetRoot, txs[0].data.rollupRoot, multiset(Datas(txs)))
  }

  /** One call can claim all of these: they share their exit roots, and the call can be composed and compressed. */
  ghost predicate Callable(txs: seq<Tx>, w: World)
  {
    txs != [] && ShareRoot(txs) && Composable(txs) && Compressed(txs, w).Ok?
  }

  function NewGroup(txs: seq<Tx>, id: nat, w: World): Group
    requires txs != [] && Compressed(txs, w).Ok?
  {
    Group(Entry(GroupCreated, 0, Compressed(txs, w).value, [], w.groupClock), WithGroup(txs, id))
  }

  ghost function ChosenNow(txs: seq<Tx>, cfg: Config, w: World): seq<Tx>
  {
    if Triggered(txs, cfg, w.groupClock) then Chosen(txs, cfg) else []
  }

  /** A group can be made of the chosen claims, if there are any. */
  ghost predicate CanGroup(candidates: seq<Tx>, cfg: Config, w: World)
  {
    var chosen := ChosenNow(candidates, cfg, w);
    chosen == [] || (Composable(chosen) && Compressed(chosen, w).Ok?)
  }

  /** Claims under one root can be grouped exactly if every call can be read and the compressor answers. */
  lemma GroupableWhen(txs: seq<Tx>, cfg: Config, w: World)
    ensures var chosen := ChosenNow(txs, cfg, w);
            CanGroup(txs, cfg, w) <==>
            chosen == [] ||
            (&& (forall i :: 0 <= i < |chosen| ==> chosen[i].data.selector != UnknownMethod && chosen[i].data.unpacks)
             && w.compress(chosen[0].data.mainnetRoot, chosen[0].data.rollupRoot, multiset(Datas(chosen))).Ok?)
  {
  }

  /** The chosen claims as members of a group, and the parameters of the call that claims them all. */
  method Compose(chosen: seq<Tx>, id: nat) returns (members: seq<Tx>, params: Option<CompressParams>)
    requires chosen != [] && Distinct(chosen) && ShareRoot(chosen)
    ensures members == WithGroup(chosen, id)
    ensures params.Some? <==> Composable(chosen)
    ensures params.Some? ==> RootsFrom(params.value, chosen[0].data)
    ensures params.Some? ==> multiset(params.value.claims) == multiset(Datas(chosen))
  {
    members := WithGroup(chosen, id);
    params := GetCompressClaimParametersFromMonitoredTx(members);
    assert forall i :: 0 <= i < |chosen| ==> members[i].data == chosen[i].data;
    assert Datas(members) == Datas(chosen);
  }

  /** The first of some claims that share a root share it. */
  lemma ShareRootPrefix(txs: seq<Tx>, some: seq<Tx>)
    requires ShareRoot(txs) && some <= txs
    ensures ShareRoot(some)
  {
  }

  /**
    A new group's call is the compressor's answer to the mainnet and the rollup exit root of every one of its claims,
    and to all the claims; the group is created now, with nothing sent.
   */
  lemma NewGroupCalls(txs: seq<Tx>, id: nat, w: World, i: nat)
    requires Callable(txs, w) && i < |txs|
    ensures var g := NewGroup(txs, id, w);
            && w.compress(txs[i].data.mainnetRoot, txs[i].data.rollupRoot, multiset(Datas(txs))) ==
               Ok(g.entry.compressed)
            && g.entry.status == GroupCreated && g.entry.history == [] && g.entry.createdAt == w.groupClock
            && |g.txs| == |txs| && g.txs[i] == txs[i].(groupId := Some(id))
  {
    SharedRoots(txs, i);
  }

  method CreateNewGroups(p: PendingTxs, cfg: Config, w: World) returns (ok: bool)
    requires Distinct(p.candidates) && ShareRoot(p.candidates)
    modifies p
    ensures p.candidates == old(p.candidates)
    ensures ok <==> CanGroup(old(p.candidates), cfg, w)
    ensures ok ==> var chosen := ChosenNow(old(p.candidates), cfg, w);
                   var id := old(p.lastGroupId) + 1;
                   p.groups == if chosen == [] || id in old(p.groups) then old(p.groups)
                               else old(p.groups)[id := NewGroup(chosen, id, w)]
  {
    var chosen := ChooseTxs(w.groupClock, p.candidates, cfg);
    if |chosen| == 0 {
      return true;
    }
    var id := p.GenerateNewGroupID();
    ShareRootPrefix(p.candidates, chosen);
    var members, params := Compose(chosen, id);
    if params.None? {
      return false;
    }
    var answer := w.compress(params.value.mainnetRoot, params.value.rollupRoot, multiset(params.value.claims));
    if answer.Err? {
      return false;
    }
    p.AddGroup(id, Group(Entry(GroupCreated, 0, answer.value, [], w.groupClock), members));
    ok := true;
  }

  ghost function Stepped(groups: map<nat, Group>, cfg: Config, w: World): (r: map<nat, Group>)
  {
    map id | id in groups :: Step(id, groups[id], cfg, w)
  }

  method SendClaims(p: PendingTxs, cfg: Config, w: World)
    modifies p`groups
    ensures p.groups == map id | id in old(p.groups) :: Send(id, old(p.groups)[id], cfg, w)
  {
    var todo := p.groups.Keys;
    while todo != {}
      invariant todo <= p.groups.Keys == old(p.groups).Keys
      invariant forall id :: id in p.groups ==>
            p.groups[id] == if id in todo then old(p.groups)[id] else Send(id, old(p.groups)[id], cfg, w)
      decreases |todo|
    {
      var id :| id in todo;
      todo := todo - {id};
      var g := p.groups[id];
      var can := CanSendNewClaimCall(g.entry, cfg, w.sendClock(id));
      if g.entry.compressed.Some? && can && w.send(id).Some? {
        var s := w.send(id).value;
        var e := g.entry.(status := GroupClaiming);
        e := e.(history := e.history + [Attempt(s.hash, None, s.at)]);
        e := e.(retries := e.retries + 1);
        p.groups := p.groups[id := g.(entry := e)];
      }
    }
  }

  method CheckReceipts(p: PendingTxs, w: World)
    modifies p`groups
    ensures p.groups == map id | id in old(p.groups) :: Check(old(p.groups)[id], w)
  {
    var todo := p.groups.Keys;
    while todo != {}
      invariant todo <= p.groups.Keys == old(p.groups).Keys
      invariant forall id :: id in p.groups ==>
            p.groups[id] == if id in todo then old(p.groups)[id] else Check(old(p.groups)[id], w)
      decreases |todo|
    {
      var id :| id in todo;
      todo := todo - {id};
      if p.groups[id].entry.status.GroupClaiming? {
        var g := SettleReceipts(p.groups[id], w);
        p.groups := p.groups[id := g];
      }
    }
  }

  method OutdateClaims(p: PendingTxs, cfg: Config, w: World)
    modifies p`groups
    ensures p.groups == map id | id in old(p.groups) :: Outdate(id, old(p.groups)[id], cfg, w)
  {
    var todo := p.groups.Keys;
    while todo != {}
      invariant todo <= p.groups.Keys == old(p.groups).Keys
      invariant forall id :: id in p.groups ==>
            p.groups[id] == if id in todo then old(p.groups)[id] else Outdate(id, old(p.groups)[id], cfg, w)
      decreases |todo|
    {
      var id :| id in todo;
      todo := todo - {id};
      var g := OutdateClaim(id, p.groups[id], cfg, w);
      p.groups := p.groups[id := g];
    }
  }

  /** The groups a tick works towards: every loaded group one step on, and a new group of the chosen claims. */
  ghost function Worked(groups: map<nat, Group>, candidates: seq<Tx>, last: nat, cfg: Config, w: World): map<nat, Group>
    requires CanGroup(candidates, cfg, w)
  {
    var chosen := ChosenNow(candidates, cfg, w);
    if chosen == [] || last + 1 in groups then Stepped(groups, cfg, w)
    else Stepped(groups, cfg, w)[last + 1 := NewGroup(chosen, last + 1, w)]
  }

  method Process(p: PendingTxs, cfg: Config, w: World) returns (ok: bool)
    requires Distinct(p.candidates) && ShareRoot(p.candidates)
    modifies p
    ensures ok <==> CanGroup(old(p.candidates), cfg, w)
    ensures ok ==> p.groups == Worked(old(p.groups), old(p.candidates), old(p.lastGroupId), cfg, w)
  {
    StepGroups(p, cfg, w);
    ok := CreateNewGroups(p, cfg, w);
  }

  /** The three passes over the groups. */
  method StepGroups(p: PendingTxs, cfg: Config, w: World)
    modifies p`groups
    ensures p.groups == Stepped(old(p.groups), cfg, w)
  {
    SendClaims(p, cfg, w);
    CheckReceipts(p, w);
    OutdateClaims(p, cfg, w);
  }
}
