/** What one tick does to one group: send, look at receipts, give up on late ones, and fail when out of retries. */
module ClaimSteps {
  import opened Outcomes
  import opened ClaimTypes

  /** What holds of every stored group between ticks. */
  ghost predicate GroupOk(e: Entry, maxRetries: int)
  {
    && e.retries == |e.history|
    && (forall i :: 0 <= i < |e.history| - 1 ==> e.history[i].receipt == Some(ReceiptFailed))
    && match e.status
       case GroupCreated => e.history == []
       case GroupClaiming =>
         && 1 <= e.retries < maxRetries
         && (var last := e.history[|e.history| - 1].receipt; last == None || last == Some(ReceiptFailed))
       case GroupConfirmed =>
         && 1 <= e.retries < maxRetries
         && e.history[|e.history| - 1].receipt == Some(ReceiptSuccessful)
       case GroupFailed => e.retries >= maxRetries
  }

  /** Read out: how many attempts are pending and how many succeeded, by the status of the group. */
  lemma GroupHistory(e: Entry, maxRetries: int)
    requires GroupOk(e, maxRetries)
    ensures forall i, j :: 0 <= i < j < |e.history| ==> !(e.history[i].IsPending() && e.history[j].IsPending())
    ensures e.status.GroupClaiming? ==> forall i :: 0 <= i < |e.history| ==>
              e.history[i].receipt != Some(ReceiptSuccessful)
    ensures e.status.GroupConfirmed? ==> forall i :: 0 <= i < |e.history| ==>
              !e.history[i].IsPending() && (e.history[i].receipt == Some(ReceiptSuccessful) <==> i == |e.history| - 1)
    ensures e.status.GroupConfirmed? ==> e.history != []
    ensures IsLive(e.status) || e.status.GroupConfirmed? ==> e.retries < maxRetries || e.retries == 0
  {
  }

  /** A new transaction may be sent: none is pending, retries are left and the last one is long enough ago. */
  ghost predicate CanSend(e: Entry, cfg: Config, now: int)
  {
    || e.status.GroupCreated?
    || e.history == []
    || (&& (forall i :: 0 <= i < |e.history| ==> !e.history[i].IsPending())
        && e.retries < cfg.maxRetries
        && (forall i :: 0 <= i < |e.history| ==> now - e.history[i].createdAt >= cfg.retryInterval))
  }

  method GetMoreRecentTx(history: seq<Attempt>) returns (k: nat)
    requires history != []
    ensures k < |history|
    ensures forall i :: 0 <= i < |history| ==> history[i].createdAt <= history[k].createdAt
    ensures forall i :: 0 <= i < k ==> history[i].createdAt < history[k].createdAt
  {
    k := 0;
    for i := 0 to |history|
      invariant k < |history|
      invariant k < i || k == 0
      invariant forall j :: 0 <= j < i ==> history[j].createdAt <= history[k].createdAt
      invariant forall j :: 0 <= j < k ==> history[j].createdAt < history[k].createdAt
    {
      if history[i].createdAt > history[k].createdAt {
        k := i;
      }
    }
  }

  method CanSendNewClaimCall(e: Entry, cfg: Config, now: int) returns (ok: bool)
    ensures ok <==> CanSend(e, cfg, now)
  {
    if e.status.GroupCreated? || e.history == [] {
      return true;
    }
    for i := 0 to |e.history|
      invariant forall j :: 0 <= j < i ==> !e.history[j].IsPending()
    {
      if e.history[i].IsPending() && e.history[i].receipt != Some(ReceiptOutdated) {
        return false;
      }
    }
    if e.retries >= cfg.maxRetries {
      return false;
    }
    var k := GetMoreRecentTx(e.history);
    ok := now - e.history[k].createdAt >= cfg.retryInterval;
  }

  /** A tick sends a transaction for the group. */
  ghost predicate Sends(id: nat, g: Group, cfg: Config, w: World)
  {
    g.entry.compressed.Some? && CanSend(g.entry, cfg, w.sendClock(id)) && w.send(id).Some?
  }

  /** The group after the sending pass. */
  ghost function Send(id: nat, g: Group, cfg: Config, w: World): Group
  {
    if Sends(id, g, cfg, w) then
      var s := w.send(id).value;
      g.(entry := g.entry.(status := GroupClaiming,
                           history := g.entry.history + [Attempt(s.hash, None, s.at)],
                           retries := g.entry.retries + 1))
    else
      g
  }

  predicate Succeeds(a: Attempt, w: World)
  {
    a.IsPending() && w.mined(a.hash) == Mined(true)
  }

  /** Where the scan of receipts stops. */
  ghost function FirstSuccess(h: seq<Attempt>, w: World): (k: nat)
    ensures k <= |h|
    ensures forall i :: 0 <= i < k ==> !Succeeds(h[i], w)
    ensures k < |h| ==> Succeeds(h[k], w)
  {
    if h == [] || Succeeds(h[0], w) then 0 else 1 + FirstSuccess(h[1..], w)
  }

  function Settled(a: Attempt, w: World): Attempt
  {
    if a.IsPending() && w.mined(a.hash) == Mined(false) then a.(receipt := Some(ReceiptFailed)) else a
  }

  ghost function CheckedHistory(h: seq<Attempt>, w: World): (r: seq<Attempt>)
    ensures |r| == |h|
    ensures forall i :: 0 <= i < |h| ==> r[i].(receipt := h[i].receipt) == h[i]
    ensures forall i :: 0 <= i < |h| && !h[i].IsPending() ==> r[i] == h[i]
  {
    var k := FirstSuccess(h, w);
    seq(|h|, i requires 0 <= i < |h| =>
      if i < k then Settled(h[i], w) else if i == k then h[i].(receipt := Some(ReceiptSuccessful)) else h[i])
  }

  /** The group after the receipts pass. */
  ghost function Check(g: Group, w: World): Group
  {
    if !g.entry.status.GroupClaiming? then
      g
    else
      var h := CheckedHistory(g.entry.history, w);
      if FirstSuccess(g.entry.history, w) < |h| then
        Group(g.entry.(history := h, status := GroupConfirmed), WithStatus(g.txs, Confirmed))
      else
        g.(entry := g.entry.(history := h))
  }

  function Expired(a: Attempt, cfg: Config, now: int): (r: Attempt)
    ensures r.(receipt := a.receipt) == a && (!a.IsPending() ==> r == a)
    ensures r == a || r.receipt == Some(ReceiptFailed)
  {
    if a.IsPending() && now - a.createdAt > cfg.retryTimeout then a.(receipt := Some(ReceiptFailed)) else a
  }

  ghost function ExpiredHistory(id: nat, h: seq<Attempt>, cfg: Config, w: World): (r: seq<Attempt>)
    ensures |r| == |h|
    ensures forall i :: 0 <= i < |h| ==> r[i] == Expired(h[i], cfg, w.receiptClock(id, i))
  {
    seq(|h|, i requires 0 <= i < |h| => Expired(h[i], cfg, w.receiptClock(id, i)))
  }

  /** The group after the pass that gives up on late transactions and on groups out of retries. */
  ghost function Outdate(id: nat, g: Group, cfg: Config, w: World): Group
  {
    var e := if g.entry.status.GroupClaiming?
             then g.entry.(history := ExpiredHistory(id, g.entry.history, cfg, w)) else g.entry;
    if e.retries >= cfg.maxRetries then
      Group(e.(status := GroupFailed), WithStatus(g.txs, Failed))
    else
      g.(entry := e)
  }

  /** The group after a whole tick. */
  ghost function Step(id: nat, g: Group, cfg: Config, w: World): Group
  {
    Outdate(id, Check(Send(id, g, cfg, w), w), cfg, w)
  }

  /** No earlier attempt is pending and mined successfully. */
  ghost predicate NoneMinedBefore(h: seq<Attempt>, w: World, i: nat)
    requires i <= |h|
  {
    forall j :: 0 <= j < i ==> h[j].receipt.None? ==> w.mined(h[j].hash) != Mined(true)
  }

  /** The loop of the receipts pass over one group. */
  method ScanReceipts(g: Group, w: World) returns (g': Group)
    requires g.entry.status.GroupClaiming?
    ensures g' == Check(g, w)
  {
    var h := g.entry.history;
    for i := 0 to |g.entry.history|
      invariant |h| == |g.entry.history|
      invariant forall j :: 0 <= j < i ==> !Succeeds(g.entry.history[j], w) && h[j] == Settled(g.entry.history[j], w)
      invariant forall j :: i <= j < |h| ==> h[j] == g.entry.history[j]
    {
      if h[i].IsPending() {
        match w.mined(h[i].hash) {
          case Mined(true) =>
            h := h[i := h[i].(receipt := Some(ReceiptSuccessful))];
            assert FirstSuccess(g.entry.history, w) == i;
            assert h == CheckedHistory(g.entry.history, w);
            return Group(g.entry.(history := h, status := GroupConfirmed), WithStatus(g.txs, Confirmed));
          case Mined(false) =>
            h := h[i := h[i].(receipt := Some(ReceiptFailed))];
          case _ =>
        }
      }
    }
    assert h == CheckedHistory(g.entry.history, w);
    g' := g.(entry := g.entry.(history := h));
  }

  /**
    Receipts are settled up to the first success: a pending attempt that was mined succeeds or fails as the network
    says, and every other attempt is as it was. A success confirms the group.
   */
  method SettleReceipts(g: Group, w: World) returns (g': Group)
    requires g.entry.status.GroupClaiming?
    ensures g' == Check(g, w)
    ensures |g'.entry.history| == |g.entry.history|
    ensures forall i :: 0 <= i < |g.entry.history| ==>
              var a := g.entry.history[i];
              g'.entry.history[i] ==
              if a.receipt.None? && w.mined(a.hash).Mined? && NoneMinedBefore(g.entry.history, w, i)
              then a.(receipt := Some(if w.mined(a.hash).successful then ReceiptSuccessful else ReceiptFailed)) else a
    ensures g'.entry.status ==
            if NoneMinedBefore(g.entry.history, w, |g.entry.history|) then GroupClaiming else GroupConfirmed
  {
    g' := ScanReceipts(g, w);
    CheckedAt(g.entry.history, w);
  }

  /** What the receipts pass does to each attempt. */
  lemma CheckedAt(h: seq<Attempt>, w: World)
    ensures forall i :: 0 <= i < |h| ==>
              CheckedHistory(h, w)[i] ==
              if h[i].receipt.None? && w.mined(h[i].hash).Mined? && NoneMinedBefore(h, w, i)
              then h[i].(receipt := Some(if w.mined(h[i].hash).successful then ReceiptSuccessful else ReceiptFailed))
              else h[i]
    ensures FirstSuccess(h, w) == |h| <==> NoneMinedBefore(h, w, |h|)
  {
    var k := FirstSuccess(h, w);
    if k < |h| { assert Succeeds(h[k], w); }
    forall i | 0 <= i < |h|
      ensures NoneMinedBefore(h, w, i) <==> i <= k
    {
      if i > k { assert h[k].receipt.None?; }
      assert forall j :: 0 <= j < i && j < k ==> !Succeeds(h[j], w);
    }
  }

  /** Pending attempts of a claiming group that are late fail, and a group out of retries fails. */
  method OutdateClaim(id: nat, g: Group, cfg: Config, w: World) returns (g': Group)
    ensures g' == Outdate(id, g, cfg, w)
    ensures |g'.entry.history| == |g.entry.history|
    ensures forall i :: 0 <= i < |g.entry.history| ==>
              var a := g.entry.history[i];
              g'.entry.history[i] ==
              if g.entry.status.GroupClaiming? && a.receipt.None? &&
                 w.receiptClock(id, i) - a.createdAt > cfg.retryTimeout
              then a.(receipt := Some(ReceiptFailed)) else a
    ensures g'.entry.status == if g.entry.retries >= cfg.maxRetries then GroupFailed else g.entry.status
  {
    g' := g;
    if g.entry.status.GroupClaiming? {
      var h := g.entry.history;
      for i := 0 to |g.entry.history|
        invariant |h| == |g.entry.history|
        invariant forall j :: 0 <= j < i ==> h[j] == Expired(g.entry.history[j], cfg, w.receiptClock(id, j))
        invariant forall j :: i <= j < |h| ==> h[j] == g.entry.history[j]
      {
        if h[i].IsPending() && w.receiptClock(id, i) - h[i].createdAt > cfg.retryTimeout {
          h := h[i := h[i].(receipt := Some(ReceiptFailed))];
        }
      }
      assert h == ExpiredHistory(id, g.entry.history, cfg, w);
      g' := g.(entry := g.entry.(history := h));
    }
    if g'.entry.retries >= cfg.maxRetries {
      g' := Group(g'.entry.(status := GroupFailed), WithStatus(g'.txs, Failed));
    }
  }

  /** What holds of a group within a tick, where the number of retries is not yet looked at. */
  ghost predicate Midway(e: Entry)
  {
    && e.retries == |e.history|
    && (forall i :: 0 <= i < |e.history| - 1 ==> e.history[i].receipt == Some(ReceiptFailed))
    && match e.status
       case GroupCreated => e.history == []
       case GroupClaiming =>
         && e.history != []
         && (var last := e.history[|e.history| - 1].receipt; last == None || last == Some(ReceiptFailed))
       case GroupConfirmed => e.history != [] && e.history[|e.history| - 1].receipt == Some(ReceiptSuccessful)
       case GroupFailed => false
  }

  /** The parts of a group that no step touches. */
  ghost predicate SameGroup(e: Entry, e': Entry)
  {
    e'.compressed == e.compressed && e'.createdAt == e.createdAt
  }

  /** No receipt once known is forgotten, and no attempt is dropped or changed. */
  ghost predicate HistoryKept(h: seq<Attempt>, h': seq<Attempt>)
  {
    && |h| <= |h'|
    && (forall i :: 0 <= i < |h| ==> h'[i].(receipt := h[i].receipt) == h[i])
    && (forall i :: 0 <= i < |h| && !h[i].IsPending() ==> h'[i] == h[i])
  }

  /** A tick keeps the history and adds at most one attempt to it. */
  ghost predicate HistoryGrows(h: seq<Attempt>, h': seq<Attempt>)
  {
    HistoryKept(h, h') && |h'| <= |h| + 1
  }

  lemma SendKeeps(id: nat, g: Group, cfg: Config, w: World)
    requires GroupOk(g.entry, cfg.maxRetries) && IsLive(g.entry.status)
    ensures var s := Send(id, g, cfg, w);
            && s.txs == g.txs && Midway(s.entry) && IsLive(s.entry.status)
            && SameGroup(g.entry, s.entry) && HistoryGrows(g.entry.history, s.entry.history)
  {
  }

  lemma CheckKeeps(g: Group, w: World)
    requires Midway(g.entry) && IsLive(g.entry.status)
    requires forall i :: 0 <= i < |g.txs| ==> g.txs[i].status == Created
    ensures var c := Check(g, w);
            && c.txs == WithStatus(g.txs, MemberStatus(c.entry.status)) && Midway(c.entry)
            && SameGroup(g.entry, c.entry) && |c.entry.history| == |g.entry.history| &&
                HistoryGrows(g.entry.history, c.entry.history)
  {
  }

  lemma OutdateKeeps(id: nat, g: Group, cfg: Config, w: World)
    requires Midway(g.entry)
    requires g.txs == WithStatus(g.txs, MemberStatus(g.entry.status))
    ensures var r := Outdate(id, g, cfg, w);
            && r.txs == WithStatus(g.txs, MemberStatus(r.entry.status)) && GroupOk(r.entry, cfg.maxRetries)
            && SameGroup(g.entry, r.entry) && |r.entry.history| == |g.entry.history| &&
                HistoryGrows(g.entry.history, r.entry.history)
  {
  }

  /** After a tick a live group is a good group, its transactions all have its status, and its history only grew. */
  lemma StepOk(id: nat, g: Group, cfg: Config, w: World)
    requires GroupOk(g.entry, cfg.maxRetries) && IsLive(g.entry.status)
    requires forall i :: 0 <= i < |g.txs| ==> g.txs[i].status == Created
    ensures var r := Step(id, g, cfg, w);
            && GroupOk(r.entry, cfg.maxRetries)
            && r.txs == WithStatus(g.txs, MemberStatus(r.entry.status))
            && SameGroup(g.entry, r.entry) && HistoryGrows(g.entry.history, r.entry.history)
  {
    var s := Send(id, g, cfg, w);
    SendKeeps(id, g, cfg, w);
    var c := Check(s, w);
    CheckKeeps(s, w);
    assert c.txs == WithStatus(c.txs, MemberStatus(c.entry.status));
    OutdateKeeps(id, c, cfg, w);
    var r := Step(id, g, cfg, w);
    assert r.txs == WithStatus(g.txs, MemberStatus(r.entry.status));
  }

  /** A tick sees the group claimed: after sending, a pending transaction of it was mined successfully. */
  ghost predicate SeenClaimed(id: nat, g: Group, cfg: Config, w: World)
  {
    var h := Send(id, g, cfg, w).entry.history;
    exists i :: 0 <= i < |h| && Succeeds(h[i], w)
  }

  /**
   * A group that is seen claimed is confirmed exactly if it has a retry left, counting the one this
   * tick sends; when it has none, it is failed whatever was seen.
   */
  lemma ConfirmedWhen(id: nat, g: Group, cfg: Config, w: World)
    requires GroupOk(g.entry, cfg.maxRetries) && IsLive(g.entry.status)
    ensures var r := Step(id, g, cfg, w).entry;
            var tried := g.entry.retries + if Sends(id, g, cfg, w) then 1 else 0;
            && r.retries == tried
            && (r.status.GroupConfirmed? <==> SeenClaimed(id, g, cfg, w) && tried < cfg.maxRetries)
            && (r.status.GroupFailed? <==> tried >= cfg.maxRetries)
  {
  }

  /** A transaction sent in an earlier tick is never lost: once it is mined successfully, the group is confirmed. */
  lemma EarlierSuccessIsConfirmed(id: nat, g: Group, cfg: Config, w: World, i: nat)
    requires GroupOk(g.entry, cfg.maxRetries) && IsLive(g.entry.status)
    requires i < |g.entry.history| && Succeeds(g.entry.history[i], w)
    ensures Step(id, g, cfg, w).entry.status == GroupConfirmed
    ensures Step(id, g, cfg, w).entry.history ==
              g.entry.history[i := g.entry.history[i].(receipt := Some(ReceiptSuccessful))]
  {
    var h := g.entry.history;
    assert i == |h| - 1;
    assert !Sends(id, g, cfg, w);
    assert FirstSuccess(h, w) == i;
    assert CheckedHistory(h, w) == h[i := h[i].(receipt := Some(ReceiptSuccessful))];
  }

  /** When a tick sends for a good live group: the first time, or when all attempts failed long enough ago. */
  ghost predicate TimeToSend(id: nat, e: Entry, cfg: Config, w: World)
  {
    && e.compressed.Some? && w.send(id).Some?
    && (e.history == [] || (&& e.history[|e.history| - 1].receipt == Some(ReceiptFailed)
                            && forall i :: 0 <= i < |e.history| ==>
                                 w.sendClock(id) - e.history[i].createdAt >= cfg.retryInterval))
  }

  /** The history right after sending. */
  ghost function SentHistory(id: nat, e: Entry, cfg: Config, w: World): seq<Attempt>
  {
    if TimeToSend(id, e, cfg, w) then e.history + [Attempt(w.send(id).value.hash, None, w.send(id).value.at)]
    else e.history
  }

  /** The receipt of the last attempt after a tick: what the network says, else failed if it is late. */
  ghost function ReceiptAfter(id: nat, n: nat, a: Attempt, cfg: Config, w: World): Option<Receipt>
  {
    if a.receipt.Some? then a.receipt
    else
      match w.mined(a.hash)
      case Mined(true) => Some(ReceiptSuccessful)
      case Mined(false) => Some(ReceiptFailed)
      case _ => if w.receiptClock(id, n) - a.createdAt > cfg.retryTimeout then Some(ReceiptFailed) else None
  }

  /**
    A whole tick of a good live group, said without its passes: it may send one more transaction; the last one gets
    its receipt and the others stay as they are; and the group is failed when out of retries, confirmed when the
    last transaction was mined successfully, and else goes on.
   */
  lemma TickOutcome(id: nat, g: Group, cfg: Config, w: World)
    requires GroupOk(g.entry, cfg.maxRetries) && IsLive(g.entry.status)
    ensures Outcome(id, SentHistory(id, g.entry, cfg, w), cfg, w, Step(id, g, cfg, w).entry)
  {
    SendIsTimely(id, g, cfg, w);
    SendKeeps(id, g, cfg, w);
    PassesOutcome(id, Send(id, g, cfg, w), cfg, w);
  }

  /** What the other passes make of a group after sending. */
  ghost predicate Outcome(id: nat, h: seq<Attempt>, cfg: Config, w: World, r: Entry)
  {
    var n := |h| - 1;
    && |r.history| == |h| && r.retries == |h|
    && (forall i :: 0 <= i < n ==> r.history[i] == h[i])
    && (h != [] ==> r.history[n] == h[n].(receipt := ReceiptAfter(id, n, h[n], cfg, w)))
    && r.status == (if |h| >= cfg.maxRetries then GroupFailed
                    else if h == [] then GroupCreated
                    else if h[n].receipt.None? && w.mined(h[n].hash) == Mined(true) then GroupConfirmed
                    else GroupClaiming)
  }

  lemma PassesOutcome(id: nat, s: Group, cfg: Config, w: World)
    requires Midway(s.entry) && IsLive(s.entry.status)
    ensures Outcome(id, s.entry.history, cfg, w, Outdate(id, Check(s, w), cfg, w).entry)
  {
    if s.entry.history != [] {
      CheckOutcome(s.entry, w, s.txs);
      OutdateOutcome(id, Check(s, w), cfg, w);
      BothPasses(id, s.entry, Check(s, w).entry, Outdate(id, Check(s, w), cfg, w).entry, cfg, w);
    }
  }

  /** The two passes together, on the entries before, between and after them. */
  lemma BothPasses(id: nat, e: Entry, c: Entry, r: Entry, cfg: Config, w: World)
    requires e.history != [] && e.retries == |e.history| && Checked(e, w, c) && Outdated(id, c, cfg, w, r)
    ensures Outcome(id, e.history, cfg, w, r)
  {
  }

  ghost predicate Checked(e: Entry, w: World, c: Entry)
    requires e.history != []
  {
    var h, n := e.history, |e.history| - 1;
    var mined := h[n].receipt.None? && w.mined(h[n].hash).Mined?;
    && |c.history| == |h| && c.retries == e.retries
    && (forall i :: 0 <= i < n ==> c.history[i] == h[i] && h[i].receipt.Some?)
    && c.history[n] == (if !mined then h[n] else
                        h[n].(receipt := Some(if w.mined(h[n].hash).successful then ReceiptSuccessful
                                              else ReceiptFailed)))
    && c.status == if mined && w.mined(h[n].hash).successful then GroupConfirmed else GroupClaiming
  }

  ghost predicate Outdated(id: nat, e: Entry, cfg: Config, w: World, r: Entry)
    requires e.history != []
  {
    var h, n := e.history, |e.history| - 1;
    && |r.history| == |h| && r.retries == e.retries
    && (forall i :: 0 <= i < n ==> r.history[i] == h[i])
    && r.history[n] == (if e.status.GroupClaiming? && h[n].receipt.None? &&
                           w.receiptClock(id, n) - h[n].createdAt > cfg.retryTimeout
                        then h[n].(receipt := Some(ReceiptFailed)) else h[n])
    && r.status == if e.retries >= cfg.maxRetries then GroupFailed else e.status
  }

  /** The receipts pass over a group with attempts: only the last one may still be pending. */
  lemma CheckOutcome(e: Entry, w: World, txs: seq<Tx>)
    requires Midway(e) && e.status.GroupClaiming?
    ensures Checked(e, w, Check(Group(e, txs), w).entry)
  {
    var h := e.history;
    var n := |h| - 1;
    CheckedAt(h, w);
    assert NoneMinedBefore(h, w, n);
    assert NoneMinedBefore(h, w, |h|) <==> !(h[n].receipt.None? && w.mined(h[n].hash) == Mined(true));
  }

  /** The last pass over such a group. */
  lemma OutdateOutcome(id: nat, g: Group, cfg: Config, w: World)
    requires g.entry.history != [] && forall i :: 0 <= i < |g.entry.history| - 1 ==> g.entry.history[i].receipt.Some?
    ensures Outdated(id, g.entry, cfg, w, Outdate(id, g, cfg, w).entry)
  {
  }

  lemma SendIsTimely(id: nat, g: Group, cfg: Config, w: World)
    requires GroupOk(g.entry, cfg.maxRetries) && IsLive(g.entry.status)
    ensures Sends(id, g, cfg, w) <==> TimeToSend(id, g.entry, cfg, w)
    ensures Send(id, g, cfg, w).entry.history == SentHistory(id, g.entry, cfg, w)
  {
  }

  /** What stays pending is neither mined nor late. */
  lemma StillPending(id: nat, g: Group, cfg: Config, w: World)
    requires GroupOk(g.entry, cfg.maxRetries) && IsLive(g.entry.status)
    ensures var h := Step(id, g, cfg, w).entry.history;
            h != [] && h[|h| - 1].receipt.None? ==>
              && !w.mined(h[|h| - 1].hash).Mined?
              && w.receiptClock(id, |h| - 1) - h[|h| - 1].createdAt <= cfg.retryTimeout
  {
    TickOutcome(id, g, cfg, w);
    PendingOutcome(id, SentHistory(id, g.entry, cfg, w), cfg, w, Step(id, g, cfg, w).entry);
  }

  lemma PendingOutcome(id: nat, h: seq<Attempt>, cfg: Config, w: World, r: Entry)
    requires Outcome(id, h, cfg, w, r)
    ensures r.history != [] && r.history[|r.history| - 1].receipt.None? ==>
              && !w.mined(r.history[|r.history| - 1].hash).Mined?
              && w.receiptClock(id, |r.history| - 1) - r.history[|r.history| - 1].createdAt <= cfg.retryTimeout
  {
  }

  /** The last retry is lost: sent and mined successfully in one tick, the group is failed all the same. */
  lemma LastRetryIsLost() returns (g: Group, cfg: Config, w: World)
    ensures GroupOk(g.entry, cfg.maxRetries) && IsLive(g.entry.status) && cfg.maxRetries == 1
    ensures SeenClaimed(0, g, cfg, w)
    ensures Step(0, g, cfg, w).entry.status == GroupFailed
    ensures Step(0, g, cfg, w).entry.history == [Attempt(7, Some(ReceiptSuccessful), 0)]
  {
    g := Group(Entry(GroupCreated, 0, Some(1), [], 0), []);
    cfg := Config(1, 0, 0, 0, 0, 0);
    w := World(_ => 0, _ => Some(Sent(7, 0)), _ => Mined(true), (_, _) => 0, 0, (_, _, _) => Ok(None));
    var s := Send(0, g, cfg, w);
    assert s.entry.history == [Attempt(7, None, 0)];
    assert Succeeds(s.entry.history[0], w);
    assert CheckedHistory(s.entry.history, w) == [Attempt(7, Some(ReceiptSuccessful), 0)];
  }

  /** With fewer than two retries allowed, no good group is confirmed. */
  lemma OneRetryNeverConfirms(e: Entry, maxRetries: int)
    requires GroupOk(e, maxRetries) && maxRetries <= 1
    ensures !e.status.GroupConfirmed? && !e.status.GroupClaiming?
  {
  }
}
