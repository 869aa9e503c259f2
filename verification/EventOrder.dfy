/**
  Reading events: logs are bucketed per block and per kind, and an order list per block hash says in
  which order to take them out again.
 */
module EventOrder {
  import opened Outcomes
  import opened ChainEvents

  datatype Log = Log(number: nat, hash: nat, event: Event)

  datatype Block = Block(number: nat, hash: nat, buckets: map<Kind, seq<Event>>)

  datatype Order = Order(name: Kind, pos: nat)

  /** An event taken out under a block. */
  datatype Taken = Taken(hash: nat, event: Event)

  function BucketOf(b: Block, kind: Kind): seq<Event>
  {
    if kind in b.buckets then b.buckets[kind] else []
  }

  function OrderAt(order: map<nat, seq<Order>>, hash: nat): seq<Order>
  {
    if hash in order then order[hash] else []
  }

  /** The element of a block that an order entry points to; out of bounds is the "messy events" error. */
  function Take(b: Block, o: Order): Option<Event>
  {
    if o.pos < |BucketOf(b, o.name)| then Some(BucketOf(b, o.name)[o.pos]) else None
  }

  function TakeAll(b: Block, orders: seq<Order>): Option<seq<Event>>
  {
    if orders == [] then Some([])
    else
      var n := |orders| - 1;
      match (TakeAll(b, orders[..n]), Take(b, orders[n]))
      case (Some(front), Some(e)) => Some(front + [e])
      case _ => None
  }

  function Tagged(hash: nat, events: seq<Event>): (r: seq<Taken>)
    ensures |r| == |events|
  {
    seq(|events|, i requires 0 <= i < |events| => Taken(hash, events[i]))
  }

  /** Taking every block's events out in the order recorded under its hash. */
  function Replay(blocks: seq<Block>, order: map<nat, seq<Order>>): Option<seq<Taken>>
  {
    if blocks == [] then Some([])
    else
      var n := |blocks| - 1;
      match (Replay(blocks[..n], order), TakeAll(blocks[n], OrderAt(order, blocks[n].hash)))
      case (Some(front), Some(last)) => Some(front + Tagged(blocks[n].hash, last))
      case _ => None
  }

  /** What has been read is the blocks and order lists of these runs. */
  ghost predicate Represents(blocks: seq<Block>, order: map<nat, seq<Order>>, runs: seq<Run>)
  {
    && blocks == RunBlocks(runs)
    && forall hash :: OrderAt(order, hash) == OrderOf(runs, hash)
  }

  /** A block with one more event in the bucket of its kind. */
  function BlockWith(b: Block, e: Event): Block
  {
    b.(buckets := b.buckets[KindOf(e) := BucketOf(b, KindOf(e)) + [e]])
  }

  /** The handlers of all kinds do the same: continue the last block or start one, and note the position. */
  method ProcessEvent(vLog: Log, blocks: seq<Block>, order: map<nat, seq<Order>>, ghost runs: seq<Run>)
    returns (blocks': seq<Block>, order': map<nat, seq<Order>>)
    requires Represents(blocks, order, runs)
    ensures Represents(blocks', order', Extend(runs, vLog))
  {
    var n, kind := |blocks| - 1, KindOf(vLog.event);
    ghost var before: seq<Event> := [];
    if |blocks| == 0 || blocks[n].hash != vLog.hash || blocks[n].number != vLog.number {
      blocks' := blocks + [BlockWith(Block(vLog.number, vLog.hash, map[]), vLog.event)];
      NewRun(runs, vLog, blocks');
    } else {
      before := BucketOf(blocks[n], kind);
      blocks' := blocks[n := BlockWith(blocks[n], vLog.event)];
      ExtendedRunBlocks(runs, vLog, blocks');
      ExtendedRunOrder(runs, vLog);
    }
    var last := blocks'[|blocks'| - 1];
    var pos := |BucketOf(last, kind)| - 1;
    assert last.hash == vLog.hash && pos == |before|;
    order' := order[last.hash := OrderAt(order, last.hash) + [Order(kind, pos)]];
    Noted(runs, Extend(runs, vLog), order, order', vLog.hash, Order(kind, |before|));
  }

  lemma Noted(runs: seq<Run>, after: seq<Run>, order: map<nat, seq<Order>>, order': map<nat, seq<Order>>, hash: nat,
              o: Order)
    requires forall h :: OrderAt(order, h) == OrderOf(runs, h)
    requires order' == order[hash := OrderAt(order, hash) + [o]] && OrderGrows(runs, after, hash, o)
    ensures forall h :: OrderAt(order', h) == OrderOf(after, h)
  {
  }

  /** What a log turns out to be: an event of a kind that is kept, one that is ignored, or unreadable. */
  datatype Content = Emits(event: Event) | Ignored | Unreadable

  datatype RawLog = RawLog(number: nat, hash: nat, content: Content)

  /** The logs that carry an event to keep. */
  function Parsed(raw: seq<RawLog>): seq<Log>
  {
    if raw == [] then []
    else
      var n := |raw| - 1;
      Parsed(raw[..n]) + if raw[n].content.Emits? then [Log(raw[n].number, raw[n].hash, raw[n].content.event)] else []
  }

  /** The logs that are kept are those that carry an event, with their block, each once and in order. */
  lemma ParsedSnoc(raw: seq<RawLog>, x: RawLog)
    ensures Parsed([]) == []
    ensures Parsed(raw + [x]) ==
            Parsed(raw) + if x.content.Emits? then [Log(x.number, x.hash, x.content.event)] else []
  {
    assert (raw + [x])[..|raw|] == raw;
  }

  lemma OneMore(raw: seq<RawLog>, i: nat, i': nat)
    requires i < |raw| && i' == i + 1
    ensures var before, after := Runs(Parsed(raw[..i])), Runs(Parsed(raw[..i']));
            after == if raw[i].content.Emits?
                     then Extend(before, Log(raw[i].number, raw[i].hash, raw[i].content.event)) else before
  {
    assert raw[..i'][..i] == raw[..i];
    var before := Parsed(raw[..i]);
    if raw[i].content.Emits? {
      var x := Log(raw[i].number, raw[i].hash, raw[i].content.event);
      assert (before + [x])[..|before|] == before;
    } else {
      assert before + [] == before;
    }
  }

  datatype Reading = Reading(blocks: seq<Block>, order: map<nat, seq<Order>>)

  /** What a log does to the blocks read so far; nothing is read from an unreadable one. */
  method ProcessLog(raw: seq<RawLog>, i: nat, before: Reading) returns (r: Option<Reading>)
    requires i < |raw| && Represents(before.blocks, before.order, Runs(Parsed(raw[..i])))
    ensures r.None? <==> raw[i].content.Unreadable?
    ensures r.Some? ==> Represents(r.value.blocks, r.value.order, Runs(Parsed(raw[..i + 1])))
  {
    OneMore(raw, i, i + 1);
    match raw[i].content {
      case Unreadable => r := None;
      case Ignored => r := Some(before);
      case Emits(event) =>
        var x := Log(raw[i].number, raw[i].hash, event);
        var blocks, order := ProcessEvent(x, before.blocks, before.order, Runs(Parsed(raw[..i])));
        r := Some(Reading(blocks, order));
    }
  }

  /**
    Reads all logs into blocks, unless one of them is unreadable. Taking the events out again, block by block in
    the recorded order, gives back every kept event once and in order exactly when the logs are contiguous by block.
   */
  method ReadEvents(raw: seq<RawLog>) returns (r: Option<Reading>)
    ensures r.None? <==> exists i :: 0 <= i < |raw| && raw[i].content.Unreadable?
    ensures r.Some? ==> Represents(r.value.blocks, r.value.order, Runs(Parsed(raw)))
    ensures r.Some? ==>
              (Replay(r.value.blocks, r.value.order) == Some(AsTaken(Parsed(raw))) <==> Contiguous(Parsed(raw)))
  {
    r := Some(Reading([], map[]));
    for i := 0 to |raw|
      invariant r.Some? && forall j :: 0 <= j < i ==> !raw[j].content.Unreadable?
      invariant Represents(r.value.blocks, r.value.order, Runs(Parsed(raw[..i])))
    {
      r := ProcessLog(raw, i, r.value);
      if r.None? {
        return;
      }
    }
    assert raw[..|raw|] == raw;
    ReplayIffContiguous(Parsed(raw), r.value.blocks, r.value.order);
  }

  // ---------- what the reading builds ----------

  /** A maximal run of logs of one block. */
  datatype Run = Run(number: nat, hash: nat, events: seq<Event>)

  function Runs(logs: seq<Log>): seq<Run>
  {
    if logs == [] then []
    else
      var n := |logs| - 1;
      Extend(Runs(logs[..n]), logs[n])
  }

  function Extend(runs: seq<Run>, x: Log): seq<Run>
  {
    var n := |runs| - 1;
    if runs != [] && runs[n].hash == x.hash && runs[n].number == x.number
    then runs[n := runs[n].(events := runs[n].events + [x.event])]
    else runs + [Run(x.number, x.hash, [x.event])]
  }

  function Bucket(events: seq<Event>, kind: Kind): seq<Event>
  {
    if events == [] then []
    else
      var n := |events| - 1;
      Bucket(events[..n], kind) + if KindOf(events[n]) == kind then [events[n]] else []
  }

  function OrdersOf(events: seq<Event>): (o: seq<Order>)
    ensures |o| == |events|
  {
    if events == [] then []
    else
      var n := |events| - 1;
      OrdersOf(events[..n]) + [Order(KindOf(events[n]), |Bucket(events[..n], KindOf(events[n]))|)]
  }

  function Kinds(events: seq<Event>): set<Kind>
  {
    set e | e in events :: KindOf(e)
  }

  function BlockOf(r: Run): Block
  {
    Block(r.number, r.hash, map kind | kind in Kinds(r.events) :: Bucket(r.events, kind))
  }

  function RunBlocks(runs: seq<Run>): (blocks: seq<Block>)
    ensures |blocks| == |runs|
  {
    seq(|runs|, i requires 0 <= i < |runs| => BlockOf(runs[i]))
  }

  /** The order list under a hash: that of every run with this hash, one after the other. */
  function OrderOf(runs: seq<Run>, hash: nat): seq<Order>
  {
    if runs == [] then []
    else
      var n := |runs| - 1;
      OrderOf(runs[..n], hash) + if runs[n].hash == hash then OrdersOf(runs[n].events) else []
  }

  lemma KindsAppend(events: seq<Event>, x: Event)
    ensures Kinds(events + [x]) == Kinds(events) + {KindOf(x)}
  {
  }

  lemma {:induction false} BucketOutside(events: seq<Event>, kind: Kind)
    requires kind !in Kinds(events)
    ensures Bucket(events, kind) == []
  {
    if events != [] {
      var n := |events| - 1;
      assert events[n] in events;
      assert forall e :: e in events[..n] ==> e in events;
      BucketOutside(events[..n], kind);
    }
  }

  lemma BlockBucket(r: Run, kind: Kind)
    ensures BucketOf(BlockOf(r), kind) == Bucket(r.events, kind)
  {
    if kind !in Kinds(r.events) { BucketOutside(r.events, kind); }
  }

  lemma BucketAppend(events: seq<Event>, e: Event, kind: Kind)
    ensures Bucket(events + [e], kind) == Bucket(events, kind) + if KindOf(e) == kind then [e] else []
  {
  }

  lemma BlockOfAppend(r: Run, e: Event)
    ensures BlockOf(r.(events := r.events + [e])) == BlockWith(BlockOf(r), e)
  {
    var b, b' := BlockOf(r.(events := r.events + [e])), BlockWith(BlockOf(r), e);
    KindsAppend(r.events, e);
    assert b.buckets.Keys == b'.buckets.Keys;
    forall kind | kind in b.buckets
      ensures b.buckets[kind] == b'.buckets[kind]
    {
      BucketAppend(r.events, e, kind);
      BlockBucket(r, kind);
    }
  }

  lemma OrdersAppend(events: seq<Event>, e: Event)
    ensures OrdersOf(events + [e]) == OrdersOf(events) + [Order(KindOf(e), |Bucket(events, KindOf(e))|)]
  {
  }

  /** One order entry more under the hash of the new log. */
  ghost predicate OrderGrows(runs: seq<Run>, after: seq<Run>, hash: nat, o: Order)
  {
    && OrderOf(after, hash) == OrderOf(runs, hash) + [o]
    && forall h :: h != hash ==> OrderOf(after, h) == OrderOf(runs, h)
  }

  lemma OrderOfSnoc(runs: seq<Run>, r: Run, hash: nat)
    ensures OrderOf(runs + [r], hash) == OrderOf(runs, hash) + if r.hash == hash then OrdersOf(r.events) else []
  {
  }

  lemma NewRun(runs: seq<Run>, x: Log, blocks: seq<Block>)
    requires blocks == RunBlocks(runs) + [BlockWith(Block(x.number, x.hash, map[]), x.event)]
    ensures blocks == RunBlocks(runs + [Run(x.number, x.hash, [x.event])])
    ensures OrderGrows(runs, runs + [Run(x.number, x.hash, [x.event])], x.hash, Order(KindOf(x.event), 0))
  {
    var empty, r := Run(x.number, x.hash, []), Run(x.number, x.hash, [x.event]);
    BlockOfAppend(empty, x.event);
    OrdersAppend([], x.event);
    assert [] + [x.event] == [x.event];
    assert BlockOf(empty) == Block(x.number, x.hash, map[]);
    forall h
      ensures OrderOf(runs + [r], h) ==
              if h == x.hash then OrderOf(runs, h) + [Order(KindOf(x.event), 0)] else OrderOf(runs, h)
    {
      OrderOfSnoc(runs, r, h);
    }
  }

  lemma RunBlocksUpdate(runs: seq<Run>, n: nat, r: Run, b: Block, blocks: seq<Block>)
    requires n < |runs| && b == BlockOf(r) && blocks == RunBlocks(runs)[n := b]
    ensures blocks == RunBlocks(runs[n := r])
  {
  }

  lemma ExtendedRunBlocks(runs: seq<Run>, x: Log, blocks: seq<Block>)
    requires runs != [] && runs[|runs| - 1].hash == x.hash && runs[|runs| - 1].number == x.number
    requires blocks == RunBlocks(runs)[|runs| - 1 := BlockWith(BlockOf(runs[|runs| - 1]), x.event)]
    ensures blocks == RunBlocks(Extend(runs, x))
  {
    var n := |runs| - 1;
    var r' := runs[n].(events := runs[n].events + [x.event]);
    BlockOfAppend(runs[n], x.event);
    RunBlocksUpdate(runs, n, r', BlockWith(BlockOf(runs[n]), x.event), blocks);
  }

  lemma ExtendedRunOrder(runs: seq<Run>, x: Log)
    requires runs != [] && runs[|runs| - 1].hash == x.hash && runs[|runs| - 1].number == x.number
    ensures OrderGrows(runs, Extend(runs, x), x.hash,
                       Order(KindOf(x.event), |BucketOf(BlockOf(runs[|runs| - 1]), KindOf(x.event))|))
  {
    var n, kind := |runs| - 1, KindOf(x.event);
    var front, r := runs[..n], runs[n];
    var r' := r.(events := r.events + [x.event]);
    var o := Order(kind, |Bucket(r.events, kind)|);
    BlockBucket(r, kind);
    OrdersAppend(r.events, x.event);
    assert runs == front + [r] && Extend(runs, x) == front + [r'];
    forall h
      ensures OrderOf(front + [r'], h) == if h == x.hash then OrderOf(front + [r], h) + [o] else OrderOf(front + [r], h)
    {
      LongerOrder(front, r, r', o, h);
    }
  }

  lemma LongerOrder(front: seq<Run>, r: Run, r': Run, o: Order, h: nat)
    requires r'.hash == r.hash && OrdersOf(r'.events) == OrdersOf(r.events) + [o]
    ensures OrderOf(front + [r'], h) == if h == r.hash then OrderOf(front + [r], h) + [o] else OrderOf(front + [r], h)
  {
  }

  // ---------- replaying what was read ----------

  function AsTaken(logs: seq<Log>): (r: seq<Taken>)
    ensures |r| == |logs|
    ensures forall i :: 0 <= i < |logs| ==> r[i] == Taken(logs[i].hash, logs[i].event)
  {
    seq(|logs|, i requires 0 <= i < |logs| => Taken(logs[i].hash, logs[i].event))
  }

  lemma {:induction false} BucketPrefix(events: seq<Event>, n: nat, kind: Kind)
    requires n <= |events|
    ensures Bucket(events[..n], kind) <= Bucket(events, kind)
  {
    if n == |events| {
      assert events[..n] == events;
    } else {
      var front := events[..|events| - 1];
      assert front[..n] == events[..n];
      BucketPrefix(front, n, kind);
    }
  }

  lemma TakeAllSnoc(b: Block, orders: seq<Order>, o: Order)
    ensures TakeAll(b, orders + [o]) ==
            match (TakeAll(b, orders), Take(b, o))
            case (Some(front), Some(e)) => Some(front + [e])
            case _ => None
  {
  }

  /** Within one run every order entry points at its own event. */
  lemma {:induction false} TakeOwn(r: Run, front: seq<Event>)
    requires front <= r.events
    ensures TakeAll(BlockOf(r), OrdersOf(front)) == Some(front)
  {
    if front != [] {
      var n := |front| - 1;
      var rest, x := front[..n], front[n];
      var o := Order(KindOf(x), |Bucket(rest, KindOf(x))|);
      assert front == rest + [x];
      TakeOwn(r, rest);
      OrdersAppend(rest, x);
      OwnEntry(r, rest, x);
      TakeAllSnoc(BlockOf(r), OrdersOf(rest), o);
    }
  }

  lemma OwnEntry(r: Run, rest: seq<Event>, x: Event)
    requires rest + [x] <= r.events
    ensures Take(BlockOf(r), Order(KindOf(x), |Bucket(rest, KindOf(x))|)) == Some(x)
  {
    var kind, n := KindOf(x), |rest| + 1;
    assert r.events[..n] == rest + [x];
    BucketPrefix(r.events, n, kind);
    BucketAppend(rest, x, kind);
    BlockBucket(r, kind);
  }

  /** Every log continues the previous log's block or starts a block whose hash has not been seen. */
  ghost predicate Contiguous(logs: seq<Log>)
  {
    forall k :: 0 < k < |logs| ==> ContiguousAt(logs, k)
  }

  ghost predicate ContiguousAt(logs: seq<Log>, k: nat)
    requires 0 < k < |logs|
  {
    || (logs[k - 1].hash == logs[k].hash && logs[k - 1].number == logs[k].number)
    || (forall j :: 0 <= j < k ==> logs[j].hash != logs[k].hash)
  }

  ghost predicate DistinctHashes(runs: seq<Run>)
  {
    forall i, j :: 0 <= i < j < |runs| ==> runs[i].hash != runs[j].hash
  }

  /** The runs partition the logs. */
  function Concat(runs: seq<Run>): seq<Taken>
  {
    if runs == [] then []
    else Concat(runs[..|runs| - 1]) + Tagged(runs[|runs| - 1].hash, runs[|runs| - 1].events)
  }

  lemma ConcatAppend(runs: seq<Run>, r: Run)
    ensures Concat(runs + [r]) == Concat(runs) + Tagged(r.hash, r.events)
  {
    assert (runs + [r])[..|runs|] == runs;
  }

  /** One more log extends the concatenation by one. */
  lemma ExtendConcat(runs: seq<Run>, x: Log)
    ensures Concat(Extend(runs, x)) == Concat(runs) + [Taken(x.hash, x.event)]
  {
    var n := |runs| - 1;
    if runs != [] && runs[n].hash == x.hash && runs[n].number == x.number {
      var r := runs[n].(events := runs[n].events + [x.event]);
      assert Extend(runs, x) == runs[..n] + [r];
      ConcatAppend(runs[..n], r);
      assert Tagged(x.hash, r.events) == Tagged(x.hash, runs[n].events) + [Taken(x.hash, x.event)];
    } else {
      ConcatAppend(runs, Run(x.number, x.hash, [x.event]));
    }
  }

  lemma AsTakenSnoc(logs: seq<Log>, n: nat)
    requires |logs| == n + 1
    ensures AsTaken(logs) == AsTaken(logs[..n]) + [Taken(logs[n].hash, logs[n].event)]
  {
  }

  lemma {:induction false} RunsConcat(logs: seq<Log>)
    ensures Concat(Runs(logs)) == AsTaken(logs)
  {
    if logs != [] {
      var n := |logs| - 1;
      var runs, x := Runs(logs[..n]), logs[n];
      RunsConcat(logs[..n]);
      ExtendConcat(runs, x);
      AsTakenSnoc(logs, n);
    }
  }

  lemma {:induction false} RunsNonEmpty(logs: seq<Log>)
    ensures forall i :: 0 <= i < |Runs(logs)| ==> Runs(logs)[i].events != []
  {
    if logs != [] { RunsNonEmpty(logs[..|logs| - 1]); }
  }

  /** The last run is the block of the last log. */
  lemma LastRun(logs: seq<Log>)
    requires logs != []
    ensures Runs(logs) != []
    ensures Runs(logs)[|Runs(logs)| - 1].hash == logs[|logs| - 1].hash
    ensures Runs(logs)[|Runs(logs)| - 1].number == logs[|logs| - 1].number
  {
  }

  lemma {:induction false} SeenIffRun(logs: seq<Log>, hash: nat)
    ensures (exists j :: 0 <= j < |logs| && logs[j].hash == hash) <==>
            exists i :: 0 <= i < |Runs(logs)| && Runs(logs)[i].hash == hash
  {
    if logs != [] {
      var n := |logs| - 1;
      var front := logs[..n];
      var runs, after := Runs(front), Runs(logs);
      SeenIffRun(front, hash);
      LastRun(logs);
      assert forall i :: 0 <= i < |runs| ==> after[i].hash == runs[i].hash;
      assert after[|after| - 1].hash == logs[n].hash;
      assert (exists j :: 0 <= j < |logs| && logs[j].hash == hash) <==>
             (exists j :: 0 <= j < |front| && front[j].hash == hash) || logs[n].hash == hash by {
        if j :| 0 <= j < |front| && front[j].hash == hash { assert logs[j].hash == hash; }
        if j :| 0 <= j < |logs| && logs[j].hash == hash { if j < n { assert front[j].hash == hash; } }
      }
      if i :| 0 <= i < |runs| && runs[i].hash == hash { assert after[i].hash == hash; }
      if i :| 0 <= i < |after| && after[i].hash == hash { if i < |runs| { assert runs[i].hash == hash; } }
    }
  }

  lemma ContiguousFront(logs: seq<Log>)
    requires |logs| > 1
    ensures Contiguous(logs) <==> Contiguous(logs[..|logs| - 1]) && ContiguousAt(logs, |logs| - 1)
  {
    var front := logs[..|logs| - 1];
    assert forall k :: 0 < k < |front| ==> (ContiguousAt(logs, k) <==> ContiguousAt(front, k));
  }

  lemma DistinctAppend(runs: seq<Run>, r: Run)
    ensures DistinctHashes(runs + [r]) <==>
              DistinctHashes(runs) && !exists i :: 0 <= i < |runs| && runs[i].hash == r.hash
  {
    var all := runs + [r];
    assert forall i :: 0 <= i < |runs| ==> all[i] == runs[i];
    assert all[|runs|] == r;
  }

  /** Runs have distinct hashes exactly when the logs are contiguous by block. */
  lemma {:induction false} DistinctIffContiguous(logs: seq<Log>)
    ensures DistinctHashes(Runs(logs)) <==> Contiguous(logs)
  {
    if |logs| == 1 {
      assert Runs(logs[..0]) == [];
    } else if |logs| > 1 {
      var n := |logs| - 1;
      var front, x := logs[..n], logs[n];
      var runs, after := Runs(front), Runs(logs);
      DistinctIffContiguous(front);
      ContiguousFront(logs);
      LastRun(front);
      if |after| == |runs| {
        assert forall i :: 0 <= i < |runs| ==> after[i].hash == runs[i].hash;
      } else {
        SeenIffRun(front, x.hash);
        DistinctAppend(runs, Run(x.number, x.hash, [x.event]));
        assert (exists j :: 0 <= j < |front| && front[j].hash == x.hash) <==>
            exists j :: 0 <= j < n && logs[j].hash == x.hash by {
          assert forall j :: 0 <= j < n ==> front[j] == logs[j];
        }
      }
    }
  }

  // With distinct hashes the order list of a block is its own.

  lemma {:induction false} OrderAbsent(runs: seq<Run>, hash: nat)
    requires forall i :: 0 <= i < |runs| ==> runs[i].hash != hash
    ensures OrderOf(runs, hash) == []
  {
    if runs != [] { OrderAbsent(runs[..|runs| - 1], hash); }
  }

  lemma {:induction false} OrderIsOwn(runs: seq<Run>, i: nat)
    requires i < |runs| && DistinctHashes(runs)
    ensures OrderOf(runs, runs[i].hash) == OrdersOf(runs[i].events)
  {
    var n := |runs| - 1;
    if i == n {
      OrderAbsent(runs[..n], runs[n].hash);
    } else {
      OrderIsOwn(runs[..n], i);
    }
  }

  lemma ReplaySnoc(blocks: seq<Block>, b: Block, order: map<nat, seq<Order>>)
    ensures Replay(blocks + [b], order) ==
            match (Replay(blocks, order), TakeAll(b, OrderAt(order, b.hash)))
            case (Some(front), Some(last)) => Some(front + Tagged(b.hash, last))
            case _ => None
  {
  }

  /** One run more: its block comes last. */
  lemma RunsSnoc(runs: seq<Run>, m: nat)
    requires m < |runs|
    ensures RunBlocks(runs[..m + 1]) == RunBlocks(runs[..m]) + [BlockOf(runs[m])]
    ensures Concat(runs[..m + 1]) == Concat(runs[..m]) + Tagged(runs[m].hash, runs[m].events)
  {
    assert runs[..m + 1][..m] == runs[..m];
  }

  lemma {:induction false} ReplayDistinct(runs: seq<Run>, n: nat, order: map<nat, seq<Order>>)
    requires n <= |runs| && DistinctHashes(runs) && Represents(RunBlocks(runs), order, runs)
    ensures Replay(RunBlocks(runs[..n]), order) == Some(Concat(runs[..n]))
  {
    if n > 0 {
      var m := n - 1;
      var r := runs[m];
      ReplayDistinct(runs, m, order);
      RunsSnoc(runs, m);
      OrderIsOwn(runs, m);
      TakeOwn(r, r.events);
      assert OrderAt(order, r.hash) == OrdersOf(r.events);
      ReplaySnoc(RunBlocks(runs[..m]), BlockOf(r), order);
    }
  }

  // With a repeated hash the replay takes more events out than went in.

  lemma {:induction false} TakeAllLength(b: Block, orders: seq<Order>)
    requires TakeAll(b, orders).Some?
    ensures |TakeAll(b, orders).value| == |orders|
  {
    if orders != [] { TakeAllLength(b, orders[..|orders| - 1]); }
  }

  lemma {:induction false} OrderCovers(runs: seq<Run>, i: nat)
    requires i < |runs|
    ensures |OrderOf(runs, runs[i].hash)| >= |runs[i].events|
  {
    var n := |runs| - 1;
    if i < n { OrderCovers(runs[..n], i); }
  }

  lemma {:induction false} OrderCoversBoth(runs: seq<Run>, i: nat, j: nat)
    requires i < j < |runs| && runs[i].hash == runs[j].hash && runs[j].events != []
    ensures |OrderOf(runs, runs[i].hash)| > |runs[i].events|
  {
    var n := |runs| - 1;
    if j < n { OrderCoversBoth(runs[..n], i, j); } else { OrderCovers(runs[..n], i); }
  }

  /** A run before n shares its hash with a later run. */
  ghost predicate RepeatedBefore(runs: seq<Run>, n: nat)
  {
    exists i, j :: 0 <= i < j < |runs| && i < n && runs[i].hash == runs[j].hash
  }

  lemma ReplayStep(runs: seq<Run>, m: nat, order: map<nat, seq<Order>>)
    requires m < |runs| && Represents(RunBlocks(runs), order, runs)
    requires Replay(RunBlocks(runs[..m + 1]), order).Some?
    ensures Replay(RunBlocks(runs[..m]), order).Some?
    ensures |Replay(RunBlocks(runs[..m + 1]), order).value| ==
            |Replay(RunBlocks(runs[..m]), order).value| + |OrderOf(runs, runs[m].hash)|
    ensures |Concat(runs[..m + 1])| == |Concat(runs[..m])| + |runs[m].events|
  {
    var b := BlockOf(runs[m]);
    RunsSnoc(runs, m);
    ReplaySnoc(RunBlocks(runs[..m]), b, order);
    assert OrderAt(order, b.hash) == OrderOf(runs, runs[m].hash);
    TakeAllLength(b, OrderAt(order, b.hash));
  }

  lemma {:induction false} ReplayLength(runs: seq<Run>, n: nat, order: map<nat, seq<Order>>)
    requires n <= |runs| && Represents(RunBlocks(runs), order, runs)
    requires forall i :: 0 <= i < |runs| ==> runs[i].events != []
    requires Replay(RunBlocks(runs[..n]), order).Some?
    ensures |Replay(RunBlocks(runs[..n]), order).value| >= |Concat(runs[..n])|
    ensures RepeatedBefore(runs, n) ==> |Replay(RunBlocks(runs[..n]), order).value| > |Concat(runs[..n])|
  {
    if n > 0 {
      var m := n - 1;
      ReplayStep(runs, m, order);
      ReplayLength(runs, m, order);
      OrderCovers(runs, m);
      if RepeatedBefore(runs, n) && !RepeatedBefore(runs, m) {
        var i, j :| 0 <= i < j < |runs| && i < n && runs[i].hash == runs[j].hash;
        assert i == m;
        OrderCoversBoth(runs, m, j);
      }
    }
  }

  /**
    Replaying what was read gives back the logs' events, each once and in order, exactly when the logs
    are contiguous by block.
   */
  lemma ReplayIffContiguous(logs: seq<Log>, blocks: seq<Block>, order: map<nat, seq<Order>>)
    requires Represents(blocks, order, Runs(logs))
    ensures Replay(blocks, order) == Some(AsTaken(logs)) <==> Contiguous(logs)
  {
    var runs := Runs(logs);
    RunsConcat(logs);
    RunsNonEmpty(logs);
    DistinctIffContiguous(logs);
    assert runs[..|runs|] == runs;
    if DistinctHashes(runs) {
      ReplayDistinct(runs, |runs|, order);
    } else if Replay(blocks, order).Some? {
      assert RepeatedBefore(runs, |runs|);
      ReplayLength(runs, |runs|, order);
    }
  }

  /** A defined replay takes every block's events out without running out of bounds. */
  lemma {:induction false} ReplayDefined(blocks: seq<Block>, order: map<nat, seq<Order>>, i: nat)
    requires Replay(blocks, order).Some? && i < |blocks|
    ensures TakeAll(blocks[i], OrderAt(order, blocks[i].hash)).Some?
  {
    var n := |blocks| - 1;
    if i < n { ReplayDefined(blocks[..n], order, i); }
  }
}
