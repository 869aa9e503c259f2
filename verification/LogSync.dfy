/** From the logs of a chain to the tables: bucketing and replaying change nothing about what the events do. */
module LogSync {
  import opened Outcomes
  import opened Storage
  import opened ChainEvents
  import opened EventOrder
  import opened BlockRange
  import opened Synchronizer

  /** What the logs do to a network's deposits, one after the other; None when one is rejected. */
  function ApplyLogs(log: seq<Stored>, logs: seq<Log>, net: Network, height: nat): Option<seq<Stored>>
  {
    if logs == [] then Some(log)
    else
      var n := |logs| - 1;
      match ApplyLogs(log, logs[..n], net, height)
      case None => None
      case Some(front) => ApplyEvent(front, logs[n].event, logs[n].number, net, height)
  }

  /** The rows the logs leave in the tables of their kinds. */
  function NotedLogs(logs: seq<Log>): seq<EventRow>
  {
    if logs == [] then []
    else
      var n := |logs| - 1;
      NotedLogs(logs[..n]) + NoteOf(logs[n].event, logs[n].number)
  }

  function NotedRuns(runs: seq<Run>): seq<EventRow>
  {
    if runs == [] then []
    else
      var n := |runs| - 1;
      NotedRuns(runs[..n]) + NotesOf(runs[n].events, runs[n].number)
  }

  lemma NotedSnoc(events: seq<Event>, e: Event, block: nat)
    ensures NotesOf(events + [e], block) == NotesOf(events, block) + NoteOf(e, block)
  {
    assert (events + [e])[..|events|] == events;
  }

  lemma NotedRunsSnoc(runs: seq<Run>, r: Run)
    ensures NotedRuns(runs + [r]) == NotedRuns(runs) + NotesOf(r.events, r.number)
  {
    assert (runs + [r])[..|runs|] == runs;
  }

  lemma NotedExtend(runs: seq<Run>, x: Log)
    ensures NotedRuns(Extend(runs, x)) == NotedRuns(runs) + NoteOf(x.event, x.number)
  {
    var n := |runs| - 1;
    if runs != [] && runs[n].hash == x.hash && runs[n].number == x.number {
      var r := runs[n].(events := runs[n].events + [x.event]);
      assert Extend(runs, x) == runs[..n] + [r];
      NotedRunsSnoc(runs[..n], r);
      NotedSnoc(runs[n].events, x.event, x.number);
    } else {
      NotedRunsSnoc(runs, Run(x.number, x.hash, [x.event]));
      assert [] + [x.event] == [x.event];
      NotedSnoc([], x.event, x.number);
    }
  }

  lemma {:induction false} NotedRunsAreLogs(logs: seq<Log>)
    ensures NotedRuns(Runs(logs)) == NotedLogs(logs)
  {
    if logs != [] {
      var n := |logs| - 1;
      NotedRunsAreLogs(logs[..n]);
      NotedExtend(Runs(logs[..n]), logs[n]);
    }
  }

  lemma {:induction false} NotedBlocksAreRuns(rows: seq<EventRow>, runs: seq<Run>, n: nat, order: map<nat, seq<Order>>)
    requires n <= |runs| && DistinctHashes(runs) && Represents(RunBlocks(runs), order, runs)
    ensures WithNotes(rows, RunBlocks(runs[..n]), order) == rows + NotedRuns(runs[..n])
  {
    if n > 0 {
      var m := n - 1;
      NotedBlocksAreRuns(rows, runs, m, order);
      NotesOfRun(runs, m, order);
      NotedRunsStep(runs, m, n);
      RunsSnoc(runs, m);
      WithNotesSnoc(rows, RunBlocks(runs[..m]), BlockOf(runs[m]), order);
      Associates(rows, NotedRuns(runs[..m]), NotesOf(runs[m].events, runs[m].number));
    }
  }

  lemma WithNotesSnoc(rows: seq<EventRow>, blocks: seq<Block>, b: Block, order: map<nat, seq<Order>>)
    ensures WithNotes(rows, blocks + [b], order) == WithNotes(rows, blocks, order) + NotesIn(b, OrderAt(order, b.hash))
  {
    assert (blocks + [b])[..|blocks|] == blocks;
  }

  lemma NotedRunsStep(runs: seq<Run>, m: nat, n: nat)
    requires m < |runs| && n == m + 1
    ensures NotedRuns(runs[..n]) == NotedRuns(runs[..m]) + NotesOf(runs[m].events, runs[m].number)
  {
    assert runs[..n][..m] == runs[..m];
  }

  lemma Associates(a: seq<EventRow>, b: seq<EventRow>, c: seq<EventRow>)
    ensures a + b + c == a + (b + c)
  {
  }

  /** Taken out in its recorded order, a run's block leaves the rows of the run. */
  lemma NotesOfRun(runs: seq<Run>, m: nat, order: map<nat, seq<Order>>)
    requires m < |runs| && DistinctHashes(runs) && Represents(RunBlocks(runs), order, runs)
    ensures NotesIn(BlockOf(runs[m]), OrderAt(order, runs[m].hash)) == NotesOf(runs[m].events, runs[m].number)
  {
    RunsSnoc(runs, m);
    OrderIsOwn(runs, m);
    TakeOwn(runs[m], runs[m].events);
  }

  /** For logs contiguous by block, the blocks read leave the rows of the logs, each once and in order. */
  lemma NotedBlocksAreLogs(rows: seq<EventRow>, logs: seq<Log>, blocks: seq<Block>, order: map<nat, seq<Order>>)
    requires Contiguous(logs) && Represents(blocks, order, Runs(logs))
    ensures WithNotes(rows, blocks, order) == rows + NotedLogs(logs)
  {
    var runs := Runs(logs);
    DistinctIffContiguous(logs);
    assert runs[..|runs|] == runs;
    NotedBlocksAreRuns(rows, runs, |runs|, order);
    NotedRunsAreLogs(logs);
  }

  /** The same by runs of logs. */
  function ApplyRuns(log: seq<Stored>, runs: seq<Run>, net: Network, height: nat): Option<seq<Stored>>
  {
    if runs == [] then Some(log)
    else
      var n := |runs| - 1;
      match ApplyRuns(log, runs[..n], net, height)
      case None => None
      case Some(front) => ApplyEvents(front, runs[n].events, runs[n].number, net, height)
  }

  lemma EventsSnoc(log: seq<Stored>, events: seq<Event>, e: Event, block: nat, net: Network, height: nat)
    ensures ApplyEvents(log, events + [e], block, net, height) ==
            match ApplyEvents(log, events, block, net, height)
            case None => None
            case Some(front) => ApplyEvent(front, e, block, net, height)
  {
    assert (events + [e])[..|events|] == events;
  }

  lemma {:induction false} RunsAreLogs(log: seq<Stored>, logs: seq<Log>, net: Network, height: nat)
    ensures ApplyRuns(log, Runs(logs), net, height) == ApplyLogs(log, logs, net, height)
  {
    if logs != [] {
      var n := |logs| - 1;
      var runs, after, x := Runs(logs[..n]), Runs(logs), logs[n];
      RunsAreLogs(log, logs[..n], net, height);
      if |after| == |runs| {
        var m := |runs| - 1;
        assert after[..m] == runs[..m];
        var front := ApplyRuns(log, runs[..m], net, height);
        if front.Some? {
          EventsSnoc(front.value, runs[m].events, x.event, x.number, net, height);
        }
      } else {
        assert after[..|runs|] == runs;
        var front := ApplyRuns(log, runs, net, height);
        if front.Some? {
          assert ApplyEvents(front.value, [], x.number, net, height) == front;
          EventsSnoc(front.value, [], x.event, x.number, net, height);
          assert [] + [x.event] == [x.event];
        }
      }
    }
  }

  lemma {:induction false} BlocksAreRuns(log: seq<Stored>, runs: seq<Run>, n: nat, order: map<nat, seq<Order>>,
                                         net: Network, height: nat)
    requires n <= |runs| && DistinctHashes(runs) && Represents(RunBlocks(runs), order, runs)
    ensures ApplyBlocks(log, RunBlocks(runs[..n]), order, net, height) == ApplyRuns(log, runs[..n], net, height)
  {
    if n > 0 {
      var m := n - 1;
      var r := runs[m];
      BlocksAreRuns(log, runs, m, order, net, height);
      RunsSnoc(runs, m);
      OrderIsOwn(runs, m);
      TakeOwn(r, r.events);
      assert runs[..n][..m] == runs[..m];
      assert RunBlocks(runs[..n])[..m] == RunBlocks(runs[..m]);
    }
  }

  /** For logs contiguous by block, the blocks read do exactly what the logs do in their own order. */
  lemma BlocksAreLogs(log: seq<Stored>, logs: seq<Log>, blocks: seq<Block>, order: map<nat, seq<Order>>, net: Network,
                      height: nat)
    requires Contiguous(logs) && Represents(blocks, order, Runs(logs))
    ensures ApplyBlocks(log, blocks, order, net, height) == ApplyLogs(log, logs, net, height)
  {
    var runs := Runs(logs);
    DistinctIffContiguous(logs);
    assert runs[..|runs|] == runs;
    BlocksAreRuns(log, runs, |runs|, order, net, height);
    RunsAreLogs(log, logs, net, height);
  }

  /** Logs as a node returns them: by block number, one hash per number. */
  ghost predicate ByNumber(logs: seq<Log>)
  {
    forall i, j :: 0 <= i < j < |logs| ==>
      logs[i].number < logs[j].number || (logs[i].number == logs[j].number && logs[i].hash == logs[j].hash)
  }

  ghost predicate LogsFit(logs: seq<Log>, height: nat)
  {
    forall i :: 0 <= i < |logs| ==> EventFits(logs[i].event, height)
  }

  ghost predicate RunsFit(runs: seq<Run>, height: nat)
  {
    forall i, j :: 0 <= i < |runs| && 0 <= j < |runs[i].events| ==> EventFits(runs[i].events[j], height)
  }

  lemma {:induction false} RunsAreOrdered(logs: seq<Log>, height: nat)
    requires ByNumber(logs) && LogsFit(logs, height)
    ensures forall i, j :: 0 <= i < j < |Runs(logs)| ==> Runs(logs)[i].number < Runs(logs)[j].number
    ensures RunsFit(Runs(logs), height)
    ensures logs != [] ==> Runs(logs) != [] && Runs(logs)[0].number == logs[0].number
  {
    if |logs| == 1 {
      assert Runs(logs[..0]) == [];
    } else if logs != [] {
      var n := |logs| - 1;
      RunsAreOrdered(logs[..n], height);
      LastRun(logs[..n]);
    }
  }

  lemma {:induction false} BucketFits(events: seq<Event>, kind: Kind, height: nat)
    requires forall j :: 0 <= j < |events| ==> EventFits(events[j], height)
    ensures forall j :: 0 <= j < |Bucket(events, kind)| ==> EventFits(Bucket(events, kind)[j], height)
  {
    if events != [] { BucketFits(events[..|events| - 1], kind, height); }
  }

  lemma ReadFits(logs: seq<Log>, height: nat)
    requires ByNumber(logs) && LogsFit(logs, height)
    ensures Ascending(RunBlocks(Runs(logs))) && AllFit(RunBlocks(Runs(logs)), height)
    ensures logs != [] ==> RunBlocks(Runs(logs)) != [] && RunBlocks(Runs(logs))[0].number == logs[0].number
  {
    RunsAreOrdered(logs, height);
    var runs := Runs(logs);
    forall i | 0 <= i < |runs|
      ensures BlockFits(BlockOf(runs[i]), height)
    {
      forall kind
        ensures forall j :: 0 <= j < |Bucket(runs[i].events, kind)| ==>
                  EventFits(Bucket(runs[i].events, kind)[j], height)
      {
        BucketFits(runs[i].events, kind, height);
      }
    }
  }

  /** What is read from the logs can be processed: it ascends, fits and replays, and starts where the logs do. */
  method ReadRange(raw: seq<RawLog>, height: nat) returns (r: Option<Reading>)
    requires Contiguous(Parsed(raw)) && ByNumber(Parsed(raw)) && LogsFit(Parsed(raw), height)
    ensures r.None? <==> exists i :: 0 <= i < |raw| && raw[i].content.Unreadable?
    ensures r.Some? ==> Represents(r.value.blocks, r.value.order, Runs(Parsed(raw)))
    ensures r.Some? ==> Ascending(r.value.blocks) && AllFit(r.value.blocks, height)
    ensures r.Some? ==> Replay(r.value.blocks, r.value.order).Some?
    ensures r.Some? && r.value.blocks != [] ==> Parsed(raw) != [] && r.value.blocks[0].number == Parsed(raw)[0].number
  {
    r := ReadEvents(raw);
    if r.Some? {
      ReadFits(Parsed(raw), height);
    }
  }

  /** The logs, one by one, lead from one state to the other; a block row is added for every run of logs. */
  ghost predicate LogsDone(from: NetState, logs: seq<Log>, net: Network, height: nat, to: NetState)
  {
    && ApplyLogs(from.log, logs, net, height) == Some(to.log)
    && to.rows == WithBlocks(from.rows, RunBlocks(Runs(logs)))
    && to.events == from.events + NotedLogs(logs)
  }

  lemma ReachedIsLogs(from: NetState, logs: seq<Log>, blocks: seq<Block>, order: map<nat, seq<Order>>, net: Network,
                      height: nat, to: NetState)
    requires Contiguous(logs) && Represents(blocks, order, Runs(logs)) && Reached(from, blocks, order, net, height, to)
    ensures LogsDone(from, logs, net, height, to)
  {
    BlocksAreLogs(from.log, logs, blocks, order, net, height);
    NotedBlocksAreLogs(from.events, logs, blocks, order);
  }

  /** A range of which n blocks are done, and the next one was rejected or not. */
  lemma WholeRange(from: NetState, blocks: seq<Block>, n: nat, order: map<nat, seq<Order>>, net: Network, height: nat,
                   to: NetState, rejected: bool)
    requires n <= |blocks| && Reached(from, blocks[..n], order, net, height, to)
    requires rejected ==> n < |blocks| && ApplyBlocks(from.log, blocks[..n + 1], order, net, height).None?
    ensures n == |blocks| ==> Reached(from, blocks, order, net, height, to)
    ensures rejected ==> ApplyBlocks(from.log, blocks, order, net, height).None?
  {
    if n == |blocks| {
      assert blocks[..n] == blocks;
    } else if rejected {
      NoneStaysNone(from.log, blocks, n + 1, order, net, height);
    }
  }

  /** A whole range: all of it is done, or it is rejected, or a statement was refused. */
  method ProcessRange(s: ClientSynchronizer, blocks: seq<Block>, order: map<nat, seq<Order>>)
    returns (outcome: RangeOutcome)
    requires s.AtRest() && AllFit(blocks, s.store.height) && Ascending(blocks) && Replay(blocks, order).Some?
    requires blocks != [] ==> WithinBlock(DepositsOf(s.store.committed, s.net), blocks[0].number)
    modifies s.tree, s.store
    ensures s.AtRest() && OthersKept(old(s.store.committed), s.store.committed, s.net)
    ensures old(s.store.faults) <= s.store.faults
    ensures outcome.Done? ==> Reached(old(s.Now()), blocks, order, s.net, s.store.height, s.Now())
    ensures !outcome.Done? ==>
              || s.store.faults > old(s.store.faults)
              || ApplyBlocks(old(s.Now()).log, blocks, order, s.net, s.store.height).None?
  {
    ghost var from := s.Now();
    var n;
    outcome, n := s.ProcessBlockRange(blocks, order);
    ghost var rejected := !outcome.Done? && s.store.faults == old(s.store.faults);
    WholeRange(from, blocks, n, order, s.net, s.store.height, s.Now(), rejected);
  }

  /**
   * Logs in, tables out: an unreadable log leaves everything as it is. Otherwise, unless a statement is refused, the
   * logs are accepted exactly if each of them is, in the order of the chain; then the committed deposits are what
   * they make of them one by one, every block has its row, and every other event its own, once and in order.
   */
  method ProcessLogs(s: ClientSynchronizer, raw: seq<RawLog>) returns (outcome: Option<RangeOutcome>)
    requires s.AtRest() && Contiguous(Parsed(raw)) && ByNumber(Parsed(raw)) && LogsFit(Parsed(raw), s.store.height)
    requires Parsed(raw) != [] ==> WithinBlock(DepositsOf(s.store.committed, s.net), Parsed(raw)[0].number)
    modifies s.tree, s.store
    ensures s.AtRest() && OthersKept(old(s.store.committed), s.store.committed, s.net)
    ensures old(s.store.faults) <= s.store.faults
    ensures outcome.None? <==> exists i :: 0 <= i < |raw| && raw[i].content.Unreadable?
    ensures outcome.None? ==> s.store.committed == old(s.store.committed)
    ensures outcome == Some(Done) ==> LogsDone(old(s.Now()), Parsed(raw), s.net, s.store.height, s.Now())
    ensures outcome.Some? && outcome.value != Done ==>
              || s.store.faults > old(s.store.faults)
              || ApplyLogs(old(s.Now()).log, Parsed(raw), s.net, s.store.height).None?
  {
    var r := ReadRange(raw, s.store.height);
    if r.None? {
      return None;
    }
    ghost var from := s.Now();
    var done := ProcessRange(s, r.value.blocks, r.value.order);
    BlocksAreLogs(from.log, Parsed(raw), r.value.blocks, r.value.order, s.net, s.store.height);
    if done.Done? {
      ReachedIsLogs(from, Parsed(raw), r.value.blocks, r.value.order, s.net, s.store.height, s.Now());
    }
    return Some(done);
  }
}
