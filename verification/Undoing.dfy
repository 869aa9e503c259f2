/** A reorganisation undoes blocks: what is left after a reset to the number before them is what was there. */
module Undoing {
  import opened Hashing
  import opened CompleteTree
  import opened Outcomes
  import opened Storage
  import opened TableInvariants
  import opened ChainEvents
  import opened EventOrder
  import opened Synchronizer

  ghost predicate AllAbove(blocks: seq<Block>, n: nat)
  {
    forall i :: 0 <= i < |blocks| ==> blocks[i].number > n
  }

  /** Everything stored lies at or below a number. */
  ghost predicate StateUpTo(s: NetState, n: nat)
  {
    && AllUpTo(s.log, n)
    && (forall i :: 0 <= i < |s.rows| ==> s.rows[i].number <= n)
    && (forall i :: 0 <= i < |s.events| ==> s.events[i].block <= n)
  }

  // ---------- event rows ----------

  /** The rows of a block's events go exactly if the block does. */
  lemma {:induction false} NotesUpTo(events: seq<Event>, block: nat, n: nat)
    ensures EventsUpTo(NotesOf(events, block), n) == if block <= n then NotesOf(events, block) else []
  {
    if events != [] {
      var m := |events| - 1;
      NotesUpTo(events[..m], block, n);
      EventsUpToConcat(NotesOf(events[..m], block), NoteOf(events[m], block), n);
      if !events[m].Deposit? { EventsUpToOne(EventRow(events[m], block), n); }
    }
  }

  lemma {:induction false} NotesUndone(rows: seq<EventRow>, blocks: seq<Block>, order: map<nat, seq<Order>>, n: nat)
    requires AllAbove(blocks, n)
    ensures EventsUpTo(WithNotes(rows, blocks, order), n) == EventsUpTo(rows, n)
  {
    if blocks != [] {
      var m := |blocks| - 1;
      var orders := OrderAt(order, blocks[m].hash);
      NotesUndone(rows, blocks[..m], order, n);
      EventsUpToConcat(WithNotes(rows, blocks[..m], order), NotesIn(blocks[m], orders), n);
      if TakeAll(blocks[m], orders).Some? { NotesUpTo(TakeAll(blocks[m], orders).value, blocks[m].number, n); }
    }
  }

  // ---------- block rows ----------

  lemma {:induction false} NumberUpToConcat(a: seq<BlockRow>, b: seq<BlockRow>, n: nat)
    ensures NumberUpTo(a + b, n) == NumberUpTo(a, n) + NumberUpTo(b, n)
  {
    if a == [] {
      assert a + b == b;
    } else {
      assert (a + b)[1..] == a[1..] + b;
      NumberUpToConcat(a[1..], b, n);
    }
  }

  lemma {:induction false} NumberUpToAll(rows: seq<BlockRow>, n: nat)
    requires forall i :: 0 <= i < |rows| ==> rows[i].number <= n
    ensures NumberUpTo(rows, n) == rows
  {
    if rows != [] {
      var rest := rows[1..];
      assert forall i :: 0 <= i < |rest| ==> rest[i] == rows[i + 1];
      NumberUpToAll(rest, n);
      assert rows == [rows[0]] + rest;
    }
  }

  /** A row above the number, wherever it is placed, is gone again. */
  lemma {:induction false} PlaceUndone(rows: seq<BlockRow>, row: BlockRow, n: nat)
    requires row.number > n
    ensures NumberUpTo(Place(rows, row), n) == NumberUpTo(rows, n)
  {
    assert NumberUpTo([row], n) == [] by { assert [row][1..] == []; }
    if rows == [] || rows[|rows| - 1].number <= row.number {
      NumberUpToConcat(rows, [row], n);
    } else {
      var m := |rows| - 1;
      PlaceUndone(rows[..m], row, n);
      NumberUpToConcat(Place(rows[..m], row), [rows[m]], n);
      NumberUpToConcat(rows[..m], [rows[m]], n);
      assert rows == rows[..m] + [rows[m]];
    }
  }

  lemma {:induction false} RowsUndone(rows: seq<BlockRow>, blocks: seq<Block>, n: nat)
    requires AllAbove(blocks, n)
    ensures NumberUpTo(WithBlocks(rows, blocks), n) == NumberUpTo(rows, n)
  {
    if blocks != [] {
      var m := |blocks| - 1;
      RowsUndone(rows, blocks[..m], n);
      PlaceUndone(WithBlocks(rows, blocks[..m]), BlockRow(blocks[m].number, blocks[m].hash), n);
    }
  }

  // ---------- deposits ----------

  function Min(a: nat, b: nat): nat
  {
    if a <= b then a else b
  }

  /** The fewest deposits there are at any time while events are processed. */
  ghost function LowIn(log: seq<Stored>, events: seq<Event>, block: nat, net: Network, height: nat): (low: nat)
    requires ApplyEvents(log, events, block, net, height).Some?
    ensures low <= |log| && low <= |ApplyEvents(log, events, block, net, height).value|
  {
    if events == [] then |log|
    else
      Min(LowIn(log, events[..|events| - 1], block, net, height),
          |ApplyEvents(log, events, block, net, height).value|)
  }

  /** The same for whole blocks. */
  ghost function LowOf(log: seq<Stored>, blocks: seq<Block>, order: map<nat, seq<Order>>, net: Network,
                       height: nat): (low: nat)
    requires ApplyBlocks(log, blocks, order, net, height).Some?
    ensures low <= |log| && low <= |ApplyBlocks(log, blocks, order, net, height).value|
  {
    if blocks == [] then |log|
    else
      var m := |blocks| - 1;
      var events := TakeAll(blocks[m], OrderAt(order, blocks[m].hash)).value;
      Min(LowOf(log, blocks[..m], order, net, height),
          LowIn(ApplyBlocks(log, blocks[..m], order, net, height).value, events, blocks[m].number, net, height))
  }

  /** Below the low mark a list is as it was; above it there are only deposits of later blocks. */
  ghost predicate Regrown(log: seq<Stored>, log': seq<Stored>, low: nat, n: nat)
  {
    && low <= |log| && low <= |log'| && log'[..low] == log[..low]
    && forall i :: low <= i < |log'| ==> log'[i].block > n
  }

  lemma {:induction false} EventsRegrow(log: seq<Stored>, events: seq<Event>, block: nat, net: Network, height: nat,
                                        n: nat)
    requires ApplyEvents(log, events, block, net, height).Some? && block > n
    ensures Regrown(log, ApplyEvents(log, events, block, net, height).value,
                    LowIn(log, events, block, net, height), n)
  {
    if events != [] {
      var m := |events| - 1;
      EventsRegrow(log, events[..m], block, net, height, n);
      var mid, log' := ApplyEvents(log, events[..m], block, net, height).value,
                       ApplyEvents(log, events, block, net, height).value;
      var low := LowIn(log, events[..m], block, net, height);
      assert log' <= mid || mid <= log';
      assert log'[..Min(low, |log'|)] == mid[..low][..Min(low, |log'|)];
      assert mid[..low][..Min(low, |log'|)] == log[..Min(low, |log'|)];
    }
  }

  lemma RegrownTwice(log: seq<Stored>, mid: seq<Stored>, log': seq<Stored>, a: nat, b: nat, n: nat)
    requires Regrown(log, mid, a, n) && Regrown(mid, log', b, n)
    ensures Regrown(log, log', Min(a, b), n)
  {
    var low := Min(a, b);
    assert log'[..low] == mid[..b][..low] && mid[..low] == log[..a][..low];
    forall i | low <= i < |log'|
      ensures log'[i].block > n
    {
      if i < b { assert log'[i] == log'[..b][i] == mid[i]; }
    }
  }

  lemma {:induction false} BlocksRegrow(log: seq<Stored>, blocks: seq<Block>, order: map<nat, seq<Order>>,
                                        net: Network, height: nat, n: nat)
    requires ApplyBlocks(log, blocks, order, net, height).Some? && AllAbove(blocks, n)
    ensures Regrown(log, ApplyBlocks(log, blocks, order, net, height).value,
                    LowOf(log, blocks, order, net, height), n)
  {
    if blocks != [] {
      var m := |blocks| - 1;
      BlocksRegrow(log, blocks[..m], order, net, height, n);
      var mid := ApplyBlocks(log, blocks[..m], order, net, height).value;
      var events := TakeAll(blocks[m], OrderAt(order, blocks[m].hash)).value;
      EventsRegrow(mid, events, blocks[m].number, net, height, n);
      RegrownTwice(log, mid, ApplyBlocks(log, blocks, order, net, height).value,
                   LowOf(log, blocks[..m], order, net, height),
                   LowIn(mid, events, blocks[m].number, net, height), n);
    }
  }

  lemma {:induction false} UpToSplit(log: seq<Stored>, low: nat, n: nat)
    requires low <= |log| && AllUpTo(log[..low], n) && forall i :: low <= i < |log| ==> log[i].block > n
    ensures UpTo(log, n) == log[..low]
  {
    if log != [] {
      var rest := log[1..];
      assert forall i :: 0 <= i < |rest| ==> rest[i] == log[i + 1];
      if low > 0 {
        assert log[..low][0] == log[0];
        var front := rest[..low - 1];
        forall i | 0 <= i < |front|
          ensures front[i].block <= n
        {
          assert front[i] == log[..low][i + 1];
        }
        UpToSplit(rest, low - 1, n);
        assert log[..low] == [log[0]] + rest[..low - 1];
      } else {
        UpToSplit(rest, 0, n);
      }
    }
  }

  // ---------- the law ----------

  /**
    Processing blocks above a number and then resetting to it leaves what was there: every block row and every event
    row, and the deposits up to the low mark. A backward LET that went below it is not undone.
   */
  lemma ResetUndoes(from: NetState, blocks: seq<Block>, order: map<nat, seq<Order>>, net: Network, height: nat,
                    to: NetState, n: nat)
    requires StateUpTo(from, n) && AllAbove(blocks, n) && Reached(from, blocks, order, net, height, to)
    ensures CutTo(to, n).events == from.events && CutTo(to, n).rows == from.rows
    ensures CutTo(to, n).log == from.log[..LowOf(from.log, blocks, order, net, height)]
  {
    NotesUndone(from.events, blocks, order, n);
    EventsUpToAll(from.events, n);
    RowsUndone(from.rows, blocks, n);
    NumberUpToAll(from.rows, n);
    BlocksRegrow(from.log, blocks, order, net, height, n);
    var low := LowOf(from.log, blocks, order, net, height);
    assert forall i :: 0 <= i < low ==> to.log[..low][i] == from.log[i];
    UpToSplit(to.log, low, n);
  }

  /** So a reset undoes blocks exactly if no backward LET in them took a deposit of before away. */
  lemma ResetUndoesExactly(from: NetState, blocks: seq<Block>, order: map<nat, seq<Order>>, net: Network, height: nat,
                           to: NetState, n: nat)
    requires StateUpTo(from, n) && AllAbove(blocks, n) && Reached(from, blocks, order, net, height, to)
    ensures CutTo(to, n) == from <==> LowOf(from.log, blocks, order, net, height) == |from.log|
  {
    ResetUndoes(from, blocks, order, net, height, to, n);
    assert from.log[..|from.log|] == from.log;
  }

  /** A block of one event. */
  lemma OneEvent(from: NetState, b: Block, e: Event, order: map<nat, seq<Order>>, net: Network, height: nat,
                 to: NetState)
    requires BucketOf(b, KindOf(e)) == [e] && OrderAt(order, b.hash) == [Order(KindOf(e), 0)]
    requires ApplyEvent(from.log, e, b.number, net, height) == Some(to.log)
    requires to.rows == WithBlock(from.rows, BlockRow(b.number, b.hash))
    requires to.events == from.events + NoteOf(e, b.number)
    ensures Reached(from, [b], order, net, height, to)
  {
    var orders := OrderAt(order, b.hash);
    assert orders[..0] == [] && [e][..0] == [] && [b][..0] == [];
    assert TakeAll(b, orders[..0]) == Some([]);
    assert TakeAll(b, orders) == Some([e]) by {
      assert |orders| == 1 && Take(b, orders[0]) == Some(e) && [] + [e] == [e];
    }
    assert ApplyEvents(from.log, [e][..0], b.number, net, height) == Some(from.log);
    assert ApplyEvents(from.log, [e], b.number, net, height) == Some(to.log);
    assert ApplyBlocks(from.log, [b][..0], order, net, height) == Some(from.log);
    assert NotesOf([e][..0], b.number) == [];
    assert NotesIn(b, orders) == NoteOf(e, b.number) by {
      assert [] + NoteOf(e, b.number) == NoteOf(e, b.number);
    }
    assert WithBlocks(from.rows, [b][..0]) == from.rows && WithNotes(from.events, [b][..0], order) == from.events;
  }

  /** The failing input: block 7 removes the deposit of block 3, and a reset to block 5 does not bring it back. */
  lemma RemovalIsNotUndone(leaf: Digest, height: nat)
    ensures var e := BackwardLET(1, Root([leaf], height), 0, Root([], height));
            var b := Block(7, 70, map[BackwardLETKind := [e]]);
            var from := NetState([Stored(leaf, 3)], [BlockRow(3, 30)], []);
            var to := NetState([], [BlockRow(3, 30), BlockRow(7, 70)], [EventRow(e, 7)]);
            && Reached(from, [b], map[70 := [Order(BackwardLETKind, 0)]], 1, height, to)
            && CutTo(to, 5) == from.(log := [])
  {
    var e := BackwardLET(1, Root([leaf], height), 0, Root([], height));
    var b := Block(7, 70, map[BackwardLETKind := [e]]);
    var from := NetState([Stored(leaf, 3)], [BlockRow(3, 30)], []);
    var to := NetState([], [BlockRow(3, 30), BlockRow(7, 70)], [EventRow(e, 7)]);
    assert LeavesIn(from.log) == [leaf] && from.log[..0] == [] && LeavesIn(from.log[..0]) == [];
    assert WithBlock(from.rows, BlockRow(7, 70)) == to.rows;
    OneEvent(from, b, e, map[70 := [Order(BackwardLETKind, 0)]], 1, height, to);
    EventsUpToOne(to.events[0], 5);
    assert to.rows == from.rows + [BlockRow(7, 70)];
    NumberUpToConcat(from.rows, [BlockRow(7, 70)], 5);
  }

  /** Without backward LETs the list never gets shorter. */
  lemma {:induction false} NoCutsInBlocks(log: seq<Stored>, blocks: seq<Block>, order: map<nat, seq<Order>>,
                                          net: Network, height: nat)
    requires ApplyBlocks(log, blocks, order, net, height).Some?
    requires forall b :: b in blocks && TakeAll(b, OrderAt(order, b.hash)).Some? ==>
               NoCuts(TakeAll(b, OrderAt(order, b.hash)).value)
    ensures LowOf(log, blocks, order, net, height) == |log|
  {
    if blocks != [] {
      var m := |blocks| - 1;
      NoCutsInBlocks(log, blocks[..m], order, net, height);
      assert blocks[m] in blocks;
      NoCutsInEvents(ApplyBlocks(log, blocks[..m], order, net, height).value,
                     TakeAll(blocks[m], OrderAt(order, blocks[m].hash)).value, blocks[m].number, net, height);
    }
  }

  ghost predicate NoCuts(events: seq<Event>)
  {
    forall i :: 0 <= i < |events| ==> !events[i].BackwardLET?
  }

  lemma {:induction false} NoCutsInEvents(log: seq<Stored>, events: seq<Event>, block: nat, net: Network, height: nat)
    requires ApplyEvents(log, events, block, net, height).Some? && NoCuts(events)
    ensures LowIn(log, events, block, net, height) == |log|
  {
    if events != [] { NoCutsInEvents(log, events[..|events| - 1], block, net, height); }
  }
}
