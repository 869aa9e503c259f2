/** One database connection: committed tables, the open transaction's view, and statements that may fail. */
module Database {
  import opened Hashing
  import opened CompleteTree
  import opened Outcomes
  import opened Storage
  import opened ChainEvents
  import opened TableInvariants

  /**
    A statement inside the transaction may fail at any time; from then on the transaction is
    aborted and every later statement in it fails too. Ids come from a sequence that no rollback
    rewinds. Reads outside the transaction see the committed tables. `faults` counts the statements
    that the database has refused. Reads outside a transaction are refused only as long as it is below `limit`,
    which can be any number: a read that is repeated goes through in the end.
   */
  class Connection {
    const height: nat
    const limit: nat
    var committed: Tables
    var pending: Tables
    var aborted: bool
    var nextId: nat
    var faults: nat

    constructor (height: nat, limit: nat)
      ensures this.height == height && this.limit == limit
      ensures committed == NO_ROWS && nextId == 1
      ensures Valid()
    {
      this.height := height;
      this.limit := limit;
      committed := NO_ROWS;
      pending := NO_ROWS;
      aborted := false;
      nextId := 1;
      faults := 0;
      new;
      EmptyTablesOk(height);
    }

    /** A connection to a database that holds these tables. */
    constructor Restored(height: nat, tables: Tables, nextId: nat, limit: nat)
      requires TablesOk(tables, height) && FreshFrom(tables, nextId)
      ensures this.height == height && this.limit == limit && faults == 0
      ensures committed == tables && this.nextId == nextId
      ensures Valid()
    {
      this.height := height;
      this.limit := limit;
      committed := tables;
      pending := tables;
      aborted := false;
      this.nextId := nextId;
      faults := 0;
    }

    /** The committed tables are those of fresh trees, and the id sequence is ahead of them. */
    ghost predicate Valid()
      reads this
    {
      TablesOk(committed, height) && FreshFrom(committed, nextId)
    }

    /** The same for the transaction's view. */
    ghost predicate PendingOk()
      reads this
    {
      TablesOk(pending, height) && FreshFrom(pending, nextId)
    }

    /** A transaction that is or becomes aborted stays so, and it becomes so only because a statement was refused. */
    twostate predicate Aged()
      reads this
    {
      old(faults) <= faults && (old(aborted) ==> aborted) && (aborted ==> old(aborted) || old(faults) < faults)
    }

    /** No statement was refused, and the transaction is as aborted as it was. */
    twostate predicate Idle()
      reads this
    {
      aborted == old(aborted) && faults == old(faults)
    }

    /** The last query was refused: the transaction is aborted, or a read outside of it went wrong. */
    twostate predicate Refused(tx: bool)
      reads this
    {
      if tx then aborted else faults > old(faults)
    }

    function View(tx: bool): Tables
      reads this
    {
      if tx then pending else committed
    }

    method Begin()
      modifies this`pending, this`aborted
      ensures pending == committed && !aborted
    {
      pending := committed;
      aborted := false;
    }

    method Commit() returns (ok: bool)
      modifies this`committed, this`aborted, this`faults
      ensures Aged()
      ensures ok ==> !old(aborted) && !aborted && committed == pending
      ensures !ok ==> aborted && committed == old(committed)
    {
      ok := Attempt();
      if ok {
        committed := pending;
      }
    }

    method Rollback()
      modifies this`pending
      ensures pending == committed
    {
      pending := committed;
    }

    /** Whether a statement of the open transaction goes through. */
    method Attempt() returns (ok: bool)
      modifies this`aborted, this`faults
      ensures ok <==> !aborted
      ensures Aged()
    {
      if * {
        aborted := true;
        faults := faults + 1;
      }
      ok := !aborted;
    }

    /** Whether a query outside a transaction goes through. */
    method Read() returns (ok: bool)
      modifies this`faults
      ensures ok <==> faults == old(faults)
      ensures old(faults) <= faults
      ensures !ok ==> old(faults) < limit
    {
      ok := true;
      if faults < limit {
        if * {
          faults := faults + 1;
          ok := false;
        }
      }
    }

    /** Whether a query goes through, in the open transaction or outside of it. */
    method Ask(tx: bool) returns (ok: bool)
      modifies this`aborted, this`faults
      ensures ok <==> !Refused(tx)
      ensures Aged()
      ensures !tx ==> aborted == old(aborted) && (faults > old(faults) ==> old(faults) < limit)
    {
      if tx {
        ok := Attempt();
      } else {
        ok := Read();
      }
    }

    method AddBlock(net: Network, number: nat, hash: nat) returns (ok: bool)
      modifies this`pending, this`aborted, this`faults
      ensures ok <==> !aborted
      ensures Aged()
      ensures pending == if ok then InsertBlock(old(pending), net, BlockRow(number, hash)) else old(pending)
    {
      ok := Attempt();
      if ok {
        pending := InsertBlock(pending, net, BlockRow(number, hash));
      }
    }

    method AddDeposit(net: Network, count: nat, leaf: Digest, block: nat) returns (id: Option<nat>)
      modifies this`pending, this`aborted, this`faults, this`nextId
      ensures id.Some? <==> !aborted
      ensures Aged()
      ensures id.Some? ==> id.value == old(nextId) && nextId == old(nextId) + 1
      ensures id.Some? ==> pending == InsertDeposit(old(pending), net, DepositRow(id.value, count, leaf, block))
      ensures id.None? ==> pending == old(pending) && nextId == old(nextId)
    {
      var ok := Attempt();
      if !ok {
        return None;
      }
      id := Some(nextId);
      pending := InsertDeposit(pending, net, DepositRow(nextId, count, leaf, block));
      nextId := nextId + 1;
    }

    /** Inserts the root row; a deposit has at most one. */
    method SetRoot(root: Digest, id: nat, net: Network) returns (ok: bool)
      modifies this`pending, this`aborted, this`faults
      ensures ok <==> !aborted
      ensures Aged()
      ensures ok ==> id !in old(pending).roots
      ensures pending == if ok then InsertRoot(old(pending), net, id, root) else old(pending)
    {
      ok := Attempt();
      if id in pending.roots {
        aborted := true;
        faults := faults + 1;
        ok := false;
      }
      if ok {
        pending := InsertRoot(pending, net, id, root);
      }
    }

    /** Inserts the rows in one statement: all of them or, when it fails, none. */
    method BulkSet(rows: seq<NodeRow>) returns (ok: bool)
      modifies this`pending, this`aborted, this`faults
      ensures ok <==> !aborted
      ensures Aged()
      ensures pending == if ok then InsertNodes(old(pending), set r | r in rows) else old(pending)
    {
      ok := Attempt();
      if ok {
        pending := InsertNodes(pending, set r | r in rows);
      }
    }

    method AddEvent(net: Network, e: Event, block: nat) returns (ok: bool)
      modifies this`pending, this`aborted, this`faults
      ensures ok <==> !aborted
      ensures Aged()
      ensures pending == if ok then InsertEvent(old(pending), net, EventRow(e, block)) else old(pending)
    {
      ok := Attempt();
      if ok {
        pending := InsertEvent(pending, net, EventRow(e, block));
      }
    }

    method ResetDeposits(net: Network, count: nat) returns (ok: bool)
      modifies this`pending, this`aborted, this`faults
      ensures Aged()
      ensures ok <==> !aborted && net != 0
      ensures pending == if ok then ResetDepositsTable(old(pending), net, count) else old(pending)
    {
      if net == 0 {
        return false;
      }
      ok := Attempt();
      if ok {
        pending := ResetDepositsTable(pending, net, count);
      }
    }

    method Reset(net: Network, number: nat) returns (ok: bool)
      modifies this`pending, this`aborted, this`faults
      ensures ok <==> !aborted
      ensures Aged()
      ensures pending == if ok then ResetBlocksTable(old(pending), net, number) else old(pending)
    {
      ok := Attempt();
      if ok {
        pending := ResetBlocksTable(pending, net, number);
      }
    }

    method GetNumberDeposits(net: Network, block: nat) returns (r: Option<nat>)
      modifies this`aborted, this`faults
      ensures r.Some? <==> !aborted
      ensures Aged()
      ensures r.Some? ==> r.value == NumberDeposits(DepositsOf(pending, net), block)
    {
      var ok := Attempt();
      if !ok {
        return None;
      }
      r := Some(NumberDeposits(DepositsOf(pending, net), block));
    }

    method GetRoot(count: nat, net: Network, tx: bool) returns (r: Result<Digest, StoreError>)
      modifies this`aborted, this`faults
      ensures r.Err? && r.error.Fault? <==> Refused(tx)
      ensures Aged()
      ensures !tx ==> aborted == old(aborted) && (faults > old(faults) ==> old(faults) < limit)
      ensures !Refused(tx) ==>
                match LookupRoot(View(tx).roots, net, DepositsOf(View(tx), net), count)
                case Some(root) => r == Ok(root)
                case None => r == Err(NotFound)
    {
      var ok := Ask(tx);
      if !ok {
        return Err(Fault);
      }
      match LookupRoot(View(tx).roots, net, DepositsOf(View(tx), net), count) {
        case Some(root) => return Ok(root);
        case None => return Err(NotFound);
      }
    }

    /** The children stored under a key, from whichever row of that key comes first. */
    method Get(key: Digest, tx: bool) returns (r: Result<(Digest, Digest), StoreError>)
      modifies this`aborted, this`faults
      ensures r.Err? && r.error.Fault? <==> Refused(tx)
      ensures Aged()
      ensures !tx ==> aborted == old(aborted) && (faults > old(faults) ==> old(faults) < limit)
      ensures r.Ok? ==> exists row :: row in View(tx).nodes && row.key == key && r.value == (row.left, row.right)
      ensures r.Err? && r.error.NotFound? ==> !HasKey(View(tx), key)
    {
      var ok := Ask(tx);
      if !ok {
        return Err(Fault);
      }
      if row :| row in View(tx).nodes && row.key == key {
        return Ok((row.left, row.right));
      }
      return Err(NotFound);
    }

    /**
      GetLastDepositCount on the committed tables: the count of the deposit with the largest id
      among the network's roots. A failed query is reported as count 0, not as an error.
     */
    method GetLastDepositCount(net: Network, queryFails: bool) returns (r: Result<nat, StoreError>)
      requires TreeOk(committed, net, height)
      ensures queryFails ==> r == Ok(0)
      ensures !queryFails && DepositsOf(committed, net) == [] ==> r == Err(NotFound)
      ensures !queryFails && DepositsOf(committed, net) != [] ==> r == Ok(|DepositsOf(committed, net)| - 1)
    {
      if queryFails {
        return Ok(0);
      }
      var last := MaxRootId(net);
      match last {
        case None => return Err(NotFound);
        case Some(id) =>
          LastRootId(committed, net, height, id);
          return Ok(CountOfId(DepositsOf(committed, net), id).value);
      }
    }

    /** GetLastComputedRoot on the committed tables; no row and a refused query are the same error. */
    method GetLastComputedRoot(net: Network) returns (r: Option<Digest>)
      requires TreeOk(committed, net, height)
      modifies this`faults
      ensures old(faults) <= faults
      ensures r.None? <==> faults > old(faults) || DepositsOf(committed, net) == []
      ensures r.Some? ==> r.value == Root(Leaves(DepositsOf(committed, net)), height)
    {
      var ok := Read();
      if !ok {
        return None;
      }
      var last := MaxRootId(net);
      match last {
        case None => return None;
        case Some(id) =>
          LastRootId(committed, net, height, id);
          assert Leaves(DepositsOf(committed, net))[..|DepositsOf(committed, net)|] ==
              Leaves(DepositsOf(committed, net));
          return Some(committed.roots[id].root);
      }
    }

    /** The largest deposit id among a network's root rows. */
    method MaxRootId(net: Network) returns (r: Option<nat>)
      requires TreeOk(committed, net, height)
      ensures r.None? <==> DepositsOf(committed, net) == []
      ensures r.Some? ==> r.value in RootIds(committed.roots, net)
      ensures r.Some? ==> forall j :: j in RootIds(committed.roots, net) ==> j <= r.value
    {
      var ids := RootIds(committed.roots, net);
      var d := DepositsOf(committed, net);
      assert d != [] ==> d[0].id in ids;
      if ids == {} {
        return None;
      }
      var last :| last in ids;
      var rest := ids - {last};
      while rest != {}
        invariant rest <= ids && last in ids
        invariant forall j :: j in ids && j !in rest ==> j <= last
        decreases |rest|
      {
        var j :| j in rest;
        if j > last {
          last := j;
        }
        rest := rest - {j};
      }
      return Some(last);
    }
  }

  lemma EmptyTablesOk(height: nat)
    ensures TablesOk(NO_ROWS, height)
  {
  }
}
