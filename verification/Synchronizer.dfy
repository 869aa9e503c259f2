/**
  The synchronizer over one exit tree: every block is one transaction, and the in-memory tree follows
  the transaction while it is open and the committed tables when it is not.
 */
module Synchronizer {
  import opened Hashing
  import opened CompleteTree
  import opened Outcomes
  import opened Storage
  import opened TableInvariants
  import opened Database
  import opened ExitTree
  import opened ChainEvents
  import opened EventOrder
  import opened Reorg
  import opened BlockRange

  // ---------- the reference: a list of deposits that events append to or cut back ----------

  datatype Stored = Stored(leaf: Digest, block: nat)

  function History(t: Tables, net: Network): (log: seq<Stored>)
    ensures |log| == |DepositsOf(t, net)|
  {
    AsStored(DepositsOf(t, net))
  }

  function LeavesIn(log: seq<Stored>): (s: seq<Digest>)
    ensures |s| == |log|
  {
    seq(|log|, i requires 0 <= i < |log| => log[i].leaf)
  }

  function StoredAt(leaves: seq<Digest>, block: nat): (log: seq<Stored>)
    ensures |log| == |leaves|
  {
    seq(|leaves|, i requires 0 <= i < |leaves| => Stored(leaves[i], block))
  }

  /** The deposits of blocks up to a number. */
  function UpTo(log: seq<Stored>, number: nat): seq<Stored>
  {
    if log == [] then []
    else (if log[0].block <= number then [log[0]] else []) + UpTo(log[1..], number)
  }

  function AsStored(d: seq<DepositRow>): (log: seq<Stored>)
    ensures |log| == |d|
  {
    seq(|d|, i requires 0 <= i < |d| => Stored(d[i].leaf, d[i].block))
  }

  lemma {:induction false} HistoryUpTo(d: seq<DepositRow>, number: nat)
    ensures AsStored(BlockUpTo(d, number)) == UpTo(AsStored(d), number)
  {
    if d != [] {
      HistoryUpTo(d[1..], number);
      assert AsStored(d)[1..] == AsStored(d[1..]);
      var rest := BlockUpTo(d[1..], number);
      assert AsStored([d[0]] + rest) == [AsStored(d)[0]] + AsStored(rest);
    }
  }

  /** What an event does to a network's deposits; None when it is rejected. */
  function ApplyEvent(log: seq<Stored>, e: Event, block: nat, net: Network, height: nat): Option<seq<Stored>>
  {
    match e
    case Deposit(count, leaf) =>
      if count == |log| then Some(log + [Stored(leaf, block)]) else None
    case BackwardLET(previousCount, previousRoot, newCount, newRoot) =>
      if net != 0 && previousCount == |log| && previousRoot == Root(LeavesIn(log), height) &&
         newCount <= |log| && newRoot == Root(LeavesIn(log[..newCount]), height)
      then Some(log[..newCount]) else None
    case ForwardLET(previousCount, previousRoot, newCount, newRoot, newLeaves) =>
      var log' := log + StoredAt(newLeaves, block);
      if previousCount == |log| && previousRoot == Root(LeavesIn(log), height) &&
         newCount == |log'| && newRoot == Root(LeavesIn(log'), height)
      then Some(log') else None
    case Other(_, _) => Some(log)
  }

  function ApplyEvents(log: seq<Stored>, events: seq<Event>, block: nat, net: Network, height: nat): Option<seq<Stored>>
  {
    if events == [] then Some(log)
    else
      var n := |events| - 1;
      match ApplyEvents(log, events[..n], block, net, height)
      case None => None
      case Some(front) => ApplyEvent(front, events[n], block, net, height)
  }

  /** The row an event leaves in the table of its kind; a deposit is in the deposit table. */
  function NoteOf(e: Event, block: nat): seq<EventRow>
  {
    if e.Deposit? then [] else [EventRow(e, block)]
  }

  /** The rows of a block's events, in order. */
  function NotesOf(events: seq<Event>, block: nat): seq<EventRow>
  {
    if events == [] then []
    else
      var n := |events| - 1;
      NotesOf(events[..n], block) + NoteOf(events[n], block)
  }

  /** Some rows and then those of all events of some blocks, block by block in the recorded order. */
  function WithNotes(rows: seq<EventRow>, blocks: seq<Block>, order: map<nat, seq<Order>>): seq<EventRow>
  {
    if blocks == [] then rows
    else
      var n := |blocks| - 1;
      WithNotes(rows, blocks[..n], order) + NotesIn(blocks[n], OrderAt(order, blocks[n].hash))
  }

  function NotesIn(b: Block, orders: seq<Order>): seq<EventRow>
  {
    match TakeAll(b, orders)
    case None => []
    case Some(events) => NotesOf(events, b.number)
  }

  /** The deposits after whole blocks, each taken out in its recorded order. */
  function ApplyBlocks(log: seq<Stored>, blocks: seq<Block>, order: map<nat, seq<Order>>, net: Network,
                       height: nat): Option<seq<Stored>>
  {
    if blocks == [] then Some(log)
    else
      var n := |blocks| - 1;
      match (ApplyBlocks(log, blocks[..n], order, net, height), TakeAll(blocks[n], OrderAt(order, blocks[n].hash)))
      case (Some(front), Some(events)) => ApplyEvents(front, events, blocks[n].number, net, height)
      case _ => None
  }

  /** The tree has room for what the event would add. */
  predicate EventFits(e: Event, height: nat)
  {
    match e
    case Deposit(count, _) => count < Capacity(height)
    case ForwardLET(previousCount, _, _, _, newLeaves) => previousCount + |newLeaves| <= Capacity(height)
    case _ => true
  }

  /** The same only for an event that goes on from n deposits. */
  predicate RoomFor(e: Event, n: nat, height: nat)
  {
    match e
    case Deposit(count, _) => count == n ==> count < Capacity(height)
    case ForwardLET(previousCount, _, _, _, newLeaves) => previousCount == n ==> n + |newLeaves| <= Capacity(height)
    case _ => true
  }

  predicate BlockFits(b: Block, height: nat)
  {
    forall kind, i :: kind in b.buckets && 0 <= i < |b.buckets[kind]| ==> EventFits(b.buckets[kind][i], height)
  }

  ghost predicate AllFit(blocks: seq<Block>, height: nat)
  {
    forall i :: 0 <= i < |blocks| ==> BlockFits(blocks[i], height)
  }

  /**
    What an accepted event says of the deposits before and after it. A deposit has the next count. A LET has the
    root and the count of both lists: a backward LET cuts the list back to its new count, and a forward LET appends
    its leaves. And every event that says so is accepted, but for a backward LET of mainnet.
   */
  lemma AcceptedEvents(log: seq<Stored>, e: Event, block: nat, net: Network, height: nat, log': seq<Stored>)
    ensures e.Deposit? ==>
              (ApplyEvent(log, e, block, net, height) == Some(log') <==>
               e.count == |log| && log' == log + [Stored(e.leaf, block)])
    ensures e.BackwardLET? ==>
              (ApplyEvent(log, e, block, net, height) == Some(log') <==>
               && net != 0 && log' <= log
               && e.previousCount == |log| && e.previousRoot == Root(LeavesIn(log), height)
               && e.newCount == |log'| && e.newRoot == Root(LeavesIn(log'), height))
    ensures e.ForwardLET? ==>
              (ApplyEvent(log, e, block, net, height) == Some(log') <==>
               && log <= log' && LeavesIn(log') == LeavesIn(log) + e.newLeaves
               && (forall i :: |log| <= i < |log'| ==> log'[i].block == block)
               && e.previousCount == |log| && e.previousRoot == Root(LeavesIn(log), height)
               && e.newCount == |log'| && e.newRoot == Root(LeavesIn(log'), height))
  {
    if e.BackwardLET? && log' <= log {
      assert log[..|log'|] == log';
    } else if e.ForwardLET? && log <= log' && LeavesIn(log') == LeavesIn(log) + e.newLeaves {
      AppendedOnly(log, e.newLeaves, block, log');
    } else if e.ForwardLET? {
      assert LeavesIn(log + StoredAt(e.newLeaves, block)) == LeavesIn(log) + e.newLeaves;
    }
  }

  lemma AppendedOnly(log: seq<Stored>, leaves: seq<Digest>, block: nat, log': seq<Stored>)
    requires log <= log' && LeavesIn(log') == LeavesIn(log) + leaves
    ensures (forall i :: |log| <= i < |log'| ==> log'[i].block == block) <==> log' == log + StoredAt(leaves, block)
  {
    assert |log'| == |log| + |leaves|;
    forall i | |log| <= i < |log'|
      ensures log'[i].leaf == leaves[i - |log|]
    {
      assert LeavesIn(log')[i] == (LeavesIn(log) + leaves)[i];
    }
    if log' == log + StoredAt(leaves, block) {
      assert forall i :: |log| <= i < |log'| ==> log'[i] == StoredAt(leaves, block)[i - |log|];
    }
  }

  /** A BackwardLET followed by a ForwardLET of the removed leaves gives back the leaves, the root and the count. */
  lemma BackwardThenForward(log: seq<Stored>, cut: nat, block: nat, net: Network, height: nat)
    requires net != 0 && cut <= |log|
    ensures var s := LeavesIn(log);
            var back := BackwardLET(|s|, Root(s, height), cut, Root(s[..cut], height));
            var forth := ForwardLET(cut, Root(s[..cut], height), |s|, Root(s, height), s[cut..]);
            var r := ApplyEvents(log, [back, forth], block, net, height);
            r.Some? && LeavesIn(r.value) == s && r.value[..cut] == log[..cut]
  {
    var s := LeavesIn(log);
    var back := BackwardLET(|s|, Root(s, height), cut, Root(s[..cut], height));
    var forth := ForwardLET(cut, Root(s[..cut], height), |s|, Root(s, height), s[cut..]);
    var mid := log[..cut];
    var end := mid + StoredAt(s[cut..], block);
    assert LeavesIn(mid) == s[..cut];
    assert LeavesIn(end) == s;
    assert [back, forth][..1] == [back];
    assert [back][..0] == [];
    assert ApplyEvents(log, [], block, net, height) == Some(log);
    assert ApplyEvents(log, [back], block, net, height) == Some(mid);
    assert ApplyEvents(log, [back, forth], block, net, height) == Some(end);
  }

  lemma HistoryLeaves(t: Tables, net: Network)
    ensures LeavesIn(History(t, net)) == Leaves(DepositsOf(t, net))
  {
  }

  /** With the leaves s in memory there is a reason to refuse the event: the reference does, or memory is behind. */
  ghost predicate Declined(log: seq<Stored>, e: Event, block: nat, net: Network, height: nat, s: seq<Digest>)
  {
    ApplyEvent(log, e, block, net, height).None? || s != LeavesIn(log)
  }

  /** With the leaves s in memory the event led to these deposits: as the reference has it, unless memory is behind. */
  ghost predicate Granted(log: seq<Stored>, e: Event, block: nat, net: Network, height: nat, s: seq<Digest>,
                          log': seq<Stored>)
  {
    s == LeavesIn(log) || ApplyEvent(log, e, block, net, height).Some? ==>
      ApplyEvent(log, e, block, net, height) == Some(log')
  }

  /** Once a forward LET has passed the first check and its leaves are appended, the second check decides. */
  lemma ForwardVerdict(log: seq<Stored>, e: Event, block: nat, net: Network, height: nat, s: seq<Digest>,
                       now: seq<Digest>)
    requires e.ForwardLET? && e.previousRoot == Root(s, height) && e.previousCount == |log| && s <= LeavesIn(log)
    requires now == if e.newLeaves == [] then s else LeavesIn(log + StoredAt(e.newLeaves, block))
    ensures var log' := log + StoredAt(e.newLeaves, block);
            && (e.newRoot != Root(now, height) || e.newCount != |log'| ==> Declined(log, e, block, net, height, s))
            && (e.newRoot == Root(now, height) && e.newCount == |log'| ==> Granted(log, e, block, net, height, s, log'))
            && (e.newLeaves == [] ==> log' == log)
  {
    if e.newLeaves == [] {
      assert log + StoredAt(e.newLeaves, block) == log;
    }
  }

  /** Nothing of the other networks changes. */
  ghost predicate OthersKept(t: Tables, t': Tables, net: Network)
  {
    forall m: Network :: m != net ==>
      DepositsOf(t', m) == DepositsOf(t, m) && BlocksOf(t', m) == BlocksOf(t, m) && EventsOf(t', m) == EventsOf(t, m)
  }

  /** Nothing but the network's deposits changes. */
  ghost predicate OnlyDeposits(t: Tables, t': Tables, net: Network)
  {
    OthersKept(t, t', net) && BlocksOf(t', net) == BlocksOf(t, net) && EventsOf(t', net) == EventsOf(t, net)
  }

  /** Besides the network's deposits only its event rows change: these are added to them. */
  ghost predicate Noting(t: Tables, t': Tables, net: Network, rows: seq<EventRow>)
  {
    OthersKept(t, t', net) && BlocksOf(t', net) == BlocksOf(t, net) && EventsOf(t', net) == EventsOf(t, net) + rows
  }

  /** What is stored of a network: its deposits, its block rows and the rows of its other events. */
  datatype NetState = NetState(log: seq<Stored>, rows: seq<BlockRow>, events: seq<EventRow>)

  function StateOf(t: Tables, net: Network): NetState
  {
    NetState(History(t, net), BlocksOf(t, net), EventsOf(t, net))
  }

  function WithBlocks(rows: seq<BlockRow>, blocks: seq<Block>): seq<BlockRow>
  {
    if blocks == [] then rows
    else
      var n := |blocks| - 1;
      WithBlock(WithBlocks(rows, blocks[..n]), BlockRow(blocks[n].number, blocks[n].hash))
  }

  /** Processing these blocks, each in its recorded order, leads from one state to the other. */
  ghost predicate Reached(from: NetState, blocks: seq<Block>, order: map<nat, seq<Order>>, net: Network, height: nat,
                          to: NetState)
  {
    && ApplyBlocks(from.log, blocks, order, net, height) == Some(to.log)
    && to.rows == WithBlocks(from.rows, blocks)
    && to.events == WithNotes(from.events, blocks, order)
  }

  /** The first i events of a block, in this order, lead from one state to the other; the block has its row already. */
  ghost predicate BlockPartly(from: NetState, b: Block, orders: seq<Order>, i: nat, net: Network, height: nat,
                              to: NetState)
    requires i <= |orders|
  {
    && TakeAll(b, orders[..i]).Some?
    && ApplyEvents(from.log, TakeAll(b, orders[..i]).value, b.number, net, height) == Some(to.log)
    && to.rows == from.rows
    && to.events == from.events + NotesOf(TakeAll(b, orders[..i]).value, b.number)
  }

  /** The reference rejects the event of the i-th order. */
  ghost predicate BlockStuck(from: NetState, b: Block, orders: seq<Order>, i: nat, net: Network, height: nat)
    requires i < |orders|
  {
    && TakeAll(b, orders[..i + 1]).Some?
    && ApplyEvents(from.log, TakeAll(b, orders[..i + 1]).value, b.number, net, height).None?
  }

  lemma PartlyStep(from: NetState, b: Block, orders: seq<Order>, i: nat, i': nat, net: Network, height: nat,
                   mid: NetState, to: NetState)
    requires i < |orders| && i' == i + 1 && BlockPartly(from, b, orders, i, net, height, mid)
    requires Take(b, orders[i]).Some?
    requires ApplyEvent(mid.log, Take(b, orders[i]).value, b.number, net, height) == Some(to.log)
    requires to.rows == mid.rows && to.events == mid.events + NoteOf(Take(b, orders[i]).value, b.number)
    ensures BlockPartly(from, b, orders, i', net, height, to)
  {
    OrderStep(b, orders, i, from.log, net, height);
  }

  /** Processing one block, in this order, leads from one state to the other. */
  ghost predicate BlockDone(from: NetState, b: Block, orders: seq<Order>, net: Network, height: nat, to: NetState)
  {
    && TakeAll(b, orders).Some?
    && ApplyEvents(from.log, TakeAll(b, orders).value, b.number, net, height) == Some(to.log)
    && to.rows == WithBlock(from.rows, BlockRow(b.number, b.hash))
    && to.events == from.events + NotesIn(b, orders)
  }

  lemma WholeBlock(from: NetState, start: NetState, b: Block, orders: seq<Order>, net: Network, height: nat,
                   to: NetState)
    requires start == from.(rows := WithBlock(from.rows, BlockRow(b.number, b.hash)))
    requires BlockPartly(start, b, orders, |orders|, net, height, to)
    ensures BlockDone(from, b, orders, net, height, to)
  {
    assert orders[..|orders|] == orders;
  }

  /** The state with everything above a number deleted. */
  function CutTo(s: NetState, number: nat): NetState
  {
    NetState(UpTo(s.log, number), NumberUpTo(s.rows, number), EventsUpTo(s.events, number))
  }

  /**
    A block the range loop can start from: not below genesis and sound; unless chunks are forced it is
    genesis or one of the event-bearing blocks.
   */
  ghost predicate TipOk(last: BlockRow, chain: seq<Block>, headers: map<nat, nat>, genesis: nat, force: bool)
  {
    && last.number >= genesis && Sound(last, headers, genesis)
    && (!force && last.number > genesis ==> exists b :: b in chain && b.number == last.number && b.hash == last.hash)
  }

  /** The work of one call of the range loop: a chain with its head, where to start, and what is stored then. */
  datatype Job = Job(chain: seq<Block>, order: map<nat, seq<Order>>, headers: map<nat, nat>, known: nat, genesis: nat,
                     force: bool, net: Network, height: nat, start: nat, origin: NetState)
  {
    ghost predicate Fits()
    {
      ChainOk(chain, headers, known) && Replay(chain, order).Some? && AllFit(chain, height)
    }

    /** What is stored is what the reference makes of the blocks above the start and before position k. */
    ghost predicate Processed(now: NetState, k: nat)
      requires Ascending(chain)
    {
      && Below(chain, start + 1) <= k <= |chain|
      && Reached(origin, chain[Below(chain, start + 1)..k], order, net, height, now)
    }

    /** The reference rejects the block at position k. */
    ghost predicate RejectedAt(k: nat)
      requires Ascending(chain)
    {
      && Below(chain, start + 1) <= k < |chain|
      && ApplyBlocks(origin.log, chain[Below(chain, start + 1)..k + 1], order, net, height).None?
    }

    /** A block stands for the chain up to `done`. */
    ghost predicate Stands(last: BlockRow, done: nat)
      requires Ascending(chain)
    {
      && TipOk(last, chain, headers, genesis, force)
      && start <= done && last.number <= done && (force ==> last.number == done)
      && Quiet(chain, last.number, done)
    }

    /** The blocks of the chain up to `done` have been processed, and `last` stands for them. */
    ghost predicate SyncedTo(now: NetState, last: BlockRow, done: nat)
      requires Ascending(chain)
    {
      Stands(last, done) && AllUpTo(now.log, last.number) && Processed(now, Below(chain, done + 1))
    }
  }

  /** Before the first range. */
  lemma JobStarts(job: Job, start: BlockRow)
    requires Ascending(job.chain) && start.number == job.start && AllUpTo(job.origin.log, start.number)
    requires TipOk(start, job.chain, job.headers, job.genesis, job.force)
    ensures job.SyncedTo(job.origin, start, start.number)
  {
    var lo := Below(job.chain, job.start + 1);
    assert job.chain[lo..lo] == [];
  }

  /** After a range: its last block stands for it, or its end where chunks are forced, or the last one before. */
  lemma RangeDone(job: Job, blocks: seq<Block>, last: BlockRow, done: nat, to: nat, last': BlockRow)
    requires ChainOk(job.chain, job.headers, job.known) && done <= to <= job.known && job.Stands(last, done)
    requires blocks == Slice(job.chain, done + 1, to)
    requires last' == if job.force then BlockRow(to, job.headers[to])
                      else if blocks == [] then last
                      else BlockRow(blocks[|blocks| - 1].number, blocks[|blocks| - 1].hash)
    ensures job.Stands(last', to)
  {
    if !job.force && blocks != [] {
      BlockStands(job, blocks, done, to);
    } else if !job.force {
      BelowMonotone(job.chain, done + 1, to + 1);
    }
  }

  lemma BlockStands(job: Job, blocks: seq<Block>, done: nat, to: nat)
    requires ChainOk(job.chain, job.headers, job.known) && job.start <= done <= to && job.genesis <= done && !job.force
    requires blocks == Slice(job.chain, done + 1, to) && blocks != []
    ensures var b := blocks[|blocks| - 1];
            job.Stands(BlockRow(b.number, b.hash), to)
  {
    LastOfSlice(job.chain, done, to);
    var b := blocks[|blocks| - 1];
    assert b in job.chain;
  }

  /** At the head nothing is left. */
  lemma AtHead(job: Job, now: NetState, last: BlockRow, done: nat)
    requires job.Fits() && done >= job.known && job.SyncedTo(now, last, done)
    ensures job.Processed(now, |job.chain|)
    ensures Reached(job.origin, After(job.chain, job.start), job.order, job.net, job.height, now)
    ensures After(job.chain, last.number) == []
  {
    var chain, lo := job.chain, Below(job.chain, job.start + 1);
    assert Below(chain, done + 1) == |chain|;
    assert chain[lo..Below(chain, done + 1)] == After(chain, job.start);
  }

  // ---------- the class ----------

  datatype RangeOutcome = Done | RolledBack | Messy

  class ClientSynchronizer {
    const store: Connection
    const tree: MerkleTree
    const net: Network
    const genesis: nat
    const chunkSize: nat
    const forceSyncChunk: bool
    var synced: bool

    constructor (store: Connection, tree: MerkleTree, net: Network, genesis: nat, chunkSize: nat, forceSyncChunk: bool)
      ensures this.store == store && this.tree == tree && this.net == net
      ensures this.genesis == genesis && this.chunkSize == chunkSize && this.forceSyncChunk == forceSyncChunk && !synced
    {
      this.store := store;
      this.tree := tree;
      this.net := net;
      this.genesis := genesis;
      this.chunkSize := chunkSize;
      this.forceSyncChunk := forceSyncChunk;
      synced := false;
    }

    ghost predicate Wired()
    {
      tree.store == store && tree.network == net && tree.height == store.height && store.height >= 1
    }

    /** No transaction in progress: the in-memory tree is the tree of the committed deposits. */
    ghost predicate AtRest()
      reads store, tree
    {
      Wired() && store.Valid() && tree.Matches(store.committed)
    }

    /** Inside a block's transaction, with the first of its deposits in memory. */
    ghost predicate InBlockWith(block: nat, s: seq<Digest>)
      reads store, tree
    {
      && Wired() && store.Valid() && store.PendingOk()
      && tree.Holds(s) && s <= Leaves(DepositsOf(store.pending, net))
      && WithinBlock(DepositsOf(store.pending, net), block)
    }

    /** Inside a block's transaction: the in-memory tree is the tree of the transaction's deposits. */
    ghost predicate InBlock(block: nat)
      reads store, tree
    {
      InBlockWith(block, Leaves(DepositsOf(store.pending, net)))
    }

    /** What is committed for the network. */
    function Now(): NetState
      reads store
    {
      StateOf(store.committed, net)
    }

    /** The deposits in the open transaction. */
    ghost function Pending(): seq<Stored>
      reads store
    {
      History(store.pending, net)
    }

    /** Rebuilds the tree from the committed tables, again and again until it is not refused. */
    method RebuildTree(queryFails: bool)
      requires Wired() && store.Valid() && (queryFails ==> DepositsOf(store.committed, net) != [])
      modifies tree, store`aborted, store`faults
      ensures store.aborted == old(store.aborted) && old(store.faults) <= store.faults
      ensures tree.Matches(store.committed) <==> !queryFails || |DepositsOf(store.committed, net)| == 1
      ensures queryFails ==> tree.Holds(Leaves(DepositsOf(store.committed, net))[..1])
    {
      var mtErr := tree.RollbackMT(queryFails);
      while mtErr.Some?
        invariant store.aborted == old(store.aborted) && old(store.faults) <= store.faults
        invariant mtErr.None? ==>
                    (tree.Matches(store.committed) <==> !queryFails || |DepositsOf(store.committed, net)| == 1)
        invariant mtErr.None? && queryFails ==> tree.Holds(Leaves(DepositsOf(store.committed, net))[..1])
        decreases if mtErr.Some? then 1 else 0, store.limit - store.faults
      {
        mtErr := tree.RollbackMT(queryFails);
      }
    }

    /** rollback: the tree is rebuilt from the committed tables, then the transaction is dropped. */
    method Rollback()
      requires Wired() && store.Valid()
      modifies tree, store
      ensures AtRest() && store.committed == old(store.committed)
      ensures store.aborted == old(store.aborted) && old(store.faults) <= store.faults
    {
      RebuildTree(false);
      store.Rollback();
    }

    /**
      Stores a deposit and adds it to the tree, if its count is that of the tree. Where memory holds fewer
      deposits than are stored, the next deposit is refused, and the rollback restores the memory.
     */
    method ProcessDeposit(count: nat, leaf: Digest, block: nat, ghost s: seq<Digest>) returns (ok: bool)
      requires InBlockWith(block, s)
      requires count == |s| ==> InBlock(block) && count < Capacity(store.height)
      modifies tree, store
      ensures store.committed == old(store.committed)
      ensures store.Aged()
      ensures !ok ==> AtRest() && (store.aborted || count != |s|)
      ensures ok ==> InBlock(block) && !store.aborted && count == |s| == |old(Pending())|
      ensures ok ==> Pending() == old(Pending()) + [Stored(leaf, block)]
      ensures ok ==> OnlyDeposits(old(store.pending), store.pending, net)
    {
      ghost var before := store.pending;
      assert TreeOk(before, net, store.height);
      assert count == |s| ==> s == Leaves(DepositsOf(before, net));
      var id := store.AddDeposit(net, count, leaf, block);
      if id.None? {
        Rollback();
        return false;
      }
      var err := tree.AddLeaf(id.value, leaf, count, s);
      if err.Some? {
        Rollback();
        return false;
      }
      ghost var row := DepositRow(id.value, count, leaf, block);
      LeavesAppend(DepositsOf(before, net), row);
      assert store.pending == WithLeaf(before, net, row, store.height);
      DepositAdded(before, net, row, store.height);
      return true;
    }

    /** The root the controller reports inside the transaction is the root of the deposits in memory. */
    method GetExitRoot(block: nat, ghost s: seq<Digest>) returns (r: Option<Digest>)
      requires InBlockWith(block, s)
      modifies store`aborted, store`faults
      ensures InBlockWith(block, s)
      ensures store.Aged()
      ensures r.None? ==> store.aborted
      ensures r.Some? ==> r.value == Root(s, store.height)
    {
      EmptyNode(store.height, 0);
      assert TreeOk(store.pending, net, store.height);
      if |s| > 0 {
        LookupRootIsRoot(store.pending, net, store.height, |s| - 1);
        assert Leaves(DepositsOf(store.pending, net))[..|s|] == s;
      }
      var root := tree.GetRoot(true);
      if root.Err? {
        return None;
      }
      assert |s| == 0 ==> s == [];
      return Some(root.value);
    }

    /** The deposit count the storage reports inside the transaction. */
    method CountDeposits(block: nat, ghost s: seq<Digest>) returns (r: Option<nat>)
      requires InBlockWith(block, s)
      modifies store`aborted, store`faults
      ensures InBlockWith(block, s)
      ensures store.Aged()
      ensures r.None? ==> store.aborted
      ensures r.Some? ==> r.value == |Pending()|
    {
      assert TreeOk(store.pending, net, store.height);
      NumberDepositsAll(DepositsOf(store.pending, net), block);
      r := store.GetNumberDeposits(net, block);
    }

    /** Whether the memory has this root, and the transaction this count of deposits. */
    method CheckState(root: Digest, count: nat, block: nat, ghost s: seq<Digest>) returns (ok: bool)
      requires InBlockWith(block, s)
      modifies store`aborted, store`faults
      ensures InBlockWith(block, s)
      ensures store.Aged()
      ensures ok ==> root == Root(s, store.height) && count == |Pending()|
      ensures !ok ==> store.aborted || root != Root(s, store.height) || count != |Pending()|
    {
      var depositCnt := CountDeposits(block, s);
      if depositCnt.None? {
        return false;
      }
      var letRoot := GetExitRoot(block, s);
      if letRoot.None? {
        return false;
      }
      return letRoot.value == root && depositCnt.value == count;
    }

    /** The check of a LET event against the current root and count; a mismatch is rolled back. */
    method CheckOrRollback(root: Digest, count: nat, block: nat, ghost s: seq<Digest>) returns (ok: bool)
      requires InBlockWith(block, s)
      modifies tree, store
      ensures store.committed == old(store.committed)
      ensures store.Aged()
      ensures ok ==> InBlockWith(block, s) && store.pending == old(store.pending)
      ensures ok ==> root == Root(s, store.height) && count == |Pending()|
      ensures !ok ==> AtRest()
      ensures !ok ==> store.aborted || root != Root(s, store.height) || count != |old(Pending())|
    {
      ok := CheckState(root, count, block, s);
      if !ok {
        Rollback();
      }
    }

    /** Cutting the deposits back to a count and resetting the tree to it. */
    method CutBack(newCount: nat, block: nat, ghost s: seq<Digest>) returns (ok: bool)
      requires InBlockWith(block, s)
      modifies tree, store
      ensures Wired() && store.Valid() && store.committed == old(store.committed)
      ensures store.Aged()
      ensures !ok ==> store.aborted || net == 0 || newCount > |old(Pending())|
      ensures ok ==> InBlock(block) && net != 0 && newCount <= |old(Pending())|
      ensures ok ==> Pending() == old(Pending())[..newCount]
      ensures ok ==> OnlyDeposits(old(store.pending), store.pending, net)
    {
      ghost var before := store.pending;
      ghost var d := DepositsOf(before, net);
      ok := store.ResetDeposits(net, newCount);
      if !ok {
        return false;
      }
      ResetDepositsOk(before, net, newCount, store.height, store.nextId);
      ghost var kept := DepositsOf(store.pending, net);
      var err := tree.ResetLeaf(newCount);
      if err.Some? {
        return false;
      }
      assert newCount == |kept| && kept == d[..newCount];
      assert Leaves(kept)[..newCount] == Leaves(kept);
      assert AsStored(kept) == AsStored(d)[..newCount];
      return true;
    }

    /** The last step of a LET event: its row. */
    method StoreEvent(e: Event, block: nat, ghost s: seq<Digest>) returns (ok: bool)
      requires InBlockWith(block, s) && !e.Deposit?
      modifies tree, store
      ensures store.committed == old(store.committed)
      ensures store.Aged()
      ensures !ok ==> AtRest() && store.aborted
      ensures ok ==> InBlockWith(block, s) && !store.aborted
      ensures ok ==> DepositsOf(store.pending, net) == old(DepositsOf(store.pending, net))
      ensures ok ==> Noting(old(store.pending), store.pending, net, NoteOf(e, block))
    {
      InsertEventOk(store.pending, net, EventRow(e, block), store.height);
      ok := store.AddEvent(net, e, block);
      if !ok {
        Rollback();
      }
    }

    /** The end of a LET event: the new root and count are checked, and the row of the event is stored. */
    method CheckAndStore(e: Event, root: Digest, count: nat, block: nat, ghost s: seq<Digest>) returns (ok: bool)
      requires InBlockWith(block, s) && !e.Deposit?
      modifies tree, store
      ensures store.committed == old(store.committed)
      ensures store.Aged()
      ensures !ok ==> AtRest()
      ensures !ok ==> store.aborted || root != Root(s, store.height) || count != |old(Pending())|
      ensures ok ==> InBlockWith(block, s) && !store.aborted && root == Root(s, store.height) && count == |Pending()|
      ensures ok ==> DepositsOf(store.pending, net) == old(DepositsOf(store.pending, net))
      ensures ok ==> Noting(old(store.pending), store.pending, net, NoteOf(e, block))
    {
      ok := CheckOrRollback(root, count, block, s);
      if ok {
        ok := StoreEvent(e, block, s);
      }
    }

    /**
      processBackwardLETSovereign: accepted exactly when no statement failed and the event describes the
      current tree and a prefix of it; then exactly that prefix is left. The tree in memory counts by its root
      alone, and is rebuilt.
     */
    method ProcessBackwardLET(e: Event, block: nat, ghost s: seq<Digest>) returns (ok: bool)
      requires InBlockWith(block, s) && e.BackwardLET?
      modifies tree, store
      ensures store.committed == old(store.committed)
      ensures store.Aged()
      ensures !ok ==> AtRest() && (store.aborted || Declined(old(Pending()), e, block, net, store.height, s))
      ensures ok ==> InBlock(block) && !store.aborted
      ensures ok ==> e.previousRoot == Root(s, store.height) && e.previousCount == |old(Pending())|
      ensures ok ==> e.newRoot == Root(Leaves(DepositsOf(store.pending, net)), store.height)
      ensures ok ==> e.newCount == |Pending()|
      ensures ok ==> Granted(old(Pending()), e, block, net, store.height, s, Pending())
      ensures ok ==> Noting(old(store.pending), store.pending, net, NoteOf(e, block))
    {
      HistoryLeaves(store.pending, net);
      ok := CheckOrRollback(e.previousRoot, e.previousCount, block, s);
      if !ok {
        return false;
      }
      ok := CutBack(e.newCount, block, s);
      if !ok {
        Rollback();
        return false;
      }
      HistoryLeaves(store.pending, net);
      ok := CheckAndStore(e, e.newRoot, e.newCount, block, Leaves(DepositsOf(store.pending, net)));
    }

    /** Appends leaves one deposit at a time; memory that is behind refuses the first one. */
    method AppendLeaves(leaves: seq<Digest>, count: nat, block: nat, ghost s: seq<Digest>) returns (ok: bool)
      requires InBlockWith(block, s) && count == |Pending()|
      requires |s| == count ==> count + |leaves| <= Capacity(store.height)
      modifies tree, store
      ensures store.committed == old(store.committed)
      ensures store.Aged()
      ensures !ok ==> AtRest() && (store.aborted || |s| != count)
      ensures ok ==> if leaves == [] then InBlockWith(block, s) else InBlock(block)
      ensures ok && |s| == count ==> InBlock(block)
      ensures ok ==> Pending() == old(Pending()) + StoredAt(leaves, block)
      ensures ok ==> OnlyDeposits(old(store.pending), store.pending, net)
    {
      assert |s| == count ==> s == Leaves(DepositsOf(store.pending, net));
      for i := 0 to |leaves|
        invariant if i == 0 then InBlockWith(block, s) else InBlock(block) && |s| == count
        invariant |s| == count ==> InBlock(block)
        invariant store.committed == old(store.committed)
        invariant store.Aged()
        invariant Pending() == old(Pending()) + StoredAt(leaves[..i], block)
        invariant OnlyDeposits(old(store.pending), store.pending, net)
      {
        assert StoredAt(leaves[..i + 1], block) == StoredAt(leaves[..i], block) + [Stored(leaves[i], block)];
        ok := ProcessDeposit(count + i, leaves[i], block, if i == 0 then s else Leaves(DepositsOf(store.pending, net)));
        if !ok {
          return false;
        }
      }
      assert leaves[..|leaves|] == leaves;
      return true;
    }

    /**
      processForwardLETSovereign: accepted exactly when no statement failed and the event describes the
      current tree and the tree with its leaves appended; then exactly those leaves are appended.
     */
    method ProcessForwardLET(e: Event, block: nat, ghost s: seq<Digest>) returns (ok: bool)
      requires InBlockWith(block, s) && e.ForwardLET?
      requires |s| == |Pending()| ==> RoomFor(e, |Pending()|, store.height)
      modifies tree, store
      ensures store.committed == old(store.committed)
      ensures store.Aged()
      ensures !ok ==> AtRest() && (store.aborted || Declined(old(Pending()), e, block, net, store.height, s))
      ensures ok ==> !store.aborted && (InBlock(block) || (InBlockWith(block, s) && Pending() == old(Pending())))
      ensures ok && |s| == |old(Pending())| ==> InBlock(block)
      ensures ok ==> e.previousRoot == Root(s, store.height) && e.previousCount == |old(Pending())|
      ensures ok ==> e.newCount == |Pending()|
      ensures ok && |s| == |old(Pending())| ==>
                e.newRoot == Root(Leaves(DepositsOf(store.pending, net)), store.height)
      ensures ok ==> Granted(old(Pending()), e, block, net, store.height, s, Pending())
      ensures ok ==> Noting(old(store.pending), store.pending, net, NoteOf(e, block))
    {
      HistoryLeaves(store.pending, net);
      ghost var all := Leaves(DepositsOf(store.pending, net));
      ok := CheckOrRollback(e.previousRoot, e.previousCount, block, s);
      if !ok {
        return false;
      }
      var initialCount := CountDeposits(block, s);
      if initialCount.None? {
        Rollback();
        return false;
      }
      ok := AppendLeaves(e.newLeaves, initialCount.value, block, s);
      if !ok {
        assert !store.aborted ==> s != all;
        return false;
      }
      HistoryLeaves(store.pending, net);
      ghost var now := if e.newLeaves == [] then s else Leaves(DepositsOf(store.pending, net));
      ForwardVerdict(old(Pending()), e, block, net, store.height, s, now);
      ok := CheckAndStore(e, e.newRoot, e.newCount, block, now);
    }

    /**
      One event of a block, with the first of the transaction's deposits, s, in memory. With all of them there it is
      accepted exactly when no statement failed and the reference accepts it; with fewer it may also be refused, and
      if it is accepted, and the reference accepts it, it does what the reference does.
     */
    method ProcessEvent(e: Event, block: nat, ghost s: seq<Digest>) returns (ok: bool)
      requires InBlockWith(block, s)
      requires |s| == |Pending()| ==> RoomFor(e, |Pending()|, store.height)
      requires e.Deposit? && e.count == |s| ==> |s| == |Pending()|
      modifies tree, store
      ensures store.committed == old(store.committed)
      ensures store.Aged()
      ensures !ok ==> AtRest() && (store.aborted || Declined(old(Pending()), e, block, net, store.height, s))
      ensures ok ==> !store.aborted && (InBlock(block) || (InBlockWith(block, s) && Pending() == old(Pending())))
      ensures ok && |s| == |old(Pending())| ==> InBlock(block)
      ensures ok && e.Deposit? ==> e.count == |s|
      ensures ok ==> Granted(old(Pending()), e, block, net, store.height, s, Pending())
      ensures ok ==> EventsOf(store.pending, net) ==
                     old(EventsOf(store.pending, net)) + if e.Deposit? then [] else [EventRow(e, block)]
      ensures ok ==> Noting(old(store.pending), store.pending, net, NoteOf(e, block))
    {
      HistoryLeaves(store.pending, net);
      assert |s| == |Pending()| ==> s == Leaves(DepositsOf(store.pending, net));
      match e {
        case Deposit(count, leaf) => ok := ProcessDeposit(count, leaf, block, s);
        case BackwardLET(_, _, _, _) => ok := ProcessBackwardLET(e, block, s);
        case ForwardLET(_, _, _, _, _) => ok := ProcessForwardLET(e, block, s);
        case Other(_, _) => ok := StoreEvent(e, block, s);
      }
    }

    /** Begins a block's transaction with the block's row. */
    method OpenBlock(b: BlockRow) returns (ok: bool)
      requires AtRest() && WithinBlock(DepositsOf(store.committed, net), b.number)
      modifies tree, store
      ensures store.committed == old(store.committed) && old(store.faults) <= store.faults
      ensures !ok ==> AtRest() && store.faults > old(store.faults)
      ensures ok ==> InBlock(b.number) && !store.aborted && OthersKept(store.committed, store.pending, net)
      ensures ok ==> StateOf(store.pending, net) == Now().(rows := WithBlock(Now().rows, b))
    {
      store.Begin();
      ok := store.AddBlock(net, b.number, b.hash);
      if !ok {
        Rollback();
        return;
      }
      InsertBlockOk(store.committed, net, b, store.height);
    }

    /** Commits a block's transaction. */
    method CloseBlock(block: nat) returns (ok: bool)
      requires InBlock(block) && !store.aborted
      modifies tree, store
      ensures old(store.faults) <= store.faults && AtRest()
      ensures ok ==> store.committed == old(store.pending)
      ensures !ok ==> store.committed == old(store.committed) && store.faults > old(store.faults)
    {
      ok := store.Commit();
      if !ok {
        Rollback();
      }
    }

    /** The next event of a block, taken out in order inside its transaction. */
    method ProcessOrder(b: Block, orders: seq<Order>, i: nat, ghost from: NetState) returns (outcome: RangeOutcome)
      requires InBlock(b.number) && BlockFits(b, store.height) && !store.aborted
      requires i < |orders| && BlockPartly(from, b, orders, i, net, store.height, StateOf(store.pending, net))
      modifies tree, store
      ensures store.committed == old(store.committed) && Wired() && store.Valid()
      ensures store.Aged()
      ensures outcome.Done? ==>
                && InBlock(b.number) && !store.aborted
                && BlockPartly(from, b, orders, i + 1, net, store.height, StateOf(store.pending, net))
                && OthersKept(old(store.pending), store.pending, net)
      ensures outcome.RolledBack? ==> AtRest()
      ensures outcome.RolledBack? ==> store.aborted || BlockStuck(from, b, orders, i, net, store.height)
      ensures outcome.Messy? ==> Take(b, orders[i]).None?
    {
      var taken := Take(b, orders[i]);
      if taken.None? {
        return Messy;
      }
      ghost var now := StateOf(store.pending, net);
      OrderStep(b, orders, i, from.log, net, store.height);
      TakenFits(b, orders[i], |Pending()|, store.height);
      HistoryLeaves(store.pending, net);
      var ok := ProcessEvent(taken.value, b.number, Leaves(DepositsOf(store.pending, net)));
      if !ok {
        return RolledBack;
      }
      PartlyStep(from, b, orders, i, i + 1, net, store.height, now, StateOf(store.pending, net));
      return Done;
    }

    /** The events of a block, taken out in order inside its transaction. */
    method ProcessOrders(b: Block, orders: seq<Order>) returns (outcome: RangeOutcome)
      requires InBlock(b.number) && BlockFits(b, store.height) && !store.aborted
      modifies tree, store
      ensures store.committed == old(store.committed) && Wired() && store.Valid()
      ensures store.Aged()
      ensures outcome.Done? ==>
                && InBlock(b.number) && !store.aborted
                && BlockPartly(old(StateOf(store.pending, net)), b, orders, |orders|, net, store.height,
                               StateOf(store.pending, net))
                && OthersKept(old(store.pending), store.pending, net)
      ensures outcome.RolledBack? ==> AtRest()
      ensures outcome.RolledBack? && !store.aborted && TakeAll(b, orders).Some? ==>
                ApplyEvents(old(Pending()), TakeAll(b, orders).value, b.number, net, store.height).None?
      ensures outcome.Messy? ==> TakeAll(b, orders).None?
    {
      ghost var from := StateOf(store.pending, net);
      assert orders[..0] == [];
      for i := 0 to |orders|
        invariant InBlock(b.number) && store.committed == old(store.committed) && !store.aborted
        invariant store.Aged()
        invariant BlockPartly(from, b, orders, i, net, store.height, StateOf(store.pending, net))
        invariant OthersKept(old(store.pending), store.pending, net)
      {
        outcome := ProcessOrder(b, orders, i, from);
        if outcome.Messy? {
          MessyTakes(b, orders, i);
          return;
        } else if outcome.RolledBack? {
          if !store.aborted && TakeAll(b, orders).Some? { RejectedPrefix(b, orders, i, from.log, net, store.height); }
          return;
        }
      }
      outcome := Done;
    }

    /**
      One block as one transaction. A committed block adds its row and moves the committed deposits as the
      reference does; otherwise the committed tables are untouched, and the tree is back on them unless an order
      entry pointed outside its bucket. A block is rolled back only if the reference rejects it or a statement
      was refused.
     */
    method ProcessBlock(b: Block, orders: seq<Order>) returns (outcome: RangeOutcome)
      requires AtRest() && BlockFits(b, store.height)
      requires WithinBlock(DepositsOf(store.committed, net), b.number)
      modifies tree, store
      ensures old(store.faults) <= store.faults
      ensures outcome.Done? ==>
                && AtRest()
                && BlockDone(old(Now()), b, orders, net, store.height, Now())
                && WithinBlock(DepositsOf(store.committed, net), b.number)
                && OthersKept(old(store.committed), store.committed, net)
      ensures !outcome.Done? ==> store.committed == old(store.committed) && Wired() && store.Valid()
      ensures outcome.RolledBack? ==> AtRest()
      ensures outcome.RolledBack? && store.faults == old(store.faults) && TakeAll(b, orders).Some? ==>
                ApplyEvents(old(Now()).log, TakeAll(b, orders).value, b.number, net, store.height).None?
      ensures outcome.Messy? ==> TakeAll(b, orders).None?
    {
      var ok := OpenBlock(BlockRow(b.number, b.hash));
      if !ok {
        return RolledBack;
      }
      ghost var from := StateOf(store.pending, net);
      outcome := ProcessOrders(b, orders);
      if outcome.Done? {
        WholeBlock(Now(), from, b, orders, net, store.height, StateOf(store.pending, net));
        ok := CloseBlock(b.number);
        if !ok {
          return RolledBack;
        }
      }
    }

    /**
      processBlockRange: the blocks before the first failing one are committed, and the committed deposits and
      block rows are exactly what the reference makes of them. With order lists that replay, the tree matches the
      committed tables at every exit, and the range stops early only if the reference rejects the next block or a
      statement was refused.
     */
    method ProcessBlockRange(blocks: seq<Block>, order: map<nat, seq<Order>>) returns (outcome: RangeOutcome, n: nat)
      requires AtRest() && AllFit(blocks, store.height) && Ascending(blocks)
      requires blocks != [] ==> WithinBlock(DepositsOf(store.committed, net), blocks[0].number)
      modifies tree, store
      ensures old(store.faults) <= store.faults
      ensures n <= |blocks| && (outcome.Done? <==> n == |blocks|)
      ensures Reached(old(Now()), blocks[..n], order, net, store.height, Now())
      ensures OthersKept(old(store.committed), store.committed, net)
      ensures !outcome.Messy? ==> AtRest()
      ensures Replay(blocks, order).Some? ==> !outcome.Messy?
      ensures outcome.RolledBack? && Replay(blocks, order).Some? && store.faults == old(store.faults) ==>
                ApplyBlocks(old(Now()).log, blocks[..n + 1], order, net, store.height).None?
    {
      n := 0;
      ghost var from := Now();
      assert blocks[..0] == [];
      ReplayAllDefined(blocks, order);
      while n < |blocks|
        invariant n <= |blocks| && AtRest()
        invariant old(store.faults) <= store.faults
        invariant Reached(from, blocks[..n], order, net, store.height, Now())
        invariant OthersKept(old(store.committed), store.committed, net)
        invariant n < |blocks| ==> WithinBlock(DepositsOf(store.committed, net), blocks[n].number)
      {
        ghost var mid := Now();
        outcome := ProcessBlock(blocks[n], OrderAt(order, blocks[n].hash));
        if !outcome.Done? {
          ApplyBlocksStep(from.log, blocks, n, n + 1, order, net, store.height);
          return;
        }
        ReachedStep(from, blocks, n, n + 1, order, net, store.height, mid, Now());
        n := n + 1;
      }
      outcome := Done;
    }

    /**
      resetState: the blocks above a number go, with their deposits; the tree is left on the deposits of the
      remaining blocks. If a statement fails nothing changes, and it returns an error only then.
     */
    method ResetState(number: nat) returns (ok: bool)
      requires AtRest()
      modifies tree, store
      ensures AtRest() && OthersKept(old(store.committed), store.committed, net)
      ensures old(store.faults) <= store.faults
      ensures !ok ==> store.committed == old(store.committed) && store.faults > old(store.faults)
      ensures ok ==> Now() == CutTo(old(Now()), number)
    {
      store.Begin();
      ghost var before := store.committed;
      ok := store.Reset(net, number);
      if !ok {
        Rollback();
        return false;
      }
      AfterReset(before, net, number, store.height, store.nextId);
      var depositCnt := store.GetNumberDeposits(net, number);
      if depositCnt.None? {
        Rollback();
        return false;
      }
      var err := tree.ResetLeaf(depositCnt.value);
      if err.Some? {
        Rollback();
        return false;
      }
      ok := store.Commit();
      if !ok {
        Rollback();
        return false;
      }
    }

    /** The range is asked for from the last synced block on, and that block is dropped from the answer. */
    predicate Overlapping()
      reads this
    {
      synced && !forceSyncChunk
    }

    /** The work is for this network. */
    ghost predicate MyJob(job: Job)
    {
      && job.genesis == genesis && job.force == forceSyncChunk && job.net == net && job.height == store.height
      && job.Fits()
    }

    /**
      One query of the range loop. Whether the last synced block is asked for again and dropped, or the range
      starts after it, what is left to process are the event-bearing blocks after `done`.
     */
    method NextBlocks(last: BlockRow, from: nat, to: nat, job: Job, ghost done: nat) returns (r: Option<seq<Block>>)
      requires MyJob(job) && TipOk(last, job.chain, job.headers, genesis, forceSyncChunk)
      requires last.number <= done <= to <= job.known && from <= to && Quiet(job.chain, last.number, done)
      requires from == if Overlapping() then last.number else done + 1
      ensures r == Some(Slice(job.chain, done + 1, to))
    {
      var blocks := Slice(job.chain, from, to);
      if from == genesis && !forceSyncChunk {
        if |blocks| == 0 || blocks[0].number != genesis {
          blocks := [Block(0, 0, map[])] + blocks;
        }
      } else if from < genesis {
        return None;
      }
      if synced {
        var received: Option<BlockRow> := None;
        ghost var answer := blocks;
        if |blocks| != 0 && !forceSyncChunk {
          received := Some(BlockRow(blocks[0].number, blocks[0].hash));
          blocks := blocks[1..];
        } else if !forceSyncChunk {
          OverlapDropped(last, genesis, to, job.chain, answer);
          return None;
        }
        if Overlapping() { OverlapDropped(last, genesis, to, job.chain, answer); }
        var reorg := CheckReorg(BlocksOf(store.committed, net), last, received, job.headers, genesis, _ => false);
        if reorg.Err? || reorg.value.Some? {
          return None;
        }
      }
      return Some(blocks);
    }

    /** processBlockRange on a range of the chain. */
    method ProcessPiece(blocks: seq<Block>, job: Job, ghost bound: nat, ghost done: nat, ghost to: nat)
      returns (ok: bool, ghost k: nat)
      requires AtRest() && MyJob(job)
      requires bound <= done <= to && blocks == Slice(job.chain, done + 1, to) && AllUpTo(Now().log, bound)
      requires job.Processed(Now(), Below(job.chain, done + 1))
      modifies tree, store
      ensures AtRest() && OthersKept(old(store.committed), store.committed, net)
      ensures old(store.faults) <= store.faults
      ensures job.Processed(Now(), k)
      ensures ok ==> k == Below(job.chain, to + 1)
      ensures ok ==> AllUpTo(Now().log, if blocks == [] then bound else blocks[|blocks| - 1].number)
      ensures ok ==> AllUpTo(Now().log, to)
      ensures !ok ==> store.faults > old(store.faults) || job.RejectedAt(k)
    {
      PieceReady(job.chain, blocks, job.order, store.height, done, to);
      HistoryBlocks(store.committed, net, bound);
      ghost var here := Now();
      var outcome, n := ProcessBlockRange(blocks, job.order);
      k := Below(job.chain, done + 1) + n;
      PieceReached(job, here, Now(), blocks, done, to, n, k);
      ok := outcome.Done?;
      if ok {
        assert blocks[..n] == blocks;
        PieceBounded(here.log, job.chain, blocks, job.order, net, store.height, bound, done, to);
      } else if store.faults == old(store.faults) {
        PieceRejected(job, here, blocks, done, to, n, k);
      }
    }

    /** One turn of the range loop: the blocks after `done` up to `to` are fetched and processed. */
    method SyncRange(last: BlockRow, from: nat, to: nat, job: Job, ghost done: nat)
      returns (last': BlockRow, ok: bool, ghost k: nat)
      requires AtRest() && MyJob(job) && job.SyncedTo(Now(), last, done)
      requires done <= to <= job.known && from <= to
      requires from == if Overlapping() then last.number else done + 1
      modifies tree, store
      ensures AtRest() && OthersKept(old(store.committed), store.committed, net)
      ensures old(store.faults) <= store.faults
      ensures ok ==> job.SyncedTo(Now(), last', to)
      ensures job.Processed(Now(), k)
      ensures !ok ==> store.faults > old(store.faults) || job.RejectedAt(k)
    {
      var blocks := NextBlocks(last, from, to, job, done);
      ok, k := ProcessPiece(blocks.value, job, last.number, done, to);
      last' := last;
      if !ok {
        return;
      }
      if |blocks.value| > 0 && !forceSyncChunk {
        var b := blocks.value[|blocks.value| - 1];
        last' := BlockRow(b.number, b.hash);
      } else if forceSyncChunk {
        last' := BlockRow(to, job.headers[to]);
      }
      RangeDone(job, blocks.value, last, done, to, last');
    }

    /** A range to ask for goes on from what is done. */
    ghost predicate Asks(last: BlockRow, from: nat, to: nat, done: nat)
      reads this
    {
      to > done && from == if Overlapping() then last.number else done + 1
    }

    /** The range to ask for, cut off at the head; reaching the head for the first time makes the network synced. */
    method ClipRange(last: BlockRow, from: nat, to: nat, known: nat, ghost done: nat) returns (from': nat, to': nat)
      requires Asks(last, from, to, done) && last.number <= done
      modifies this`synced
      ensures to' == (if to > known then known else to) && from' == if Overlapping() then last.number else done + 1
      ensures old(synced) || to > known ==> synced
      ensures from' > to' ==> to > known && done >= known
    {
      from', to' := from, to;
      if to' > known {
        to' := known;
        if !synced {
          if !forceSyncChunk {
            from' := last.number;
          }
          synced := true;
        }
      }
    }

    /** Where the next range starts and ends, below the head. */
    method NextRange(last: BlockRow, to: nat) returns (from': nat, to': nat)
      requires chunkSize >= 1 && last.number <= to
      ensures Asks(last, from', to', to)
    {
      if !synced || forceSyncChunk {
        from' := to + 1;
        to' := from' + chunkSize;
      } else {
        from' := last.number;
        to' := to + chunkSize;
      }
    }

    /** The range loop, until the head is reached or a range fails. */
    method RangeLoop(start: BlockRow, job: Job) returns (last: BlockRow, ok: bool, ghost k: nat, ghost done: nat)
      requires AtRest() && chunkSize >= 1 && MyJob(job) && start.number == job.start &&
                job.SyncedTo(Now(), start, job.start)
      modifies this`synced, tree, store
      ensures AtRest() && OthersKept(old(store.committed), store.committed, net)
      ensures old(store.faults) <= store.faults
      ensures old(synced) || ok ==> synced
      ensures ok ==> done >= job.known && job.SyncedTo(Now(), last, done)
      ensures !ok ==> job.Processed(Now(), k)
      ensures !ok ==> store.faults > old(store.faults) || job.RejectedAt(k)
    {
      last, done, k := start, start.number, 0;
      var from: nat, to: nat := NextRange(last, last.number);
      while true
        invariant AtRest() && job.SyncedTo(Now(), last, done)
        invariant OthersKept(old(store.committed), store.committed, net)
        invariant old(store.faults) <= store.faults
        invariant old(synced) ==> synced
        invariant done == job.start || done < job.known
        invariant Asks(last, from, to, done)
        decreases job.known - done
      {
        from, to := ClipRange(last, from, to, job.known, done);
        if from > to {
          return last, true, k, done;
        }
        last, ok, k := SyncRange(last, from, to, job, done);
        if !ok {
          return;
        }
        done := to;
        if job.known <= to {
          synced := true;
          return;
        }
        from, to := NextRange(last, to);
      }
    }

    /**
      syncBlocks on a fixed chain, in any of the four modes: it ends, and unless it fails exactly the
      event-bearing blocks after the starting point have been processed, in order and once each, and the
      network is synced. It fails only if a statement was refused, or at a block that the reference rejects;
      then the blocks before have been processed, and the tree matches the committed tables.
     */
    method SyncBlocks(start: BlockRow, job: Job) returns (last: BlockRow, ok: bool, ghost k: nat)
      requires AtRest() && chunkSize >= 1
      requires MyJob(job) && job.start == start.number && job.origin == Now()
      requires TipOk(start, job.chain, job.headers, genesis, forceSyncChunk) && AllUpTo(Now().log, start.number)
      modifies this`synced, tree, store
      ensures AtRest() && OthersKept(old(store.committed), store.committed, net)
      ensures old(store.faults) <= store.faults
      ensures job.Processed(Now(), k)
      ensures ok ==> Reached(job.origin, After(job.chain, job.start), job.order, net, store.height, Now())
      ensures ok ==> TipOk(last, job.chain, job.headers, genesis, forceSyncChunk) && AllUpTo(Now().log, last.number)
      ensures ok ==> After(job.chain, last.number) == []
      ensures old(synced) || ok ==> synced
      ensures !ok ==> store.faults > old(store.faults) || job.RejectedAt(k)
    {
      ghost var done;
      JobStarts(job, start);
      last, ok, k, done := RangeLoop(start, job);
      if ok {
        AtHead(job, Now(), last, done);
        k := |job.chain|;
      }
    }

    /**
      The head of syncBlocks: look for a reorganisation and undo it. Nothing is stored above the block
      returned, and that block is sound. For the stored tip there is a fallback exactly if the tip is not sound,
      and it is the highest sound stored block, or genesis when there is none.
     */
    method FallBack(latest: BlockRow, headers: map<nat, nat>, queryFails: nat -> bool)
      returns (fallback: Option<BlockRow>, ok: bool)
      requires AtRest()
      modifies tree, store
      ensures AtRest() && OthersKept(old(store.committed), store.committed, net)
      ensures old(store.faults) <= store.faults
      ensures !ok || fallback.None? ==> store.committed == old(store.committed)
      ensures !ok ==> store.faults > old(store.faults) || !Answered(old(Now()).rows, latest, headers, queryFails)
      ensures !ok && store.faults == old(store.faults) ==>
                || latest.number !in headers || (exists b :: b in old(Now()).rows && b.number !in headers)
                || exists depth :: 1 <= depth <= |old(Now()).rows| + 1 && queryFails(depth)
      ensures ok ==> fallback ==
                     if Sound(latest, headers, genesis) then None
                     else Fallback(old(Now()).rows, latest, headers, genesis)
      ensures ok && fallback.Some? ==>
                Sound(fallback.value, headers, genesis) && Now() == CutTo(old(Now()), fallback.value.number)
      ensures var rows := old(Now()).rows;
              ok && rows != [] && latest == rows[|rows| - 1] ==>
                && (fallback.None? <==> Sound(latest, headers, genesis))
                && (fallback.Some? ==> RightFallback(fallback.value, rows, headers, genesis))
    {
      ghost var rows := Now().rows;
      var found := CheckReorg(BlocksOf(store.committed, net), latest, None, headers, genesis, queryFails);
      if found.Err? {
        return None, false;
      }
      fallback := found.value;
      if !Sound(latest, headers, genesis) && rows != [] && latest == rows[|rows| - 1] {
        StoredTipFallback(rows, headers, genesis);
      }
      if fallback.None? {
        return None, true;
      }
      FallbackIsSound(rows, latest, headers, genesis);
      ok := ResetState(fallback.value.number);
    }

    /**
      A rollback whose count query failed unnoticed leaves one deposit in memory where two or more are stored.
      No wrong root comes of it: the next event that the stored deposits accept is refused, and the rollback that
      follows restores the memory; or it does to the stored deposits just what it should. A deposit is always refused.
     */
    method EventAfterSilentRollback(e: Event, b: BlockRow) returns (ok: bool)
      requires AtRest() && |Now().log| >= 2 && WithinBlock(DepositsOf(store.committed, net), b.number)
      requires ApplyEvent(Now().log, e, b.number, net, store.height).Some?
      modifies tree, store
      ensures !ok ==> AtRest() && store.committed == old(store.committed)
      ensures ok ==> !e.Deposit? && ApplyEvent(old(Now()).log, e, b.number, net, store.height) == Some(Now().log)
      ensures ok ==> store.Valid() && (AtRest() || Now().log == old(Now()).log)
    {
      ghost var s := Leaves(DepositsOf(store.committed, net));
      RebuildTree(true);
      store.Begin();
      ok := store.AddBlock(net, b.number, b.hash);
      if !ok {
        Rollback();
        return;
      }
      InsertBlockOk(store.committed, net, b, store.height);
      ok := ProcessEvent(e, b.number, s[..1]);
      if ok {
        ok := store.Commit();
        if !ok {
          Rollback();
        }
      }
    }

    /**
      Any run of block ranges, reorganisations, resets and restarts, whatever fails on the way: every step does
      what it is for to what is stored, or leaves a part of it undone because a statement was refused or the
      reference rejects a block; and the memory and all stored roots and nodes are those of the stored deposits.
     */
    method Run(commands: seq<Command>) returns (ghost trace: seq<Moment>)
      requires AtRest() && forall i :: 0 <= i < |commands| ==> Replayable(commands[i], store.height)
      modifies tree, store
      ensures AtRest() && OthersKept(old(store.committed), store.committed, net)
      ensures |trace| == |commands| + 1 && AllFollow(commands, trace, net, store.height, genesis)
      ensures trace[0] == Moment(old(Now()), old(store.faults)) && trace[|commands|] == Moment(Now(), store.faults)
    {
      trace := [Moment(Now(), store.faults)];
      for i := 0 to |commands|
        invariant AtRest() && OthersKept(old(store.committed), store.committed, net)
        invariant |trace| == i + 1 && AllFollow(commands, trace, net, store.height, genesis)
        invariant trace[0] == Moment(old(Now()), old(store.faults)) && trace[i] == Moment(Now(), store.faults)
      {
        Perform(commands[i]);
        FollowSnoc(commands, trace, Moment(Now(), store.faults), net, store.height, genesis);
        trace := trace + [Moment(Now(), store.faults)];
      }
    }

    method Perform(c: Command)
      requires AtRest() && Replayable(c, store.height)
      modifies tree, store
      ensures AtRest() && OthersKept(old(store.committed), store.committed, net)
      ensures Follows(c, Moment(old(Now()), old(store.faults)), Moment(Now(), store.faults), net, store.height, genesis)
    {
      match c {
        case Range(blocks, order) =>
          if |blocks| == 0 || WithinBlock(DepositsOf(store.committed, net), blocks[0].number) {
            ghost var m := Moment(Now(), store.faults);
            var _, n := ProcessBlockRange(blocks, order);
            WithinIsUpTo(old(store.committed), net, if blocks == [] then 0 else blocks[0].number);
            assert RangeStep(blocks, order, m, Moment(Now(), store.faults), net, store.height, n);
          } else {
            WithinIsUpTo(store.committed, net, blocks[0].number);
          }
        case Reorganised(latest, headers, queryFails) =>
          var _, _ := FallBack(latest, headers, queryFails);
        case ResetTo(number) => var _ := ResetState(number);
        case Restart => Rollback();
      }
    }
  }

  /** One thing a synchronizer may be made to do. */
  datatype Command =
    | Range(blocks: seq<Block>, order: map<nat, seq<Order>>)
    | Reorganised(latest: BlockRow, headers: map<nat, nat>, queryFails: nat -> bool)
    | ResetTo(number: nat)
    | Restart

  /** A range as a query answers it: ascending, replayable, and with room for its deposits. */
  ghost predicate Replayable(c: Command, height: nat)
  {
    c.Range? ==> AllFit(c.blocks, height) && Ascending(c.blocks) && Replay(c.blocks, c.order).Some?
  }

  /** What is stored at some time of a run, and how many statements have been refused until then. */
  datatype Moment = Moment(state: NetState, faults: nat)

  /** The first n blocks of a range were processed, and all of it unless a statement or the next block was refused. */
  ghost predicate RangeStep(blocks: seq<Block>, order: map<nat, seq<Order>>, m: Moment, m': Moment, net: Network,
                            height: nat, n: nat)
  {
    && n <= |blocks|
    && Reached(m.state, blocks[..n], order, net, height, m'.state)
    && (n < |blocks| && m'.faults == m.faults ==>
          ApplyBlocks(m.state.log, blocks[..n + 1], order, net, height).None?)
  }

  /** What a command does between two moments. A range that starts below a stored deposit is not taken up. */
  ghost predicate Follows(c: Command, m: Moment, m': Moment, net: Network, height: nat, genesis: nat)
  {
    && m.faults <= m'.faults
    && match c
       case Range(blocks, order) =>
         if blocks == [] || AllUpTo(m.state.log, blocks[0].number)
         then exists n :: RangeStep(blocks, order, m, m', net, height, n)
         else m' == m
       case Reorganised(latest, headers, queryFails) =>
         var f := if Sound(latest, headers, genesis) then None else Fallback(m.state.rows, latest, headers, genesis);
         var done := if f.Some? then CutTo(m.state, f.value.number) else m.state;
         m'.state == done ||
         (m'.state == m.state && (m'.faults > m.faults || !Answered(m.state.rows, latest, headers, queryFails)))
       case ResetTo(number) => m'.state == CutTo(m.state, number) || (m'.state == m.state && m'.faults > m.faults)
       case Restart => m'.state == m.state
  }

  /** Every step of a trace is what its command does. */
  ghost predicate AllFollow(commands: seq<Command>, trace: seq<Moment>, net: Network, height: nat, genesis: nat)
  {
    |trace| <= |commands| + 1 &&
    forall i :: 0 <= i < |trace| - 1 ==> Follows(commands[i], trace[i], trace[i + 1], net, height, genesis)
  }

  lemma FollowSnoc(commands: seq<Command>, trace: seq<Moment>, m: Moment, net: Network, height: nat, genesis: nat)
    requires AllFollow(commands, trace, net, height, genesis) && 0 < |trace| <= |commands|
    requires Follows(commands[|trace| - 1], trace[|trace| - 1], m, net, height, genesis)
    ensures AllFollow(commands, trace + [m], net, height, genesis)
  {
  }

  /** Without a refused statement every command does all that it is for. */
  lemma FaultlessStep(c: Command, m: Moment, m': Moment, net: Network, height: nat, genesis: nat)
    requires Follows(c, m, m', net, height, genesis) && m'.faults == m.faults
    ensures c.ResetTo? ==> m'.state == CutTo(m.state, c.number)
    ensures c.Restart? ==> m'.state == m.state
    ensures c.Range? && (c.blocks == [] || AllUpTo(m.state.log, c.blocks[0].number)) &&
            ApplyBlocks(m.state.log, c.blocks, c.order, net, height).Some? ==>
              Reached(m.state, c.blocks, c.order, net, height, m'.state)
    ensures c.Reorganised? && m.state.rows != [] && BlocksOk(m.state.rows) &&
            c.latest == m.state.rows[|m.state.rows| - 1] &&
            Answered(m.state.rows, c.latest, c.headers, c.queryFails) ==>
              if Sound(c.latest, c.headers, genesis) then m'.state == m.state
              else exists f ::
                     RightFallback(f, m.state.rows, c.headers, genesis) && m'.state == CutTo(m.state, f.number)
  {
    match c
    case Range(blocks, order) =>
      if (blocks == [] || AllUpTo(m.state.log, blocks[0].number)) &&
         ApplyBlocks(m.state.log, blocks, order, net, height).Some? {
        var n: nat :| RangeStep(blocks, order, m, m', net, height, n);
        if n < |blocks| { NoneStaysNone(m.state.log, blocks, n + 1, order, net, height); }
        assert blocks[..|blocks|] == blocks;
      }
    case Reorganised(latest, headers, queryFails) =>
      if m.state.rows != [] && BlocksOk(m.state.rows) && latest == m.state.rows[|m.state.rows| - 1] &&
         !Sound(latest, headers, genesis) {
        StoredTipFallback(m.state.rows, headers, genesis);
      }
    case ResetTo(_) =>
    case Restart =>
  }

  /** Blocks that are rejected stay so whatever follows. */
  lemma {:induction false} NoneStaysNone(log: seq<Stored>, blocks: seq<Block>, n: nat, order: map<nat, seq<Order>>,
                                         net: Network, height: nat)
    requires n <= |blocks| && ApplyBlocks(log, blocks[..n], order, net, height).None?
    ensures ApplyBlocks(log, blocks, order, net, height).None?
  {
    if n < |blocks| {
      var m := |blocks| - 1;
      assert blocks[..m][..n] == blocks[..n];
      NoneStaysNone(log, blocks[..m], n, order, net, height);
    } else {
      assert blocks[..n] == blocks;
    }
  }

  lemma WithinIsUpTo(t: Tables, net: Network, number: nat)
    ensures WithinBlock(DepositsOf(t, net), number) <==> AllUpTo(History(t, net), number)
  {
    if AllUpTo(History(t, net), number) {
      HistoryBlocks(t, net, number);
    }
  }

  lemma WithBlocksStep(rows: seq<BlockRow>, blocks: seq<Block>, n: nat, n': nat)
    requires n < |blocks| && n' == n + 1
    ensures WithBlocks(rows, blocks[..n']) ==
            WithBlock(WithBlocks(rows, blocks[..n]), BlockRow(blocks[n].number, blocks[n].hash))
  {
    assert blocks[..n'][..n] == blocks[..n];
  }

  lemma {:induction false} WithBlocksConcat(rows: seq<BlockRow>, a: seq<Block>, b: seq<Block>)
    ensures WithBlocks(rows, a + b) == WithBlocks(WithBlocks(rows, a), b)
  {
    if b == [] {
      assert a + b == a;
    } else {
      assert (a + b)[..|a + b| - 1] == a + b[..|b| - 1];
      WithBlocksConcat(rows, a, b[..|b| - 1]);
    }
  }

  lemma NotedStep(rows: seq<EventRow>, blocks: seq<Block>, n: nat, n': nat, order: map<nat, seq<Order>>)
    requires n < |blocks| && n' == n + 1
    ensures WithNotes(rows, blocks[..n'], order) ==
            WithNotes(rows, blocks[..n], order) + NotesIn(blocks[n], OrderAt(order, blocks[n].hash))
  {
    assert blocks[..n'][..n] == blocks[..n];
  }

  lemma {:induction false} NotedConcat(rows: seq<EventRow>, a: seq<Block>, b: seq<Block>, order: map<nat, seq<Order>>)
    ensures WithNotes(rows, a + b, order) == WithNotes(WithNotes(rows, a, order), b, order)
  {
    if b == [] {
      assert a + b == a;
    } else {
      assert (a + b)[..|a + b| - 1] == a + b[..|b| - 1];
      NotedConcat(rows, a, b[..|b| - 1], order);
    }
  }

  /** One more block. */
  lemma ReachedStep(from: NetState, blocks: seq<Block>, n: nat, n': nat, order: map<nat, seq<Order>>, net: Network,
                    height: nat, mid: NetState, to: NetState)
    requires n < |blocks| && n' == n + 1 && Reached(from, blocks[..n], order, net, height, mid)
    requires BlockDone(mid, blocks[n], OrderAt(order, blocks[n].hash), net, height, to)
    ensures Reached(from, blocks[..n'], order, net, height, to)
  {
    ApplyBlocksStep(from.log, blocks, n, n', order, net, height);
    WithBlocksStep(from.rows, blocks, n, n');
    NotedStep(from.events, blocks, n, n', order);
  }

  lemma ReachedConcat(from: NetState, a: seq<Block>, mid: NetState, b: seq<Block>, order: map<nat, seq<Order>>,
                      net: Network, height: nat, to: NetState)
    requires Reached(from, a, order, net, height, mid) && Reached(mid, b, order, net, height, to)
    ensures Reached(from, a + b, order, net, height, to)
  {
    ApplyBlocksConcat(from.log, a, b, order, net, height);
    WithBlocksConcat(from.rows, a, b);
    NotedConcat(from.events, a, b, order);
  }

  /** Processing the first n blocks of a range, in terms of the chain. */
  lemma PieceReached(job: Job, here: NetState, now: NetState, blocks: seq<Block>, done: nat, to: nat, n: nat, k: nat)
    requires Ascending(job.chain) && done <= to && blocks == Slice(job.chain, done + 1, to)
    requires k == Below(job.chain, done + 1) + n && n <= |blocks|
    requires job.Processed(here, Below(job.chain, done + 1))
    requires Reached(here, blocks[..n], job.order, job.net, job.height, now)
    ensures job.Processed(now, k)
    ensures n == |blocks| ==> k == Below(job.chain, to + 1)
  {
    var chain, lo, hi := job.chain, Below(job.chain, job.start + 1), Below(job.chain, done + 1);
    Continues(chain, blocks, done, to, lo, hi, n, k);
    ReachedConcat(job.origin, chain[lo..hi], here, blocks[..n], job.order, job.net, job.height, now);
  }

  lemma RejectedConcat(origin: NetState, a: seq<Block>, b: seq<Block>, order: map<nat, seq<Order>>, net: Network,
                       height: nat, here: NetState)
    requires Reached(origin, a, order, net, height, here) && ApplyBlocks(here.log, b, order, net, height).None?
    ensures ApplyBlocks(origin.log, a + b, order, net, height).None?
  {
    ApplyBlocksConcat(origin.log, a, b, order, net, height);
  }

  /** A block of a range that is rejected, in terms of the chain. */
  lemma PieceRejected(job: Job, here: NetState, blocks: seq<Block>, done: nat, to: nat, n: nat, k: nat)
    requires Ascending(job.chain) && done <= to && blocks == Slice(job.chain, done + 1, to)
    requires k == Below(job.chain, done + 1) + n && n < |blocks|
    requires job.Processed(here, Below(job.chain, done + 1))
    requires ApplyBlocks(here.log, blocks[..n + 1], job.order, job.net, job.height).None?
    ensures job.RejectedAt(k)
  {
    var chain, lo, hi := job.chain, Below(job.chain, job.start + 1), Below(job.chain, done + 1);
    Continues(chain, blocks, done, to, lo, hi, n + 1, k + 1);
    RejectedConcat(job.origin, chain[lo..hi], blocks[..n + 1], job.order, job.net, job.height, here);
  }

  /** The rows after processing blocks: those of before, in order, and the blocks, each once per hash. */
  lemma {:induction false} StoredRows(rows: seq<BlockRow>, blocks: seq<Block>)
    requires BlocksOk(rows)
    ensures BlocksOk(WithBlocks(rows, blocks))
    ensures forall r :: r in rows ==> r in WithBlocks(rows, blocks)
    ensures forall r :: r in WithBlocks(rows, blocks) ==>
              r in rows || exists b :: b in blocks && r == BlockRow(b.number, b.hash)
    ensures forall b :: b in blocks ==> exists r :: r in WithBlocks(rows, blocks) && r.hash == b.hash
  {
    if blocks != [] {
      var n := |blocks| - 1;
      var front, b := WithBlocks(rows, blocks[..n]), blocks[n];
      StoredRows(rows, blocks[..n]);
      assert blocks == blocks[..n] + [b];
      WithBlockOk(front, BlockRow(b.number, b.hash));
    }
  }

  /** The tables after a deposit. */
  lemma DepositAdded(t: Tables, net: Network, row: DepositRow, height: nat)
    requires TablesOk(t, height) && FreshFrom(t, row.id) && WithinBlock(DepositsOf(t, net), row.block)
    requires row.count == |DepositsOf(t, net)| < Capacity(height)
    ensures var t' := WithLeaf(t, net, row, height);
            && TablesOk(t', height) && FreshFrom(t', row.id + 1) && WithinBlock(DepositsOf(t', net), row.block)
            && DepositsOf(t', net) == DepositsOf(t, net) + [row]
            && History(t', net) == History(t, net) + [Stored(row.leaf, row.block)]
            && OnlyDeposits(t, t', net)
  {
    WithLeafOk(t, net, row, height);
  }

  /** The tables after the blocks above a number went. */
  lemma AfterReset(t: Tables, net: Network, number: nat, height: nat, nextId: nat)
    requires TablesOk(t, height) && FreshFrom(t, nextId)
    ensures var t' := ResetBlocksTable(t, net, number);
            var kept := DepositsOf(t', net);
            && TablesOk(t', height) && FreshFrom(t', nextId)
            && BlocksOf(t', net) == NumberUpTo(BlocksOf(t, net), number)
            && EventsOf(t', net) == EventsUpTo(EventsOf(t, net), number)
            && OthersKept(t, t', net)
            && NumberDeposits(kept, number) == |kept| && Leaves(kept)[..|kept|] == Leaves(kept)
            && History(t', net) == UpTo(History(t, net), number)
  {
    var t' := ResetBlocksTable(t, net, number);
    ResetBlocksOk(t, net, number, height, nextId);
    ResetKeepsOthers(t, net, number);
    assert TreeOk(t', net, height);
    KeptBelow(DepositsOf(t, net), number);
    NumberDepositsAll(DepositsOf(t', net), number);
    HistoryUpTo(DepositsOf(t, net), number);
  }

  lemma ResetKeepsOthers(t: Tables, net: Network, number: nat)
    ensures OthersKept(t, ResetBlocksTable(t, net, number), net)
  {
  }

  lemma {:induction false} KeptBelow(d: seq<DepositRow>, number: nat)
    ensures WithinBlock(BlockUpTo(d, number), number)
  {
    if d != [] { KeptBelow(d[1..], number); }
  }

  /** The answer to a query from a number on; an empty genesis is stood in for. */
  function Answer(chain: seq<Block>, number: nat, genesis: nat, to: nat): seq<Block>
    requires Ascending(chain) && number <= to
  {
    var s := Slice(chain, number, to);
    if number == genesis && (|s| == 0 || s[0].number != genesis) then [Block(0, 0, map[])] + s else s
  }

  lemma OverlapOwn(chain: seq<Block>, b: Block, genesis: nat, to: nat)
    requires Ascending(chain) && b in chain && b.number <= to
    ensures Answer(chain, b.number, genesis, to) == [b] + Slice(chain, b.number + 1, to)
  {
    SliceFromOwn(chain, b, to);
  }

  lemma OverlapQuiet(chain: seq<Block>, genesis: nat, to: nat)
    requires Ascending(chain) && genesis <= to && forall b :: b in chain ==> b.number != genesis
    ensures Answer(chain, genesis, genesis, to) == [Block(0, 0, map[])] + Slice(chain, genesis + 1, to)
  {
    SliceFromQuiet(chain, genesis, to);
  }

  /** The answer to an overlapping query: the last synced block, or a stand-in for an empty genesis, then the rest. */
  lemma OverlapDropped(last: BlockRow, genesis: nat, to: nat, chain: seq<Block>, answer: seq<Block>)
    requires Ascending(chain) && genesis <= last.number <= to
    requires last.number > genesis ==> exists b :: b in chain && b.number == last.number && b.hash == last.hash
    requires answer == Answer(chain, last.number, genesis, to)
    ensures answer != [] && answer[1..] == Slice(chain, last.number + 1, to)
    ensures last.number > genesis ==> answer[0].hash == last.hash
  {
    if last.number > genesis {
      var b :| b in chain && b.number == last.number && b.hash == last.hash;
      OverlapOwn(chain, b, genesis, to);
    } else if b :| b in chain && b.number == genesis {
      OverlapOwn(chain, b, genesis, to);
    } else {
      OverlapQuiet(chain, genesis, to);
    }
  }

  /** After the last block of a range it is quiet up to the range's end. */
  lemma LastOfSlice(chain: seq<Block>, done: nat, to: nat)
    requires Ascending(chain) && done <= to && Slice(chain, done + 1, to) != []
    ensures var s := Slice(chain, done + 1, to);
            var b := s[|s| - 1];
            b in chain && done < b.number <= to && Quiet(chain, b.number, to)
  {
    BelowMonotone(chain, done + 1, to + 1);
    var top := Below(chain, to + 1) - 1;
    var b := chain[top];
    assert b == Slice(chain, done + 1, to)[|Slice(chain, done + 1, to)| - 1];
    BelowOwn(chain, b);
    var own := Below(chain, b.number);
    forall i | 0 <= i < |chain| && chain[i].number == b.number
      ensures i == top
    {
    }
  }

  /** Every deposit lies in a block up to a number. */
  ghost predicate AllUpTo(log: seq<Stored>, number: nat)
  {
    forall i :: 0 <= i < |log| ==> log[i].block <= number
  }

  /** Processing a range leaves every deposit at or below its last block, and below its end. */
  lemma PieceBounded(log: seq<Stored>, chain: seq<Block>, blocks: seq<Block>, order: map<nat, seq<Order>>,
                     net: Network, height: nat, bound: nat, done: nat, to: nat)
    requires Ascending(chain) && bound <= done <= to && blocks == Slice(chain, done + 1, to)
    requires AllUpTo(log, bound) && ApplyBlocks(log, blocks, order, net, height).Some?
    ensures AllUpTo(ApplyBlocks(log, blocks, order, net, height).value,
                    if blocks == [] then bound else blocks[|blocks| - 1].number)
    ensures AllUpTo(ApplyBlocks(log, blocks, order, net, height).value, to)
  {
    var top := if blocks == [] then bound else blocks[|blocks| - 1].number;
    TopOfPiece(chain, blocks, bound, done, to, top);
    AllUpToWeaken(log, bound, top);
    ApplyBlocksBounded(log, blocks, order, net, height, top);
    AllUpToWeaken(ApplyBlocks(log, blocks, order, net, height).value, top, to);
  }

  lemma ApplyBlocksStep(log: seq<Stored>, blocks: seq<Block>, n: nat, n': nat, order: map<nat, seq<Order>>,
                        net: Network, height: nat)
    requires n < |blocks| && n' == n + 1
    ensures ApplyBlocks(log, blocks[..n'], order, net, height) ==
            match (ApplyBlocks(log, blocks[..n], order, net, height),
                   TakeAll(blocks[n], OrderAt(order, blocks[n].hash)))
            case (Some(front), Some(events)) => ApplyEvents(front, events, blocks[n].number, net, height)
            case _ => None
  {
    assert blocks[..n'][..n] == blocks[..n];
  }

  lemma ReplayAllDefined(blocks: seq<Block>, order: map<nat, seq<Order>>)
    ensures Replay(blocks, order).Some? ==>
              forall i :: 0 <= i < |blocks| ==> TakeAll(blocks[i], OrderAt(order, blocks[i].hash)).Some?
  {
    if Replay(blocks, order).Some? {
      forall i | 0 <= i < |blocks|
        ensures TakeAll(blocks[i], OrderAt(order, blocks[i].hash)).Some?
      {
        ReplayDefined(blocks, order, i);
      }
    }
  }

  lemma AllUpToWeaken(log: seq<Stored>, a: nat, b: nat)
    requires AllUpTo(log, a) && a <= b
    ensures AllUpTo(log, b)
  {
  }

  lemma LastIsHighest(blocks: seq<Block>)
    requires Ascending(blocks)
    ensures forall i :: 0 <= i < |blocks| ==> blocks[i].number <= blocks[|blocks| - 1].number
  {
  }

  lemma HistoryBlocks(t: Tables, net: Network, number: nat)
    requires AllUpTo(History(t, net), number)
    ensures WithinBlock(DepositsOf(t, net), number)
  {
    var d := DepositsOf(t, net);
    forall i | 0 <= i < |d|
      ensures d[i].block <= number
    {
      assert History(t, net)[i].block == d[i].block;
    }
  }

  lemma {:induction false} ApplyBlocksConcat(log: seq<Stored>, a: seq<Block>, b: seq<Block>,
                                             order: map<nat, seq<Order>>, net: Network, height: nat)
    requires ApplyBlocks(log, a, order, net, height).Some?
    ensures ApplyBlocks(log, a + b, order, net, height) ==
            ApplyBlocks(ApplyBlocks(log, a, order, net, height).value, b, order, net, height)
  {
    if b == [] {
      assert a + b == a;
    } else {
      var m := |b| - 1;
      assert (a + b)[..|a + b| - 1] == a + b[..m];
      ApplyBlocksConcat(log, a, b[..m], order, net, height);
    }
  }

  lemma {:induction false} ApplyEventsBounded(log: seq<Stored>, events: seq<Event>, block: nat, net: Network,
                                              height: nat, bound: nat)
    requires AllUpTo(log, bound) && block <= bound && ApplyEvents(log, events, block, net, height).Some?
    ensures AllUpTo(ApplyEvents(log, events, block, net, height).value, bound)
  {
    if events != [] { ApplyEventsBounded(log, events[..|events| - 1], block, net, height, bound); }
  }

  lemma {:induction false} ApplyBlocksBounded(log: seq<Stored>, blocks: seq<Block>, order: map<nat, seq<Order>>,
                                              net: Network, height: nat, bound: nat)
    requires AllUpTo(log, bound) && (forall i :: 0 <= i < |blocks| ==> blocks[i].number <= bound)
    requires ApplyBlocks(log, blocks, order, net, height).Some?
    ensures AllUpTo(ApplyBlocks(log, blocks, order, net, height).value, bound)
  {
    if blocks != [] {
      var m := |blocks| - 1;
      ApplyBlocksBounded(log, blocks[..m], order, net, height, bound);
      var front := ApplyBlocks(log, blocks[..m], order, net, height).value;
      ApplyEventsBounded(front, TakeAll(blocks[m], OrderAt(order, blocks[m].hash)).value, blocks[m].number, net,
          height, bound);
    }
  }

  /** The last block of a range is its highest, and within the range. */
  lemma TopOfPiece(chain: seq<Block>, blocks: seq<Block>, bound: nat, done: nat, to: nat, top: nat)
    requires Ascending(chain) && bound <= done <= to && blocks == Slice(chain, done + 1, to)
    requires top == if blocks == [] then bound else blocks[|blocks| - 1].number
    ensures bound <= top <= to && forall i :: 0 <= i < |blocks| ==> blocks[i].number <= top
  {
    SliceMembers(chain, done + 1, to);
    SliceAscending(chain, done + 1, to);
    if blocks != [] { assert blocks[|blocks| - 1] in blocks; }
    LastIsHighest(blocks);
  }

  lemma SomeFit(chain: seq<Block>, blocks: seq<Block>, height: nat)
    requires AllFit(chain, height) && forall b :: b in blocks ==> b in chain
    ensures AllFit(blocks, height)
  {
    forall i | 0 <= i < |blocks|
      ensures BlockFits(blocks[i], height)
    {
      assert blocks[i] in blocks;
      var j :| 0 <= j < |chain| && chain[j] == blocks[i];
    }
  }

  /** A range of the chain is fit to be processed: it ascends, fits and replays, and lies above `done`. */
  lemma PieceReady(chain: seq<Block>, blocks: seq<Block>, order: map<nat, seq<Order>>, height: nat, done: nat, to: nat)
    requires Ascending(chain) && done <= to && blocks == Slice(chain, done + 1, to)
    requires AllFit(chain, height) && Replay(chain, order).Some?
    ensures Ascending(blocks) && AllFit(blocks, height) && Replay(blocks, order).Some?
    ensures blocks != [] ==> blocks[0].number > done
  {
    SliceMembers(chain, done + 1, to);
    SliceAscending(chain, done + 1, to);
    SliceReplays(chain, order, blocks);
    SomeFit(chain, blocks, height);
    if blocks != [] { assert blocks[0] in blocks; }
  }

  /** Any blocks of a chain that replays, replay. */
  lemma SliceReplays(chain: seq<Block>, order: map<nat, seq<Order>>, blocks: seq<Block>)
    requires Replay(chain, order).Some? && forall b :: b in blocks ==> b in chain
    ensures Replay(blocks, order).Some?
  {
    forall b | b in blocks
      ensures TakeAll(b, OrderAt(order, b.hash)).Some?
    {
      var i :| 0 <= i < |chain| && chain[i] == b;
      ReplayDefined(chain, order, i);
    }
    AllDefinedReplays(blocks, order);
  }

  lemma {:induction false} AllDefinedReplays(blocks: seq<Block>, order: map<nat, seq<Order>>)
    requires forall b :: b in blocks ==> TakeAll(b, OrderAt(order, b.hash)).Some?
    ensures Replay(blocks, order).Some?
  {
    if blocks != [] {
      assert blocks[|blocks| - 1] in blocks;
      AllDefinedReplays(blocks[..|blocks| - 1], order);
    }
  }

  lemma TakenFits(b: Block, o: Order, n: nat, height: nat)
    requires BlockFits(b, height) && Take(b, o).Some?
    ensures RoomFor(Take(b, o).value, n, height)
  {
    assert EventFits(b.buckets[o.name][o.pos], height);
  }

  /** One more order entry: its event comes last. */
  lemma OrderStep(b: Block, orders: seq<Order>, i: nat, log: seq<Stored>, net: Network, height: nat)
    requires i < |orders| && TakeAll(b, orders[..i]).Some? && Take(b, orders[i]).Some?
    ensures TakeAll(b, orders[..i + 1]).Some?
    ensures ApplyEvents(log, TakeAll(b, orders[..i + 1]).value, b.number, net, height) ==
            match ApplyEvents(log, TakeAll(b, orders[..i]).value, b.number, net, height)
            case None => None
            case Some(front) => ApplyEvent(front, Take(b, orders[i]).value, b.number, net, height)
    ensures NotesOf(TakeAll(b, orders[..i + 1]).value, b.number) ==
            NotesOf(TakeAll(b, orders[..i]).value, b.number) + NoteOf(Take(b, orders[i]).value, b.number)
  {
    assert orders[..i + 1][..i] == orders[..i];
    var events, e := TakeAll(b, orders[..i]).value, Take(b, orders[i]).value;
    assert (events + [e])[..|events|] == events;
  }

  lemma MessyTakes(b: Block, orders: seq<Order>, i: nat)
    requires i < |orders| && Take(b, orders[i]).None?
    ensures TakeAll(b, orders).None?
  {
  }

  /** Once an event is rejected the whole block is. */
  lemma {:induction false} RejectedPrefix(b: Block, orders: seq<Order>, i: nat, log: seq<Stored>, net: Network,
                                          height: nat)
    requires i < |orders| && TakeAll(b, orders).Some?
    requires TakeAll(b, orders[..i + 1]).Some?
    requires ApplyEvents(log, TakeAll(b, orders[..i + 1]).value, b.number, net, height).None?
    ensures ApplyEvents(log, TakeAll(b, orders).value, b.number, net, height).None?
  {
    var m := |orders| - 1;
    if i == m {
      assert orders[..i + 1] == orders;
    } else {
      assert orders[..m][..i + 1] == orders[..i + 1];
      RejectedPrefix(b, orders[..m], i, log, net, height);
      var events := TakeAll(b, orders).value;
      assert events[..|events| - 1] == TakeAll(b, orders[..m]).value;
    }
  }
}
