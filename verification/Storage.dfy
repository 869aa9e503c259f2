/**
  The tables behind the exit trees, the queries the service runs on them, and one database
  connection with its committed state and its open transaction.
 */
module Storage {
  import opened Bits
  import opened Hashing
  import opened CompleteTree
  import opened Outcomes
  import opened ChainEvents

  type Network = nat

  /** sync.deposit; the rows of one network, in id order, are that network's list. */
  datatype DepositRow = DepositRow(id: nat, count: nat, leaf: Digest, block: nat)

  /** mt.root, keyed by deposit id. */
  datatype RootRow = RootRow(root: Digest, network: Network)

  /** mt.rht, keyed by (key, deposit id). */
  datatype NodeRow = NodeRow(key: Digest, left: Digest, right: Digest, depositId: nat)

  /** sync.block; the rows of one network, by number as every query reads them, are that network's list. */
  datatype BlockRow = BlockRow(number: nat, hash: nat)

  /**
    What an event other than a deposit leaves in the table of its kind: exit roots, claims, tokens, verified
    batches, and the LET events themselves. The rows of one network, in order of insertion, are its list.
   */
  datatype EventRow = EventRow(event: Event, block: nat)

  datatype Tables = Tables(
    blocks: map<Network, seq<BlockRow>>,
    deposits: map<Network, seq<DepositRow>>,
    roots: map<nat, RootRow>,
    nodes: set<NodeRow>,
    events: map<Network, seq<EventRow>>)

  const NO_ROWS: Tables := Tables(map[], map[], map[], {}, map[])

  datatype StoreError = NotFound | Fault

  const MAX_UINT32: nat := 0xFFFF_FFFF

  /** How many deposits a tree can take: its leaves, and never more than the 32-bit count can number. */
  function Capacity(height: nat): (c: nat)
    ensures c <= Pow2(height) && c <= MAX_UINT32
  {
    if Pow2(height) <= MAX_UINT32 then Pow2(height) else MAX_UINT32
  }

  function BlocksOf(t: Tables, net: Network): seq<BlockRow>
  {
    if net in t.blocks then t.blocks[net] else []
  }

  function DepositsOf(t: Tables, net: Network): seq<DepositRow>
  {
    if net in t.deposits then t.deposits[net] else []
  }

  function EventsOf(t: Tables, net: Network): seq<EventRow>
  {
    if net in t.events then t.events[net] else []
  }

  function Ids(d: seq<DepositRow>): set<nat>
  {
    set i | 0 <= i < |d| :: d[i].id
  }

  // ---------- queries ----------

  /** GetRoot: the root joined with the deposit of that count. */
  function LookupRoot(roots: map<nat, RootRow>, net: Network, d: seq<DepositRow>, count: nat): Option<Digest>
  {
    if d == [] then None
    else if d[0].count == count && d[0].id in roots && roots[d[0].id].network == net then Some(roots[d[0].id].root)
    else LookupRoot(roots, net, d[1..], count)
  }

  /** GetNumberDeposits: one more than the largest count stored up to a block. */
  function NumberDeposits(d: seq<DepositRow>, block: nat): nat
  {
    if d == [] then 0
    else
      var rest := NumberDeposits(d[1..], block);
      if d[0].block <= block && d[0].count + 1 > rest then d[0].count + 1 else rest
  }

  /** The deposit_id values of a network's root rows. */
  function RootIds(roots: map<nat, RootRow>, net: Network): set<nat>
  {
    set id | id in roots && roots[id].network == net
  }

  function CountOfId(d: seq<DepositRow>, id: nat): Option<nat>
  {
    if d == [] then None
    else if d[0].id == id then Some(d[0].count)
    else CountOfId(d[1..], id)
  }

  // ---------- updates ----------

  function InsertDeposit(t: Tables, net: Network, row: DepositRow): Tables
  {
    t.(deposits := t.deposits[net := DepositsOf(t, net) + [row]])
  }

  function InsertRoot(t: Tables, net: Network, id: nat, root: Digest): Tables
  {
    t.(roots := t.roots[id := RootRow(root, net)])
  }

  function InsertNodes(t: Tables, rows: set<NodeRow>): Tables
  {
    t.(nodes := t.nodes + rows)
  }

  /** A row put in its place: after every row whose number is not larger. */
  function Place(b: seq<BlockRow>, row: BlockRow): seq<BlockRow>
  {
    if b == [] || b[|b| - 1].number <= row.number then b + [row]
    else Place(b[..|b| - 1], row) + [b[|b| - 1]]
  }

  /** A block is stored once per hash. */
  function WithBlock(b: seq<BlockRow>, row: BlockRow): seq<BlockRow>
  {
    if exists r :: r in b && r.hash == row.hash then b else Place(b, row)
  }

  function InsertBlock(t: Tables, net: Network, row: BlockRow): Tables
  {
    t.(blocks := t.blocks[net := WithBlock(BlocksOf(t, net), row)])
  }

  function InsertEvent(t: Tables, net: Network, row: EventRow): Tables
  {
    t.(events := t.events[net := EventsOf(t, net) + [row]])
  }

  function CountBelow(d: seq<DepositRow>, count: nat): seq<DepositRow>
  {
    if d == [] then []
    else if d[0].count < count then [d[0]] + CountBelow(d[1..], count)
    else CountBelow(d[1..], count)
  }

  function BlockUpTo(d: seq<DepositRow>, block: nat): seq<DepositRow>
  {
    if d == [] then []
    else if d[0].block <= block then [d[0]] + BlockUpTo(d[1..], block)
    else BlockUpTo(d[1..], block)
  }

  function NumberUpTo(b: seq<BlockRow>, number: nat): seq<BlockRow>
  {
    if b == [] then []
    else if b[0].number <= number then [b[0]] + NumberUpTo(b[1..], number)
    else NumberUpTo(b[1..], number)
  }

  function EventsUpTo(rows: seq<EventRow>, block: nat): seq<EventRow>
  {
    if rows == [] then []
    else if rows[0].block <= block then [rows[0]] + EventsUpTo(rows[1..], block)
    else EventsUpTo(rows[1..], block)
  }

  /** Keep only these deposits of a network; root and node rows of the deleted ones go in cascade. */
  function KeepDeposits(t: Tables, net: Network, kept: seq<DepositRow>): Tables
  {
    var gone := Ids(DepositsOf(t, net)) - Ids(kept);
    t.(deposits := t.deposits[net := kept],
       roots := map id | id in t.roots && id !in gone :: t.roots[id],
       nodes := set r | r in t.nodes && r.depositId !in gone)
  }

  /** ResetDeposits: delete the deposits from a count on. */
  function ResetDepositsTable(t: Tables, net: Network, count: nat): Tables
  {
    KeepDeposits(t, net, CountBelow(DepositsOf(t, net), count))
  }

  /** The block rows of a network up to a number, and the event rows of these blocks. */
  function KeepBlocks(t: Tables, net: Network, number: nat): Tables
  {
    t.(blocks := t.blocks[net := NumberUpTo(BlocksOf(t, net), number)],
       events := t.events[net := EventsUpTo(EventsOf(t, net), number)])
  }

  /** Reset: delete the blocks above a number, with their deposits and events. */
  function ResetBlocksTable(t: Tables, net: Network, number: nat): Tables
  {
    KeepDeposits(KeepBlocks(t, net, number), net, BlockUpTo(DepositsOf(t, net), number))
  }

  // ---------- what the tables of a well-kept tree hold ----------

  function Leaves(d: seq<DepositRow>): (s: seq<Digest>)
    ensures |s| == |d|
  {
    seq(|d|, i requires 0 <= i < |d| => d[i].leaf)
  }

  /** The row of the level-(h+1) ancestor of leaf i. */
  function PathRow(s: seq<Digest>, i: nat, id: nat, h: nat): NodeRow
  {
    var k := Shr(i, h + 1);
    NodeRow(Node(s, h + 1, k), Node(s, h, 2 * k), Node(s, h, 2 * k + 1), id)
  }

  function PathRows(s: seq<Digest>, i: nat, id: nat, height: nat): set<NodeRow>
  {
    set h | 0 <= h < height :: PathRow(s, i, id, h)
  }

  function RowsOf(t: Tables, id: nat): set<NodeRow>
  {
    set r | r in t.nodes && r.depositId == id
  }

  /** Deposit counts run from 0, ids strictly up, block numbers never down. */
  ghost predicate LogOk(d: seq<DepositRow>)
  {
    && (forall i :: 0 <= i < |d| ==> d[i].count == i)
    && (forall i, j :: 0 <= i < j < |d| ==> d[i].id < d[j].id)
    && (forall i, j :: 0 <= i < j < |d| ==> d[i].block <= d[j].block)
  }

  /** Block numbers never go down, and no hash is stored twice. */
  ghost predicate BlocksOk(b: seq<BlockRow>)
  {
    forall i, j :: 0 <= i < j < |b| ==> b[i].number <= b[j].number && b[i].hash != b[j].hash
  }

  /** Every deposit lies in a block up to a number. */
  predicate WithinBlock(d: seq<DepositRow>, block: nat)
  {
    forall i :: 0 <= i < |d| ==> d[i].block <= block
  }

  /** Deposit i's root row is the root of the first i+1 leaves, and there is no other root row. */
  ghost predicate RootsOk(t: Tables, net: Network, height: nat)
  {
    var d := DepositsOf(t, net);
    && (forall i :: 0 <= i < |d| ==>
          d[i].id in t.roots && t.roots[d[i].id] == RootRow(Root(Leaves(d)[..i + 1], height), net))
    && RootIds(t.roots, net) <= Ids(d)
  }

  /** Deposit i's node rows are exactly the path of leaf i in the tree of the first i+1 leaves. */
  ghost predicate NodesOk(t: Tables, net: Network, height: nat)
  {
    var d := DepositsOf(t, net);
    forall i :: 0 <= i < |d| ==> RowsOf(t, d[i].id) == PathRows(Leaves(d)[..i + 1], i, d[i].id, height)
  }

  /** Everything stored for a network is what a fresh tree fed its stored deposits would store. */
  ghost predicate TreeOk(t: Tables, net: Network, height: nat)
  {
    && LogOk(DepositsOf(t, net))
    && |DepositsOf(t, net)| <= Capacity(height)
    && RootsOk(t, net, height)
    && NodesOk(t, net, height)
  }

  ghost predicate Owned(t: Tables, id: nat)
  {
    exists net: Network :: id in Ids(DepositsOf(t, net))
  }

  ghost predicate TablesOk(t: Tables, height: nat)
  {
    && (forall net: Network :: TreeOk(t, net, height))
    && (forall net: Network :: BlocksOk(BlocksOf(t, net)))
    && (forall m: Network, n: Network :: m != n ==> Ids(DepositsOf(t, m)) !! Ids(DepositsOf(t, n)))
    && (forall r :: r in t.nodes ==> r.key == Pair(r.left, r.right))
    && (forall r :: r in t.nodes ==> Owned(t, r.depositId))
  }

  ghost predicate FreshFrom(t: Tables, nextId: nat)
  {
    forall net: Network, i :: 0 <= i < |DepositsOf(t, net)| ==> DepositsOf(t, net)[i].id < nextId
  }

  // ---------- appending ----------

  /** The tables after one deposit has been stored and added to its tree. */
  function WithLeaf(t: Tables, net: Network, row: DepositRow, height: nat): Tables
  {
    var d := DepositsOf(t, net);
    var s := Leaves(d) + [row.leaf];
    InsertNodes(InsertRoot(InsertDeposit(t, net, row), net, row.id, Root(s, height)),
                PathRows(s, |d|, row.id, height))
  }

  lemma LeavesAppend(d: seq<DepositRow>, row: DepositRow)
    ensures Leaves(d + [row]) == Leaves(d) + [row.leaf]
  {
  }
}
