/** Claim transactions that the service sends for its users, and the groups they are sent in. */
module ClaimTypes {
  import opened Hashing
  import opened Outcomes

  datatype TxStatus = Created | Compressing | Claiming | Confirmed | Failed
  datatype GroupStatus = GroupCreated | GroupClaiming | GroupConfirmed | GroupFailed
  datatype Receipt = ReceiptFailed | ReceiptSuccessful | ReceiptOutdated

  /** One sent transaction of a group; it is pending until its receipt is known. */
  datatype Attempt = Attempt(hash: nat, receipt: Option<Receipt>, createdAt: int)
  {
    predicate IsPending() { receipt.None? }
  }

  datatype Method = ClaimAsset | ClaimMessage | UnknownMethod

  /** The call data of a claim: method, whether its arguments unpack, the exit roots its proofs end in, the rest. */
  datatype Call = Call(selector: Method, unpacks: bool, mainnetRoot: Digest, rollupRoot: Digest, body: nat)
  {
    predicate Readable() { !selector.UnknownMethod? && unpacks }
  }

  /** A claim to be sent; `dest` is the destination of its deposit, and `gone` says that the deposit was removed. */
  datatype Tx = Tx(depositId: nat, status: TxStatus, groupId: Option<nat>, ger: Digest, sent: bool, createdAt: int,
                   data: Call, dest: nat, gone: bool)
  {
    predicate IsCandidateToBeGrouped(root: Digest)
    {
      status.Created? && !sent && groupId.None? && ger == root
    }

    predicate IsOpen()
    {
      status.Created? || status.Compressing? || status.Claiming?
    }
  }

  datatype Entry = Entry(status: GroupStatus, retries: int, compressed: Option<nat>, history: seq<Attempt>,
                         createdAt: int)
  datatype Group = Group(entry: Entry, txs: seq<Tx>)
  datatype GroupRow = GroupRow(entry: Entry, depositIds: seq<nat>)

  /** The tables of monitored transactions, by deposit, and of their groups. */
  datatype ClaimTables = ClaimTables(txs: map<nat, Tx>, groups: map<nat, GroupRow>)

  datatype Config = Config(maxRetries: int, retryInterval: int, retryTimeout: int, trigger: int, maxPerGroup: int,
                           retainedPeriod: int)

  datatype Mined = CheckError | NotMined | Mined(successful: bool)
  datatype Sent = Sent(hash: nat, at: int)

  /**
    What a tick meets outside: the clock, the outcome of each send, what the network says of each transaction, and
    what the compressor contract answers to two exit roots and a list of claims, whose order means nothing.
   */
  datatype World = World(sendClock: nat -> int, send: nat -> Option<Sent>, mined: nat -> Mined,
                         receiptClock: (nat, nat) -> int, groupClock: int,
                         compress: (Digest, Digest, multiset<Call>) -> Result<Option<nat>, ()>)

  /** The status every transaction of a group has. */
  function MemberStatus(s: GroupStatus): TxStatus
  {
    match s
    case GroupConfirmed => Confirmed
    case GroupFailed => Failed
    case _ => Created
  }

  predicate IsLive(s: GroupStatus)
  {
    s.GroupCreated? || s.GroupClaiming?
  }

  function WithStatus(txs: seq<Tx>, s: TxStatus): (r: seq<Tx>)
    ensures |r| == |txs|
    ensures forall i :: 0 <= i < |txs| ==> r[i] == txs[i].(status := s)
  {
    seq(|txs|, i requires 0 <= i < |txs| => txs[i].(status := s))
  }
}
