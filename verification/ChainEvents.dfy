/** The contract events the synchronizer consumes. */
module ChainEvents {
  import opened Hashing

  datatype Kind = GlobalExitRootKind | RemoveL2GERKind | DepositKind | ClaimKind | TokenWrappedKind
                | VerifyBatchKind | UnsetClaimKind | BackwardLETKind | ForwardLETKind | SetClaimKind

  /** Events that touch the exit tree, and the rest, which only write rows of other tables. */
  datatype Event =
    | Deposit(count: nat, leaf: Digest)
    | BackwardLET(previousCount: nat, previousRoot: Digest, newCount: nat, newRoot: Digest)
    | ForwardLET(previousCount: nat, previousRoot: Digest, newCount: nat, newRoot: Digest, newLeaves: seq<Digest>)
    | Other(kind: Kind, data: nat)

  function KindOf(e: Event): Kind
  {
    match e
    case Deposit(_, _) => DepositKind
    case BackwardLET(_, _, _, _) => BackwardLETKind
    case ForwardLET(_, _, _, _, _) => ForwardLETKind
    case Other(kind, _) => kind
  }
}
