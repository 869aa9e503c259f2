/** Looking for the block to fall back to after a reorganisation. */
module Reorg {
  import opened Outcomes
  import opened Storage

  datatype ReorgError = HeaderUnavailable | QueryFailed

  /** A stored block that needs no undoing: canonical, or not above genesis. */
  predicate Sound(b: BlockRow, headers: map<nat, nat>, genesis: nat)
  {
    b.number <= genesis || (b.number in headers && headers[b.number] == b.hash)
  }

  /** Up to genesis every block is sound, and above it exactly the canonical ones. */
  lemma SoundMeans(b: BlockRow, headers: map<nat, nat>, genesis: nat)
    ensures b.number <= genesis ==> Sound(b, headers, genesis)
    ensures b.number > genesis ==>
              (Sound(b, headers, genesis) <==> b.number in headers && headers[b.number] == b.hash)
  {
  }

  /** Index of the last sound block among the first n; -1 when there is none. */
  function HighestSound(stored: seq<BlockRow>, n: nat, headers: map<nat, nat>, genesis: nat): (k: int)
    requires n <= |stored|
    ensures -1 <= k < n
    ensures k >= 0 ==> Sound(stored[k], headers, genesis)
    ensures forall j :: k < j < n ==> !Sound(stored[j], headers, genesis)
  {
    if n == 0 then -1
    else if Sound(stored[n - 1], headers, genesis) then n - 1
    else HighestSound(stored, n - 1, headers, genesis)
  }

  /** Whether the block checked first passes: against the block just received, or against the chain. */
  predicate FirstPasses(latest: BlockRow, received: Option<BlockRow>, headers: map<nat, nat>, genesis: nat)
  {
    match received
    case Some(b) => b.hash == latest.hash || latest.number <= genesis
    case None => Sound(latest, headers, genesis)
  }

  /** A block just received is the canonical block of a number. */
  predicate IsHeader(b: BlockRow, number: nat, headers: map<nat, nat>)
  {
    b.number == number && number in headers && headers[number] == b.hash
  }

  /** Checking against the block just received is checking against the chain. */
  lemma ReceivedIsHeader(latest: BlockRow, received: BlockRow, headers: map<nat, nat>, genesis: nat)
    requires IsHeader(received, latest.number, headers)
    ensures FirstPasses(latest, Some(received), headers, genesis) <==> Sound(latest, headers, genesis)
  {
  }

  /** The block to fall back to when the first check fails; None means no fallback is reported. */
  function Fallback(stored: seq<BlockRow>, latest: BlockRow, headers: map<nat, nat>, genesis: nat): Option<BlockRow>
  {
    var k := HighestSound(stored, if |stored| == 0 then 0 else |stored| - 1, headers, genesis);
    if k < 0 then Some(BlockRow(genesis, 0))
    else if stored[k].hash == latest.hash then None
    else Some(stored[k])
  }

  /** Every header that the search could ask for is there, and every stored block it could ask for is returned. */
  ghost predicate Answered(stored: seq<BlockRow>, latest: BlockRow, headers: map<nat, nat>, queryFails: nat -> bool)
  {
    && latest.number in headers
    && (forall i :: 0 <= i < |stored| ==> stored[i].number in headers)
    && (forall depth :: 1 <= depth <= |stored| + 1 ==> !queryFails(depth))
  }

  /**
    checkReorg walks back through the stored blocks, by number, until one is sound. It ends, fails only when a
    header or a stored block it needs is not returned, and otherwise reports the fallback.
   */
  method CheckReorg(stored: seq<BlockRow>, latest: BlockRow, received: Option<BlockRow>, headers: map<nat, nat>,
                    genesis: nat, queryFails: nat -> bool)
    returns (r: Result<Option<BlockRow>, ReorgError>)
    ensures Answered(stored, latest, headers, queryFails) ==> r.Ok?
    ensures r.Err? ==>
              || latest.number !in headers || (exists i :: 0 <= i < |stored| && stored[i].number !in headers)
              || exists depth :: 1 <= depth <= |stored| + 1 && queryFails(depth)
    ensures FirstPasses(latest, received, headers, genesis) && (received.Some? || latest.number in headers) ==> r.Ok?
    ensures r.Ok? && FirstPasses(latest, received, headers, genesis) ==> r.value == None
    ensures r.Ok? && !FirstPasses(latest, received, headers, genesis) ==>
              r.value == Fallback(stored, latest, headers, genesis)
    ensures r.Ok? && (received.Some? ==> IsHeader(received.value, latest.number, headers)) ==>
              && (Sound(latest, headers, genesis) ==> r.value == None)
              && (stored != [] && BlocksOk(stored) && latest == stored[|stored| - 1] &&
                  !Sound(latest, headers, genesis) ==>
                    r.value.Some? && RightFallback(r.value.value, stored, headers, genesis))
  {
    if received.Some? && IsHeader(received.value, latest.number, headers) {
      ReceivedIsHeader(latest, received.value, headers, genesis);
    }
    if stored != [] && BlocksOk(stored) && latest == stored[|stored| - 1] && !Sound(latest, headers, genesis) {
      StoredTipFallback(stored, headers, genesis);
    }
    var reorgedBlock := latest;
    var depth := 0;
    var block := received;
    ghost var top: nat := if |stored| == 0 then 0 else |stored| - 1;
    while true
      invariant 0 <= depth <= |stored|
      invariant depth == 0 ==> reorgedBlock == latest && block == received
      invariant depth > 0 ==> block == None && depth <= top && reorgedBlock == stored[|stored| - 1 - depth]
      invariant depth > 0 ==> !FirstPasses(latest, received, headers, genesis)
      invariant depth > 0 ==>
                  HighestSound(stored, top, headers, genesis) ==
                      HighestSound(stored, |stored| - depth, headers, genesis)
      decreases |stored| - depth
    {
      if block.None? {
        if reorgedBlock.number !in headers {
          return Err(HeaderUnavailable);
        }
        block := Some(BlockRow(reorgedBlock.number, headers[reorgedBlock.number]));
      }
      if block.value.hash != reorgedBlock.hash && reorgedBlock.number > genesis {
        depth := depth + 1;
        if queryFails(depth) {
          return Err(QueryFailed);
        }
        if depth >= |stored| {
          return Ok(Some(BlockRow(genesis, 0)));
        }
        reorgedBlock := stored[|stored| - 1 - depth];
      } else {
        break;
      }
      block := None;
    }
    if latest.hash != reorgedBlock.hash {
      return Ok(Some(reorgedBlock));
    }
    return Ok(None);
  }

  /** With rows in order, the last sound block is the highest one. */
  lemma HighestByNumber(stored: seq<BlockRow>, headers: map<nat, nat>, genesis: nat, b: BlockRow)
    requires BlocksOk(stored) && b in stored && Sound(b, headers, genesis)
    ensures var k := HighestSound(stored, |stored|, headers, genesis);
            k >= 0 && b.number <= stored[k].number
  {
    var i :| 0 <= i < |stored| && stored[i] == b;
    var k := HighestSound(stored, |stored|, headers, genesis);
    assert i <= k;
  }

  /** A block is the right one to fall back to: the highest sound stored block, or genesis when none is sound. */
  ghost predicate RightFallback(f: BlockRow, stored: seq<BlockRow>, headers: map<nat, nat>, genesis: nat)
  {
    && Sound(f, headers, genesis)
    && (forall b :: b in stored && Sound(b, headers, genesis) ==> b.number <= f.number)
    && (f in stored || (f == BlockRow(genesis, 0) && forall b :: b in stored ==> !Sound(b, headers, genesis)))
  }

  /** For an unsound stored tip the fallback is the right one. */
  lemma StoredTipFallback(stored: seq<BlockRow>, headers: map<nat, nat>, genesis: nat)
    requires stored != [] && BlocksOk(stored) && !Sound(stored[|stored| - 1], headers, genesis)
    ensures var f := Fallback(stored, stored[|stored| - 1], headers, genesis);
            f.Some? && RightFallback(f.value, stored, headers, genesis)
  {
    var f := Fallback(stored, stored[|stored| - 1], headers, genesis);
    forall b | b in stored && Sound(b, headers, genesis)
      ensures f.value in stored && b.number <= f.value.number
    {
      HighestByNumber(stored, headers, genesis, b);
    }
  }

  /** Below a stored tip that is not sound the search finds the right block. */
  lemma UnsoundTipIsRight(stored: seq<BlockRow>, latest: BlockRow, headers: map<nat, nat>, genesis: nat)
    requires stored != [] && BlocksOk(stored) && (forall b :: b in stored ==> b.hash != latest.hash)
    requires !Sound(stored[|stored| - 1], headers, genesis)
    ensures var f := Fallback(stored, latest, headers, genesis);
            f.Some? && RightFallback(f.value, stored, headers, genesis)
  {
    var k := HighestSound(stored, |stored| - 1, headers, genesis);
    assert k >= 0 ==> stored[k] in stored;
    var f := Fallback(stored, latest, headers, genesis).value;
    forall b | b in stored && Sound(b, headers, genesis)
      ensures f in stored && b.number <= f.number
    {
      HighestByNumber(stored, headers, genesis, b);
    }
  }

  /** A stored tip that is no higher than the block before it, or than genesis when it is alone. */
  predicate SharedTip(stored: seq<BlockRow>, genesis: nat)
    requires stored != []
  {
    var tip := stored[|stored| - 1];
    && tip.number <= genesis
    && (if |stored| == 1 then tip == BlockRow(genesis, 0) else stored[|stored| - 2].number == tip.number)
  }

  /**
    For a tip held only in memory the search starts below the stored tip. It finds the right block exactly when
    the stored tip is not itself sound; a tip not above genesis that it shares its number with does no harm.
   */
  lemma MemoryTipSkipsStoredTip(stored: seq<BlockRow>, latest: BlockRow, headers: map<nat, nat>, genesis: nat)
    requires stored != [] && BlocksOk(stored) && (forall b :: b in stored ==> b.hash != latest.hash)
    ensures var f := Fallback(stored, latest, headers, genesis);
            && f.Some?
            && (RightFallback(f.value, stored, headers, genesis) <==>
                !Sound(stored[|stored| - 1], headers, genesis) || SharedTip(stored, genesis))
  {
    var n := |stored|;
    var k := HighestSound(stored, n - 1, headers, genesis);
    var tip := stored[n - 1];
    assert tip in stored && (k >= 0 ==> stored[k] in stored);
    if !Sound(tip, headers, genesis) {
      UnsoundTipIsRight(stored, latest, headers, genesis);
    } else if tip.number <= genesis && n > 1 {
      assert stored[n - 2].number <= tip.number;
      assert k == n - 2;
      assert forall i :: 0 <= i < n ==> stored[i].number <= tip.number;
    } else if k >= 0 {
      assert stored[k].hash != tip.hash && stored[k].number <= tip.number;
    }
  }

  /** Block 7 is stored and canonical, but a reorganised block 8 held in memory sends the search on to block 5. */
  lemma StoredTipSkipped()
    ensures var stored := [BlockRow(5, 50), BlockRow(7, 70)];
            var headers := map[5 := 50, 7 := 70, 8 := 81];
            && BlocksOk(stored) && Sound(BlockRow(7, 70), headers, 0)
            && Fallback(stored, BlockRow(8, 80), headers, 0) == Some(BlockRow(5, 50))
  {
  }

  /** Whatever the tip, the block fallen back to is sound. */
  lemma FallbackIsSound(stored: seq<BlockRow>, latest: BlockRow, headers: map<nat, nat>, genesis: nat)
    requires Fallback(stored, latest, headers, genesis).Some?
    ensures Sound(Fallback(stored, latest, headers, genesis).value, headers, genesis)
  {
  }
}
