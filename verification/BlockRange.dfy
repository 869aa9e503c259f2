/** The event-bearing blocks of a fixed chain, and the ranges of them a node returns. */
module BlockRange {
  import opened EventOrder

  ghost predicate Ascending(chain: seq<Block>)
  {
    forall i, j :: 0 <= i < j < |chain| ==> chain[i].number < chain[j].number
  }

  /** How many blocks of an ascending chain are numbered below n. */
  function Below(chain: seq<Block>, n: nat): (k: nat)
    requires Ascending(chain)
    ensures k <= |chain|
    ensures forall i :: 0 <= i < k ==> chain[i].number < n
    ensures forall i :: k <= i < |chain| ==> chain[i].number >= n
  {
    if chain == [] then 0
    else if chain[|chain| - 1].number < n then |chain|
    else Below(chain[..|chain| - 1], n)
  }

  lemma BelowMonotone(chain: seq<Block>, m: nat, n: nat)
    requires Ascending(chain) && m <= n
    ensures Below(chain, m) <= Below(chain, n)
  {
  }

  /** The blocks numbered from `from` to `to`, as the node returns them. */
  function Slice(chain: seq<Block>, from: nat, to: nat): seq<Block>
    requires Ascending(chain) && from <= to + 1
  {
    BelowMonotone(chain, from, to + 1);
    chain[Below(chain, from)..Below(chain, to + 1)]
  }

  lemma SliceMembers(chain: seq<Block>, from: nat, to: nat)
    requires Ascending(chain) && from <= to + 1
    ensures forall b :: b in Slice(chain, from, to) <==> b in chain && from <= b.number <= to
  {
  }

  lemma SubAscending(chain: seq<Block>, i: nat, j: nat, s: seq<Block>)
    requires Ascending(chain) && i <= j <= |chain| && s == chain[i..j]
    ensures Ascending(s)
  {
  }

  lemma SliceAscending(chain: seq<Block>, from: nat, to: nat)
    requires Ascending(chain) && from <= to + 1
    ensures Ascending(Slice(chain, from, to))
  {
    BelowMonotone(chain, from, to + 1);
    SubAscending(chain, Below(chain, from), Below(chain, to + 1), Slice(chain, from, to));
  }

  /** A prefix of the next range continues the blocks before it. */
  lemma Continues(chain: seq<Block>, blocks: seq<Block>, done: nat, to: nat, lo: nat, hi: nat, n: nat, k: nat)
    requires Ascending(chain) && done <= to && blocks == Slice(chain, done + 1, to)
    requires lo <= hi == Below(chain, done + 1) && n <= |blocks| && k == hi + n
    ensures k <= |chain| && chain[lo..k] == chain[lo..hi] + blocks[..n]
    ensures n == |blocks| ==> k == Below(chain, to + 1)
  {
    BelowMonotone(chain, done + 1, to + 1);
    SliceJoins(chain, lo, hi, Below(chain, to + 1), n, k);
  }

  lemma SliceJoins(chain: seq<Block>, lo: nat, hi: nat, top: nat, n: nat, k: nat)
    requires lo <= hi <= top <= |chain| && n <= top - hi && k == hi + n
    ensures chain[lo..k] == chain[lo..hi] + chain[hi..top][..n]
  {
    assert chain[hi..top][..n] == chain[hi..k];
    assert chain[lo..k] == chain[lo..hi] + chain[hi..k];
  }

  /** The blocks numbered above n. */
  function After(chain: seq<Block>, n: nat): seq<Block>
    requires Ascending(chain)
  {
    chain[Below(chain, n + 1)..|chain|]
  }

  lemma AfterMembers(chain: seq<Block>, n: nat)
    requires Ascending(chain)
    ensures forall b :: b in After(chain, n) <==> b in chain && b.number > n
  {
    var k := Below(chain, n + 1);
    assert chain == chain[..k] + After(chain, n);
  }

  /** No event-bearing block after lo up to hi. */
  ghost predicate Quiet(chain: seq<Block>, lo: nat, hi: nat)
    requires Ascending(chain)
  {
    Below(chain, lo + 1) == Below(chain, hi + 1)
  }

  /** Asking from a block's own number returns that block first. */
  lemma BelowOwn(chain: seq<Block>, b: Block)
    requires Ascending(chain) && b in chain
    ensures Below(chain, b.number) < |chain| && chain[Below(chain, b.number)] == b
    ensures Below(chain, b.number + 1) == Below(chain, b.number) + 1
  {
  }

  lemma SliceFromOwn(chain: seq<Block>, b: Block, to: nat)
    requires Ascending(chain) && b in chain && b.number <= to
    ensures Slice(chain, b.number, to) == [b] + Slice(chain, b.number + 1, to)
  {
    BelowOwn(chain, b);
    BelowMonotone(chain, b.number + 1, to + 1);
    HeadOfSlice(chain, Below(chain, b.number), Below(chain, b.number + 1), Below(chain, to + 1));
  }

  lemma HeadOfSlice(chain: seq<Block>, i: nat, i': nat, j: nat)
    requires i' == i + 1 <= j <= |chain|
    ensures chain[i..j] == [chain[i]] + chain[i'..j]
  {
  }

  /** A number without events does not move the position. */
  lemma BelowSkip(chain: seq<Block>, n: nat)
    requires Ascending(chain) && forall b :: b in chain ==> b.number != n
    ensures Below(chain, n + 1) == Below(chain, n)
  {
    BelowMonotone(chain, n, n + 1);
    var k, m := Below(chain, n), Below(chain, n + 1);
    assert k < |chain| ==> chain[k] in chain;
  }

  lemma SliceFromQuiet(chain: seq<Block>, n: nat, to: nat)
    requires Ascending(chain) && n <= to && forall b :: b in chain ==> b.number != n
    ensures Slice(chain, n, to) == Slice(chain, n + 1, to)
    ensures |Slice(chain, n, to)| > 0 ==> Slice(chain, n, to)[0].number != n
  {
    BelowSkip(chain, n);
    BelowMonotone(chain, n, to + 1);
    var k := Below(chain, n);
    assert k < |chain| ==> chain[k] in chain;
  }

  /** A fixed chain up to its head: its event-bearing blocks ascend and carry the canonical hashes. */
  ghost predicate ChainOk(chain: seq<Block>, headers: map<nat, nat>, known: nat)
  {
    && Ascending(chain)
    && (forall n :: 0 <= n <= known ==> n in headers)
    && forall b :: b in chain ==> b.number <= known && b.number in headers && headers[b.number] == b.hash
  }
}
