/** Symbolic tree hashing: `Pair` is the collision-free two-word hash, `Word` is any other digest. */
module Hashing {

  datatype Digest = Word(bytes: nat) | Pair(left: Digest, right: Digest)

  const HASH_ZERO: Digest := Word(0)

  /** Hash of an empty subtree of height h. */
  function ZeroHash(h: nat): Digest
  {
    if h == 0 then HASH_ZERO else Pair(ZeroHash(h - 1), ZeroHash(h - 1))
  }

  method GenerateZeroHashes(height: nat) returns (zeros: seq<Digest>)
    ensures |zeros| == height + 1
    ensures forall h :: 0 <= h <= height ==> zeros[h] == ZeroHash(h)
  {
    zeros := [HASH_ZERO];
    for i := 1 to height + 1
      invariant |zeros| == i
      invariant forall h :: 0 <= h < i ==> zeros[h] == ZeroHash(h)
    {
      zeros := zeros + [Pair(zeros[i - 1], zeros[i - 1])];
    }
  }
}
