/** Shifts and single bits of tree indices, as the level loops of the exit tree read them. */
module Bits {

  function Pow2(h: nat): (p: nat)
    ensures p >= 1
  {
    if h == 0 then 1 else 2 * Pow2(h - 1)
  }

  /** `i >> h`, one halving per level. */
  function Shr(i: nat, h: nat): nat
  {
    if h == 0 then i else Shr(i, h - 1) / 2
  }

  /** `i & (1 << h) > 0`. */
  predicate Bit(i: nat, h: nat)
  {
    Shr(i, h) % 2 == 1
  }

  /** Every bit of n below level h is set: the subtree of height h ending at leaf n is full. */
  predicate Ones(n: nat, h: nat)
  {
    h == 0 || (Ones(n, h - 1) && Bit(n, h - 1))
  }

  /** The other child of the same parent. */
  function Sibling(k: nat): (r: nat)
    ensures r / 2 == k / 2 && r != k
  {
    if k % 2 == 1 then k - 1 else k + 1
  }

  /** `Shr(i, h)` is the quotient of i by 2^h: it reaches k exactly when i reaches k * 2^h. */
  lemma {:induction false} ShrAtLeast(i: nat, h: nat, k: nat)
    ensures Shr(i, h) >= k <==> i >= k * Pow2(h)
  {
    if h > 0 {
      ShrAtLeast(i, h - 1, 2 * k);
      assert (2 * k) * Pow2(h - 1) == k * Pow2(h);
    }
  }

  lemma {:induction false} ShrMonotone(i: nat, j: nat, h: nat)
    requires i <= j
    ensures Shr(i, h) <= Shr(j, h)
  {
    if h > 0 { ShrMonotone(i, j, h - 1); }
  }

  /** An index fits under height h exactly when nothing is left after h halvings. */
  lemma ShrVanishes(i: nat, h: nat)
    ensures Shr(i, h) == 0 <==> i < Pow2(h)
  {
    ShrAtLeast(i, h, 1);
  }

  /** Adding one carries into level h exactly when all lower bits are set. */
  lemma {:induction false} Increment(n: nat, h: nat)
    ensures Shr(n + 1, h) == if Ones(n, h) then Shr(n, h) + 1 else Shr(n, h)
  {
    if h > 0 { Increment(n, h - 1); }
  }

  lemma {:induction false} OnesShorter(n: nat, g: nat, h: nat)
    requires g <= h && Ones(n, h)
    ensures Ones(n, g)
  {
    if g < h { OnesShorter(n, g, h - 1); }
  }
}
