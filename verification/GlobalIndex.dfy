/**
 * The global index of a claim: one number that names a deposit of any network,
 * its big-endian bytes, and the networks on both sides of the codec.
 */
module GlobalIndex {
  import opened Outcomes

  const WORD := 0x1_0000_0000
  const WORD_2 := 0x1_0000_0000_0000_0000
  const UINT256 := Pow256(32)

  type Byte = x: nat | x < 256
  type Uint32 = x: nat | x < 0x1_0000_0000

  /** What a global index says: the mainnet flag, the rollup and the leaf of the local exit tree. */
  datatype Index = Index(mainnet: bool, rollup: Uint32, leaf: Uint32)

  function Pow256(n: nat): (p: nat)
    ensures p > 0
  {
    if n == 0 then 1 else 256 * Pow256(n - 1)
  }

  /** The number that bytes denote, the most significant first. */
  function Value(bytes: seq<Byte>): (x: nat)
    ensures x < Pow256(|bytes|)
  {
    if bytes == [] then 0 else 256 * Value(bytes[..|bytes| - 1]) + bytes[|bytes| - 1]
  }

  /** The n bytes of a number, the most significant first. */
  function Bytes(x: nat, n: nat): (b: seq<Byte>)
    ensures |b| == n
  {
    if n == 0 then [] else Bytes(x / 256, n - 1) + [x % 256]
  }

  /** Bytes that are wide enough denote their number. */
  lemma {:induction false} ValueOfBytes(x: nat, n: nat)
    requires x < Pow256(n)
    ensures Value(Bytes(x, n)) == x
  {
    if n > 0 {
      ValueOfBytes(x / 256, n - 1);
      assert Bytes(x, n)[..n - 1] == Bytes(x / 256, n - 1);
    }
  }

  lemma {:induction false} ValueConcat(a: seq<Byte>, b: seq<Byte>)
    ensures Value(a + b) == Value(a) * Pow256(|b|) + Value(b)
  {
    if b == [] {
      assert a + b == a;
    } else {
      var n := |b| - 1;
      assert (a + b)[..|a| + n] == a + b[..n];
      ValueConcat(a, b[..n]);
      Shifted(Value(a), Pow256(n), Value(b[..n]), b[n]);
    }
  }

  lemma Shifted(a: nat, p: nat, v: nat, c: nat)
    ensures 256 * (a * p + v) + c == a * (256 * p) + (256 * v + c)
  {
  }

  /** Appending one word shifts by one word. */
  lemma ValueWord(a: seq<Byte>, b: seq<Byte>)
    requires |b| == 4
    ensures Value(a + b) == Value(a) * WORD + Value(b)
  {
    Pow256Four();
    ValueConcat(a, b);
    assert Value(a) * Pow256(4) == Value(a) * WORD;
  }

  lemma Pow256Four()
    ensures Pow256(4) == WORD && Pow256(8) == WORD_2
  {
  }

  /** Writes a number over a whole buffer; a number too wide for the buffer would be a panic. */
  method FillBytes(x: nat, buf: array<Byte>)
    requires x < Pow256(buf.Length)
    modifies buf
    ensures Value(buf[..]) == x
  {
    var rest, i := x, buf.Length;
    while i > 0
      invariant 0 <= i <= buf.Length
      invariant Bytes(x, buf.Length) == Bytes(rest, i) + buf[i..]
    {
      ghost var tail := buf[i..];
      i := i - 1;
      buf[i] := rest % 256;
      assert buf[i..] == [rest % 256] + tail;
      rest := rest / 256;
    }
    assert buf[..] == Bytes(x, buf.Length);
    ValueOfBytes(x, buf.Length);
  }

  /** The number a global index is for a flag, a rollup and a leaf; the rollup is dropped for mainnet. */
  function Encode(i: Index): (g: nat)
    ensures g < 2 * WORD_2
  {
    if i.mainnet then WORD_2 + i.leaf else i.rollup * WORD + i.leaf
  }

  /** What the low nine bytes of a number say. */
  function Decode(g: nat): (i: Index)
  {
    Index(g / WORD_2 % 256 == 1, g / WORD % WORD, g % WORD)
  }

  /** Builds the bytes of an index in one buffer that is used for both of its words. */
  method GenerateGlobalIndex(mainnetFlag: bool, rollupIndex: Uint32, localExitRootIndex: Uint32) returns (g: nat)
    ensures g == Encode(Index(mainnetFlag, rollupIndex, localExitRootIndex))
    ensures g == if mainnetFlag then 0x1_0000_0000_0000_0000 + localExitRootIndex
                 else rollupIndex * 0x1_0000_0000 + localExitRootIndex
  {
    Pow256Four();
    var buf := new Byte[4];
    var bytes: seq<Byte> := [];
    if mainnetFlag {
      bytes := bytes + [1];
      FillBytes(0, buf);
      ValueWord(bytes, buf[..]);
    } else {
      FillBytes(rollupIndex, buf);
      assert bytes + buf[..] == buf[..];
    }
    assert Value([1]) == 1 by { assert Value([]) == 0; }
    bytes := bytes + buf[..];
    FillBytes(localExitRootIndex, buf);
    ValueWord(bytes, buf[..]);
    bytes := bytes + buf[..];
    g := Value(bytes);
  }

  /** Reads an index out of the 32 bytes of a number; its three error returns are never taken. */
  method DecodeGlobalIndex(globalIndex: nat) returns (r: Option<Index>)
    requires globalIndex < UINT256
    ensures r == Some(Decode(globalIndex))
    ensures r.value.leaf == globalIndex % 0x1_0000_0000
    ensures r.value.rollup == globalIndex / 0x1_0000_0000 % 0x1_0000_0000
    ensures r.value.mainnet <==> globalIndex / 0x1_0000_0000_0000_0000 % 256 == 1
  {
    Pow256Four();
    var buf := new Byte[32];
    FillBytes(globalIndex, buf);
    var bytes := buf[..];
    Fields(bytes);
    assert Value([bytes[23]]) == bytes[23] by { assert Value([]) == 0; }
    var rollup, leaf := Value(bytes[24..28]), Value(bytes[28..32]);
    if |bytes| != 32 || rollup >= WORD || leaf >= WORD {
      return None;
    }
    r := Some(Index(Value([bytes[23]]) == 1, rollup, leaf));
  }

  lemma FieldsOfNumber(v: nat, x: nat, y: Byte, z: Uint32, w: Uint32)
    requires v == ((256 * x + y) * WORD + z) * WORD + w
    ensures v % WORD == w && v / WORD % WORD == z && v / WORD_2 % 256 == y
  {
    assert v / WORD == (256 * x + y) * WORD + z;
    assert v / WORD_2 == 256 * x + y;
  }

  /** Where the three fields stand among the bytes. */
  lemma Fields(bytes: seq<Byte>)
    requires |bytes| == 32
    ensures Value(bytes[28..32]) == Value(bytes) % WORD
    ensures Value(bytes[24..28]) == Value(bytes) / WORD % WORD
    ensures bytes[23] == Value(bytes) / WORD_2 % 256
  {
    var high, low := bytes[..24], bytes[..28];
    assert bytes == low + bytes[28..32];
    assert low == high + bytes[24..28];
    assert high[..23] == bytes[..23];
    ValueWord(low, bytes[28..32]);
    ValueWord(high, bytes[24..28]);
    Pow256Four();
    FieldsOfNumber(Value(bytes), Value(bytes[..23]), bytes[23], Value(bytes[24..28]), Value(bytes[28..32]));
  }

  /** Decoding undoes encoding for every flag, rollup and leaf, but for the rollup of a mainnet index. */
  lemma DecodeEncode(i: Index)
    ensures Decode(Encode(i)) == i.(rollup := if i.mainnet then 0 else i.rollup)
  {
  }

  /** A number that some index encodes to: below 2^64, or 2^64 and a word. */
  predicate Canonical(g: nat)
  {
    g < WORD_2 || WORD_2 <= g < WORD_2 + WORD
  }

  /** Encoding undoes decoding exactly on the canonical numbers, and those are the numbers encoding reaches. */
  lemma EncodeDecode(g: nat)
    ensures Encode(Decode(g)) == g <==> Canonical(g)
    ensures Canonical(g) <==> exists i :: Encode(i) == g
  {
  }

  /** The index a claim is sent with, for a deposit of a network. */
  function ClaimIndex(network: Uint32, depositCount: Uint32): (i: Index)
  {
    Index(network == 0, if network == 0 then 0 else network - 1, depositCount)
  }

  /** The deposit that a decoded claim is looked up as, in 32-bit arithmetic. */
  function DepositOf(i: Index): (d: (Uint32, Uint32))
  {
    (if i.mainnet then 0 else (i.rollup + 1) % WORD, i.leaf)
  }

  /** Every deposit of every network is found again from the index its claim is sent with. */
  lemma ClaimFindsDeposit(network: Uint32, depositCount: Uint32)
    ensures DepositOf(Decode(Encode(ClaimIndex(network, depositCount)))) == (network, depositCount)
    ensures network != 0 ==> Decode(Encode(ClaimIndex(network, depositCount))).rollup + 1 < WORD
  {
  }

  /** Different deposits never share a global index. */
  lemma ClaimIndexInjective(n0: Uint32, d0: Uint32, n1: Uint32, d1: Uint32)
    requires Encode(ClaimIndex(n0, d0)) == Encode(ClaimIndex(n1, d1))
    ensures n0 == n1 && d0 == d1
  {
  }

  /**
   * A number on the chain is the index of the deposit it is looked up as exactly if it is
   * canonical and does not name the last rollup, whose network number wraps to mainnet's.
   */
  lemma LookupIsFaithful(g: nat)
    ensures var (network, count) := DepositOf(Decode(g));
            Encode(ClaimIndex(network, count)) == g <==> Canonical(g) && !(WORD_2 - WORD <= g < WORD_2)
  {
  }

  /** The index of the last rollup is looked up as a mainnet deposit. */
  lemma LastRollupWraps(leaf: Uint32)
    ensures DepositOf(Decode(Encode(Index(false, WORD - 1, leaf)))) == (0, leaf)
  {
  }
}
