/** Bytes as sequences of bits, the most significant bit first. */
module BitStrings {

  function Bit(c: bv8, i: nat): bool
    requires i < 8
  {
    (c >> (7 - i)) & 0x01 != 0
  }

  function ByteBits(c: bv8): (bits: seq<bool>)
    ensures |bits| == 8
  {
    seq(8, i requires 0 <= i < 8 => Bit(c, i))
  }

  function Bits(data: seq<bv8>): (bits: seq<bool>)
    ensures |bits| == 8 * |data|
  {
    if data == [] then [] else Bits(data[..|data| - 1]) + ByteBits(data[|data| - 1])
  }

  function Zeros(n: nat): (bits: seq<bool>)
    ensures |bits| == n && forall i :: 0 <= i < n ==> !bits[i]
  {
    seq(n, i => false)
  }

  lemma {:induction false} BitsMore(a: seq<bv8>, b: seq<bv8>)
    ensures Bits(a + b) == Bits(a) + Bits(b)
    decreases |b|
  {
    if b == [] {
      assert a + b == a;
    } else {
      assert (a + b)[..|a + b| - 1] == a + b[..|b| - 1];
      BitsMore(a, b[..|b| - 1]);
    }
  }
}
