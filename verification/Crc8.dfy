/** The checksum of a Balboa message: a CRC of 8 bits, bit by bit. */
module Crc8 {
  import opened BitStrings

  // ----- one bit

  function Top(a: bv8): bool {
    a & 0x80 != 0
  }

  /** The register shifted by one bit, with `bit` coming in, and reduced by x^8 + x^2 + x + 1. */
  function Shift(crc: bv8, bit: bool): bv8 {
    ((crc << 1) | if bit then 1 else 0) ^ if Top(crc) then 0x07 else 0
  }

  function Sum(a: bv8, b: bv8): bv8 {
    a ^ b
  }

  function If(p: bool, c: bv8): bv8 {
    if p then c else 0
  }

  lemma SumLaws(a: bv8, b: bv8, c: bv8)
    ensures Sum(a, b) == Sum(b, a) && Sum(Sum(a, b), c) == Sum(a, Sum(b, c))
  {
  }

  lemma SumSwaps(a: bv8, b: bv8, c: bv8, d: bv8)
    ensures Sum(Sum(a, b), Sum(c, d)) == Sum(Sum(a, c), Sum(b, d))
  {
    hide Sum;
    SumLaws(a, b, Sum(c, d));
    SumLaws(b, c, d);
    SumLaws(c, b, d);
    SumLaws(a, c, Sum(b, d));
  }

  lemma SumShifts(a: bv8, b: bv8)
    ensures Sum(a, b) << 1 == Sum(a << 1, b << 1)
    ensures Top(Sum(a, b)) == (Top(a) != Top(b))
  {
  }

  lemma IfXor(p: bool, q: bool, c: bv8)
    ensures If(p != q, c) == Sum(If(p, c), If(q, c))
  {
  }

  lemma ShiftIsSum(a: bv8, p: bool)
    ensures Shift(a, p) == Sum(Sum(a << 1, If(p, 1)), If(Top(a), 0x07))
  {
  }

  /** Shifting is linear. */
  lemma ShiftXor(a: bv8, b: bv8, p: bool, q: bool)
    ensures Shift(Sum(a, b), p != q) == Sum(Shift(a, p), Shift(b, q))
  {
    hide Shift, Sum, If, Top;
    ShiftIsSum(a, p);
    ShiftIsSum(b, q);
    ShiftIsSum(Sum(a, b), p != q);
    SumShifts(a, b);
    IfXor(p, q, 1);
    IfXor(Top(a), Top(b), 0x07);
    SumSwaps(a << 1, b << 1, If(p, 1), If(q, 1));
    SumSwaps(Sum(a << 1, If(p, 1)), Sum(b << 1, If(q, 1)), If(Top(a), 0x07), If(Top(b), 0x07));
  }

  lemma ShiftInjective(a: bv8, b: bv8, p: bool)
    requires Shift(a, p) == Shift(b, p)
    ensures a == b
  {
  }

  /** The sum of the bits, modulo 2. */
  function Parity(c: bv8): bool {
    var a := c ^ (c >> 4);
    var b := a ^ (a >> 2);
    (b ^ (b >> 1)) & 1 != 0
  }

  lemma ShiftParity(a: bv8, p: bool)
    ensures Parity(Shift(a, p)) == (Parity(a) != p)
  {
  }

  // ----- sequences of bits

  function Feed(crc: bv8, bits: seq<bool>): bv8 {
    if bits == [] then crc else Shift(Feed(crc, bits[..|bits| - 1]), bits[|bits| - 1])
  }

  /** balboa_calc_cs: the message and eight zero bits, from 0xb5 on. */
  function Checksum(data: seq<bv8>): bv8 {
    Feed(0xb5, Bits(data) + Zeros(8)) ^ 0x02
  }

  // ----- the program

  /** The body of the inner loop of crc_update. */
  method ShiftBit(crc0: bv8, c: bv8, i: nat) returns (crc: bv8)
    requires i < 8
    ensures crc == Shift(crc0, Bit(c, i))
  {
    var x := (c >> (7 - i)) & 0x01;
    assert x == if Bit(c, i) then 1 else 0 by {
      LowBit(c >> (7 - i));
    }
    var bit := crc0 & 0x80 != 0;
    crc := (crc0 << 1) | x;
    if bit {
      crc := crc ^ 0x07;
    }
  }

  lemma LowBit(x: bv8)
    ensures x & 0x01 == if x & 0x01 != 0 then 1 else 0
  {
  }

  /** The inner loop of crc_update. */
  method UpdateByte(crc0: bv8, c: bv8) returns (crc: bv8)
    ensures crc == Feed(crc0, ByteBits(c))
  {
    hide Shift;
    crc := crc0;
    ghost var bits := ByteBits(c);
    for i := 0 to 8
      invariant crc == Feed(crc0, bits[..i])
    {
      assert bits[..i + 1][..i] == bits[..i];
      crc := ShiftBit(crc, c, i);
    }
    assert bits[..8] == bits;
  }

  method CrcUpdate(crc0: bv8, data: seq<bv8>) returns (crc: bv8)
    ensures crc == Feed(crc0, Bits(data))
  {
    crc := crc0;
    assert Feed(crc0, []) == crc0;
    hide Feed;
    for k := 0 to |data|
      invariant crc == Feed(crc0, Bits(data[..k]))
    {
      crc := UpdateByte(crc, data[k]);
      assert data[..k + 1][..k] == data[..k];
      FeedMore(crc0, Bits(data[..k]), ByteBits(data[k]));
    }
    assert data[..|data|] == data;
  }

  lemma OneZero(crc: bv8)
    ensures Shift(crc, false) == var s := crc << 1; if crc & 0x80 != 0 then s ^ 0x07 else s
  {
  }

  method CrcFinalize(crc0: bv8) returns (crc: bv8)
    ensures crc == Feed(crc0, Zeros(8)) ^ 0x02
  {
    hide Shift;
    crc := crc0;
    ghost var zeros := Zeros(8);
    for i := 0 to 8
      invariant crc == Feed(crc0, zeros[..i])
    {
      assert zeros[..i + 1][..i] == zeros[..i];
      OneZero(crc);
      var bit := crc & 0x80 != 0;
      crc := crc << 1;
      if bit {
        crc := crc ^ 0x07;
      }
    }
    assert zeros[..8] == zeros;
    crc := crc ^ 0x02;
  }

  method CalcCs(data: seq<bv8>) returns (cs: bv8)
    ensures cs == Checksum(data)
  {
    var crc := CrcUpdate(0xb5, data);
    cs := CrcFinalize(crc);
    FeedMore(0xb5, Bits(data), Zeros(8));
  }

  // ----- chunks

  lemma {:induction false} FeedMore(crc: bv8, a: seq<bool>, b: seq<bool>)
    ensures Feed(crc, a + b) == Feed(Feed(crc, a), b)
    decreases |b|
  {
    if b == [] {
      assert a + b == a;
    } else {
      assert (a + b)[..|a + b| - 1] == a + b[..|b| - 1];
      FeedMore(crc, a, b[..|b| - 1]);
    }
  }

  /** Updating in chunks is updating with the whole. */
  lemma Chunks(crc: bv8, a: seq<bv8>, b: seq<bv8>)
    ensures Feed(Feed(crc, Bits(a)), Bits(b)) == Feed(crc, Bits(a + b))
  {
    BitsMore(a, b);
    FeedMore(crc, Bits(a), Bits(b));
  }

  // ----- the direct form

  function Xor(a: seq<bool>, b: seq<bool>): (c: seq<bool>)
    requires |a| == |b|
    ensures |c| == |a|
  {
    seq(|a|, i requires 0 <= i < |a| => a[i] != b[i])
  }

  lemma {:induction false} FeedXor(c: bv8, d: bv8, a: seq<bool>, b: seq<bool>)
    requires |a| == |b|
    ensures Feed(Sum(c, d), Xor(a, b)) == Sum(Feed(c, a), Feed(d, b))
    decreases |a|
  {
    hide Shift, Sum;
    if a != [] {
      var n := |a| - 1;
      assert Xor(a, b)[..n] == Xor(a[..n], b[..n]);
      FeedXor(c, d, a[..n], b[..n]);
      ShiftXor(Feed(c, a[..n]), Feed(d, b[..n]), a[n], b[n]);
    }
  }

  /** Eight bits written out. */
  lemma FeedEight(crc: bv8, bits: seq<bool>)
    requires |bits| == 8
    ensures Feed(crc, bits)
      == Shift(Shift(Shift(Shift(Shift(Shift(Shift(Shift(crc, bits[0]), bits[1]), bits[2]), bits[3]), bits[4]),
        bits[5]), bits[6]), bits[7])
  {
    hide Shift;
    FeedFour(crc, bits[..4]);
    FeedFour(Feed(crc, bits[..4]), bits[4..]);
    FeedMore(crc, bits[..4], bits[4..]);
    assert bits == bits[..4] + bits[4..];
  }

  lemma FeedFour(crc: bv8, bits: seq<bool>)
    requires |bits| == 4
    ensures Feed(crc, bits) == Shift(Shift(Shift(Shift(crc, bits[0]), bits[1]), bits[2]), bits[3])
  {
    hide Shift;
    assert bits[..3][..2] == bits[..2] && bits[..2][..1] == bits[..1] && bits[..1][..0] == [];
    assert Feed(crc, bits[..1]) == Shift(crc, bits[0]);
    assert Feed(crc, bits[..2]) == Shift(Shift(crc, bits[0]), bits[1]);
    assert Feed(crc, bits[..3]) == Shift(Feed(crc, bits[..2]), bits[2]);
  }

  /** Eight bits fill an empty register. */
  lemma FeedByte(c: bv8)
    ensures Feed(0, ByteBits(c)) == c
  {
    FeedEight(0, ByteBits(c));
    ByteBack(c);
  }

  lemma ByteBack(c: bv8)
    ensures Shift(Shift(Shift(Shift(Shift(Shift(Shift(Shift(0, Bit(c, 0)), Bit(c, 1)), Bit(c, 2)), Bit(c, 3)),
      Bit(c, 4)), Bit(c, 5)), Bit(c, 6)), Bit(c, 7)) == c
  {
  }

  /** The register after eight zero bits. */
  function Z8(crc: bv8): bv8 {
    Feed(crc, Zeros(8))
  }

  lemma FeedIsZ8(crc: bv8, c: bv8)
    ensures Feed(crc, ByteBits(c)) == Z8(crc) ^ c
  {
    hide Feed;
    assert Xor(Zeros(8), ByteBits(c)) == ByteBits(c);
    FeedXor(crc, 0, Zeros(8), ByteBits(c));
    FeedByte(c);
    assert crc ^ 0 == crc;
  }

  /** The usual form of a CRC-8: each byte is added to the register, which then shifts eight times. */
  function Direct(crc: bv8, data: seq<bv8>): bv8 {
    if data == [] then crc else Z8(Direct(crc, data[..|data| - 1]) ^ data[|data| - 1])
  }

  lemma StartsAt02()
    ensures Z8(0xb5) == 0x02
  {
    FeedEight(0xb5, Zeros(8));
  }

  lemma {:induction false} AugmentedIsDirect(data: seq<bv8>)
    ensures Z8(Feed(0xb5, Bits(data))) == Direct(0x02, data)
    decreases |data|
  {
    hide Z8;
    if data == [] {
      StartsAt02();
    } else {
      var most, c := data[..|data| - 1], data[|data| - 1];
      AugmentedIsDirect(most);
      FeedMore(0xb5, Bits(most), ByteBits(c));
      FeedIsZ8(Feed(0xb5, Bits(most)), c);
    }
  }

  /** The checksum is the CRC-8 with initial value 0x02. */
  lemma ChecksumIsCrc8(data: seq<bv8>)
    ensures Checksum(data) == Direct(0x02, data) ^ 0x02
  {
    FeedMore(0xb5, Bits(data), Zeros(8));
    AugmentedIsDirect(data);
  }

  // ----- errors

  /** Where two messages of the same length differ. */
  function Errors(a: seq<bv8>, b: seq<bv8>): seq<bool>
    requires |a| == |b|
  {
    Xor(Bits(a), Bits(b))
  }

  lemma SyndromeOfErrors(a: seq<bv8>, b: seq<bv8>)
    requires |a| == |b|
    ensures Checksum(a) == Checksum(b) <==> Feed(0, Errors(a, b) + Zeros(8)) == 0
  {
    hide Feed;
    var x, y, z := Bits(a), Bits(b), Zeros(8);
    assert Xor(x + z, y + z) == Xor(x, y) + z;
    FeedXor(0xb5, 0xb5, x + z, y + z);
    XorZero(Feed(0xb5, x + z), Feed(0xb5, y + z));
  }

  lemma XorZero(p: bv8, q: bv8)
    ensures p ^ q == 0 <==> p == q
    ensures p ^ 0x02 == q ^ 0x02 <==> p == q
    ensures 0xb5 ^ 0xb5 == 0 as bv8
  {
  }

  /** Whether an odd number of bits is set. */
  function Odd(e: seq<bool>): bool {
    if e == [] then false else Odd(e[..|e| - 1]) != e[|e| - 1]
  }

  lemma {:induction false} FeedParity(crc: bv8, e: seq<bool>)
    ensures Parity(Feed(crc, e)) == (Parity(crc) != Odd(e))
    decreases |e|
  {
    hide Shift, Parity;
    if e != [] {
      FeedParity(crc, e[..|e| - 1]);
      ShiftParity(Feed(crc, e[..|e| - 1]), e[|e| - 1]);
    }
  }

  lemma {:induction false} ZerosEven(e: seq<bool>, n: nat)
    ensures Odd(e + Zeros(n)) == Odd(e)
    decreases n
  {
    if n == 0 {
      assert e + Zeros(0) == e;
    } else {
      assert (e + Zeros(n))[..|e| + n - 1] == e + Zeros(n - 1);
      ZerosEven(e, n - 1);
    }
  }

  /** Any odd number of flipped bits changes the checksum. */
  lemma OddErrorsShow(a: seq<bv8>, b: seq<bv8>)
    requires |a| == |b| && Odd(Errors(a, b))
    ensures Checksum(a) != Checksum(b)
  {
    hide Feed, Checksum;
    SyndromeOfErrors(a, b);
    ZerosEven(Errors(a, b), 8);
    FeedParity(0, Errors(a, b) + Zeros(8));
    assert !Parity(0);
  }

  lemma {:induction false} FeedZeros(crc: bv8, n: nat)
    ensures Feed(crc, Zeros(n)) == 0 <==> crc == 0
    decreases n
  {
    hide Shift;
    if n > 0 {
      assert Zeros(n)[..n - 1] == Zeros(n - 1);
      FeedZeros(crc, n - 1);
      ShiftZero();
      if Feed(crc, Zeros(n)) == 0 {
        ShiftInjective(Feed(crc, Zeros(n - 1)), 0, false);
      }
    }
  }

  lemma ShiftZero()
    ensures Shift(0, false) == 0
  {
  }

  /** All errors lie within the eight bits from `p` on. */
  predicate Burst(e: seq<bool>, p: nat)
    ensures Burst(e, p) ==> p + 8 <= |e|
  {
    p + 8 <= |e| && forall i :: 0 <= i < |e| && e[i] ==> p <= i < p + 8
  }

  /** Eight bits that leave an empty register empty are zero. */
  lemma EightZero(e: seq<bool>)
    requires |e| == 8 && Feed(0, e) == 0
    ensures !e[0] && !e[1] && !e[2] && !e[3] && !e[4] && !e[5] && !e[6] && !e[7]
  {
    FeedEight(0, e);
    ShiftsZero(e[0], e[1], e[2], e[3], e[4], e[5], e[6], e[7]);
  }

  lemma ShiftsZero(a: bool, b: bool, c: bool, d: bool, e: bool, f: bool, g: bool, h: bool)
    requires Shift(Shift(Shift(Shift(Shift(Shift(Shift(Shift(0, a), b), c), d), e), f), g), h) == 0
    ensures !a && !b && !c && !d && !e && !f && !g && !h
  {
  }

  lemma BurstParts(e: seq<bool>, p: nat)
    requires Burst(e, p)
    ensures e + Zeros(8) == Zeros(p) + e[p..p + 8] + Zeros(|e| - p)
  {
  }

  lemma BurstSyndrome(e: seq<bool>, p: nat)
    requires Burst(e, p)
    ensures Feed(0, e + Zeros(8)) == 0 <==> Feed(0, e[p..p + 8]) == 0
  {
    hide Feed, Burst;
    var middle := e[p..p + 8];
    BurstParts(e, p);
    FeedMore(0, Zeros(p) + middle, Zeros(|e| - p));
    FeedMore(0, Zeros(p), middle);
    FeedZeros(0, p);
    FeedZeros(Feed(0, middle), |e| - p);
  }

  /** Any error pattern within eight bits in a row changes the checksum. */
  lemma BurstErrorsShow(a: seq<bv8>, b: seq<bv8>, p: nat)
    requires |a| == |b| && Burst(Errors(a, b), p) && true in Errors(a, b)
    ensures Checksum(a) != Checksum(b)
  {
    hide Feed, Checksum, Errors;
    var e := Errors(a, b);
    SyndromeOfErrors(a, b);
    BurstSyndrome(e, p);
    var i :| 0 <= i < |e| && e[i];
    assert e[p..p + 8][i - p];
    if Feed(0, e[p..p + 8]) == 0 {
      EightZero(e[p..p + 8]);
      assert false;
    }
  }
}
