/** base64_encode, and section 4 of RFC 4648. */
module Base64 {
  import opened BitStrings

  const ALPHABET: string := "ABCDEFGHIJKLMNOPQRSTUVWXYZ" + "abcdefghijklmnopqrstuvwxyz" + "0123456789+/"

  /** The character of a value of six bits. */
  function Char(v: bv8): char
    requires v < 64
  {
    ALPHABET[v as nat]
  }

  // ----- the standard: bits in groups of six

  function Six(b: seq<bool>): (v: bv8)
    requires |b| == 6
    ensures v < 64
  {
    (if b[0] then 32 else 0) | (if b[1] then 16 else 0) | (if b[2] then 8 else 0)
    | (if b[3] then 4 else 0) | (if b[4] then 2 else 0) | (if b[5] then 1 else 0)
  }

  /** One character for every six bits; zero bits complete the last group. */
  function Sextets(bits: seq<bool>): string
    decreases |bits|
  {
    if bits == [] then ""
    else if |bits| < 6 then [Char(Six(bits + Zeros(6 - |bits|)))]
    else [Char(Six(bits[..6]))] + Sextets(bits[6..])
  }

  function Pads(n: nat): (s: string)
    ensures |s| == n && forall i :: 0 <= i < n ==> s[i] == '='
  {
    seq(n, i => '=')
  }

  /** The encoding of a message, with one or two `=` behind an incomplete group of three bytes. */
  function Encoding(data: seq<bv8>): string {
    Sextets(Bits(data)) + Pads((3 - |data| % 3) % 3)
  }

  // ----- a decoder

  /** The place of a character in the alphabet. */
  function Index(c: char): (n: nat)
    ensures n < 64
  {
    if 'A' <= c <= 'Z' then c as nat - 'A' as nat
    else if 'a' <= c <= 'z' then c as nat - 'a' as nat + 26
    else if '0' <= c <= '9' then c as nat - '0' as nat + 52
    else if c == '+' then 62
    else 63
  }

  function Value(c: char): bv8 {
    Index(c) as bv8
  }

  function SixBits(v: bv8): (b: seq<bool>)
    ensures |b| == 6
  {
    [v & 32 != 0, v & 16 != 0, v & 8 != 0, v & 4 != 0, v & 2 != 0, v & 1 != 0]
  }

  function BitsOf(s: string): seq<bool> {
    if s == "" || s[0] == '=' then [] else SixBits(Value(s[0])) + BitsOf(s[1..])
  }

  function Byte(b: seq<bool>): bv8
    requires |b| == 8
  {
    (if b[0] then 128 else 0) | (if b[1] then 64 else 0) | (if b[2] then 32 else 0) | (if b[3] then 16 else 0)
    | (if b[4] then 8 else 0) | (if b[5] then 4 else 0) | (if b[6] then 2 else 0) | (if b[7] then 1 else 0)
  }

  /** Whole bytes; what is left over is dropped. */
  function Bytes(bits: seq<bool>): seq<bv8>
    decreases |bits|
  {
    if |bits| < 8 then [] else [Byte(bits[..8])] + Bytes(bits[8..])
  }

  function Decode(s: string): seq<bv8> {
    Bytes(BitsOf(s))
  }

  // ----- the decoder undoes the encoding

  lemma LettersAt(i: nat)
    requires i < 26
    ensures ALPHABET[i] == 'A' + i as char && ALPHABET[26 + i] == 'a' + i as char
  {
    assert ALPHABET[i] == "ABCDEFGHIJKLMNOPQRSTUVWXYZ"[i];
    assert ALPHABET[26 + i] == "abcdefghijklmnopqrstuvwxyz"[i];
  }

  lemma DigitsAt(i: nat)
    requires i < 10
    ensures ALPHABET[52 + i] == '0' + i as char
  {
    assert ALPHABET[52 + i] == "0123456789+/"[i];
  }

  /** Table 1 of RFC 4648: the characters by value. */
  lemma CharIs(v: bv8)
    requires v < 64
    ensures var n := v as nat;
      Char(v) == if n < 26 then 'A' + n as char
                 else if n < 52 then 'a' + (n - 26) as char
                 else if n < 62 then '0' + (n - 52) as char
                 else if n == 62 then '+' else '/'
  {
    var n := v as nat;
    if n < 26 {
      LettersAt(n);
    } else if n < 52 {
      LettersAt(n - 26);
    } else if n < 62 {
      DigitsAt(n - 52);
    }
  }

  lemma IndexOfChar(n: nat)
    requires n < 64
    ensures Index(ALPHABET[n]) == n && ALPHABET[n] != '='
  {
    if n < 26 {
      LettersAt(n);
    } else if n < 52 {
      LettersAt(n - 26);
    } else if n < 62 {
      DigitsAt(n - 52);
    }
  }

  lemma ValueOfChar(v: bv8)
    requires v < 64
    ensures Value(Char(v)) == v && Char(v) != '='
  {
    hide Index;
    IndexOfChar(v as nat);
  }

  lemma SixBack(b: seq<bool>)
    requires |b| == 6
    ensures SixBits(Six(b)) == b
  {
  }

  lemma ByteBack(c: bv8)
    ensures Byte(ByteBits(c)) == c
  {
  }

  function Fill(n: nat): nat {
    (6 - n % 6) % 6
  }

  lemma BitsOfChar(b: seq<bool>, s: string)
    requires |b| == 6
    ensures BitsOf([Char(Six(b))] + s) == b + BitsOf(s)
  {
    hide Six, Char, SixBits, Value;
    ValueOfChar(Six(b));
    SixBack(b);
    assert ([Char(Six(b))] + s)[1..] == s;
  }

  lemma BitsOfPads(n: nat)
    ensures BitsOf(Pads(n)) == []
  {
  }

  lemma FillMore(bits: seq<bool>)
    requires |bits| >= 6
    ensures bits[..6] + (bits[6..] + Zeros(Fill(|bits| - 6))) == bits + Zeros(Fill(|bits|))
  {
    assert bits == bits[..6] + bits[6..];
  }

  lemma {:induction false} BitsOfSextets(bits: seq<bool>, n: nat)
    ensures BitsOf(Sextets(bits) + Pads(n)) == bits + Zeros(Fill(|bits|))
    decreases |bits|
  {
    hide Six, Char, BitsOf, Pads;
    BitsOfPads(n);
    if bits == [] {
      assert Sextets(bits) + Pads(n) == Pads(n) && bits + Zeros(0) == [];
    } else if |bits| < 6 {
      BitsOfChar(bits + Zeros(6 - |bits|), Pads(n));
    } else {
      var s := Sextets(bits[6..]) + Pads(n);
      assert Sextets(bits) + Pads(n) == [Char(Six(bits[..6]))] + s;
      BitsOfChar(bits[..6], s);
      BitsOfSextets(bits[6..], n);
      FillMore(bits);
    }
  }

  lemma {:induction false} BytesOfBits(data: seq<bv8>, n: nat)
    requires n < 8
    ensures Bytes(Bits(data) + Zeros(n)) == data
    decreases |data|
  {
    hide Byte, ByteBits;
    if data != [] {
      var c, more := data[0], data[1..];
      var bits := Bits(data) + Zeros(n);
      assert data == [c] + more;
      BitsMore([c], more);
      BitsOne(c);
      assert bits == ByteBits(c) + (Bits(more) + Zeros(n));
      assert bits[..8] == ByteBits(c) && bits[8..] == Bits(more) + Zeros(n);
      ByteBack(c);
      BytesOfBits(more, n);
    }
  }

  lemma BitsOne(c: bv8)
    ensures Bits([c]) == ByteBits(c)
  {
    assert [c][..0] == [] && Bits([]) == [];
  }

  /** Every byte sequence is recovered from its encoding. */
  lemma DecodeEncoding(data: seq<bv8>)
    ensures Decode(Encoding(data)) == data
  {
    BitsOfSextets(Bits(data), (3 - |data| % 3) % 3);
    BytesOfBits(data, Fill(8 * |data|));
  }

  // ----- the program

  lemma {:induction false} SextetsLength(bits: seq<bool>)
    ensures |Sextets(bits)| == (|bits| + 5) / 6
    decreases |bits|
  {
    if |bits| >= 6 {
      SextetsLength(bits[6..]);
    }
  }

  lemma PaddedLength(n: nat)
    ensures (8 * n + 5) / 6 + (3 - n % 3) % 3 == 4 * ((n + 2) / 3)
  {
    var k, r := n / 3, n % 3;
    assert n == 3 * k + r;
    assert r == 0 || r == 1 || r == 2;
  }

  lemma EncodingLength(data: seq<bv8>)
    ensures |Encoding(data)| == 4 * ((|data| + 2) / 3)
    ensures |Sextets(Bits(data))| == (8 * |data| + 5) / 6
  {
    hide Sextets, Bits;
    SextetsLength(Bits(data));
    PaddedLength(|data|);
  }

  /** The four values of a group of three bytes. */
  function Quad(c0: bv8, c1: bv8, c2: bv8): (bv8, bv8, bv8, bv8) {
    var n := ((c0 as bv32) << 16) + ((c1 as bv32) << 8) + c2 as bv32;
    ((((n >> 18) & 0xff) as bv8) & 63, (((n >> 12) & 0xff) as bv8) & 63,
     (((n >> 6) & 0xff) as bv8) & 63, ((n & 0xff) as bv8) & 63)
  }

  lemma QuadShifts(c0: bv8, c1: bv8, c2: bv8)
    ensures Quad(c0, c1, c2).0 == c0 >> 2
    ensures Quad(c0, c1, c2).1 == ((c0 & 3) << 4) | (c1 >> 4)
    ensures Quad(c0, c1, c2).2 == ((c1 & 15) << 2) | (c2 >> 6)
    ensures Quad(c0, c1, c2).3 == c2 & 63
  {
  }

  /** Bit `i` of two bytes. */
  function BitOf(c: bv8, d: bv8, i: nat): bool
    requires i < 16
  {
    if i < 8 then Bit(c, i) else Bit(d, i - 8)
  }

  /** Six bits of two bytes, from bit `i` on. */
  function SixOf(c: bv8, d: bv8, i: nat): (b: seq<bool>)
    requires i < 8
    ensures |b| == 6
  {
    [BitOf(c, d, i), BitOf(c, d, i + 1), BitOf(c, d, i + 2), BitOf(c, d, i + 3), BitOf(c, d, i + 4), BitOf(c, d, i + 5)]
  }

  lemma SixFrom0(c: bv8, d: bv8)
    ensures Six(SixOf(c, d, 0)) == c >> 2
  {
  }

  lemma SixFrom2(c: bv8, d: bv8)
    ensures Six(SixOf(c, d, 2)) == c & 63
  {
  }

  lemma SixFrom4(c: bv8, d: bv8)
    ensures Six(SixOf(c, d, 4)) == ((c & 15) << 2) | (d >> 6)
  {
  }

  lemma SixFrom6(c: bv8, d: bv8)
    ensures Six(SixOf(c, d, 6)) == ((c & 3) << 4) | (d >> 4)
  {
  }

  /** The bit at index `k`; zero bits follow the last. */
  function BitOrZero(bits: seq<bool>, k: nat): bool {
    k < |bits| && bits[k]
  }

  function Window(bits: seq<bool>, k: nat): (w: seq<bool>)
    ensures |w| == 6
  {
    [BitOrZero(bits, k), BitOrZero(bits, k + 1), BitOrZero(bits, k + 2),
     BitOrZero(bits, k + 3), BitOrZero(bits, k + 4), BitOrZero(bits, k + 5)]
  }

  lemma {:induction false} SextetAt(bits: seq<bool>, j: nat)
    requires 6 * j < |bits|
    ensures j < |Sextets(bits)| && Sextets(bits)[j] == Char(Six(Window(bits, 6 * j)))
    decreases |bits|
  {
    hide Six, Char;
    if |bits| < 6 {
      assert Window(bits, 0) == bits + Zeros(6 - |bits|);
    } else if j == 0 {
      assert Window(bits, 0) == bits[..6];
    } else {
      SextetAt(bits[6..], j - 1);
      assert Window(bits[6..], 6 * (j - 1)) == Window(bits, 6 * j);
    }
  }

  function ByteOrZero(data: seq<bv8>, k: nat): bv8 {
    if k < |data| then data[k] else 0
  }

  lemma ZeroBits(i: nat)
    requires i < 8
    ensures !Bit(0, i)
  {
    assert (0 as bv8) >> (7 - i) == 0;
  }

  lemma {:induction false} BitAt(data: seq<bv8>, k: nat, i: nat)
    requires i < 8
    ensures BitOrZero(Bits(data), 8 * k + i) == Bit(ByteOrZero(data, k), i)
    decreases |data|
  {
    hide Bit;
    ZeroBits(i);
    if k < |data| - 1 {
      BitAt(data[..|data| - 1], k, i);
    }
  }

  lemma WindowAt(data: seq<bv8>, k: nat, i: nat, j: nat)
    requires i < 8 && j < 6
    ensures Window(Bits(data), 8 * k + i)[j]
      == BitOf(ByteOrZero(data, k), ByteOrZero(data, k + 1), i + j)
  {
    hide Bit, Bits, ByteOrZero, BitOrZero;
    assert Window(Bits(data), 8 * k + i)[j] == BitOrZero(Bits(data), 8 * k + i + j);
    if i + j < 8 {
      BitAt(data, k, i + j);
    } else {
      BitAt(data, k + 1, i + j - 8);
    }
  }

  /** The window that begins at bit `i` of byte `k`. */
  lemma WindowBits(data: seq<bv8>, k: nat, i: nat)
    requires i < 8
    ensures Window(Bits(data), 8 * k + i) == SixOf(ByteOrZero(data, k), ByteOrZero(data, k + 1), i)
  {
    hide Bit, Bits, ByteOrZero, Window;
    WindowAt(data, k, i, 0);
    WindowAt(data, k, i, 1);
    WindowAt(data, k, i, 2);
    WindowAt(data, k, i, 3);
    WindowAt(data, k, i, 4);
    WindowAt(data, k, i, 5);
  }

  /** The characters of the group of three bytes that begins at `x`. */
  lemma GroupChars(data: seq<bv8>, x: nat)
    requires x % 3 == 0 && x < |data|
    ensures var q, s, p := Quad(data[x], ByteOrZero(data, x + 1), ByteOrZero(data, x + 2)),
      Sextets(Bits(data)), 4 * (x / 3);
      && q.0 < 64 && q.1 < 64 && q.2 < 64 && q.3 < 64
      && p + 1 < |s| && s[p] == Char(q.0) && s[p + 1] == Char(q.1)
      && (x + 1 < |data| ==> p + 2 < |s| && s[p + 2] == Char(q.2))
      && (x + 2 < |data| ==> p + 3 < |s| && s[p + 3] == Char(q.3))
  {
    hide Quad, SixOf, Bits, Sextets, Char, Six, Window;
    var c, d, e := data[x], ByteOrZero(data, x + 1), ByteOrZero(data, x + 2);
    var p, bits := 4 * (x / 3), Bits(data);
    assert 6 * p == 8 * x;
    QuadShifts(c, d, e);
    WindowBits(data, x, 0);
    WindowBits(data, x, 6);
    WindowBits(data, x + 1, 4);
    WindowBits(data, x + 2, 2);
    SixFrom0(c, d);
    SixFrom6(c, d);
    SixFrom4(d, e);
    SixFrom2(e, ByteOrZero(data, x + 3));
    SextetAt(bits, p);
    SextetAt(bits, p + 1);
    if x + 1 < |data| {
      SextetAt(bits, p + 2);
    }
    if x + 2 < |data| {
      SextetAt(bits, p + 3);
    }
  }

  /** `if (resultIndex >= resultSize) return 1; result[resultIndex++] = c;`, for the next character of `e`. */
  method Put(result: array<char>, index: nat, c: char, ghost e: string) returns (ok: bool)
    requires index < |e| && index <= result.Length && result[..index] == e[..index] && c == e[index]
    modifies result
    ensures ok == (index < result.Length)
    ensures ok ==> result[..index + 1] == e[..index + 1]
    ensures !ok ==> result[..] == e[..result.Length]
    ensures forall k :: index < k < result.Length ==> result[k] == old(result[k])
  {
    if index >= result.Length {
      assert result[..] == result[..index];
      return false;
    }
    result[index] := c;
    assert result[..index + 1] == result[..index] + [c];
    assert e[..index + 1] == e[..index] + [c];
    return true;
  }

  lemma EncodingParts(data: seq<bv8>)
    ensures var s, e := Sextets(Bits(data)), Encoding(data);
      && |s| <= |e| && (forall k :: 0 <= k < |s| ==> e[k] == s[k]) && (forall k :: |s| <= k < |e| ==> e[k] == '=')
      && |e| == |s| + (3 - |data| % 3) % 3
  {
  }

  /** The number of characters that stand for bits after the groups in front of `x`. */
  function Done(n: nat, x: nat): nat {
    if x <= n then 4 * (x / 3) else (8 * n + 5) / 6
  }

  /** The body of the loop. */
  method PutGroup(data: seq<bv8>, x: nat, result: array<char>) returns (ok: bool, index: nat)
    requires x % 3 == 0 && x < |data|
    requires var e, p := Encoding(data), 4 * (x / 3); p <= |e| && p <= result.Length && result[..p] == e[..p]
    modifies result
    ensures var e := Encoding(data);
      if ok then
        && index == Done(|data|, x + 3) && index <= |e| && index <= result.Length && result[..index] == e[..index]
        && forall k :: index <= k < result.Length ==> result[k] == old(result[k])
      else result.Length < |e| && result[..] == e[..result.Length]
  {
    hide Encoding, Sextets, Bits, Quad, Char;
    ghost var e := Encoding(data);
    EncodingLength(data);
    EncodingParts(data);
    GroupChars(data, x);
    var q := Quad(data[x], ByteOrZero(data, x + 1), ByteOrZero(data, x + 2));
    index := 4 * (x / 3);
    ok := Put(result, index, Char(q.0), e);
    if !ok { return; }
    ok := Put(result, index + 1, Char(q.1), e);
    if !ok { return; }
    index := index + 2;
    if x + 1 < |data| {
      ok := Put(result, index, Char(q.2), e);
      if !ok { return; }
      index := index + 1;
    }
    if x + 2 < |data| {
      ok := Put(result, index, Char(q.3), e);
      if !ok { return; }
      index := index + 1;
    }
  }

  /** The padding, if the last group is incomplete. */
  method PutPads(data: seq<bv8>, result: array<char>, start: nat) returns (ok: bool, index: nat)
    requires var e, s := Encoding(data), Sextets(Bits(data));
      start == |s| && start <= |e| && start <= result.Length && result[..start] == e[..start]
    modifies result
    ensures var e := Encoding(data);
      if ok then
        && index == |e| && index <= result.Length && result[..index] == e
        && forall k :: index <= k < result.Length ==> result[k] == old(result[k])
      else result.Length < |e| && result[..] == e[..result.Length]
  {
    hide Encoding, Sextets, Bits;
    ghost var e := Encoding(data);
    EncodingLength(data);
    EncodingParts(data);
    index, ok := start, true;
    var padCount := |data| % 3;
    if padCount > 0 {
      while padCount < 3
        invariant |data| % 3 <= padCount <= 3 && index == |e| - 3 + padCount
        invariant index <= result.Length && result[..index] == e[..index]
        invariant forall k :: index <= k < result.Length ==> result[k] == old(result[k])
      {
        ok := Put(result, index, '=', e);
        if !ok { return; }
        index := index + 1;
        padCount := padCount + 1;
      }
    }
    assert e[..index] == e;
    ok := true;
  }

  /**
   The encoder: 0 and a terminated encoding if the buffer is large enough; otherwise 1, and as much
   of the encoding as there is room for.
   */
  method Encode(data: seq<bv8>, result: array<char>) returns (code: int)
    modifies result
    ensures code == if result.Length > 4 * ((|data| + 2) / 3) then 0 else 1
    ensures |Encoding(data)| == 4 * ((|data| + 2) / 3)
    ensures var e := Encoding(data);
      if code == 0 then
        && result[..|e|] == e && result[|e|] == '\0'
        && forall k :: |e| < k < result.Length ==> result[k] == old(result[k])
      else result.Length <= |e| && result[..] == e[..result.Length]
  {
    hide Encoding, Sextets, Bits;
    ghost var e := Encoding(data);
    EncodingLength(data);
    EncodingParts(data);
    var index, x, ok := 0, 0, true;
    while x < |data|
      invariant x % 3 == 0 && index == Done(|data|, x)
      invariant index <= |e| && index <= result.Length && result[..index] == e[..index]
      invariant forall k :: index <= k < result.Length ==> result[k] == old(result[k])
      decreases |data| - x
    {
      ok, index := PutGroup(data, x, result);
      if !ok { return 1; }
      x := x + 3;
    }
    ok, index := PutPads(data, result, index);
    if !ok { return 1; }
    if index >= result.Length {
      assert result[..] == result[..index];
      return 1;
    }
    result[index] := '\0';
    return 0;
  }
}
