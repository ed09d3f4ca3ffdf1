/** Decimal numbers as printf writes them and as atoi and strtoul read them, where long has 64 bits. */
module Decimals {

  const INT_MAX := 0x7fff_ffff
  const UINT_MAX := 0xffff_ffff
  const LONG_MAX := 0x7fff_ffff_ffff_ffff
  const ULONG_MAX := 0xffff_ffff_ffff_ffff

  /** int and unsigned int */
  type CInt = n: int | -INT_MAX - 1 <= n <= INT_MAX
  type CUInt = n: nat | n <= UINT_MAX

  predicate IsDigit(c: char) {
    '0' <= c <= '9'
  }

  predicate AllDigits(s: string) {
    forall i :: 0 <= i < |s| ==> IsDigit(s[i])
  }

  function DigitChar(d: nat): (c: char)
    requires d < 10
    ensures IsDigit(c) && c as int - '0' as int == d
  {
    '0' + d as char
  }

  /** `%u` */
  function Unsigned(n: nat): (s: string)
    ensures AllDigits(s) && s != ""
  {
    if n < 10 then [DigitChar(n)] else Unsigned(n / 10) + [DigitChar(n % 10)]
  }

  /** `%d` */
  function Signed(n: int): string {
    if n < 0 then "-" + Unsigned(-n) else Unsigned(n)
  }

  /** The digits at the beginning of `s`, read on from `acc`. */
  function ReadDigits(s: string, acc: nat): nat {
    if s != "" && IsDigit(s[0]) then ReadDigits(s[1..], 10 * acc + (s[0] as int - '0' as int)) else acc
  }

  function SkipSpace(s: string): string {
    if s != "" && (s[0] == ' ' || '\t' <= s[0] <= '\r') then SkipSpace(s[1..]) else s
  }

  /** The sign and the magnitude of the number at the beginning of `s`. */
  function ReadNumber(s: string): (bool, nat) {
    var t := SkipSpace(s);
    if t != "" && t[0] == '-' then (true, ReadDigits(t[1..], 0))
    else if t != "" && t[0] == '+' then (false, ReadDigits(t[1..], 0))
    else (false, ReadDigits(t, 0))
  }

  /** strtol and strtoll: what does not fit stops at the end of the range. */
  function Strtol(s: string): int {
    var (minus, m) := ReadNumber(s);
    var n: int := m;
    if minus then (if n > LONG_MAX + 1 then -LONG_MAX - 1 else -n) else if n > LONG_MAX then LONG_MAX else n
  }

  /** atoi, which keeps the low 32 bits. */
  function Atoi(s: string): CInt {
    (Strtol(s) + INT_MAX + 1) % (UINT_MAX + 1) - INT_MAX - 1
  }

  /** strtoul, assigned to a variable of 32 bits. */
  function Strtoul(s: string): CUInt {
    var (minus, m) := ReadNumber(s);
    var n: int := m;
    (if n > ULONG_MAX then ULONG_MAX else if minus then -n else n) % (UINT_MAX + 1)
  }

  lemma {:induction false} ReadDigitsMore(s: string, c: char, acc: nat)
    requires AllDigits(s) && IsDigit(c)
    ensures ReadDigits(s + [c], acc) == 10 * ReadDigits(s, acc) + (c as int - '0' as int)
    decreases |s|
  {
    if s == "" {
      assert (s + [c])[1..] == "";
    } else {
      assert (s + [c])[1..] == s[1..] + [c];
      ReadDigitsMore(s[1..], c, 10 * acc + (s[0] as int - '0' as int));
    }
  }

  lemma {:induction false} ReadUnsigned(n: nat)
    ensures ReadDigits(Unsigned(n), 0) == n
  {
    if n < 10 {
      assert Unsigned(n)[1..] == "";
    } else {
      ReadUnsigned(n / 10);
      ReadDigitsMore(Unsigned(n / 10), DigitChar(n % 10), 0);
    }
  }

  lemma ReadSigned(n: int)
    ensures ReadNumber(Signed(n)) == (n < 0, if n < 0 then -n else n)
  {
    if n < 0 {
      ReadUnsigned(-n);
      assert Signed(n)[1..] == Unsigned(-n);
    } else {
      ReadUnsigned(n);
      assert IsDigit(Signed(n)[0]);
    }
  }

  /** atoi undoes `%d` exactly on the numbers of an int. */
  lemma AtoiSigned(n: int)
    ensures Atoi(Signed(n)) == n <==> -INT_MAX - 1 <= n <= INT_MAX
  {
    ReadSigned(n);
  }

  /** strtoll undoes `%lld` exactly on 64 bits; numbers beyond stop at the end of the range. */
  lemma StrtolSigned(n: int)
    ensures Strtol(Signed(n)) == n <==> -LONG_MAX - 1 <= n <= LONG_MAX
    ensures n > LONG_MAX ==> Strtol(Signed(n)) == LONG_MAX
    ensures n < -LONG_MAX - 1 ==> Strtol(Signed(n)) == -LONG_MAX - 1
  {
    ReadSigned(n);
  }

  /** strtoul undoes `%u` exactly on the numbers of an unsigned int. */
  lemma StrtoulUnsigned(n: nat)
    ensures Strtoul(Unsigned(n)) == n <==> n <= UINT_MAX
  {
    ReadSigned(n);
  }
}
