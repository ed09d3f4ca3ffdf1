/**
 Greatest common divisors: the recursion the server uses, against the divisibility order.
 */
module Divisors {

  function Gcd(a: nat, b: nat): nat
    decreases a
  {
    if a == 0 then b else Gcd(b % a, a)
  }

  function Magnitude(n: int): nat {
    if n < 0 then -n else n
  }

  /** `b % a` of C, which has the sign of `b`. */
  function Rem(b: int, a: int): (r: int)
    requires a != 0
    ensures Magnitude(r) < Magnitude(a)
  {
    if b < 0 then -(Magnitude(b) % Magnitude(a)) else b % Magnitude(a)
  }

  /** gcd, for any two integers. */
  function IntGcd(a: int, b: int): int
    decreases Magnitude(a)
  {
    if a == 0 then b else IntGcd(Rem(b, a), a)
  }

  lemma {:induction false} IntGcdIsGcd(a: nat, b: nat)
    ensures IntGcd(a, b) == Gcd(a, b)
    decreases a
  {
    if a > 0 {
      IntGcdIsGcd(b % a, a);
    }
  }

  /** Signs do not matter for the size of the result. */
  lemma {:induction false} IntGcdMagnitude(a: int, b: int)
    ensures Magnitude(IntGcd(a, b)) == Gcd(Magnitude(a), Magnitude(b))
    decreases Magnitude(a)
  {
    if a != 0 {
      RemMagnitude(b, a);
      IntGcdMagnitude(Rem(b, a), a);
    }
  }

  lemma RemMagnitude(b: int, a: int)
    requires a != 0
    ensures Magnitude(Rem(b, a)) == Magnitude(b) % Magnitude(a)
  {
  }

  ghost predicate Divides(d: nat, n: nat) {
    exists k: nat :: n == d * k
  }

  ghost predicate DividesBoth(d: nat, a: nat, b: nat) {
    Divides(d, a) && Divides(d, b)
  }

  lemma Regroup(d: int, x: int, q: int)
    ensures (d * x) * q == d * (x * q)
  {
  }

  lemma Distribute(d: int, u: int, y: int)
    ensures d * u + d * y == d * (u + y)
  {
  }

  lemma DividesSum(d: nat, a: nat, b: nat, q: nat)
    requires Divides(d, a) && Divides(d, b)
    ensures Divides(d, a * q + b)
  {
    var x: nat :| a == d * x;
    var y: nat :| b == d * y;
    Regroup(d, x, q);
    Distribute(d, x * q, y);
  }

  lemma DividesDifference(d: nat, a: nat, b: nat, q: nat)
    requires Divides(d, a) && Divides(d, b) && b >= a * q
    ensures Divides(d, b - a * q)
  {
    var x: nat :| a == d * x;
    var y: nat :| b == d * y;
    Regroup(d, x, q);
    var k := y - x * q;
    Distribute(d, x * q, k);
    if k < 0 {
      NotNegative(d, k);
      assert d * 0 == b - a * q;
    }
  }

  lemma NotNegative(d: nat, k: int)
    requires k < 0
    ensures d * k <= 0
  {
  }

  /** One step of the recursion keeps the common divisors. */
  lemma SameDivisors(a: nat, b: nat, d: nat)
    requires a > 0
    ensures DividesBoth(d, b % a, a) <==> DividesBoth(d, a, b)
  {
    var q, r := b / a, b % a;
    assert b == a * q + r;
    if DividesBoth(d, r, a) {
      DividesSum(d, a, r, q);
    }
    if DividesBoth(d, a, b) {
      DividesDifference(d, a, b, q);
    }
  }

  /** The common divisors of two numbers are the divisors of their gcd. */
  lemma {:induction false} GcdDivisors(a: nat, b: nat, d: nat)
    ensures Divides(d, Gcd(a, b)) <==> DividesBoth(d, a, b)
    decreases a
  {
    if a == 0 {
      assert 0 == d * 0;
    } else {
      GcdDivisors(b % a, a, d);
      SameDivisors(a, b, d);
    }
  }

  lemma {:induction false} GcdPositive(a: nat, b: nat)
    requires a > 0 || b > 0
    ensures Gcd(a, b) > 0
    decreases a
  {
    if a > 0 {
      GcdPositive(b % a, a);
    }
  }

  lemma DividesItself(n: nat)
    ensures Divides(n, n)
  {
    assert n == n * 1;
  }

  lemma DivisorIsSmaller(d: nat, n: nat)
    requires Divides(d, n) && n > 0
    ensures 0 < d <= n
  {
    var k: nat :| n == d * k;
    assert k == 0 ==> d * k == 0;
    assert k > 0 ==> d * k >= d;
  }
}
