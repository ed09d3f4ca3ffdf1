/** Lists as the queues and tables of the program use them. */
module Lists {

  datatype Option<+T> = None | Some(value: T)

  predicate Distinct<T(==)>(s: seq<T>) {
    forall i, j :: 0 <= i < j < |s| ==> s[i] != s[j]
  }

  /** `s` without any `x`. */
  function Without<T(==,!new)>(s: seq<T>, x: T): (r: seq<T>)
    ensures x !in r
    ensures forall y :: y in r <==> y in s && y != x
    ensures |r| <= |s| && (|r| == |s| ==> r == s)
  {
    if s == [] then []
    else
      var r := Without(s[..|s| - 1], x);
      if s[|s| - 1] == x then r else r + [s[|s| - 1]]
  }

  lemma {:induction false} WithoutCounts<T(!new)>(s: seq<T>, x: T, y: T)
    ensures multiset(Without(s, x))[y] == if y == x then 0 else multiset(s)[y]
  {
    if s != [] {
      var t := s[..|s| - 1];
      var z := s[|s| - 1];
      assert s == t + [z];
      WithoutCounts(t, x, y);
      assert multiset(s) == multiset(t) + multiset{z};
      var r := Without(t, x);
      assert Without(s, x) == if z == x then r else r + [z];
      assert multiset(r + [z]) == multiset(r) + multiset{z};
    }
  }

  lemma {:induction false} WithoutDistinct<T(!new)>(s: seq<T>, x: T)
    requires Distinct(s)
    ensures Distinct(Without(s, x))
  {
    if s != [] {
      var t, z := s[..|s| - 1], s[|s| - 1];
      WithoutDistinct(t, x);
      var r := Without(t, x);
      assert z !in t;
      assert forall i :: 0 <= i < |r| ==> r[i] in r && r[i] != z;
    }
  }

  lemma Associative<T>(a: seq<T>, b: seq<T>, c: seq<T>)
    ensures a + (b + c) == a + b + c
  {
  }
}
