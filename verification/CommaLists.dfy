/** Comma-separated lists: how they are printed, and how strtok takes them apart. */
module CommaLists {

  /** The list with a comma between its entries. */
  function Join(xs: seq<string>): string {
    if xs == [] then "" else if |xs| == 1 then xs[0] else xs[0] + "," + Join(xs[1..])
  }

  /** The length of the stretch before the first comma. */
  function Span(s: string): (n: nat)
    ensures n <= |s|
    ensures forall k :: 0 <= k < n ==> s[k] != ','
    ensures n < |s| ==> s[n] == ','
  {
    if s == "" || s[0] == ',' then 0 else 1 + Span(s[1..])
  }

  /** strtok(s, ","): the nonempty stretches between commas. */
  function Strtok(s: string): (r: seq<string>)
    decreases |s|
  {
    if s == "" then []
    else if s[0] == ',' then Strtok(s[1..])
    else [s[..Span(s)]] + Strtok(s[Span(s)..])
  }

  /** The end of the entry that begins at `i`. */
  method SpanLoop(s: string, i: nat) returns (j: nat)
    requires i <= |s|
    ensures j == i + Span(s[i..])
  {
    j := i;
    while j < |s| && s[j] != ','
      invariant i <= j <= |s|
      invariant Span(s[i..]) == j - i + Span(s[j..])
    {
      assert s[j..][1..] == s[j + 1..];
      j := j + 1;
    }
  }

  /** The calls of strtok until it returns NULL. */
  method StrtokLoop(s: string) returns (r: seq<string>)
    ensures r == Strtok(s)
  {
    hide Span;
    var i := 0;
    r := [];
    while i < |s|
      invariant 0 <= i <= |s|
      invariant r + Strtok(s[i..]) == Strtok(s)
    {
      ghost var rest := s[i..];
      if s[i] == ',' {
        assert rest[1..] == s[i + 1..];
        i := i + 1;
      } else {
        var j := SpanLoop(s, i);
        assert rest[..j - i] == s[i..j] && rest[j - i..] == s[j..];
        assert r + ([s[i..j]] + Strtok(s[j..])) == r + [s[i..j]] + Strtok(s[j..]);
        r := r + [s[i..j]];
        i := j;
      }
    }
  }

  /** An entry that survives: not empty, no comma. */
  predicate Plain(x: string) {
    x != "" && ',' !in x
  }

  lemma {:induction false} SpanOf(x: string, rest: string)
    requires ',' !in x && (rest == "" || rest[0] == ',')
    ensures Span(x + rest) == |x|
    decreases |x|
  {
    if x == "" {
      assert x + rest == rest;
    } else {
      assert (x + rest)[1..] == x[1..] + rest && x[0] in x;
      SpanOf(x[1..], rest);
    }
  }

  lemma StrtokFirst(x: string, rest: string)
    requires Plain(x) && (rest == "" || rest[0] == ',')
    ensures Strtok(x + rest) == [x] + Strtok(rest)
  {
    hide Span;
    var s := x + rest;
    SpanOf(x, rest);
    assert s[0] == x[0] && x[0] in x;
    assert s[..|x|] == x && s[|x|..] == rest;
  }

  lemma JoinParts(xs: seq<string>)
    requires xs != []
    ensures Join(xs) == xs[0] + if |xs| == 1 then "" else "," + Join(xs[1..])
  {
  }

  /** Taking a printed list apart gives its entries back. */
  lemma {:induction false} StrtokJoin(xs: seq<string>)
    requires forall i :: 0 <= i < |xs| ==> Plain(xs[i])
    ensures Strtok(Join(xs)) == xs
    decreases |xs|
  {
    StrtokComma("");
    if xs != [] {
      hide Span, Join, Plain, Strtok;
      var more := xs[1..];
      var rest := if |xs| == 1 then "" else "," + Join(more);
      JoinParts(xs);
      StrtokFirst(xs[0], rest);
      if |xs| > 1 {
        StrtokComma(Join(more));
        StrtokJoin(more);
      }
      assert xs == [xs[0]] + more;
    }
  }

  lemma StrtokComma(s: string)
    ensures Strtok("," + s) == Strtok(s) && Strtok("") == []
  {
    assert ("," + s)[1..] == s;
  }
}
