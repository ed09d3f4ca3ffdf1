/**
 The lookup helpers that walk a token array.  `Hop` is the step of the array search: it skips a member
 by its `size`, which counts direct children only.
 */
module JsonLookup {
  import opened JsonLex
  import opened JsonRun

  /** Token `t` is a string whose text in `buf` is `m`. */
  predicate Spelled(t: Token, buf: string, m: string) {
    && t.kind.String?
    && 0 <= t.start <= t.end <= |buf|
    && buf[t.start..t.end] == m
  }

  /** The first string token from `i` on that is spelled `m`, -1 if there is none before `n`. */
  function FindToken(toks: seq<Token>, buf: string, m: string, i: nat, n: nat): (r: int)
    requires i <= n <= |toks|
    ensures r == -1 || (i <= r < n && Spelled(toks[r], buf, m))
    ensures forall k :: i <= k < (if r == -1 then n else r) ==> !Spelled(toks[k], buf, m)
    decreases n - i
  {
    if i == n then -1 else if Spelled(toks[i], buf, m) then i else FindToken(toks, buf, m, i + 1, n)
  }

  /** The first token from `i` on that is the value of key `tok`. */
  function FindValue(toks: seq<Token>, tok: int, i: nat, n: nat): (r: int)
    requires i <= n <= |toks|
    ensures r == -1 || (i <= r < n && toks[r].valueof == tok)
    ensures forall k :: i <= k < (if r == -1 then n else r) ==> toks[k].valueof != tok
    decreases n - i
  {
    if i == n then -1 else if toks[i].valueof == tok then i else FindValue(toks, tok, i + 1, n)
  }

  /** jtok_find_token_val */
  function TokenVal(toks: seq<Token>, buf: string, m: string, n: nat): (r: int)
    requires n <= |toks|
    ensures -1 <= r < n
  {
    var tok := FindToken(toks, buf, m, 0, n);
    if tok == -1 then -1 else FindValue(toks, tok, tok + 1, n)
  }

  predicate SizesKnown(toks: seq<Token>) {
    forall i :: 0 <= i < |toks| ==> toks[i].size >= 0
  }

  /** How far behind the array token `tok` its search stands after `k` members. */
  function Hop(toks: seq<Token>, tok: nat, k: nat): nat
    requires SizesKnown(toks)
  {
    if k == 0 then 0
    else
      var j := Hop(toks, tok, k - 1);
      if tok + 1 + j < |toks| then j + toks[tok + 1 + j].size + 1 else j
  }

  /** Every step of a search in an array reads an existing token. */
  predicate HopsFit(toks: seq<Token>)
    requires SizesKnown(toks)
  {
    forall tok, k :: 0 <= tok < |toks| && 0 <= k < toks[tok].size && toks[tok].kind.Array?
      ==> tok + 1 + Hop(toks, tok, k) < |toks|
  }

  /** jtok_find_nth_array_member; a negative `nth` makes no hop. */
  function NthMember(toks: seq<Token>, buf: string, nth: int, m: string, n: nat): int
    requires n <= |toks| && SizesKnown(toks)
  {
    var tok := TokenVal(toks, buf, m, n);
    if tok < 0 || !toks[tok].kind.Array? || toks[tok].size < nth then -1
    else if nth == 0 then tok + 1
    else
      var j := Hop(toks, tok, if nth < 0 then 0 else nth);
      if j + tok < n then j + tok + 1 else -1
  }

  /** The first key in tokens `i` to `end` spelled `m` and directly followed by its value. */
  function FindPair(toks: seq<Token>, buf: string, m: string, i: nat, end: int): (r: int)
    requires end <= i || end < |toks|
    decreases end - i
  {
    if end <= i then -1
    else if Spelled(toks[i], buf, m) && toks[i + 1].valueof == i then i + 1
    else FindPair(toks, buf, m, i + 1, end)
  }

  // ----- the helpers as the loops they are

  /** The spans of the strings among the tokens lie in the buffer. */
  predicate StringsLie(toks: seq<Token>, buf: string) {
    forall k :: 0 <= k < |toks| && toks[k].kind.String? ==> 0 <= toks[k].start <= toks[k].end <= |buf|
  }

  method {:induction false} FindTokenLoop(toks: array<Token>, buf: string, m: string, n: nat) returns (r: int)
    requires n <= toks.Length && StringsLie(toks[..n], buf)
    ensures r == FindToken(toks[..n], buf, m, 0, n)
  {
    ghost var ts := toks[..n];
    var i := 0;
    while i < n
      invariant 0 <= i <= n
      invariant FindToken(ts, buf, m, i, n) == FindToken(ts, buf, m, 0, n)
    {
      assert toks[i] == ts[i];
      if toks[i].kind.String? && toks[i].end - toks[i].start == |m| && buf[toks[i].start..toks[i].end] == m {
        return i;
      }
      i := i + 1;
    }
    return -1;
  }

  method {:induction false} TokenValLoop(toks: array<Token>, buf: string, m: string, n: nat) returns (r: int)
    requires n <= toks.Length && StringsLie(toks[..n], buf)
    ensures r == TokenVal(toks[..n], buf, m, n)
  {
    ghost var ts := toks[..n];
    var tok := FindTokenLoop(toks, buf, m, n);
    if tok == -1 {
      return -1;
    }
    var i := tok + 1;
    while i < n
      invariant tok < i <= n
      invariant FindValue(ts, tok, i, n) == FindValue(ts, tok, tok + 1, n)
    {
      assert toks[i] == ts[i];
      if toks[i].valueof == tok {
        return i;
      }
      i := i + 1;
    }
    return -1;
  }

  method {:induction false} NthMemberLoop(toks: array<Token>, buf: string, nth: int, m: string, n: nat) returns (r: int)
    requires n <= toks.Length && StringsLie(toks[..n], buf)
    requires SizesKnown(toks[..n]) && HopsFit(toks[..n])
    ensures r == NthMember(toks[..n], buf, nth, m, n)
  {
    ghost var ts := toks[..n];
    var tok := TokenValLoop(toks, buf, m, n);
    if tok < 0 || !toks[tok].kind.Array? {
      return -1;
    }
    var arraySize := toks[tok].size;
    if arraySize < nth {
      return -1;
    }
    if nth == 0 {
      return tok + 1;
    }
    var i, j := 1, 0;
    while i < nth + 1
      invariant 1 <= i && (i <= nth + 1 || (nth < 0 && i == 1))
      invariant j == Hop(ts, tok, i - 1)
    {
      assert tok + 1 + Hop(ts, tok, i - 1) < |ts|;
      j := j + toks[tok + 1 + j].size + 1;
      i := i + 1;
    }
    if j + tok < n {
      return j + tok + 1;
    }
    return -1;
  }

  /** jtok_find_token_val_nth_array, from the member's token on. */
  method {:induction false} FindPairLoop(toks: array<Token>, buf: string, m: string, tok: nat) returns (r: int)
    requires tok < toks.Length && toks[tok].size >= 0 && tok + toks[tok].size < toks.Length
    requires forall k :: 0 <= k < toks.Length && toks[k].kind.String? ==> 0 <= toks[k].start <= toks[k].end <= |buf|
    ensures r == FindPair(toks[..], buf, m, tok + 1, tok + toks[tok].size)
  {
    var aend, i := tok + toks[tok].size, tok + 1;
    while i < aend
      invariant tok < i && (i <= aend || i == tok + 1)
      invariant FindPair(toks[..], buf, m, i, aend) == FindPair(toks[..], buf, m, tok + 1, aend)
    {
      if toks[i].kind.String? && toks[i].end - toks[i].start == |m| && buf[toks[i].start..toks[i].end] == m
         && toks[i + 1].valueof == i {
        return i + 1;
      }
      i := i + 1;
    }
    return -1;
  }
}
