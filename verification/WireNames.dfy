/**
 A value as the printers write it, bare or between quotes, but never escaped: when the parser reads
 the same value, whatever the rest of the line is.
 */
module WireNames {
  import opened Lists
  import opened WireWords

  /** What is read for the current word: from here on, after a character, and inside quotes. */
  function Here(s: string): string
    decreases |s|, 1
  {
    if s != "" && s[0] == '\"' then Inside(s[1..]) else Behind(s)
  }

  function Behind(s: string): string
    decreases |s|, 0
  {
    if s == "" || s[0] == ' ' then "" else [s[0]] + Here(s[1..])
  }

  function Inside(s: string): string
    decreases |s|, 0
  {
    if s == "" then ""
    else if s[0] == '\"' then Behind(s[1..])
    else if s[0] == '\\' && |s| > 1 && s[1] == '\"' then "\"" + Inside(s[2..])
    else [s[0]] + Inside(s[1..])
  }

  lemma {:induction false} FirstInside(s: string, cur: string)
    ensures var (rest, word) := TakeQuoted(s, cur); Continue(rest, word)[0] == cur + Inside(s)
    decreases |s|, 0
  {
    if s == "" {
      assert cur + "" == cur;
    } else if s[0] == '\"' {
      FirstBehind(s[1..], cur);
    } else if s[0] == '\\' && |s| > 1 && s[1] == '\"' {
      hide Continue;
      FirstInside(s[2..], cur + ['\"']);
      assert cur + ['\"'] + Inside(s[2..]) == cur + ("\"" + Inside(s[2..]));
    } else {
      hide Continue;
      FirstInside(s[1..], cur + [s[0]]);
      Associative(cur, [s[0]], Inside(s[1..]));
    }
  }

  lemma {:induction false} FirstBehind(s: string, cur: string)
    ensures Continue(s, cur)[0] == cur + Behind(s)
    decreases |s|, 0
  {
    if s == "" || s[0] == ' ' {
      assert cur + "" == cur;
    } else {
      FirstHere(s[1..], cur + [s[0]]);
      Associative(cur, [s[0]], Here(s[1..]));
    }
  }

  lemma {:induction false} FirstHere(s: string, cur: string)
    ensures Split(s, cur)[0] == cur + Here(s)
    decreases |s|, 1
  {
    if s != "" && s[0] == '\"' {
      FirstInside(s[1..], cur);
    } else {
      FirstBehind(s, cur);
    }
  }

  predicate EndsWord(tail: string) {
    tail == "" || tail[0] == ' '
  }

  /** Inside quotes, a text without quotes is read as it is. */
  lemma {:induction false} InsideRest(tail: string)
    requires '\"' !in tail
    ensures Inside(tail) == tail
    decreases |tail|
  {
    if tail != "" {
      assert tail == [tail[0]] + tail[1..] && tail[0] in tail;
      assert |tail| > 1 ==> tail[1] in tail;
      InsideRest(tail[1..]);
    }
  }

  // ----- nothing makes up for a lost character
  //
  // To read back a value, the characters `b` lost so far must still be read, and then the rest `m`
  // of the value.  A character that is read is the first of those, and is itself due once more.

  predicate Marks(b: string) {
    b != "" && forall i :: 0 <= i < |b| ==> b[i] == '\"' || b[i] == '\\'
  }

  /** Only quotes and backslashes are due; or `n` quotes at least, and no quote follows the value. */
  predicate Due(b: string, tail: string, n: nat) {
    || Marks(b)
    || ('\"' !in tail && |b| > 1 && multiset(b)['\"'] >= n)
  }

  lemma DueMore(b: string, tail: string, n: nat, c: char)
    requires Due(b, tail, n) && (c == '\"' || c == '\\')
    ensures Due(b + [c], tail, n) && (c == '\"' ==> Due(b + [c], tail, n + 1))
  {
    assert multiset(b + [c]) == multiset(b) + multiset{c};
  }

  lemma DueAgain(b: string, tail: string, n: nat)
    requires Due(b, tail, n)
    ensures b != "" && Due(b[1..] + [b[0]], tail, n) && (n > 0 ==> Due(b, tail, 1))
  {
    var d := b[1..] + [b[0]];
    assert b == [b[0]] + b[1..];
    assert multiset(d) == multiset(b);
    assert forall i :: 0 <= i < |d| ==> d[i] == b[if i < |b| - 1 then i + 1 else 0];
  }

  /** What the end of the line gives cannot be what is due. */
  lemma DueAtEnd(b: string, tail: string, n: nat)
    requires Due(b, tail, n) && n > 0 && EndsWord(tail)
    ensures Inside(tail) != b && (n > 1 ==> Inside(tail) != b[1..] + ['\\'])
  {
    assert b == [b[0]] + b[1..];
    if Marks(b) {
      assert Inside(tail) == "" || Inside(tail)[0] == ' ';
      var d := b[1..] + ['\\'];
      assert d[0] == '\\' || d[0] == b[1];
    } else {
      InsideRest(tail);
      assert multiset(b) == multiset{b[0]} + multiset(b[1..]);
    }
  }

  /** What is behind the value: its closing quote, if it has one, and the rest of the line. */
  function Close(quoted: bool, tail: string): string {
    if quoted then "\"" + tail else tail
  }

  /** A character that is read must be the first that is due. */
  lemma ReadFirst(b: string, c: char, m: string, r: string)
    requires b != ""
    ensures [c] + r == b + m ==> c == b[0] && r == b[1..] + m
  {
    assert b + m == [b[0]] + (b[1..] + m);
    assert ([c] + r)[1..] == r && ([b[0]] + (b[1..] + m))[1..] == b[1..] + m;
  }

  lemma {:induction false} LostHere(m: string, b: string, quoted: bool, tail: string)
    requires Due(b, tail, 1) && EndsWord(tail)
    ensures Here(m + Close(quoted, tail)) != b + m
    decreases |m|, 1
  {
    hide Due;
    var s := m + Close(quoted, tail);
    if m == "" {
      assert s == Close(quoted, tail) && b + m == b;
      DueAtEnd(b, tail, 1);
      DueAgain(b, tail, 1);
      assert quoted ==> s[1..] == tail;
    } else if m[0] == '\"' {
      DueMore(b, tail, 1, '\"');
      LostInside(m[1..], b + ['\"'], quoted, tail);
      assert s[1..] == m[1..] + Close(quoted, tail) && b + m == b + ['\"'] + m[1..];
    } else {
      LostBehind(m, b, quoted, tail);
    }
  }

  lemma {:induction false} LostBehind(m: string, b: string, quoted: bool, tail: string)
    requires Due(b, tail, 1) && EndsWord(tail) && (m == "" ==> b != "\"")
    ensures Behind(m + Close(quoted, tail)) != b + m
    decreases |m|, 0
  {
    var s := m + Close(quoted, tail);
    if m == "" {
      assert s == Close(quoted, tail) && b + m == b;
      assert quoted ==> s[1..] == tail && Here(tail) == "";
    } else if m[0] != ' ' {
      hide Due;
      var r := Here(s[1..]);
      assert s[1..] == m[1..] + Close(quoted, tail) && m == [m[0]] + m[1..];
      ReadFirst(b, m[0], m, r);
      if m[0] == b[0] {
        DueAgain(b, tail, 1);
        LostHere(m[1..], b[1..] + [m[0]], quoted, tail);
        Associative(b[1..], [m[0]], m[1..]);
      }
    }
  }

  lemma {:induction false} LostInside(m: string, b: string, quoted: bool, tail: string)
    requires Due(b, tail, 2) && EndsWord(tail)
    ensures Inside(m + Close(quoted, tail)) != b + m
    decreases |m|, 1
  {
    hide Due, Close, EndsWord;
    var s, n := m + Close(quoted, tail), m[if m == "" then 0 else 1..];
    assert m != "" ==> m == [m[0]] + n && s[0] == m[0] && s[1..] == n + Close(quoted, tail);
    if m == "" {
      EndInside(b, quoted, tail);
      assert s == Close(quoted, tail) && b + m == b;
    } else if m[0] == '\"' {
      DueAgain(b, tail, 2);
      DueMore(b, tail, 1, '\"');
      assert |b + ['\"']| > 1;
      LostBehind(n, b + ['\"'], quoted, tail);
      assert b + m == b + ['\"'] + n;
    } else if m[0] == '\\' && |s| > 1 && s[1] == '\"' {
      LostEscape(m, b, quoted, tail);
    } else {
      DueAgain(b, tail, 2);
      ReadFirst(b, m[0], m, Inside(s[1..]));
      if m[0] == b[0] {
        LostInside(n, b[1..] + [m[0]], quoted, tail);
        Associative(b[1..], [m[0]], n);
      }
    }
  }

  lemma EndInside(b: string, quoted: bool, tail: string)
    requires Due(b, tail, 2) && EndsWord(tail)
    ensures Inside(Close(quoted, tail)) != b
  {
    DueAtEnd(b, tail, 2);
    DueAgain(b, tail, 2);
    assert quoted ==> Close(quoted, tail)[1..] == tail && Behind(tail) == "";
  }

  lemma {:induction false} LostEscape(m: string, b: string, quoted: bool, tail: string)
    requires Due(b, tail, 2) && EndsWord(tail) && m != "" && m[0] == '\\'
    requires var s := m + Close(quoted, tail); |s| > 1 && s[1] == '\"'
    ensures Inside(m + Close(quoted, tail)) != b + m
    decreases |m|, 0
  {
    if |m| == 1 {
      assert m == "\\" && quoted;
      EscapedClose(b, tail);
    } else {
      hide Due, Inside, EndsWord, Close;
      DueAgain(b, tail, 2);
      var s, r := m + Close(quoted, tail), m[2..];
      assert s[2..] == r + Close(quoted, tail) && m == ['\\', '\"'] + r;
      Escaped(s);
      ReadFirst(b, '\"', m, Inside(s[2..]));
      if b[0] == '\"' {
        DueSwapped(b[1..], tail, 2);
        LostInside(r, b[1..] + ['\\', '\"'], quoted, tail);
        Associative(b[1..], ['\\', '\"'], r);
      }
    }
  }

  /** A backslash in front of the closing quote. */
  lemma EscapedClose(b: string, tail: string)
    requires Due(b, tail, 2) && EndsWord(tail)
    ensures Inside("\\" + Close(true, tail)) != b + "\\"
  {
    DueAgain(b, tail, 2);
    DueAtEnd(b, tail, 2);
    hide Due, EndsWord;
    var s := "\\" + Close(true, tail);
    assert s[1] == '\"' && s[2..] == tail;
    ReadFirst(b, '\"', "\\", Inside(tail));
  }

  lemma Escaped(s: string)
    requires |s| > 1 && s[0] == '\\' && s[1] == '\"'
    ensures Inside(s) == ['\"'] + Inside(s[2..])
  {
  }

  lemma DueSwapped(b: string, tail: string, n: nat)
    requires Due(b + ['\"'], tail, n)
    ensures Due(b + ['\\', '\"'], tail, n)
  {
    assert multiset(b + ['\"']) == multiset(b) + multiset{'\"'};
    assert multiset(b + ['\\', '\"']) == multiset(b) + multiset{'\\', '\"'};
    forall i | 0 <= i < |b| && (b + ['\"'])[i] in {'\"', '\\'} ensures (b + ['\\', '\"'])[i] in {'\"', '\\'} {
      assert (b + ['\"'])[i] == b[i];
    }
  }

  // ----- the values that come back

  /** No character that the splitting of a line treats apart. */
  predicate Unbroken(s: string) {
    forall i :: 0 <= i < |s| ==> s[i] != ' ' && s[i] != '\"'
  }

  /** A bare value is read back exactly if it has no blank and no quote. */
  lemma {:induction false} ReadsBackBare(u: string, tail: string)
    requires EndsWord(tail)
    ensures Here(u + tail) == u <==> Unbroken(u)
    decreases |u|
  {
    var s := u + tail;
    if u == "" {
      assert s == tail;
    } else {
      assert u == [u[0]] + u[1..] && s[1..] == u[1..] + tail;
      ReadsBackBare(u[1..], tail);
      assert Unbroken(u) <==> u[0] != ' ' && u[0] != '\"' && Unbroken(u[1..]);
      if u[0] == '\"' {
        LostInside(u[1..], "\"", false, tail);
      }
    }
  }

  /** No quote and no backslash at the end; or one quote, at the end, with such a text before it. */
  predicate ComesBack(n: string) {
    || ('\"' !in n && !EndsInBackslash(n))
    || (n != "" && n[|n| - 1] == '\"' && '\"' !in n[..|n| - 1] && !EndsInBackslash(n[..|n| - 1]))
  }

  lemma ComesBackLater(n: string)
    requires n != "" && n[0] != '\"' && n != "\\" && !(n[0] == '\\' && n[1] == '\"')
    ensures ComesBack(n) <==> ComesBack(n[1..])
  {
    var m := n[1..];
    assert n == [n[0]] + m;
    assert '\"' in n <==> '\"' in m;
    if m != "" {
      assert n[..|n| - 1] == [n[0]] + m[..|m| - 1];
      assert '\"' in n[..|n| - 1] <==> '\"' in m[..|m| - 1];
    }
  }

  lemma ComesBackNot(n: string)
    requires n != "" && n != "\""
    requires n[0] == '\"' || n == "\\" || (n[0] == '\\' && n[1] == '\"')
    ensures !ComesBack(n)
  {
    assert |n| > 1 ==> n[0] in n[..|n| - 1];
    assert |n| > 1 ==> n[1] in n;
    assert |n| > 2 ==> n[1] in n[..|n| - 1];
    assert |n| == 2 ==> n[..1] == [n[0]];
  }

  /** A quoted value is read back exactly if it has no quote, or one at its end, and no backslash before that. */
  lemma {:induction false} ReadsBack(n: string, tail: string)
    requires EndsWord(tail)
    ensures Inside(n + ("\"" + tail)) == n <==> ComesBack(n)
    decreases |n|
  {
    var s := n + ("\"" + tail);
    assert n != "" ==> n == [n[0]] + n[1..] && s[0] == n[0] && s[1..] == n[1..] + ("\"" + tail);
    if n == "" {
      assert s[1..] == tail;
    } else if n[0] == '\"' {
      if n != "\"" {
        ComesBackNot(n);
        LostBehind(n[1..], "\"", true, tail);
      } else {
        assert s[1..] == "\"" + tail && s[1..][1..] == tail && Here(tail) == "";
        assert n[..0] == "" && Behind(s[1..]) == "\"";
      }
    } else if n == "\\" || (n[0] == '\\' && n[1] == '\"') {
      ComesBackNot(n);
      assert s[1] == '\"';
    } else {
      hide ComesBack;
      ComesBackLater(n);
      ReadsBack(n[1..], tail);
      assert |n| > 1 ==> s[1] == n[1];
    }
  }
}
