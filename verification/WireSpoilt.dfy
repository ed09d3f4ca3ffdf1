/**
 Lines with a quoted value that does not come back: the value is not in any later word either, and
 what a single quote inside it does to the rest of the line.
 */
module WireSpoilt {
  import opened Lists
  import opened WireWords
  import opened WireNames
  import opened WireTable
  import opened WireArgs
  import opened WireItems

  /** The word is something and then `t`. */
  predicate EndsIn(w: string, t: string) {
    |w| > |t| && w[|w| - |t|..] == t
  }

  predicate NoneEndsIn(ws: seq<string>, t: string) {
    forall i :: 0 <= i < |ws| ==> !EndsIn(ws[i], t)
  }

  // ----- words of a text without quotes

  lemma {:induction false} TakeAll(s: string, cur: string)
    requires '\"' !in s
    ensures TakeQuoted(s, cur) == ("", cur + s)
    decreases |s|
  {
    if s == "" {
      assert cur + s == cur;
    } else {
      assert s == [s[0]] + s[1..] && s[0] in s && (|s| > 1 ==> s[1] in s);
      TakeAll(s[1..], cur + [s[0]]);
      Associative(cur, [s[0]], s[1..]);
    }
  }

  lemma {:induction false} QuotelessWords(s: string, cur: string)
    requires '\"' !in s && '\"' !in cur
    ensures forall i :: 0 <= i < |Split(s, cur)| ==> '\"' !in Split(s, cur)[i]
    decreases |s|
  {
    if s != "" {
      assert s[0] in s && forall c :: c in s[1..] ==> c in s;
      if s[0] == ' ' {
        var later := SkipBlanks(s[1..]);
        SkippedIn(s[1..]);
        QuotelessWords(later, "");
        assert Split(s, cur) == [cur] + Split(later, "");
      } else {
        QuotelessWords(s[1..], cur + [s[0]]);
        assert Split(s, cur) == Split(s[1..], cur + [s[0]]);
      }
    }
  }

  lemma {:induction false} SkippedIn(s: string)
    ensures forall c :: c in SkipBlanks(s) ==> c in s
  {
    if s != "" && s[0] == ' ' {
      SkippedIn(s[1..]);
    }
  }

  lemma WordsBehind(t: string, tail: string, cur: string)
    requires '\"' in t && '\"' !in tail && EndsWord(tail)
    ensures NoneEndsIn(Continue(tail, cur)[1..], t)
  {
    if tail != "" {
      var later := SkipBlanks(tail[1..]);
      SkippedIn(tail[1..]);
      QuotelessWords(later, "");
      var ws := Continue(tail, cur);
      assert ws == [cur] + Split(later, "") && ws[1..] == Split(later, "");
    }
  }

  // ----- words that begin inside the value `t`, of which `a` is over and `m` is to come

  lemma {:induction false} SkipWithin(m: string, tail: string) returns (n: string)
    ensures SkipBlanks(m + Close(true, tail)) == n + Close(true, tail)
    ensures |n| <= |m| && n == m[|m| - |n|..]
    decreases |m|
  {
    if m != "" && m[0] == ' ' {
      hide Close;
      n := SkipWithin(m[1..], tail);
      assert (m + Close(true, tail))[1..] == m[1..] + Close(true, tail);
    } else {
      n := m;
    }
  }

  /** A word that begins there does not end in the whole value. */
  lemma NotTheWord(t: string, a: string, m: string, tail: string)
    requires t == a + m && '\"' in a && '\"' !in tail && EndsWord(tail)
    ensures !EndsIn(Split(m + Close(true, tail), "")[0], t)
  {
    hide Split, Here;
    FirstHere(m + Close(true, tail), "");
    var w := Split(m + Close(true, tail), "")[0];
    assert w == Here(m + Close(true, tail));
    if EndsIn(w, t) {
      var x := w[..|w| - |t|];
      assert w == x + a + m;
      assert multiset(x + a) == multiset(x) + multiset(a);
      assert '\"' in multiset(a);
      LostHere(m, x + a, true, tail);
    }
  }

  lemma {:induction false} LaterSplit(t: string, a: string, m: string, tail: string, cur: string)
    requires t == a + m && '\"' in a && '\"' !in tail && EndsWord(tail)
    ensures NoneEndsIn(Split(m + Close(true, tail), cur)[1..], t)
    decreases |m|, 1
  {
    hide TakeQuoted, Continue, NoneEndsIn;
    var s := m + Close(true, tail);
    if m == "" {
      assert s[1..] == tail;
      TakeAll(tail, cur);
      OneWord(t, cur + tail);
    } else if m[0] == '\"' {
      assert s[1..] == m[1..] + Close(true, tail);
      assert t == a + ['\"'] + m[1..];
      LaterInside(t, a + ['\"'], m[1..], tail, cur);
    } else {
      LaterContinue(t, a, m, tail, cur);
    }
  }

  lemma OneWord(t: string, word: string)
    ensures NoneEndsIn(Continue("", word)[1..], t)
  {
  }

  lemma {:induction false} LaterContinue(t: string, a: string, m: string, tail: string, cur: string)
    requires t == a + m && '\"' in a && '\"' !in tail && EndsWord(tail)
    ensures NoneEndsIn(Continue(m + Close(true, tail), cur)[1..], t)
    decreases |m|, 0
  {
    var s := m + Close(true, tail);
    if m == "" {
      hide NoneEndsIn;
      assert s[1..] == tail;
      SplitEnd(tail, cur + ['\"']);
      WordsBehind(t, tail, cur + ['\"']);
    } else {
      var n := m[1..];
      assert s[1..] == n + Close(true, tail);
      if m[0] != ' ' {
        assert t == a + [m[0]] + n;
        LaterSplit(t, a + [m[0]], n, tail, cur + [m[0]]);
      } else {
        var k := SkipWithin(n, tail);
        var b := t[..|t| - |k|];
        assert t == b + k && |b| > |a| && b[..|a|] == a;
        hide Split;
        var ws := Split(k + Close(true, tail), "");
        assert Continue(s, cur) == [cur] + ws;
        NotTheWord(t, b, k, tail);
        LaterSplit(t, b, k, tail, "");
        assert ws == [ws[0]] + ws[1..] && ([cur] + ws)[1..] == ws;
      }
    }
  }

  /** The same from inside quotes, where the value may not have met its first quote yet. */
  lemma {:induction false} LaterInside(t: string, a: string, m: string, tail: string, cur: string)
    requires t == a + m && ('\"' in t || EndsInBackslash(m)) && '\"' !in tail && EndsWord(tail)
    ensures var (rest, word) := TakeQuoted(m + Close(true, tail), cur); NoneEndsIn(Continue(rest, word)[1..], t)
    decreases |m|, 0
  {
    hide Continue, NoneEndsIn;
    var s := m + Close(true, tail);
    if m == "" {
      assert s[1..] == tail;
      WordsBehind(t, tail, cur);
    } else {
      assert s[0] == m[0] && s[1..] == m[1..] + Close(true, tail) && t == a + [m[0]] + m[1..];
      if m[0] == '\"' {
        LaterContinue(t, a + ['\"'], m[1..], tail, cur);
      } else if m == "\\" {
        assert s[1] == '\"' && s[2..] == tail;
        TakeAll(tail, cur + ['\"']);
        OneWord(t, cur + ['\"'] + tail);
      } else if m[0] == '\\' && m[1] == '\"' {
        assert s[1] == '\"' && s[2..] == m[2..] + Close(true, tail) && t == a + ['\\', '\"'] + m[2..];
        assert t[|a| + 1] == '\"';
        LaterInside(t, a + ['\\', '\"'], m[2..], tail, cur + ['\"']);
      } else {
        assert |m| > 1 ==> s[1] == m[1];
        LaterInside(t, a + [m[0]], m[1..], tail, cur + [m[0]]);
      }
    }
  }

  lemma LaterWords(it: Item, tail: string)
    requires it.quoted && !ComesBack(it.text) && '\"' !in tail && EndsWord(tail)
    ensures NoneEndsIn(Split(Shown(it) + tail, "")[1..], it.text)
  {
    hide Split, Spelled, TakeQuoted, Continue, NoneEndsIn;
    NameLetters(it.id);
    var p, more := Spelled(it.id) + ":", it.text + ("\"" + tail);
    assert Unbroken(p) && "" + p == p;
    assert Shown(it) + tail == p + ("\"" + more);
    SplitPlain(p, "\"" + more, "");
    SplitAtQuote(more, p);
    assert it.text == "" + it.text;
    LaterInside(it.text, "", it.text, tail, p);
  }

  // ----- the arguments

  lemma ArgEndsIn(w: string, id: Sc, t: string)
    requires ArgOf(w) == [Arg(id, Text(t))]
    ensures EndsIn(w, t)
  {
    hide Table, Lookup;
    var n := Colon(w);
    assert w[n + 1..] == t;
    assert w[|w| - |t|..] == t;
  }

  lemma {:induction false} NotAmongArgs(ws: seq<string>, id: Sc, t: string)
    requires NoneEndsIn(ws, t)
    ensures Arg(id, Text(t)) !in ArgsOf(ws)
    decreases |ws|
  {
    hide ArgOf, EndsIn;
    if ws != [] && ws[0] != "" {
      var more := ws[1..];
      assert forall i :: 0 <= i < |more| ==> more[i] == ws[i + 1];
      NotAmongArgs(more, id, t);
      if Arg(id, Text(t)) in ArgOf(ws[0]) {
        assert ArgOf(ws[0]) == [Arg(id, Text(t))];
        ArgEndsIn(ws[0], id, t);
      }
    }
  }

  /** A quoted value that does not come back is not the value of any argument of its kind. */
  lemma NeverGiven(cmd: string, before: seq<Item>, bad: Item, more: seq<Item>)
    requires cmd != "" && Unbroken(cmd) && AllReadable(before)
    requires forall i :: 0 <= i < |before| ==> before[i].gap > 0 && before[i].id != bad.id
    requires bad.quoted && !ComesBack(bad.text) && TypeOf(bad.id) == PTCHAR
    requires '\"' !in LineOf(more) && (bad.gap > 0 || more == [])
    ensures var args := ParseCommand(Words(cmd + " " + LineOf(before + ([bad] + more))));
      args.Some? && Arg(bad.id, Text(bad.text)) !in args.value
  {
    hide Split, LineOf, ArgsOf, MeantAll, Words, Readable, ComesBack, TypeOf, ParseCommand;
    var later := [bad] + more;
    CommandArgs(cmd, before + later);
    ReadableBefore(before, later);
    MeantIds(before, bad.id);
    SpoiltArgs(bad, more);
  }

  lemma SpoiltArgs(bad: Item, more: seq<Item>)
    requires bad.quoted && !ComesBack(bad.text) && TypeOf(bad.id) == PTCHAR
    requires '\"' !in LineOf(more) && (bad.gap > 0 || more == [])
    ensures Arg(bad.id, Text(bad.text)) !in ArgsOf(Split(LineOf([bad] + more), ""))
  {
    hide Split, Shown, Spelled, ComesBack, TypeOf, ArgOf, NoneEndsIn, ReadText;
    var tail := Blanks(bad.gap) + LineOf(more);
    assert '\"' !in Blanks(bad.gap);
    assert EndsWord(tail) by {
      LineOfNothing();
    }
    assert ([bad] + more)[1..] == more;
    assert LineOf([bad] + more) == Shown(bad) + tail;
    LaterWords(bad, tail);
    FirstWord(bad, tail);
    ReadExactly(bad, tail);
    var ws := Split(LineOf([bad] + more), "");
    assert ws[0] != "";
    ArgOfNamed(bad.id, ReadText(bad, tail));
    NotAmongArgs(ws[1..], bad.id, bad.text);
  }

  lemma {:induction false} MeantIds(items: seq<Item>, id: Sc)
    requires forall i :: 0 <= i < |items| ==> items[i].id != id
    ensures forall a :: a in MeantAll(items) ==> a.id != id
    decreases |items|
  {
    if items != [] {
      var more := items[1..];
      assert forall i :: 0 <= i < |more| ==> more[i] == items[i + 1];
      MeantIds(more, id);
    }
  }

  // ----- one quote inside the value

  /** Behind `x"y` the rest of the line is inside quotes. */
  lemma SwallowedWord(it: Item, x: string, y: string, tail: string)
    requires it.quoted && it.text == x + "\"" + y && '\"' !in x && !EndsInBackslash(x)
    requires y != "" && Unbroken(y) && '\"' !in tail
    ensures Split(Shown(it) + tail, "") == [Spelled(it.id) + ":" + x + y + tail]
  {
    hide Split, Spelled, TakeQuoted, Continue, Escape;
    NameLetters(it.id);
    var p, z := Spelled(it.id) + ":", "\"" + tail;
    assert Unbroken(p) && "" + p == p;
    assert Shown(it) + tail == p + ("\"" + x + "\"" + (y + z));
    SplitPlain(p, "\"" + x + "\"" + (y + z), "");
    SplitQuoteless(x, y + z, p);
    assert (y + z)[1..] == y[1..] + z && y == [y[0]] + y[1..];
    ContinueChar(y + z, p + x);
    SplitPlain(y[1..], z, p + x + [y[0]]);
    Associative(p + x, [y[0]], y[1..]);
    SplitAtQuote(tail, p + x + y);
    TakeAll(tail, p + x + y);
    assert Continue("", p + x + y + tail) == [p + x + y + tail] by {
      SplitEnd("", p + x + y + tail);
      LastWord(p + x + y + tail);
    }
  }

  lemma ContinueChar(s: string, cur: string)
    requires s != "" && s[0] != ' '
    ensures Continue(s, cur) == Split(s[1..], cur + [s[0]])
  {
  }

  lemma LastWord(word: string)
    ensures Continue("", word) == [word]
  {
  }

  /** A quote inside a value is lost, and the rest of the line becomes part of the value. */
  lemma RestSwallowed(cmd: string, before: seq<Item>, bad: Item, x: string, y: string, more: seq<Item>)
    requires cmd != "" && Unbroken(cmd) && AllReadable(before) && forall i :: 0 <= i < |before| ==> before[i].gap > 0
    requires bad.quoted && TypeOf(bad.id) == PTCHAR && bad.text == x + "\"" + y
    requires '\"' !in x && !EndsInBackslash(x) && y != "" && Unbroken(y) && '\"' !in LineOf(more)
    ensures ParseCommand(Words(cmd + " " + LineOf(before + ([bad] + more))))
      == Some(MeantAll(before) + [Arg(bad.id, Text(x + y + (Blanks(bad.gap) + LineOf(more))))])
  {
    hide Split, Shown, LineOf, ArgsOf, MeantAll, Words, Readable, TypeOf, ParseCommand, Spelled;
    CommandArgs(cmd, before + ([bad] + more));
    ReadableBefore(before, [bad] + more);
    SwallowedArgs(bad, x, y, more);
  }

  lemma SwallowedArgs(bad: Item, x: string, y: string, more: seq<Item>)
    requires bad.quoted && TypeOf(bad.id) == PTCHAR && bad.text == x + "\"" + y
    requires '\"' !in x && !EndsInBackslash(x) && y != "" && Unbroken(y) && '\"' !in LineOf(more)
    ensures ArgsOf(Split(LineOf([bad] + more), ""))
      == [Arg(bad.id, Text(x + y + (Blanks(bad.gap) + LineOf(more))))]
  {
    hide Split, Shown, LineOf, ArgsOf, TypeOf, Spelled;
    var tail := Blanks(bad.gap) + LineOf(more);
    assert '\"' !in Blanks(bad.gap);
    SwallowedWord(bad, x, y, tail);
    LineOfFirst(bad, more);
    SwallowedArg(bad.id, x + y + tail);
    assert Spelled(bad.id) + ":" + x + y + tail == Spelled(bad.id) + ":" + (x + y + tail);
  }

  lemma LineOfFirst(it: Item, more: seq<Item>)
    ensures LineOf([it] + more) == Shown(it) + (Blanks(it.gap) + LineOf(more))
  {
    hide Shown;
    assert ([it] + more)[1..] == more;
  }

  lemma SwallowedArg(id: Sc, text: string)
    requires TypeOf(id) == PTCHAR
    ensures ArgsOf([Spelled(id) + ":" + text]) == [Arg(id, Text(text))]
  {
    hide Spelled, ArgOf;
    var w := Spelled(id) + ":" + text;
    ArgOfNamed(id, text);
    assert [w][1..] == [] && ArgsOf([]) == [];
  }
}
