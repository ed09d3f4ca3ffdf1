/** Lines of `name:value` items, with values quoted or not, and what their words are. */
module WireItems {
  import opened Lists
  import opened WireWords
  import opened WireNames
  import opened WireTable
  import opened WireArgs

  /** One printed argument and the number of blanks behind it. */
  datatype Item = Item(id: Sc, text: string, quoted: bool, gap: nat)

  function Blanks(n: nat): (s: string)
    ensures |s| == n && forall i :: 0 <= i < n ==> s[i] == ' '
  {
    if n == 0 then "" else " " + Blanks(n - 1)
  }

  function Shown(it: Item): string {
    Spelled(it.id) + ":" + if it.quoted then "\"" + it.text + "\"" else it.text
  }

  function LineOf(items: seq<Item>): string {
    if items == [] then "" else Shown(items[0]) + Blanks(items[0].gap) + LineOf(items[1..])
  }

  function Word(it: Item): string {
    Spelled(it.id) + ":" + it.text
  }

  function Meant(it: Item): Arg {
    Arg(it.id, ValueOf(TypeOf(it.id), it.text))
  }

  function MeantAll(items: seq<Item>): seq<Arg> {
    if items == [] then [] else [Meant(items[0])] + MeantAll(items[1..])
  }

  /** Values that can be read back. */
  predicate Readable(it: Item) {
    if it.quoted then ComesBack(it.text) else Unbroken(it.text)
  }

  predicate AllReadable(items: seq<Item>) {
    forall i :: 0 <= i < |items| ==> Readable(items[i])
  }

  /** Blanks between the items, and perhaps behind them. */
  predicate Spaced(items: seq<Item>) {
    forall i :: 0 <= i < |items| - 1 ==> items[i].gap > 0
  }

  // ----- from the line to its words

  lemma {:induction false} SplitPlain(p: string, tail: string, cur: string)
    requires Unbroken(p)
    ensures Split(p + tail, cur) == Split(tail, cur + p)
    decreases |p|
  {
    if p == "" {
      assert p + tail == tail && cur + p == cur;
    } else {
      hide TakeQuoted;
      var s := p + tail;
      assert s[1..] == p[1..] + tail && s[0] == p[0];
      SplitPlain(p[1..], tail, cur + [p[0]]);
      assert cur + [p[0]] + p[1..] == cur + p;
    }
  }

  lemma {:induction false} EscapeNothing(s: string)
    requires '\"' !in s
    ensures Escape(s) == s
    decreases |s|
  {
    if s != "" {
      assert forall c :: c in s[1..] ==> c in s;
      EscapeNothing(s[1..]);
      assert s == [s[0]] + s[1..];
    }
  }

  lemma SplitQuoteless(t: string, tail: string, cur: string)
    requires '\"' !in t && !EndsInBackslash(t)
    ensures Split("\"" + t + "\"" + tail, cur) == Continue(tail, cur + t)
  {
    hide TakeQuoted, Continue;
    var s := "\"" + t + "\"" + tail;
    EscapeNothing(t);
    TakeEscaped(t, tail, cur);
    assert s[1..] == Escape(t) + "\"" + tail;
  }

  lemma SplitQuotedText(t: string, tail: string, cur: string)
    requires ComesBack(t) && EndsWord(tail)
    ensures Split("\"" + t + "\"" + tail, cur) == Continue(tail, cur + t)
  {
    hide TakeQuoted, Split, Continue, Escape;
    if '\"' !in t && !EndsInBackslash(t) {
      SplitQuoteless(t, tail, cur);
    } else {
      var x := t[..|t| - 1];
      assert t == x + "\"";
      assert "\"" + t + "\"" + tail == "\"" + x + "\"" + ("\"" + tail);
      SplitQuoteless(x, "\"" + tail, cur);
      ContinueQuote(tail, cur + x);
      assert cur + x + ['\"'] == cur + t;
    }
  }

  /** A quote right behind a closing one stands for itself. */
  lemma ContinueQuote(tail: string, cur: string)
    requires EndsWord(tail)
    ensures Continue("\"" + tail, cur) == Continue(tail, cur + ['\"'])
  {
    assert ("\"" + tail)[1..] == tail;
    SplitEnd(tail, cur + ['\"']);
  }

  predicate Letters(s: string) {
    forall i :: 0 <= i < |s| ==> 'a' <= s[i] <= 'z'
  }

  predicate NamesOfLetters(rows: seq<Entry>) {
    forall i :: 0 <= i < |rows| ==> Letters(rows[i].name) && rows[i].name != ""
  }

  lemma EightNames(r: seq<Entry>)
    requires |r| == 8
    requires Letters(r[0].name) && Letters(r[1].name) && Letters(r[2].name) && Letters(r[3].name)
    requires Letters(r[4].name) && Letters(r[5].name) && Letters(r[6].name) && Letters(r[7].name)
    requires r[0].name != "" && r[1].name != "" && r[2].name != "" && r[3].name != ""
    requires r[4].name != "" && r[5].name != "" && r[6].name != "" && r[7].name != ""
    ensures NamesOfLetters(r)
  {
    hide Letters;
  }

  lemma LettersAbove()
    ensures NamesOfLetters(Rows1()) && NamesOfLetters(Rows2())
  {
    hide NamesOfLetters;
    EightNames(Rows1());
    EightNames(Rows2());
  }

  lemma LettersInside()
    ensures NamesOfLetters(Rows3()) && NamesOfLetters(Rows4())
  {
    hide NamesOfLetters;
    EightNames(Rows3());
    EightNames(Rows4());
  }

  lemma LettersBelow()
    ensures NamesOfLetters(Rows5()) && NamesOfLetters(Rows6())
  {
    hide NamesOfLetters;
    EightNames(Rows5());
    EightNames(Rows6());
  }

  lemma LettersLast()
    ensures NamesOfLetters(Rows7())
  {
    hide NamesOfLetters;
    EightNames(Rows7());
  }

  lemma TableLetters()
    ensures NamesOfLetters(Table())
  {
    hide Letters, NamesOfLetters, Table;
    LettersAbove();
    LettersInside();
    LettersBelow();
    LettersLast();
    AllNames();
  }

  lemma AllNames()
    requires NamesOfLetters(Rows1()) && NamesOfLetters(Rows2()) && NamesOfLetters(Rows3()) && NamesOfLetters(Rows4())
    requires NamesOfLetters(Rows5()) && NamesOfLetters(Rows6()) && NamesOfLetters(Rows7())
    ensures NamesOfLetters(Table())
  {
    hide Letters, Rows1, Rows2, Rows3, Rows4, Rows5, Rows6, Rows7;
  }

  lemma NameLetters(sc: Sc)
    ensures Letters(Spelled(sc)) && Spelled(sc) != ""
  {
    TableLetters();
    hide Table, Place, Letters;
  }

  lemma SplitItem(it: Item, tail: string)
    requires Readable(it) && EndsWord(tail)
    ensures Split(Shown(it) + tail, "") == Continue(tail, Word(it))
  {
    hide Split, Continue, Spelled, Escape;
    NameLetters(it.id);
    var p := Spelled(it.id) + ":";
    assert Unbroken(p);
    if it.quoted {
      var q := "\"" + it.text + "\"" + tail;
      assert Shown(it) + tail == p + q;
      SplitPlain(p, q, "");
      SplitQuotedText(it.text, tail, "" + p);
    } else {
      assert Shown(it) + tail == Word(it) + tail;
      SplitPlain(Word(it), tail, "");
      SplitEnd(tail, Word(it));
    }
    assert "" + p + it.text == Word(it) && "" + Word(it) == Word(it);
  }

  lemma SplitEnd(tail: string, cur: string)
    requires EndsWord(tail)
    ensures Split(tail, cur) == Continue(tail, cur)
  {
  }

  lemma {:induction false} SkipAll(n: nat, rest: string)
    requires rest == "" || rest[0] != ' '
    ensures SkipBlanks(Blanks(n) + rest) == rest
  {
    if n > 0 {
      SkipAll(n - 1, rest);
      assert (Blanks(n) + rest)[1..] == Blanks(n - 1) + rest;
    } else {
      assert Blanks(0) + rest == rest;
    }
  }

  lemma ContinueBlanks(n: nat, rest: string, word: string)
    requires n > 0 && (rest == "" || rest[0] != ' ')
    ensures Continue(Blanks(n) + rest, word) == [word] + Split(rest, "")
  {
    hide Split, SkipBlanks, Unquoted, Continue;
    var s := Blanks(n) + rest;
    assert s[0] == ' ' && s[1..] == Blanks(n - 1) + rest;
    SkipAll(n - 1, rest);
    ContinueBlank(s, word);
  }

  lemma ContinueBlank(s: string, word: string)
    requires s != "" && s[0] == ' '
    ensures Continue(s, word) == [word] + Split(SkipBlanks(s[1..]), "")
  {
    hide Split, SkipBlanks, Unquoted;
  }

  lemma ItemsStart(items: seq<Item>)
    ensures var s := LineOf(items); s == "" || s[0] != ' '
  {
    hide Spelled;
    if items != [] {
      NameLetters(items[0].id);
    }
  }

  // ----- from the words to the arguments

  lemma {:induction false} ColonOf(name: string, text: string)
    requires forall i :: 0 <= i < |name| ==> name[i] != ':'
    ensures Colon(name + (":" + text)) == |name|
    decreases |name|
  {
    if name == "" {
      assert name + (":" + text) == ":" + text;
    } else {
      assert (name + (":" + text))[1..] == name[1..] + (":" + text);
      ColonOf(name[1..], text);
    }
  }

  lemma ArgOfNamed(id: Sc, text: string)
    ensures ArgOf(Spelled(id) + ":" + text) == [Arg(id, ValueOf(TypeOf(id), text))]
  {
    hide Spelled, ValueOf, Colon, TypeOf;
    NameLetters(id);
    var name := Spelled(id);
    var w := name + ":" + text;
    ColonOf(name, text);
    assert w == name + (":" + text);
    assert w[..|name|] == name && w[|name| + 1..] == text;
    assert Lower(name) == name;
    LookupSpelled(id);
  }

  /** The letters of `s`, each small or capital. */
  predicate AnyCase(name: string, s: string) {
    && |name| == |s|
    && forall i :: 0 <= i < |s| ==> name[i] == s[i] || ('a' <= s[i] <= 'z' && name[i] == s[i] - 'a' + 'A')
  }

  lemma LowerAnyCase(name: string, s: string)
    requires Letters(s)
    ensures Lower(name) == s <==> AnyCase(name, s)
  {
    if AnyCase(name, s) {
      assert forall i :: 0 <= i < |s| ==> Lower(name)[i] == s[i];
      assert Lower(name) == s;
    }
    assert forall i :: 0 <= i < |name| ==> Lower(name)[i] == ToLower(name[i]);
  }

  /** An argument may be named in capitals as well, all or some; its value is taken as it is. */
  lemma NamedInAnyCase(id: Sc, name: string, text: string)
    requires AnyCase(name, Spelled(id))
    ensures ArgOf(name + ":" + text) == [Arg(id, ValueOf(TypeOf(id), text))]
  {
    hide Spelled, ValueOf, Colon, TypeOf, Lower;
    NameLetters(id);
    LowerAnyCase(name, Spelled(id));
    var w := name + ":" + text;
    assert forall i :: 0 <= i < |name| ==> name[i] != ':';
    ColonOf(name, text);
    assert w == name + (":" + text);
    assert w[..|name|] == name && w[|name| + 1..] == text;
    LookupSpelled(id);
  }

  /** A word without a colon is no argument, nor is one with a name that is not in the table. */
  lemma NoArgument(w: string)
    ensures ':' !in w ==> ArgOf(w) == []
    ensures var n := Colon(w);
      n < |w| && (forall i :: 0 <= i < 56 ==> !AnyCase(w[..n], Table()[i].name)) ==> ArgOf(w) == []
  {
    TableLetters();
    hide Table, AnyCase, ValueOf, Lower, Letters;
    var n := Colon(w);
    if n < |w| {
      var row := Lookup(Lower(w[..n]));
      if row.Some? {
        LowerAnyCase(w[..n], Table()[row.value].name);
      }
    }
  }

  /** An empty word ends the arguments, whatever comes behind it. */
  lemma {:induction false} EmptyWordEnds(before: seq<string>, more: seq<string>)
    ensures ArgsOf(before + [""] + more) == ArgsOf(before)
    decreases |before|
  {
    hide ArgOf;
    if before == [] {
      assert (before + [""] + more)[0] == "";
    } else {
      assert (before + [""] + more)[1..] == before[1..] + [""] + more;
      EmptyWordEnds(before[1..], more);
    }
  }

  /** An item that can be read, and what follows it. */
  lemma ReadableFirst(it: Item, more: seq<Item>)
    requires Readable(it) && it.gap > 0
    ensures ArgsOf(Split(LineOf([it] + more), "")) == [Meant(it)] + ArgsOf(Split(LineOf(more), ""))
  {
    hide Split, Shown, Spelled, Readable, ArgOf, ValueOf, Continue;
    var tail, later := Blanks(it.gap) + LineOf(more), Split(LineOf(more), "");
    assert ([it] + more)[1..] == more;
    assert LineOf([it] + more) == Shown(it) + tail;
    SplitItem(it, tail);
    ItemsStart(more);
    ContinueBlanks(it.gap, LineOf(more), Word(it));
    ArgOfNamed(it.id, it.text);
    assert Word(it) != "" && ([Word(it)] + later)[1..] == later;
  }

  /** The last item of a line. */
  lemma ReadableLast(it: Item)
    requires Readable(it)
    ensures ArgsOf(Split(LineOf([it]), "")) == [Meant(it)]
  {
    if it.gap > 0 {
      ReadableFirst(it, []);
      SplitEnd("", "");
      assert [it] + [] == [it] && Split("", "") == [""] && ArgsOf([""]) == [];
    } else {
      hide Split, Shown, Spelled, Readable, ArgOf, ValueOf;
      assert LineOf([it]) == Shown(it) + "";
      SplitItem(it, "");
      ArgOfNamed(it.id, it.text);
      assert [Word(it)][1..] == [] && ArgsOf([]) == [];
      assert [Meant(it)] + [] == [Meant(it)];
    }
  }

  lemma {:induction false} ReadableBefore(before: seq<Item>, later: seq<Item>)
    requires AllReadable(before) && forall i :: 0 <= i < |before| ==> before[i].gap > 0
    ensures ArgsOf(Split(LineOf(before + later), "")) == MeantAll(before) + ArgsOf(Split(LineOf(later), ""))
    decreases |before|
  {
    hide Split, LineOf, ArgsOf, Readable, Meant;
    if before == [] {
      assert before + later == later;
    } else {
      var it, more := before[0], before[1..];
      assert forall i :: 0 <= i < |more| ==> more[i] == before[i + 1];
      assert before + later == [it] + (more + later);
      ReadableFirst(it, more + later);
      ReadableBefore(more, later);
      Associative([Meant(it)], MeantAll(more), ArgsOf(Split(LineOf(later), "")));
    }
  }

  // ----- a value that does not come back

  /** What is read for the value of an item, in front of `tail`. */
  function ReadText(it: Item, tail: string): string {
    if it.quoted then Inside(it.text + ("\"" + tail)) else Here(it.text + tail)
  }

  lemma FirstWord(it: Item, tail: string)
    ensures Split(Shown(it) + tail, "")[0] == Spelled(it.id) + ":" + ReadText(it, tail)
  {
    hide Split, Spelled, TakeQuoted, Continue, Inside, Here;
    NameLetters(it.id);
    var p := Spelled(it.id) + ":";
    assert Unbroken(p) && "" + p == p;
    if it.quoted {
      var more := it.text + ("\"" + tail);
      assert Shown(it) + tail == p + ("\"" + more);
      SplitPlain(p, "\"" + more, "");
      SplitAtQuote(more, p);
      FirstInside(more, p);
    } else {
      assert Shown(it) + tail == p + (it.text + tail);
      SplitPlain(p, it.text + tail, "");
      FirstHere(it.text + tail, p);
    }
  }

  lemma SplitAtQuote(more: string, cur: string)
    ensures Split("\"" + more, cur) == var (rest, word) := TakeQuoted(more, cur); Continue(rest, word)
  {
    hide TakeQuoted, Continue;
    assert ("\"" + more)[1..] == more;
  }

  lemma ReadExactly(it: Item, tail: string)
    requires EndsWord(tail)
    ensures ReadText(it, tail) == it.text <==> Readable(it)
  {
    hide Inside, Here, ComesBack, Unbroken;
    if it.quoted {
      ReadsBack(it.text, tail);
    } else {
      ReadsBackBare(it.text, tail);
    }
  }

  /** The first argument of a line is its first item with the text that is read for it. */
  lemma FirstArg(it: Item, more: seq<Item>)
    requires TypeOf(it.id) == PTCHAR
    ensures var args := ArgsOf(Split(LineOf([it] + more), ""));
      args != [] && args[0] == Arg(it.id, Text(ReadText(it, Blanks(it.gap) + LineOf(more))))
  {
    hide Split, Shown, Spelled, ArgOf, ReadText, TypeOf;
    var tail := Blanks(it.gap) + LineOf(more);
    assert ([it] + more)[1..] == more;
    assert LineOf([it] + more) == Shown(it) + tail;
    FirstWord(it, tail);
    ArgOfNamed(it.id, ReadText(it, tail));
  }

  lemma SpoiltFirst(it: Item, more: seq<Item>)
    requires !Readable(it) && TypeOf(it.id) == PTCHAR && (more == [] || it.gap > 0)
    ensures ArgsOf(Split(LineOf([it] + more), "")) != MeantAll([it] + more)
  {
    hide Split, ArgsOf, ReadText, Readable, TypeOf;
    FirstArg(it, more);
    LineOfNothing();
    ReadExactly(it, Blanks(it.gap) + LineOf(more));
    MeantTextOf(it);
    assert MeantAll([it] + more)[0] == Meant(it);
  }

  lemma LineOfNothing()
    ensures LineOf([]) == ""
  {
  }

  lemma {:induction false} ItemsExactly(items: seq<Item>)
    requires items != [] && Spaced(items)
    requires forall i :: 0 <= i < |items| ==> Readable(items[i]) || TypeOf(items[i].id) == PTCHAR
    ensures ArgsOf(Split(LineOf(items), "")) == MeantAll(items) <==> AllReadable(items)
    decreases |items|
  {
    hide Split, LineOf, ArgsOf, Readable, Meant, TypeOf;
    var it, more := items[0], items[1..];
    assert items == [it] + more;
    assert forall i :: 0 <= i < |more| ==> more[i] == items[i + 1];
    if !Readable(it) {
      SpoiltFirst(it, more);
    } else if more == [] {
      ReadableLast(it);
      assert items == [it] && [it][1..] == [] && MeantAll([]) == [];
      assert MeantAll([it]) == [Meant(it)] + [];
    } else {
      ReadableFirst(it, more);
      ItemsExactly(more);
      var a, b := ArgsOf(Split(LineOf(more), "")), MeantAll(more);
      assert ([Meant(it)] + a)[1..] == a && ([Meant(it)] + b)[1..] == b;
      assert AllReadable(more) ==> AllReadable(items) by {
        assert forall i :: 0 <= i < |items| ==> items[i] == if i == 0 then it else more[i - 1];
      }
    }
  }

  lemma CommandSplit(cmd: string, items: seq<Item>)
    requires cmd != "" && Unbroken(cmd)
    ensures Words(cmd + " " + LineOf(items)) == [cmd] + Split(LineOf(items), "")
  {
    hide Split, Spelled, Shown, LineOf, Continue;
    var tail := " " + LineOf(items);
    assert cmd + " " + LineOf(items) == cmd + tail;
    SplitPlain(cmd, tail, "");
    assert "" + cmd == cmd;
    SplitEnd(tail, cmd);
    ItemsStart(items);
    assert Blanks(0) == "" && Blanks(1) == " ";
    ContinueBlanks(1, LineOf(items), cmd);
  }

  lemma CommandArgs(cmd: string, items: seq<Item>)
    requires cmd != "" && Unbroken(cmd)
    ensures Words(cmd + " " + LineOf(items)) != [] && Words(cmd + " " + LineOf(items))[0] == cmd
    ensures ParseCommand(Words(cmd + " " + LineOf(items))) == Some(ArgsOf(Split(LineOf(items), "")))
  {
    hide Split, LineOf, ArgsOf, Words;
    CommandSplit(cmd, items);
    assert ([cmd] + Split(LineOf(items), ""))[1..] == Split(LineOf(items), "");
  }

  /** A command with readable arguments is understood as it is meant. */
  lemma CommandParses(cmd: string, items: seq<Item>)
    requires cmd != "" && Unbroken(cmd) && items != [] && AllReadable(items) && Spaced(items)
    ensures Words(cmd + " " + LineOf(items)) != [] && Words(cmd + " " + LineOf(items))[0] == cmd
    ensures ParseCommand(Words(cmd + " " + LineOf(items))) == Some(MeantAll(items))
  {
    hide Split, LineOf, ArgsOf, Words, Readable, Meant, ParseCommand;
    CommandArgs(cmd, items);
    ItemsExactly(items);
  }

  /** A command is understood as it is meant exactly if all its arguments can be read back. */
  lemma CommandExactly(cmd: string, items: seq<Item>)
    requires cmd != "" && Unbroken(cmd) && items != [] && Spaced(items)
    requires forall i :: 0 <= i < |items| ==> Readable(items[i]) || TypeOf(items[i].id) == PTCHAR
    ensures ParseCommand(Words(cmd + " " + LineOf(items))) == Some(MeantAll(items)) <==> AllReadable(items)
  {
    hide Split, LineOf, ArgsOf, Words, Readable, Meant, ParseCommand, TypeOf;
    CommandArgs(cmd, items);
    ItemsExactly(items);
  }

  lemma MeantTextOf(it: Item)
    requires TypeOf(it.id) == PTCHAR
    ensures Meant(it) == Arg(it.id, Text(it.text))
  {
  }
}
