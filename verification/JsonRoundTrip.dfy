/**
 The tokenizer undoes the printer: on the text of any JSON value it produces exactly the tokens of
 that value.
 */
module JsonRoundTrip {
  import opened JsonLex
  import opened JsonRun
  import opened JsonPrinter

  /** Text `t` stands at position `pos`. */
  predicate Has(js: string, pos: nat, t: string) {
    pos + |t| <= |js| && js[pos..pos + |t|] == t
  }

  /** A primitive that ends at `p` is seen to end there. */
  predicate Stop(js: string, p: nat) {
    p <= |js| && (p == |js| || Delimiter(js[p]))
  }

  lemma HasParts(js: string, pos: nat, s: string, t: string)
    requires Has(js, pos, s + t)
    ensures Has(js, pos, s) && Has(js, pos + |s|, t)
  {
    var u := js[pos..pos + |s + t|];
    assert s == u[..|s|] == js[pos..pos + |s|];
    assert t == u[|s|..] == js[pos + |s|..pos + |s| + |t|];
  }

  lemma HasChar(js: string, pos: nat, t: string, i: nat)
    requires Has(js, pos, t) && i < |t|
    ensures js[pos + i] == t[i]
  {
    assert js[pos..pos + |t|][i] == js[pos + i];
  }

  lemma HasTail(js: string, pos: nat, t: string, k: nat)
    requires Has(js, pos, t) && k <= |t|
    ensures Has(js, pos + k, t[k..])
  {
    assert t == t[..k] + t[k..];
    HasParts(js, pos, t[..k], t[k..]);
  }

  lemma {:induction false} ScanPlain(js: string, pos: nat, t: string)
    requires Has(js, pos, t) && Stop(js, pos + |t|)
    requires forall c :: c in t ==> !Delimiter(c) && !Unprintable(c)
    ensures ScanPrimitive(js, |js|, pos) == Found(pos + |t|)
    decreases |t|
  {
    if t != "" {
      HasChar(js, pos, t, 0);
      assert t[0] in t;
      HasTail(js, pos, t, 1);
      ScanPlain(js, pos + 1, t[1..]);
    }
  }

  lemma ScanFourHex(js: string, pos: nat)
    requires pos + 4 <= |js|
    requires Hex(js[pos]) && Hex(js[pos + 1]) && Hex(js[pos + 2]) && Hex(js[pos + 3])
    ensures ScanHex(js, pos, 4) == Found(pos + 4)
  {
    assert ScanHex(js, pos + 2, 2) == ScanHex(js, pos + 4, 0);
  }

  lemma ScanUnicode(js: string, pos: nat, b: string)
    requires Has(js, pos, b) && |b| >= 6 && b[0] == '\\' && b[1] == 'u'
    requires Hex(b[2]) && Hex(b[3]) && Hex(b[4]) && Hex(b[5])
    ensures ScanString(js, |js|, pos) == ScanString(js, |js|, pos + 6)
  {
    hide ScanHex;
    HasChar(js, pos, b, 0);
    HasChar(js, pos, b, 1);
    HasChar(js, pos, b, 2);
    HasChar(js, pos, b, 3);
    HasChar(js, pos, b, 4);
    HasChar(js, pos, b, 5);
    ScanFourHex(js, pos + 2);
  }

  lemma {:induction false} ScanBody(js: string, pos: nat, b: string)
    requires StringBody(b) && Has(js, pos, b) && pos + |b| < |js| && js[pos + |b|] == '\"'
    ensures ScanString(js, |js|, pos) == Found(pos + |b|)
    decreases |b|
  {
    if b != "" {
      HasChar(js, pos, b, 0);
      if b[0] != '\\' {
        HasTail(js, pos, b, 1);
        ScanBody(js, pos + 1, b[1..]);
      } else {
        HasChar(js, pos, b, 1);
        if ShortEscape(b[1]) {
          HasTail(js, pos, b, 2);
          ScanBody(js, pos + 2, b[2..]);
        } else {
          ScanUnicode(js, pos, b);
          HasTail(js, pos, b, 6);
          ScanBody(js, pos + 6, b[6..]);
        }
      }
    }
  }

  /** One turn, when the lexeme is known. */
  lemma RunLexeme(js: string, st: State, x: Lexeme, s: State, cap: nat)
    requires Wf(js, st) && !Done(js, |js|, st.pos)
    requires Lex(js, |js|, st.pos) == x && Apply(st, x, cap) == Go(s)
    ensures Wf(js, s) && Run(js, |js|, st, cap) == Run(js, |js|, s, cap)
  {
    assert Step(js, |js|, st, cap) == Go(s);
  }

  lemma LexSkip(js: string, pos: nat)
    requires pos < |js| && (Blank(js[pos]) || js[pos] == ',')
    ensures !Done(js, |js|, pos) && Lex(js, |js|, pos) == Skip
  {
    hide ScanPrimitive, ScanString;
  }

  lemma LexColon(js: string, pos: nat)
    requires pos < |js| && js[pos] == ':'
    ensures !Done(js, |js|, pos) && Lex(js, |js|, pos) == Colon
  {
    hide ScanPrimitive, ScanString;
  }

  /** White space leaves everything but the position alone. */
  lemma {:induction false} RunBlanks(js: string, st: State, w: string, cap: nat)
    requires Wf(js, st) && Has(js, st.pos, w) && Blanks(w)
    ensures Wf(js, st.(pos := st.pos + |w|))
    ensures Run(js, |js|, st, cap) == Run(js, |js|, st.(pos := st.pos + |w|), cap)
    decreases |w|
  {
    hide Run, Lex;
    if w != "" {
      HasChar(js, st.pos, w, 0);
      assert w[0] in w;
      LexSkip(js, st.pos);
      var s := st.(pos := st.pos + 1);
      RunLexeme(js, st, Skip, s, cap);
      HasTail(js, st.pos, w, 1);
      RunBlanks(js, s, w[1..], cap);
    } else {
      assert st == st.(pos := st.pos + |w|);
    }
  }

  lemma StopBefore(js: string, pos: nat, w: string)
    requires Has(js, pos, w) && Blanks(w) && Stop(js, pos + |w|)
    ensures Stop(js, pos)
  {
    if w != "" {
      HasChar(js, pos, w, 0);
      assert w[0] in w;
    }
  }

  lemma LexQuoted(js: string, pos: nat, b: string)
    requires StringBody(b) && Has(js, pos, "\"" + b + "\"")
    ensures !Done(js, |js|, pos) && Lex(js, |js|, pos) == Text(pos + 1 + |b|)
  {
    var t := "\"" + b + "\"";
    HasChar(js, pos, t, 0);
    HasChar(js, pos, t, |b| + 1);
    HasParts(js, pos, "\"" + b, "\"");
    HasParts(js, pos, "\"", b);
    ScanBody(js, pos + 1, b);
  }

  lemma LexPlain(js: string, pos: nat, t: string)
    requires PlainText(t) && Has(js, pos, t) && Stop(js, pos + |t|)
    ensures !Done(js, |js|, pos) && Lex(js, |js|, pos) == Scalar(pos + |t|)
  {
    HasChar(js, pos, t, 0);
    assert t[0] in t;
    ScanPlain(js, pos, t);
  }

  // ----- token arrays

  predicate AllClosed(toks: seq<Token>) {
    forall k :: 0 <= k < |toks| ==> !Open(toks[k])
  }

  lemma {:induction false} TokensClosed(v: Value, pos: nat, idx: nat, key: int)
    ensures AllClosed(Tokens(v, pos, idx, key))
    decreases v
  {
    match v {
      case Plain(_) =>
      case Quoted(_) =>
      case Arr(lead, items) => ItemsClosed(items, pos + 1 + |lead|, idx + 1);
      case Obj(lead, members) => MembersClosed(members, pos + 1 + |lead|, idx + 1);
    }
  }

  lemma {:induction false} ItemsClosed(items: Items, pos: nat, idx: nat)
    ensures AllClosed(ItemTokens(items, pos, idx))
    decreases items
  {
    match items {
      case NoItems =>
      case Item(v, trail, lead, rest) =>
        TokensClosed(v, pos, idx, -1);
        ItemsClosed(rest, pos + |Print(v)| + |trail| + 1 + |lead|, idx + Count(v));
    }
  }

  lemma {:induction false} MembersClosed(members: Members, pos: nat, idx: nat)
    ensures AllClosed(MemberTokens(members, pos, idx))
    decreases members
  {
    match members {
      case NoMembers =>
      case Member(key, b, a, v, trail, lead, rest) =>
        var p := ValuePos(members, pos);
        TokensClosed(v, p, idx + 1, idx);
        MembersClosed(rest, p + |Print(v)| + |trail| + 1 + |lead|, idx + 1 + Count(v));
    }
  }

  /** `n` more children for token `i`, if there is one. */
  function BumpBy(toks: seq<Token>, i: int, n: nat): (r: seq<Token>)
    requires -1 <= i < |toks|
    ensures |r| == |toks|
  {
    if i == -1 then toks else toks[i := toks[i].(size := toks[i].size + n)]
  }

  /** Appending closed tokens and counting children does not move the top of the stack. */
  lemma SameTop(toks: seq<Token>, i: int, n: nat, more: seq<Token>)
    requires -1 <= i < |toks| && AllClosed(more)
    ensures LastOpen(BumpBy(toks, i, n) + more) == LastOpen(toks)
  {
    hide LastOpen;
    var after, o := BumpBy(toks, i, n) + more, LastOpen(toks);
    forall k | o < k < |after| ensures !Open(after[k]) {
      if k >= |toks| {
        assert after[k] == more[k - |toks|];
      } else {
        assert !Open(toks[k]) && after[k].start == toks[k].start && after[k].end == toks[k].end;
      }
    }
    if o >= 0 {
      assert after[o].start == toks[o].start && after[o].end == toks[o].end;
    }
    TopIs(after, o);
  }

  /** The state after a stretch of text that adds `n` children and the tokens `more`. */
  function Grown(st: State, pos: nat, n: nat, more: seq<Token>): State
    requires -1 <= st.super < |st.toks|
  {
    State(pos, st.super, false, BumpBy(st.toks, st.super, n) + more)
  }

  lemma GrownFacts(st: State, p: nat, n: nat, more: seq<Token>, q: nat)
    requires -1 <= st.super < |st.toks|
    ensures var s := Grown(st, p, n, more);
      && s.pos == p && s.super == st.super && !s.nextisval && |s.toks| == |st.toks| + |more|
      && s.(pos := q) == Grown(st, q, n, more)
  {
  }

  lemma GrownNothing(st: State)
    requires -1 <= st.super < |st.toks| && !st.nextisval
    ensures Grown(st, st.pos, 0, []) == st
  {
    assert BumpBy(st.toks, st.super, 0) + [] == st.toks;
  }

  lemma GrownTwice(st: State, p: nat, m: nat, a: seq<Token>, q: nat, n: nat, b: seq<Token>)
    requires -1 <= st.super < |st.toks|
    ensures Grown(Grown(st, p, m, a), q, n, b) == Grown(st, q, m + n, a + b)
  {
    assert BumpBy(BumpBy(st.toks, st.super, m) + a, st.super, n) + b
        == BumpBy(st.toks, st.super, m + n) + (a + b);
  }

  // ----- the run over a value

  /** What the lemmas below ask of a state, before a stretch of text that needs `n` tokens. */
  predicate Ready(js: string, st: State, cap: nat, n: nat) {
    Wf(js, st) && st.super == LastOpen(st.toks) && |st.toks| + n <= cap
  }

  function KeyOf(st: State): int {
    if st.nextisval then |st.toks| - 1 else -1
  }

  lemma {:induction false} RunValue(js: string, st: State, v: Value, cap: nat)
    requires Legal(v) && Has(js, st.pos, Print(v)) && Stop(js, st.pos + |Print(v)|)
    requires Ready(js, st, cap, Count(v))
    ensures var s := Grown(st, st.pos + |Print(v)|, 1, Tokens(v, st.pos, |st.toks|, KeyOf(st)));
      Ready(js, s, cap, 0) && Run(js, |js|, st, cap) == Run(js, |js|, s, cap)
    decreases v, 1
  {
    hide Run, Lex, Has, Stop, LastOpen;
    var toks := Tokens(v, st.pos, |st.toks|, KeyOf(st));
    var s := Grown(st, st.pos + |Print(v)|, 1, toks);
    TokensClosed(v, st.pos, |st.toks|, KeyOf(st));
    SameTop(st.toks, st.super, 1, toks);
    match v {
      case Plain(text) =>
        LexPlain(js, st.pos, text);
        RunLexeme(js, st, Scalar(st.pos + |text|), s, cap);
      case Quoted(body) =>
        LexQuoted(js, st.pos, body);
        RunLexeme(js, st, Text(st.pos + 1 + |body|), s, cap);
      case Arr(lead, items) => RunArr(js, st, v, cap);
      case Obj(lead, members) => RunObj(js, st, v, cap);
    }
  }

  lemma RunArr(js: string, st: State, v: Value, cap: nat)
    requires v.Arr? && Legal(v) && Has(js, st.pos, Print(v)) && Ready(js, st, cap, Count(v))
    ensures var s := Grown(st, st.pos + |Print(v)|, 1, Tokens(v, st.pos, |st.toks|, KeyOf(st)));
      Wf(js, s) && Run(js, |js|, st, cap) == Run(js, |js|, s, cap)
    decreases v, 0
  {
    hide Run, LastOpen, BumpBy, Stop;
    var body := PrintItems(v.items);
    var inner := Entered(js, st, Array, "[", v.lead, body, "]", cap);
    var more := ItemTokens(v.items, inner.pos, |inner.toks|);
    RunItems(js, inner, v.items, cap);
    ItemsClosed(v.items, inner.pos, |inner.toks|);
    Left(js, st, v.lead, Array, Length(v.items), body, more, "]", cap);
    assert Tokens(v, st.pos, |st.toks|, KeyOf(st))
        == [Token(Array, st.pos, st.pos + |Print(v)|, Length(v.items), KeyOf(st))] + more;
  }

  lemma RunObj(js: string, st: State, v: Value, cap: nat)
    requires v.Obj? && Legal(v) && Has(js, st.pos, Print(v)) && Ready(js, st, cap, Count(v))
    ensures var s := Grown(st, st.pos + |Print(v)|, 1, Tokens(v, st.pos, |st.toks|, KeyOf(st)));
      Wf(js, s) && Run(js, |js|, st, cap) == Run(js, |js|, s, cap)
    decreases v, 0
  {
    hide Run, LastOpen, BumpBy, Stop, PrintMembers, MemberTokens, Pairs, LegalMembers;
    var body := PrintMembers(v.members);
    var inner := Entered(js, st, Object, "{", v.lead, body, "}", cap);
    var more := MemberTokens(v.members, inner.pos, |inner.toks|);
    RunMembers(js, inner, v.members, cap);
    MembersClosed(v.members, inner.pos, |inner.toks|);
    Left(js, st, v.lead, Object, 2 * Pairs(v.members), body, more, "}", cap);
    assert Tokens(v, st.pos, |st.toks|, KeyOf(st))
        == [Token(Object, st.pos, st.pos + |Print(v)|, 2 * Pairs(v.members), KeyOf(st))] + more;
  }

  /** The state inside a container, after its opening bracket and the white space behind it. */
  function Inside(st: State, kind: Kind, lead: string): State
    requires -1 <= st.super < |st.toks|
  {
    Push(st, kind, st.pos, -1).(pos := st.pos + 1 + |lead|, super := |st.toks|)
  }

  lemma InsideFacts(js: string, st: State, kind: Kind, lead: string, cap: nat)
    requires Ready(js, st, cap, 1) && st.pos + 1 + |lead| <= |js|
    ensures var s := Inside(st, kind, lead);
      Ready(js, s, cap, cap - |st.toks| - 1) && !s.nextisval && |s.toks| == |st.toks| + 1
  {
    TopIs(Inside(st, kind, lead).toks, |st.toks|);
  }

  lemma LexBracket(js: string, pos: nat, kind: Kind, bracket: string)
    requires Has(js, pos, bracket)
    ensures bracket == "[" || bracket == "]" || bracket == "{" || bracket == "}" ==>
      pos < |js| && Delimiter(js[pos]) == (bracket == "]" || bracket == "}") && !Done(js, |js|, pos)
    ensures (bracket == "[" && kind.Array?) || (bracket == "{" && kind.Object?) ==> Lex(js, |js|, pos) == Opening(kind)
    ensures (bracket == "]" && kind.Array?) || (bracket == "}" && kind.Object?) ==> Lex(js, |js|, pos) == Closing(kind)
  {
    hide ScanPrimitive, ScanString;
    if bracket != "" {
      HasChar(js, pos, bracket, 0);
    }
  }

  lemma Entered(js: string, st: State, kind: Kind, open: string, lead: string, body: string, close: string, cap: nat)
    returns (s: State)
    requires Ready(js, st, cap, 1) && Blanks(lead)
    requires (kind.Array? && open == "[" && close == "]") || (kind.Object? && open == "{" && close == "}")
    requires Has(js, st.pos, open + lead + body + close)
    ensures s == Inside(st, kind, lead) && Ready(js, s, cap, cap - |st.toks| - 1) && !s.nextisval
    ensures Has(js, s.pos, body) && Has(js, s.pos + |body|, close) && Stop(js, s.pos + |body|)
    ensures Run(js, |js|, st, cap) == Run(js, |js|, s, cap)
  {
    hide Run, Lex, LastOpen;
    s := Inside(st, kind, lead);
    HasParts(js, st.pos, open + lead + body, close);
    HasParts(js, st.pos, open + lead, body);
    HasParts(js, st.pos, open, lead);
    LexBracket(js, st.pos, kind, open);
    LexBracket(js, s.pos + |body|, kind, close);
    InsideFacts(js, st, kind, lead, cap);
    var first := s.(pos := st.pos + 1);
    RunLexeme(js, st, Opening(kind), first, cap);
    RunBlanks(js, first, lead, cap);
  }

  /** Closing a container whose inside has been run through. */
  lemma CloseInside(st: State, lead: string, kind: Kind, n: nat, pos: nat, more: seq<Token>)
    requires -1 <= st.super < |st.toks| && st.super == LastOpen(st.toks)
    requires AllClosed(more) && (kind.Array? || kind.Object?)
    ensures var inner := Inside(st, kind, lead);
      var t := Token(kind, st.pos, pos + 1, n, KeyOf(st));
      Close(Grown(inner, pos, n, more), kind) == Go(Grown(st, pos + 1, 1, [t] + more))
  {
    var inner, i := Inside(st, kind, lead), |st.toks|;
    var s := Grown(inner, pos, n, more);
    var t := Token(kind, st.pos, pos + 1, n, KeyOf(st));
    SameTop(inner.toks, i, n, more);
    TopIs(inner.toks, i);
    assert s.toks[..i] == BumpBy(st.toks, st.super, 1) + [];
    SameTop(st.toks, st.super, 1, []);
    assert s.toks[i := s.toks[i].(end := s.pos + 1)] == BumpBy(st.toks, st.super, 1) + ([t] + more);
  }

  lemma Left(js: string, st: State, lead: string, kind: Kind, n: nat, body: string, more: seq<Token>, close: string,
             cap: nat)
    requires Ready(js, st, cap, 1 + |more|)
    requires (kind.Array? && close == "]") || (kind.Object? && close == "}")
    requires AllClosed(more) && Has(js, st.pos + 1 + |lead| + |body|, close)
    ensures var inner := Inside(st, kind, lead);
      var s := Grown(inner, inner.pos + |body|, n, more);
      var t := Token(kind, st.pos, s.pos + 1, n, KeyOf(st));
      Wf(js, s) && Run(js, |js|, s, cap) == Run(js, |js|, Grown(st, s.pos + 1, 1, [t] + more), cap)
  {
    hide Run, Lex, LastOpen, Close;
    var p := st.pos + 1 + |lead| + |body|;
    LexBracket(js, p, kind, close);
    CloseInside(st, lead, kind, n, p, more);
    var t := Token(kind, st.pos, p + 1, n, KeyOf(st));
    RunLexeme(js, Grown(Inside(st, kind, lead), p, n, more), Closing(kind), Grown(st, p + 1, 1, [t] + more), cap);
  }

  /** A comma and the white space after it, between two items or members. */
  lemma RunComma(js: string, st: State, lead: string, rest: string, cap: nat) returns (s: State)
    requires Wf(js, st) && Has(js, st.pos, "," + lead + rest) && Blanks(lead)
    ensures s == st.(pos := st.pos + 1 + |lead|) && Wf(js, s) && Has(js, s.pos, rest)
    ensures Run(js, |js|, st, cap) == Run(js, |js|, s, cap)
  {
    hide Run, Lex;
    HasParts(js, st.pos, "," + lead, rest);
    HasParts(js, st.pos, ",", lead);
    HasChar(js, st.pos, ",", 0);
    LexSkip(js, st.pos);
    s := st.(pos := st.pos + 1);
    RunLexeme(js, st, Skip, s, cap);
    RunBlanks(js, s, lead, cap);
    s := st.(pos := st.pos + 1 + |lead|);
  }

  lemma {:induction false} RunItems(js: string, st: State, items: Items, cap: nat)
    requires LegalItems(items) && Has(js, st.pos, PrintItems(items)) && Stop(js, st.pos + |PrintItems(items)|)
    requires Ready(js, st, cap, CountItems(items)) && !st.nextisval
    ensures var s := Grown(st, st.pos + |PrintItems(items)|, Length(items), ItemTokens(items, st.pos, |st.toks|));
      Wf(js, s) && Run(js, |js|, st, cap) == Run(js, |js|, s, cap)
    decreases items
  {
    hide Run, LastOpen, BumpBy, Grown, Has, Stop;
    match items {
      case NoItems =>
        GrownNothing(st);
      case Item(v, trail, lead, rest) =>
        var more := if rest.NoItems? then "" else "," + lead + PrintItems(rest);
        assert PrintItems(items) == Print(v) + trail + more;
        var a := Tokens(v, st.pos, |st.toks|, -1);
        var q := st.pos + |Print(v)| + |trail|;
        var s2 := RunValueAndTrail(js, st, v, trail, more, cap);
        if rest.NoItems? {
          assert ItemTokens(items, st.pos, |st.toks|) == a;
        } else {
          var p := q + 1 + |lead|;
          GrownFacts(st, q, 1, a, p);
          var s3 := RunComma(js, s2, lead, PrintItems(rest), cap);
          assert s3.pos + |PrintItems(rest)| == st.pos + |PrintItems(items)|;
          RunItems(js, s3, rest, cap);
          var b := ItemTokens(rest, p, |s3.toks|);
          assert ItemTokens(items, st.pos, |st.toks|) == a + b;
          GrownTwice(st, p, 1, a, p + |PrintItems(rest)|, Length(rest), b);
        }
    }
  }

  /** A value and the white space after it. */
  lemma RunValueAndTrail(js: string, st: State, v: Value, trail: string, more: string, cap: nat) returns (s: State)
    requires Legal(v) && Blanks(trail) && Ready(js, st, cap, Count(v))
    requires Has(js, st.pos, Print(v) + trail + more)
    requires if more == "" then Stop(js, st.pos + |Print(v)| + |trail|) else more[0] == ','
    ensures s == Grown(st, st.pos + |Print(v)| + |trail|, 1, Tokens(v, st.pos, |st.toks|, KeyOf(st)))
    ensures Ready(js, s, cap, 0) && Has(js, s.pos, more)
    ensures Run(js, |js|, st, cap) == Run(js, |js|, s, cap)
    decreases v, 2
  {
    hide Run;
    var p := st.pos + |Print(v)|;
    HasParts(js, st.pos, Print(v) + trail, more);
    HasParts(js, st.pos, Print(v), trail);
    if more != "" {
      HasChar(js, p + |trail|, more, 0);
    }
    StopBefore(js, p, trail);
    RunValue(js, st, v, cap);
    var s1 := Grown(st, p, 1, Tokens(v, st.pos, |st.toks|, KeyOf(st)));
    RunBlanks(js, s1, trail, cap);
    s := s1.(pos := p + |trail|);
  }

  /** A key with its colon and the white space on both sides of it. */
  lemma RunKey(js: string, st: State, m: Members, cap: nat)
    requires m.Member? && LegalMembers(m) && Ready(js, st, cap, 1) && !st.nextisval
    requires Has(js, st.pos, PrintKey(m) + m.beforeColon + ":" + m.afterColon)
    ensures var t := Token(String, st.pos + 1, st.pos + 1 + |m.key|, 0, -1);
      var s := Grown(st, ValuePos(m, st.pos), 1, [t]).(nextisval := true);
      Ready(js, s, cap, cap - |st.toks| - 1) && Run(js, |js|, st, cap) == Run(js, |js|, s, cap)
  {
    hide Run, Lex, LastOpen, Has;
    var t := Token(String, st.pos + 1, st.pos + 1 + |m.key|, 0, -1);
    var k, b, a := PrintKey(m), m.beforeColon, m.afterColon;
    HasParts(js, st.pos, k + b + ":", a);
    HasParts(js, st.pos, k + b, ":");
    HasParts(js, st.pos, k, b);
    LexQuoted(js, st.pos, m.key);
    var s1 := Grown(st, st.pos + |k|, 1, [t]);
    RunLexeme(js, st, Text(st.pos + 1 + |m.key|), s1, cap);
    SameTop(st.toks, st.super, 1, [t]);
    RunBlanks(js, s1, b, cap);
    var s2 := s1.(pos := s1.pos + |b|);
    HasChar(js, s2.pos, ":", 0);
    LexColon(js, s2.pos);
    var s3 := s2.(pos := s2.pos + 1, nextisval := true);
    RunLexeme(js, s2, Colon, s3, cap);
    RunBlanks(js, s3, a, cap);
  }

  /** The tokens of one member. */
  function PairTokens(m: Members, pos: nat, idx: nat): (r: seq<Token>)
    requires m.Member?
    ensures |r| == 1 + Count(m.v)
  {
    [Token(String, pos + 1, pos + 1 + |m.key|, 0, -1)] + Tokens(m.v, ValuePos(m, pos), idx + 1, idx)
  }

  function PairEnd(m: Members, pos: nat): nat
    requires m.Member?
  {
    ValuePos(m, pos) + |Print(m.v)| + |m.trail|
  }

  lemma MemberTokensUnfold(m: Members, pos: nat, idx: nat)
    requires m.Member?
    ensures MemberTokens(m, pos, idx) == PairTokens(m, pos, idx)
      + MemberTokens(m.rest, PairEnd(m, pos) + 1 + |m.lead|, idx + 1 + Count(m.v))
  {
  }

  lemma RunPair(js: string, st: State, m: Members, more: string, cap: nat) returns (s: State)
    requires m.Member? && LegalMembers(m) && Ready(js, st, cap, 1 + Count(m.v)) && !st.nextisval
    requires Has(js, st.pos, PrintKey(m) + m.beforeColon + ":" + m.afterColon + (Print(m.v) + m.trail + more))
    requires if more == "" then Stop(js, PairEnd(m, st.pos)) else more[0] == ','
    ensures s == Grown(st, PairEnd(m, st.pos), 2, PairTokens(m, st.pos, |st.toks|))
    ensures Ready(js, s, cap, 0) && Has(js, s.pos, more)
    ensures Run(js, |js|, st, cap) == Run(js, |js|, s, cap)
    decreases m, 0
  {
    hide Run, LastOpen, BumpBy, Has, Stop;
    var head := PrintKey(m) + m.beforeColon + ":" + m.afterColon;
    HasParts(js, st.pos, head, Print(m.v) + m.trail + more);
    var o := ValuePos(m, st.pos);
    var t := Token(String, st.pos + 1, st.pos + 1 + |m.key|, 0, -1);
    RunKey(js, st, m, cap);
    var s1 := Grown(st, o, 1, [t]).(nextisval := true);
    s := RunValueAndTrail(js, s1, m.v, m.trail, more, cap);
    GrownTwice(st, o, 1, [t], s.pos, 1, Tokens(m.v, o, |st.toks| + 1, |st.toks|));
  }

  lemma {:induction false} RunMembers(js: string, st: State, members: Members, cap: nat)
    requires LegalMembers(members) && Has(js, st.pos, PrintMembers(members))
    requires Stop(js, st.pos + |PrintMembers(members)|)
    requires Ready(js, st, cap, CountMembers(members)) && !st.nextisval
    ensures var s := Grown(st, st.pos + |PrintMembers(members)|, 2 * Pairs(members),
                           MemberTokens(members, st.pos, |st.toks|));
      Wf(js, s) && Run(js, |js|, st, cap) == Run(js, |js|, s, cap)
    decreases members
  {
    hide Run, LastOpen, BumpBy, Grown, Has, Stop, PairTokens, Print, Tokens, Legal, PrintKey;
    match members {
      case NoMembers =>
        GrownNothing(st);
      case Member(key, b, a, v, trail, lead, rest) =>
        var more := if rest.NoMembers? then "" else "," + lead + PrintMembers(rest);
        assert PrintMembers(members) == PrintKey(members) + b + ":" + a + (Print(v) + trail + more);
        var c := PairTokens(members, st.pos, |st.toks|);
        var q := PairEnd(members, st.pos);
        var s2 := RunPair(js, st, members, more, cap);
        MemberTokensUnfold(members, st.pos, |st.toks|);
        if rest.NoMembers? {
          assert MemberTokens(members, st.pos, |st.toks|) == c;
        } else {
          var p := q + 1 + |lead|;
          GrownFacts(st, q, 2, c, p);
          var s3 := RunComma(js, s2, lead, PrintMembers(rest), cap);
          assert s3.pos + |PrintMembers(rest)| == st.pos + |PrintMembers(members)|;
          RunMembers(js, s3, rest, cap);
          GrownTwice(st, p, 2, c, p + |PrintMembers(rest)|, 2 * Pairs(rest), MemberTokens(rest, p, |s3.toks|));
        }
    }
  }

  lemma RunAtEnd(js: string, st: State, cap: nat)
    requires Wf(js, st) && st.pos == |js| && LastOpen(st.toks) == -1
    ensures Run(js, |js|, st, cap) == Complete(st)
  {
  }

  /** JSON-text = ws value ws: the run completes with exactly the tokens of the value. */
  lemma ParseUndoesPrint(lead: string, v: Value, trail: string, cap: nat)
    requires Legal(v) && Blanks(lead) && Blanks(trail) && cap >= Count(v)
    ensures var js := lead + Print(v) + trail;
      Run(js, |js|, Init, cap) == Complete(State(|js|, -1, false, Tokens(v, |lead|, 0, -1)))
  {
    hide Run, Print, LastOpen, Has;
    var js := lead + Print(v) + trail;
    assert js == js[0..0 + |js|];
    HasParts(js, 0, lead + Print(v), trail);
    HasParts(js, 0, lead, Print(v));
    RunBlanks(js, Init, lead, cap);
    var s0 := Init.(pos := |lead|);
    StopBefore(js, |lead| + |Print(v)|, trail);
    RunValue(js, s0, v, cap);
    var s1 := Grown(s0, |lead| + |Print(v)|, 1, Tokens(v, |lead|, 0, -1));
    RunBlanks(js, s1, trail, cap);
    TokensClosed(v, |lead|, 0, -1);
    assert s1.toks == Tokens(v, |lead|, 0, -1);
    TopIs(s1.toks, -1);
    RunAtEnd(js, s1.(pos := |js|), cap);
  }
}
