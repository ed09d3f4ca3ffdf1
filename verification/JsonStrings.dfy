/** What the tokenizer takes for a string or a primitive, and every reason it has to stop. */
module JsonStrings {
  import opened JsonLex
  import opened JsonRun

  /** What may stand between the quotes: anything but quotes and NULs, and the escapes of RFC 8259. */
  predicate Body(b: string) {
    if b == "" then true
    else if b[0] != '\\' then b[0] != '\"' && b[0] != '\0' && Body(b[1..])
    else if |b| < 2 then false
    else if ShortEscape(b[1]) then Body(b[2..])
    else b[1] == 'u' && |b| >= 6 && Hex(b[2]) && Hex(b[3]) && Hex(b[4]) && Hex(b[5]) && Body(b[6..])
  }

  predicate HexDigits(js: string, from: nat, to: nat) {
    to <= |js| && forall i :: from <= i < to ==> Hex(js[i])
  }

  /** Fewer than `n` hexadecimal digits from `from` on, and then a character that is neither one nor a NUL. */
  predicate Stray(js: string, from: nat, n: nat) {
    exists i :: from <= i < from + n && i < |js| && js[i] != '\0' && !Hex(js[i]) && HexDigits(js, from, i)
  }

  /** A backslash in front of what is no escape: an unknown letter, or `u` and then a stray character. */
  predicate BadEscape(js: string, i: nat)
    requires i < |js|
  {
    js[i] == '\\' && !ShortEscape(At(js, i + 1)) && (At(js, i + 1) == 'u' ==> Stray(js, i + 2, 4))
  }

  /** The scan of a string body from `pos` on comes to position `i`. */
  predicate Reaches(js: string, len: nat, pos: nat, i: nat) {
    pos <= i < |js| && i < len && Body(js[pos..i])
  }

  ghost predicate Broken(js: string, len: nat, pos: nat) {
    exists i: nat :: Reaches(js, len, pos, i) && BadEscape(js, i)
  }

  /** The first character of a body, its first escape, and what follows. */
  lemma BodyFrom(js: string, pos: nat, i: nat)
    requires pos < i <= |js|
    ensures js[pos] != '\\' ==> (Body(js[pos..i]) <==> js[pos] != '\"' && js[pos] != '\0' && Body(js[pos + 1..i]))
    ensures js[pos] == '\\' && pos + 1 < i && ShortEscape(js[pos + 1]) ==> (Body(js[pos..i]) <==> Body(js[pos + 2..i]))
    ensures js[pos] == '\\' && pos + 6 <= i && js[pos + 1] == 'u' ==>
      (Body(js[pos..i]) <==>
         Hex(js[pos + 2]) && Hex(js[pos + 3]) && Hex(js[pos + 4]) && Hex(js[pos + 5]) && Body(js[pos + 6..i]))
    ensures js[pos] == '\\' && Body(js[pos..i]) ==>
      pos + 1 < i && (ShortEscape(js[pos + 1]) || (js[pos + 1] == 'u' && pos + 6 <= i))
  {
    var b := js[pos..i];
    assert b[1..] == js[pos + 1..i];
    assert |b| >= 2 ==> b[2..] == js[pos + 2..i];
    assert |b| >= 6 ==> b[6..] == js[pos + 6..i];
  }

  lemma {:induction false} HexScan(js: string, pos: nat, n: nat)
    requires pos <= |js|
    ensures ScanHex(js, pos, n).Fail? <==> Stray(js, pos, n)
    ensures ScanHex(js, pos, n).Found? ==>
      var e := ScanHex(js, pos, n).end; if HexDigits(js, pos, pos + n) then e == pos + n else At(js, e) == '\0'
    decreases n
  {
    if n > 0 {
      if At(js, pos) == '\0' {
        assert !Hex('\0');
        assert forall i :: pos < i ==> !HexDigits(js, pos, i);
      } else if !Hex(js[pos]) {
        assert HexDigits(js, pos, pos);
      } else {
        HexScan(js, pos + 1, n - 1);
        assert forall i :: pos < i ==> HexDigits(js, pos, i) == HexDigits(js, pos + 1, i);
        assert HexDigits(js, pos, pos + n) == HexDigits(js, pos + 1, pos + 1 + (n - 1));
      }
    }
  }

  /** The scan finds the closing quote exactly where a body of the string ends, within the length given. */
  lemma {:induction false} StringFound(js: string, len: nat, pos: nat, e: nat)
    requires pos <= |js|
    ensures ScanString(js, len, pos) == Found(e) <==> Reaches(js, len, pos, e) && js[e] == '\"'
    decreases |js| - pos
  {
    hide Body;
    NoBody(js, pos);
    if pos < e <= |js| {
      BodyFrom(js, pos, e);
    }
    if !Done(js, len, pos) && js[pos] != '\"' {
      if js[pos] != '\\' {
        StringFound(js, len, pos + 1, e);
      } else if ShortEscape(At(js, pos + 1)) {
        StringFound(js, len, pos + 2, e);
      } else if At(js, pos + 1) == 'u' {
        HexScan(js, pos + 2, 4);
        var h := ScanHex(js, pos + 2, 4);
        if h.Found? {
          StringFound(js, len, h.end, e);
        }
      }
    }
  }

  lemma NoBody(js: string, pos: nat)
    requires pos <= |js|
    ensures Body(js[pos..pos])
  {
  }

  /** It is refused exactly for a bad escape that it comes to; all other failures are strings that are cut off. */
  lemma {:induction false} StringRefused(js: string, len: nat, pos: nat)
    requires pos <= |js|
    ensures ScanString(js, len, pos) == Fail(INVAL) <==> Broken(js, len, pos)
    decreases |js| - pos
  {
    hide Body, BadEscape;
    if Done(js, len, pos) || js[pos] == '\"' {
      NothingReached(js, len, pos);
    } else {
      var n := NextHead(js, pos);
      if n.Found? {
        StringRefused(js, len, n.end);
      }
      BrokenNext(js, len, pos);
    }
  }

  lemma NothingReached(js: string, len: nat, pos: nat)
    requires pos <= |js| && (Done(js, len, pos) || js[pos] == '\"')
    ensures !Broken(js, len, pos)
  {
    hide Body;
    forall i: nat | Reaches(js, len, pos, i) ensures !BadEscape(js, i) {
      if i > pos {
        BodyFrom(js, pos, i);
      }
    }
  }

  /** Where the scan goes from a character that is no quote. */
  function NextHead(js: string, pos: nat): (r: Scan)
    requires pos < |js|
    ensures r.Found? ==> pos < r.end <= |js|
  {
    if js[pos] != '\\' then Found(pos + 1)
    else if ShortEscape(At(js, pos + 1)) then Found(pos + 2)
    else if At(js, pos + 1) == 'u' then ScanHex(js, pos + 2, 4)
    else Fail(INVAL)
  }

  lemma BrokenNext(js: string, len: nat, pos: nat)
    requires pos <= |js| && !Done(js, len, pos) && js[pos] != '\"'
    ensures var n := NextHead(js, pos); Broken(js, len, pos) <==> n.Found? ==> Broken(js, len, n.end)
  {
    NoBody(js, pos);
    hide Body;
    var n := NextHead(js, pos);
    assert Reaches(js, len, pos, pos);
    BadHere(js, pos);
    if n.Found? {
      hide BadEscape;
      forall i | pos < i < |js| && BadEscape(js, i)
        ensures Reaches(js, len, pos, i) <==> Reaches(js, len, n.end, i)
      {
        ReachesNext(js, len, pos, i);
      }
      assert forall i: nat :: Reaches(js, len, n.end, i) ==> i > pos;
    }
  }

  /** Whether the character itself begins a bad escape. */
  lemma BadHere(js: string, pos: nat)
    requires pos < |js|
    ensures BadEscape(js, pos) <==> NextHead(js, pos).Fail?
  {
    if js[pos] == '\\' && At(js, pos + 1) == 'u' {
      HexScan(js, pos + 2, 4);
    }
    hide Stray;
  }

  lemma ReachesNext(js: string, len: nat, pos: nat, i: nat)
    requires pos < i < |js| && js[pos] != '\"' && js[pos] != '\0' && NextHead(js, pos).Found? && BadEscape(js, i)
    ensures Reaches(js, len, pos, i) <==> Reaches(js, len, NextHead(js, pos).end, i)
  {
    hide Body;
    BodyFrom(js, pos, i);
    if js[pos] == '\\' && !ShortEscape(At(js, pos + 1)) {
      HexScan(js, pos + 2, 4);
      var e := NextHead(js, pos).end;
      hide ScanHex, Stray;
      assert HexDigits(js, pos + 2, pos + 6) <==>
        pos + 6 <= |js| && Hex(js[pos + 2]) && Hex(js[pos + 3]) && Hex(js[pos + 4]) && Hex(js[pos + 5]);
      if e < i {
        BodyFrom(js, e, i);
      }
    }
  }

  // ----- primitives

  /** Position `i` is inside the length and has a character that a primitive may have. */
  predicate Continues(js: string, len: nat, i: nat) {
    i < |js| && i < len && js[i] != '\0' && !Delimiter(js[i]) && !Unprintable(js[i])
  }

  /** The scan of a primitive finds where it ends: at a delimiter, the end, or the length given. */
  lemma {:induction false} PrimitiveFound(js: string, len: nat, pos: nat, e: nat)
    requires pos <= |js|
    ensures ScanPrimitive(js, len, pos) == Found(e) <==>
      && pos <= e <= |js| && (Done(js, len, e) || Delimiter(js[e]))
      && forall i :: pos <= i < e ==> Continues(js, len, i)
    decreases |js| - pos
  {
    assert Continues(js, len, pos) <==> !Done(js, len, pos) && !Delimiter(js[pos]) && !Unprintable(js[pos]);
    if Continues(js, len, pos) {
      PrimitiveFound(js, len, pos + 1, e);
    }
  }

  // ----- runs

  /** Every string token stands between quotes, around a body. */
  predicate StringsRead(js: string, toks: seq<Token>) {
    forall i :: 0 <= i < |toks| && toks[i].kind.String? ==>
      && 0 < toks[i].start <= toks[i].end < |js|
      && js[toks[i].start - 1] == '\"' && js[toks[i].end] == '\"' && Body(js[toks[i].start..toks[i].end])
  }

  lemma StepStrings(js: string, len: nat, st: State, cap: nat)
    requires Wf(js, st) && !Done(js, len, st.pos) && StringsRead(js, st.toks)
    ensures StringsRead(js, Step(js, len, st, cap).st.toks)
  {
    hide Body, ScanString, LastOpen;
    var x := Lex(js, len, st.pos);
    if x.Text? {
      StringFound(js, len, st.pos + 1, x.close);
    }
  }

  /** Whatever comes of a run, its string tokens are what the text has between quotes, and well formed. */
  lemma {:induction false} RunStrings(js: string, len: nat, st: State, cap: nat)
    requires Wf(js, st) && StringsRead(js, st.toks)
    ensures StringsRead(js, Run(js, len, st, cap).st.toks)
    decreases |js| - st.pos
  {
    if !Done(js, len, st.pos) {
      hide Step, StringsRead;
      var next := Step(js, len, st, cap);
      StepStrings(js, len, st, cap);
      if next.Go? {
        RunStrings(js, len, next.st, cap);
      }
    }
  }

  /** Token `i` is open, and none behind it is. */
  predicate TopOpen(toks: seq<Token>, i: nat) {
    i < |toks| && Open(toks[i]) && forall k :: i < k < |toks| ==> !Open(toks[k])
  }

  /** Why a call that is at `s` may end with this code. */
  ghost predicate Reason(js: string, len: nat, s: State, cap: nat, code: int)
    requires s.pos <= |js|
  {
    if Done(js, len, s.pos) then code == PART && exists i: nat :: TopOpen(s.toks, i)
    else
      var c := js[s.pos];
      if c == '\"' then
        match ScanString(js, len, s.pos + 1)
        case Found(_) => code == NOMEM && |s.toks| >= cap
        case Fail(e) => code == e
      else if c == '{' || c == '[' then code == NOMEM && |s.toks| >= cap
      else if c == '}' || c == ']' then
        code == INVAL && forall i: nat :: TopOpen(s.toks, i) ==> s.toks[i].kind != if c == '}' then Object else Array
      else if c == ':' || c == ',' || Blank(c) then false
      else
        match ScanPrimitive(js, len, s.pos)
        case Found(_) => code == NOMEM && |s.toks| >= cap
        case Fail(e) => code == INVAL
  }

  /**
   A call completes only at the end of the text and with no container open; otherwise it stops where
   there is a reason for it, and that reason gives the code.
   */
  lemma {:induction false} WhyStopped(js: string, len: nat, st: State, cap: nat)
    requires Wf(js, st)
    ensures var r := Run(js, len, st, cap);
      match r
      case Complete(s) => Done(js, len, s.pos) && forall i :: 0 <= i < |s.toks| ==> !Open(s.toks[i])
      case Failed(code, s) => Reason(js, len, s, cap, code)
    decreases |js| - st.pos
  {
    if Done(js, len, st.pos) {
      if LastOpen(st.toks) >= 0 {
        assert TopOpen(st.toks, LastOpen(st.toks));
      }
    } else {
      var next := Step(js, len, st, cap);
      if next.Go? {
        hide Step, Reason;
        WhyStopped(js, len, next.st, cap);
      } else {
        HaltHasReason(js, len, st, cap);
      }
    }
  }

  lemma HaltHasReason(js: string, len: nat, st: State, cap: nat)
    requires Wf(js, st) && !Done(js, len, st.pos) && Step(js, len, st, cap).Halt?
    ensures Reason(js, len, st, cap, Step(js, len, st, cap).code)
  {
    hide ScanString, ScanPrimitive, LastOpen;
    if Lex(js, len, st.pos).Closing? {
      forall i: nat | TopOpen(st.toks, i) ensures i == LastOpen(st.toks) {
        TopIs(st.toks, i);
      }
    }
  }
}
