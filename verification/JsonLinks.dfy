/**
 The build with JSMN_PARENT_LINKS: each token records its parent, and a closing bracket walks up
 the parents of the newest token instead of scanning the whole array backwards.  The walk is proved
 to find what the scan finds, and the two builds to agree on an input exactly when no closing
 bracket is met with tokens allocated and no container open.
 */
module JsonLinks {
  import opened JsonLex
  import opened JsonRun
  import opened JsonLaminar

  /** The parser of this build: `parents[i]` is the extra field of token i. */
  datatype Linked = Linked(st: State, parents: seq<int>)

  predicate WfLinks(l: Linked) {
    && |l.parents| == |l.st.toks|
    && forall j :: 0 <= j < |l.parents| ==> -1 <= l.parents[j] < j
  }

  /** The first open token on the way up from token `i`, -1 if the way ends before one. */
  function Walk(l: Linked, i: nat): (r: int)
    requires WfLinks(l) && i < |l.parents|
    ensures -1 <= r <= i
    ensures r >= 0 ==> Open(l.st.toks[r])
  {
    if Open(l.st.toks[i]) then i
    else if l.parents[i] == -1 then -1
    else Walk(l, l.parents[i])
  }

  datatype LinkedNext = LGo(l: Linked) | LHalt(code: int, l: Linked)

  /** A closing bracket in this build; one with nothing open is skipped unless no token exists yet. */
  function CloseLinked(l: Linked, kind: Kind): (r: LinkedNext)
    requires WfLinks(l)
    ensures r.LGo? ==> WfLinks(r.l) && r.l.st.pos == l.st.pos + 1 && |r.l.st.toks| == |l.st.toks|
  {
    if |l.st.toks| < 1 then LHalt(INVAL, l)
    else
      var i := Walk(l, |l.st.toks| - 1);
      if i == -1 then LGo(l.(st := l.st.(pos := l.st.pos + 1)))
      else if l.st.toks[i].kind != kind then LHalt(INVAL, l)
      else
        var toks := l.st.toks[i := l.st.toks[i].(end := l.st.pos + 1)];
        LGo(l.(st := State(l.st.pos + 1, l.parents[i], l.st.nextisval, toks)))
  }

  function LinkedStep(js: string, len: nat, l: Linked, cap: nat): (r: LinkedNext)
    requires Wf(js, l.st) && WfLinks(l) && !Done(js, len, l.st.pos)
    ensures r.LGo? ==> Wf(js, r.l.st) && WfLinks(r.l) && r.l.st.pos > l.st.pos
    ensures r.LHalt? ==> r.l == l
  {
    var x := Lex(js, len, l.st.pos);
    if x.Closing? then CloseLinked(l, x.kind)
    else
      match Step(js, len, l.st, cap)
      case Halt(code, _) => LHalt(code, l)
      case Go(s) => LGo(Linked(s, NextParents(l.st, s, l.parents)))
  }

  datatype LinkedOutcome = LComplete(l: Linked) | LFailed(code: int, l: Linked)

  function LinkedRun(js: string, len: nat, l: Linked, cap: nat): (r: LinkedOutcome)
    requires Wf(js, l.st) && WfLinks(l)
    ensures Wf(js, r.l.st) && WfLinks(r.l)
    ensures r.l.st.pos >= l.st.pos
    decreases |js| - l.st.pos
  {
    if Done(js, len, l.st.pos) then
      if LastOpen(l.st.toks) == -1 then LComplete(l) else LFailed(PART, l)
    else
      match LinkedStep(js, len, l, cap)
      case LHalt(code, k) => LFailed(code, k)
      case LGo(k) => LinkedRun(js, len, k, cap)
  }

  /** What a caller of the other build would see: everything but the parent fields. */
  function Forget(r: LinkedOutcome): Outcome {
    match r
    case LComplete(l) => Complete(l.st)
    case LFailed(code, l) => Failed(code, l.st)
  }

  /** The walk as the loop over the token array that the original runs. */
  method WalkParents(tokens: array<Token>, parents: array<int>, toknext: nat, ghost l: Linked) returns (i: int)
    requires 1 <= toknext <= tokens.Length && toknext <= parents.Length
    requires WfLinks(l) && l.st.toks == tokens[..toknext] && l.parents == parents[..toknext]
    ensures i == Walk(l, toknext - 1)
  {
    i := toknext - 1;
    while true
      invariant 0 <= i < toknext
      invariant Walk(l, i) == Walk(l, toknext - 1)
      decreases i
    {
      if Open(tokens[i]) {
        return;
      }
      if parents[i] == -1 {
        return -1;
      }
      i := parents[i];
    }
  }

  /** From any token above the last open one, the way up leads to it. */
  lemma {:induction false} WalkFindsLastOpen(st: State, i: nat)
    requires Laminar(st) && LastOpen(st.toks) <= i < |st.toks|
    ensures Walk(Linked(st, Parents(st.toks)), i) == LastOpen(st.toks)
    decreases i
  {
    if !Open(st.toks[i]) {
      var p, o := Enclosing(st.toks, i), LastOpen(st.toks);
      assert p == Parents(st.toks)[i];
      assert Placed(st.toks, i, p);
      if p >= 0 {
        assert o >= 0 ==> !Over(st.toks[o], st.toks[i].start);
        WalkFindsLastOpen(st, p);
      }
    }
  }

  /** The two closers agree, unless tokens exist but none is open. */
  lemma {:induction false} ClosersAgree(st: State, kind: Kind)
    requires Laminar(st) && (LastOpen(st.toks) >= 0 || |st.toks| == 0)
    ensures var l, next := Linked(st, Parents(st.toks)), Close(st, kind);
      && WfLinks(l)
      && CloseLinked(l, kind) == if next.Go? then LGo(l.(st := next.st)) else LHalt(next.code, l)
  {
    hide LastOpen, Walk, Laminar;
    if |st.toks| > 0 {
      WalkFindsLastOpen(st, |st.toks| - 1);
      OpenStack(st, LastOpen(st.toks));
      assert Parents(st.toks)[LastOpen(st.toks)] == Enclosing(st.toks, LastOpen(st.toks));
    }
  }

  /** The kinds of the open containers, outermost first. */
  function OpenKinds(toks: seq<Token>): seq<Kind> {
    if |toks| == 0 then []
    else OpenKinds(toks[..|toks| - 1]) + if Open(toks[|toks| - 1]) then [toks[|toks| - 1].kind] else []
  }

  /** What a scan of the text needs to remember: the kinds of the open containers, and a count. */
  datatype Scene = Scene(stack: seq<Kind>, used: nat)

  datatype Verdict = Stray | Stops | On(scene: Scene)

  /** One lexeme, with `cap` tokens available. */
  function Advance(x: Lexeme, c: Scene, cap: nat): Verdict {
    match x
    case Bad(_) => Stops
    case Closing(kind) =>
      if c.stack == [] then if c.used == 0 then Stops else Stray
      else if c.stack[|c.stack| - 1] != kind then Stops
      else On(c.(stack := c.stack[..|c.stack| - 1]))
    case Opening(kind) => if c.used >= cap then Stops else On(Scene(c.stack + [kind], c.used + 1))
    case Text(_) => if c.used >= cap then Stops else On(c.(used := c.used + 1))
    case Scalar(_) => if c.used >= cap then Stops else On(c.(used := c.used + 1))
    case _ => On(c)
  }

  /**
   Whether a call meets no stray closing bracket, decided from the text and the number of tokens
   alone.
   */
  predicate NoStray(js: string, len: nat, pos: nat, c: Scene, cap: nat)
    requires pos <= |js|
    decreases |js| - pos
  {
    Done(js, len, pos) ||
    var x := Lex(js, len, pos);
    match Advance(x, c, cap)
    case Stray => false
    case Stops => true
    case On(d) => NoStray(js, len, After(x, pos), d, cap)
  }

  function SceneOf(st: State): Scene {
    Scene(OpenKinds(st.toks), |st.toks|)
  }

  lemma {:induction false} KindsOfOpen(toks: seq<Token>)
    ensures OpenKinds(toks) == [] <==> LastOpen(toks) == -1
    ensures LastOpen(toks) >= 0 ==>
      var i, ks := LastOpen(toks), OpenKinds(toks);
      ks == OpenKinds(toks[..i]) + [toks[i].kind]
  {
    if |toks| > 0 && !Open(toks[|toks| - 1]) {
      KindsOfOpen(toks[..|toks| - 1]);
      if LastOpen(toks) >= 0 {
        assert toks[..|toks| - 1][..LastOpen(toks)] == toks[..LastOpen(toks)];
      }
    }
  }

  /** Open kinds depend on nothing but kinds and which tokens are open. */
  lemma {:induction false} SameKinds(a: seq<Token>, b: seq<Token>)
    requires |a| == |b|
    requires forall k :: 0 <= k < |a| ==> Open(a[k]) == Open(b[k]) && a[k].kind == b[k].kind
    ensures OpenKinds(a) == OpenKinds(b)
  {
    if |a| > 0 {
      SameKinds(a[..|a| - 1], b[..|b| - 1]);
    }
  }

  lemma {:induction false} ClosedTailKinds(toks: seq<Token>, i: nat)
    requires i <= |toks| && forall k :: i <= k < |toks| ==> !Open(toks[k])
    ensures OpenKinds(toks) == OpenKinds(toks[..i])
    decreases |toks|
  {
    if i < |toks| {
      ClosedTailKinds(toks[..|toks| - 1], i);
      assert toks[..|toks| - 1][..i] == toks[..i];
    } else {
      assert toks[..i] == toks;
    }
  }

  lemma {:induction false} PushKinds(st: State, kind: Kind, start: nat, end: int)
    requires -1 <= st.super < |st.toks|
    ensures var toks := Push(st, kind, start, end).toks;
      OpenKinds(toks) == OpenKinds(st.toks) + if end == -1 then [kind] else []
  {
    var toks := Push(st, kind, start, end).toks;
    assert toks[..|st.toks|] == Bump(st.toks, st.super);
    SameKinds(Bump(st.toks, st.super), st.toks);
  }

  lemma {:induction false} CloseKinds(st: State, kind: Kind)
    requires Close(st, kind).Go?
    ensures var s, ks := Close(st, kind).st, OpenKinds(st.toks);
      |ks| > 0 && ks[|ks| - 1] == kind && OpenKinds(s.toks) == ks[..|ks| - 1]
  {
    var i, s := LastOpen(st.toks), Close(st, kind).st;
    KindsOfOpen(st.toks);
    ClosedTailKinds(s.toks, i);
    assert s.toks[..i] == st.toks[..i];
  }

  /** A turn that both builds take alike leaves both in matching states. */
  lemma {:induction false} StepAgrees(js: string, len: nat, st: State, cap: nat)
    requires Wf(js, st) && Laminar(st) && !Done(js, len, st.pos)
    requires Lex(js, len, st.pos).Closing? ==> LastOpen(st.toks) >= 0 || |st.toks| == 0
    ensures var l, next := Linked(st, Parents(st.toks)), Step(js, len, st, cap);
      && WfLinks(l)
      && (next.Go? ==>
            Laminar(next.st) && LinkedStep(js, len, l, cap) == LGo(Linked(next.st, Parents(next.st.toks))))
      && (next.Halt? ==> LinkedStep(js, len, l, cap) == LHalt(next.code, l))
  {
    var x := Lex(js, len, st.pos);
    if x.Closing? {
      ClosersAgree(st, x.kind);
    }
    if Step(js, len, st, cap).Go? {
      var s := Step(js, len, st, cap).st;
      StepLaminar(js, len, st, cap, Parents(st.toks));
      ParentsDetermined(s, NextParents(st, s, Parents(st.toks)));
    }
  }

  /** A turn of the tokenizer is one step of the scan. */
  lemma {:induction false} StepAdvances(st: State, x: Lexeme, cap: nat)
    requires -1 <= st.super < |st.toks|
    requires x.Closing? ==> LastOpen(st.toks) >= 0 || |st.toks| == 0
    ensures var next := Apply(st, x, cap);
      Advance(x, SceneOf(st), cap) == if next.Halt? then Stops else On(SceneOf(next.st))
  {
    hide LastOpen, OpenKinds;
    match x {
      case Opening(kind) => PushKinds(st, kind, st.pos, -1);
      case Text(e) => PushKinds(st, String, st.pos + 1, e);
      case Scalar(e) => PushKinds(st, Primitive, st.pos, e);
      case Closing(kind) =>
        KindsOfOpen(st.toks);
        if Close(st, kind).Go? {
          CloseKinds(st, kind);
        }
      case _ =>
    }
  }

  /** The builds give the same outcome exactly on the calls that meet no stray closing bracket. */
  lemma {:induction false} BuildsAgree(js: string, len: nat, st: State, cap: nat)
    requires Wf(js, st) && Laminar(st)
    ensures var l := Linked(st, Parents(st.toks));
      WfLinks(l) &&
      (Forget(LinkedRun(js, len, l, cap)) == Run(js, len, st, cap)
       <==> NoStray(js, len, st.pos, SceneOf(st), cap))
    decreases |js| - st.pos
  {
    var l := Linked(st, Parents(st.toks));
    if !Done(js, len, st.pos) {
      var x := Lex(js, len, st.pos);
      if x.Closing? && LastOpen(st.toks) == -1 && |st.toks| > 0 {
        KindsOfOpen(st.toks);
        WalkFindsLastOpen(st, |st.toks| - 1);
        assert LinkedRun(js, len, l, cap).l.st.pos > st.pos;
      } else {
        StepAgrees(js, len, st, cap);
        StepAdvances(st, x, cap);
        if Step(js, len, st, cap).Go? {
          BuildsAgree(js, len, Step(js, len, st, cap).st, cap);
        }
      }
    }
  }

  /** From the initial state: the condition is one on the input text and the number of tokens. */
  lemma {:induction false} BuildsAgreeFromStart(js: string, len: nat, cap: nat)
    ensures Forget(LinkedRun(js, len, Linked(Init, []), cap)) == Run(js, len, Init, cap)
      <==> NoStray(js, len, 0, Scene([], 0), cap)
  {
    BuildsAgree(js, len, Init, cap);
  }

  /** A run that completes meets no stray closing bracket. */
  lemma {:induction false} CompleteWithoutStray(js: string, len: nat, st: State, cap: nat)
    requires Wf(js, st) && Laminar(st) && Run(js, len, st, cap).Complete?
    ensures NoStray(js, len, st.pos, SceneOf(st), cap)
    decreases |js| - st.pos
  {
    if !Done(js, len, st.pos) {
      var x := Lex(js, len, st.pos);
      if !(x.Closing? && LastOpen(st.toks) == -1 && |st.toks| > 0) {
        StepAgrees(js, len, st, cap);
        StepAdvances(st, x, cap);
        if Step(js, len, st, cap).Go? {
          CompleteWithoutStray(js, len, Step(js, len, st, cap).st, cap);
        }
      }
    }
  }

  /** An input on which the builds differ: one answers INVAL, the other skips the bracket. */
  lemma {:induction false} BuildsDiffer()
    ensures Run("1]", 2, Init, 1).Failed?
    ensures LinkedRun("1]", 2, Linked(Init, []), 1).LComplete?
  {
    var js := "1]";
    var s := State(1, -1, false, [Token(Primitive, 0, 1, 0, -1)]);
    assert ScanPrimitive(js, 2, 0) == Found(1);
    assert Step(js, 2, Init, 1) == Go(s);
    var l := Linked(s, [-1]);
    assert LinkedStep(js, 2, Linked(Init, []), 1) == LGo(l);
    assert Walk(l, 0) == -1;
    assert LinkedStep(js, 2, l, 1) == LGo(l.(st := s.(pos := 2)));
  }
}
