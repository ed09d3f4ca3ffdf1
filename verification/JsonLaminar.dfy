/**
 The shape of the token array on arbitrary bytes: at every step the tokens are laminar, the open
 ones form a stack whose top is the super token, and `size` counts direct children.
 */
module JsonLaminar {
  import opened JsonLex
  import opened JsonRun

  predicate Container(t: Token) {
    t.kind.Object? || t.kind.Array?
  }

  /** Closed, and over before position `p`. */
  predicate Over(t: Token, p: int) {
    t.end != -1 && t.end <= p
  }

  /** The span of `t` lies inside that of `u`, as far as both are known. */
  predicate Within(t: Token, u: Token) {
    u.end == -1 || (t.start < u.end && t.end != -1 && t.end <= u.end)
  }

  /** The innermost token among the first `j` that is not over where token `j` starts, -1 if none. */
  function Enclosing(toks: seq<Token>, j: nat): (i: int)
    requires j < |toks|
    ensures -1 <= i < j
  {
    EnclosingAmong(toks, j, j)
  }

  function EnclosingAmong(toks: seq<Token>, j: nat, n: nat): (i: int)
    requires n <= j < |toks|
    ensures -1 <= i < n
    ensures i >= 0 ==> !Over(toks[i], toks[j].start)
    ensures forall k :: i < k < n ==> Over(toks[k], toks[j].start)
  {
    if n == 0 then -1
    else if !Over(toks[n - 1], toks[j].start) then n - 1
    else EnclosingAmong(toks, j, n - 1)
  }

  function Parents(toks: seq<Token>): seq<int> {
    seq(|toks|, j requires 0 <= j < |toks| => Enclosing(toks, j))
  }

  /** How often `i` occurs in `ps`. */
  function Children(ps: seq<int>, i: int): nat {
    if |ps| == 0 then 0
    else Children(ps[..|ps| - 1], i) + if ps[|ps| - 1] == i then 1 else 0
  }

  /** Token `j` against its parent `p` and the tokens between the two. */
  predicate Placed(toks: seq<Token>, j: nat, p: int)
    requires j < |toks|
  {
    && -1 <= p < j
    && (p >= 0 ==> Container(toks[p]) && Within(toks[j], toks[p]))
    && forall k :: p < k < j ==> Over(toks[k], toks[j].start)
  }

  predicate Bounded(t: Token, pos: nat) {
    && 0 <= t.start < pos
    && (t.end == -1 ==> Container(t))
    && (t.end != -1 ==> t.start <= t.end <= pos)
  }

  /** The invariant, with `ps` the parent of each token. */
  predicate LaminarWith(st: State, ps: seq<int>) {
    && |ps| == |st.toks|
    && st.super == LastOpen(st.toks)
    && (forall i, j :: 0 <= i < j < |st.toks| ==> st.toks[i].start < st.toks[j].start)
    && (forall j :: 0 <= j < |st.toks| ==> Bounded(st.toks[j], st.pos))
    && (forall j :: 0 <= j < |st.toks| ==> Placed(st.toks, j, ps[j]))
    && (forall j :: 0 <= j < |st.toks| ==> st.toks[j].size == Children(ps, j))
  }

  predicate Laminar(st: State) {
    LaminarWith(st, Parents(st.toks))
  }

  /** The parents are no extra information: the spans determine them. */
  lemma ParentsDetermined(st: State, ps: seq<int>)
    requires LaminarWith(st, ps)
    ensures ps == Parents(st.toks)
  {
    forall j | 0 <= j < |ps|
      ensures ps[j] == Enclosing(st.toks, j)
    {
      var p, e := ps[j], Enclosing(st.toks, j);
      assert Placed(st.toks, j, p);
      assert p >= 0 ==> !Over(st.toks[p], st.toks[j].start);
    }
  }

  lemma {:induction false} NoChildren(ps: seq<int>, i: int)
    requires forall j :: 0 <= j < |ps| ==> ps[j] < i
    ensures Children(ps, i) == 0
  {
    if |ps| > 0 {
      NoChildren(ps[..|ps| - 1], i);
    }
  }

  /** Parents of the tokens after a turn. */
  function NextParents(st: State, s: State, ps: seq<int>): seq<int> {
    if |s.toks| > |st.toks| then ps + [st.super] else ps
  }

  /** Token `j` after one more token has been pushed. */
  lemma PushPlaced(st: State, ps: seq<int>, kind: Kind, start: nat, end: int, s: State, j: nat)
    requires LaminarWith(st, ps) && j <= |ps|
    requires st.pos <= start < s.pos
    requires (end == -1 && (kind.Object? || kind.Array?)) || start <= end <= s.pos
    requires s.toks == Push(st, kind, start, end).toks
    ensures Placed(s.toks, j, (ps + [st.super])[j]) && Bounded(s.toks[j], s.pos)
    ensures s.toks[j].size == Children(ps + [st.super], j)
  {
    var qs, n := ps + [st.super], |st.toks|;
    assert qs[..n] == ps;
    if j < n {
      assert Placed(st.toks, j, ps[j]) && Bounded(st.toks[j], st.pos);
    } else {
      NoChildren(ps, n);
      forall k | st.super < k < n ensures Over(s.toks[k], start) {
        assert Bounded(st.toks[k], st.pos) && !Open(st.toks[k]);
      }
      if st.super >= 0 {
        assert Bounded(st.toks[st.super], st.pos);
      }
    }
  }

  lemma PushLaminar(st: State, ps: seq<int>, kind: Kind, start: nat, end: int, s: State)
    requires LaminarWith(st, ps)
    requires st.pos <= start < s.pos
    requires (end == -1 && (kind.Object? || kind.Array?)) || start <= end <= s.pos
    requires s.toks == Push(st, kind, start, end).toks
    requires s.super == if end == -1 then |st.toks| else st.super
    ensures LaminarWith(s, ps + [st.super])
  {
    var qs, n := ps + [st.super], |st.toks|;
    forall j | 0 <= j < |qs|
      ensures Placed(s.toks, j, qs[j]) && Bounded(s.toks[j], s.pos) && s.toks[j].size == Children(qs, j)
    {
      PushPlaced(st, ps, kind, start, end, s, j);
    }
    hide Children, Placed;
    PushStarts(st, kind, start, end);
    PushTop(st, kind, start, end);
  }

  lemma PushStarts(st: State, kind: Kind, start: nat, end: int)
    requires -1 <= st.super < |st.toks|
    requires forall i, j :: 0 <= i < j < |st.toks| ==> st.toks[i].start < st.toks[j].start
    requires forall i :: 0 <= i < |st.toks| ==> Bounded(st.toks[i], st.pos)
    requires st.pos <= start
    ensures var toks := Push(st, kind, start, end).toks;
      forall i, j :: 0 <= i < j < |toks| ==> toks[i].start < toks[j].start
  {
    forall i | 0 <= i < |st.toks| ensures st.toks[i].start < start {
      assert Bounded(st.toks[i], st.pos);
    }
  }

  lemma PushTop(st: State, kind: Kind, start: nat, end: int)
    requires -1 <= st.super < |st.toks|
    ensures LastOpen(Push(st, kind, start, end).toks) == if end == -1 then |st.toks| else LastOpen(st.toks)
  {
    var toks, o := Push(st, kind, start, end).toks, LastOpen(st.toks);
    if end != -1 {
      forall k | o < k < |toks| ensures !Open(toks[k]) {
        assert k < |st.toks| ==> !Open(st.toks[k]);
      }
    }
    TopIs(toks, if end == -1 then |st.toks| else o);
  }

  lemma ClosePlaced(st: State, ps: seq<int>, i: nat, s: State, j: nat)
    requires LaminarWith(st, ps) && i == LastOpen(st.toks) && s.pos == st.pos + 1
    requires s.toks == st.toks[i := st.toks[i].(end := s.pos)]
    requires j < |ps|
    ensures Placed(s.toks, j, ps[j]) && Bounded(s.toks[j], s.pos)
  {
    var p := ps[j];
    assert Placed(st.toks, j, p) && Bounded(st.toks[j], st.pos) && Bounded(st.toks[i], st.pos);
    forall k | p < k < j ensures Over(s.toks[k], s.toks[j].start) {
      assert Over(st.toks[k], st.toks[j].start);
    }
    if i < j {
      assert !Open(st.toks[j]);
    }
  }

  /** Closing the last open token uncovers the one before it. */
  lemma CloseLast(toks: seq<Token>, i: nat, end: int)
    requires i == LastOpen(toks) && end != -1
    ensures LastOpen(toks[i := toks[i].(end := end)]) == LastOpen(toks[..i])
  {
    var after := toks[i := toks[i].(end := end)];
    var p := LastOpen(toks[..i]);
    if p >= 0 {
      assert after[p] == toks[..i][p];
    }
    forall k | p < k < |toks| ensures !Open(after[k]) {
      if k < i {
        assert after[k] == toks[..i][k];
      }
    }
  }

  lemma CloseLaminar(st: State, ps: seq<int>, i: nat, s: State)
    requires LaminarWith(st, ps) && i == LastOpen(st.toks) && s.pos == st.pos + 1
    requires s.toks == st.toks[i := st.toks[i].(end := s.pos)] && s.super == LastOpen(st.toks[..i])
    ensures LaminarWith(s, ps)
  {
    forall j | 0 <= j < |ps| ensures Placed(s.toks, j, ps[j]) && Bounded(s.toks[j], s.pos) {
      ClosePlaced(st, ps, i, s, j);
    }
    CloseLast(st.toks, i, s.pos);
  }

  lemma MoveLaminar(st: State, ps: seq<int>, s: State)
    requires LaminarWith(st, ps) && s.toks == st.toks && s.super == st.super && s.pos >= st.pos
    ensures LaminarWith(s, ps)
  {
    forall j | 0 <= j < |ps| ensures Bounded(s.toks[j], s.pos) {
      assert Bounded(st.toks[j], st.pos);
    }
  }

  /** Every turn keeps the invariant, whatever the bytes are. */
  lemma StepLaminar(js: string, len: nat, st: State, cap: nat, ps: seq<int>)
    requires Wf(js, st) && !Done(js, len, st.pos) && LaminarWith(st, ps)
    requires Step(js, len, st, cap).Go?
    ensures var s := Step(js, len, st, cap).st; LaminarWith(s, NextParents(st, s, ps))
  {
    var s := Step(js, len, st, cap).st;
    match Lex(js, len, st.pos) {
      case Opening(kind) => PushLaminar(st, ps, kind, st.pos, -1, s);
      case Text(e) => PushLaminar(st, ps, String, st.pos + 1, e, s);
      case Scalar(e) => PushLaminar(st, ps, Primitive, st.pos, e, s);
      case Closing(kind) => CloseLaminar(st, ps, LastOpen(st.toks), s);
      case Colon => MoveLaminar(st, ps, s);
      case Skip => MoveLaminar(st, ps, s);
      case Bad(_) =>
    }
  }

  /** Whole runs: from a laminar state every input leads to a laminar state, failed or not. */
  lemma {:induction false} RunLaminar(js: string, len: nat, st: State, cap: nat)
    requires Wf(js, st) && Laminar(st)
    ensures Laminar(Run(js, len, st, cap).st)
    decreases |js| - st.pos
  {
    if !Done(js, len, st.pos) && Step(js, len, st, cap).Go? {
      var s := Step(js, len, st, cap).st;
      StepLaminar(js, len, st, cap, Parents(st.toks));
      ParentsDetermined(s, NextParents(st, s, Parents(st.toks)));
      RunLaminar(js, len, s, cap);
    }
  }

  /** Two spans never cross: a token that starts inside a closed one ends inside it. */
  lemma {:induction false} NestedOrDisjoint(st: State, i: nat, j: nat)
    requires Laminar(st) && i < j < |st.toks| && st.toks[i].end != -1
    ensures st.toks[i].end <= st.toks[j].start || Within(st.toks[j], st.toks[i])
    decreases j
  {
    var p := Enclosing(st.toks, j);
    assert p == Parents(st.toks)[j];
    assert Placed(st.toks, j, p);
    if i < p {
      NestedOrDisjoint(st, i, p);
      assert Bounded(st.toks[p], st.pos) && Bounded(st.toks[j], st.pos);
    }
  }

  function TotalSize(toks: seq<Token>, n: nat): int
    requires n <= |toks|
  {
    if n == 0 then 0 else TotalSize(toks, n - 1) + toks[n - 1].size
  }

  /** How many of the first `n` numbers occur in `ps`, with multiplicity. */
  function Occurrences(ps: seq<int>, n: nat): nat {
    if n == 0 then 0 else Occurrences(ps, n - 1) + Children(ps, n - 1)
  }

  lemma {:induction false} OccurrencesOfLast(ps: seq<int>, n: nat)
    requires |ps| > 0
    ensures Occurrences(ps, n) == Occurrences(ps[..|ps| - 1], n) + if 0 <= ps[|ps| - 1] < n then 1 else 0
  {
    if n > 0 {
      OccurrencesOfLast(ps, n - 1);
    }
  }

  lemma {:induction false} EveryEntryOccurs(ps: seq<int>, n: nat)
    requires forall j :: 0 <= j < |ps| ==> -1 <= ps[j] < n
    ensures Occurrences(ps, n) + Children(ps, -1) == |ps|
  {
    if |ps| == 0 {
      NoOccurrences(n);
    } else {
      EveryEntryOccurs(ps[..|ps| - 1], n);
      OccurrencesOfLast(ps, n);
    }
  }

  lemma {:induction false} NoOccurrences(n: nat)
    ensures Occurrences([], n) == 0
  {
    if n > 0 {
      NoOccurrences(n - 1);
    }
  }

  lemma {:induction false} TotalIsOccurrences(st: State, n: nat)
    requires Laminar(st) && n <= |st.toks|
    ensures TotalSize(st.toks, n) == Occurrences(Parents(st.toks), n)
  {
    if n > 0 {
      TotalIsOccurrences(st, n - 1);
    }
  }

  /** Conservation: every token is counted once, by its parent or as a root. */
  lemma SizesAccountForAllTokens(st: State)
    requires Laminar(st)
    ensures TotalSize(st.toks, |st.toks|) + Children(Parents(st.toks), -1) == |st.toks|
  {
    TotalIsOccurrences(st, |st.toks|);
    EveryEntryOccurs(Parents(st.toks), |st.toks|);
  }

  /** The open tokens are a stack: the parent of an open token is the open token before it. */
  lemma OpenStack(st: State, i: nat)
    requires Laminar(st) && i < |st.toks| && Open(st.toks[i])
    ensures Enclosing(st.toks, i) == LastOpen(st.toks[..i])
  {
    var p := Enclosing(st.toks, i);
    assert p == Parents(st.toks)[i];
    assert Placed(st.toks, i, p);
    if p >= 0 {
      assert Bounded(st.toks[p], st.pos);
    }
  }
}
