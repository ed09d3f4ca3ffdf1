/**
 The token builder as a function on values: one turn of the main loop (`Step`), whole runs (`Run`)
 and the run without a token array (`CountRun`).  Class `Parser` in JsonParser.dfy refines these.
 */
module JsonRun {
  import opened JsonLex

  /** jsmntok_t, built with JSMN_TOKEN_LINKS. */
  datatype Token = Token(kind: Kind, start: int, end: int, size: int, valueof: int)

  /** jsmn_parser together with the tokens allocated so far: toknext is |toks|. */
  datatype State = State(pos: nat, super: int, nextisval: bool, toks: seq<Token>)

  predicate Open(t: Token) {
    t.start != -1 && t.end == -1
  }

  predicate Wf(js: string, st: State) {
    && st.pos <= |js|
    && -1 <= st.super < |st.toks|
  }

  /** jsmn_init, with `nextisval` cleared by the caller. */
  const Init := State(0, -1, false, [])

  /** The index of the last open token, -1 if there is none. */
  function LastOpen(toks: seq<Token>): (i: int)
    ensures -1 <= i < |toks|
    ensures i >= 0 ==> Open(toks[i])
    ensures forall k :: i < k < |toks| ==> !Open(toks[k])
  {
    if |toks| == 0 then -1
    else if Open(toks[|toks| - 1]) then |toks| - 1
    else LastOpen(toks[..|toks| - 1])
  }

  lemma TopIs(toks: seq<Token>, i: int)
    requires -1 <= i < |toks| && (i >= 0 ==> Open(toks[i]))
    requires forall k :: i < k < |toks| ==> !Open(toks[k])
    ensures LastOpen(toks) == i
  {
  }

  /** One more child for the token at `i`, if there is one. */
  function Bump(toks: seq<Token>, i: int): (r: seq<Token>)
    requires -1 <= i < |toks|
    ensures |r| == |toks|
  {
    if i == -1 then toks else toks[i := toks[i].(size := toks[i].size + 1)]
  }

  /** Allocates a token, fills it, and counts it as a child of the current super token. */
  function Push(st: State, kind: Kind, start: int, end: int): (r: State)
    requires -1 <= st.super < |st.toks|
  {
    var t := Token(kind, start, end, 0, if st.nextisval then |st.toks| - 1 else -1);
    State(st.pos, st.super, false, Bump(st.toks, st.super) + [t])
  }

  datatype Next = Go(st: State) | Halt(code: int, st: State)

  /** A closing bracket, by the backward scan for the last open token. */
  function Close(st: State, kind: Kind): (r: Next)
  {
    var i := LastOpen(st.toks);
    if i == -1 || st.toks[i].kind != kind then Halt(INVAL, st)
    else
      var toks := st.toks[i := st.toks[i].(end := st.pos + 1)];
      Go(State(st.pos + 1, LastOpen(st.toks[..i]), st.nextisval, toks))
  }

  /** What lexeme `x` at the current position does, with `cap` tokens available. */
  function Apply(st: State, x: Lexeme, cap: nat): (r: Next)
    requires -1 <= st.super < |st.toks|
    ensures r.Go? ==> r.st.pos == After(x, st.pos) && -1 <= r.st.super < |r.st.toks|
    ensures r.Halt? ==> r.st == st
  {
    match x
    case Bad(code) => Halt(code, st)
    case Colon => Go(st.(pos := st.pos + 1, nextisval := true))
    case Skip => Go(st.(pos := st.pos + 1))
    case Closing(kind) => Close(st, kind)
    case Opening(kind) =>
      if |st.toks| >= cap then Halt(NOMEM, st)
      else Go(Push(st, kind, st.pos, -1).(pos := st.pos + 1, super := |st.toks|))
    case Text(e) =>
      if |st.toks| >= cap then Halt(NOMEM, st)
      else Go(Push(st, String, st.pos + 1, e).(pos := e + 1))
    case Scalar(e) =>
      if |st.toks| >= cap then Halt(NOMEM, st)
      else Go(Push(st, Primitive, st.pos, e).(pos := e))
  }

  /** One turn of the main loop. */
  function Step(js: string, len: nat, st: State, cap: nat): (r: Next)
    requires Wf(js, st) && !Done(js, len, st.pos)
    ensures r.Go? ==> Wf(js, r.st) && r.st.pos > st.pos
    ensures r.Halt? ==> r.st == st && r.code < 0
  {
    Apply(st, Lex(js, len, st.pos), cap)
  }

  datatype Outcome = Complete(st: State) | Failed(code: int, st: State)

  /** A whole call with `cap` tokens available. */
  function Run(js: string, len: nat, st: State, cap: nat): (r: Outcome)
    requires Wf(js, st)
    ensures Wf(js, r.st)
    ensures r.Failed? ==> r.code < 0
    decreases |js| - st.pos
  {
    if Done(js, len, st.pos) then
      if LastOpen(st.toks) == -1 then Complete(st) else Failed(PART, st)
    else
      match Step(js, len, st, cap)
      case Halt(code, s) => Failed(code, s)
      case Go(s) => Run(js, len, s, cap)
  }

  /** What the call returns: an error code, or how many tokens it allocated. */
  function Code(base: nat, r: Outcome): int {
    match r
    case Complete(s) => |s.toks| - base
    case Failed(code, _) => code
  }

  /** The call without a token array: `count` grows, nothing is stored. */
  function CountRun(js: string, len: nat, pos: nat, count: nat): (r: int)
    requires pos <= |js|
    decreases |js| - pos
  {
    if Done(js, len, pos) then count
    else
      var x := Lex(js, len, pos);
      match x
      case Bad(code) => code
      case Opening(_) => CountRun(js, len, pos + 1, count + 1)
      case Text(e) => CountRun(js, len, e + 1, count + 1)
      case Scalar(e) => CountRun(js, len, e, count + 1)
      case _ => CountRun(js, len, pos + 1, count)
  }
}
