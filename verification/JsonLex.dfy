/**
 The lexical layer of the JSON tokenizer: what one turn of its main loop consumes, as a function of
 the position alone.

 A C string is modelled as the bytes before its terminating NUL, one `char` per byte.  `At` reads
 that terminator at index |js| and nothing beyond it, so the well-formedness of every definition
 below is also the proof that the tokenizer never reads past the terminator.
 */
module JsonLex {

  /** jsmntype_t */
  datatype Kind = Primitive | Object | Array | String

  const NOMEM := -1
  const INVAL := -2
  const PART := -3

  function At(js: string, i: nat): char
    requires i <= |js|
  {
    if i == |js| then '\0' else js[i]
  }

  /** Negation of the guard of the main loop and of both scanning loops. */
  predicate Done(js: string, len: nat, pos: nat)
    requires pos <= |js|
  {
    pos >= len || At(js, pos) == '\0'
  }

  predicate Blank(c: char) {
    c == '\t' || c == '\r' || c == '\n' || c == ' '
  }

  /** What ends a primitive in the non-strict build. */
  predicate Delimiter(c: char) {
    Blank(c) || c == ':' || c == ',' || c == ']' || c == '}'
  }

  predicate Unprintable(c: char) {
    c < ' ' || c >= '\U{7F}'
  }

  predicate Hex(c: char) {
    '0' <= c <= '9' || 'A' <= c <= 'F' || 'a' <= c <= 'f'
  }

  /** The escapes that take one more character. */
  predicate ShortEscape(c: char) {
    c == '\"' || c == '/' || c == '\\' || c == 'b' || c == 'f' || c == 'r' || c == 'n' || c == 't'
  }

  datatype Scan = Found(end: nat) | Fail(code: int)

  /** Where the primitive scanned from `pos` ends. */
  function ScanPrimitive(js: string, len: nat, pos: nat): (r: Scan)
    requires pos <= |js|
    ensures r.Found? ==> pos <= r.end <= |js|
    ensures r.Fail? ==> r.code == INVAL
    decreases |js| - pos
  {
    if Done(js, len, pos) || Delimiter(js[pos]) then Found(pos)
    else if Unprintable(js[pos]) then Fail(INVAL)
    else ScanPrimitive(js, len, pos + 1)
  }

  /** Reads up to `k` hex digits; stops early only at the terminator. */
  function ScanHex(js: string, pos: nat, k: nat): (r: Scan)
    requires pos <= |js|
    ensures r.Found? ==> pos <= r.end <= |js|
    ensures r.Fail? ==> r.code == INVAL
    decreases k
  {
    if k == 0 || At(js, pos) == '\0' then Found(pos)
    else if !Hex(js[pos]) then Fail(INVAL)
    else ScanHex(js, pos + 1, k - 1)
  }

  /** Where the closing quote of the string whose body is scanned from `pos` stands. */
  function ScanString(js: string, len: nat, pos: nat): (r: Scan)
    requires pos <= |js|
    ensures r.Found? ==> pos <= r.end < |js| && js[r.end] == '\"'
    ensures r.Fail? ==> r.code == INVAL || r.code == PART
    decreases |js| - pos
  {
    if Done(js, len, pos) then Fail(PART)
    else if js[pos] == '\"' then Found(pos)
    else if js[pos] == '\\' then
      var c := At(js, pos + 1);
      if ShortEscape(c) then ScanString(js, len, pos + 2)
      else if c == 'u' then
        var h := ScanHex(js, pos + 2, 4);
        if h.Fail? then h else ScanString(js, len, h.end)
      else Fail(INVAL)
    else ScanString(js, len, pos + 1)
  }

  datatype Lexeme =
    | Opening(kind: Kind)
    | Closing(kind: Kind)
    | Text(close: nat)      // a string; `close` is the position of its closing quote
    | Scalar(end: nat)      // a primitive; `end` is the position after its last character
    | Colon
    | Skip
    | Bad(code: int)

  function Lex(js: string, len: nat, pos: nat): (x: Lexeme)
    requires pos <= |js| && !Done(js, len, pos)
    ensures x.Text? ==> pos < x.close < |js|
    ensures x.Scalar? ==> pos < x.end <= |js|
    ensures x.Bad? ==> x.code == INVAL || x.code == PART
    ensures x.Opening? || x.Closing? ==> x.kind.Object? || x.kind.Array?
  {
    var c := js[pos];
    if c == '{' then Opening(Object)
    else if c == '[' then Opening(Array)
    else if c == '}' then Closing(Object)
    else if c == ']' then Closing(Array)
    else if c == '\"' then
      (match ScanString(js, len, pos + 1)
       case Found(e) => Text(e)
       case Fail(code) => Bad(code))
    else if c == ':' then Colon
    else if Blank(c) || c == ',' then Skip
    else
      match ScanPrimitive(js, len, pos)
      case Found(e) => Scalar(e)
      case Fail(code) => Bad(code)
  }

  /** The position after the lexeme at `pos`. */
  function After(x: Lexeme, pos: nat): (q: nat)
  {
    match x
    case Text(e) => e + 1
    case Scalar(e) => e
    case _ => pos + 1
  }
}
