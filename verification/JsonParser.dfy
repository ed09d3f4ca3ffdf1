/**
 The tokenizer itself: a parser object that advances its position and writes the caller's token
 array in place.  Every method is proved to compute what JsonRun.dfy specifies.
 */
module JsonParser {
  import opened JsonLex
  import opened JsonRun

  class Parser {
    var pos: nat
    var toknext: nat
    var toksuper: int
    var nextisval: bool

    /** The object describes a point of a run over `js` that wrote the first `toknext` tokens. */
    ghost predicate Valid(js: string, tokens: array?<Token>)
      reads this
    {
      && pos <= |js|
      && -1 <= toksuper < toknext
      && toknext <= (if tokens == null then 0 else tokens.Length)
    }

    ghost function St(tokens: array<Token>): State
      requires toknext <= tokens.Length
      reads this, tokens
    {
      State(pos, toksuper, nextisval, tokens[..toknext])
    }

    /** jsmn_init; `nextisval` is cleared as well, which the original leaves to its caller. */
    constructor ()
      ensures pos == 0 && toknext == 0 && toksuper == -1 && !nextisval
    {
      pos, toknext, toksuper, nextisval := 0, 0, -1, false;
    }

    /** jsmn_alloc_token followed by jsmn_fill_token; fails when all `num` tokens are in use. */
    method AllocToken(tokens: array<Token>, num: nat, kind: Kind, start: int, end: int) returns (ok: bool)
      requires toknext <= tokens.Length && num <= tokens.Length
      modifies this`toknext, this`nextisval, tokens
      ensures ok == (old(toknext) < num)
      ensures !ok ==> tokens[..] == old(tokens[..]) && toknext == old(toknext) && nextisval == old(nextisval)
      ensures ok ==> toknext == old(toknext) + 1 && !nextisval
      ensures ok ==> tokens[..toknext] == old(tokens[..toknext])
                     + [Token(kind, start, end, 0, if old(nextisval) then old(toknext) - 1 else -1)]
    {
      if toknext >= num {
        return false;
      }
      var t := toknext;
      toknext := toknext + 1;
      tokens[t] := Token(kind, start, end, 0, if nextisval then toknext - 2 else -1);
      nextisval := false;
      return true;
    }

    /** `tokens[toksuper].size++`, when there is a super token. */
    method CountChild(tokens: array<Token>)
      requires toknext <= tokens.Length && -1 <= toksuper < toknext
      modifies tokens
      ensures tokens[..toknext] == Bump(old(tokens[..toknext]), toksuper)
    {
      if toksuper != -1 {
        tokens[toksuper] := tokens[toksuper].(size := tokens[toksuper].size + 1);
      }
    }

    /** jsmn_parse_primitive: on success the position is left on the primitive's last character. */
    method ParsePrimitive(js: string, len: nat, tokens: array?<Token>, num: nat) returns (r: int)
      requires Valid(js, tokens) && (tokens == null || num <= tokens.Length)
      requires !Done(js, len, pos) && !Delimiter(js[pos])
      modifies this`pos, this`toknext, this`nextisval, tokens
      ensures Valid(js, tokens) && r <= 0
      ensures var x := ScanPrimitive(js, len, old(pos));
        r == if x.Fail? then x.code else if tokens != null && old(toknext) >= num then NOMEM else 0
      ensures r == 0 ==> pos + 1 == ScanPrimitive(js, len, old(pos)).end
      ensures r == 0 && tokens == null ==> toknext == old(toknext) && nextisval == old(nextisval)
      ensures r == 0 && tokens != null ==>
        && toknext == old(toknext) + 1 && !nextisval
        && tokens[..toknext] == old(tokens[..toknext])
           + [Token(Primitive, old(pos), pos + 1, 0, if old(nextisval) then old(toknext) - 1 else -1)]
      ensures r < 0 ==> pos == old(pos) && toknext == old(toknext) && nextisval == old(nextisval)
      ensures r < 0 && tokens != null ==> tokens[..] == old(tokens[..])
    {
      var start := pos;
      while !Done(js, len, pos) && !Delimiter(js[pos])
        invariant start <= pos <= |js|
        invariant ScanPrimitive(js, len, pos) == ScanPrimitive(js, len, start)
        invariant toknext == old(toknext) && nextisval == old(nextisval)
        invariant tokens != null ==> tokens[..] == old(tokens[..])
        decreases |js| - pos
      {
        if Unprintable(js[pos]) {
          pos := start;
          return INVAL;
        }
        pos := pos + 1;
      }
      if tokens == null {
        pos := pos - 1;
        return 0;
      }
      var ok := AllocToken(tokens, num, Primitive, start, pos);
      if !ok {
        pos := start;
        return NOMEM;
      }
      pos := pos - 1;
      return 0;
    }

    /** The four hex digits of a unicode escape; the position is left after the last one read. */
    method SkipHex(js: string) returns (ok: bool)
      requires pos <= |js|
      modifies this`pos
      ensures ok == ScanHex(js, old(pos), 4).Found?
      ensures ok ==> pos == ScanHex(js, old(pos), 4).end
    {
      var i := 0;
      while i < 4 && At(js, pos) != '\0'
        invariant 0 <= i <= 4 && old(pos) <= pos <= |js|
        invariant ScanHex(js, pos, 4 - i) == ScanHex(js, old(pos), 4)
      {
        if !Hex(js[pos]) {
          return false;
        }
        pos, i := pos + 1, i + 1;
      }
      return true;
    }

    /** jsmn_parse_string: on success the position is left on the closing quote. */
    method ParseString(js: string, len: nat, tokens: array?<Token>, num: nat) returns (r: int)
      requires Valid(js, tokens) && (tokens == null || num <= tokens.Length)
      requires pos < |js|
      modifies this`pos, this`toknext, this`nextisval, tokens
      ensures Valid(js, tokens) && r <= 0
      ensures var x := ScanString(js, len, old(pos) + 1);
        r == if x.Fail? then x.code else if tokens != null && old(toknext) >= num then NOMEM else 0
      ensures r == 0 ==> pos == ScanString(js, len, old(pos) + 1).end
      ensures r == 0 && tokens == null ==> toknext == old(toknext) && nextisval == old(nextisval)
      ensures r == 0 && tokens != null ==>
        && toknext == old(toknext) + 1 && !nextisval
        && tokens[..toknext] == old(tokens[..toknext])
           + [Token(String, old(pos) + 1, pos, 0, if old(nextisval) then old(toknext) - 1 else -1)]
      ensures r < 0 ==> pos == old(pos) && toknext == old(toknext) && nextisval == old(nextisval)
      ensures r < 0 && tokens != null ==> tokens[..] == old(tokens[..])
    {
      hide ScanHex;
      var start := pos;
      pos := pos + 1;
      while !Done(js, len, pos)
        invariant start < pos <= |js|
        invariant ScanString(js, len, pos) == ScanString(js, len, start + 1)
        invariant toknext == old(toknext) && nextisval == old(nextisval)
        invariant tokens != null ==> tokens[..] == old(tokens[..])
        decreases |js| - pos
      {
        var c := js[pos];
        if c == '\"' {
          if tokens == null {
            return 0;
          }
          var ok := AllocToken(tokens, num, String, start + 1, pos);
          if !ok {
            pos := start;
            return NOMEM;
          }
          return 0;
        }
        if c == '\\' {
          pos := pos + 1;
          var e := At(js, pos);
          if e == 'u' {
            pos := pos + 1;
            var ok := SkipHex(js);
            if !ok {
              pos := start;
              return INVAL;
            }
            pos := pos - 1;
          } else if !ShortEscape(e) {
            pos := start;
            return INVAL;
          }
        }
        pos := pos + 1;
      }
      pos := start;
      return PART;
    }

    /** The backward scan from index `from` for an open token; -1 if there is none. */
    method FindOpen(tokens: array<Token>, from: int) returns (i: int)
      requires -1 <= from < tokens.Length
      ensures i == LastOpen(tokens[..from + 1])
    {
      i := from;
      while i >= 0 && !Open(tokens[i])
        invariant -1 <= i <= from
        invariant LastOpen(tokens[..i + 1]) == LastOpen(tokens[..from + 1])
      {
        assert tokens[..i + 1][..i] == tokens[..i];
        i := i - 1;
      }
      if i >= 0 {
        assert tokens[..i + 1][i] == tokens[i];
      }
    }

    /** The closing-bracket case of the main loop, with the backward scan. */
    method CloseBracket(tokens: array<Token>, kind: Kind) returns (r: int)
      requires toknext <= tokens.Length && -1 <= toksuper < toknext
      modifies this`toksuper, tokens
      ensures match Close(old(St(tokens)), kind)
        case Halt(code, s) => r == code && St(tokens) == s && tokens[..] == old(tokens[..])
        case Go(s) => r == 0 && St(tokens) == s.(pos := pos)
    {
      ghost var toks := tokens[..toknext];
      var i := FindOpen(tokens, toknext - 1);
      if i == -1 || tokens[i].kind != kind {
        return INVAL;
      }
      tokens[i] := tokens[i].(end := pos + 1);
      assert tokens[..i] == toks[..i];
      var j := FindOpen(tokens, i);
      assert tokens[..i + 1][..i] == toks[..i];
      toksuper := j;
      return 0;
    }

    /** A string or primitive has been scanned: count it as a child, and step past it. */
    method FinishScalar(tokens: array?<Token>)
      requires tokens != null ==> toknext <= tokens.Length && -1 <= toksuper < toknext
      modifies this`pos, tokens
      ensures pos == old(pos) + 1
      ensures tokens != null ==> tokens[..toknext] == Bump(old(tokens[..toknext]), toksuper)
    {
      if tokens != null {
        CountChild(tokens);
      }
      pos := pos + 1;
    }

    /** The string case of the main loop. */
    method TakeString(js: string, len: nat, tokens: array?<Token>, num: nat) returns (r: int)
      requires Valid(js, tokens) && (tokens == null || num <= tokens.Length)
      requires pos < |js|
      modifies this`pos, this`toknext, this`nextisval, tokens
      ensures Valid(js, tokens)
      ensures tokens == null ==>
        var x := ScanString(js, len, old(pos) + 1);
        if x.Fail? then r == x.code else r == 1 && pos == x.end + 1
      ensures tokens != null ==>
        var x, was := ScanString(js, len, old(pos) + 1), old(St(tokens));
        if x.Fail? then r == x.code && St(tokens) == was
        else if |was.toks| >= num then r == NOMEM && St(tokens) == was
        else r == 1 && St(tokens) == Push(was, String, was.pos + 1, x.end).(pos := x.end + 1)
    {
      r := ParseString(js, len, tokens, num);
      if r == 0 {
        FinishScalar(tokens);
        r := 1;
      }
    }

    /** The primitive case of the main loop. */
    method TakePrimitive(js: string, len: nat, tokens: array?<Token>, num: nat) returns (r: int)
      requires Valid(js, tokens) && (tokens == null || num <= tokens.Length)
      requires !Done(js, len, pos) && !Delimiter(js[pos])
      modifies this`pos, this`toknext, this`nextisval, tokens
      ensures Valid(js, tokens)
      ensures tokens == null ==>
        var x := ScanPrimitive(js, len, old(pos));
        if x.Fail? then r == x.code else r == 1 && pos == x.end
      ensures tokens != null ==>
        var x, was := ScanPrimitive(js, len, old(pos)), old(St(tokens));
        if x.Fail? then r == x.code && St(tokens) == was
        else if |was.toks| >= num then r == NOMEM && St(tokens) == was
        else r == 1 && St(tokens) == Push(was, Primitive, was.pos, x.end).(pos := x.end)
    {
      r := ParsePrimitive(js, len, tokens, num);
      if r == 0 {
        FinishScalar(tokens);
        r := 1;
      }
    }

    /** An opening bracket; without a token array it is only counted. */
    method TakeOpening(js: string, tokens: array?<Token>, num: nat, kind: Kind) returns (r: int)
      requires Valid(js, tokens) && (tokens == null || num <= tokens.Length)
      requires pos < |js|
      modifies this, tokens
      ensures Valid(js, tokens)
      ensures tokens == null ==> r == 1 && pos == old(pos) + 1
      ensures tokens != null ==>
        var was := old(St(tokens));
        if |was.toks| >= num then r == NOMEM && St(tokens) == was
        else r == 1 && St(tokens) == Push(was, kind, was.pos, -1).(pos := was.pos + 1, super := |was.toks|)
    {
      if tokens != null {
        var ok := AllocToken(tokens, num, kind, pos, -1);
        if !ok {
          return NOMEM;
        }
        CountChild(tokens);
        toksuper := toknext - 1;
      }
      pos := pos + 1;
      return 1;
    }

    /** A closing bracket; ignored without a token array. */
    method TakeClosing(js: string, tokens: array?<Token>, kind: Kind) returns (r: int)
      requires Valid(js, tokens) && pos < |js|
      modifies this, tokens
      ensures Valid(js, tokens)
      ensures tokens == null ==> r == 0 && pos == old(pos) + 1
      ensures tokens != null ==>
        match Close(old(St(tokens)), kind)
        case Halt(code, s) => r == code && St(tokens) == s
        case Go(s) => r == 0 && St(tokens) == s
    {
      if tokens != null {
        r := CloseBracket(tokens, kind);
        if r < 0 {
          return;
        }
      }
      pos := pos + 1;
      r := 0;
    }

    /** One turn of the main loop: an error code, or how much the turn adds to `count`. */
    method Turn(js: string, len: nat, tokens: array?<Token>, num: nat) returns (r: int)
      requires Valid(js, tokens) && (tokens == null || num <= tokens.Length)
      requires !Done(js, len, pos)
      modifies this, tokens
      ensures Valid(js, tokens)
      ensures r >= 0 ==> pos > old(pos)
      ensures tokens == null ==>
        CountRun(js, len, old(pos), 0) == if r < 0 then r else CountRun(js, len, pos, r)
      ensures tokens != null ==>
        match Step(js, len, old(St(tokens)), num)
        case Halt(code, s) => r == code && St(tokens) == s
        case Go(s) => r >= 0 && St(tokens) == s && r == toknext - old(toknext)
    {
      var c := js[pos];
      if c == '{' || c == '[' {
        r := TakeOpening(js, tokens, num, if c == '{' then Object else Array);
      } else if c == '}' || c == ']' {
        r := TakeClosing(js, tokens, if c == '}' then Object else Array);
      } else if c == '\"' {
        r := TakeString(js, len, tokens, num);
      } else if c == ':' {
        nextisval, pos, r := true, pos + 1, 0;
      } else if Blank(c) || c == ',' {
        pos, r := pos + 1, 0;
      } else {
        r := TakePrimitive(js, len, tokens, num);
      }
    }

    /** jsmn_parse. */
    method Parse(js: string, len: nat, tokens: array?<Token>, num: nat) returns (r: int)
      requires Valid(js, tokens) && (tokens == null || num <= tokens.Length)
      modifies this, tokens
      ensures Valid(js, tokens)
      ensures tokens == null ==> r == CountRun(js, len, old(pos), 0)
      ensures tokens != null ==>
        var o := Run(js, len, old(St(tokens)), num);
        St(tokens) == o.st && r == Code(old(toknext), o)
    {
      hide Step, Lex;
      var count := 0;
      while !Done(js, len, pos)
        invariant Valid(js, tokens)
        invariant tokens == null ==> CountRun(js, len, pos, count) == CountRun(js, len, old(pos), 0)
        invariant tokens != null ==> count == toknext - old(toknext)
        invariant tokens != null ==> Run(js, len, St(tokens), num) == Run(js, len, old(St(tokens)), num)
        decreases |js| - pos
      {
        ghost var p := pos;
        var e := Turn(js, len, tokens, num);
        if e < 0 {
          if tokens == null {
            CountFrom(js, len, p, count);
          }
          return e;
        }
        if tokens == null {
          CountFrom(js, len, p, count);
          CountFrom(js, len, pos, e);
          CountFrom(js, len, pos, count + e);
        }
        count := count + e;
      }
      if tokens == null {
        return count;
      }
      var i := FindOpen(tokens, toknext - 1);
      return if i >= 0 then PART else count;
    }
  }

  /** Counting may start from any number. */
  lemma {:induction false} CountFrom(js: string, len: nat, pos: nat, count: nat)
    requires pos <= |js|
    ensures var c := CountRun(js, len, pos, 0);
      CountRun(js, len, pos, count) == if c < 0 then c else c + count
    decreases |js| - pos
  {
    if !Done(js, len, pos) {
      var x := Lex(js, len, pos);
      match x {
        case Bad(_) =>
        case _ =>
          var d := if x.Opening? || x.Text? || x.Scalar? then 1 else 0;
          CountFrom(js, len, After(x, pos), d);
          CountFrom(js, len, After(x, pos), count + d);
      }
    }
  }
}
