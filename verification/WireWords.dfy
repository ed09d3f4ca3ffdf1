/**
 How a line of the protocol is taken apart into words: blanks separate, double quotes group, and
 inside quotes a backslash before a quote stands for the quote.
 */
module WireWords {

  /** The inside of a quoted stretch: what is left after it, and the word so far with it added. */
  function TakeQuoted(s: string, cur: string): (r: (string, string))
    ensures |r.0| <= |s| && cur <= r.1
    ensures |r.0| + |r.1| <= |s| + |cur|
    decreases |s|
  {
    if s == "" then ("", cur)
    else if s[0] == '\"' then (s[1..], cur)
    else if s[0] == '\\' && |s| > 1 && s[1] == '\"' then TakeQuoted(s[2..], cur + ['\"'])
    else TakeQuoted(s[1..], cur + [s[0]])
  }

  function SkipBlanks(s: string): (r: string)
    ensures |r| <= |s|
    ensures r == "" || r[0] != ' '
  {
    if s != "" && s[0] == ' ' then SkipBlanks(s[1..]) else s
  }

  /** A quoted stretch at the beginning of `s`, if there is one, goes into the word. */
  function Unquoted(s: string, cur: string): (r: (string, string))
    ensures |r.0| <= |s| && cur <= r.1
  {
    if s != "" && s[0] == '\"' then TakeQuoted(s[1..], cur) else (s, cur)
  }

  /** The words of `s`, the first of which has begun with `cur`. */
  function Split(s: string, cur: string): (r: seq<string>)
    ensures |r| >= 1 && cur <= r[0]
    decreases |s|, 1
  {
    var (rest, word) := Unquoted(s, cur);
    Continue(rest, word)
  }

  /** The same, where a quote is no longer the beginning of a quoted stretch. */
  function Continue(s: string, cur: string): (r: seq<string>)
    ensures |r| >= 1 && cur <= r[0]
    decreases |s|, 0
  {
    if s == "" then [cur]
    else if s[0] == ' ' then [cur] + Split(SkipBlanks(s[1..]), "")
    else Split(s[1..], cur + [s[0]])
  }

  /** parse_netcommand: no words at all for an empty line. */
  function Words(line: string): seq<string> {
    if line == "" then [] else Split(line, "")
  }

  lemma TakeOne(s: string, cur: string)
    ensures s == "" || s[0] == '\"' ==> TakeQuoted(s, cur) == (if s == "" then "" else s[1..], cur)
    ensures s != "" && s[0] != '\"' ==>
      TakeQuoted(s, cur) == (if s[0] == '\\' && |s| > 1 && s[1] == '\"' then TakeQuoted(s[1..][1..], cur + ['\"'])
                             else TakeQuoted(s[1..], cur + [s[0]]))
  {
    assert |s| > 1 ==> s[1..][1..] == s[2..];
  }

  // ----- the parser as the pointer loops it is

  class Scanner {
    const line: string
    const buf: array<char>   // the word being copied; as long as the line and its terminator
    var pos: nat
    var len: nat

    ghost predicate Valid()
      reads this
    {
      pos <= |line| && len <= pos && buf.Length == |line| + 1
    }

    ghost function Rest(): string
      requires Valid()
      reads this
    {
      line[pos..]
    }

    ghost function Cur(): string
      requires Valid()
      reads this, buf
    {
      buf[..len]
    }

    constructor (line: string)
      ensures Valid() && this.line == line && pos == 0 && len == 0 && fresh(buf)
    {
      this.line := line;
      buf := new char[|line| + 1];
      pos, len := 0, 0;
    }

    /** `*buf2++ = *buf++` */
    method Copy()
      requires Valid() && pos < |line|
      modifies this, buf
      ensures Valid() && pos == old(pos) + 1
      ensures Cur() == old(Cur()) + [line[old(pos)]] && Rest() == old(Rest())[1..]
    {
      buf[len] := line[pos];
      pos, len := pos + 1, len + 1;
    }

    /** The loop over a quoted stretch, from behind its opening quote to behind its closing one. */
    method CopyQuoted()
      requires Valid()
      modifies this, buf
      ensures Valid() && pos >= old(pos)
      ensures (Rest(), Cur()) == TakeQuoted(old(Rest()), old(Cur()))
    {
      hide TakeQuoted;
      while pos < |line| && line[pos] != '\"'
        invariant Valid() && pos >= old(pos)
        invariant TakeQuoted(Rest(), Cur()) == TakeQuoted(old(Rest()), old(Cur()))
        decreases |line| - pos
      {
        TakeOne(Rest(), Cur());
        if line[pos] == '\\' {
          pos := pos + 1;
          if pos < |line| && line[pos] == '\"' {
            Copy();
          } else {
            pos := pos - 1;
            Copy();
          }
        } else {
          Copy();
        }
      }
      TakeOne(Rest(), Cur());
      if pos < |line| {
        pos := pos + 1;
      }
    }

    method SkipSpaces()
      requires Valid()
      modifies this
      ensures Valid() && pos >= old(pos) && len == old(len)
      ensures Rest() == SkipBlanks(old(Rest()))
    {
      while pos < |line| && line[pos] == ' '
        invariant Valid() && pos >= old(pos) && len == old(len)
        invariant SkipBlanks(Rest()) == SkipBlanks(old(Rest()))
        decreases |line| - pos
      {
        assert Rest()[1..] == line[pos + 1..];
        pos := pos + 1;
      }
    }

    /** A quoted stretch, if one begins here. */
    method Unquote()
      requires Valid()
      modifies this, buf
      ensures Valid() && pos >= old(pos)
      ensures (Rest(), Cur()) == Unquoted(old(Rest()), old(Cur()))
    {
      if pos < |line| && line[pos] == '\"' {
        assert Rest()[1..] == line[pos + 1..];
        pos := pos + 1;
        CopyQuoted();
      }
    }

    /** parse_netcommand, for a line that is not empty. */
    method ParseWords() returns (words: seq<string>)
      requires Valid() && len == 0 && pos == 0
      modifies this, buf
      ensures words == Split(line, "")
    {
      hide TakeQuoted, SkipBlanks, Unquoted;
      words := [];
      assert Rest() == line && Cur() == "";
      while true
        invariant Valid()
        invariant words + Split(Rest(), Cur()) == Split(line, "")
        decreases |line| - pos
      {
        ghost var before := pos;
        Unquote();
        assert words + Continue(Rest(), Cur()) == Split(line, "");
        if pos == |line| || line[pos] == ' ' {
          ghost var done, word := words, Cur();
          words := words + [buf[..len]];
          len := 0;
          if pos == |line| {
            return;
          }
          ghost var r := Rest();
          assert r[1..] == line[pos + 1..];
          pos := pos + 1;
          SkipSpaces();
          assert Cur() == "";
          assert done + ([word] + Split(Rest(), "")) == words + Split(Rest(), "");
        } else {
          Copy();
        }
      }
    }
  }

  method ParseNetcommand(line: string) returns (words: seq<string>)
    ensures words == Words(line)
  {
    if line == "" {
      return [];
    }
    var scanner := new Scanner(line);
    words := scanner.ParseWords();
  }

  // ----- quoting

  predicate EndsInBackslash(w: string) {
    w != "" && w[|w| - 1] == '\\'
  }

  /** Double quotes get a backslash; nothing else is escaped. */
  function Escape(w: string): string {
    if w == "" then "" else (if w[0] == '\"' then "\\\"" else [w[0]]) + Escape(w[1..])
  }

  function Quote(w: string): string {
    "\"" + Escape(w) + "\""
  }

  /** The words of a line, each quoted, with one blank between. */
  function QuoteAll(ws: seq<string>): string {
    if ws == [] then ""
    else if |ws| == 1 then Quote(ws[0])
    else Quote(ws[0]) + " " + QuoteAll(ws[1..])
  }

  lemma TakePlain(c: char, more: string, cur: string)
    requires c != '\"' && (c == '\\' ==> more != "" && more[0] != '\"')
    ensures TakeQuoted([c] + more, cur) == TakeQuoted(more, cur + [c])
  {
    assert ([c] + more)[1..] == more;
  }

  lemma TakeEscapedQuote(more: string, cur: string)
    ensures TakeQuoted("\\\"" + more, cur) == TakeQuoted(more, cur + ['\"'])
  {
    assert ("\\\"" + more)[2..] == more;
  }

  lemma EscapeOne(w: string)
    requires w != ""
    ensures Escape(w) == (if w[0] == '\"' then "\\\"" else [w[0]]) + Escape(w[1..])
  {
  }

  /** One character of a quoted word is read, unless it is the last and a backslash. */
  lemma TakeEscapedChar(w: string, rest: string, cur: string)
    requires w != "" && w != "\\"
    ensures TakeQuoted(Escape(w) + "\"" + rest, cur)
      == TakeQuoted(Escape(w[1..]) + "\"" + rest, cur + [w[0]])
  {
    EscapeOne(w);
    hide TakeQuoted, Escape;
    var c, s, more := w[0], Escape(w) + "\"" + rest, Escape(w[1..]) + "\"" + rest;
    if c == '\"' {
      assert s == "\\\"" + more;
      TakeEscapedQuote(more, cur);
    } else {
      assert s == [c] + more;
      TakePlain(c, more, cur);
    }
  }

  /** A quoted word is read back, unless its last backslash takes the closing quote for its own. */
  lemma {:induction false} TakeEscaped(w: string, rest: string, cur: string)
    requires !EndsInBackslash(w)
    ensures TakeQuoted(Escape(w) + "\"" + rest, cur) == (rest, cur + w)
    decreases |w|
  {
    if w == "" {
      assert ("\"" + rest)[1..] == rest && cur + w == cur;
    } else {
      hide TakeQuoted, Escape;
      TakeEscapedChar(w, rest, cur);
      TakeEscaped(w[1..], rest, cur + [w[0]]);
      assert cur + w == cur + [w[0]] + w[1..];
    }
  }

  /** What becomes of a quoted word that ends in a backslash: a quote is read in its place. */
  lemma {:induction false} TakeEscapedBackslash(w: string, rest: string, cur: string)
    requires EndsInBackslash(w)
    ensures cur + w[..|w| - 1] + ['\"'] <= TakeQuoted(Escape(w) + "\"" + rest, cur).1
    decreases |w|
  {
    if |w| == 1 {
      EscapeOne(w);
      TakeOne(Escape(w) + "\"" + rest, cur);
      assert w == "\\" && cur + w[..0] == cur;
    } else {
      hide TakeQuoted, Escape;
      TakeEscapedChar(w, rest, cur);
      TakeEscapedBackslash(w[1..], rest, cur + [w[0]]);
      assert cur + w[..|w| - 1] == cur + [w[0]] + w[1..][..|w| - 2];
    }
  }

  /** A line that begins with a quoted word. */
  lemma SplitFirst(w: string, tail: string)
    ensures Split(Quote(w) + tail, "")
      == var (rest, word) := TakeQuoted(Escape(w) + "\"" + tail, ""); Continue(rest, word)
  {
    hide TakeQuoted, Continue, Escape;
    assert (Quote(w) + tail)[1..] == Escape(w) + "\"" + tail;
  }

  lemma SplitSpoilt(w: string, tail: string)
    requires EndsInBackslash(w)
    ensures Split(Quote(w) + tail, "")[0] != w
  {
    hide Split, Escape, Quote, Continue, TakeQuoted;
    SplitFirst(w, tail);
    TakeEscapedBackslash(w, tail, "");
    var u := w[..|w| - 1] + ['\"'];
    assert "" + w[..|w| - 1] + ['\"'] == u;
    assert u[|w| - 1] != w[|w| - 1];
  }

  lemma SplitGood(w: string, tail: string)
    requires !EndsInBackslash(w)
    ensures Split(Quote(w) + tail, "") == Continue(tail, w)
  {
    hide Split, Escape, Quote, Continue, TakeQuoted;
    SplitFirst(w, tail);
    TakeEscaped(w, tail, "");
    assert "" + w == w;
  }

  /** The words come back exactly if none of them ends in a backslash. */
  lemma {:induction false} SplitQuoted(ws: seq<string>)
    requires ws != []
    ensures Split(QuoteAll(ws), "") == ws <==> forall i :: 0 <= i < |ws| ==> !EndsInBackslash(ws[i])
    decreases |ws|
  {
    hide Split, Escape, TakeQuoted;
    var w, more := ws[0], ws[1..];
    var tail := if |ws| == 1 then "" else " " + QuoteAll(more);
    assert QuoteAll(ws) == Quote(w) + tail;
    if EndsInBackslash(w) {
      SplitSpoilt(w, tail);
    } else {
      SplitGood(w, tail);
      if |ws| > 1 {
        assert tail[1..] == QuoteAll(more) && QuoteAll(more)[0] == '\"';
        SplitQuoted(more);
        assert ws == [w] + more;
        assert Continue(tail, w) == [w] + Split(QuoteAll(more), "");
      }
    }
  }

  /** One backslash, quoted, is not read back: its closing quote is taken for part of the word. */
  lemma BackslashLost()
    ensures Split(QuoteAll(["\\"]), "") == ["\""]
  {
    var s := "\"\\\"";
    assert QuoteAll(["\\"]) == s;
    assert s[1..] == "\\\"";
    assert "\\\""[2..] == "";
    TakeEscapedQuote("", "");
    assert "\\\"" + "" == "\\\"" && "" + ['\"'] == "\"";
    assert TakeQuoted("\\\"", "") == ("", "\"");
  }
}
