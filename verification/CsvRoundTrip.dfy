/** Reading back what was printed by section 2 of RFC 4180. */
module CsvRoundTrip {
  import opened Lists
  import opened CsvScan

  /** A field, and whether it is printed in quotes. */
  datatype Field = Field(text: string, quoted: bool)

  /** A line of fields, and whether it ends in a carriage return and a line feed or in a line feed. */
  datatype Line = Line(fields: seq<Field>, crlf: bool)

  function Double(t: string): string {
    if t == "" then "" else (if t[0] == '\"' then "\"\"" else [t[0]]) + Double(t[1..])
  }

  function PrintField(f: Field): string {
    if f.quoted then "\"" + Double(f.text) + "\"" else f.text
  }

  function PrintFields(fs: seq<Field>, delim: char): string {
    if fs == [] then ""
    else if |fs| == 1 then PrintField(fs[0])
    else PrintField(fs[0]) + [delim] + PrintFields(fs[1..], delim)
  }

  function LineBreak(l: Line): string {
    if l.crlf then "\r\n" else "\n"
  }

  /** The file; the break behind its last line is optional. */
  function Print(ls: seq<Line>, delim: char, lastBreak: bool): string {
    if ls == [] then ""
    else
      PrintFields(ls[0].fields, delim)
      + (if |ls| == 1 && !lastBreak then "" else LineBreak(ls[0]))
      + Print(ls[1..], delim, lastBreak)
  }

  /** A text that may go without quotes. */
  predicate Simple(t: string, delim: char) {
    forall i :: 0 <= i < |t| ==> t[i] != delim && t[i] != '\"' && t[i] != '\n' && t[i] != '\r'
  }

  /** Legal lines; without its break, the last one must not be empty. */
  predicate Legal(ls: seq<Line>, delim: char, lastBreak: bool) {
    && (forall i :: 0 <= i < |ls| ==> LegalFields(ls[i].fields, delim))
    && (ls != [] && !lastBreak ==> PrintFields(ls[|ls| - 1].fields, delim) != "")
  }

  predicate LegalFields(fs: seq<Field>, delim: char) {
    fs != [] && forall k :: 0 <= k < |fs| ==> fs[k].quoted || Simple(fs[k].text, delim)
  }

  function NoReturns(t: string): string {
    if t == "" then "" else (if t[0] == '\r' then "" else [t[0]]) + NoReturns(t[1..])
  }

  /** What the reader makes of a text: no carriage returns, and nothing from a NUL on. */
  function Clean(t: string): string {
    UpToNul(NoReturns(t))
  }

  function CleanFields(fs: seq<Field>): seq<string> {
    seq(|fs|, k requires 0 <= k < |fs| => Clean(fs[k].text))
  }

  function CleanLines(ls: seq<Line>): seq<seq<string>> {
    seq(|ls|, i requires 0 <= i < |ls| => CleanFields(ls[i].fields))
  }

  // ----- one field

  /** A field that has been read up to its end, which shows only at the next character. */
  predicate Complete(st: Scan, text: string) {
    && !st.inside && Value(st) == Clean(text)
    && (st.cur == "" ==> !st.lastQuote && st.series == 0)
  }

  lemma RunPut(c: char, tail: string, delim: char, st: Scan)
    requires c != '\r' && !Opens(st, c) && !Ends(Count(st, c), delim, c)
    ensures Run([c] + tail, delim, st) == Run(tail, delim, Put(Count(st, c), c))
  {
    assert ([c] + tail)[1..] == tail;
  }

  lemma {:induction false} RunSimple(t: string, tail: string, delim: char, cur: string, fields: seq<string>)
    requires Simple(t, delim)
    ensures Run(t + tail, delim, Scan(cur, false, 0, false, fields))
      == Run(tail, delim, Scan(cur + t, false, 0, false, fields))
    decreases |t|
  {
    if t == "" {
      assert t + tail == tail && cur + t == cur;
    } else {
      hide Run;
      var st := Scan(cur, false, 0, false, fields);
      assert t + tail == [t[0]] + (t[1..] + tail);
      assert Count(st, t[0]) == st;
      RunPut(t[0], t[1..] + tail, delim, st);
      RunSimple(t[1..], tail, delim, cur + [t[0]], fields);
      assert cur + [t[0]] + t[1..] == cur + t;
    }
  }

  /** Inside quotes, the series of quotes is even. */
  predicate Quoting(st: Scan) {
    st.inside && st.series % 2 == 0 && (st.cur != "" || st.lastQuote)
  }

  lemma RunQuote(tail: string, delim: char, st: Scan)
    requires Quoting(st) && delim != '\"'
    ensures Run("\"" + tail, delim, st)
      == Run(tail, delim, Scan(st.cur + ['\"'], false, st.series + 1, true, st.fields))
  {
    hide Run;
    RunPut('\"', tail, delim, st);
  }

  lemma RunPair(tail: string, delim: char, st: Scan)
    requires Quoting(st) && delim != '\"'
    ensures Run("\"" + ("\"" + tail), delim, st)
      == Run(tail, delim, Scan(st.cur + ['\"'], true, st.series + 2, true, st.fields))
  {
    hide Run;
    RunQuote("\"" + tail, delim, st);
    assert DropLast(st.cur + ['\"']) == st.cur;
    RunPut('\"', tail, delim, Scan(st.cur + ['\"'], false, st.series + 1, true, st.fields));
  }

  lemma RunInside(c: char, tail: string, delim: char, st: Scan)
    requires Quoting(st) && c != '\"' && c != '\r'
    ensures Run([c] + tail, delim, st) == Run(tail, delim, Scan(st.cur + [c], true, 0, false, st.fields))
  {
    hide Run;
    RunPut(c, tail, delim, st);
  }

  /** The inside of a quoted field, up to the quote that closes it. */
  lemma {:induction false} RunQuoted(t: string, tail: string, delim: char, st: Scan) returns (series: nat)
    requires Quoting(st) && delim != '\"'
    ensures Run(Double(t) + ("\"" + tail), delim, st)
      == Run(tail, delim, Scan(st.cur + NoReturns(t) + ['\"'], false, series, true, st.fields))
    decreases |t|
  {
    hide Run;
    var end := "\"" + tail;
    if t == "" {
      assert Double(t) + end == end && st.cur + NoReturns(t) == st.cur;
      RunQuote(tail, delim, st);
      series := st.series + 1;
    } else {
      var c, more := t[0], Double(t[1..]) + end;
      if c == '\"' {
        assert Double(t) + end == "\"" + ("\"" + more);
        RunPair(more, delim, st);
        series := RunQuoted(t[1..], tail, delim, Scan(st.cur + ['\"'], true, st.series + 2, true, st.fields));
      } else {
        assert Double(t) + end == [c] + more;
        if c == '\r' {
          SkipReturn(more, delim, st);
          series := RunQuoted(t[1..], tail, delim, st);
        } else {
          RunInside(c, more, delim, st);
          series := RunQuoted(t[1..], tail, delim, Scan(st.cur + [c], true, 0, false, st.fields));
        }
      }
      var kept := if c == '\r' then "" else [c];
      assert st.cur + "" == st.cur && NoReturns(t) == kept + NoReturns(t[1..]);
      Associative(st.cur, kept, NoReturns(t[1..]));
    }
  }

  lemma SkipReturn(tail: string, delim: char, st: Scan)
    ensures Run(['\r'] + tail, delim, st) == Run(tail, delim, st)
  {
    assert (['\r'] + tail)[1..] == tail;
  }

  lemma {:induction false} SimpleClean(t: string, delim: char)
    requires Simple(t, delim)
    ensures NoReturns(t) == t
    decreases |t|
  {
    if t != "" {
      SimpleClean(t[1..], delim);
      assert t == [t[0]] + t[1..];
    }
  }

  /** A field of a row is complete when its text has been read. */
  lemma RunField(f: Field, tail: string, delim: char, fields: seq<string>) returns (st: Scan)
    requires delim != '\"' && (f.quoted || Simple(f.text, delim))
    ensures Run(PrintField(f) + tail, delim, Start(fields)) == Run(tail, delim, st)
    ensures Complete(st, f.text) && st.fields == fields
    ensures st.cur == "" ==> PrintField(f) == ""
  {
    hide Run;
    if f.quoted {
      var quoting := Scan("", true, 0, true, fields);
      var more := Double(f.text) + ("\"" + tail);
      assert PrintField(f) + tail == "\"" + more;
      OpenQuote(more, delim, fields);
      var series := RunQuoted(f.text, tail, delim, quoting);
      var t := NoReturns(f.text);
      st := Scan("" + t + ['\"'], false, series, true, fields);
      assert DropLast(st.cur) == t;
    } else {
      RunSimple(f.text, tail, delim, "", fields);
      st := Scan("" + f.text, false, 0, false, fields);
      assert "" + f.text == f.text;
      SimpleClean(f.text, delim);
    }
  }

  lemma OpenQuote(tail: string, delim: char, fields: seq<string>)
    ensures Run("\"" + tail, delim, Start(fields)) == Run(tail, delim, Scan("", true, 0, true, fields))
  {
    assert ("\"" + tail)[1..] == tail;
  }

  lemma EndField(st: Scan, text: string, tail: string, delim: char)
    requires Complete(st, text) && Accepted(delim)
    ensures Run([delim] + tail, delim, st) == Run(tail, delim, Start(st.fields + [Clean(text)]))
  {
    hide Clean;
    assert ([delim] + tail)[1..] == tail;
    assert Value(Count(st, delim)) == Value(st);
  }

  lemma EndLine(st: Scan, text: string, l: Line, tail: string, delim: char)
    requires Complete(st, text) && Accepted(delim)
    ensures Run(LineBreak(l) + tail, delim, st) == Row(st.fields + [Clean(text)], tail)
  {
    hide Clean;
    var s := ['\n'] + tail;
    assert s[1..] == tail;
    assert Value(Count(st, '\n')) == Value(st);
    if l.crlf {
      assert LineBreak(l) + tail == ['\r'] + s;
      SkipReturn(s, delim, st);
    }
    assert LineBreak(l) + tail == if l.crlf then ['\r'] + s else s;
  }

  // ----- rows

  lemma RunFirstField(f: Field, more: string, delim: char, fields: seq<string>)
    requires Accepted(delim) && (f.quoted || Simple(f.text, delim))
    ensures Run(PrintField(f) + ([delim] + more), delim, Start(fields))
      == Run(more, delim, Start(fields + [Clean(f.text)]))
  {
    hide Run, Clean, Complete, Simple, PrintField;
    var st := RunField(f, [delim] + more, delim, fields);
    EndField(st, f.text, more, delim);
  }

  lemma CleanMore(fields: seq<string>, fs: seq<Field>)
    requires fs != []
    ensures fields + CleanFields(fs) == fields + [Clean(fs[0].text)] + CleanFields(fs[1..])
    ensures |fs| == 1 ==> fields + CleanFields(fs) == fields + [Clean(fs[0].text)]
  {
    hide Clean;
    var c, more := Clean(fs[0].text), CleanFields(fs[1..]);
    assert CleanFields(fs) == [c] + more;
    Associative(fields, [c], more);
  }

  /** A row, taken apart into its first field and the others. */
  lemma RowParts(fs: seq<Field>, delim: char, end: string)
    requires LegalFields(fs, delim)
    ensures fs != [] && (fs[0].quoted || Simple(fs[0].text, delim))
    ensures |fs| == 1 ==> PrintFields(fs, delim) == PrintField(fs[0])
    ensures |fs| > 1 ==> LegalFields(fs[1..], delim)
    ensures |fs| > 1 ==>
      PrintFields(fs, delim) + end == PrintField(fs[0]) + ([delim] + (PrintFields(fs[1..], delim) + end))
  {
    hide Simple, PrintField;
  }

  /** A printed row in front of a line break. */
  lemma {:induction false} RunFields(fs: seq<Field>, l: Line, tail: string, delim: char, fields: seq<string>)
    requires LegalFields(fs, delim) && Accepted(delim)
    ensures Run(PrintFields(fs, delim) + (LineBreak(l) + tail), delim, Start(fields))
      == Row(fields + CleanFields(fs), tail)
    decreases |fs|
  {
    hide Run, LineBreak, Clean, Complete, Simple, PrintField, PrintFields, CleanFields, LegalFields;
    RowParts(fs, delim, LineBreak(l) + tail);
    CleanMore(fields, fs);
    var f, end := fs[0], LineBreak(l) + tail;
    if |fs| == 1 {
      var st := RunField(f, end, delim, fields);
      EndLine(st, f.text, l, tail, delim);
    } else {
      RunFirstField(f, PrintFields(fs[1..], delim) + end, delim, fields);
      RunFields(fs[1..], l, tail, delim, fields + [Clean(f.text)]);
    }
  }

  /** A printed row at the end of the file. */
  lemma {:induction false} RunLastFields(fs: seq<Field>, delim: char, fields: seq<string>)
    requires LegalFields(fs, delim) && Accepted(delim)
    requires fields != [] || PrintFields(fs, delim) != ""
    ensures Run(PrintFields(fs, delim), delim, Start(fields)) == Row(fields + CleanFields(fs), "")
    decreases |fs|
  {
    hide Run, Clean, Simple, PrintField, PrintFields, CleanFields, LegalFields;
    RowParts(fs, delim, "");
    CleanMore(fields, fs);
    var f := fs[0];
    if |fs| == 1 {
      var st := RunField(f, "", delim, fields);
      assert PrintField(f) + "" == PrintField(f);
      RunStep("", delim, st);
    } else {
      var more := PrintFields(fs[1..], delim);
      assert PrintFields(fs, delim) + "" == PrintFields(fs, delim) && more + "" == more;
      RunFirstField(f, more, delim, fields);
      RunLastFields(fs[1..], delim, fields + [Clean(f.text)]);
    }
  }

  /** The rows come back, cleaned, and then there are no more. */
  lemma {:induction false} ReadPrinted(ls: seq<Line>, delim: char, lastBreak: bool)
    requires Accepted(delim) && Legal(ls, delim, lastBreak)
    ensures ReadAll(Print(ls, delim, lastBreak), delim) == Rows(CleanLines(ls))
    decreases |ls|
  {
    hide Run, PrintFields, CleanFields, LegalFields, ReadAll;
    if ls != [] {
      var l, more := ls[0], Print(ls[1..], delim, lastBreak);
      var s := Print(ls, delim, lastBreak);
      if |ls| == 1 && !lastBreak {
        RunLastFields(l.fields, delim, []);
        assert s == PrintFields(l.fields, delim) + "" + "" == PrintFields(l.fields, delim);
        ReadNothing(delim);
      } else {
        RunFields(l.fields, l, more, delim, []);
        assert s == PrintFields(l.fields, delim) + (LineBreak(l) + more);
        ReadPrinted(ls[1..], delim, lastBreak);
      }
      assert [] + CleanFields(l.fields) == CleanFields(l.fields);
      ReadRow(s, delim);
    } else {
      ReadNothing(delim);
    }
  }

  lemma ReadRow(s: string, delim: char)
    ensures var o := Run(s, delim, Start([]));
      o.Row? && ReadAll(o.rest, delim).Rows? ==> ReadAll(s, delim) == Rows([o.fields] + ReadAll(o.rest, delim).rows)
  {
    hide Run;
  }

  lemma ReadNothing(delim: char)
    ensures ReadAll("", delim) == Rows([])
  {
  }

  // ----- when nothing is lost

  predicate Untouched(t: string) {
    '\r' !in t && '\0' !in t
  }

  lemma {:induction false} NoReturnsShorter(t: string)
    ensures |NoReturns(t)| <= |t|
    ensures |NoReturns(t)| == |t| <==> '\r' !in t
    ensures '\r' !in t ==> NoReturns(t) == t
    decreases |t|
  {
    if t != "" {
      NoReturnsShorter(t[1..]);
      assert t == [t[0]] + t[1..];
    }
  }

  lemma {:induction false} UpToNulShorter(t: string)
    ensures |UpToNul(t)| == |t| <==> '\0' !in t
    ensures '\0' !in t ==> UpToNul(t) == t
    decreases |t|
  {
    if t != "" {
      UpToNulShorter(t[1..]);
      assert t == [t[0]] + t[1..];
    }
  }

  lemma CleanSame(t: string)
    ensures Clean(t) == t <==> Untouched(t)
  {
    NoReturnsShorter(t);
    UpToNulShorter(NoReturns(t));
  }

  function Texts(fs: seq<Field>): seq<string> {
    seq(|fs|, k requires 0 <= k < |fs| => fs[k].text)
  }

  function AllTexts(ls: seq<Line>): seq<seq<string>> {
    seq(|ls|, i requires 0 <= i < |ls| => Texts(ls[i].fields))
  }

  predicate UntouchedLine(l: Line) {
    forall k :: 0 <= k < |l.fields| ==> Untouched(l.fields[k].text)
  }

  lemma CleanFieldsSame(l: Line)
    ensures CleanFields(l.fields) == Texts(l.fields) <==> UntouchedLine(l)
  {
    hide Clean, Untouched;
    var a, b := CleanFields(l.fields), Texts(l.fields);
    forall k | 0 <= k < |l.fields| ensures a[k] == b[k] <==> Untouched(l.fields[k].text) {
      CleanSame(l.fields[k].text);
    }
    if UntouchedLine(l) {
      assert a == b;
    }
  }

  /** Exactly the rows that were printed come back, if and only if no field has a CR or a NUL. */
  lemma RowsComeBack(ls: seq<Line>, delim: char, lastBreak: bool)
    requires Accepted(delim) && Legal(ls, delim, lastBreak)
    ensures ReadAll(Print(ls, delim, lastBreak), delim) == Rows(AllTexts(ls))
      <==> forall i :: 0 <= i < |ls| ==> UntouchedLine(ls[i])
  {
    hide UntouchedLine, CleanFields, Texts, Print, ReadAll, Legal;
    ReadPrinted(ls, delim, lastBreak);
    var a, b := CleanLines(ls), AllTexts(ls);
    forall i | 0 <= i < |ls| ensures a[i] == b[i] <==> UntouchedLine(ls[i]) {
      CleanFieldsSame(ls[i]);
    }
    if forall i :: 0 <= i < |ls| ==> UntouchedLine(ls[i]) {
      assert a == b;
    }
  }

  /** A quoted field with a carriage return comes back without it. */
  lemma ReturnLost()
    ensures ReadAll(Print([Line([Field("a\rb", true)], false)], ',', true), ',') == Rows([["ab"]])
  {
    var ls := [Line([Field("a\rb", true)], false)];
    ReadPrinted(ls, ',', true);
    assert NoReturns("b") == "b" && "\rb"[1..] == "b" && "a\rb"[1..] == "\rb";
    assert NoReturns("\rb") == "b";
    assert NoReturns("a\rb") == "ab";
    assert UpToNul("b") == "b" && "ab"[1..] == "b";
    assert Clean("a\rb") == "ab";
    assert CleanFields(ls[0].fields) == ["ab"];
    assert CleanLines(ls) == [["ab"]];
  }
}
