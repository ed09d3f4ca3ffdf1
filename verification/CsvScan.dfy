/** One row of a CSV file as the reader's loop sees it, one character after the other. */
module CsvScan {
  import opened Lists

  /**
   The variables of the loop: the field so far, whether it is inside quotes, the length of the
   current series of quotes, whether the last character was a quote, and the fields before.
   */
  datatype Scan = Scan(cur: string, inside: bool, series: nat, lastQuote: bool, fields: seq<string>)

  /** A row and the rest of the file; no row; or a field that ends in front of its buffer. */
  datatype Outcome = Row(fields: seq<string>, rest: string) | NoRow | Broken

  /** _CsvParser_delimiterIsAccepted */
  predicate Accepted(delim: char) {
    delim != '\n' && delim != '\r' && delim != '\0' && delim != '\"'
  }

  /** Every character but these four may be the delimiter. */
  lemma AcceptedExactly(delim: char)
    ensures !Accepted(delim) <==> delim in ['\n', '\r', '\0', '\"']
  {
  }

  function Start(fields: seq<string>): Scan {
    Scan("", false, 0, false, fields)
  }

  /** What strcpy copies. */
  function UpToNul(s: string): (r: string)
    ensures |r| <= |s|
  {
    if s == "" || s[0] == '\0' then "" else [s[0]] + UpToNul(s[1..])
  }

  function DropLast(s: string): string {
    if s == "" then "" else s[..|s| - 1]
  }

  /** The finished field, without the quote it ends in. */
  function Value(st: Scan): string {
    UpToNul(if st.lastQuote then DropLast(st.cur) else st.cur)
  }

  predicate Opens(st: Scan, c: char) {
    st.cur == "" && !st.lastQuote && c == '\"'
  }

  /** The bookkeeping of quotes for a character that does not open the field. */
  function Count(st: Scan, c: char): Scan {
    if st.cur == "" && !st.lastQuote then st
    else if c == '\"' then
      var even := (st.series + 1) % 2 == 0;
      st.(series := st.series + 1, inside := even, cur := if even then DropLast(st.cur) else st.cur)
    else st.(series := 0)
  }

  function Put(st: Scan, c: char): Scan {
    st.(cur := st.cur + [c], lastQuote := c == '\"')
  }

  predicate Ends(st: Scan, delim: char, c: char) {
    (c == delim || c == '\n') && !st.inside
  }

  /** The end of the file ends the field and the row, if anything has been read of it. */
  function AtEnd(st: Scan): Outcome {
    if st.cur == "" && st.fields == [] then NoRow
    else if st.cur == "" && st.lastQuote then Broken
    else Row(st.fields + [Value(st)], "")
  }

  datatype Turned = Go(st: Scan) | Finished(fields: seq<string>)

  /** One turn of the loop of _CsvParser_getRow. */
  function Turn(st: Scan, delim: char, c: char): Turned {
    if c == '\r' then Go(st)
    else if Opens(st, c) then Go(st.(inside := true, lastQuote := true))
    else
      var next := Count(st, c);
      if !Ends(next, delim, c) then Go(Put(next, c))
      else if c == '\n' then Finished(next.fields + [Value(next)])
      else Go(Scan("", false, next.series, false, next.fields + [Value(next)]))
  }

  /** The loop over the rest `s` of the file. */
  function Run(s: string, delim: char, st: Scan): (o: Outcome)
    ensures o.Row? ==> |o.rest| <= |s| && (s != "" ==> |o.rest| < |s|)
  {
    if s == "" then AtEnd(st)
    else
      var t := Turn(st, delim, s[0]);
      if t.Go? then Run(s[1..], delim, t.st) else Row(t.fields, s[1..])
  }

  lemma RunStep(s: string, delim: char, st: Scan)
    ensures s == "" ==> Run(s, delim, st) == AtEnd(st)
    ensures s != "" ==> var t := Turn(st, delim, s[0]);
      Run(s, delim, st) == if t.Go? then Run(s[1..], delim, t.st) else Row(t.fields, s[1..])
  {
  }

  /** A series of quotes has left its last quote in the field, and a field has begun with none. */
  predicate Sound(st: Scan) {
    && (st.series > 0 ==> st.cur != "" && st.lastQuote)
    && (st.cur == "" && st.lastQuote ==> st.inside)
    && (st.cur == "" && !st.lastQuote ==> !st.inside)
  }

  /** What the loop keeps: a quote is only taken back from a field that has one. */
  lemma SoundStep(st: Scan, delim: char, c: char)
    requires Sound(st) && delim != '\"'
    ensures Opens(st, c) ==> Sound(st.(inside := true, lastQuote := true))
    ensures !Opens(st, c) ==> var next := Count(st, c);
      && (c == '\"' && next.inside ==> st.cur != "" && st.cur == next.cur + [st.cur[|st.cur| - 1]])
      && (!Ends(next, delim, c) ==> Sound(Put(next, c)))
      && (Ends(next, delim, c) ==> next.series == 0 && (next.lastQuote ==> next.cur != ""))
  {
  }

  /** CsvParser_getRow until it returns NULL; None if a field ends in front of its buffer. */
  datatype Rows = Rows(rows: seq<seq<string>>) | Overrun

  function ReadAll(s: string, delim: char): Rows
    decreases |s|
  {
    var o := Run(s, delim, Start([]));
    if o.NoRow? then Rows([])
    else if o.Broken? then Overrun
    else
      var more := ReadAll(o.rest, delim);
      if more.Overrun? then Overrun else Rows([o.fields] + more.rows)
  }

  // ----- when a field would end in front of its buffer

  /**
   What the end of the file depends on: whether the field has begun, whether it is inside quotes,
   whether the series of quotes is odd, whether the last character was a quote, and whether the field
   is a later one of its row.
   */
  datatype Mark = Mark(begun: bool, inside: bool, odd: bool, quote: bool, later: bool)

  const Fresh := Mark(false, false, false, false, false)

  function MarkOf(st: Scan): Mark {
    Mark(st.cur != "", st.inside, st.series % 2 == 1, st.lastQuote, st.fields != [])
  }

  /** One character, for the mark alone; None at the end of a row. */
  function MarkNext(m: Mark, delim: char, c: char): Option<Mark> {
    if c == '\r' then Some(m)
    else if !m.begun && !m.quote && c == '\"' then Some(m.(inside := true, quote := true))
    else
      var next := if !m.begun && !m.quote then m
                  else if c == '\"' then m.(odd := !m.odd, inside := m.odd)
                  else m.(odd := false);
      if (c != delim && c != '\n') || next.inside then Some(next.(begun := true, quote := c == '\"'))
      else if c == '\n' then None
      else Some(Mark(false, false, next.odd, false, true))
  }

  /** The file ends in this row, and right after a quote that opens a later field of it. */
  predicate RowEndsOpening(s: string, delim: char, m: Mark) {
    if s == "" then !m.begun && m.quote && m.later
    else
      var next := MarkNext(m, delim, s[0]);
      next.Some? && RowEndsOpening(s[1..], delim, next.value)
  }

  /** The file ends right after a quote that opens a later field of a row. */
  predicate EndsOpening(s: string, delim: char, m: Mark) {
    if s == "" then !m.begun && m.quote && m.later
    else
      var next := MarkNext(m, delim, s[0]);
      EndsOpening(s[1..], delim, if next.Some? then next.value else Fresh)
  }

  lemma MarkStep(st: Scan, delim: char, c: char)
    requires Sound(st) && delim != '\"'
    ensures var t, next := Turn(st, delim, c), MarkNext(MarkOf(st), delim, c);
      if t.Go? then Sound(t.st) && next == Some(MarkOf(t.st)) else next == None
  {
    SoundStep(st, delim, c);
  }

  /** A row ends in front of its buffer exactly if the scan of the marks says so. */
  lemma {:induction false} BrokenExactly(s: string, delim: char, st: Scan)
    requires Sound(st) && delim != '\"'
    ensures Run(s, delim, st).Broken? <==> RowEndsOpening(s, delim, MarkOf(st))
    ensures var o := Run(s, delim, st);
      EndsOpening(s, delim, MarkOf(st)) <==> o.Broken? || (o.Row? && EndsOpening(o.rest, delim, Fresh))
    decreases |s|
  {
    if s != "" {
      hide Turn, MarkNext, MarkOf, Sound;
      MarkStep(st, delim, s[0]);
      var t := Turn(st, delim, s[0]);
      if t.Go? {
        BrokenExactly(s[1..], delim, t.st);
      }
    }
  }

  /** The reader writes in front of a buffer exactly on the files that end so. */
  lemma {:induction false} OverrunExactly(s: string, delim: char)
    requires delim != '\"'
    ensures ReadAll(s, delim).Overrun? <==> EndsOpening(s, delim, Fresh)
    decreases |s|
  {
    hide Run, MarkNext, RowEndsOpening, EndsOpening;
    assert Sound(Start([])) && MarkOf(Start([])) == Fresh;
    BrokenExactly(s, delim, Start([]));
    var o := Run(s, delim, Start([]));
    if o.Row? {
      StartsRow(s, delim);
      OverrunExactly(o.rest, delim);
    }
  }

  lemma StartsRow(s: string, delim: char)
    ensures Run(s, delim, Start([])).Row? ==> s != ""
  {
  }

  /** A delimiter and a quote are such a file; a quote alone, and an empty quoted field, are not. */
  lemma OverrunHappens()
    ensures ReadAll(",\"", ',') == Overrun
    ensures ReadAll("\"", ',') == Rows([])
    ensures ReadAll(",\"\"", ',') == Rows([["", ""]])
  {
    OverrunExactly(",\"", ',');
    var one := Scan("", false, 0, false, [""]);
    assert Turn(Start([]), ',', ',') == Go(one);
    assert ",\"\""[1..] == "\"\"" && "\"\""[1..] == "\"" && "\""[1..] == "" && ",\""[1..] == "\"";
    var two := Scan("", true, 0, true, [""]);
    assert Turn(one, ',', '\"') == Go(two);
    var three := Scan("\"", false, 1, true, [""]);
    assert Turn(two, ',', '\"') == Go(three);
    assert Run("", ',', three) == Row(["", ""], "");
    assert Run("\"", ',', two) == Row(["", ""], "");
    assert Run("\"\"", ',', one) == Row(["", ""], "");
    assert ReadAll("", ',') == Rows([]);
  }
}
