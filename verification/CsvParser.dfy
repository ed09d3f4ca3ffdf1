/** The reader itself: one buffer for the field and one for the row, each of which grows. */
module CsvParser {
  import opened Lists
  import opened CsvScan

  const AcceptedFields := 64

  /** malloc and strcpy of a finished field: the buffer up to its terminator. */
  function CString(buf: seq<char>, end: nat): string
    requires end < |buf| && buf[end] == '\0'
  {
    UpToNul(buf)
  }

  lemma {:induction false} CStringIs(buf: seq<char>, end: nat)
    requires end < |buf| && buf[end] == '\0'
    ensures CString(buf, end) == UpToNul(buf[..end])
    decreases end
  {
    if end > 0 && buf[0] != '\0' {
      CStringIs(buf[1..], end - 1);
      assert buf[1..][..end - 1] == buf[..end][1..];
    }
  }

  lemma SameValue(a: Scan, b: Scan)
    requires a.cur == b.cur && a.lastQuote == b.lastQuote
    ensures Value(a) == Value(b)
  {
  }

  method Realloc<T(0)>(a: array<T>, n: nat, zero: T) returns (b: array<T>)
    requires a.Length <= n
    ensures fresh(b) && b.Length == n && b[..a.Length] == a[..]
  {
    b := new T[n](_ => zero);
    for i := 0 to a.Length
      invariant b[..i] == a[..i]
      modifies b
    {
      b[i] := a[i];
    }
    assert b[..a.Length] == a[..a.Length] == a[..];
  }

  /** The variables of one call of _CsvParser_getRow. */
  class RowReader {
    const delim: char
    var currField: array<char>
    var iter: nat              // currFieldCharIter
    var fields: array<string>  // fields_
    var numOfFields: nat       // and fieldIter
    var numRowRealloc: nat
    var inside: bool
    var series: nat
    var lastQuote: bool

    /** Both buffers have room for the next write, and every count fits. */
    ghost predicate Valid()
      reads this
    {
      && delim != '\"'
      && iter < currField.Length - 1
      && fields.Length == (numRowRealloc + 1) * AcceptedFields && numRowRealloc == numOfFields / AcceptedFields
      && (series > 0 ==> iter > 0 && lastQuote)
      && (iter == 0 && lastQuote ==> inside)
      && (iter == 0 && !lastQuote ==> !inside)
    }

    ghost function State(): Scan
      requires Valid()
      reads this, currField, fields
    {
      Scan(currField[..iter], inside, series, lastQuote, fields[..numOfFields])
    }

    constructor (delim: char)
      requires Accepted(delim)
      ensures Valid() && State() == Start([]) && this.delim == delim && fresh(currField) && fresh(fields)
    {
      this.delim := delim;
      currField := new char[64](_ => '\0');
      fields := new string[AcceptedFields](_ => "");
      iter, numOfFields, numRowRealloc, series := 0, 0, 0, 0;
      inside, lastQuote := false, false;
      new;
      assert currField[..0] == "" && fields[..0] == [];
    }

    /** The bookkeeping of quotes; a quote taken back is overwritten by the next one. */
    method CountQuote(c: char)
      requires Valid() && !Opens(State(), c)
      modifies this`iter, this`inside, this`series
      ensures 0 <= iter < currField.Length - 1
      ensures Scan(currField[..iter], inside, series, lastQuote, fields[..numOfFields]) == Count(old(State()), c)
      ensures iter < old(iter) ==> c == '\"' && inside
      ensures numOfFields == old(numOfFields)
    {
      if iter == 0 && !lastQuote {
      } else if c == '\"' {
        series := series + 1;
        inside := series % 2 == 0;
        if inside {
          ghost var cur := currField[..iter];
          iter := iter - 1;
          assert currField[..iter] == cur[..|cur| - 1];
        }
      } else {
        series := 0;
      }
    }

    /** A character goes into the field, which doubles when it is full but for the terminator. */
    method PutChar(c: char)
      requires iter < currField.Length - 1
      modifies this`iter, this`currField, this`lastQuote, currField
      ensures iter == old(iter) + 1 && iter < currField.Length - 1 && lastQuote == (c == '\"')
      ensures currField[..iter] == old(currField[..iter]) + [c]
      ensures currField == old(currField) || fresh(currField)
    {
      currField[iter] := c;
      iter := iter + 1;
      ghost var cur := currField[..iter];
      if iter == currField.Length - 1 {
        currField := Realloc(currField, currField.Length * 2, '\0');
        assert currField[..iter] == cur;
      }
      lastQuote := c == '\"';
    }

    /** The end of a field: terminated, copied, counted. */
    method EndField()
      requires iter < currField.Length && (lastQuote ==> iter > 0)
      requires fields.Length == (numRowRealloc + 1) * AcceptedFields && numRowRealloc == numOfFields / AcceptedFields
      modifies currField, fields, this`numOfFields
      ensures numOfFields == old(numOfFields) + 1 <= fields.Length
      ensures fields[..numOfFields] == old(fields[..numOfFields])
        + [Value(Scan(old(currField[..iter]), inside, series, lastQuote, old(fields[..numOfFields])))]
    {
      var end := if lastQuote then iter - 1 else iter;
      ghost var cur := currField[..iter];
      currField[end] := '\0';
      CStringIs(currField[..], end);
      assert currField[..][..end] == if lastQuote then cur[..|cur| - 1] else cur;
      fields[numOfFields] := CString(currField[..], end);
      numOfFields := numOfFields + 1;
      assert fields[..numOfFields] == fields[..numOfFields - 1] + [fields[numOfFields - 1]];
    }

    /** After a delimiter: a new buffer for the next field, and more room in the row when it is full. */
    method NextField()
      requires 0 < numOfFields <= fields.Length
      requires fields.Length == (numRowRealloc + 1) * AcceptedFields
        && numRowRealloc == (numOfFields - 1) / AcceptedFields
      modifies this`fields, this`numRowRealloc, this`currField, this`iter, this`inside, this`lastQuote
      ensures fields.Length == (numRowRealloc + 1) * AcceptedFields && numRowRealloc == numOfFields / AcceptedFields
      ensures fields[..numOfFields] == old(fields[..numOfFields]) && (fields == old(fields) || fresh(fields))
      ensures fresh(currField) && currField.Length == 64 && iter == 0 && !inside && !lastQuote
    {
      if numOfFields != 0 && numOfFields % AcceptedFields == 0 {
        ghost var had := fields[..numOfFields];
        fields := Realloc(fields, (numRowRealloc + 2) * AcceptedFields, "");
        assert fields[..numOfFields] == had;
        numRowRealloc := numRowRealloc + 1;
      }
      currField := new char[64](_ => '\0');
      iter, inside, lastQuote := 0, false, false;
    }

    /** One character. */
    method TakeChar(c: char) returns (done: bool)
      requires Valid()
      modifies this, currField, fields
      ensures currField == old(currField) || fresh(currField)
      ensures fields == old(fields) || fresh(fields)
      ensures var t := Turn(old(State()), delim, c);
        if t.Go? then !done && Valid() && State() == t.st
        else done && numOfFields <= fields.Length && fields[..numOfFields] == t.fields
    {
      hide Value;
      done := false;
      SoundStep(State(), delim, c);
      if c == '\r' {
        return;
      }
      if iter == 0 && !lastQuote && c == '\"' {
        inside, lastQuote := true, true;
        return;
      }
      CountQuote(c);
      if (c == delim || c == '\n') && !inside {
        EndField();
        if c == '\n' {
          return true;
        }
        NextField();
        assert currField[..iter] == "";
      } else {
        PutChar(c);
      }
    }

    /** The end of the file. */
    method TakeEnd() returns (row: bool)
      requires Valid() && !AtEnd(State()).Broken?
      modifies this, currField, fields
      ensures row == AtEnd(old(State())).Row?
      ensures row ==> numOfFields <= fields.Length && fields[..numOfFields] == AtEnd(old(State())).fields
    {
      hide Value;
      if iter == 0 && numOfFields == 0 {
        return false;
      }
      ghost var st := State();
      CountQuote('\n');
      EndField();
      SameValue(st, Count(st, '\n'));
      return true;
    }
  }

  /** A CsvParser made by CsvParser_new; a file that cannot be opened is None. */
  class CsvFile {
    const file: Option<string>
    const delimiter: char
    const firstLineIsHeader: bool
    var pos: nat
    var header: Option<seq<string>>
    var errMsg: string

    ghost predicate Valid()
      reads this
    {
      pos <= |Text()| && (delimiter == '\0' || Accepted(delimiter))
    }

    ghost function Text(): string {
      if file.Some? then file.value else ""
    }

    /** What has not been read yet. */
    ghost function Rest(): string
      requires Valid()
      reads this
    {
      Text()[pos..]
    }

    constructor (file: Option<string>, delimiter: Option<char>, firstLineIsHeader: bool)
      ensures Valid() && Rest() == Text() && this.file == file && this.firstLineIsHeader == firstLineIsHeader
      ensures header == None && errMsg == ""
      ensures this.delimiter ==
        if delimiter.None? then ',' else if Accepted(delimiter.value) then delimiter.value else '\0'
    {
      this.file, this.firstLineIsHeader := file, firstLineIsHeader;
      this.delimiter :=
        if delimiter.None? then ',' else if Accepted(delimiter.value) then delimiter.value else '\0';
      pos, header, errMsg := 0, None, "";
    }

    /** What the next row comes from: the loop, if there is a file and a delimiter. */
    ghost function Next(): Outcome
      requires Valid()
      reads this
    {
      if file.None? || delimiter == '\0' then NoRow else Run(Rest(), delimiter, Start([]))
    }

    /** The file does not end in its next row, right after a quote that opens a later field. */
    ghost predicate Readable()
      requires Valid()
      reads this
    {
      file.Some? && delimiter != '\0' ==> !RowEndsOpening(Rest(), delimiter, Fresh)
    }

    /** _CsvParser_getRow */
    method ReadRow() returns (r: Option<seq<string>>)
      requires Valid() && Readable()
      modifies this`pos, this`errMsg
      ensures Valid()
      ensures var o := old(Next()); r == if o.Row? then Some(o.fields) else None
      ensures old(Next()).Row? ==> Rest() == old(Next()).rest
      ensures old(Next()).NoRow? ==> Next().NoRow?
    {
      if file.None? {
        errMsg := "Supplied CSV file path is NULL";
        return None;
      }
      if delimiter == '\0' {
        errMsg := "Supplied delimiter is not supported";
        return None;
      }
      var reader := new RowReader(delimiter);
      ghost var o := Next();
      BrokenExactly(Rest(), delimiter, Start([]));
      hide Run, Turn, Value;
      while pos < |file.value|
        invariant Valid() && reader.Valid() && reader.delim == delimiter
        invariant fresh(reader) && fresh(reader.currField) && fresh(reader.fields)
        invariant Run(Rest(), delimiter, reader.State()) == o
        decreases |file.value| - pos
      {
        ghost var rest := Rest();
        var currChar := file.value[pos];
        assert rest[0] == currChar && rest[1..] == file.value[pos + 1..];
        RunStep(rest, delimiter, reader.State());
        pos := pos + 1;
        var done := reader.TakeChar(currChar);
        if done {
          return Some(reader.fields[..reader.numOfFields]);
        }
      }
      assert Rest() == "";
      RunStep("", delimiter, reader.State());
      RunStep("", delimiter, Start([]));
      var row := reader.TakeEnd();
      if row {
        return Some(reader.fields[..reader.numOfFields]);
      }
      errMsg := "Reached EOF";
      return None;
    }

    /** CsvParser_getHeader */
    method GetHeader() returns (r: Option<seq<string>>)
      requires Valid() && (firstLineIsHeader && header.None? ==> Readable())
      modifies this
      ensures Valid() && r == if firstLineIsHeader then header else None
      ensures !firstLineIsHeader || old(header).Some? ==> header == old(header) && Rest() == old(Rest())
      ensures firstLineIsHeader && old(header).None? ==>
        var o := old(Next()); header == (if o.Row? then Some(o.fields) else None) && (o.Row? ==> Rest() == o.rest)
    {
      if !firstLineIsHeader {
        errMsg := "Cannot supply header, as current CsvParser object does not support header";
        return None;
      }
      if header.None? {
        header := ReadRow();
      }
      return header;
    }

    ghost predicate HeaderDue()
      reads this
    {
      firstLineIsHeader && header.None?
    }

    /** What CsvParser_getRow finds: the row behind the header, if that is still to be read. */
    ghost function Coming(): Outcome
      requires Valid()
      reads this
    {
      if HeaderDue() && Next().Row? then Run(Next().rest, delimiter, Start([])) else Next()
    }

    /** CsvParser_getRow */
    method GetRow() returns (r: Option<seq<string>>)
      requires Valid() && Readable()
      requires HeaderDue() && Next().Row? ==> !RowEndsOpening(Next().rest, delimiter, Fresh)
      modifies this
      ensures Valid()
      ensures var o := old(Coming()); r == if o.Row? then Some(o.fields) else None
      ensures old(Coming()).Row? ==> Rest() == old(Coming()).rest
      ensures header == if old(HeaderDue()) && old(Next()).Row? then Some(old(Next()).fields) else old(header)
    {
      BrokenExactly(Rest(), delimiter, Start([]));
      if firstLineIsHeader && header.None? {
        header := ReadRow();
        BrokenExactly(Rest(), delimiter, Start([]));
      }
      r := ReadRow();
    }
  }

  /** The loop of parse_csv: the rows of a file without a header. */
  method AllRows(file: CsvFile) returns (rows: seq<seq<string>>)
    requires file.Valid() && file.file.Some? && file.delimiter != '\0' && !file.firstLineIsHeader
    requires !EndsOpening(file.Rest(), file.delimiter, Fresh)
    modifies file
    ensures Rows(rows) == old(ReadAll(file.Rest(), file.delimiter))
  {
    OverrunExactly(file.Rest(), file.delimiter);
    hide EndsOpening, RowEndsOpening;
    rows := [];
    ghost var all := ReadAll(file.Rest(), file.delimiter);
    while true
      invariant file.Valid() && ReadAll(file.Rest(), file.delimiter).Rows?
      invariant rows + ReadAll(file.Rest(), file.delimiter).rows == all.rows
      decreases |file.Rest()|
    {
      BrokenExactly(file.Rest(), file.delimiter, Start([]));
      var row := file.GetRow();
      if row.None? {
        return;
      }
      ghost var more := ReadAll(file.Rest(), file.delimiter);
      assert rows + ([row.value] + more.rows) == rows + [row.value] + more.rows;
      rows := rows + [row.value];
    }
  }
}
