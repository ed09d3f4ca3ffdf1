/**
 The printer of a line, argument by argument, the line that carries a device, and what the receiver
 makes of the arguments.
 */
module WireLines {
  import opened Lists
  import opened Decimals
  import opened WireWords
  import opened WireNames
  import opened WireTable
  import opened WireArgs
  import opened WireItems
  import opened WireSpoilt

  /** evbuffer_readln up to a line feed and, when there is one, a carriage return before it. */
  function ReadLine(buffer: string): (r: Option<(string, string)>)
    ensures r.Some? ==> |r.value.1| < |buffer|
  {
    var n := LineFeed(buffer);
    if n == |buffer| then None
    else Some((if n > 0 && buffer[n - 1] == '\r' then buffer[..n - 1] else buffer[..n], buffer[n + 1..]))
  }

  function LineFeed(s: string): (n: nat)
    ensures n <= |s| && '\n' !in s[..n]
    ensures n < |s| ==> s[n] == '\n'
  {
    if s == "" || s[0] == '\n' then 0 else 1 + LineFeed(s[1..])
  }

  lemma {:induction false} LineFeedAt(line: string, more: string)
    requires '\n' !in line
    ensures LineFeed(line + ("\n" + more)) == |line|
    decreases |line|
  {
    if line == "" {
      assert line + ("\n" + more) == "\n" + more;
    } else {
      assert (line + ("\n" + more))[1..] == line[1..] + ("\n" + more) && line[0] in line;
      LineFeedAt(line[1..], more);
    }
  }

  lemma ReadOneLine(line: string, more: string)
    requires OneLine(line)
    ensures ReadLine(line + "\n" + more) == Some((line, more))
  {
    var s := line + "\n" + more;
    assert s == line + ("\n" + more);
    LineFeedAt(line, more);
    assert s[..|line|] == line && s[|line| + 1..] == more;
  }

  /** A carriage return in front of the line feed belongs to the line's end; without a line feed there is no line. */
  lemma ReadEitherBreak(line: string, more: string)
    requires '\n' !in line
    ensures ReadLine(line + "\r\n" + more) == Some((line, more))
    ensures ReadLine(line) == None
  {
    var s, cr := line + "\r\n" + more, line + "\r";
    assert s == cr + ("\n" + more);
    LineFeedAt(cr, more);
    assert s[..|cr| - 1] == line && s[|cr| - 1] == '\r' && s[|cr| + 1..] == more;
  }

  /** Lines as they are written to a connection. */
  function Written(lines: seq<string>): string {
    if lines == [] then "" else lines[0] + "\n" + Written(lines[1..])
  }

  /** All lines that can be read off a connection. */
  function ReadLines(buffer: string): seq<string>
    decreases |buffer|
  {
    var r := ReadLine(buffer);
    if r.None? then [] else [r.value.0] + ReadLines(r.value.1)
  }

  /** A line that stays one line. */
  predicate OneLine(line: string) {
    '\n' !in line && (line == "" || line[|line| - 1] != '\r')
  }

  /** Lines arrive as they were written, one by one and in order. */
  lemma {:induction false} ReadWritten(lines: seq<string>)
    requires forall i :: 0 <= i < |lines| ==> OneLine(lines[i])
    ensures ReadLines(Written(lines)) == lines
    decreases |lines|
  {
    hide ReadLine, OneLine;
    if lines == [] {
      NothingWritten();
    } else {
      var more := lines[1..];
      assert forall i :: 0 <= i < |more| ==> more[i] == lines[i + 1];
      ReadWritten(more);
      assert OneLine(lines[0]);
      ReadOneLine(lines[0], Written(more));
    }
  }

  lemma NothingWritten()
    ensures ReadLines("") == []
  {
  }

  lemma {:induction false} WrittenMore(lines: seq<string>, line: string)
    ensures Written(lines + [line]) == Written(lines) + (line + "\n")
    decreases |lines|
  {
    if lines == [] {
      assert ([] + [line])[1..] == [];
    } else {
      assert (lines + [line])[1..] == lines[1..] + [line];
      WrittenMore(lines[1..], line);
      Associative(lines[0] + "\n", Written(lines[1..]), line + "\n");
    }
  }

  // ----- devices

  type Byte = b: nat | b < 256

  /** The part of a device_t that its registration carries. */
  datatype Device = Device(uid: Option<string>, name: Option<string>, rrdname: Option<string>,
    scale: Byte, devtype: Byte, proto: Byte, subtype: Byte)

  /** What gn_register_device does not refuse. */
  predicate Registerable(d: Device) {
    d.uid.Some? && d.name.Some? && d.devtype != 0 && d.subtype != 0 && d.proto != 0
  }

  function DeviceItems(d: Device): seq<Item>
    requires Registerable(d)
  {
    NamingItems(d) + OptionalItems(d) + CodeItems(d)
  }

  function NamingItems(d: Device): seq<Item>
    requires Registerable(d)
  {
    [Item(SC_UID, d.uid.value, false, 1), Item(SC_NAME, d.name.value, true, 1)]
  }

  function OptionalItems(d: Device): seq<Item> {
    (if d.rrdname.Some? then [Item(SC_RRDNAME, d.rrdname.value, false, 1)] else [])
    + (if d.scale != 0 then [Item(SC_SCALE, Signed(d.scale), false, 1)] else [])
  }

  function CodeItems(d: Device): seq<Item> {
    [Item(SC_DEVTYPE, Signed(d.devtype), false, 1), Item(SC_PROTO, Signed(d.proto), false, 1),
     Item(SC_SUBTYPE, Signed(d.subtype), false, 0)]
  }

  /** evbuffer_add_printf of one argument: `%s:%s` or `%s:"%s"`, and blanks. */
  method Add(send: string, ghost cmd: string, ghost items: seq<Item>, it: Item)
    returns (r: string, ghost more: seq<Item>)
    requires send == cmd + LineOf(items)
    ensures more == items + [it] && r == cmd + LineOf(more)
  {
    hide Spelled, LineOf;
    r := send + Spelled(it.id) + ":";
    r := if it.quoted then r + "\"" + it.text + "\"" else r + it.text;
    r := r + Blanks(it.gap);
    assert r == send + (Shown(it) + Blanks(it.gap));
    LineOfMore(items, it);
    more := items + [it];
  }

  method AddCodes(send: string, ghost cmd: string, ghost items: seq<Item>, d: Device)
    returns (r: string, ghost more: seq<Item>)
    requires send == cmd + LineOf(items)
    ensures more == items + CodeItems(d) && r == cmd + LineOf(more)
  {
    hide LineOf, Signed;
    r, more := Add(send, cmd, items, Item(SC_DEVTYPE, Signed(d.devtype), false, 1));
    r, more := Add(r, cmd, more, Item(SC_PROTO, Signed(d.proto), false, 1));
    r, more := Add(r, cmd, more, Item(SC_SUBTYPE, Signed(d.subtype), false, 0));
  }

  /** gn_register_device: what it writes, which is nothing for a device it refuses. */
  method RegisterDevice(d: Device) returns (send: string)
    ensures send == if Registerable(d) then "reg " + LineOf(DeviceItems(d)) + "\n" else ""
    ensures send == "" <==> d.name.None? || d.uid.None? || d.devtype == 0 || d.subtype == 0 || d.proto == 0
  {
    if d.name.None? || d.uid.None? {
      return "";
    }
    if d.devtype == 0 || d.subtype == 0 || d.proto == 0 {
      return "";
    }
    LineOfNone();
    hide LineOf, Signed;
    ghost var cmd, items := "reg ", [];
    send := "reg ";
    send, items := Add(send, cmd, items, Item(SC_UID, d.uid.value, false, 1));
    send, items := Add(send, cmd, items, Item(SC_NAME, d.name.value, true, 1));
    ghost var naming := items;
    assert naming == NamingItems(d);
    if d.rrdname.Some? {
      send, items := Add(send, cmd, items, Item(SC_RRDNAME, d.rrdname.value, false, 1));
    }
    if d.scale != 0 {
      send, items := Add(send, cmd, items, Item(SC_SCALE, Signed(d.scale), false, 1));
    }
    ghost var optional := items;
    assert optional == naming + OptionalItems(d);
    send, items := AddCodes(send, cmd, items, d);
    send := send + "\n";
  }

  lemma LineOfNone()
    ensures LineOf([]) == ""
  {
  }

  lemma {:induction false} LineOfMore(items: seq<Item>, it: Item)
    ensures LineOf(items + [it]) == LineOf(items) + (Shown(it) + Blanks(it.gap))
    decreases |items|
  {
    hide Shown, Blanks;
    if items == [] {
      assert items + [it] == [it] && LineOf([it]) == Shown(it) + Blanks(it.gap) + LineOf([]);
    } else {
      assert (items + [it])[1..] == items[1..] + [it];
      LineOfMore(items[1..], it);
    }
  }

  // ----- what the receiver makes of a registration

  /** One argument of cmd_register's loop; rrdname is cut at 19 characters. */
  function TakeDevice(d: Device, a: Arg): Device {
    match a.value
    case Text(t) =>
      if a.id == SC_UID then d.(uid := Some(t))
      else if a.id == SC_NAME then d.(name := Some(t))
      else if a.id == SC_RRDNAME then d.(rrdname := Some(Cut(t)))
      else d
    case Int(n) =>
      if a.id == SC_DEVTYPE then d.(devtype := n % 256)
      else if a.id == SC_PROTO then d.(proto := n % 256)
      else if a.id == SC_SUBTYPE then d.(subtype := n % 256)
      else if a.id == SC_SCALE then d.(scale := n % 256)
      else d
    case _ => d
  }

  /** strndup(_, 19) */
  function Cut(s: string): (r: string)
    ensures r <= s && |r| <= 19 && (r == s || |r| == 19)
  {
    if |s| <= 19 then s else s[..19]
  }

  const NoDevice := Device(None, None, None, 0, 0, 0, 0)

  /** A loop over the arguments, each of which changes what has been read so far. */
  function ReadArgs<S>(take: (S, Arg) -> S, none: S, args: seq<Arg>): S {
    if args == [] then none else take(ReadArgs(take, none, args[..|args| - 1]), args[|args| - 1])
  }

  /** The loop of cmd_register over its arguments. */
  method ReadDeviceLoop(args: seq<Arg>) returns (d: Device)
    ensures d == ReadArgs(TakeDevice, NoDevice, args)
  {
    d := NoDevice;
    for i := 0 to |args|
      invariant d == ReadArgs(TakeDevice, NoDevice, args[..i])
    {
      assert args[..i + 1][..i] == args[..i];
      d := TakeDevice(d, args[i]);
    }
    assert args[..|args|] == args;
  }

  lemma ReadArgsMore<S>(take: (S, Arg) -> S, none: S, args: seq<Arg>, a: Arg)
    ensures ReadArgs(take, none, args + [a]) == take(ReadArgs(take, none, args), a)
  {
    assert (args + [a])[..|args|] == args;
  }

  lemma ReadNoArgs<S>(take: (S, Arg) -> S, none: S)
    ensures ReadArgs(take, none, []) == none
  {
  }

  lemma {:induction false} MeantMore(items: seq<Item>, it: Item)
    ensures MeantAll(items + [it]) == MeantAll(items) + [Meant(it)]
    decreases |items|
  {
    hide Meant;
    if items == [] {
      assert (items + [it])[1..] == [];
    } else {
      assert (items + [it])[1..] == items[1..] + [it];
      MeantMore(items[1..], it);
    }
  }

  /** What is read from items. */
  function Understood<S>(take: (S, Arg) -> S, none: S, items: seq<Item>): S {
    ReadArgs(take, none, MeantAll(items))
  }

  lemma UnderstandNone<S>(take: (S, Arg) -> S, none: S)
    ensures Understood(take, none, []) == none
  {
  }

  lemma Understand<S>(take: (S, Arg) -> S, none: S, items: seq<Item>, it: Item) returns (more: seq<Item>)
    ensures more == items + [it]
    ensures Understood(take, none, more) == take(Understood(take, none, items), Meant(it))
  {
    more := items + [it];
    MeantMore(items, it);
    ReadArgsMore(take, none, MeantAll(items), Meant(it));
  }

  /** The types of the arguments that these lines carry. */
  lemma Kinds()
    ensures TypeOf(SC_UID) == TypeOf(SC_NAME) == TypeOf(SC_RRDNAME) == PTCHAR
    ensures TypeOf(SC_SCALE) == TypeOf(SC_DEVTYPE) == TypeOf(SC_PROTO) == TypeOf(SC_SUBTYPE) == PTINT
  {
  }

  lemma MeantInt(it: Item, n: CInt)
    requires TypeOf(it.id) == PTINT && it.text == Signed(n)
    ensures Meant(it) == Arg(it.id, Int(n))
  {
    AtoiSigned(n);
  }

  lemma MeantUnsigned(it: Item, n: CUInt)
    requires TypeOf(it.id) == PTUINT && it.text == Unsigned(n)
    ensures Meant(it) == Arg(it.id, UInt(n))
  {
    StrtoulUnsigned(n);
  }

  /** A long number means itself if it fits 64 bits; one with a fraction is passed on as it is printed. */
  lemma MeantLong(it: Item, n: int)
    requires it.text == Signed(n)
    ensures TypeOf(it.id) == PTLL ==> (Meant(it) == Arg(it.id, Long(n)) <==> -LONG_MAX - 1 <= n <= LONG_MAX)
    ensures TypeOf(it.id) == PTDOUBLE ==> Meant(it) == Arg(it.id, Double(it.text))
  {
    StrtolSigned(n);
    hide TypeOf;
  }

  function CutName(d: Device): Device {
    d.(rrdname := if d.rrdname.Some? then Some(Cut(d.rrdname.value)) else None)
  }

  lemma UnderstandText(items: seq<Item>, it: Item) returns (more: seq<Item>)
    requires TypeOf(it.id) == PTCHAR
    ensures more == items + [it]
    ensures Understood(TakeDevice, NoDevice, more)
      == TakeDevice(Understood(TakeDevice, NoDevice, items), Arg(it.id, Text(it.text)))
  {
    more := Understand(TakeDevice, NoDevice, items, it);
    MeantTextOf(it);
  }

  lemma UnderstandCode(items: seq<Item>, it: Item, n: Byte) returns (more: seq<Item>)
    requires TypeOf(it.id) == PTINT && it.text == Signed(n)
    ensures more == items + [it]
    ensures Understood(TakeDevice, NoDevice, more)
      == TakeDevice(Understood(TakeDevice, NoDevice, items), Arg(it.id, Int(n)))
  {
    more := Understand(TakeDevice, NoDevice, items, it);
    MeantInt(it, n);
  }

  lemma UnderstandNaming(d: Device)
    requires Registerable(d)
    ensures Understood(TakeDevice, NoDevice, NamingItems(d)) == NoDevice.(uid := d.uid, name := d.name)
  {
    Kinds();
    hide Understood, TypeOf;
    UnderstandNone(TakeDevice, NoDevice);
    var items := UnderstandText([], Item(SC_UID, d.uid.value, false, 1));
    items := UnderstandText(items, Item(SC_NAME, d.name.value, true, 1));
    assert items == NamingItems(d);
  }

  lemma UnderstandOptional(d: Device, before: seq<Item>) returns (items: seq<Item>)
    ensures items == before + OptionalItems(d)
    ensures var x := Understood(TakeDevice, NoDevice, before);
      x.rrdname == None && x.scale == 0 ==>
        Understood(TakeDevice, NoDevice, items) == x.(rrdname := CutName(d).rrdname, scale := d.scale)
  {
    Kinds();
    hide Understood, TypeOf, Signed;
    items := before;
    if d.rrdname.Some? {
      items := UnderstandText(items, Item(SC_RRDNAME, d.rrdname.value, false, 1));
    }
    if d.scale != 0 {
      items := UnderstandCode(items, Item(SC_SCALE, Signed(d.scale), false, 1), d.scale);
    }
  }

  lemma UnderstandCodes(d: Device, before: seq<Item>) returns (items: seq<Item>)
    ensures items == before + CodeItems(d)
    ensures Understood(TakeDevice, NoDevice, items)
      == Understood(TakeDevice, NoDevice, before).(devtype := d.devtype, proto := d.proto, subtype := d.subtype)
  {
    Kinds();
    hide Understood, TypeOf, Signed;
    items := UnderstandCode(before, Item(SC_DEVTYPE, Signed(d.devtype), false, 1), d.devtype);
    items := UnderstandCode(items, Item(SC_PROTO, Signed(d.proto), false, 1), d.proto);
    items := UnderstandCode(items, Item(SC_SUBTYPE, Signed(d.subtype), false, 0), d.subtype);
  }

  /** The items of a device mean that device, with rrdname cut. */
  lemma DeviceUnderstood(d: Device)
    requires Registerable(d)
    ensures Understood(TakeDevice, NoDevice, DeviceItems(d)) == CutName(d)
  {
    hide Understood, NamingItems, OptionalItems, CodeItems;
    UnderstandNaming(d);
    var items := UnderstandOptional(d, NamingItems(d));
    items := UnderstandCodes(d, items);
  }

  /** A value that survives without quotes around it. */
  predicate Bare(s: string) {
    Unbroken(s) && '\n' !in s
  }

  predicate Fits(it: Item) {
    if it.quoted then '\n' !in it.text else Bare(it.text)
  }

  lemma DigitsBare(n: int)
    ensures Bare(Signed(n))
    ensures n >= 0 ==> Signed(n) == Unsigned(n) && '\r' !in Unsigned(n) && '\\' !in Unsigned(n)
  {
    var s := Unsigned(if n < 0 then -n else n);
    assert forall i :: 0 <= i < |s| ==> IsDigit(s[i]);
  }

  lemma {:induction false} NoLineFeed(items: seq<Item>)
    requires forall i :: 0 <= i < |items| ==> '\n' !in items[i].text
    ensures '\n' !in LineOf(items)
    decreases |items|
  {
    hide Spelled;
    if items != [] {
      var it, more := items[0], items[1..];
      NameLetters(it.id);
      assert forall i :: 0 <= i < |more| ==> more[i] == items[i + 1];
      NoLineFeed(more);
      assert '\n' !in Spelled(it.id);
      assert '\n' !in Blanks(it.gap);
    }
  }

  lemma LineEnd(items: seq<Item>)
    requires items != [] && var it := items[|items| - 1]; !it.quoted && it.gap == 0 && '\r' !in it.text
    ensures LineOf(items) != "" && LineOf(items)[|LineOf(items)| - 1] != '\r'
  {
    hide Spelled, LineOf;
    var n := |items| - 1;
    assert items == items[..n] + [items[n]];
    LineOfMore(items[..n], items[n]);
    assert Blanks(0) == "";
  }

  lemma DeviceFits(d: Device)
    requires Registerable(d) && Bare(d.uid.value) && '\n' !in d.name.value
    requires d.rrdname.Some? ==> Bare(d.rrdname.value)
    ensures forall i :: 0 <= i < |DeviceItems(d)| ==> Fits(DeviceItems(d)[i])
    ensures forall i :: 0 <= i < |DeviceItems(d)| ==>
      !DeviceItems(d)[i].quoted || DeviceItems(d)[i].text == d.name.value
    ensures forall i :: 0 <= i < |DeviceItems(d)| - 1 ==> DeviceItems(d)[i].gap > 0
    ensures DeviceItems(d) != []
    ensures var it := DeviceItems(d)[|DeviceItems(d)| - 1]; !it.quoted && it.gap == 0 && '\r' !in it.text
  {
    hide Bare, Unsigned, Signed;
    DigitsBare(d.scale);
    DigitsBare(d.devtype);
    DigitsBare(d.proto);
    DigitsBare(d.subtype);
  }

  /** A registered device's line is received as a line, and its words are the arguments again. */
  lemma DeviceRoundTrip(d: Device, more: string)
    requires Registerable(d) && Bare(d.uid.value) && '\n' !in d.name.value && ComesBack(d.name.value)
    requires d.rrdname.Some? ==> Bare(d.rrdname.value)
    ensures var line := "reg " + LineOf(DeviceItems(d));
      && ReadLine(line + "\n" + more) == Some((line, more))
      && Words(line) != [] && Words(line)[0] == "reg"
      && ParseCommand(Words(line)) == Some(MeantAll(DeviceItems(d)))
      && ReadArgs(TakeDevice, NoDevice, ParseCommand(Words(line)).value) == CutName(d)
  {
    hide LineOf, DeviceItems, ReadArgs, Words, ParseCommand, ReadLine;
    var items := DeviceItems(d);
    var line := "reg " + LineOf(items);
    DeviceFits(d);
    NoLineFeed(items);
    LineEnd(items);
    ReadOneLine(line, more);
    CommandParses("reg", items);
    DeviceUnderstood(d);
    assert "reg" + " " + LineOf(items) == line;
  }

  // ----- names that do not come back

  lemma {:induction false} NoQuotes(items: seq<Item>)
    requires forall i :: 0 <= i < |items| ==> !items[i].quoted && '\"' !in items[i].text
    ensures '\"' !in LineOf(items)
    decreases |items|
  {
    hide Spelled;
    if items != [] {
      var it, more := items[0], items[1..];
      NameLetters(it.id);
      assert forall i :: 0 <= i < |more| ==> more[i] == items[i + 1];
      NoQuotes(more);
      assert '\"' !in Spelled(it.id) && '\"' !in Blanks(it.gap);
      assert '\"' !in it.text;
    }
  }

  lemma DeviceSpaced(d: Device)
    requires Registerable(d)
    ensures var items := DeviceItems(d); items != [] && Spaced(items)
    ensures forall i :: 0 <= i < |DeviceItems(d)| ==>
      Readable(DeviceItems(d)[i]) || TypeOf(DeviceItems(d)[i].id) == PTCHAR
    ensures AllReadable(DeviceItems(d))
      <==> Unbroken(d.uid.value) && ComesBack(d.name.value) && (d.rrdname.Some? ==> Unbroken(d.rrdname.value))
  {
    Kinds();
    DigitsBare(d.scale);
    DigitsBare(d.devtype);
    DigitsBare(d.proto);
    DigitsBare(d.subtype);
    hide Unbroken, ComesBack, Signed, Unsigned, TypeOf;
    var items := DeviceItems(d);
    assert items[0].text == d.uid.value && items[1].text == d.name.value;
    assert d.rrdname.Some? ==> items[2].text == d.rrdname.value;
  }

  /** The arguments come back exactly if the name is one that survives being quoted as it is. */
  lemma DeviceReadBack(d: Device)
    requires Registerable(d)
    ensures ParseCommand(Words("reg " + LineOf(DeviceItems(d)))) == Some(MeantAll(DeviceItems(d)))
      <==> Unbroken(d.uid.value) && ComesBack(d.name.value) && (d.rrdname.Some? ==> Unbroken(d.rrdname.value))
  {
    assert Unbroken("reg") && "reg" + " " == "reg ";
    hide LineOf, DeviceItems, Words, ParseCommand, TypeOf, Unbroken, ComesBack, AllReadable, Readable;
    DeviceSpaced(d);
    CommandExactly("reg", DeviceItems(d));
  }

  /** What comes behind the name. */
  function BehindName(d: Device): seq<Item> {
    OptionalItems(d) + CodeItems(d)
  }

  lemma DeviceParts(d: Device)
    requires Registerable(d) && Unbroken(d.uid.value) && (d.rrdname.Some? ==> Unbroken(d.rrdname.value))
    ensures var first := Item(SC_UID, d.uid.value, false, 1);
      && AllReadable([first])
      && DeviceItems(d) == [first] + ([Item(SC_NAME, d.name.value, true, 1)] + BehindName(d))
      && '\"' !in LineOf(BehindName(d))
  {
    DigitsBare(d.scale);
    DigitsBare(d.devtype);
    DigitsBare(d.proto);
    DigitsBare(d.subtype);
    hide LineOf, Unsigned, Signed;
    NoQuotes(BehindName(d));
  }

  lemma {:induction false} NameNotTaken(args: seq<Arg>, name: string)
    requires Arg(SC_NAME, Text(name)) !in args
    ensures ReadArgs(TakeDevice, NoDevice, args).name != Some(name)
    decreases |args|
  {
    if args != [] {
      var n := |args| - 1;
      NameNotTaken(args[..n], name);
      assert args[n] in args;
    }
  }

  /** In particular the name is received exactly if it survives. */
  lemma DeviceNameReceived(d: Device)
    requires Registerable(d) && Unbroken(d.uid.value) && (d.rrdname.Some? ==> Unbroken(d.rrdname.value))
    ensures var args := ParseCommand(Words("reg " + LineOf(DeviceItems(d))));
      args.Some? && (ReadArgs(TakeDevice, NoDevice, args.value).name == d.name <==> ComesBack(d.name.value))
  {
    Kinds();
    assert Unbroken("reg") && "reg" + " " == "reg ";
    hide LineOf, OptionalItems, CodeItems, ReadArgs, Words, ParseCommand, ComesBack, TypeOf, Unbroken, DeviceItems,
      Readable;
    if ComesBack(d.name.value) {
      DeviceReadBack(d);
      DeviceUnderstood(d);
    } else {
      DeviceParts(d);
      var before, bad := [Item(SC_UID, d.uid.value, false, 1)], Item(SC_NAME, d.name.value, true, 1);
      NeverGiven("reg", before, bad, BehindName(d));
      NameNotTaken(ParseCommand(Words("reg " + LineOf(DeviceItems(d)))).value, d.name.value);
    }
  }

  /** A name `x"y` takes in all that is behind it, so that nothing else is received but the uid. */
  lemma DeviceNameSwallows(d: Device, x: string, y: string)
    requires Registerable(d) && Unbroken(d.uid.value) && (d.rrdname.Some? ==> Unbroken(d.rrdname.value))
    requires d.name.value == x + "\"" + y
    requires '\"' !in x && !EndsInBackslash(x) && y != "" && Unbroken(y)
    ensures ParseCommand(Words("reg " + LineOf(DeviceItems(d))))
      == Some([Arg(SC_UID, Text(d.uid.value)), Arg(SC_NAME, Text(x + y + (Blanks(1) + LineOf(BehindName(d)))))])
  {
    Kinds();
    assert Unbroken("reg") && "reg" + " " == "reg ";
    hide LineOf, OptionalItems, CodeItems, Words, ParseCommand, TypeOf, Unbroken, DeviceItems, Readable, Blanks,
      EndsInBackslash;
    DeviceParts(d);
    var first, bad := Item(SC_UID, d.uid.value, false, 1), Item(SC_NAME, d.name.value, true, 1);
    MeantOne(first);
    RestSwallowed("reg", [first], bad, x, y, BehindName(d));
    var arg := Arg(SC_NAME, Text(x + y + (Blanks(1) + LineOf(BehindName(d)))));
    assert [Arg(SC_UID, Text(d.uid.value))] + [arg] == [Arg(SC_UID, Text(d.uid.value)), arg];
  }

  lemma MeantOne(it: Item)
    requires TypeOf(it.id) == PTCHAR
    ensures MeantAll([it]) == [Arg(it.id, Text(it.text))]
  {
    MeantTextOf(it);
    assert [it][1..] == [] && MeantAll([]) == [];
  }
}
