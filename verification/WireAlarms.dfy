/**
 The line by which an alarm travels, from collectors to the server and from the server to its
 listeners, and what its receivers read from it.
 */
module WireAlarms {
  import opened Lists
  import opened Decimals
  import opened WireWords
  import opened WireNames
  import opened WireTable
  import opened WireArgs
  import opened WireItems
  import opened WireSpoilt
  import opened WireLines

  /** The arguments of a setalarm line. */
  datatype AlarmArgs = AlarmArgs(aluid: Option<string>, altext: Option<string>, alsev: CInt, alchan: CUInt)

  function AlarmItems(uid: string, text: Option<string>, sev: CInt, chan: CUInt): seq<Item> {
    [Item(SC_ALUID, uid, false, 1)]
    + (if text.Some? then [Item(SC_ALTEXT, text.value, true, 1)] else [])
    + [Item(SC_ALSEV, Signed(sev), false, 1), Item(SC_ALCHAN, Unsigned(chan), false, 0)]
  }

  /** What gn_setalarm writes, up to the line feed. */
  function AlarmLine(uid: string, text: Option<string>, sev: CInt, chan: CUInt): string {
    "setalarm " + LineOf(AlarmItems(uid, text, sev, chan))
  }

  /** gn_setalarm */
  method SetAlarmLine(uid: string, text: Option<string>, sev: CInt, chan: CUInt) returns (send: string)
    ensures send == AlarmLine(uid, text, sev, chan) + "\n"
  {
    LineOfNone();
    hide LineOf, Signed, Unsigned;
    ghost var cmd, items := "setalarm ", [];
    send := "setalarm ";
    send, items := Add(send, cmd, items, Item(SC_ALUID, uid, false, 1));
    if text.Some? {
      send, items := Add(send, cmd, items, Item(SC_ALTEXT, text.value, true, 1));
    }
    send, items := Add(send, cmd, items, Item(SC_ALSEV, Signed(sev), false, 1));
    send, items := Add(send, cmd, items, Item(SC_ALCHAN, Unsigned(chan), false, 0));
    assert items == AlarmItems(uid, text, sev, chan);
    send := send + "\n";
  }

  /** What cmd_setalarm starts from: no uid, no text, severity -1 and the generic channel. */
  const Unset := AlarmArgs(None, None, -1, 1)

  /** What cmd_alarm, by which a client takes the same line, starts from. */
  const Cleared := AlarmArgs(None, None, 0, 1)

  function TakeAlarm(m: AlarmArgs, a: Arg): AlarmArgs {
    match a.value
    case Text(t) =>
      if a.id == SC_ALUID then m.(aluid := Some(t)) else if a.id == SC_ALTEXT then m.(altext := Some(t)) else m
    case Int(n) => if a.id == SC_ALSEV then m.(alsev := n) else m
    case UInt(n) => if a.id == SC_ALCHAN then m.(alchan := n) else m
    case _ => m
  }

  /** What the loops of these commands have read when they end. */
  ghost function ReadAlarm(none: AlarmArgs, line: string): AlarmArgs {
    var args := ParseCommand(Words(line));
    if args.None? then none else ReadArgs(TakeAlarm, none, args.value)
  }

  /** The set of channels that a number stands for, and the number printed for a set. */
  function Channels(n: CUInt): bv32 {
    n as bv32
  }

  function ChannelNumber(c: bv32): CUInt {
    c as nat
  }

  lemma ChannelsBack(c: bv32)
    ensures Channels(ChannelNumber(c)) == c
  {
  }

  lemma AlarmKinds()
    ensures TypeOf(SC_ALUID) == TypeOf(SC_ALTEXT) == PTCHAR && TypeOf(SC_ALSEV) == PTINT && TypeOf(SC_ALCHAN) == PTUINT
  {
  }

  lemma AlarmUnderstood(none: AlarmArgs, uid: string, text: Option<string>, sev: CInt, chan: CUInt)
    requires none.altext.None?
    ensures Understood(TakeAlarm, none, AlarmItems(uid, text, sev, chan)) == AlarmArgs(Some(uid), text, sev, chan)
  {
    hide Understood, Signed, Unsigned;
    var items := UnderstandNames(none, uid, text);
    items := UnderstandNumbers(none, items, sev, chan);
    assert items == AlarmItems(uid, text, sev, chan);
  }

  lemma UnderstandNames(none: AlarmArgs, uid: string, text: Option<string>) returns (items: seq<Item>)
    requires none.altext.None?
    ensures items == [Item(SC_ALUID, uid, false, 1)] + if text.Some? then [Item(SC_ALTEXT, text.value, true, 1)] else []
    ensures Understood(TakeAlarm, none, items) == none.(aluid := Some(uid), altext := text)
  {
    AlarmKinds();
    hide Understood, Meant, TypeOf;
    UnderstandNone(TakeAlarm, none);
    items := Understand(TakeAlarm, none, [], Item(SC_ALUID, uid, false, 1));
    MeantTextOf(Item(SC_ALUID, uid, false, 1));
    if text.Some? {
      items := Understand(TakeAlarm, none, items, Item(SC_ALTEXT, text.value, true, 1));
      MeantTextOf(Item(SC_ALTEXT, text.value, true, 1));
    }
  }

  lemma UnderstandNumbers(none: AlarmArgs, before: seq<Item>, sev: CInt, chan: CUInt) returns (items: seq<Item>)
    ensures items == before + [Item(SC_ALSEV, Signed(sev), false, 1), Item(SC_ALCHAN, Unsigned(chan), false, 0)]
    ensures Understood(TakeAlarm, none, items)
      == Understood(TakeAlarm, none, before).(alsev := sev, alchan := chan)
  {
    AlarmKinds();
    hide Understood, Meant, TypeOf, Signed, Unsigned;
    items := Understand(TakeAlarm, none, before, Item(SC_ALSEV, Signed(sev), false, 1));
    MeantInt(Item(SC_ALSEV, Signed(sev), false, 1), sev);
    items := Understand(TakeAlarm, none, items, Item(SC_ALCHAN, Unsigned(chan), false, 0));
    MeantUnsigned(Item(SC_ALCHAN, Unsigned(chan), false, 0), chan);
  }

  lemma AlarmSpaced(uid: string, text: Option<string>, sev: CInt, chan: CUInt)
    ensures var items := AlarmItems(uid, text, sev, chan);
      && items != [] && Spaced(items)
      && (forall i :: 0 <= i < |items| ==> Readable(items[i]) || TypeOf(items[i].id) == PTCHAR)
      && (AllReadable(items) <==> Unbroken(uid) && (text.Some? ==> ComesBack(text.value)))
      && items[|items| - 1] == Item(SC_ALCHAN, Unsigned(chan), false, 0)
  {
    AlarmKinds();
    DigitsBare(sev);
    DigitsBare(chan);
    hide ComesBack, Signed, Unsigned, Unbroken, TypeOf;
    var items := AlarmItems(uid, text, sev, chan);
    assert items[0].text == uid && (text.Some? ==> items[1].text == text.value);
  }

  /** The arguments come back exactly if the uid has no blank and no quote and the text survives its quotes. */
  lemma AlarmReadBack(uid: string, text: Option<string>, sev: CInt, chan: CUInt)
    ensures ParseCommand(Words(AlarmLine(uid, text, sev, chan))) == Some(MeantAll(AlarmItems(uid, text, sev, chan)))
      <==> Unbroken(uid) && (text.Some? ==> ComesBack(text.value))
  {
    assert Unbroken("setalarm") && "setalarm" + " " == "setalarm ";
    hide LineOf, AlarmItems, Words, ParseCommand, TypeOf, ComesBack, Unbroken, AllReadable, Readable;
    AlarmSpaced(uid, text, sev, chan);
    CommandExactly("setalarm", AlarmItems(uid, text, sev, chan));
  }

  /** An alarm's line is received as one line if no line feed is in it. */
  lemma AlarmArrives(uid: string, text: Option<string>, sev: CInt, chan: CUInt, more: string)
    requires '\n' !in uid && (text.Some? ==> '\n' !in text.value)
    ensures var line := AlarmLine(uid, text, sev, chan);
      OneLine(line) && ReadLine(line + "\n" + more) == Some((line, more))
  {
    hide LineOf, AlarmItems, ReadLine;
    AlarmFeeds(uid, text, sev, chan);
    LineEnd(AlarmItems(uid, text, sev, chan));
    ReadOneLine(AlarmLine(uid, text, sev, chan), more);
  }

  lemma AlarmFeeds(uid: string, text: Option<string>, sev: CInt, chan: CUInt)
    requires '\n' !in uid && (text.Some? ==> '\n' !in text.value)
    ensures '\n' !in LineOf(AlarmItems(uid, text, sev, chan)) && '\r' !in Unsigned(chan)
    ensures var items := AlarmItems(uid, text, sev, chan);
      items != [] && items[|items| - 1] == Item(SC_ALCHAN, Unsigned(chan), false, 0)
  {
    DigitsBare(sev);
    DigitsBare(chan);
    hide LineOf, Signed, Unsigned;
    NoLineFeed(AlarmItems(uid, text, sev, chan));
  }

  /** An alarm's line is read as that alarm. */
  lemma AlarmRoundTrip(none: AlarmArgs, uid: string, text: Option<string>, sev: CInt, chan: CUInt)
    requires none.altext.None? && Unbroken(uid) && (text.Some? ==> ComesBack(text.value))
    ensures ReadAlarm(none, AlarmLine(uid, text, sev, chan)) == AlarmArgs(Some(uid), text, sev, chan)
  {
    hide LineOf, AlarmItems, ReadArgs, Words, ParseCommand, AlarmLine, Unbroken, ComesBack;
    AlarmReadBack(uid, text, sev, chan);
    AlarmUnderstood(none, uid, text, sev, chan);
  }

  /** Uids and texts that a line carries. */
  predicate UidCarried(uid: string) {
    Bare(uid)
  }

  predicate TextCarried(text: string) {
    '\n' !in text && ComesBack(text)
  }

  lemma NoText()
    ensures TextCarried("")
  {
  }

  /** What comes behind the text. */
  function NumberItems(sev: CInt, chan: CUInt): seq<Item> {
    [Item(SC_ALSEV, Signed(sev), false, 1), Item(SC_ALCHAN, Unsigned(chan), false, 0)]
  }

  lemma AlarmParts(uid: string, text: string, sev: CInt, chan: CUInt)
    requires Unbroken(uid)
    ensures var first := Item(SC_ALUID, uid, false, 1);
      && AllReadable([first])
      && AlarmItems(uid, Some(text), sev, chan)
           == [first] + ([Item(SC_ALTEXT, text, true, 1)] + NumberItems(sev, chan))
      && '\"' !in LineOf(NumberItems(sev, chan))
  {
    DigitsBare(sev);
    DigitsBare(chan);
    hide LineOf, Unsigned, Signed;
    NoQuotes(NumberItems(sev, chan));
  }

  lemma {:induction false} TextNotTaken(none: AlarmArgs, args: seq<Arg>, text: string)
    requires none.altext.None? && Arg(SC_ALTEXT, Text(text)) !in args
    ensures ReadArgs(TakeAlarm, none, args).altext != Some(text)
    decreases |args|
  {
    if args != [] {
      var n := |args| - 1;
      TextNotTaken(none, args[..n], text);
      assert args[n] in args;
    }
  }

  /** A receiver reads the alarm's text, or all of the alarm, exactly if the text survives its quotes. */
  lemma AlarmReceived(none: AlarmArgs, uid: string, text: string, sev: CInt, chan: CUInt)
    requires none.altext.None? && Unbroken(uid)
    ensures var a := ReadAlarm(none, AlarmLine(uid, Some(text), sev, chan));
      && (a.altext == Some(text) <==> ComesBack(text))
      && (a == AlarmArgs(Some(uid), Some(text), sev, chan) <==> ComesBack(text))
  {
    AlarmKinds();
    assert Unbroken("setalarm") && "setalarm" + " " == "setalarm ";
    hide LineOf, AlarmItems, NumberItems, ReadArgs, Words, ParseCommand, ComesBack, TypeOf, Unbroken, Readable;
    if ComesBack(text) {
      AlarmRoundTrip(none, uid, Some(text), sev, chan);
    } else {
      AlarmParts(uid, text, sev, chan);
      var before, bad := [Item(SC_ALUID, uid, false, 1)], Item(SC_ALTEXT, text, true, 1);
      NeverGiven("setalarm", before, bad, NumberItems(sev, chan));
      TextNotTaken(none, ParseCommand(Words(AlarmLine(uid, Some(text), sev, chan))).value, text);
    }
  }

  /** A text `x"y` takes in severity and channels, for which the receiver keeps what it started from. */
  lemma TextSwallowsNumbers(none: AlarmArgs, uid: string, x: string, y: string, sev: CInt, chan: CUInt)
    requires Unbroken(uid) && '\"' !in x && !EndsInBackslash(x) && y != "" && Unbroken(y)
    ensures var text := x + y + (Blanks(1) + LineOf(NumberItems(sev, chan)));
      ReadAlarm(none, AlarmLine(uid, Some(x + "\"" + y), sev, chan))
        == none.(aluid := Some(uid), altext := Some(text))
  {
    AlarmKinds();
    assert Unbroken("setalarm") && "setalarm" + " " == "setalarm ";
    hide LineOf, AlarmItems, NumberItems, ReadArgs, Words, ParseCommand, TypeOf, Unbroken, Readable, Blanks,
      EndsInBackslash;
    AlarmParts(uid, x + "\"" + y, sev, chan);
    var first, bad := Item(SC_ALUID, uid, false, 1), Item(SC_ALTEXT, x + "\"" + y, true, 1);
    MeantOne(first);
    RestSwallowed("setalarm", [first], bad, x, y, NumberItems(sev, chan));
    var text := x + y + (Blanks(1) + LineOf(NumberItems(sev, chan)));
    var uidArg := Arg(SC_ALUID, Text(uid));
    ReadArgsMore(TakeAlarm, none, [uidArg], Arg(SC_ALTEXT, Text(text)));
    ReadArgsMore(TakeAlarm, none, [], uidArg);
    ReadNoArgs(TakeAlarm, none);
    assert [] + [uidArg] == [uidArg];
  }
}
