/** The lines by which device groups travel, and what their receiver reads from them. */
module WireGroups {
  import opened Lists
  import opened WireWords
  import opened WireNames
  import opened WireTable
  import opened WireArgs
  import opened WireItems
  import opened WireSpoilt
  import opened WireLines
  import CommaLists
  import opened GroupGraph

  // ----- groups

  function GroupItems(m: Regg): seq<Item>
    requires m.name.Some?
  {
    [Item(SC_UID, m.uid, false, 1), Item(SC_NAME, m.name.value, true, if m.grouplist.None? then 2 else 1)]
    + (if m.grouplist.Some? then [Item(SC_GROUPLIST, m.grouplist.value, false, 1)] else [])
    + (if m.devlist.Some? then [Item(SC_DEVLIST, m.devlist.value, false, 0)] else [])
  }

  function GroupLine(m: Regg): string
    requires m.name.Some?
  {
    "regg " + LineOf(GroupItems(m))
  }

  function Listed(uids: seq<string>): Option<string> {
    if uids == [] then None else Some(CommaLists.Join(uids))
  }

  function ListText(id: Sc, list: Option<string>): string {
    if list.None? then "" else Spelled(id) + ":" + list.value
  }

  function HeadText(uid: string, name: string): string {
    (Spelled(SC_UID) + ":" + uid + " ") + (Spelled(SC_NAME) + ":\"" + name + "\" ")
  }

  /** One of the two loops of gn_register_devgroup: the first uid after the argument's name, the others after commas. */
  method ListLoop(id: Sc, uids: seq<string>) returns (r: string)
    ensures r == ListText(id, Listed(uids))
  {
    hide Spelled;
    r := "";
    var first := true;
    for i := 0 to |uids|
      invariant first == (i == 0)
      invariant r == if i == 0 then "" else Spelled(id) + ":" + CommaLists.Join(uids[..i])
    {
      assert uids[..i + 1] == uids[..i] + [uids[i]];
      JoinMore(uids[..i], uids[i]);
      if first {
        r := r + (Spelled(id) + ":");
        r := r + uids[i];
        first := false;
      } else {
        r := r + ("," + uids[i]);
      }
    }
    assert uids[..|uids|] == uids;
  }

  lemma {:induction false} JoinMore(xs: seq<string>, x: string)
    ensures CommaLists.Join(xs + [x]) == if xs == [] then x else CommaLists.Join(xs) + "," + x
    decreases |xs|
  {
    if xs == [] {
      assert xs + [x] == [x];
    } else {
      assert (xs + [x])[0] == xs[0] && (xs + [x])[1..] == xs[1..] + [x];
      JoinMore(xs[1..], x);
      assert |xs| > 1 ==> CommaLists.Join(xs) == xs[0] + "," + CommaLists.Join(xs[1..]);
    }
  }

  lemma Together(a: string, b: string, c: string, d: string)
    ensures a + b + c + " " + d == a + (b + c + " " + d)
  {
    Associative(a, b, c);
    Associative(a, b + c, " ");
    Associative(a, b + c + " ", d);
  }

  /** gn_register_devgroup: what it writes, which is nothing for a group without a name. */
  method RegisterDevgroup(uid: string, name: Option<string>, children: seq<string>, members: seq<string>)
    returns (send: string)
    ensures var m := Regg(uid, name, Listed(children), Listed(members));
      send == if name.Some? then GroupLine(m) + "\n" else ""
  {
    if name.None? {
      return "";
    }
    hide HeadText, ListText, LineOf, GroupItems, Listed;
    send := "regg ";
    send := send + HeadText(uid, name.value);
    var groups := ListLoop(SC_GROUPLIST, children);
    send := send + groups;
    send := send + " ";
    var devices := ListLoop(SC_DEVLIST, members);
    send := send + devices;
    GroupText(uid, name.value, Listed(children), Listed(members));
    Together("regg ", HeadText(uid, name.value), groups, devices);
    send := send + "\n";
  }

  /** The items of a group, written out. */
  lemma GroupText(uid: string, name: string, groups: Option<string>, devices: Option<string>)
    ensures LineOf(GroupItems(Regg(uid, Some(name), groups, devices)))
      == HeadText(uid, name) + ListText(SC_GROUPLIST, groups) + " " + ListText(SC_DEVLIST, devices)
  {
    hide Spelled, LineOf;
    var first, second := Item(SC_UID, uid, false, 1), Item(SC_NAME, name, true, if groups.None? then 2 else 1);
    LineOfNone();
    LineOfMore([], first);
    LineOfMore([first], second);
    assert [] + [first] == [first] && [first] + [second] == [first, second];
    var items := [first, second];
    assert Blanks(1) == " " && Blanks(2) == "  " && Blanks(0) == "";
    var head := HeadText(uid, name);
    assert LineOf(items) == head + if groups.None? then " " else "";
    if groups.Some? {
      LineOfMore(items, Item(SC_GROUPLIST, groups.value, false, 1));
      items := items + [Item(SC_GROUPLIST, groups.value, false, 1)];
    }
    var text := head + ListText(SC_GROUPLIST, groups) + " ";
    assert LineOf(items) == text;
    if devices.Some? {
      LineOfMore(items, Item(SC_DEVLIST, devices.value, false, 0));
      items := items + [Item(SC_DEVLIST, devices.value, false, 0)];
    }
    assert items == GroupItems(Regg(uid, Some(name), groups, devices));
  }

  /** What cmd_register_group's loop has read. */
  datatype GroupArgs = GroupArgs(uid: Option<string>, name: Option<string>,
    grouplist: Option<string>, devlist: Option<string>)

  const NoGroup := GroupArgs(None, None, None, None)

  function TakeGroup(g: GroupArgs, a: Arg): GroupArgs {
    if !a.value.Text? then g
    else if a.id == SC_UID then g.(uid := Some(a.value.text))
    else if a.id == SC_NAME then g.(name := Some(a.value.text))
    else if a.id == SC_GROUPLIST then g.(grouplist := Some(a.value.text))
    else if a.id == SC_DEVLIST then g.(devlist := Some(a.value.text))
    else g
  }

  /** What it has read when it ends. */
  ghost function ReadGroup(line: string): GroupArgs {
    var args := ParseCommand(Words(line));
    if args.None? then NoGroup else ReadArgs(TakeGroup, NoGroup, args.value)
  }

  lemma GroupKinds()
    ensures TypeOf(SC_UID) == TypeOf(SC_NAME) == TypeOf(SC_GROUPLIST) == TypeOf(SC_DEVLIST) == PTCHAR
  {
  }

  lemma UnderstandGroup(items: seq<Item>, it: Item) returns (more: seq<Item>)
    requires TypeOf(it.id) == PTCHAR
    ensures more == items + [it]
    ensures Understood(TakeGroup, NoGroup, more)
      == TakeGroup(Understood(TakeGroup, NoGroup, items), Arg(it.id, Text(it.text)))
  {
    more := Understand(TakeGroup, NoGroup, items, it);
    MeantTextOf(it);
  }

  lemma UnderstandLists(m: Regg, before: seq<Item>) returns (items: seq<Item>)
    ensures items == before
      + (if m.grouplist.Some? then [Item(SC_GROUPLIST, m.grouplist.value, false, 1)] else [])
      + (if m.devlist.Some? then [Item(SC_DEVLIST, m.devlist.value, false, 0)] else [])
    ensures var g := Understood(TakeGroup, NoGroup, before);
      g.grouplist == None && g.devlist == None ==>
        Understood(TakeGroup, NoGroup, items) == g.(grouplist := m.grouplist, devlist := m.devlist)
  {
    GroupKinds();
    hide Understood, TypeOf;
    items := before;
    if m.grouplist.Some? {
      items := UnderstandGroup(items, Item(SC_GROUPLIST, m.grouplist.value, false, 1));
    }
    if m.devlist.Some? {
      items := UnderstandGroup(items, Item(SC_DEVLIST, m.devlist.value, false, 0));
    }
  }

  lemma GroupUnderstood(m: Regg)
    requires m.name.Some?
    ensures Understood(TakeGroup, NoGroup, GroupItems(m)) == GroupArgs(Some(m.uid), m.name, m.grouplist, m.devlist)
  {
    GroupKinds();
    hide Understood, TypeOf;
    UnderstandNone(TakeGroup, NoGroup);
    var items := UnderstandGroup([], Item(SC_UID, m.uid, false, 1));
    items := UnderstandGroup(items, Item(SC_NAME, m.name.value, true, if m.grouplist.None? then 2 else 1));
    items := UnderstandLists(m, items);
    assert items == GroupItems(m);
  }

  /** Values that a line carries unharmed. */
  predicate Carried(m: Regg) {
    && Bare(m.uid) && m.name.Some? && '\n' !in m.name.value && ComesBack(m.name.value)
    && (m.grouplist.Some? ==> Bare(m.grouplist.value))
    && (m.devlist.Some? ==> Bare(m.devlist.value) && '\r' !in m.devlist.value)
  }

  lemma GroupFits(m: Regg)
    requires Carried(m)
    ensures m.name.Some? && GroupItems(m) != [] && AllReadable(GroupItems(m)) && Spaced(GroupItems(m))
    ensures forall i :: 0 <= i < |GroupItems(m)| ==> Fits(GroupItems(m)[i])
  {
    hide ComesBack;
  }

  lemma GroupLineEnd(m: Regg)
    requires Carried(m)
    ensures var s := LineOf(GroupItems(m)); s != "" && s[|s| - 1] != '\r'
  {
    hide LineOf, Bare, ComesBack, Spelled;
    var items := GroupItems(m);
    var n := |items| - 1;
    if m.devlist.Some? {
      LineEnd(items);
    } else {
      assert items == items[..n] + [items[n]];
      LineOfMore(items[..n], items[n]);
      var b := Blanks(items[n].gap);
      assert b[|b| - 1] == ' ';
    }
  }

  /** A group's line, blanks and all, is received as a line and read as the group it came from. */
  lemma GroupRoundTrip(m: Regg, more: string)
    requires Carried(m)
    ensures OneLine(GroupLine(m)) && ReadLine(GroupLine(m) + "\n" + more) == Some((GroupLine(m), more))
    ensures Words(GroupLine(m)) != [] && Words(GroupLine(m))[0] == "regg"
    ensures ReadGroup(GroupLine(m)) == GroupArgs(Some(m.uid), m.name, m.grouplist, m.devlist)
  {
    assert Unbroken("regg") && "regg" + " " == "regg ";
    hide LineOf, GroupItems, ReadArgs, Words, ParseCommand, ReadLine, Carried, AllReadable, Spaced;
    GroupFits(m);
    var items := GroupItems(m);
    NoLineFeed(items);
    GroupLineEnd(m);
    ReadOneLine(GroupLine(m), more);
    CommandParses("regg", items);
    GroupUnderstood(m);
  }

  /** The uid and the lists of a group have no blanks and no quotes. */
  predicate PlainLists(m: Regg) {
    Unbroken(m.uid) && (m.grouplist.Some? ==> Unbroken(m.grouplist.value))
    && (m.devlist.Some? ==> Unbroken(m.devlist.value))
  }

  lemma GroupSpaced(m: Regg)
    requires m.name.Some?
    ensures GroupItems(m) != [] && Spaced(GroupItems(m))
    ensures forall i :: 0 <= i < |GroupItems(m)| ==> TypeOf(GroupItems(m)[i].id) == PTCHAR
    ensures AllReadable(GroupItems(m)) <==> PlainLists(m) && ComesBack(m.name.value)
  {
    GroupKinds();
    hide Unbroken, ComesBack, TypeOf;
    var items := GroupItems(m);
    assert items[0].text == m.uid && items[1].text == m.name.value;
    assert m.grouplist.Some? ==> items[2].text == m.grouplist.value;
    assert m.devlist.Some? ==> items[|items| - 1].text == m.devlist.value;
  }

  /** The arguments come back exactly if uid and lists are plain and the name survives its quotes. */
  lemma GroupReadBack(m: Regg)
    requires m.name.Some?
    ensures ParseCommand(Words(GroupLine(m))) == Some(MeantAll(GroupItems(m)))
      <==> PlainLists(m) && ComesBack(m.name.value)
  {
    assert Unbroken("regg") && "regg" + " " == "regg ";
    hide LineOf, GroupItems, Words, ParseCommand, TypeOf, PlainLists, ComesBack, AllReadable, Readable;
    GroupSpaced(m);
    CommandExactly("regg", GroupItems(m));
  }

  /** What comes behind the name. */
  function ListItems(m: Regg): seq<Item> {
    (if m.grouplist.Some? then [Item(SC_GROUPLIST, m.grouplist.value, false, 1)] else [])
    + (if m.devlist.Some? then [Item(SC_DEVLIST, m.devlist.value, false, 0)] else [])
  }

  function NameItem(m: Regg): Item
    requires m.name.Some?
  {
    Item(SC_NAME, m.name.value, true, if m.grouplist.None? then 2 else 1)
  }

  lemma GroupParts(m: Regg)
    requires m.name.Some? && PlainLists(m)
    ensures var first := Item(SC_UID, m.uid, false, 1);
      && AllReadable([first])
      && GroupItems(m) == [first] + ([NameItem(m)] + ListItems(m))
      && '\"' !in LineOf(ListItems(m))
  {
    hide LineOf;
    NoQuotes(ListItems(m));
  }

  lemma {:induction false} NameNotTaken(args: seq<Arg>, name: string)
    requires Arg(SC_NAME, Text(name)) !in args
    ensures ReadArgs(TakeGroup, NoGroup, args).name != Some(name)
    decreases |args|
  {
    if args != [] {
      var n := |args| - 1;
      NameNotTaken(args[..n], name);
      assert args[n] in args;
    }
  }

  /** The server reads the group's name, or all of the group, exactly if the name survives its quotes. */
  lemma GroupReceived(m: Regg)
    requires m.name.Some? && PlainLists(m)
    ensures ReadGroup(GroupLine(m)).name == m.name <==> ComesBack(m.name.value)
    ensures ReadGroup(GroupLine(m)) == GroupArgs(Some(m.uid), m.name, m.grouplist, m.devlist)
      <==> ComesBack(m.name.value)
  {
    GroupKinds();
    assert Unbroken("regg") && "regg" + " " == "regg ";
    hide LineOf, GroupItems, ListItems, ReadArgs, Words, ParseCommand, ComesBack, TypeOf, Unbroken, PlainLists,
      Readable;
    if ComesBack(m.name.value) {
      GroupReadBack(m);
      GroupUnderstood(m);
    } else {
      GroupParts(m);
      NeverGiven("regg", [Item(SC_UID, m.uid, false, 1)], NameItem(m), ListItems(m));
      NameNotTaken(ParseCommand(Words(GroupLine(m))).value, m.name.value);
    }
  }

  /** A name `x"y` takes in the lists behind it, so that the server sees a group without any. */
  lemma NameSwallowsLists(m: Regg, x: string, y: string)
    requires m.name.Some? && PlainLists(m) && m.name.value == x + "\"" + y
    requires '\"' !in x && !EndsInBackslash(x) && y != "" && Unbroken(y)
    ensures var name := x + y + (Blanks(NameItem(m).gap) + LineOf(ListItems(m)));
      ReadGroup(GroupLine(m)) == GroupArgs(Some(m.uid), Some(name), None, None)
  {
    GroupKinds();
    assert Unbroken("regg") && "regg" + " " == "regg ";
    hide LineOf, GroupItems, ListItems, ReadArgs, Words, ParseCommand, TypeOf, Unbroken, PlainLists, Readable, Blanks,
      EndsInBackslash;
    GroupParts(m);
    var first := Item(SC_UID, m.uid, false, 1);
    MeantOne(first);
    RestSwallowed("regg", [first], NameItem(m), x, y, ListItems(m));
    var name := x + y + (Blanks(NameItem(m).gap) + LineOf(ListItems(m)));
    var uid := Arg(SC_UID, Text(m.uid));
    ReadArgsMore(TakeGroup, NoGroup, [uid], Arg(SC_NAME, Text(name)));
    ReadArgsMore(TakeGroup, NoGroup, [], uid);
    ReadNoArgs(TakeGroup, NoGroup);
    assert [] + [uid] == [uid];
  }

  /** A uid that can also stand in a comma-separated list. */
  predicate Id(u: string) {
    Bare(u) && CommaLists.Plain(u) && '\r' !in u
  }

  lemma {:induction false} JoinBare(us: seq<string>)
    requires forall i :: 0 <= i < |us| ==> Id(us[i])
    ensures Bare(CommaLists.Join(us)) && '\r' !in CommaLists.Join(us)
    decreases |us|
  {
    if |us| > 1 {
      var more := us[1..];
      assert forall i :: 0 <= i < |more| ==> more[i] == us[i + 1];
      JoinBare(more);
      assert Id(us[0]);
    } else if |us| == 1 {
      assert Id(us[0]);
    }
  }

  /** The line of a group of a graph whose uids and names are fit for it is carried unharmed. */
  lemma GroupLineCarried(g: Graph, u: string)
    requires u in g.groups && Bare(u)
    requires var d := g.groups[u];
      && d.name.Some? && '\n' !in d.name.value && ComesBack(d.name.value)
      && (forall i :: 0 <= i < |d.children| ==> Id(d.children[i]))
      && (forall i :: 0 <= i < |d.members| ==> Id(d.members[i]))
    ensures Carried(Line(g, u))
  {
    hide CommaLists.Join, Bare, ComesBack;
    JoinBare(g.groups[u].children);
    JoinBare(g.groups[u].members);
  }
}
