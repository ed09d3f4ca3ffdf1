/**
 The server's side of the transfer: cmd_register_group, and the proof that the lines of a save action
 rebuild the graph.
 */
module GroupReplay {
  import opened Lists
  import opened CommaLists
  import opened GroupGraph
  import opened WireWords
  import opened WireNames
  import opened WireItems
  import opened WireLines
  import opened WireGroups
  import opened GroupEditor

  function SetGroup(g: Graph, u: string, d: Group): Graph {
    g.(groups := g.groups[u := d])
  }

  /** add_group_group: `p` becomes a child of `u`. */
  function AddChild(g: Graph, u: string, p: string): (r: Graph)
    requires u in g.groups && p in g.groups
    ensures r.groups.Keys == g.groups.Keys && r.all == g.all
  {
    var h := SetGroup(g, u, g.groups[u].(children := g.groups[u].children + [p]));
    SetGroup(h, p, h.groups[p].(subgroup := h.groups[p].subgroup + 1))
  }

  /** remove_group_group */
  function RemoveChild(g: Graph, u: string, p: string): (r: Graph)
    requires u in g.groups
    ensures r.groups.Keys == g.groups.Keys && r.all == g.all
  {
    if p !in g.groups[u].children then g
    else
      var h := SetGroup(g, u, g.groups[u].(children := RemoveFirst(g.groups[u].children, p)));
      if p in h.groups then SetGroup(h, p, h.groups[p].(subgroup := h.groups[p].subgroup - 1)) else h
  }

  function RemoveFirst(s: seq<string>, x: string): seq<string> {
    if s == [] then [] else if s[0] == x then s[1..] else [s[0]] + RemoveFirst(s[1..], x)
  }

  /** The groups of the list are made children, those that exist and are none yet. */
  function AddGroups(g: Graph, u: string, ps: seq<string>): (r: Graph)
    requires u in g.groups
    ensures r.groups.Keys == g.groups.Keys && r.all == g.all
    decreases |ps|
  {
    if ps == [] then g
    else
      var h := if ps[0] in g.groups && ps[0] !in g.groups[u].children then AddChild(g, u, ps[0]) else g;
      AddGroups(h, u, ps[1..])
  }

  /** Children that no longer belong are removed; `kids` is the list of children beforehand. */
  function DropGroups(g: Graph, u: string, kids: seq<string>, keep: seq<string>): (r: Graph)
    requires u in g.groups
    ensures r.groups.Keys == g.groups.Keys && r.all == g.all
    decreases |kids|
  {
    if kids == [] then g
    else DropGroups(if kids[0] in keep then g else RemoveChild(g, u, kids[0]), u, kids[1..], keep)
  }

  function AddMembers(members: seq<string>, devices: set<string>, ps: seq<string>): seq<string>
    decreases |ps|
  {
    if ps == [] then members
    else AddMembers(if ps[0] in devices && ps[0] !in members then members + [ps[0]] else members, devices, ps[1..])
  }

  function DropMembers(members: seq<string>, was: seq<string>, keep: seq<string>): seq<string>
    decreases |was|
  {
    if was == [] then members
    else DropMembers(if was[0] in keep then members else RemoveFirst(members, was[0]), was[1..], keep)
  }

  predicate Accepted(g: Graph, m: Regg) {
    m.uid in g.groups || m.name.Some?
  }

  /** The group the command is about, made if need be. */
  function Entered(g: Graph, m: Regg): (r: Graph)
    requires Accepted(g, m)
    ensures m.uid in r.groups
  {
    var h := if m.uid in g.groups then g else Graph(g.groups[m.uid := Group(None, [], [], 0)], g.all + [m.uid]);
    if m.name.Some? then SetGroup(h, m.uid, h.groups[m.uid].(name := m.name)) else h
  }

  function Regrouped(g: Graph, u: string, ps: seq<string>): (r: Graph)
    requires u in g.groups
    ensures u in r.groups
  {
    var h := AddGroups(g, u, ps);
    DropGroups(h, u, h.groups[u].children, ps)
  }

  function Remembered(g: Graph, devices: set<string>, u: string, ps: seq<string>): Graph
    requires u in g.groups
  {
    var ms := AddMembers(g.groups[u].members, devices, ps);
    SetGroup(g, u, g.groups[u].(members := DropMembers(ms, ms, ps)))
  }

  /** cmd_register_group, on a server that knows the devices `devices`. */
  function Register(g: Graph, devices: set<string>, m: Regg): Graph {
    if !Accepted(g, m) then g
    else
      var g1 := Entered(g, m);
      var g2 := if m.grouplist.None? then g1 else Regrouped(g1, m.uid, Strtok(m.grouplist.value));
      if m.devlist.None? then g2 else Remembered(g2, devices, m.uid, Strtok(m.devlist.value))
  }

  /** A line as it is received: its arguments are read, and without a uid nothing happens. */
  ghost function RegisterLine(g: Graph, devices: set<string>, line: string): Graph {
    var a := ReadGroup(line);
    if a.uid.None? then g else Register(g, devices, Regg(a.uid.value, a.name, a.grouplist, a.devlist))
  }

  ghost function Replay(g: Graph, devices: set<string>, lines: seq<string>): Graph
    decreases |lines|
  {
    if lines == [] then g else RegisterLine(Replay(g, devices, lines[..|lines| - 1]), devices, lines[|lines| - 1])
  }

  /** The server's group table; the handler works through its two lists link by link. */
  class GroupServer {
    const devices: set<string>
    var g: Graph

    constructor (devices: set<string>)
      ensures this.devices == devices && g == NoGroups
    {
      this.devices := devices;
      g := NoGroups;
    }

    method CmdRegisterGroup(m: Regg) returns (r: int)
      modifies this
      ensures g == Register(old(g), devices, m)
      ensures r == if Accepted(old(g), m) then 0 else -1
    {
      if m.uid !in g.groups {
        if m.name.None? {
          return -1;
        }
        g := Graph(g.groups[m.uid := Group(None, [], [], 0)], g.all + [m.uid]);
      }
      if m.name.Some? {
        g := SetGroup(g, m.uid, g.groups[m.uid].(name := m.name));
      }
      if m.grouplist.Some? {
        var ps := StrtokLoop(m.grouplist.value);
        LinkGroups(m.uid, ps);
      }
      if m.devlist.Some? {
        var ps := StrtokLoop(m.devlist.value);
        LinkDevices(m.uid, ps);
      }
      return 0;
    }

    method LinkGroups(u: string, ps: seq<string>)
      requires u in g.groups
      modifies this
      ensures g == Regrouped(old(g), u, ps)
    {
      var i := 0;
      while i < |ps|
        invariant 0 <= i <= |ps| && u in g.groups
        invariant AddGroups(g, u, ps[i..]) == AddGroups(old(g), u, ps)
      {
        assert ps[i..][1..] == ps[i + 1..];
        if ps[i] in g.groups && ps[i] !in g.groups[u].children {
          g := AddChild(g, u, ps[i]);
        }
        i := i + 1;
      }
      assert ps[i..] == [];
      var kids := g.groups[u].children;
      i := 0;
      while i < |kids|
        invariant 0 <= i <= |kids| && u in g.groups
        invariant DropGroups(g, u, kids[i..], ps) == Regrouped(old(g), u, ps)
      {
        assert kids[i..][1..] == kids[i + 1..];
        if kids[i] !in ps {
          g := RemoveChild(g, u, kids[i]);
        }
        i := i + 1;
      }
    }

    method LinkDevices(u: string, ps: seq<string>)
      requires u in g.groups
      modifies this
      ensures g == Remembered(old(g), devices, u, ps)
    {
      var ms, i := g.groups[u].members, 0;
      while i < |ps|
        invariant 0 <= i <= |ps|
        invariant AddMembers(ms, devices, ps[i..]) == AddMembers(g.groups[u].members, devices, ps)
      {
        assert ps[i..][1..] == ps[i + 1..];
        if ps[i] in devices && ps[i] !in ms {
          ms := ms + [ps[i]];
        }
        i := i + 1;
      }
      assert ps[i..] == [];
      var was := ms;
      i := 0;
      while i < |was|
        invariant 0 <= i <= |was|
        invariant DropMembers(ms, was[i..], ps) == DropMembers(was, was, ps)
      {
        assert was[i..][1..] == was[i + 1..];
        if was[i] !in ps {
          ms := RemoveFirst(ms, was[i]);
        }
        i := i + 1;
      }
      g := SetGroup(g, u, g.groups[u].(members := ms));
    }
  }

  // ----- replaying a save

  /** The lists of a group can be read back: plain uids of known devices, nothing twice. */
  predicate ListsSendable(d: Group, devices: set<string>) {
    && Distinct(d.children) && (forall i :: 0 <= i < |d.children| ==> Id(d.children[i]))
    && Distinct(d.members) && (forall i :: 0 <= i < |d.members| ==> Id(d.members[i]) && d.members[i] in devices)
  }

  /** A name that its line carries. */
  predicate NameSendable(name: Option<string>) {
    name.Some? && '\n' !in name.value && ComesBack(name.value)
  }

  /** A graph whose lines can be read back. */
  predicate Sendable(g: Graph, devices: set<string>) {
    forall u :: u in g.groups ==> Bare(u) && NameSendable(g.groups[u].name) && ListsSendable(g.groups[u], devices)
  }

  /** The groups among `us` that have `k` as a child. */
  function ParentsAmong(g: Graph, us: seq<string>, k: string): set<string>
  {
    set u | u in us && u in g.groups && k in g.groups[u].children
  }

  /** Group `u` on the server after the lines of the groups `us`. */
  predicate SameGroup(g: Graph, us: seq<string>, h: Graph, u: string) {
    && u in g.groups && u in h.groups
    && h.groups[u] == g.groups[u].(subgroup := |ParentsAmong(g, us, u)|)
  }

  ghost predicate Rebuilt(g: Graph, us: seq<string>, h: Graph) {
    && h.all == us
    && (forall u :: u in us <==> u in h.groups)
    && (forall u :: u in us ==> SameGroup(g, us, h, u))
  }

  /** A fresh group gets exactly the listed children, in order, and each of them one parent more. */
  lemma {:induction false} AddGroupsFresh(g: Graph, u: string, ps: seq<string>, n: nat, h: Graph)
    requires n <= |ps| && Distinct(ps) && u in g.groups && u !in ps && u in h.groups
    requires forall p :: p in ps ==> p in g.groups
    requires h.groups.Keys == g.groups.Keys && h.all == g.all
    requires h.groups[u] == g.groups[u].(children := ps[..n])
    requires forall v :: v in g.groups && v != u ==>
      h.groups[v] == g.groups[v].(subgroup := g.groups[v].subgroup + if v in ps[..n] then 1 else 0)
    ensures var r := AddGroups(h, u, ps[n..]);
      && r.groups[u] == g.groups[u].(children := ps)
      && forall v :: v in g.groups && v != u ==>
           r.groups[v] == g.groups[v].(subgroup := g.groups[v].subgroup + if v in ps then 1 else 0)
    decreases |ps| - n
  {
    if n == |ps| {
      assert ps[..n] == ps;
    } else {
      var p := ps[n];
      assert p in ps && p !in ps[..n];
      assert ps[..n + 1] == ps[..n] + [p] && ps[n..][0] == p && ps[n..][1..] == ps[n + 1..];
      AddGroupsFresh(g, u, ps, n + 1, AddChild(h, u, p));
    }
  }

  lemma {:induction false} NothingDropped(g: Graph, u: string, kids: seq<string>, keep: seq<string>)
    requires u in g.groups && forall k :: k in kids ==> k in keep
    ensures DropGroups(g, u, kids, keep) == g
    decreases |kids|
  {
    if kids != [] {
      NothingDropped(g, u, kids[1..], keep);
    }
  }

  lemma {:induction false} AllMembersAdded(devices: set<string>, ps: seq<string>, n: nat)
    requires n <= |ps| && Distinct(ps) && forall p :: p in ps ==> p in devices
    ensures AddMembers(ps[..n], devices, ps[n..]) == ps
    decreases |ps| - n
  {
    if n == |ps| {
      assert ps[..n] == ps;
    } else {
      assert ps[n] in ps && ps[n] !in ps[..n];
      assert ps[..n + 1] == ps[..n] + [ps[n]] && ps[n..][0] == ps[n] && ps[n..][1..] == ps[n + 1..];
      AllMembersAdded(devices, ps, n + 1);
    }
  }

  lemma {:induction false} NoMemberDropped(members: seq<string>, was: seq<string>, keep: seq<string>)
    requires forall k :: k in was ==> k in keep
    ensures DropMembers(members, was, keep) == members
    decreases |was|
  {
    if was != [] {
      NoMemberDropped(members, was[1..], keep);
    }
  }

  /** What a group's arguments make of a server that has its children and devices but not the group. */
  lemma RegisterFresh(g: Graph, devices: set<string>, u: string, h: Graph)
    requires u in g.groups && u !in h.groups && g.groups[u].name.Some? && ListsSendable(g.groups[u], devices)
    requires u !in g.groups[u].children && forall k :: k in g.groups[u].children ==> k in h.groups
    ensures Fresh(g, u, h, Register(h, devices, Line(g, u)))
  {
    hide Strtok, Join, AddMembers, DropMembers, AddGroups, DropGroups, Bare;
    var d, m := g.groups[u], Line(g, u);
    var h1 := Entered(h, m);
    assert h1.groups[u] == Group(d.name, [], [], 0);
    AllPlain(d.children);
    AllPlain(d.members);
    StrtokJoin(d.children);
    StrtokJoin(d.members);
    var h2 := if m.grouplist.None? then h1 else Regrouped(h1, u, Strtok(m.grouplist.value));
    assert d.children[..0] == [] && d.children[0..] == d.children;
    AddGroupsFresh(h1, u, d.children, 0, h1);
    NothingDropped(AddGroups(h1, u, d.children), u, d.children, d.children);
    assert d.members[..0] == [] && d.members[0..] == d.members;
    AllMembersAdded(devices, d.members, 0);
    NoMemberDropped(d.members, d.members, d.members);
  }

  lemma AllPlain(us: seq<string>)
    requires forall i :: 0 <= i < |us| ==> Id(us[i])
    ensures forall u :: u in us ==> Plain(u)
  {
    hide Bare;
  }

  /** Server `h` with group `u` made: its children have one parent more. */
  predicate Fresh(g: Graph, u: string, h: Graph, r: Graph)
    requires u in g.groups
  {
    var d := g.groups[u];
    && r.groups.Keys == h.groups.Keys + {u} && r.all == h.all + [u]
    && r.groups[u] == Group(d.name, d.children, d.members, 0)
    && forall v :: v in h.groups && v != u ==>
         r.groups[v] == h.groups[v].(subgroup := h.groups[v].subgroup + if v in d.children then 1 else 0)
  }

  /** The same for the line as it is received: it makes that group exactly if the name comes back. */
  lemma LineMakesGroup(g: Graph, devices: set<string>, u: string, h: Graph)
    requires u in g.groups && u !in h.groups && Bare(u) && g.groups[u].name.Some?
    requires ListsSendable(g.groups[u], devices)
    requires u !in g.groups[u].children && forall k :: k in g.groups[u].children ==> k in h.groups
    ensures Fresh(g, u, h, RegisterLine(h, devices, GroupLine(Line(g, u)))) <==> ComesBack(g.groups[u].name.value)
  {
    var m := Line(g, u);
    PlainLine(g, devices, u);
    GroupReceived(m);
    hide Register, ComesBack, ReadGroup, GroupLine, Bare, ListsSendable, PlainLists;
    if ComesBack(m.name.value) {
      RegisterFresh(g, devices, u, h);
    } else {
      OtherName(g, devices, u, h, ReadGroup(GroupLine(m)));
    }
  }

  lemma PlainLine(g: Graph, devices: set<string>, u: string)
    requires u in g.groups && Bare(u) && g.groups[u].name.Some? && ListsSendable(g.groups[u], devices)
    ensures PlainLists(Line(g, u))
  {
    hide Join, Distinct;
    JoinBare(g.groups[u].children);
    JoinBare(g.groups[u].members);
  }

  /** Arguments without the name do not make the group. */
  lemma OtherName(g: Graph, devices: set<string>, u: string, h: Graph, a: GroupArgs)
    requires u in g.groups && u !in h.groups && g.groups[u].name.Some? && a.name != g.groups[u].name
    ensures !Fresh(g, u, h,
      if a.uid.None? then h else Register(h, devices, Regg(a.uid.value, a.name, a.grouplist, a.devlist)))
  {
    if a.uid.Some? {
      var m := Regg(a.uid.value, a.name, a.grouplist, a.devlist);
      RegisterName(h, devices, m);
    }
  }

  /** A command makes no other group than its own; that one is named as it says, or keeps its name. */
  lemma RegisterName(h: Graph, devices: set<string>, m: Regg)
    ensures var r := Register(h, devices, m);
      && (forall v :: v in r.groups <==> v in h.groups || (v == m.uid && m.name.Some?))
      && (m.uid in r.groups ==>
            r.groups[m.uid].name == if m.name.None? then h.groups[m.uid].name else m.name)
  {
    hide Strtok, AddMembers, DropMembers;
    if Accepted(h, m) {
      var h1 := Entered(h, m);
      if m.grouplist.Some? {
        var ps := Strtok(m.grouplist.value);
        AddGroupsName(h1, m.uid, ps);
        var h2 := AddGroups(h1, m.uid, ps);
        DropGroupsName(h2, m.uid, h2.groups[m.uid].children, ps);
      }
    }
  }

  lemma {:induction false} AddGroupsName(g: Graph, u: string, ps: seq<string>)
    requires u in g.groups
    ensures AddGroups(g, u, ps).groups[u].name == g.groups[u].name
    decreases |ps|
  {
    if ps != [] {
      var more := ps[0] in g.groups && ps[0] !in g.groups[u].children;
      AddGroupsName(if more then AddChild(g, u, ps[0]) else g, u, ps[1..]);
    }
  }

  lemma {:induction false} DropGroupsName(g: Graph, u: string, kids: seq<string>, keep: seq<string>)
    requires u in g.groups
    ensures DropGroups(g, u, kids, keep).groups[u].name == g.groups[u].name
    decreases |kids|
  {
    if kids != [] {
      DropGroupsName(if kids[0] in keep then g else RemoveChild(g, u, kids[0]), u, kids[1..], keep);
    }
  }

  /** For a name `x"y` the server makes a group of that uid without children and members. */
  lemma QuoteLosesLists(g: Graph, devices: set<string>, u: string, h: Graph, x: string, y: string)
    requires u in g.groups && u !in h.groups && Bare(u) && ListsSendable(g.groups[u], devices)
    requires g.groups[u].name == Some(x + "\"" + y)
    requires '\"' !in x && !EndsInBackslash(x) && y != "" && Unbroken(y)
    ensures var r, m := RegisterLine(h, devices, GroupLine(Line(g, u))), Line(g, u);
      var name := x + y + (Blanks(NameItem(m).gap) + LineOf(ListItems(m)));
      r == Graph(h.groups[u := Group(Some(name), [], [], 0)], h.all + [u])
  {
    PlainLine(g, devices, u);
    hide ReadGroup, GroupLine, Bare, ListsSendable, PlainLists, Blanks, LineOf, ListItems, Unbroken, EndsInBackslash;
    NameSwallowsLists(Line(g, u), x, y);
  }

  lemma OneMoreParent(g: Graph, us: seq<string>, u: string, k: string)
    requires u in g.groups && u !in us
    ensures |ParentsAmong(g, us + [u], k)| == |ParentsAmong(g, us, k)| + if k in g.groups[u].children then 1 else 0
  {
    var a, b := ParentsAmong(g, us, k), ParentsAmong(g, us + [u], k);
    assert b == if k in g.groups[u].children then a + {u} else a;
  }

  lemma SameGroupMore(g: Graph, us: seq<string>, u: string, h: Graph, r: Graph, v: string)
    requires u in g.groups && u !in us && ParentsAmong(g, us, u) == {} && u !in g.groups[u].children
    requires v == u || (v in h.groups && SameGroup(g, us, h, v))
    requires v in r.groups
    requires r.groups[v] == if v == u then g.groups[u].(subgroup := 0)
      else h.groups[v].(subgroup := h.groups[v].subgroup + if v in g.groups[u].children then 1 else 0)
    ensures SameGroup(g, us + [u], r, v)
  {
    OneMoreParent(g, us, u, v);
    hide ParentsAmong;
  }

  lemma RebuiltOneMore(g: Graph, devices: set<string>, us: seq<string>, u: string, h: Graph)
    requires u in g.groups && Sendable(g, devices) && Rebuilt(g, us, h) && ChildrenFirst(g, us + [u])
    ensures g.groups[u].name.Some? && Rebuilt(g, us + [u], RegisterLine(h, devices, GroupLine(Line(g, u))))
  {
    var vs, r := us + [u], RegisterLine(h, devices, GroupLine(Line(g, u)));
    LastOfChildrenFirst(g, us, u);
    LineMakesGroup(g, devices, u, h);
    NoParentYet(g, us, u);
    hide RegisterLine, GroupLine, Line, Sendable, ChildrenFirst, SameGroup, ParentsAmong;
    forall v | v in vs ensures SameGroup(g, vs, r, v) {
      SameGroupMore(g, us, u, h, r, v);
    }
  }

  lemma LastOfChildrenFirst(g: Graph, us: seq<string>, u: string)
    requires ChildrenFirst(g, us + [u])
    ensures ChildrenFirst(g, us) && u !in us && u in g.groups
    ensures u !in g.groups[u].children && forall k :: k in g.groups[u].children ==> k in us
  {
    var vs := us + [u];
    assert vs[|us|] == u && vs[..|us|] == us;
    forall i | 0 <= i < |us| ensures us[i] in g.groups && forall k :: k in g.groups[us[i]].children ==> k in us[..i] {
      assert vs[i] == us[i] && vs[..i] == us[..i];
    }
    assert forall i :: 0 <= i < |us| ==> vs[i] != vs[|us|];
  }

  lemma NoParentYet(g: Graph, us: seq<string>, u: string)
    requires ChildrenFirst(g, us) && u !in us
    ensures ParentsAmong(g, us, u) == {}
  {
    forall v | v in us ensures u !in g.groups[v].children {
      var i :| 0 <= i < |us| && us[i] == v;
      assert forall k :: k in g.groups[us[i]].children ==> k in us[..i];
    }
  }

  /** Lines that come children first rebuild the groups they are about. */
  lemma {:induction false} ReplayRebuilds(g: Graph, devices: set<string>, us: seq<string>)
    requires Sendable(g, devices) && ChildrenFirst(g, us) && forall u :: u in us ==> u in g.groups
    ensures Rebuilt(g, us, Replay(NoGroups, devices, SavedLines(g, us)))
    decreases |us|
  {
    if us == [] {
      NothingReplayed(devices);
    } else {
      var u, vs := us[|us| - 1], us[..|us| - 1];
      hide RegisterLine, GroupLine, Sendable, Rebuilt, ChildrenFirst, Replay;
      assert us == vs + [u] && u in us && forall v :: v in vs ==> v in us;
      LastOfChildrenFirst(g, vs, u);
      ReplayRebuilds(g, devices, vs);
      RebuiltOneMore(g, devices, vs, u, Replay(NoGroups, devices, SavedLines(g, vs)));
      ReplayMore(NoGroups, devices, SavedLines(g, vs), GroupLine(Line(g, u)));
    }
  }

  lemma NothingReplayed(devices: set<string>)
    ensures Replay(NoGroups, devices, []) == NoGroups
  {
  }

  lemma ReplayMore(g: Graph, devices: set<string>, lines: seq<string>, line: string)
    ensures Replay(g, devices, lines + [line]) == RegisterLine(Replay(g, devices, lines), devices, line)
  {
    hide RegisterLine;
    assert (lines + [line])[..|lines + [line]| - 1] == lines;
  }

  /** Such lines arrive as they were written. */
  lemma {:induction false} SavedArrives(g: Graph, devices: set<string>, us: seq<string>)
    requires Sendable(g, devices) && forall u :: u in us ==> u in g.groups
    ensures forall i :: 0 <= i < |SavedLines(g, us)| ==> OneLine(SavedLines(g, us)[i])
    decreases |us|
  {
    if us != [] {
      var u := us[|us| - 1];
      hide OneLine, GroupLine, Carried;
      SavedArrives(g, devices, us[..|us| - 1]);
      assert Bare(u) && NameSendable(g.groups[u].name) && ListsSendable(g.groups[u], devices);
      GroupLineCarried(g, u);
      GroupRoundTrip(Line(g, u), "");
    }
  }

  lemma SameParents(g: Graph, us: seq<string>, vs: seq<string>, k: string)
    requires forall u :: u in us <==> u in vs
    ensures ParentsAmong(g, us, k) == ParentsAmong(g, vs, k)
  {
  }

  /** The `subgroup` fields count the parents. */
  predicate CountsParents(g: Graph) {
    forall u :: u in g.groups ==> g.groups[u].subgroup == |ParentsAmong(g, g.all, u)|
  }

  /**
   Saving an acyclic graph to a server that has the devices but no groups: from what the editor has
   written the server reads lines that give it the same groups with the same names, children, members
   and parent counts, made in the order children first.
   */
  lemma SaveThenReplay(g: Graph, rank: map<string, nat>, devices: set<string>)
    requires Ranked(g, rank) && Sendable(g, devices) && CountsParents(g)
    requires Distinct(g.all) && forall u :: u in g.all <==> u in g.groups
    ensures var order := Save(g, rank, g.all, []);
      && ChildrenFirst(g, order) && (forall u :: u in order <==> u in g.groups)
      && Replay(NoGroups, devices, ReadLines(Written(SavedLines(g, order)))) == Graph(g.groups, order)
  {
    var order := Save(g, rank, g.all, []);
    SaveSends(g, rank, g.all, []);
    assert forall u :: u in order <==> u in g.groups;
    hide Replay, SavedLines, Sendable, ReadLines, Written, OneLine;
    ReplayRebuilds(g, devices, order);
    SavedArrives(g, devices, order);
    ReadWritten(SavedLines(g, order));
    RebuiltIsEqual(g, order, Replay(NoGroups, devices, SavedLines(g, order)));
  }

  lemma RebuiltIsEqual(g: Graph, order: seq<string>, h: Graph)
    requires CountsParents(g) && Rebuilt(g, order, h)
    requires forall u :: u in g.all <==> u in g.groups
    requires forall u :: u in order <==> u in g.groups
    ensures h == Graph(g.groups, order)
  {
    forall u ensures u in h.groups <==> u in g.groups
             ensures u in g.groups ==> h.groups[u] == g.groups[u]
    {
      assert u in order ==> SameGroup(g, order, h, u);
      SameParents(g, order, g.all, u);
    }
    assert h.groups == g.groups;
  }
}
