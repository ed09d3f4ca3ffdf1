/** What any sequence of register-group commands keeps, and what one of them makes of a group. */
module GroupEdits {
  import opened Lists
  import opened CommaLists
  import opened GroupGraph
  import opened WireGroups
  import opened GroupReplay

  /** The groups that have `k` as a child. */
  function ParentsOf(g: Graph, k: string): set<string> {
    set v | v in g.groups && k in g.groups[v].children
  }

  /** No child or member twice, and every child is a group. */
  predicate Links(g: Graph, v: string)
    requires v in g.groups
  {
    && Distinct(g.groups[v].children) && Distinct(g.groups[v].members)
    && forall k :: k in g.groups[v].children ==> k in g.groups
  }

  /** In addition, `subgroup` is the number of parents. */
  ghost predicate Kept(g: Graph) {
    && (forall v :: v in g.groups ==> Links(g, v))
    && (forall k :: k in g.groups ==> g.groups[k].subgroup == |ParentsOf(g, k)|)
  }

  /** `h` has the groups of `g` with the same members, and but for `u` the same children. */
  predicate SameButChildren(g: Graph, h: Graph, u: string) {
    && h.groups.Keys == g.groups.Keys && h.all == g.all
    && forall v :: v in g.groups ==>
         h.groups[v].name == g.groups[v].name && h.groups[v].members == g.groups[v].members
         && (v != u ==> h.groups[v].children == g.groups[v].children)
  }

  // ----- one link more, one link less

  /** The parent counts differ by `n` at `p` only. */
  predicate Recounted(g: Graph, h: Graph, p: string, n: int) {
    h.groups.Keys == g.groups.Keys
    && forall k :: k in g.groups ==> h.groups[k].subgroup == g.groups[k].subgroup + if k == p then n else 0
  }

  lemma AddChildShape(g: Graph, u: string, p: string)
    requires u in g.groups && p in g.groups
    ensures var h := AddChild(g, u, p);
      SameButChildren(g, h, u) && Recounted(g, h, p, 1) && h.groups[u].children == g.groups[u].children + [p]
  {
  }

  /** If every group's links are sound and the parents of `k` change as its count does, the graph is kept. */
  lemma KeptAgain(g: Graph, h: Graph, u: string, p: string, n: int)
    requires Kept(g) && u in g.groups && SameButChildren(g, h, u) && Recounted(g, h, p, n)
    requires Links(h, u)
    requires forall k :: k != p ==> ParentsOf(h, k) == ParentsOf(g, k)
    requires |ParentsOf(h, p)| == |ParentsOf(g, p)| + n
    ensures Kept(h)
  {
    hide ParentsOf;
    forall v | v in h.groups ensures Links(h, v) {
      assert Links(g, v);
    }
  }

  lemma AddChildKeeps(g: Graph, u: string, p: string)
    requires Kept(g) && u in g.groups && p in g.groups && p !in g.groups[u].children
    ensures var h := AddChild(g, u, p);
      Kept(h) && SameButChildren(g, h, u) && h.groups[u].children == g.groups[u].children + [p]
  {
    AddChildShape(g, u, p);
    hide AddChild;
    var h := AddChild(g, u, p);
    assert Links(g, u);
    hide Kept, Recounted;
    OneMoreLink(g, h, u, p);
    hide ParentsOf;
    KeptAgain(g, h, u, p, 1);
  }

  lemma OneMoreLink(g: Graph, h: Graph, u: string, p: string)
    requires u in g.groups && SameButChildren(g, h, u) && h.groups[u].children == g.groups[u].children + [p]
    requires p !in g.groups[u].children
    ensures forall k :: k != p ==> ParentsOf(h, k) == ParentsOf(g, k)
    ensures |ParentsOf(h, p)| == |ParentsOf(g, p)| + 1
  {
    forall k ensures ParentsOf(h, k) == if k == p then ParentsOf(g, k) + {u} else ParentsOf(g, k) {
    }
    assert u !in ParentsOf(g, p);
  }

  lemma {:induction false} RemoveFirstOf(s: seq<string>, x: string)
    requires Distinct(s)
    ensures var r := RemoveFirst(s, x);
      Distinct(r) && forall y :: y in r <==> y in s && y != x
    decreases |s|
  {
    if s != [] {
      var more := s[1..];
      assert s == [s[0]] + more && s[0] !in more;
      RemoveFirstOf(more, x);
      if s[0] != x {
        assert s[0] !in RemoveFirst(more, x);
      }
    }
  }

  lemma RemoveSelfShape(g: Graph, u: string)
    requires u in g.groups && u in g.groups[u].children
    ensures var h := RemoveChild(g, u, u);
      && SameButChildren(g, h, u) && Recounted(g, h, u, -1)
      && h.groups[u].children == RemoveFirst(g.groups[u].children, u)
  {
    hide RemoveFirst;
  }

  lemma RemoveOtherIs(g: Graph, u: string, p: string)
    requires u in g.groups && p in g.groups && p in g.groups[u].children && p != u
    ensures var d, e := g.groups[u], g.groups[p];
      RemoveChild(g, u, p) == Graph(
        g.groups[u := d.(children := RemoveFirst(d.children, p))][p := e.(subgroup := e.subgroup - 1)], g.all)
  {
    hide RemoveFirst;
  }

  lemma RemoveOtherShape(g: Graph, u: string, p: string)
    requires u in g.groups && p in g.groups && p in g.groups[u].children && p != u
    ensures var h := RemoveChild(g, u, p);
      && SameButChildren(g, h, u) && Recounted(g, h, p, -1)
      && h.groups[u].children == RemoveFirst(g.groups[u].children, p)
  {
    RemoveOtherIs(g, u, p);
    hide RemoveFirst, RemoveChild, SameButChildren, Recounted;
    var d := g.groups[u];
    TwoChanged(g, RemoveChild(g, u, p), u, d.(children := RemoveFirst(d.children, p)), p);
  }

  /** A group with other children, and another with one parent less. */
  lemma TwoChanged(g: Graph, h: Graph, u: string, d: Group, p: string)
    requires u in g.groups && p in g.groups && p != u && d == g.groups[u].(children := d.children)
    requires h == Graph(g.groups[u := d][p := g.groups[p].(subgroup := g.groups[p].subgroup - 1)], g.all)
    ensures SameButChildren(g, h, u) && Recounted(g, h, p, -1) && h.groups[u].children == d.children
  {
    forall v | v in g.groups
      ensures v in h.groups && h.groups[v] == if v == u then d
        else if v == p then g.groups[p].(subgroup := g.groups[p].subgroup - 1) else g.groups[v]
    {
    }
  }

  lemma RemoveChildShape(g: Graph, u: string, p: string)
    requires u in g.groups && p in g.groups && p in g.groups[u].children
    ensures var h := RemoveChild(g, u, p);
      && SameButChildren(g, h, u) && Recounted(g, h, p, -1)
      && h.groups[u].children == RemoveFirst(g.groups[u].children, p)
  {
    hide RemoveFirst, RemoveChild, SameButChildren, Recounted;
    if p == u {
      RemoveSelfShape(g, u);
    } else {
      RemoveOtherShape(g, u, p);
    }
  }

  lemma RemoveChildKeeps(g: Graph, u: string, p: string)
    requires Kept(g) && u in g.groups && p in g.groups[u].children
    ensures var h := RemoveChild(g, u, p);
      && Kept(h) && SameButChildren(g, h, u)
      && forall k :: k in h.groups[u].children <==> k in g.groups[u].children && k != p
  {
    assert Links(g, u);
    RemoveChildShape(g, u, p);
    RemoveFirstOf(g.groups[u].children, p);
    hide RemoveChild, RemoveFirst, Kept, Recounted;
    var h := RemoveChild(g, u, p);
    forall k ensures ParentsOf(h, k) == if k == p then ParentsOf(g, k) - {u} else ParentsOf(g, k) {
    }
    assert u in ParentsOf(g, p);
    KeptAgain(g, h, u, p, -1);
  }

  // ----- the two loops

  lemma {:induction false} AddGroupsKeeps(g: Graph, u: string, ps: seq<string>)
    requires Kept(g) && u in g.groups
    ensures var h := AddGroups(g, u, ps);
      && Kept(h) && SameButChildren(g, h, u)
      && forall k :: k in h.groups[u].children <==> k in g.groups[u].children || (k in ps && k in g.groups)
    decreases |ps|
  {
    if ps != [] {
      hide Kept, AddChild;
      var p := ps[0];
      assert forall k :: k in ps <==> k == p || k in ps[1..];
      if p in g.groups && p !in g.groups[u].children {
        AddChildKeeps(g, u, p);
        AddGroupsKeeps(AddChild(g, u, p), u, ps[1..]);
      } else {
        AddGroupsKeeps(g, u, ps[1..]);
      }
    }
  }

  lemma {:induction false} DropGroupsKeeps(g: Graph, u: string, kids: seq<string>, keep: seq<string>)
    requires Kept(g) && u in g.groups
    ensures var h := DropGroups(g, u, kids, keep);
      && Kept(h) && SameButChildren(g, h, u)
      && forall k :: k in h.groups[u].children <==> k in g.groups[u].children && (k !in kids || k in keep)
    decreases |kids|
  {
    if kids != [] {
      hide Kept;
      var p := kids[0];
      assert forall k :: k in kids <==> k == p || k in kids[1..];
      if p !in keep && p in g.groups[u].children {
        RemoveChildKeeps(g, u, p);
      }
      hide RemoveChild;
      DropGroupsKeeps(if p in keep then g else RemoveChild(g, u, p), u, kids[1..], keep);
    }
  }

  /** The list replaces the children: afterwards they are the listed groups that exist. */
  lemma RegroupedExactly(g: Graph, u: string, ps: seq<string>)
    requires Kept(g) && u in g.groups
    ensures var h := Regrouped(g, u, ps);
      && Kept(h) && SameButChildren(g, h, u)
      && forall k :: k in h.groups[u].children <==> k in ps && k in g.groups
  {
    var h := AddGroups(g, u, ps);
    AddGroupsKeeps(g, u, ps);
    DropGroupsKeeps(h, u, h.groups[u].children, ps);
    assert Links(g, u);
  }

  lemma {:induction false} AddMembersExactly(members: seq<string>, devices: set<string>, ps: seq<string>)
    requires Distinct(members)
    ensures var r := AddMembers(members, devices, ps);
      Distinct(r) && forall d :: d in r <==> d in members || (d in ps && d in devices)
    decreases |ps|
  {
    if ps != [] {
      assert forall d :: d in ps <==> d == ps[0] || d in ps[1..];
      AddMembersExactly(if ps[0] in devices && ps[0] !in members then members + [ps[0]] else members, devices, ps[1..]);
    }
  }

  lemma {:induction false} DropMembersExactly(members: seq<string>, was: seq<string>, keep: seq<string>)
    requires Distinct(members)
    ensures var r := DropMembers(members, was, keep);
      Distinct(r) && forall d :: d in r <==> d in members && (d !in was || d in keep)
    decreases |was|
  {
    if was != [] {
      assert forall d :: d in was <==> d == was[0] || d in was[1..];
      RemoveFirstOf(members, was[0]);
      DropMembersExactly(if was[0] in keep then members else RemoveFirst(members, was[0]), was[1..], keep);
    }
  }

  /** The list replaces the members: afterwards they are the listed devices that exist. */
  lemma RememberedExactly(g: Graph, devices: set<string>, u: string, ps: seq<string>)
    requires Kept(g) && u in g.groups
    requires forall d :: d in g.groups[u].members ==> d in devices
    ensures var h := Remembered(g, devices, u, ps);
      && Kept(h) && h.groups.Keys == g.groups.Keys
      && (forall d :: d in h.groups[u].members <==> d in ps && d in devices)
      && forall v :: v in g.groups ==> h.groups[v] == g.groups[v].(members := h.groups[v].members)
  {
    var h, ms := Remembered(g, devices, u, ps), AddMembers(g.groups[u].members, devices, ps);
    assert Links(g, u);
    AddMembersExactly(g.groups[u].members, devices, ps);
    DropMembersExactly(ms, ms, ps);
    forall v | v in h.groups ensures Links(h, v) {
      assert Links(g, v);
    }
    forall k | k in h.groups ensures ParentsOf(h, k) == ParentsOf(g, k) {
    }
  }

  // ----- whole commands

  lemma EnteredKeeps(g: Graph, m: Regg)
    requires Kept(g) && Accepted(g, m)
    ensures Kept(Entered(g, m))
  {
    var h := Entered(g, m);
    forall v | v in h.groups ensures Links(h, v) {
      assert v in g.groups ==> Links(g, v);
    }
    forall k | k in h.groups ensures h.groups[k].subgroup == |ParentsOf(h, k)| {
      assert forall v :: v in g.groups ==> Links(g, v);
      assert ParentsOf(h, k) == ParentsOf(g, k);
      assert k !in g.groups ==> ParentsOf(g, k) == {};
    }
  }

  ghost predicate MembersKnown(g: Graph, devices: set<string>) {
    forall v :: v in g.groups ==> forall d :: d in g.groups[v].members ==> d in devices
  }

  lemma MembersStayKnown(g: Graph, devices: set<string>, u: string, ps: seq<string>)
    requires Kept(g) && u in g.groups && MembersKnown(g, devices)
    ensures Kept(Remembered(g, devices, u, ps)) && MembersKnown(Remembered(g, devices, u, ps), devices)
  {
    RememberedExactly(g, devices, u, ps);
    var h := Remembered(g, devices, u, ps);
    forall v | v in h.groups ensures forall d :: d in h.groups[v].members ==> d in devices {
      assert v in g.groups;
    }
  }

  /** Every register-group command, accepted or not, keeps the links sound and the counts exact. */
  lemma RegisterKeeps(g: Graph, devices: set<string>, m: Regg)
    requires Kept(g) && MembersKnown(g, devices)
    ensures Kept(Register(g, devices, m)) && MembersKnown(Register(g, devices, m), devices)
  {
    if Accepted(g, m) {
      EnteredKeeps(g, m);
      var g1 := Entered(g, m);
      assert MembersKnown(g1, devices);
      hide Kept, Entered, Regrouped, Remembered, Strtok;
      var g2 := if m.grouplist.None? then g1 else Regrouped(g1, m.uid, Strtok(m.grouplist.value));
      if m.grouplist.Some? {
        RegroupedExactly(g1, m.uid, Strtok(m.grouplist.value));
      }
      assert MembersKnown(g2, devices) && Kept(g2);
      if m.devlist.Some? {
        MembersStayKnown(g2, devices, m.uid, Strtok(m.devlist.value));
      }
    }
  }

  lemma LineKeeps(g: Graph, devices: set<string>, line: string)
    requires Kept(g) && MembersKnown(g, devices)
    ensures Kept(RegisterLine(g, devices, line)) && MembersKnown(RegisterLine(g, devices, line), devices)
  {
    hide Kept, MembersKnown, Register, ReadGroup;
    var a := ReadGroup(line);
    if a.uid.Some? {
      RegisterKeeps(g, devices, Regg(a.uid.value, a.name, a.grouplist, a.devlist));
    }
  }

  /** So does any sequence of lines, whatever is in them. */
  lemma {:induction false} ReplayKeeps(devices: set<string>, lines: seq<string>)
    ensures Kept(Replay(NoGroups, devices, lines)) && MembersKnown(Replay(NoGroups, devices, lines), devices)
    decreases |lines|
  {
    if lines != [] {
      hide Kept, MembersKnown, RegisterLine;
      ReplayKeeps(devices, lines[..|lines| - 1]);
      LineKeeps(Replay(NoGroups, devices, lines[..|lines| - 1]), devices, lines[|lines| - 1]);
    }
  }
}
