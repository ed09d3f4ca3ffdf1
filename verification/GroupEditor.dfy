/** The editor's save action as it walks over its groups and writes to its connection. */
module GroupEditor {
  import opened Lists
  import opened GroupGraph
  import opened WireLines
  import opened WireGroups

  /** The lines of the groups `us`; a group without a name has none. */
  function SavedLines(g: Graph, us: seq<string>): (r: seq<string>)
    requires forall u :: u in us ==> u in g.groups
  {
    if us == [] then []
    else
      var u := us[|us| - 1];
      SavedLines(g, us[..|us| - 1]) + if g.groups[u].name.Some? then [GroupLine(Line(g, u))] else []
  }

  lemma SavedMore(g: Graph, us: seq<string>, u: string)
    requires u in g.groups && forall v :: v in us ==> v in g.groups
    ensures SavedLines(g, us + [u])
      == SavedLines(g, us) + if g.groups[u].name.Some? then [GroupLine(Line(g, u))] else []
  {
    assert (us + [u])[..|us + [u]| - 1] == us;
  }

  /** The editor's graph with its registration flags, and the connection it writes to. */
  class Editor {
    const g: Graph
    var flagged: set<string>
    var sent: string

    constructor (g: Graph)
      ensures this.g == g && flagged == {} && sent == ""
    {
      this.g := g;
      flagged, sent := {}, "";
    }

    /** The flags and lines are those of the groups `out`. */
    ghost predicate Sent(out: seq<string>)
      reads this
    {
      && (forall u :: u in out ==> u in g.groups)
      && flagged == (set u | u in out)
      && sent == Written(SavedLines(g, out))
    }

    method Send(u: string, ghost out: seq<string>)
      requires Sent(out) && u in g.groups
      modifies this
      ensures Sent(out + [u])
    {
      hide Written, SavedLines, GroupLine;
      SavedMore(g, out, u);
      var d := g.groups[u];
      var line := RegisterDevgroup(u, d.name, d.children, d.members);
      if d.name.Some? {
        WrittenMore(SavedLines(g, out), GroupLine(Line(g, u)));
      }
      assert d.name.None? ==> SavedLines(g, out) + [] == SavedLines(g, out) && sent + line == sent;
      sent := sent + line;
      flagged := flagged + {u};
    }

    /** register_child_groups */
    method RegisterChildGroups(u: string, ghost rank: map<string, nat>, ghost before: seq<string>)
      returns (ghost out: seq<string>)
      requires Ranked(g, rank) && u in g.groups && Sent(before)
      modifies this
      ensures out == Visit(g, rank, rank[u], g.groups[u].children, before) && Sent(out)
      decreases rank[u]
    {
      hide SavedLines, Written;
      var kids, i := g.groups[u].children, 0;
      out := before;
      while i < |kids|
        invariant 0 <= i <= |kids| && Sent(out)
        invariant Visit(g, rank, rank[u], kids[i..], out) == Visit(g, rank, rank[u], kids, before)
      {
        var k := kids[i];
        assert k in kids && kids[i..][1..] == kids[i + 1..];
        if k !in flagged {
          out := RegisterChildGroups(k, rank, out);
          Send(k, out);
          out := out + [k];
        }
        i := i + 1;
      }
    }

    /** on_save1_activate; at the end all flags are cleared. */
    method OnSave(ghost rank: map<string, nat>)
      requires Ranked(g, rank) && flagged == {} && sent == ""
      requires forall u :: u in g.all ==> u in g.groups
      modifies this
      ensures flagged == {}
      ensures forall u :: u in Save(g, rank, g.all, []) ==> u in g.groups
      ensures sent == Written(SavedLines(g, Save(g, rank, g.all, [])))
    {
      var us, i := g.all, 0;
      ghost var out := [];
      assert Sent(out);
      hide SavedLines, Written;
      while i < |us|
        invariant 0 <= i <= |us| && Sent(out)
        invariant Save(g, rank, us[i..], out) == Save(g, rank, us, [])
      {
        var u := us[i];
        assert u in us && us[i..][1..] == us[i + 1..];
        out := RegisterChildGroups(u, rank, out);
        if u !in flagged {
          Send(u, out);
          out := out + [u];
        }
        i := i + 1;
      }
      flagged := {};
    }
  }
}
