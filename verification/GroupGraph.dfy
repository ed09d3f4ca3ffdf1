/** The graph of device groups, and the order in which the editor's save action sends its groups. */
module GroupGraph {
  import opened Lists
  import opened CommaLists

  /** device_group_t: children and members by uid; `subgroup` counts the groups it is a child of. */
  datatype Group = Group(name: Option<string>, children: seq<string>, members: seq<string>, subgroup: int)

  /** The group table, and the queue of all groups in the order they were made. */
  datatype Graph = Graph(groups: map<string, Group>, all: seq<string>)

  const NoGroups := Graph(map[], [])

  /** The arguments of a regg line. */
  datatype Regg = Regg(uid: string, name: Option<string>, grouplist: Option<string>, devlist: Option<string>)

  /** gn_register_devgroup: an empty list is left out. */
  function Line(g: Graph, u: string): Regg
    requires u in g.groups
  {
    var d := g.groups[u];
    Regg(u, d.name, if d.children == [] then None else Some(Join(d.children)),
         if d.members == [] then None else Some(Join(d.members)))
  }

  // ----- the order of a save action

  /** Every child is a group of the graph, and `rank` shows that no group is its own descendant. */
  predicate Ranked(g: Graph, rank: map<string, nat>) {
    && rank.Keys == g.groups.Keys
    && forall u :: u in g.groups ==> forall k :: k in g.groups[u].children ==> k in g.groups && rank[k] < rank[u]
  }

  /**
   register_child_groups, for the children `kids` of a group of rank `bound`: `out` lists the groups
   sent so far, which are the ones flagged GROUPONQ_REG.
   */
  function Visit(g: Graph, rank: map<string, nat>, bound: nat, kids: seq<string>, out: seq<string>): seq<string>
    requires Ranked(g, rank)
    requires forall k :: k in kids ==> k in g.groups && rank[k] < bound
    decreases bound, |kids|
  {
    if kids == [] then out
    else
      var k := kids[0];
      var sent := if k in out then out else Visit(g, rank, rank[k], g.groups[k].children, out) + [k];
      Visit(g, rank, bound, kids[1..], sent)
  }

  /** The loop of on_save1_activate over the groups `us`. */
  function Save(g: Graph, rank: map<string, nat>, us: seq<string>, out: seq<string>): seq<string>
    requires Ranked(g, rank)
    requires forall u :: u in us ==> u in g.groups
    decreases |us|
  {
    if us == [] then out
    else
      var u := us[0];
      var sent := Visit(g, rank, rank[u], g.groups[u].children, out);
      Save(g, rank, us[1..], if u in sent then sent else sent + [u])
  }

  /** No group twice, each one after all its children. */
  predicate ChildrenFirst(g: Graph, out: seq<string>) {
    && Distinct(out)
    && forall i :: 0 <= i < |out| ==>
         out[i] in g.groups && forall k :: k in g.groups[out[i]].children ==> k in out[..i]
  }

  lemma OneMore(g: Graph, out: seq<string>, u: string)
    requires ChildrenFirst(g, out) && u in g.groups && u !in out
    requires forall k :: k in g.groups[u].children ==> k in out
    ensures ChildrenFirst(g, out + [u])
  {
    var r := out + [u];
    forall i | 0 <= i < |r| ensures forall k :: k in g.groups[r[i]].children ==> k in r[..i] {
      assert r[..i] == out[..i];
      assert out[..|out|] == out;
    }
  }

  lemma PrefixMembers(a: seq<string>, b: seq<string>)
    requires a <= b
    ensures forall x :: x in a ==> x in b
  {
    forall x | x in a ensures x in b {
      var i :| 0 <= i < |a| && a[i] == x;
      assert b[i] == x;
    }
  }

  /** A visit sends groups below its rank only, children first, and leaves every child sent. */
  lemma {:induction false} VisitSends(g: Graph, rank: map<string, nat>, bound: nat, kids: seq<string>, out: seq<string>)
    requires Ranked(g, rank) && ChildrenFirst(g, out)
    requires forall k :: k in kids ==> k in g.groups && rank[k] < bound
    ensures var r := Visit(g, rank, bound, kids, out);
      && ChildrenFirst(g, r) && out <= r
      && (forall u :: u in r && u !in out ==> rank[u] < bound)
      && (forall k :: k in kids ==> k in r)
    decreases bound, |kids|
  {
    if kids != [] {
      var k := kids[0];
      var sent := out;
      if k !in out {
        var below := Visit(g, rank, rank[k], g.groups[k].children, out);
        VisitSends(g, rank, rank[k], g.groups[k].children, out);
        OneMore(g, below, k);
        sent := below + [k];
      }
      VisitSends(g, rank, bound, kids[1..], sent);
      PrefixMembers(sent, Visit(g, rank, bound, kids, out));
      assert kids == [k] + kids[1..];
    }
  }

  /** The save action sends every group it is given, each once and after all its children. */
  lemma {:induction false} SaveSends(g: Graph, rank: map<string, nat>, us: seq<string>, out: seq<string>)
    requires Ranked(g, rank) && ChildrenFirst(g, out)
    requires forall u :: u in us ==> u in g.groups
    ensures var r := Save(g, rank, us, out);
      && ChildrenFirst(g, r) && out <= r
      && forall u :: u in us ==> u in r
    decreases |us|
  {
    if us != [] {
      var u := us[0];
      VisitSends(g, rank, rank[u], g.groups[u].children, out);
      var sent := Visit(g, rank, rank[u], g.groups[u].children, out);
      var more := if u in sent then sent else sent + [u];
      if u !in sent {
        OneMore(g, sent, u);
      }
      SaveSends(g, rank, us[1..], more);
      PrefixMembers(more, Save(g, rank, us, out));
      assert us == [u] + us[1..];
    }
  }
}
