/**
 What an update makes of the rules of its device: which latches are set afterwards, which messages
 go out and which handlers run.
 */
module AlarmLatches {
  import opened Lists
  import opened AlarmTable
  import opened AlarmRules
  import opened AlarmRuns

  /** The place of a simple test in the chain of tests. */
  function Order(test: Flag): nat {
    match test
    case GT => 0
    case LT => 1
    case EQ => 2
    case LTE => 3
    case GTE => 4
    case NE => 5
    case JITTER => 6
    case _ => 7
  }

  /** The first simple test among the flags of a rule. */
  predicate Leads(types: set<Flag>, test: Flag) {
    test in types && Order(test) < 7 && forall f :: f in types && f != test ==> Order(test) < Order(f)
  }

  predicate NoTest(types: set<Flag>) {
    types <= {AND, OR, HANDLER}
  }

  /** What the test asks of an update; a jitter rule asks for a value that has stayed too long. */
  predicate Passes(test: Flag, w: Watch, u: AlarmRules.Update) {
    var (a, b) := (u.data, w.val);
    match test
    case GT => match u.kind { case DOUBLE => a.d > b.d case UINT => a.ui > b.ui case LL => a.ll > b.ll }
    case LT => match u.kind { case DOUBLE => a.d < b.d case UINT => a.ui < b.ui case LL => a.ll < b.ll }
    case EQ => match u.kind { case DOUBLE => a.d == b.d case UINT => a.ui == b.ui case LL => a.ll == b.ll }
    case LTE => match u.kind { case DOUBLE => a.d <= b.d case UINT => a.ui <= b.ui case LL => a.ll <= b.ll }
    case GTE => match u.kind { case DOUBLE => a.d >= b.d case UINT => a.ui >= b.ui case LL => a.ll >= b.ll }
    case NE => match u.kind { case DOUBLE => a.d != b.d case UINT => a.ui != b.ui case LL => a.ll != b.ll }
    case JITTER => Repeats(u, w.val) && u.now - w.lastchg > w.threshold
    case _ => false
  }

  /** The rule as a simple test leaves it: a jitter rule takes over a value that is new. */
  function Noted(test: Flag, w: Watch, u: AlarmRules.Update): Watch {
    if test.JITTER? && !Repeats(u, w.val) then w.(val := u.stored, lastchg := u.now) else w
  }

  /** `test` is the simple test of the rule; one that makes none counts as AND, which never passes. */
  predicate TestOf(w: Watch, test: Flag) {
    if NoTest(w.wtype) then test.AND? else Leads(w.wtype, test)
  }

  lemma TestedIs(w: Watch, u: AlarmRules.Update, test: Flag)
    requires TestOf(w, test)
    ensures Tested(w, u) == (Noted(test, w, u), Passes(test, w, u))
  {
    assert !NoTest(w.wtype) ==> test in w.wtype;
  }

  lemma RowIs(ws: seq<Watch>, i: nat, u: AlarmRules.Update, test: Flag)
    requires i < |ws| && Wired(ws) && TestOf(ws[i], test)
    ensures var w, other := ws[i], ws[i].wtype * {AND, OR} != {} && ws[ws[i].comparison].fired;
      Row(ws, i, u).0 == Noted(test, w, u).(fired :=
        if AND in w.wtype then other && (OR in w.wtype || Passes(test, w, u))
        else if OR in w.wtype then other || Passes(test, w, u)
        else Passes(test, w, u))
  {
    TestedIs(ws[i], u, test);
    hide Tested, Passes, Noted, TestOf;
    assert AND in ws[i].wtype || OR in ws[i].wtype <==> ws[i].wtype * {AND, OR} != {} by {
      var s := ws[i].wtype * {AND, OR};
      assert AND in ws[i].wtype ==> AND in s;
      assert OR in ws[i].wtype ==> OR in s;
    }
    NotedSame(test, ws[i], u);
  }

  lemma NotedSame(test: Flag, w: Watch, u: AlarmRules.Update)
    ensures SameRule(w, Noted(test, w, u)) && Noted(test, w, u).fired == w.fired
  {
  }

  // ----- the loop over the rows

  /** The rows as the loop finds them at row `k`: those before it are done, the others untouched. */
  lemma {:induction false} RowsUpTo(ws: seq<Watch>, i: nat, u: AlarmRules.Update, k: nat) returns (mid: seq<Watch>)
    requires i <= k < |ws| && Wired(ws) && ws[k].uid == u.uid
    ensures SameRules(ws, mid) && Wired(mid)
    ensures forall c :: k <= c < |ws| ==> mid[c] == ws[c]
    ensures forall c :: 0 <= c < k ==> mid[c] == Rows(ws, i, u).0[c]
    ensures Rows(ws, i, u).0[k] == Row(mid, k, u).0
    decreases k - i
  {
    hide Row, Wired, SameRule;
    if i == k {
      mid := ws;
      var w := Row(ws, k, u).0;
      OneSame(ws, k, w);
      WiredSame(ws, ws[k := w]);
      forall c | 0 <= c <= k ensures Rows(ws, k, u).0[c] == ws[k := w][c] {
        RowsOther(ws[k := w], k + 1, u, c);
      }
    } else if ws[i].uid != u.uid {
      mid := RowsUpTo(ws, i + 1, u, k);
    } else {
      var vs := ws[i := Row(ws, i, u).0];
      OneSame(ws, i, Row(ws, i, u).0);
      WiredSame(ws, vs);
      mid := RowsUpTo(vs, i + 1, u, k);
      SameRulesTrans(ws, vs, mid);
    }
  }

  lemma OneSame(ws: seq<Watch>, i: nat, w: Watch)
    requires i < |ws| && SameRule(ws[i], w)
    ensures SameRules(ws, ws) && SameRules(ws, ws[i := w])
  {
  }

  lemma SameRulesTrans(ws: seq<Watch>, vs: seq<Watch>, xs: seq<Watch>)
    requires SameRules(ws, vs) && SameRules(vs, xs)
    ensures SameRules(ws, xs)
  {
  }

  /** The latch that row `k` looks at: a row before it has been updated already. */
  function OtherLatch(ws: seq<Watch>, vs: seq<Watch>, k: nat): bool
    requires k < |ws| == |vs| && ws[k].comparison < |ws|
  {
    var c := ws[k].comparison;
    if c < k then vs[c].fired else ws[c].fired
  }

  /**
   A rule after an update of its device: with AND its latch is set if that of the row it names is, and
   its own test passes or is not asked for (OR); with OR alone if either holds; else as its test says.
   */
  lemma RuleAfterUpdate(ws: seq<Watch>, u: AlarmRules.Update, k: nat, test: Flag)
    requires k < |ws| && Wired(ws) && ws[k].uid == u.uid && TestOf(ws[k], test)
    ensures var w, vs := ws[k], Rows(ws, 0, u).0;
      && vs[k] == Noted(test, w, u).(fired := vs[k].fired)
      && (AND !in w.wtype && OR !in w.wtype ==> (vs[k].fired <==> Passes(test, w, u)))
      && (AND !in w.wtype && OR in w.wtype ==> (vs[k].fired <==> Passes(test, w, u) || OtherLatch(ws, vs, k)))
      && (AND in w.wtype && OR !in w.wtype ==> (vs[k].fired <==> Passes(test, w, u) && OtherLatch(ws, vs, k)))
      && (AND in w.wtype && OR in w.wtype ==> (vs[k].fired <==> OtherLatch(ws, vs, k)))
  {
    var mid := RowsUpTo(ws, 0, u, k);
    RowIs(mid, k, u, test);
    hide Passes, Row, Rows, TestOf;
    var s := ws[k].wtype * {AND, OR};
    assert AND in ws[k].wtype ==> AND in s;
    assert OR in ws[k].wtype ==> OR in s;
  }

  /** An update changes no rule of another device. */
  lemma OtherDevices(ws: seq<Watch>, u: AlarmRules.Update, k: nat)
    requires k < |ws| && Wired(ws) && ws[k].uid != u.uid
    ensures Rows(ws, 0, u).0[k] == ws[k]
  {
    RowsOther(ws, 0, u, k);
  }

  /** What goes out and what runs, by the latches before (`ws`) and after (`vs`), from row `i` on. */
  function Changes(ws: seq<Watch>, vs: seq<Watch>, i: nat): seq<Msg>
    requires i <= |ws| == |vs|
    decreases |ws| - i
  {
    if i == |ws| then []
    else
      (if vs[i].fired && !ws[i].fired && ws[i].sev != 0 then [Msg(ws[i].aluid, ws[i].msg, ws[i].sev, ws[i].chan)]
       else if ws[i].fired && !vs[i].fired then [Msg(ws[i].aluid, ws[i].msg, 0, ws[i].chan)]
       else [])
      + Changes(ws, vs, i + 1)
  }

  function Runs(vs: seq<Watch>, uid: string, i: nat): seq<string>
    requires i <= |vs|
    decreases |vs| - i
  {
    if i == |vs| then []
    else
      (if vs[i].uid == uid && vs[i].fired && HANDLER in vs[i].wtype && vs[i].handler.Some? then [vs[i].handler.value]
       else [])
      + Runs(vs, uid, i + 1)
  }

  lemma {:induction false} ChangesFrom(ws: seq<Watch>, xs: seq<Watch>, vs: seq<Watch>, i: nat)
    requires i <= |ws| == |vs| == |xs| && forall c :: i <= c < |ws| ==> xs[c] == ws[c]
    ensures Changes(ws, vs, i) == Changes(xs, vs, i)
    decreases |ws| - i
  {
    if i < |ws| {
      ChangesFrom(ws, xs, vs, i + 1);
    }
  }

  lemma RowSends(ws: seq<Watch>, i: nat, u: AlarmRules.Update)
    requires i < |ws| && Wired(ws)
    ensures var (w, sent) := Row(ws, i, u);
      && sent == (if w.fired && !ws[i].fired && ws[i].sev != 0 then [SetMsg(ws[i])]
                  else if ws[i].fired && !w.fired then [ClearMsg(ws[i])] else [])
      && RowHandler(ws, i, u) == (if w.fired && HANDLER in w.wtype && w.handler.Some? then [w.handler.value] else [])
  {
    hide Combined, Tested;
  }

  lemma {:induction false} RowsSend(ws: seq<Watch>, i: nat, u: AlarmRules.Update)
    requires i <= |ws| && Wired(ws)
    ensures Rows(ws, i, u).1 == Changes(ws, Rows(ws, i, u).0, i)
    ensures Handlers(ws, i, u) == Runs(Rows(ws, i, u).0, u.uid, i)
    decreases |ws| - i
  {
    hide Row, RowHandler, Wired;
    if i < |ws| {
      if ws[i].uid != u.uid {
        RowsSend(ws, i + 1, u);
        RowsOther(ws, i + 1, u, i);
      } else {
        var xs := ws[i := Row(ws, i, u).0];
        WiredSame(ws, xs);
        RowsSend(xs, i + 1, u);
        RowsOther(xs, i + 1, u, i);
        RowSends(ws, i, u);
        ChangesFrom(ws, xs, Rows(ws, i, u).0, i + 1);
      }
    }
  }

  /**
   An update sends, in the order of the rules, a setting message for each latch that becomes set (of a
   rule with a severity) and a clearing one for each that becomes unset; it runs the handlers of the
   device's rules whose latches are set afterwards.
   */
  lemma UpdateSends(ws: seq<Watch>, u: AlarmRules.Update)
    requires Wired(ws)
    ensures var (vs, sent) := Rows(ws, 0, u); sent == Changes(ws, vs, 0) && Handlers(ws, 0, u) == Runs(vs, u.uid, 0)
  {
    RowsSend(ws, 0, u);
  }

  // ----- over runs

  /** After any run, the latch of a rule with one comparison says what the latest update of its device was. */
  lemma {:induction false} TestOverRuns(ws: seq<Watch>, us: seq<AlarmRules.Update>, k: nat, test: Flag)
    requires k < |ws| && Wired(ws) && Leads(ws[k].wtype, test) && !test.JITTER?
    requires AND !in ws[k].wtype && OR !in ws[k].wtype && !ws[k].fired
    ensures var h := UpdatesOf(us, ws[k].uid);
      Run(ws, us).0[k] == ws[k].(fired := h != [] && Passes(test, ws[k], h[|h| - 1]))
    decreases |us|
  {
    var w := ws[k];
    hide Rows, Wired, Passes, Leads;
    if us == [] {
      assert w.(fired := false) == w;
    } else {
      var u, most := us[|us| - 1], us[..|us| - 1];
      var vs, h := Run(ws, most).0, UpdatesOf(most, w.uid);
      TestOverRuns(ws, most, k, test);
      if u.uid == w.uid {
        LeadsTest(vs[k], test);
        RuleAfterUpdate(vs, u, k, test);
        SamePasses(test, w, vs[k], u);
      } else {
        OtherDevices(vs, u, k);
        assert UpdatesOf(us, w.uid) == h + [] == h;
      }
    }
  }

  lemma LeadsTest(w: Watch, test: Flag)
    requires Leads(w.wtype, test)
    ensures TestOf(w, test)
  {
    assert test in w.wtype;
  }

  lemma SamePasses(test: Flag, w: Watch, x: Watch, u: AlarmRules.Update)
    requires x == w.(fired := x.fired)
    ensures Passes(test, w, u) == Passes(test, x, u)
  {
  }

  /** So after the delivery of all lines the server has the rule's alarm exactly if that update passed. */
  lemma ServerShowsTest(t: seq<Alarm>, ws: seq<Watch>, us: seq<AlarmRules.Update>, k: nat, test: Flag)
    requires OnePerUid(t) && Ready(ws) && forall i :: 0 <= i < |ws| ==> !ws[i].fired && RuleCarried(ws[i])
    requires k < |ws| && Leads(ws[k].wtype, test) && !test.JITTER?
    requires AND !in ws[k].wtype && OR !in ws[k].wtype && ws[k].sev > 0
    ensures var w, h, v := ws[k], UpdatesOf(us, ws[k].uid), View(Deliver(t, Clears(ws) + Run(ws, us).1));
      if h != [] && Passes(test, w, h[|h| - 1]) then w.aluid in v && v[w.aluid] == Alarm(w.aluid, w.msg, w.sev, w.chan)
      else w.aluid !in v
  {
    ReadyWired(ws);
    hide Run, View, Deliver, Ready, RuleCarried, Passes, Leads;
    ServerMirrorsLatches(t, ws, us);
    TestOverRuns(ws, us, k, test);
    assert Mirrors(View(Deliver(t, Clears(ws) + Run(ws, us).1)), Run(ws, us).0[k]);
  }
}
