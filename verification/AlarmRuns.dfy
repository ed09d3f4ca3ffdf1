/** Runs of the alarm collector, and what they leave on the server. */
module AlarmRuns {
  import opened Lists
  import opened Decimals
  import opened WireWords
  import opened WireNames
  import opened WireAlarms
  import opened AlarmTable
  import opened AlarmRules

  /** The rows and all messages after the updates `us`, in order. */
  function Run(ws: seq<Watch>, us: seq<AlarmRules.Update>): (r: (seq<Watch>, seq<Msg>))
    requires Wired(ws)
    ensures SameRules(ws, r.0) && Wired(r.0)
  {
    if us == [] then (ws, [])
    else
      var (vs, sent) := Run(ws, us[..|us| - 1]);
      var (xs, more) := Rows(vs, 0, us[|us| - 1]);
      (xs, sent + more)
  }

  /** The messages by which alarmcoll_establish_feeds begins. */
  function Clears(ws: seq<Watch>): (ms: seq<Msg>)
    ensures |ms| == |ws| && forall i :: 0 <= i < |ws| ==> ms[i] == ClearMsg(ws[i])
  {
    if ws == [] then [] else Clears(ws[..|ws| - 1]) + [ClearMsg(ws[|ws| - 1])]
  }

  method EstablishFeeds(watched: array<Watch>) returns (sent: seq<Msg>)
    ensures sent == Clears(watched[..])
  {
    sent := [];
    for i := 0 to watched.Length
      invariant sent == Clears(watched[..i])
    {
      assert watched[..i + 1][..i] == watched[..i];
      sent := sent + [ClearMsg(watched[i])];
    }
    assert watched[..watched.Length] == watched[..];
  }

  // ----- delivery

  function LineFor(m: Msg): string {
    AlarmLine(m.aluid, Some(m.text), m.sev, ChannelNumber(m.chan))
  }

  /** cmd_setalarm: the server applies what it reads from a line, if there is a uid in it. */
  ghost function TakeLine(t: seq<Alarm>, line: string): (r: seq<Alarm>)
    ensures OnePerUid(t) ==> OnePerUid(r)
  {
    var a := ReadAlarm(Unset, line);
    if a.aluid.None? then t else AlarmTable.Update(t, a.aluid.value, a.altext, a.alsev, Channels(a.alchan)).table
  }

  /** The server's table after the lines of the messages. */
  ghost function Deliver(t: seq<Alarm>, ms: seq<Msg>): (r: seq<Alarm>)
    requires OnePerUid(t)
    ensures OnePerUid(r)
  {
    if ms == [] then t else TakeLine(Deliver(t, ms[..|ms| - 1]), LineFor(ms[|ms| - 1]))
  }

  /** A rule whose uid and text a line carries. */
  predicate RuleCarried(w: Watch) {
    UidCarried(w.aluid) && TextCarried(w.msg)
  }

  /** The messages that a rule sends. */
  predicate OfRule(m: Msg, w: Watch) {
    m == SetMsg(w) || m == ClearMsg(w)
  }

  predicate OfSome(m: Msg, ws: seq<Watch>) {
    exists k :: 0 <= k < |ws| && OfRule(m, ws[k])
  }

  predicate OfRules(ms: seq<Msg>, ws: seq<Watch>) {
    forall i :: 0 <= i < |ms| ==> OfSome(ms[i], ws)
  }

  lemma ClearsOfRules(ws: seq<Watch>)
    ensures OfRules(Clears(ws), ws)
  {
    forall i | 0 <= i < |ws| ensures OfSome(Clears(ws)[i], ws) {
      assert OfRule(Clears(ws)[i], ws[i]);
    }
  }

  lemma OfSameRules(ms: seq<Msg>, ws: seq<Watch>, vs: seq<Watch>)
    requires SameRules(ws, vs) && OfRules(ms, vs)
    ensures OfRules(ms, ws)
  {
    forall i | 0 <= i < |ms| ensures OfSome(ms[i], ws) {
      var k :| 0 <= k < |vs| && OfRule(ms[i], vs[k]);
      assert SameRule(ws[k], vs[k]) && OfRule(ms[i], ws[k]);
    }
  }

  lemma {:induction false} RowsSend(ws: seq<Watch>, i: nat, u: AlarmRules.Update)
    requires i <= |ws| && Wired(ws)
    ensures OfRules(Rows(ws, i, u).1, ws)
    decreases |ws| - i
  {
    hide Row, Wired;
    if i < |ws| {
      if ws[i].uid != u.uid {
        RowsSend(ws, i + 1, u);
      } else {
        var (w, sent) := Row(ws, i, u);
        RowSends(ws, i, u);
        WiredSame(ws, ws[i := w]);
        RowsSend(ws[i := w], i + 1, u);
        OfSameRules(Rows(ws[i := w], i + 1, u).1, ws, ws[i := w]);
      }
    }
  }

  lemma RowSends(ws: seq<Watch>, i: nat, u: AlarmRules.Update)
    requires i < |ws| && Wired(ws)
    ensures OfRules(Row(ws, i, u).1, ws)
  {
    hide Combined, Tested;
    var sent := Row(ws, i, u).1;
    assert sent != [] ==> |sent| == 1 && OfRule(sent[0], ws[i]) && OfSome(sent[0], ws);
  }

  lemma OfRulesBoth(ms: seq<Msg>, ns: seq<Msg>, ws: seq<Watch>)
    requires OfRules(ms, ws) && OfRules(ns, ws)
    ensures OfRules(ms + ns, ws)
  {
    hide OfSome;
    forall i | 0 <= i < |ms + ns| ensures OfSome((ms + ns)[i], ws) {
      assert (ms + ns)[i] == if i < |ms| then ms[i] else ns[i - |ms|];
    }
  }

  /** Whatever happens, the collector sends nothing but the messages of its rules. */
  lemma {:induction false} RunSends(ws: seq<Watch>, us: seq<AlarmRules.Update>)
    requires Wired(ws)
    ensures OfRules(Run(ws, us).1, ws)
    decreases |us|
  {
    hide Rows, Wired, SameRules, OfSome;
    if us != [] {
      var (vs, sent) := Run(ws, us[..|us| - 1]);
      var u := us[|us| - 1];
      RunSends(ws, us[..|us| - 1]);
      hide OfRules;
      RowsSend(vs, 0, u);
      OfSameRules(Rows(vs, 0, u).1, ws, vs);
      OfRulesBoth(sent, Rows(vs, 0, u).1, ws);
    }
  }

  // ----- messages that are received as they were sent

  function Taken(v: map<string, Alarm>, m: Msg): map<string, Alarm> {
    UpdateView(v, m.aluid, Some(m.text), m.sev, m.chan)
  }

  function DeliverView(v: map<string, Alarm>, ms: seq<Msg>): map<string, Alarm> {
    if ms == [] then v else Taken(DeliverView(v, ms[..|ms| - 1]), ms[|ms| - 1])
  }

  lemma TakeCarried(t: seq<Alarm>, m: Msg)
    requires OnePerUid(t) && UidCarried(m.aluid) && TextCarried(m.text)
    ensures View(TakeLine(t, LineFor(m))) == Taken(View(t), m)
  {
    hide View, AlarmTable.Update, AlarmLine, ReadAlarm;
    AlarmRoundTrip(Unset, m.aluid, Some(m.text), m.sev, ChannelNumber(m.chan));
    ChannelsBack(m.chan);
    ViewUpdate(t, m.aluid, Some(m.text), m.sev, m.chan);
  }

  lemma {:induction false} DeliverIsView(t: seq<Alarm>, ms: seq<Msg>, ws: seq<Watch>)
    requires OnePerUid(t) && OfRules(ms, ws) && forall k :: 0 <= k < |ws| ==> RuleCarried(ws[k])
    ensures View(Deliver(t, ms)) == DeliverView(View(t), ms)
    decreases |ms|
  {
    hide View, TakeLine, UidCarried, TextCarried, Taken, LineFor;
    if ms != [] {
      var m, most := ms[|ms| - 1], ms[..|ms| - 1];
      assert forall i :: 0 <= i < |most| ==> most[i] == ms[i];
      DeliverIsView(t, most, ws);
      assert OfSome(m, ws);
      var k :| 0 <= k < |ws| && OfRule(m, ws[k]);
      assert RuleCarried(ws[k]);
      TakeCarried(Deliver(t, most), m);
    }
  }

  lemma {:induction false} DeliverMore(v: map<string, Alarm>, ms: seq<Msg>, ns: seq<Msg>)
    ensures DeliverView(v, ms + ns) == DeliverView(DeliverView(v, ms), ns)
    decreases |ns|
  {
    hide Taken;
    if ns == [] {
      assert ms + ns == ms;
    } else {
      assert (ms + ns)[..|ms + ns| - 1] == ms + ns[..|ns| - 1];
      DeliverMore(v, ms, ns[..|ns| - 1]);
    }
  }

  lemma {:induction false} DeliverOne(v: map<string, Alarm>, m: Msg)
    ensures DeliverView(v, [m]) == Taken(v, m)
  {
    assert [m][..0] == [];
    assert DeliverView(v, []) == v;
  }

  // ----- the server's table mirrors the latches

  predicate UniqueAluids(ws: seq<Watch>) {
    forall i, j :: 0 <= i < j < |ws| ==> ws[i].aluid != ws[j].aluid
  }

  /** The server holds the rule's alarm if and only if the latch is set and there is a severity. */
  predicate Mirrors(v: map<string, Alarm>, w: Watch) {
    if w.fired && w.sev > 0 then w.aluid in v && v[w.aluid] == Alarm(w.aluid, w.msg, w.sev, w.chan)
    else w.aluid !in v
  }

  predicate AllMirror(v: map<string, Alarm>, ws: seq<Watch>) {
    forall i :: 0 <= i < |ws| ==> Mirrors(v, ws[i])
  }

  predicate Ready(ws: seq<Watch>) {
    Wired(ws) && UniqueAluids(ws) && forall i :: 0 <= i < |ws| ==> ws[i].sev >= 0
  }

  lemma {:induction false} ReadySame(ws: seq<Watch>, vs: seq<Watch>)
    requires Ready(ws) && SameRules(ws, vs)
    ensures Ready(vs) && Wired(vs)
  {
  }

  lemma {:induction false} RowMirrors(v: map<string, Alarm>, ws: seq<Watch>, i: nat, u: AlarmRules.Update)
    requires i < |ws| && Ready(ws) && AllMirror(v, ws)
    ensures var (w, sent) := Row(ws, i, u); AllMirror(DeliverView(v, sent), ws[i := w])
  {
    hide Combined, Tested;
    var (w, sent) := Row(ws, i, u);
    var x := DeliverView(v, sent);
    if sent != [] {
      assert sent == [sent[0]];
      DeliverOne(v, sent[0]);
    }
    assert Mirrors(v, ws[i]);
    assert Mirrors(x, w);
    var vs := ws[i := w];
    forall j | 0 <= j < |ws| ensures Mirrors(x, vs[j]) {
      if j != i {
        assert Mirrors(v, ws[j]);
        assert ws[j].aluid != ws[i].aluid;
      }
    }
  }

  lemma {:induction false} RowsMirror(v: map<string, Alarm>, ws: seq<Watch>, i: nat, u: AlarmRules.Update)
    requires i <= |ws| && Ready(ws) && AllMirror(v, ws)
    ensures var (vs, sent) := Rows(ws, i, u); AllMirror(DeliverView(v, sent), vs)
    decreases |ws| - i
  {
    hide Row, AllMirror, Ready;
    if i < |ws| {
      if ws[i].uid != u.uid {
        RowsMirror(v, ws, i + 1, u);
      } else {
        assert Wired(ws) by {
          ReadyWired(ws);
        }
        var (w, sent) := Row(ws, i, u);
        RowMirrors(v, ws, i, u);
        ReadySame(ws, ws[i := w]);
        RowsMirror(DeliverView(v, sent), ws[i := w], i + 1, u);
        DeliverMore(v, sent, Rows(ws[i := w], i + 1, u).1);
      }
    }
  }

  lemma {:induction false} ReadyWired(ws: seq<Watch>)
    requires Ready(ws)
    ensures Wired(ws)
  {
  }

  lemma {:induction false} RunMirrors(v: map<string, Alarm>, ws: seq<Watch>, us: seq<AlarmRules.Update>)
    requires Ready(ws) && AllMirror(v, ws)
    ensures var (vs, sent) := Run(ws, us); AllMirror(DeliverView(v, sent), vs)
    decreases |us|
  {
    hide Rows, AllMirror, Wired, UniqueAluids;
    if us != [] {
      var (vs, sent) := Run(ws, us[..|us| - 1]);
      RunMirrors(v, ws, us[..|us| - 1]);
      ReadySame(ws, vs);
      RowsMirror(DeliverView(v, sent), vs, 0, us[|us| - 1]);
      DeliverMore(v, sent, Rows(vs, 0, us[|us| - 1]).1);
    }
  }

  lemma {:induction false} ClearsClear(v: map<string, Alarm>, ws: seq<Watch>)
    ensures forall i :: 0 <= i < |ws| ==> ws[i].aluid !in DeliverView(v, Clears(ws))
    decreases |ws|
  {
    if ws != [] {
      var most := ws[..|ws| - 1];
      ClearsClear(v, most);
      var ms := Clears(ws);
      assert ms[..|ms| - 1] == Clears(most) && ms[|ms| - 1] == ClearMsg(ws[|ws| - 1]);
    }
  }

  /**
   For rules whose uids and texts a line carries: from the start, whatever the server's table was, and
   after any run of updates and the delivery of all lines, the table has exactly the alarms of the
   rules whose latch is set and whose severity is positive, among the alarms of this collector.
   */
  lemma {:induction false} ServerMirrorsLatches(t: seq<Alarm>, ws: seq<Watch>, us: seq<AlarmRules.Update>)
    requires OnePerUid(t) && Ready(ws) && forall i :: 0 <= i < |ws| ==> !ws[i].fired && RuleCarried(ws[i])
    ensures var (vs, sent) := Run(ws, us); AllMirror(View(Deliver(t, Clears(ws) + sent)), vs)
  {
    ReadyWired(ws);
    hide Run, DeliverView, Deliver, View, Ready, RuleCarried;
    var sent := Run(ws, us).1;
    ClearsClear(View(t), ws);
    RunMirrors(DeliverView(View(t), Clears(ws)), ws, us);
    DeliverMore(View(t), Clears(ws), sent);
    RunSends(ws, us);
    ClearsOfRules(ws);
    OfRulesBoth(Clears(ws), sent, ws);
    DeliverIsView(t, Clears(ws) + sent, ws);
  }

  // ----- rules whose texts a line does not carry

  /** Setting a rule's alarm leaves it on the server as the rule has it exactly if its text survives its quotes. */
  lemma SetTakesEffect(t: seq<Alarm>, w: Watch)
    requires OnePerUid(t) && w.aluid !in View(t) && w.sev > 0 && UidCarried(w.aluid)
    ensures var v := View(TakeLine(t, LineFor(SetMsg(w))));
      w.aluid in v && v[w.aluid] == Alarm(w.aluid, w.msg, w.sev, w.chan) <==> ComesBack(w.msg)
  {
    hide View, AlarmTable.Update, AlarmLine, ReadAlarm, ComesBack;
    AlarmReceived(Unset, w.aluid, w.msg, w.sev, ChannelNumber(w.chan));
    ChannelsBack(w.chan);
    var a := ReadAlarm(Unset, LineFor(SetMsg(w)));
    if a.aluid.Some? {
      ViewUpdate(t, a.aluid.value, a.altext, a.alsev, Channels(a.alchan));
      if !ComesBack(w.msg) {
        TextAfter(View(t), w.aluid, w.msg, a.aluid.value, a.altext, a.alsev, Channels(a.alchan));
      }
    }
  }

  /** A message with the text `x"y`, set or clear, creates or edits the alarm and never removes it. */
  lemma NeverClears(t: seq<Alarm>, m: Msg, x: string, y: string)
    requires OnePerUid(t) && UidCarried(m.aluid) && m.text == x + "\"" + y
    requires '\"' !in x && !EndsInBackslash(x) && y != "" && Unbroken(y)
    ensures m.aluid in View(TakeLine(t, LineFor(m)))
  {
    hide View, AlarmTable.Update, AlarmLine, ReadAlarm, Unbroken, EndsInBackslash, Edit;
    TextSwallowsNumbers(Unset, m.aluid, x, y, m.sev, ChannelNumber(m.chan));
    var a := ReadAlarm(Unset, LineFor(m));
    ViewUpdate(t, m.aluid, a.altext, -1, Channels(a.alchan));
  }

  /** The other rules' lines leave its alarm alone. */
  lemma {:induction false} StaysOnceSent(t: seq<Alarm>, ws: seq<Watch>, k: nat, ms: seq<Msg>, x: string, y: string)
    requires OnePerUid(t) && k < |ws| && UniqueAluids(ws) && OfRules(ms, ws)
    requires forall j :: 0 <= j < |ws| && j != k ==> RuleCarried(ws[j])
    requires UidCarried(ws[k].aluid) && ws[k].msg == x + "\"" + y
    requires '\"' !in x && !EndsInBackslash(x) && y != "" && Unbroken(y)
    ensures (exists i :: 0 <= i < |ms| && ms[i].aluid == ws[k].aluid) ==> ws[k].aluid in View(Deliver(t, ms))
    decreases |ms|
  {
    hide View, TakeLine, LineFor, UidCarried, TextCarried, Unbroken, EndsInBackslash;
    if ms != [] {
      var m, most := ms[|ms| - 1], ms[..|ms| - 1];
      assert forall i :: 0 <= i < |most| ==> most[i] == ms[i];
      StaysOnceSent(t, ws, k, most, x, y);
      assert OfSome(m, ws);
      var j :| 0 <= j < |ws| && OfRule(m, ws[j]);
      if j == k {
        NeverClears(Deliver(t, most), m, x, y);
      } else {
        assert RuleCarried(ws[j]) && m.aluid != ws[k].aluid;
        TakeCarried(Deliver(t, most), m);
      }
    }
  }

  /** So from its first clear on, and whatever its latch, the server has the alarm of such a rule. */
  lemma QuoteRuleStuck(t: seq<Alarm>, ws: seq<Watch>, us: seq<AlarmRules.Update>, k: nat, x: string, y: string)
    requires OnePerUid(t) && k < |ws| && Wired(ws) && UniqueAluids(ws)
    requires forall j :: 0 <= j < |ws| && j != k ==> RuleCarried(ws[j])
    requires UidCarried(ws[k].aluid) && ws[k].msg == x + "\"" + y
    requires '\"' !in x && !EndsInBackslash(x) && y != "" && Unbroken(y)
    ensures ws[k].aluid in View(Deliver(t, Clears(ws) + Run(ws, us).1))
  {
    hide View, Deliver, Wired, UniqueAluids, UidCarried, Unbroken, EndsInBackslash, OfRules, RuleCarried;
    RunSends(ws, us);
    ClearsOfRules(ws);
    OfRulesBoth(Clears(ws), Run(ws, us).1, ws);
    var ms := Clears(ws) + Run(ws, us).1;
    assert ms[k] == ClearMsg(ws[k]);
    StaysOnceSent(t, ws, k, ms, x, y);
  }

  // ----- the messages of one rule

  /** The messages about one alarm. */
  function About(ms: seq<Msg>, aluid: string): seq<Msg> {
    if ms == [] then []
    else About(ms[..|ms| - 1], aluid) + if ms[|ms| - 1].aluid == aluid then [ms[|ms| - 1]] else []
  }

  lemma {:induction false} AboutMore(ms: seq<Msg>, ns: seq<Msg>, aluid: string)
    ensures About(ms + ns, aluid) == About(ms, aluid) + About(ns, aluid)
    decreases |ns|
  {
    if ns == [] {
      assert ms + ns == ms;
    } else {
      assert (ms + ns)[..|ms + ns| - 1] == ms + ns[..|ns| - 1];
      AboutMore(ms, ns[..|ns| - 1], aluid);
    }
  }

  /** Set and clear in turn, the latch being `from` before and `to` after. */
  predicate Alternate(ms: seq<Msg>, w: Watch, from: bool, to: bool) {
    if ms == [] then from == to
    else ms[|ms| - 1] == (if to then SetMsg(w) else ClearMsg(w)) && Alternate(ms[..|ms| - 1], w, from, !to)
  }

  lemma {:induction false} AlternateMore(ms: seq<Msg>, ns: seq<Msg>, w: Watch, from: bool, mid: bool, to: bool)
    requires Alternate(ms, w, from, mid) && Alternate(ns, w, mid, to)
    ensures Alternate(ms + ns, w, from, to)
    decreases |ns|
  {
    if ns == [] {
      assert ms + ns == ms;
    } else {
      assert (ms + ns)[..|ms + ns| - 1] == ms + ns[..|ns| - 1];
      AlternateMore(ms, ns[..|ns| - 1], w, from, mid, !to);
    }
  }

  lemma {:induction false} RowAlternates(ws: seq<Watch>, i: nat, u: AlarmRules.Update, k: nat)
    requires i < |ws| && Ready(ws) && k < |ws| && ws[k].sev > 0
    ensures var (w, sent) := Row(ws, i, u);
      Alternate(About(sent, ws[k].aluid), ws[k], ws[k].fired, ws[i := w][k].fired)
  {
    hide Combined, Tested;
    var (w, sent) := Row(ws, i, u);
    assert i != k ==> ws[i].aluid != ws[k].aluid;
    if sent == [] {
      assert About(sent, ws[k].aluid) == [];
    } else {
      var m := sent[0];
      assert sent == [m] && [m][..0] == [] && About([], ws[k].aluid) == [];
      assert About(sent, ws[k].aluid) == if m.aluid == ws[k].aluid then [m] else [];
    }
  }

  lemma {:induction false} AlternateSame(ms: seq<Msg>, w: Watch, x: Watch, from: bool, to: bool)
    requires SameRule(w, x) && Alternate(ms, w, from, to)
    ensures Alternate(ms, x, from, to)
    decreases |ms|
  {
    if ms != [] {
      AlternateSame(ms[..|ms| - 1], w, x, from, !to);
    }
  }

  lemma {:induction false} RowsAlternate(ws: seq<Watch>, i: nat, u: AlarmRules.Update, k: nat)
    requires i <= |ws| && Ready(ws) && k < |ws| && ws[k].sev > 0
    ensures var (vs, sent) := Rows(ws, i, u);
      Alternate(About(sent, ws[k].aluid), ws[k], ws[k].fired, vs[k].fired)
    decreases |ws| - i
  {
    hide Row, Ready, Alternate, About, AlarmRules.Wired;
    ReadyWired(ws);
    if i == |ws| {
      NothingSent(ws[k]);
    } else if ws[i].uid != u.uid {
      RowsAlternate(ws, i + 1, u, k);
    } else {
      var (w, sent) := Row(ws, i, u);
      var ws' := ws[i := w];
      RowAlternates(ws, i, u, k);
      ReadySame(ws, ws');
      var (vs, more) := Rows(ws', i + 1, u);
      RowsAlternate(ws', i + 1, u, k);
      AlternateSame(About(more, ws'[k].aluid), ws'[k], ws[k], ws'[k].fired, vs[k].fired);
      AboutMore(sent, more, ws[k].aluid);
      AlternateMore(About(sent, ws[k].aluid), About(more, ws[k].aluid), ws[k], ws[k].fired, ws'[k].fired, vs[k].fired);
    }
  }

  lemma {:induction false} NothingSent(w: Watch)
    ensures Alternate(About([], w.aluid), w, w.fired, w.fired)
  {
  }

  /** The messages of a rule with a severity set and clear its alarm in turn, as the latch goes. */
  lemma {:induction false} SetAndClearAlternate(ws: seq<Watch>, us: seq<AlarmRules.Update>, k: nat)
    requires Ready(ws) && k < |ws| && ws[k].sev > 0
    ensures var (vs, sent) := Run(ws, us);
      Alternate(About(sent, ws[k].aluid), ws[k], ws[k].fired, vs[k].fired)
    decreases |us|
  {
    hide Rows, Ready, Alternate, About, AlarmRules.Wired;
    ReadyWired(ws);
    if us == [] {
      NothingSent(ws[k]);
    } else {
      var u, most := us[|us| - 1], us[..|us| - 1];
      var (vs, sent) := Run(ws, most);
      var (xs, more) := Rows(vs, 0, u);
      SetAndClearAlternate(ws, most, k);
      ReadySame(ws, vs);
      RowsAlternate(vs, 0, u, k);
      AlternateSame(About(more, vs[k].aluid), vs[k], ws[k], vs[k].fired, xs[k].fired);
      AboutMore(sent, more, ws[k].aluid);
      AlternateMore(About(sent, ws[k].aluid), About(more, ws[k].aluid), ws[k], ws[k].fired, vs[k].fired, xs[k].fired);
    }
  }

  // ----- the jitter rule

  /** Only the jitter test, whether or not with a handler. */
  predicate PureJitter(w: Watch) {
    JITTER in w.wtype && w.wtype <= {JITTER, HANDLER}
  }

  function UpdatesOf(us: seq<AlarmRules.Update>, uid: string): seq<AlarmRules.Update> {
    if us == [] then []
    else UpdatesOf(us[..|us| - 1], uid) + if us[|us| - 1].uid == uid then [us[|us| - 1]] else []
  }

  /** The value recorded: what the latest update stored that did not repeat the value before, or the first value. */
  function LatestValue(h: seq<AlarmRules.Update>, w: Watch): Data {
    if h == [] then w.val
    else
      var last, before := h[|h| - 1], h[..|h| - 1];
      if Repeats(last, LatestValue(before, w)) then LatestValue(before, w) else last.stored
  }

  /** The update has the value `v`, by the kind of its data. */
  predicate Repeats(u: AlarmRules.Update, v: Data) {
    match u.kind
    case DOUBLE => u.data.d == v.d
    case UINT => u.data.ui == v.ui
    case LL => u.data.ll == v.ll
  }

  /** The time of the latest update whose value differed from the one before, or the start. */
  function LatestChange(h: seq<AlarmRules.Update>, w: Watch): int {
    if h == [] then w.lastchg
    else
      var last, before := h[|h| - 1], h[..|h| - 1];
      if !Repeats(last, LatestValue(before, w)) then last.now else LatestChange(before, w)
  }

  /** The latest value repeated the one before, and that one had lasted for more than the threshold. */
  predicate Stuck(h: seq<AlarmRules.Update>, w: Watch) {
    h != [] &&
    var last, before := h[|h| - 1], h[..|h| - 1];
    Repeats(last, LatestValue(before, w)) && last.now - LatestChange(before, w) > w.threshold
  }

  lemma {:induction false} RowsOther(ws: seq<Watch>, i: nat, u: AlarmRules.Update, k: nat)
    requires i <= |ws| && Wired(ws) && k < |ws| && (k < i || ws[k].uid != u.uid)
    ensures Rows(ws, i, u).0[k] == ws[k]
    decreases |ws| - i
  {
    hide Row, Wired;
    if i < |ws| {
      if ws[i].uid != u.uid {
        RowsOther(ws, i + 1, u, k);
      } else {
        var w := Row(ws, i, u).0;
        WiredSame(ws, ws[i := w]);
        RowsOther(ws[i := w], i + 1, u, k);
      }
    }
  }

  lemma {:induction false} WiredSame(ws: seq<Watch>, vs: seq<Watch>)
    requires Wired(ws) && SameRules(ws, vs)
    ensures Wired(vs)
  {
  }

  /** What an update makes of a pure jitter rule of its device. */
  function Jittered(w: Watch, u: AlarmRules.Update): Watch {
    if !Repeats(u, w.val) then w.(val := u.stored, lastchg := u.now, fired := false)
    else w.(fired := u.now - w.lastchg > w.threshold)
  }

  lemma {:induction false} RowJitter(ws: seq<Watch>, i: nat, u: AlarmRules.Update)
    requires i < |ws| && Wired(ws) && PureJitter(ws[i])
    ensures Row(ws, i, u).0 == Jittered(ws[i], u)
  {
  }

  lemma {:induction false} RowsJitter(ws: seq<Watch>, i: nat, u: AlarmRules.Update, k: nat)
    requires i <= k < |ws| && Wired(ws) && PureJitter(ws[k]) && ws[k].uid == u.uid
    ensures Rows(ws, i, u).0[k] == Jittered(ws[k], u)
    decreases |ws| - i
  {
    hide Row, Wired, PureJitter, Jittered;
    if ws[i].uid != u.uid {
      RowsJitter(ws, i + 1, u, k);
    } else {
      var w := Row(ws, i, u).0;
      WiredSame(ws, ws[i := w]);
      if i == k {
        RowJitter(ws, i, u);
        RowsOther(ws[i := w], i + 1, u, k);
      } else {
        RowsJitter(ws[i := w], i + 1, u, k);
      }
    }
  }

  /** The rule with the value and the time of the latest change, and the latch that goes with them. */
  function Known(h: seq<AlarmRules.Update>, w: Watch): (x: Watch)
    ensures SameRule(w, x)
  {
    w.(val := LatestValue(h, w), lastchg := LatestChange(h, w), fired := Stuck(h, w))
  }

  lemma {:induction false} KnownMore(h: seq<AlarmRules.Update>, u: AlarmRules.Update, w: Watch)
    ensures Known(h + [u], w) == Jittered(Known(h, w), u)
  {
    assert (h + [u])[..|h + [u]| - 1] == h;
  }

  /** After any run, that is what a jitter rule is, by the history of its device. */
  lemma {:induction false} JitterOverRuns(ws: seq<Watch>, us: seq<AlarmRules.Update>, k: nat)
    requires k < |ws| && Wired(ws) && PureJitter(ws[k]) && !ws[k].fired
    ensures Run(ws, us).0[k] == Known(UpdatesOf(us, ws[k].uid), ws[k])
    decreases |us|
  {
    var w := ws[k];
    assert Known([], w) == w;
    hide Rows, Wired, PureJitter, Known, Jittered;
    if us != [] {
      var u, most := us[|us| - 1], us[..|us| - 1];
      var vs, h := Run(ws, most).0, UpdatesOf(most, w.uid);
      JitterOverRuns(ws, most, k);
      if u.uid == w.uid {
        KnownMore(h, u, w);
        PureJitterSame(w, vs[k]);
        RowsJitter(vs, 0, u, k);
      } else {
        RowsOther(vs, 0, u, k);
        assert UpdatesOf(us, w.uid) == h + [] == h;
      }
    }
  }

  lemma {:induction false} PureJitterSame(w: Watch, x: Watch)
    requires PureJitter(w) && SameRule(w, x)
    ensures PureJitter(x)
  {
  }
}
