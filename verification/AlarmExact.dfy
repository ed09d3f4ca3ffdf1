/** When the mirror of a client that listens to everything is exactly the server's alarm table. */
module AlarmExact {
  import opened Lists
  import opened Decimals
  import opened WireWords
  import opened WireNames
  import opened WireAlarms
  import opened AlarmTable
  import opened AlarmMirror

  /** Every alarm has a positive severity and a channel. */
  predicate Visible(m: map<string, Alarm>) {
    forall u :: u in m ==> m[u].sev > 0 && m[u].chan != 0
  }

  /**
   A command that leaves every alarm visible: severity positive, or zero, or left out for an existing
   alarm; a new alarm is on some channel.  (One without text for an unknown alarm is ignored.)
   */
  predicate Showing(m: map<string, Alarm>, step: Step) {
    step.DoSet? && step.uid.Some? ==>
      || step.sev == 0
      || (step.uid.value in m && (step.sev == -1 || step.sev > 0))
      || (step.uid.value !in m && (step.text.None? || (step.sev > 0 && step.chan != 0)))
  }

  /** A command within the rules: it also has a uid and a text that a line carries. */
  predicate Regular(m: map<string, Alarm>, step: Step) {
    Showing(m, step) && Fit(step)
  }

  lemma {:induction false} AllChannels(chan: bv32)
    ensures CheckMask(ALL_CHANNELS, chan) <==> chan != 0
  {
  }

  /** If every alarm is visible, a client listening to everything has the server's table exactly. */
  lemma {:induction false} ExactMirror(m: map<string, Alarm>, p: Peer)
    requires InStep(m, p) && p.progress == Mirroring && ListensToAll(p) && Visible(m)
    ensures Mirror(p) == m
  {
    hide Mirror;
    forall u ensures u in Mirror(p) <==> u in m
             ensures u in m ==> Mirror(p)[u] == m[u]
    {
      assert Agree(m, Mirror(p), p, u);
      if u in m {
        AllChannels(m[u].chan);
      }
    }
  }

  lemma {:induction false} VisibleUpdate(m: map<string, Alarm>, uid: string, text: Option<string>, sev: CInt,
                                         chan: bv32)
    requires Visible(m)
    ensures Visible(UpdateView(m, uid, text, sev, chan)) <==> Showing(m, DoSet(Some(uid), text, sev, chan))
  {
    var n := UpdateView(m, uid, text, sev, chan);
    GenericChannel(chan);
    if !Showing(m, DoSet(Some(uid), text, sev, chan)) {
      assert uid in n && !(n[uid].sev > 0 && n[uid].chan != 0);
    }
  }

  lemma {:induction false} VisibleStep(s: State, step: Step)
    requires Inv(s) && Visible(View(s.alarms))
    ensures Visible(View(Apply(s, step).alarms)) <==> Showing(View(s.alarms), step)
  {
    if step.DoSet? && step.uid.Some? {
      hide View, Inv, Visible, UpdateView;
      ViewUpdate(s.alarms, step.uid.value, step.text, step.sev, step.chan);
      VisibleUpdate(View(s.alarms), step.uid.value, step.text, step.sev, step.chan);
    }
  }

  lemma {:induction false} GenericChannel(chan: bv32)
    ensures chan < 1 ==> chan | GENERIC != 0
    ensures !(chan < 1) ==> chan != 0
  {
  }

  /** All commands of a run are within the rules. */
  ghost predicate AllRegular(s: State, steps: seq<Step>)
    decreases |steps|
  {
    steps == [] || (Regular(View(s.alarms), steps[0]) && AllRegular(Apply(s, steps[0]), steps[1..]))
  }

  lemma {:induction false} RunVisible(s: State, steps: seq<Step>)
    requires Inv(s) && Visible(View(s.alarms)) && AllRegular(s, steps)
    ensures Visible(View(Run(s, steps).alarms)) && AllFit(steps)
    decreases |steps|
  {
    if steps != [] {
      hide Inv, View, Fit;
      StepInv(s, steps[0]);
      VisibleStep(s, steps[0]);
      RunVisible(Apply(s, steps[0]), steps[1..]);
    }
  }

  /** After any run within the rules the lines on their way complete an exact copy of the table. */
  lemma {:induction false} MirroredExactly(steps: seq<Step>, c: nat)
    requires AllRegular(Start, steps)
    requires c in Run(Start, steps).peers && Run(Start, steps).peers[c].progress == Mirroring
    requires ListensToAll(Run(Start, steps).peers[c])
    ensures Mirror(Run(Start, steps).peers[c]) == View(Run(Start, steps).alarms)
  {
    RunVisible(Start, steps);
    RunInv(Start, steps);
    ExactMirror(View(Run(Start, steps).alarms), Run(Start, steps).peers[c]);
  }

  /**
   The rules are exact: a command that breaks them breaks an exact mirror, any other keeps it.  (The
   text of a command has come in a line, so that there is no line feed in it.)
   */
  lemma {:induction false} RegularIsNeeded(s: State, c: nat, uid: string, text: Option<string>, sev: CInt, chan: bv32)
    requires Inv(s) && Visible(View(s.alarms))
    requires c in s.peers && s.peers[c].progress == Mirroring && ListensToAll(s.peers[c])
    requires UidCarried(uid) && (text.Some? ==> '\n' !in text.value)
    ensures var step := DoSet(Some(uid), text, sev, chan);
      var t := Apply(s, step);
      c in t.peers && (Mirror(t.peers[c]) == View(t.alarms) <==> Regular(View(s.alarms), step))
  {
    var step := DoSet(Some(uid), text, sev, chan);
    var t, m, p := Apply(s, step), View(s.alarms), s.peers[c];
    VisibleStep(s, step);
    if Regular(m, step) {
      StepInv(s, step);
      hide View, Mirror;
      ExactMirror(View(t.alarms), t.peers[c]);
    } else {
      hide View, Mirror, UidCarried, ComesBack, Showing, Fit;
      ViewUpdate(s.alarms, uid, text, sev, chan);
      ExactMirror(m, p);
      IrregularSpoils(m, p, uid, text, sev, chan);
    }
  }

  lemma IrregularSpoils(m: map<string, Alarm>, p: Peer, uid: string, text: Option<string>, sev: CInt, chan: bv32)
    requires OnePerUid(p.table) && Mirror(p) == m && Sound(m) && Visible(m) && ListensToAll(p)
    requires UidCarried(uid) && (text.Some? ==> '\n' !in text.value) && !Regular(m, DoSet(Some(uid), text, sev, chan))
    ensures var n := UpdateView(m, uid, text, sev, chan);
      Mirror(Tell(p, uid, if uid in n then Some(n[uid]) else None)) != n
  {
    hide Mirror, UidCarried, ComesBack, Sound, Visible, Edit;
    if Showing(m, DoSet(Some(uid), text, sev, chan)) {
      SpoiltTold(m, p, uid, text.value, sev, chan);
    } else {
      IrregularUntold(m, p, uid, text, sev, chan);
      hide UpdateView, Told;
      var n := UpdateView(m, uid, text, sev, chan);
      assert Tell(p, uid, Some(n[uid])) == p;
    }
  }

  lemma {:induction false} IrregularUntold(m: map<string, Alarm>, p: Peer, uid: string, text: Option<string>, sev: CInt,
                                           chan: bv32)
    requires Visible(m) && ListensToAll(p) && !Showing(m, DoSet(Some(uid), text, sev, chan))
    ensures var n := UpdateView(m, uid, text, sev, chan);
      uid in n && Told(p, uid, Some(n[uid])) == [] && n != m
  {
    var n := UpdateView(m, uid, text, sev, chan);
    AllChannels(n[uid].chan);
    GenericChannel(chan);
    assert uid in m ==> n[uid] != m[uid];
  }

  /** A text that does not come back: whatever the client reads, it does not get the alarm. */
  lemma SpoiltTold(m: map<string, Alarm>, p: Peer, uid: string, text: string, sev: CInt, chan: bv32)
    requires OnePerUid(p.table) && Mirror(p) == m && Sound(m)
    requires UidCarried(uid) && sev != 0 && !ComesBack(text)
    ensures var n := UpdateView(m, uid, Some(text), sev, chan);
      uid in n && Mirror(Tell(p, uid, Some(n[uid]))) != n
  {
    var n := UpdateView(m, uid, Some(text), sev, chan);
    var q := Tell(p, uid, Some(n[uid]));
    assert n[uid].uid == uid && n[uid].text == text;
    assert uid in m ==> m[uid].text != text;
    hide ComesBack, Sound;
    if Told(p, uid, Some(n[uid])) == [] {
      assert q == p;
    } else {
      var msg := Msg(uid, text, n[uid].sev, n[uid].chan);
      hide UpdateView;
      SpoiltReceived(m, p, msg);
    }
  }

  lemma SpoiltReceived(m: map<string, Alarm>, p: Peer, msg: Msg)
    requires OnePerUid(p.table) && Mirror(p) == m && UidCarried(msg.uid) && !ComesBack(msg.text)
    requires msg.uid in m ==> m[msg.uid].text != msg.text
    ensures var k := Mirror(p.(inbox := p.inbox + [msg])); msg.uid in k ==> k[msg.uid].text != msg.text
  {
    hide Drain, Update, View, ComesBack, ReadAlarm, AlarmLine;
    var d, a := Drain(p.table, p.inbox), ReadAlarm(Cleared, LineFor(msg));
    DrainMore(p.table, p.inbox, msg);
    AlarmReceived(Cleared, msg.uid, msg.text, msg.sev, ChannelNumber(msg.chan));
    if a.aluid.Some? {
      ViewUpdate(d, a.aluid.value, a.altext, a.alsev, Channels(a.alchan));
      TextAfter(m, msg.uid, msg.text, a.aluid.value, a.altext, a.alsev, Channels(a.alchan));
    }
  }

  /** What client 0 does to hear of everything. */
  function Asked(): seq<Step> {
    [Connect(0)] + [DoListen(0, 1, ALL_CHANNELS)] + [] + [DoDump(0, 1, ALL_CHANNELS, None)]
  }

  lemma AfterAsking()
    ensures var s := Run(Start, Asked());
      && Inv(s) && View(s.alarms) == map[]
      && 0 in s.peers && s.peers[0].progress == Mirroring && ListensToAll(s.peers[0])
  {
    hide Run, Mirror;
    assert Asked() + [] == Asked();
    ListenThenDump(Start, 0, [], []);
    RunInv(Start, Asked());
    NothingSet(Asked());
  }

  /** A new alarm on no channel, set after everything was asked for, is not mirrored. */
  lemma NoChannelUntold()
    ensures var t := Run(Start, Asked() + [DoSet(Some("a"), Some("text"), 1, 0)]);
      0 in t.peers && Mirror(t.peers[0]) != View(t.alarms)
  {
    hide Run, Mirror, View, Asked;
    var late := DoSet(Some("a"), Some("text"), 1, 0);
    AfterAsking();
    RunMore(Start, Asked(), [late]);
    RunOne(Run(Start, Asked()), late);
    RegularIsNeeded(Run(Start, Asked()), 0, "a", Some("text"), 1, 0);
  }

  /** The server has a new alarm whose text is `x"y`; a client that has asked for everything has no such alarm. */
  lemma QuoteUntold(uid: string, x: string, y: string, sev: CInt, chan: bv32)
    requires UidCarried(uid) && '\"' !in x && !EndsInBackslash(x) && y != "" && Unbroken(y) && sev > 0 && chan != 0
    ensures var t := Run(Start, Asked() + [DoSet(Some(uid), Some(x + "\"" + y), sev, chan)]);
      && View(t.alarms) == map[uid := Alarm(uid, x + "\"" + y, sev, chan)]
      && 0 in t.peers && Mirror(t.peers[0]) == map[]
  {
    hide Run, View, Asked, Update, UidCarried, Unbroken, EndsInBackslash;
    var text := x + "\"" + y;
    var late := DoSet(Some(uid), Some(text), sev, chan);
    AfterAsking();
    RunMore(Start, Asked(), [late]);
    var s := Run(Start, Asked());
    RunOne(s, late);
    ViewUpdate(s.alarms, uid, Some(text), sev, chan);
    ExactMirror(map[], s.peers[0]);
    hide Mirror, Inv;
    assert Apply(s, late).peers[0] == Tell(s.peers[0], uid, Some(Alarm(uid, text, sev, chan)));
    NothingHeard(s.peers[0], Msg(uid, text, sev, chan), x, y);
  }

  lemma NothingHeard(p: Peer, msg: Msg, x: string, y: string)
    requires OnePerUid(p.table) && Mirror(p) == map[] && UidCarried(msg.uid) && msg.text == x + "\"" + y
    requires '\"' !in x && !EndsInBackslash(x) && y != "" && Unbroken(y)
    ensures Mirror(p.(inbox := p.inbox + [msg])) == map[]
  {
    hide Drain, Update, View, ReadAlarm, AlarmLine;
    DrainMore(p.table, p.inbox, msg);
    TextSwallowsNumbers(Cleared, msg.uid, x, y, msg.sev, ChannelNumber(msg.chan));
    var a := ReadAlarm(Cleared, LineFor(msg));
    ViewUpdate(Drain(p.table, p.inbox), msg.uid, a.altext, 0, Channels(a.alchan));
  }

  /** Without a setalarm the table stays empty. */
  lemma {:induction false} NothingSet(steps: seq<Step>)
    requires forall i :: 0 <= i < |steps| ==> !steps[i].DoSet?
    ensures Run(Start, steps).alarms == []
  {
    NothingSetFrom(Start, steps);
  }

  lemma {:induction false} NothingSetFrom(s: State, steps: seq<Step>)
    requires forall i :: 0 <= i < |steps| ==> !steps[i].DoSet?
    ensures Run(s, steps).alarms == s.alarms
    decreases |steps|
  {
    if steps != [] {
      assert !steps[0].DoSet?;
      NothingSetFrom(Apply(s, steps[0]), steps[1..]);
    }
  }
}
