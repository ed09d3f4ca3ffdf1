/** What clients are told of: nothing but the alarms they listen for or ask to be dumped, and clearings. */
module AlarmWanted {
  import opened Lists
  import opened Decimals
  import opened AlarmTable
  import opened AlarmMirror

  /** Two sets of channels have one in common. */
  predicate Share(a: bv32, b: bv32) {
    a & b != 0
  }

  predicate Within(a: bv32, b: bv32) {
    a & b == a
  }

  lemma ShareIsCheck(a: bv32, b: bv32)
    ensures CheckMask(a, b) == Share(a, b) == Share(b, a)
  {
  }

  /** A message that clears, or that is about a severity and a channel the client listens for. */
  predicate Wanted(m: Msg, watch: int, mask: bv32) {
    m.sev == 0 || (m.sev >= watch && Share(mask, m.chan))
  }

  predicate AllWanted(p: Peer) {
    forall i :: 0 <= i < |p.inbox| ==> Wanted(p.inbox[i], p.watch, p.mask)
  }

  /**
   A setalarm with a uid tells each client at most one thing, and nothing else of it changes: the alarm
   as the table now has it, exactly if the client listens at all and its severity and a channel are
   those it listens for; or that there is no such alarm, exactly if there is none and it listens from a
   positive severity on.
   */
  lemma SetTells(s: State, uid: string, text: Option<string>, sev: CInt, chan: bv32, c: nat)
    requires OnePerUid(s.alarms) && c in s.peers
    ensures var t := Apply(s, DoSet(Some(uid), text, sev, chan));
      var n, p := View(t.alarms), s.peers[c];
      var told := uid in n && p.watch != 0 && n[uid].sev >= p.watch && Share(p.mask, n[uid].chan);
      && c in t.peers && t.peers[c] == p.(inbox := t.peers[c].inbox)
      && t.peers[c].inbox == p.inbox
           + (if told then [Msg(uid, n[uid].text, n[uid].sev, n[uid].chan)] else [])
           + (if uid !in n && p.watch > 0 then [Msg(uid, "", 0, ALL_CHANNELS)] else [])
  {
    ViewUpdate(s.alarms, uid, text, sev, chan);
    hide View, AlarmTable.Update, UpdateView, Share, Tell;
    var p, n := s.peers[c], View(Apply(s, DoSet(Some(uid), text, sev, chan)).alarms);
    var alarm := if uid in n then Some(n[uid]) else None;
    ToldIs(p, uid, alarm);
  }

  lemma ToldIs(p: Peer, uid: string, alarm: Option<Alarm>)
    requires alarm.Some? ==> alarm.value.uid == uid
    ensures var told := alarm.Some? && p.watch != 0 && alarm.value.sev >= p.watch && Share(p.mask, alarm.value.chan);
      Tell(p, uid, alarm) == p.(inbox := p.inbox
        + (if told then [Msg(uid, alarm.value.text, alarm.value.sev, alarm.value.chan)] else [])
        + (if alarm.None? && p.watch > 0 then [Msg(uid, "", 0, ALL_CHANNELS)] else []))
  {
    if alarm.Some? {
      ShareIsCheck(p.mask, alarm.value.chan);
    }
    hide Share, CheckMask;
  }

  /** A dump sends, about each alarm of the table and in its order, what was asked for. */
  lemma {:induction false} DumpSends(before: seq<Alarm>, a: Alarm, behind: seq<Alarm>, sev: CInt, mask: bv32,
                                     uid: Option<string>)
    ensures DumpLines([], sev, mask, uid) == []
    ensures var asked := a.sev >= sev && Share(a.chan, mask) && (uid.None? || a.uid == uid.value);
      DumpLines(before + [a] + behind, sev, mask, uid)
        == DumpLines(before, sev, mask, uid)
           + (if asked then [Msg(a.uid, a.text, a.sev, a.chan)] else []) + DumpLines(behind, sev, mask, uid)
    decreases |behind|
  {
    ShareIsCheck(a.chan, mask);
    hide Share, CheckMask;
    var all := before + [a] + behind;
    if behind == [] {
      assert all == before + [a] && all[..|all| - 1] == before && all[|all| - 1] == a;
    } else {
      var n := |behind| - 1;
      assert all[..|all| - 1] == before + [a] + behind[..n] && all[|all| - 1] == behind[n];
      DumpSends(before, a, behind[..n], sev, mask, uid);
    }
  }

  lemma {:induction false} DumpWanted(t: seq<Alarm>, sev: CInt, mask: bv32, uid: Option<string>, i: nat)
    requires i < |DumpLines(t, sev, mask, uid)|
    ensures var m := DumpLines(t, sev, mask, uid)[i];
      && m.sev >= sev && Share(m.chan, mask) && (uid.Some? ==> m.uid == uid.value)
      && Alarm(m.uid, m.text, m.sev, m.chan) in t
    decreases |t|
  {
    if t != [] {
      ShareIsCheck(t[|t| - 1].chan, mask);
      hide Share, CheckMask;
      var rest := t[..|t| - 1];
      if i < |DumpLines(rest, sev, mask, uid)| {
        DumpWanted(rest, sev, mask, uid, i);
      }
    }
  }

  lemma NarrowMask(wide: bv32, narrow: bv32, chan: bv32)
    requires Within(narrow, wide) && Share(chan, narrow)
    ensures Share(wide, chan)
  {
  }

  /** A step in which client `c` stays connected, keeps listening for the same, and dumps no more than that. */
  predicate Modest(step: Step, c: nat, watch: int, mask: bv32) {
    match step
    case Disconnect(d) => d != c
    case DoListen(d, _, _) => d != c
    case DoDump(d, sev, m, _) => d == c ==> sev >= watch && Within(m, mask)
    case _ => true
  }

  lemma SetWanted(s: State, uid: string, text: Option<string>, sev: CInt, chan: bv32, c: nat)
    requires OnePerUid(s.alarms) && c in s.peers && AllWanted(s.peers[c])
    ensures var t := SetAlarm(s, Some(uid), text, sev, chan);
      && OnePerUid(t.alarms) && c in t.peers && AllWanted(t.peers[c])
      && t.peers[c].watch == s.peers[c].watch && t.peers[c].mask == s.peers[c].mask
  {
    hide Share, View, SetAlarm;
    SetTells(s, uid, text, sev, chan, c);
    SetOnePerUid(s, Some(uid), text, sev, chan);
  }

  lemma DumpedWanted(t: seq<Alarm>, p: Peer, sev: CInt, mask: bv32, uid: Option<string>)
    requires AllWanted(p) && sev >= p.watch && Within(mask, p.mask)
    ensures AllWanted(Dump(t, p, sev, mask, uid))
  {
    hide Share, Within;
    var lines := DumpLines(t, sev, mask, uid);
    forall i | 0 <= i < |lines| ensures Wanted(lines[i], p.watch, p.mask) {
      DumpWanted(t, sev, mask, uid, i);
      NarrowMask(p.mask, mask, lines[i].chan);
    }
    hide DumpLines, Wanted;
  }

  lemma StepWanted(s: State, step: Step, c: nat)
    requires OnePerUid(s.alarms) && c in s.peers && AllWanted(s.peers[c])
    requires Modest(step, c, s.peers[c].watch, s.peers[c].mask)
    ensures var t := Apply(s, step);
      && OnePerUid(t.alarms) && c in t.peers && AllWanted(t.peers[c])
      && t.peers[c].watch == s.peers[c].watch && t.peers[c].mask == s.peers[c].mask
  {
    hide Wanted, Within, Receive, DumpLines;
    match step {
      case DoSet(uid, text, sev, chan) =>
        if uid.Some? {
          SetWanted(s, uid.value, text, sev, chan, c);
          hide SetAlarm;
        }
      case DoDump(d, sev, mask, uid) =>
        hide AllWanted;
        if d == c {
          DumpedWanted(s.alarms, s.peers[c], sev, mask, uid);
        }
      case _ =>
    }
  }

  lemma SetOnePerUid(s: State, uid: Option<string>, text: Option<string>, sev: CInt, chan: bv32)
    requires OnePerUid(s.alarms)
    ensures OnePerUid(SetAlarm(s, uid, text, sev, chan).alarms)
  {
    hide AlarmTable.Update;
  }

  lemma {:induction false} RunWanted(s: State, steps: seq<Step>, c: nat)
    requires OnePerUid(s.alarms) && c in s.peers && AllWanted(s.peers[c])
    requires forall i :: 0 <= i < |steps| ==> Modest(steps[i], c, s.peers[c].watch, s.peers[c].mask)
    ensures var t := Run(s, steps);
      && c in t.peers && AllWanted(t.peers[c])
      && t.peers[c].watch == s.peers[c].watch && t.peers[c].mask == s.peers[c].mask
    decreases |steps|
  {
    if steps != [] {
      hide Apply, AllWanted, Modest;
      assert Modest(steps[0], c, s.peers[c].watch, s.peers[c].mask);
      StepWanted(s, steps[0], c);
      RunWanted(Apply(s, steps[0]), steps[1..], c);
    }
  }

  /**
   A client that connects and listens for a severity and channels: whatever happens while it does not
   listen for something else or dump more than that, every line on its way to it clears an alarm or is
   about one it listens for.  With severity 0 it is told of nothing but what it dumps.
   */
  lemma OnlyWhatIsWanted(s: State, c: nat, sev: CInt, mask: bv32, steps: seq<Step>)
    requires OnePerUid(s.alarms) && c !in s.peers
    requires forall i :: 0 <= i < |steps| ==> Modest(steps[i], c, sev, mask)
    ensures var t := Run(s, [Connect(c)] + [DoListen(c, sev, mask)] + steps);
      c in t.peers && forall i :: 0 <= i < |t.peers[c].inbox| ==> Wanted(t.peers[c].inbox[i], sev, mask)
  {
    hide Run, Modest;
    RunMore(s, [Connect(c)] + [DoListen(c, sev, mask)], steps);
    RunMore(s, [Connect(c)], [DoListen(c, sev, mask)]);
    RunOne(s, Connect(c));
    RunOne(Apply(s, Connect(c)), DoListen(c, sev, mask));
    var t := Apply(Apply(s, Connect(c)), DoListen(c, sev, mask));
    assert t.peers[c].inbox == [] && t.peers[c].watch == sev && t.peers[c].mask == mask && t.alarms == s.alarms;
    hide Apply;
    RunWanted(t, steps, c);
  }
}
