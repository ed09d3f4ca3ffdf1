/**
 The alarm table replicated to listening clients over FIFO connections.

 `progress` records what a client has asked for since it connected; the results are about clients
 that first asked to listen from some positive severity on and then for a dump.
 */
module AlarmMirror {
  import opened Lists
  import opened Decimals
  import opened AlarmTable
  import opened WireLines
  import opened WireAlarms

  /** What gn_setalarm is given to send. */
  datatype Msg = Msg(uid: string, text: string, sev: CInt, chan: bv32)

  datatype Progress = Fresh | Listening | Mirroring | Other

  /** A client: what the server knows of it, the lines on their way, and the client's own table. */
  datatype Peer = Peer(watch: int, mask: bv32, inbox: seq<Msg>, table: seq<Alarm>, progress: Progress)

  datatype State = State(alarms: seq<Alarm>, peers: map<nat, Peer>)

  const NewPeer := Peer(0, 0, [], [], Fresh)

  /** CHECK_MASK: two sets of channels have one in common. */
  predicate CheckMask(a: bv32, b: bv32) {
    a & b != 0
  }

  predicate SubMask(a: bv32, b: bv32) {
    a & b == a
  }

  /** What cmd_setalarm sends to one client, given what update_alarm returned. */
  function Told(p: Peer, uid: string, alarm: Option<Alarm>): seq<Msg> {
    if alarm.None? then
      if p.watch > 0 then [Msg(uid, "", 0, ALL_CHANNELS)] else []
    else
      var a := alarm.value;
      if p.watch <= a.sev && p.watch != 0 && CheckMask(p.mask, a.chan) then [Msg(a.uid, a.text, a.sev, a.chan)] else []
  }

  function Tell(p: Peer, uid: string, alarm: Option<Alarm>): Peer {
    p.(inbox := p.inbox + Told(p, uid, alarm))
  }

  /** cmd_setalarm */
  function SetAlarm(s: State, uid: Option<string>, text: Option<string>, sev: CInt, chan: bv32): State {
    if uid.None? then s
    else
      var r := Update(s.alarms, uid.value, text, sev, chan);
      State(r.table, map c | c in s.peers :: Tell(s.peers[c], uid.value, r.alarm))
  }

  /** cmd_listen_alarms */
  function Listen(p: Peer, sev: CInt, mask: bv32): Peer {
    p.(watch := sev, mask := mask,
       progress := if p.progress == Fresh && sev > 0 then Listening
                   else if (p.progress == Listening || p.progress == Mirroring) && sev == p.watch && mask == p.mask
                   then p.progress else Other)
  }

  predicate Selected(a: Alarm, sev: CInt, mask: bv32, uid: Option<string>) {
    a.sev >= sev && (uid.Some? ==> a.uid == uid.value) && CheckMask(a.chan, mask)
  }

  /** The lines of a dump, in table order. */
  function DumpLines(t: seq<Alarm>, sev: CInt, mask: bv32, uid: Option<string>): seq<Msg> {
    if t == [] then []
    else
      var a := t[|t| - 1];
      DumpLines(t[..|t| - 1], sev, mask, uid)
      + if Selected(a, sev, mask, uid) then [Msg(a.uid, a.text, a.sev, a.chan)] else []
  }

  /** A dump that leaves out nothing the client listens for. */
  predicate Covers(p: Peer, sev: CInt, mask: bv32, uid: Option<string>) {
    sev <= p.watch && SubMask(p.mask, mask) && uid.None?
  }

  /** cmd_dump_alarms */
  function Dump(t: seq<Alarm>, p: Peer, sev: CInt, mask: bv32, uid: Option<string>): Peer {
    p.(inbox := p.inbox + DumpLines(t, sev, mask, uid),
       progress := match p.progress
                   case Fresh => Other
                   case Listening => if Covers(p, sev, mask, uid) then Mirroring else Listening
                   case _ => p.progress)
  }

  /** The line that is written for it. */
  function LineFor(m: Msg): string {
    AlarmLine(m.uid, Some(m.text), m.sev, ChannelNumber(m.chan))
  }

  /** cmd_alarm: the client applies what it reads from a line, if there is a uid in it. */
  ghost function Receive(t: seq<Alarm>, line: string): (r: seq<Alarm>)
    ensures OnePerUid(t) ==> OnePerUid(r)
  {
    var a := ReadAlarm(Cleared, line);
    if a.aluid.None? then t else Update(t, a.aluid.value, a.altext, a.alsev, Channels(a.alchan)).table
  }

  ghost function Deliver(p: Peer): Peer {
    if p.inbox == [] then p else p.(table := Receive(p.table, LineFor(p.inbox[0])), inbox := p.inbox[1..])
  }

  /** The client's table once everything on its way has arrived. */
  ghost function Drain(t: seq<Alarm>, inbox: seq<Msg>): (r: seq<Alarm>)
    ensures OnePerUid(t) ==> OnePerUid(r)
    decreases |inbox|
  {
    if inbox == [] then t else Drain(Receive(t, LineFor(inbox[0])), inbox[1..])
  }

  ghost function Mirror(p: Peer): map<string, Alarm> {
    View(Drain(p.table, p.inbox))
  }

  // ----- runs

  datatype Step =
    | Connect(c: nat)
    | Disconnect(c: nat)
    | DoSet(uid: Option<string>, text: Option<string>, sev: CInt, chan: bv32)
    | DoListen(c: nat, sev: CInt, mask: bv32)
    | DoDump(c: nat, sev: CInt, mask: bv32, uid: Option<string>)
    | DoDeliver(c: nat)

  ghost function Apply(s: State, step: Step): State {
    match step
    case Connect(c) => if c in s.peers then s else s.(peers := s.peers[c := NewPeer])
    case Disconnect(c) => s.(peers := s.peers - {c})
    case DoSet(uid, text, sev, chan) => SetAlarm(s, uid, text, sev, chan)
    case DoListen(c, sev, mask) => if c in s.peers then s.(peers := s.peers[c := Listen(s.peers[c], sev, mask)]) else s
    case DoDump(c, sev, mask, uid) =>
      if c in s.peers then s.(peers := s.peers[c := Dump(s.alarms, s.peers[c], sev, mask, uid)]) else s
    case DoDeliver(c) => if c in s.peers then s.(peers := s.peers[c := Deliver(s.peers[c])]) else s
  }

  ghost function Run(s: State, steps: seq<Step>): State
    decreases |steps|
  {
    if steps == [] then s else Run(Apply(s, steps[0]), steps[1..])
  }

  const Start := State([], map[])

  // ----- the invariant

  /** The alarm is one the client listens for. */
  predicate Matches(a: Alarm, p: Peer) {
    a.sev >= p.watch && CheckMask(p.mask, a.chan)
  }

  /** Alarm `u` in the server's table `m` and in the mirror `k`. */
  predicate Agree(m: map<string, Alarm>, k: map<string, Alarm>, p: Peer, u: string) {
    && (u in k ==> u in m)
    && (p.progress == Mirroring && u in m && Matches(m[u], p) ==> u in k && k[u] == m[u])
  }

  /** What the client will know, against what the server knows (`m`). */
  ghost predicate InStep(m: map<string, Alarm>, p: Peer) {
    && OnePerUid(p.table) && AllCarried(p.inbox)
    && (p.progress == Fresh ==> p.watch == 0 && p.inbox == [] && p.table == [])
    && (p.progress == Listening || p.progress == Mirroring ==>
          p.watch > 0 && forall u :: Agree(m, Mirror(p), p, u))
  }

  /** No alarm in the table has severity 0, and a line carries each of them. */
  predicate Sound(m: map<string, Alarm>) {
    forall u :: u in m ==> m[u].uid == u && m[u].sev != 0 && UidCarried(u) && TextCarried(m[u].text)
  }

  /** A message that its line carries. */
  predicate Carried(m: Msg) {
    UidCarried(m.uid) && TextCarried(m.text)
  }

  predicate AllCarried(ms: seq<Msg>) {
    forall i :: 0 <= i < |ms| ==> Carried(ms[i])
  }

  /** An update whose uid, and whose text if it is used, are carried by a line. */
  predicate FitSet(uid: string, text: Option<string>, sev: CInt) {
    UidCarried(uid) && (text.Some? && sev != 0 ==> TextCarried(text.value))
  }

  predicate Fit(step: Step) {
    step.DoSet? && step.uid.Some? ==> FitSet(step.uid.value, step.text, step.sev)
  }

  predicate AllFit(steps: seq<Step>) {
    forall i :: 0 <= i < |steps| ==> Fit(steps[i])
  }

  lemma {:induction false} NonzeroChannel(mask: bv32, chan: bv32)
    ensures CheckMask(mask, chan) ==> !(chan < 1)
    ensures CheckMask(chan, mask) == CheckMask(mask, chan)
  {
  }

  lemma {:induction false} WiderMask(mine: bv32, wide: bv32, chan: bv32)
    requires SubMask(mine, wide) && CheckMask(mine, chan)
    ensures CheckMask(chan, wide)
  {
  }

  /** A line about an alarm of positive severity on a channel leaves exactly that alarm. */
  lemma {:induction false} LineSetsAlarm(m: map<string, Alarm>, a: Alarm, mask: bv32)
    requires a.sev > 0 && CheckMask(mask, a.chan) && (a.uid in m ==> m[a.uid].uid == a.uid)
    ensures UpdateView(m, a.uid, Some(a.text), a.sev, a.chan) == m[a.uid := a]
  {
    NonzeroChannel(mask, a.chan);
  }

  ghost predicate Inv(s: State) {
    && OnePerUid(s.alarms) && Sound(View(s.alarms))
    && forall c :: c in s.peers ==> InStep(View(s.alarms), s.peers[c])
  }

  lemma {:induction false} DrainMore(t: seq<Alarm>, inbox: seq<Msg>, m: Msg)
    ensures Drain(t, inbox + [m]) == Receive(Drain(t, inbox), LineFor(m))
    decreases |inbox|
  {
    if inbox != [] {
      assert (inbox + [m])[1..] == inbox[1..] + [m];
      DrainMore(Receive(t, LineFor(inbox[0])), inbox[1..], m);
    }
  }

  /** A message that is carried is received as it was sent. */
  lemma ReceiveCarried(t: seq<Alarm>, m: Msg)
    requires Carried(m)
    ensures Receive(t, LineFor(m)) == Update(t, m.uid, Some(m.text), m.sev, m.chan).table
  {
    hide Update, AlarmLine, ReadAlarm;
    AlarmRoundTrip(Cleared, m.uid, Some(m.text), m.sev, ChannelNumber(m.chan));
    ChannelsBack(m.chan);
  }

  /** What one more line does to the mirror. */
  lemma {:induction false} MirrorOneMore(p: Peer, m: Msg)
    requires OnePerUid(p.table) && Carried(m)
    ensures Mirror(p.(inbox := p.inbox + [m])) == UpdateView(Mirror(p), m.uid, Some(m.text), m.sev, m.chan)
  {
    hide Receive, Carried, LineFor;
    DrainMore(p.table, p.inbox, m);
    ReceiveCarried(Drain(p.table, p.inbox), m);
    ViewUpdate(Drain(p.table, p.inbox), m.uid, Some(m.text), m.sev, m.chan);
  }

  /** The mirror after the lines a command sends. */
  function ToldView(k: map<string, Alarm>, lines: seq<Msg>): map<string, Alarm> {
    if lines == [] then k
    else UpdateView(k, lines[0].uid, Some(lines[0].text), lines[0].sev, lines[0].chan)
  }

  lemma {:induction false} ToldAbout(p: Peer, uid: string, alarm: Option<Alarm>)
    requires alarm.Some? ==> alarm.value.uid == uid
    ensures var lines := Told(p, uid, alarm); lines == [] || lines[0].uid == uid
  {
    hide CheckMask;
  }

  lemma {:induction false} TellAgreeElsewhere(m: map<string, Alarm>, k: map<string, Alarm>, p: Peer, uid: string,
                                              text: Option<string>, sev: CInt, chan: bv32, lines: seq<Msg>, u: string)
    requires Agree(m, k, p, u) && u != uid && (lines == [] || lines[0].uid == uid)
    ensures Agree(UpdateView(m, uid, text, sev, chan), ToldView(k, lines), p, u)
  {
    hide CheckMask, Edit;
  }

  lemma {:induction false} TellAgreeThere(m: map<string, Alarm>, k: map<string, Alarm>, p: Peer, uid: string,
                                          text: Option<string>, sev: CInt, chan: bv32)
    requires Agree(m, k, p, uid) && Sound(m) && p.watch > 0 && (uid in k ==> k[uid].uid == uid)
    ensures var n := UpdateView(m, uid, text, sev, chan);
      Agree(n, ToldView(k, Told(p, uid, if uid in n then Some(n[uid]) else None)), p, uid)
  {
    hide UidCarried, TextCarried, CheckMask, Edit;
    UpdateUids(m, uid, text, sev, chan);
    var n := UpdateView(m, uid, text, sev, chan);
    if uid in n && Told(p, uid, Some(n[uid])) != [] {
      LineSetsAlarm(k, n[uid], p.mask);
    }
  }

  lemma {:induction false} TellAgree(m: map<string, Alarm>, k: map<string, Alarm>, p: Peer, uid: string,
                                     text: Option<string>, sev: CInt, chan: bv32, u: string)
    requires Agree(m, k, p, u) && Sound(m) && p.watch > 0 && (uid in k ==> k[uid].uid == uid)
    ensures var n := UpdateView(m, uid, text, sev, chan);
      var alarm := if uid in n then Some(n[uid]) else None;
      Agree(n, ToldView(k, Told(p, uid, alarm)), p, u)
  {
    var n := UpdateView(m, uid, text, sev, chan);
    UpdateUids(m, uid, text, sev, chan);
    hide CheckMask, UpdateView, Told, ToldView, UidCarried, TextCarried;
    var alarm := if uid in n then Some(n[uid]) else None;
    if u == uid {
      TellAgreeThere(m, k, p, uid, text, sev, chan);
    } else {
      ToldAbout(p, uid, alarm);
      TellAgreeElsewhere(m, k, p, uid, text, sev, chan, Told(p, uid, alarm), u);
    }
  }

  lemma UpdateUids(m: map<string, Alarm>, uid: string, text: Option<string>, sev: CInt, chan: bv32)
    requires uid in m ==> m[uid].uid == uid
    ensures var n := UpdateView(m, uid, text, sev, chan); uid in n ==> n[uid].uid == uid
  {
  }

  lemma {:induction false} ToldCarried(p: Peer, uid: string, alarm: Option<Alarm>)
    requires UidCarried(uid) && (alarm.Some? ==> UidCarried(alarm.value.uid) && TextCarried(alarm.value.text))
    ensures AllCarried(Told(p, uid, alarm))
  {
    hide UidCarried, TextCarried, CheckMask;
    NoText();
  }

  lemma {:induction false} TellMirror(p: Peer, uid: string, alarm: Option<Alarm>)
    requires OnePerUid(p.table) && AllCarried(Told(p, uid, alarm))
    ensures Mirror(Tell(p, uid, alarm)) == ToldView(Mirror(p), Told(p, uid, alarm))
  {
    hide CheckMask, Mirror, UpdateView, Carried;
    var lines := Told(p, uid, alarm);
    if lines == [] {
      assert Tell(p, uid, alarm) == p;
    } else {
      assert Carried(lines[0]);
      MirrorOneMore(p, lines[0]);
    }
  }

  lemma {:induction false} TellInStep(m: map<string, Alarm>, p: Peer, uid: string, text: Option<string>, sev: CInt,
                                      chan: bv32)
    requires InStep(m, p) && Sound(m) && FitSet(uid, text, sev)
    ensures var n := UpdateView(m, uid, text, sev, chan);
      InStep(n, Tell(p, uid, if uid in n then Some(n[uid]) else None))
  {
    var n := UpdateView(m, uid, text, sev, chan);
    var alarm := if uid in n then Some(n[uid]) else None;
    UpdateSound(m, uid, text, sev, chan);
    if p.progress == Fresh {
      assert Tell(p, uid, alarm) == p;
    }
    hide Mirror, UpdateView, Told, UidCarried, TextCarried, Carried, Agree;
    ToldCarried(p, uid, alarm);
    if p.progress == Listening || p.progress == Mirroring {
      TellKeepsAgreement(m, p, uid, text, sev, chan, alarm);
    }
  }

  lemma {:induction false} TellKeepsAgreement(m: map<string, Alarm>, p: Peer, uid: string, text: Option<string>,
                                              sev: CInt, chan: bv32, alarm: Option<Alarm>)
    requires OnePerUid(p.table) && AllCarried(Told(p, uid, alarm)) && Sound(m) && p.watch > 0
    requires var n := UpdateView(m, uid, text, sev, chan); alarm == if uid in n then Some(n[uid]) else None
    requires forall u :: Agree(m, Mirror(p), p, u)
    ensures var q := Tell(p, uid, alarm); forall u :: Agree(UpdateView(m, uid, text, sev, chan), Mirror(q), q, u)
  {
    var q := Tell(p, uid, alarm);
    TellMirror(p, uid, alarm);
    hide Mirror, UpdateView, Told, UidCarried, TextCarried, Carried, ToldView;
    forall u ensures Agree(UpdateView(m, uid, text, sev, chan), Mirror(q), q, u) {
      MirrorUids(p);
      TellAgree(m, Mirror(p), p, uid, text, sev, chan, u);
    }
  }

  lemma {:induction false} MirrorUids(p: Peer)
    ensures forall u :: u in Mirror(p) ==> Mirror(p)[u].uid == u
  {
  }

  lemma {:induction false} UpdateSound(m: map<string, Alarm>, uid: string, text: Option<string>, sev: CInt, chan: bv32)
    requires Sound(m) && FitSet(uid, text, sev)
    ensures Sound(UpdateView(m, uid, text, sev, chan))
  {
    hide UidCarried, TextCarried;
  }

  lemma {:induction false} SetInv(s: State, uid: Option<string>, text: Option<string>, sev: CInt, chan: bv32)
    requires Inv(s) && (uid.Some? ==> FitSet(uid.value, text, sev))
    ensures Inv(SetAlarm(s, uid, text, sev, chan))
  {
    if uid.Some? {
      var t := SetAlarm(s, uid, text, sev, chan);
      ViewUpdate(s.alarms, uid.value, text, sev, chan);
      UpdateSound(View(s.alarms), uid.value, text, sev, chan);
      hide InStep, View, UpdateView, FitSet, Sound;
      forall c | c in t.peers ensures InStep(View(t.alarms), t.peers[c]) {
        TellInStep(View(s.alarms), s.peers[c], uid.value, text, sev, chan);
      }
    }
  }

  /** What a dump of table `m` does to alarm `u` of a mirror, from `before` to `after`. */
  predicate Dumped(m: map<string, Alarm>, before: map<string, Alarm>, after: map<string, Alarm>, sev: CInt, mask: bv32,
                   uid: Option<string>, u: string) {
    if u in m && Selected(m[u], sev, mask, uid) then u in after && (m[u].sev > 0 ==> after[u] == m[u])
    else (u in after <==> u in before) && (u in before ==> after[u] == before[u])
  }

  lemma {:induction false} MirrorDump(t: seq<Alarm>, p: Peer, sev: CInt, mask: bv32, uid: Option<string>, u: string)
    requires OnePerUid(t) && Sound(View(t)) && OnePerUid(p.table)
    ensures Dumped(View(t), Mirror(p), Mirror(p.(inbox := p.inbox + DumpLines(t, sev, mask, uid))), sev, mask, uid, u)
    decreases |t|
  {
    hide Mirror, UpdateView, CheckMask, UidCarried, TextCarried;
    if t == [] {
      assert p.inbox + DumpLines(t, sev, mask, uid) == p.inbox;
    } else {
      var a, rest := t[|t| - 1], t[..|t| - 1];
      RestOfTable(t);
      hide View, Dumped, Selected;
      MirrorDump(rest, p, sev, mask, uid, u);
      var q := p.(inbox := p.inbox + DumpLines(rest, sev, mask, uid));
      if Selected(a, sev, mask, uid) {
        assert p.inbox + DumpLines(t, sev, mask, uid) == q.inbox + [Msg(a.uid, a.text, a.sev, a.chan)];
        MirrorDumpOne(View(rest), Mirror(p), q, sev, mask, uid, a, u);
      } else {
        assert p.inbox + DumpLines(t, sev, mask, uid) == q.inbox;
        DumpedNoMore(View(rest), Mirror(p), Mirror(q), sev, mask, uid, a, u);
      }
    }
  }

  lemma MirrorDumpOne(m: map<string, Alarm>, before: map<string, Alarm>, q: Peer, sev: CInt, mask: bv32,
                      uid: Option<string>, a: Alarm, u: string)
    requires Dumped(m, before, Mirror(q), sev, mask, uid, u) && OnePerUid(q.table) && a.uid !in m
    requires Selected(a, sev, mask, uid) && a.sev != 0 && UidCarried(a.uid) && TextCarried(a.text)
    ensures var r := q.(inbox := q.inbox + [Msg(a.uid, a.text, a.sev, a.chan)]);
      Dumped(m[a.uid := a], before, Mirror(r), sev, mask, uid, u)
  {
    hide Mirror, UpdateView, CheckMask, Dumped, UidCarried, TextCarried;
    MirrorOneMore(q, Msg(a.uid, a.text, a.sev, a.chan));
    MirrorUids(q);
    NonzeroChannel(mask, a.chan);
    DumpedOneMore(m, before, Mirror(q), sev, mask, uid, a, u);
  }

  lemma {:induction false} DumpCarried(t: seq<Alarm>, sev: CInt, mask: bv32, uid: Option<string>)
    requires OnePerUid(t) && Sound(View(t))
    ensures AllCarried(DumpLines(t, sev, mask, uid))
    decreases |t|
  {
    if t != [] {
      RestOfTable(t);
      hide View, CheckMask, UidCarried, TextCarried;
      DumpCarried(t[..|t| - 1], sev, mask, uid);
    }
  }

  lemma DumpedNoMore(m: map<string, Alarm>, before: map<string, Alarm>, k: map<string, Alarm>, sev: CInt, mask: bv32,
                     uid: Option<string>, a: Alarm, u: string)
    requires Dumped(m, before, k, sev, mask, uid, u) && a.uid !in m && !Selected(a, sev, mask, uid)
    ensures Dumped(m[a.uid := a], before, k, sev, mask, uid, u)
  {
    hide CheckMask;
  }

  lemma {:induction false} RestOfTable(t: seq<Alarm>)
    requires t != [] && OnePerUid(t) && Sound(View(t))
    ensures var a, rest := t[|t| - 1], t[..|t| - 1];
      && a.uid !in View(rest) && View(t) == View(rest)[a.uid := a] && Sound(View(rest))
      && a.sev != 0 && UidCarried(a.uid) && TextCarried(a.text)
  {
    hide UidCarried, TextCarried;
    var a, rest := t[|t| - 1], t[..|t| - 1];
    ViewFinds(rest, a.uid);
    assert a.uid !in View(rest);
    assert View(t) == View(rest)[a.uid := a];
    assert forall u :: u in View(rest) ==> View(t)[u] == View(rest)[u];
    assert View(t)[a.uid] == a;
  }

  lemma {:induction false} DumpedOneMore(m: map<string, Alarm>, before: map<string, Alarm>, k: map<string, Alarm>,
                                         sev: CInt, mask: bv32, uid: Option<string>, a: Alarm, u: string)
    requires Dumped(m, before, k, sev, mask, uid, u) && a.uid !in m && a.sev != 0
    requires Selected(a, sev, mask, uid) && (a.uid in k ==> k[a.uid].uid == a.uid) && CheckMask(mask, a.chan)
    ensures Dumped(m[a.uid := a], before, UpdateView(k, a.uid, Some(a.text), a.sev, a.chan), sev, mask, uid, u)
  {
    if a.sev > 0 {
      LineSetsAlarm(k, a, mask);
    }
  }

  lemma {:induction false} DumpAgree(m: map<string, Alarm>, before: map<string, Alarm>, after: map<string, Alarm>,
                                     p: Peer, q: Peer, sev: CInt, mask: bv32, uid: Option<string>, u: string)
    requires Agree(m, before, p, u) && Dumped(m, before, after, sev, mask, uid, u)
    requires q.watch == p.watch && q.mask == p.mask && p.watch > 0
    requires q.progress == Mirroring ==> p.progress == Mirroring || Covers(p, sev, mask, uid)
    ensures Agree(m, after, q, u)
  {
    hide CheckMask, SubMask;
    if u in m && Matches(m[u], p) && Covers(p, sev, mask, uid) {
      WiderMask(p.mask, mask, m[u].chan);
    }
  }

  lemma {:induction false} DumpInStep(t: seq<Alarm>, p: Peer, sev: CInt, mask: bv32, uid: Option<string>)
    requires OnePerUid(t) && Sound(View(t)) && InStep(View(t), p)
    ensures InStep(View(t), Dump(t, p, sev, mask, uid))
  {
    var q, lines := Dump(t, p, sev, mask, uid), DumpLines(t, sev, mask, uid);
    assert Mirror(q) == Mirror(p.(inbox := p.inbox + lines)) by {
      hide View, DumpLines;
    }
    hide UidCarried, TextCarried, Carried, View, DumpLines, Drain, Mirror;
    DumpCarried(t, sev, mask, uid);
    if q.progress == Listening || q.progress == Mirroring {
      hide DumpLines, View, Drain, Mirror, Agree, Dumped;
      forall u ensures Agree(View(t), Mirror(q), q, u) {
        MirrorDump(t, p, sev, mask, uid, u);
        DumpAgree(View(t), Mirror(p), Mirror(q), p, q, sev, mask, uid, u);
      }
    }
  }

  lemma {:induction false} DeliverMirror(p: Peer)
    requires OnePerUid(p.table)
    ensures var q := Deliver(p);
      && Mirror(q) == Mirror(p) && OnePerUid(q.table)
      && q.progress == p.progress && q.watch == p.watch && q.mask == p.mask
      && (p.inbox == [] ==> q == p)
  {
    hide View;
  }

  lemma {:induction false} DeliverInStep(m: map<string, Alarm>, p: Peer)
    requires InStep(m, p)
    ensures InStep(m, Deliver(p)) && Mirror(Deliver(p)) == Mirror(p)
  {
    DeliverMirror(p);
    hide CheckMask, Mirror, Deliver;
    var q := Deliver(p);
    if q.progress == Listening || q.progress == Mirroring {
      forall u ensures Agree(m, Mirror(q), q, u) {
        assert Agree(m, Mirror(p), p, u);
      }
    }
  }

  lemma {:induction false} ListenInStep(m: map<string, Alarm>, p: Peer, sev: CInt, mask: bv32)
    requires InStep(m, p)
    ensures InStep(m, Listen(p, sev, mask))
  {
    var q := Listen(p, sev, mask);
    assert Mirror(q) == Mirror(p);
    assert p.progress == Fresh ==> Mirror(p) == map[];
    hide Mirror;
    if q.progress == Listening || q.progress == Mirroring {
      forall u ensures Agree(m, Mirror(q), q, u) {
        assert p.progress != Fresh ==> Agree(m, Mirror(p), p, u);
      }
    }
  }

  lemma {:induction false} StepInv(s: State, step: Step)
    requires Inv(s) && Fit(step)
    ensures Inv(Apply(s, step))
  {
    var t := Apply(s, step);
    match step {
      case DoSet(uid, text, sev, chan) => SetInv(s, uid, text, sev, chan);
      case DoDump(c, sev, mask, uid) =>
        if c in s.peers {
          DumpInStep(s.alarms, s.peers[c], sev, mask, uid);
        }
      case DoDeliver(c) =>
        if c in s.peers {
          DeliverInStep(View(s.alarms), s.peers[c]);
        }
      case DoListen(c, sev, mask) =>
        if c in s.peers {
          ListenInStep(View(s.alarms), s.peers[c], sev, mask);
        }
      case _ =>
    }
  }

  /** Any run whose alarms are carried by their lines keeps the invariant. */
  lemma {:induction false} RunInv(s: State, steps: seq<Step>)
    requires Inv(s) && AllFit(steps)
    ensures Inv(Run(s, steps))
    decreases |steps|
  {
    if steps != [] {
      hide Inv, Apply, Fit;
      assert Fit(steps[0]);
      StepInv(s, steps[0]);
      RunInv(Apply(s, steps[0]), steps[1..]);
    }
  }

  /**
   After any run whose alarms are carried by their lines, for a client that has listened and then
   dumped: every alarm it listens for is mirrored exactly, and nothing it shows is gone on the server.
   */
  lemma {:induction false} Mirrored(steps: seq<Step>, c: nat)
    requires AllFit(steps)
    requires c in Run(Start, steps).peers && Run(Start, steps).peers[c].progress == Mirroring
    ensures var s := Run(Start, steps);
      var p, m := s.peers[c], View(s.alarms);
      && (forall u :: u in Mirror(p) ==> u in m)
      && (forall u :: u in m && Matches(m[u], p) ==> u in Mirror(p) && Mirror(p)[u] == m[u])
  {
    RunInv(Start, steps);
    var s := Run(Start, steps);
    var p, m := s.peers[c], View(s.alarms);
    hide Run, Mirror, View;
    forall u ensures u in Mirror(p) ==> u in m
             ensures u in m && Matches(m[u], p) ==> u in Mirror(p) && Mirror(p)[u] == m[u]
    {
      assert Agree(m, Mirror(p), p, u);
    }
  }

  /** The text on its way to a client. */
  function TextFor(ms: seq<Msg>): seq<string> {
    seq(|ms|, i requires 0 <= i < |ms| => LineFor(ms[i]))
  }

  /** After any such run a client reads off its connection the lines that were written to it, one by one. */
  lemma InboxArrives(steps: seq<Step>, c: nat)
    requires AllFit(steps) && c in Run(Start, steps).peers
    ensures var lines := TextFor(Run(Start, steps).peers[c].inbox); ReadLines(Written(lines)) == lines
  {
    RunInv(Start, steps);
    var ms := Run(Start, steps).peers[c].inbox;
    hide Run, View, Mirror, OneLine, AlarmLine;
    forall i | 0 <= i < |ms| ensures OneLine(TextFor(ms)[i]) {
      assert Carried(ms[i]);
      AlarmArrives(ms[i].uid, Some(ms[i].text), ms[i].sev, ChannelNumber(ms[i].chan), "");
    }
    ReadWritten(TextFor(ms));
  }

  /** Listening to everything: severity 1 and up, all channels. */
  predicate ListensToAll(p: Peer) {
    p.watch == 1 && p.mask == ALL_CHANNELS
  }

  /** A step that is not the client's own command and does not end its connection. */
  predicate Foreign(step: Step, c: nat) {
    !(step.Disconnect? || step.DoListen? || step.DoDump?) || step.c != c
  }

  /** Nobody else changes what a client listens for, nor what it has asked for. */
  lemma {:induction false} ForeignKeeps(s: State, steps: seq<Step>, c: nat)
    requires c in s.peers && forall i :: 0 <= i < |steps| ==> Foreign(steps[i], c)
    ensures var p, t := s.peers[c], Run(s, steps);
      c in t.peers && t.peers[c].progress == p.progress && t.peers[c].watch == p.watch && t.peers[c].mask == p.mask
    decreases |steps|
  {
    if steps != [] {
      hide DumpLines, Update, View;
      assert Foreign(steps[0], c);
      ForeignKeeps(Apply(s, steps[0]), steps[1..], c);
    }
  }

  lemma {:induction false} RunMore(s: State, a: seq<Step>, b: seq<Step>)
    ensures Run(s, a + b) == Run(Run(s, a), b)
    decreases |a|
  {
    if a == [] {
      assert a + b == b;
    } else {
      assert (a + b)[0] == a[0] && (a + b)[1..] == a[1..] + b;
      RunMore(Apply(s, a[0]), a[1..], b);
    }
  }

  lemma RunOne(s: State, step: Step)
    ensures Run(s, [step]) == Apply(s, step)
  {
    assert [step][1..] == [];
  }

  /**
   What brings a client there: connect, listen to everything, dump.  Anything that is not its own
   command may come in between, and behind.
   */
  lemma {:induction false} ListenThenDump(s: State, c: nat, between: seq<Step>, behind: seq<Step>)
    requires c !in s.peers
    requires forall i :: 0 <= i < |between| ==> Foreign(between[i], c)
    requires forall i :: 0 <= i < |behind| ==> Foreign(behind[i], c)
    ensures var asked := [Connect(c)] + [DoListen(c, 1, ALL_CHANNELS)] + between + [DoDump(c, 1, ALL_CHANNELS, None)];
      var t := Run(s, asked + behind);
      c in t.peers && t.peers[c].progress == Mirroring && ListensToAll(t.peers[c])
  {
    hide Run;
    var connect, listen, dump := Connect(c), DoListen(c, 1, ALL_CHANNELS), DoDump(c, 1, ALL_CHANNELS, None);
    RunMore(s, [connect] + [listen] + between + [dump], behind);
    RunMore(s, [connect] + [listen] + between, [dump]);
    RunMore(s, [connect] + [listen], between);
    RunMore(s, [connect], [listen]);
    RunOne(s, connect);
    var s1 := Apply(s, connect);
    RunOne(s1, listen);
    var s2 := Apply(s1, listen);
    ForeignKeeps(s2, between, c);
    var s3 := Run(s2, between);
    RunOne(s3, dump);
    ForeignKeeps(Apply(s3, dump), behind, c);
  }
}
