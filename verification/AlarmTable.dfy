/**
 The alarm table that the server and every listening client keep: a list of alarms, one per uid, and
 the map it stands for.
 */
module AlarmTable {
  import opened Lists
  import opened Decimals

  const GENERIC: bv32 := 1
  const ALL_CHANNELS: bv32 := 0xFFFF_FFFF

  /** alarm_t */
  datatype Alarm = Alarm(uid: string, text: string, sev: CInt, chan: bv32)

  /** The table after an update, and the alarm that update_alarm returns a pointer to. */
  datatype Updated = Updated(table: seq<Alarm>, alarm: Option<Alarm>)

  predicate OnePerUid(t: seq<Alarm>) {
    forall i, j :: 0 <= i < j < |t| ==> t[i].uid != t[j].uid
  }

  /** find_alarm_by_aluid: the index of the alarm, -1 if there is none. */
  function Find(t: seq<Alarm>, uid: string): (i: int)
    ensures -1 <= i < |t|
    ensures i >= 0 ==> t[i].uid == uid
    ensures i == -1 ==> forall k :: 0 <= k < |t| ==> t[k].uid != uid
  {
    if t == [] then -1
    else
      var i := Find(t[..|t| - 1], uid);
      if i == -1 && t[|t| - 1].uid == uid then |t| - 1 else i
  }

  /** What an update makes of an existing alarm: severity -1 means "unchanged". */
  function Edit(a: Alarm, text: Option<string>, sev: CInt, chan: bv32): Alarm {
    Alarm(a.uid, if text.Some? then text.value else a.text, if sev != -1 then sev else a.sev,
          if chan < 1 then chan | GENERIC else chan)
  }

  /** update_alarm */
  function Update(t: seq<Alarm>, uid: string, text: Option<string>, sev: CInt, chan: bv32): (r: Updated)
    ensures OnePerUid(t) ==> OnePerUid(r.table)
  {
    var i := Find(t, uid);
    if i == -1 then
      if sev == 0 || text.None? then Updated(t, None)
      else var a := Alarm(uid, text.value, sev, chan); Updated(t + [a], Some(a))
    else if sev == 0 then Updated(t[..i] + t[i + 1..], None)
    else var a := Edit(t[i], text, sev, chan); Updated(t[i := a], Some(a))
  }

  /** The map a table stands for. */
  function View(t: seq<Alarm>): (m: map<string, Alarm>)
    ensures forall u :: u in m ==> m[u].uid == u
  {
    if t == [] then map[] else View(t[..|t| - 1])[t[|t| - 1].uid := t[|t| - 1]]
  }

  function UpdateView(m: map<string, Alarm>, uid: string, text: Option<string>, sev: CInt, chan: bv32)
    : map<string, Alarm>
  {
    if uid !in m then
      if sev == 0 || text.None? then m else m[uid := Alarm(uid, text.value, sev, chan)]
    else if sev == 0 then m - {uid}
    else m[uid := Edit(m[uid], text, sev, chan)]
  }

  /** An update of a known alarm: severity 0 removes it; -1, no text and no channel leave what it had. */
  lemma KnownAlarm(m: map<string, Alarm>, uid: string, text: Option<string>, sev: CInt, chan: bv32)
    requires uid in m
    ensures var n := UpdateView(m, uid, text, sev, chan);
      && (uid in n <==> sev != 0)
      && (sev != 0 ==>
            && n[uid].uid == m[uid].uid
            && n[uid].sev == (if sev == -1 then m[uid].sev else sev)
            && (text.None? ==> n[uid].text == m[uid].text) && (text.Some? ==> text == Some(n[uid].text))
            && n[uid].chan == (if chan == 0 then 1 else chan))
  {
    NoChannel(chan);
  }

  lemma NoChannel(chan: bv32)
    ensures chan < 1 <==> chan == 0
    ensures 0 as bv32 | GENERIC == 1
  {
  }

  /** An unknown one is made if there is a text and a severity, as it is given; no other alarm changes. */
  lemma UnknownAlarm(m: map<string, Alarm>, uid: string, text: Option<string>, sev: CInt, chan: bv32)
    ensures var n := UpdateView(m, uid, text, sev, chan);
      && (uid !in m ==> (uid in n <==> text.Some? && sev != 0))
      && (uid !in m && uid in n ==> n[uid] == Alarm(uid, text.value, sev, chan))
      && forall u :: u != uid ==> (u in n <==> u in m) && (u in m ==> n[u] == m[u])
  {
    hide Edit;
  }

  lemma {:induction false} ViewFinds(t: seq<Alarm>, uid: string)
    requires OnePerUid(t)
    ensures uid in View(t) <==> Find(t, uid) != -1
    ensures uid in View(t) ==> View(t)[uid] == t[Find(t, uid)]
  {
    if t != [] {
      ViewFinds(t[..|t| - 1], uid);
    }
  }

  lemma {:induction false} FindUpdated(t: seq<Alarm>, uid: string, text: Option<string>, sev: CInt, chan: bv32)
    requires OnePerUid(t)
    ensures var r := Update(t, uid, text, sev, chan);
      if r.alarm.None? then Find(r.table, uid) == -1
      else Find(r.table, uid) != -1 && r.table[Find(r.table, uid)] == r.alarm.value
  {
    hide Find;
    var r, i := Update(t, uid, text, sev, chan), Find(t, uid);
    if r.alarm.Some? {
      assert r.table[if i == -1 then |t| else i] == r.alarm.value;
    } else {
      forall j | 0 <= j < |r.table| ensures r.table[j].uid != uid {
        assert r.table[j] == t[if i == -1 || j < i then j else j + 1];
      }
    }
  }

  lemma {:induction false} ViewElsewhere(t: seq<Alarm>, uid: string, text: Option<string>, sev: CInt, chan: bv32,
                                         u: string)
    requires OnePerUid(t) && u != uid
    ensures var r := Update(t, uid, text, sev, chan).table;
      (u in View(r) <==> u in View(t)) && (u in View(t) ==> View(r)[u] == View(t)[u])
  {
    hide View, Update;
    ViewFinds(Update(t, uid, text, sev, chan).table, u);
    ViewFinds(t, u);
    FindAfterUpdate(t, uid, text, sev, chan, u);
  }

  lemma {:induction false} ViewThere(t: seq<Alarm>, uid: string, text: Option<string>, sev: CInt, chan: bv32)
    requires OnePerUid(t)
    ensures var r, m := Update(t, uid, text, sev, chan), UpdateView(View(t), uid, text, sev, chan);
      && r.alarm == (if uid in m then Some(m[uid]) else None)
      && (uid in View(r.table) <==> uid in m) && (uid in m ==> View(r.table)[uid] == m[uid])
  {
    hide View;
    ViewFinds(t, uid);
    FindUpdated(t, uid, text, sev, chan);
    ViewFinds(Update(t, uid, text, sev, chan).table, uid);
  }

  /** What the table stands for after an update. */
  lemma {:induction false} ViewUpdate(t: seq<Alarm>, uid: string, text: Option<string>, sev: CInt, chan: bv32)
    requires OnePerUid(t)
    ensures View(Update(t, uid, text, sev, chan).table) == UpdateView(View(t), uid, text, sev, chan)
    ensures var m := UpdateView(View(t), uid, text, sev, chan);
      Update(t, uid, text, sev, chan).alarm == if uid in m then Some(m[uid]) else None
  {
    hide View, Update;
    var r, m := Update(t, uid, text, sev, chan), UpdateView(View(t), uid, text, sev, chan);
    ViewThere(t, uid, text, sev, chan);
    forall u ensures u in View(r.table) <==> u in m
             ensures u in m ==> View(r.table)[u] == m[u]
    {
      if u != uid {
        ViewElsewhere(t, uid, text, sev, chan, u);
      }
    }
  }

  /** An update with another text does not bring about this one. */
  lemma TextAfter(m: map<string, Alarm>, u: string, not: string, uid: string, text: Option<string>, sev: CInt,
                  chan: bv32)
    requires text != Some(not) && (u in m ==> m[u].text != not)
    ensures var k := UpdateView(m, uid, text, sev, chan); u in k ==> k[u].text != not
  {
  }

  lemma {:induction false} FindAfterUpdate(t: seq<Alarm>, uid: string, text: Option<string>, sev: CInt, chan: bv32,
                                           u: string)
    requires OnePerUid(t)
    ensures var r := Update(t, uid, text, sev, chan).table;
      && (u != uid ==> (Find(r, u) == -1 <==> Find(t, u) == -1))
      && (u != uid && Find(t, u) != -1 ==> r[Find(r, u)] == t[Find(t, u)])
  {
    hide Find;
    var r, i, k := Update(t, uid, text, sev, chan).table, Find(t, uid), Find(t, u);
    if u != uid && k != -1 {
      var j := if i != -1 && sev == 0 && k > i then k - 1 else k;
      assert r[j] == t[k];
    }
    if u != uid && Find(r, u) != -1 {
      var j := Find(r, u);
      var l := if i != -1 && sev == 0 && j >= i then j + 1 else j;
      assert l < |t| ==> r[j] == t[l];
    }
  }

  /** The table as the list it is. */
  class Table {
    var alarms: seq<Alarm>

    constructor ()
      ensures alarms == []
    {
      alarms := [];
    }

    method FindByUid(uid: string) returns (i: int)
      requires OnePerUid(alarms)
      ensures i == Find(alarms, uid)
    {
      i := 0;
      while i < |alarms|
        invariant 0 <= i <= |alarms|
        invariant forall k :: 0 <= k < i ==> alarms[k].uid != uid
      {
        if alarms[i].uid == uid {
          return;
        }
        i := i + 1;
      }
      return -1;
    }

    method UpdateAlarm(uid: string, text: Option<string>, sev: CInt, chan: bv32) returns (alarm: Option<Alarm>)
      requires OnePerUid(alarms)
      modifies this
      ensures alarms == Update(old(alarms), uid, text, sev, chan).table
      ensures alarm == Update(old(alarms), uid, text, sev, chan).alarm
      ensures OnePerUid(alarms)
      ensures View(alarms) == UpdateView(old(View(alarms)), uid, text, sev, chan)
    {
      ViewUpdate(alarms, uid, text, sev, chan);
      var i := FindByUid(uid);
      if i == -1 && sev == 0 {
        return None;
      }
      if i == -1 {
        if text.None? {
          return None;
        }
        alarms := alarms + [Alarm(uid, text.value, sev, chan)];
        return Some(alarms[|alarms| - 1]);
      }
      if sev == 0 {
        alarms := alarms[..i] + alarms[i + 1..];
        return None;
      }
      var a := alarms[i];
      if text.Some? {
        a := a.(text := text.value);
      }
      if sev != -1 {
        a := a.(sev := sev);
      }
      a := a.(chan := if chan < 1 then chan | GENERIC else chan);
      alarms := alarms[i := a];
      return Some(a);
    }
  }
}
