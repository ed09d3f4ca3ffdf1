/**
 The alarm handlers of the server as they update its list of clients and its table in place, each
 proved to do what AlarmMirror.dfy says.
 */
module AlarmServer {
  import opened Lists
  import opened Decimals
  import opened AlarmTable
  import opened AlarmMirror

  class Server {
    const table: Table
    var clients: seq<nat>
    var peers: map<nat, Peer>

    ghost predicate Valid()
      reads this, table
    {
      && OnePerUid(table.alarms)
      && Distinct(clients)
      && forall c :: c in clients <==> c in peers
    }

    ghost function Abs(): State
      reads this, table
    {
      State(table.alarms, peers)
    }

    constructor ()
      ensures Valid() && Abs() == Start && fresh(table)
    {
      table := new Table();
      clients, peers := [], map[];
    }

    /** The loop of cmd_setalarm that tells the clients what update_alarm has done. */
    static method TellAll(clients: seq<nat>, peers: map<nat, Peer>, uid: string, alarm: Option<Alarm>)
      returns (r: map<nat, Peer>)
      requires Distinct(clients) && forall c :: c in clients <==> c in peers
      ensures r == map c | c in peers :: Tell(peers[c], uid, alarm)
    {
      var i := 0;
      r := peers;
      while i < |clients|
        invariant 0 <= i <= |clients|
        invariant r.Keys == peers.Keys
        invariant forall k :: 0 <= k < i ==> r[clients[k]] == Tell(peers[clients[k]], uid, alarm)
        invariant forall k :: i <= k < |clients| ==> r[clients[k]] == peers[clients[k]]
      {
        var c := clients[i];
        assert c in clients;
        var p := r[c];
        if alarm.None? {
          if p.watch > 0 {
            r := r[c := p.(inbox := p.inbox + [Msg(uid, "", 0, ALL_CHANNELS)])];
          }
        } else {
          var a := alarm.value;
          if p.watch <= a.sev && p.watch != 0 && CheckMask(p.mask, a.chan) {
            r := r[c := p.(inbox := p.inbox + [Msg(a.uid, a.text, a.sev, a.chan)])];
          }
        }
        assert Tell(p, uid, alarm) == r[c] by {
          if Told(p, uid, alarm) == [] {
            assert p.inbox + [] == p.inbox;
          }
        }
        i := i + 1;
      }
      forall c | c in peers ensures r[c] == Tell(peers[c], uid, alarm) {
        assert c in clients;
      }
    }

    /** cmd_setalarm */
    method CmdSetAlarm(uid: Option<string>, text: Option<string>, sev: CInt, chan: bv32)
      requires Valid()
      modifies this, table
      ensures Valid() && Abs() == SetAlarm(old(Abs()), uid, text, sev, chan)
    {
      if uid.None? {
        return;
      }
      var alarm := table.UpdateAlarm(uid.value, text, sev, chan);
      peers := TellAll(clients, peers, uid.value, alarm);
    }

    /** cmd_listen_alarms */
    method CmdListenAlarms(c: nat, sev: CInt, mask: bv32)
      requires Valid() && c in peers
      modifies this
      ensures Valid() && Abs() == Apply(old(Abs()), DoListen(c, sev, mask))
      ensures peers.Keys == old(peers).Keys && peers[c].watch == sev && peers[c].mask == mask
      ensures peers[c].inbox == old(peers)[c].inbox && peers[c].table == old(peers)[c].table
      ensures forall d :: d in peers && d != c ==> peers[d] == old(peers)[d]
      ensures table.alarms == old(table.alarms)
    {
      var p := peers[c];
      p := p.(watch := sev, progress := Listen(p, sev, mask).progress);
      p := p.(mask := mask);
      peers := peers[c := p];
    }

    /** cmd_dump_alarms */
    method CmdDumpAlarms(c: nat, sev: CInt, mask: bv32, uid: Option<string>)
      requires Valid() && c in peers
      modifies this
      ensures Valid() && Abs() == Apply(old(Abs()), DoDump(c, sev, mask, uid))
    {
      var lines, i := [], 0;
      while i < |table.alarms|
        invariant 0 <= i <= |table.alarms|
        invariant lines == DumpLines(table.alarms[..i], sev, mask, uid)
      {
        assert table.alarms[..i + 1][..i] == table.alarms[..i];
        var a := table.alarms[i];
        if a.sev >= sev && (uid.None? || a.uid == uid.value) && CheckMask(a.chan, mask) {
          lines := lines + [Msg(a.uid, a.text, a.sev, a.chan)];
        }
        i := i + 1;
      }
      assert table.alarms[..i] == table.alarms;
      var p := peers[c];
      peers := peers[c := Dump(table.alarms, p, sev, mask, uid).(inbox := p.inbox + lines)];
    }
  }
}
