/**
 The server as an object whose handlers update its queues and tables in place, each proved to do what
 PubSub.dfy says.
 */
module PubSubServer {
  import opened Lists
  import opened Divisors
  import opened FeedSchedule
  import opened PubSub
  import opened PubSubSafety

  class Server {
    var clients: seq<nat>
    var client: map<nat, Client>
    var alldevs: seq<string>
    var device: map<string, Device>
    var born: nat

    ghost function Abs(): State
      reads this
    {
      State(clients, client, alldevs, device, born)
    }

    constructor ()
      ensures Abs() == Empty
    {
      clients, client, alldevs, device, born := [], map[], [], map[], 0;
    }

    /** accept_cb: the new client has no devices and no feeds, and nobody's watchers name it. */
    method AcceptCb()
      requires Safe(Abs())
      modifies this
      ensures Abs() == Accept(old(Abs())) && Safe(Abs())
      ensures var c := old(born);
        && c !in old(client) && c in client && client[c].devices == [] && client[c].feeds.wraps == []
        && client[c].watched == 0 && forall u :: u in device ==> c !in device[u].watchers
    {
      AcceptSafe(Abs());
      client := client[born := NewClient];
      clients := clients + [born];
      born := born + 1;
    }

    /** cmd_register; answers 0, or -1 if the command is refused. */
    method CmdRegister(c: nat, a: RegisterArgs) returns (r: int)
      requires c in client
      modifies this
      ensures Abs() == Register(old(Abs()), c, a)
      ensures r == if RegisterAccepted(old(Abs()), a) then 0 else -1
    {
      if a.uid.None? {
        return -1;
      }
      var uid := a.uid.value;
      var isNew := uid !in device;
      var dev := Device(None, 0, 0, 0, 0, 0, None, false, [], false);
      if isNew {
        if Byte(a.subtype) == 0 || Byte(a.devtype) == 0 || Byte(a.proto) == 0 || a.name.None? {
          return -1;
        }
      } else {
        dev := device[uid];
      }
      dev := dev.(name := a.name, devtype := Byte(a.devtype), proto := Byte(a.proto),
                  subtype := Byte(a.subtype), scale := Byte(a.scale), collector := Some(c), registered := true);
      if client[c].devices == [] {
        client := client[c := client[c].(provider := true)];
      }
      if !dev.onq {
        client := client[c := client[c].(devices := client[c].devices + [uid])];
        dev := dev.(onq := true);
      }
      if isNew {
        alldevs := alldevs + [uid];
      }
      device := device[uid := dev];
      return 0;
    }

    /** How many watcher entries of a device name the client. */
    static function Entries(dev: Device, c: nat): nat {
      multiset(dev.watchers)[c]
    }

    static lemma EntryAdded(dev: Device, c: nat)
      ensures Entries(dev.(watchers := dev.watchers + [c]), c) == Entries(dev, c) + 1
    {
    }

    /** cmd_cfeed: the client's watcher entries on the device are one more. */
    method CmdCfeed(c: nat, uid: Option<string>) returns (r: int)
      requires c in client && Safe(Abs())
      modifies this
      ensures Abs() == Cfeed(old(Abs()), c, uid) && Safe(Abs())
      ensures r == if uid.Some? && uid.value in old(device) then 0 else -1
      ensures r == 0 ==> uid.value in device && Entries(device[uid.value], c) == old(Entries(device[uid.value], c)) + 1
    {
      hide Safe;
      CfeedSafe(Abs(), c, uid);
      if uid.None? || uid.value !in device {
        return -1;
      }
      var dev := device[uid.value];
      EntryAdded(dev, c);
      hide Entries;
      device := device[uid.value := dev.(watchers := dev.watchers + [c])];
      client := client[c := client[c].(watched := client[c].watched + 1)];
      return 0;
    }

    /** cmd_feed, with the default rate of a minute already filled in. */
    method CmdFeed(c: nat, uid: Option<string>, rate: int, scale: Option<int>) returns (r: int)
      requires c in client
      modifies this
      ensures Abs() == Feed(old(Abs()), c, uid, rate, scale)
      ensures r == if uid.Some? && uid.value in old(device) then 0 else -1
    {
      if uid.None? || uid.value !in device {
        return -1;
      }
      var sc := if scale.Some? then scale.value else device[uid.value].scale;
      var wraps := client[c].feeds.wraps + [Wrap(uid.value, rate, sc, 0)];
      var timer := client[c].feeds.timer;
      if !client[c].feeds.armed {
        timer := rate;
      } else {
        var i := 0;
        while i < |wraps|
          invariant 0 <= i <= |wraps|
          invariant FoldGcd(wraps[i..], timer) == FoldGcd(wraps, client[c].feeds.timer)
        {
          assert wraps[i..][1..] == wraps[i + 1..];
          timer := IntGcd(wraps[i].rate, timer);
          i := i + 1;
        }
      }
      client := client[c := client[c].(feeds := Feeds(wraps, true, timer))];
      return 0;
    }

    /** cmd_update: the walk over the watchers sends each its message. */
    method CmdUpdate(c: nat, uid: Option<string>, value: Option<int>) returns (r: int)
      requires c in client && WatchersLive(Abs())
      modifies this
      ensures Abs() == Update(old(Abs()), c, uid, value)
      ensures r == if uid.Some? && uid.value in old(device) then 0 else -1
    {
      if uid.None? || uid.value !in device {
        return -1;
      }
      var dev := device[uid.value];
      assert forall w :: w in dev.watchers ==> w in client;
      hide Notify, WatchersLive;
      var cl := client[c := client[c].(updates := client[c].updates + 1)];
      var notified := NotifyWatchers(cl, dev.watchers);
      if value.Some? {
        dev := dev.(data := value.value);
      }
      device := device[uid.value := dev];
      client := notified;
      return 0;
    }

    static lemma NotifyMore(client: map<nat, Client>, ws: seq<nat>, i: nat)
      requires i < |ws| && forall w :: w in ws ==> w in client
      ensures ws[i] in ws
      ensures var r := Notify(client, ws[..i]);
        Notify(client, ws[..i + 1]) == r[ws[i] := r[ws[i]].(sentdata := r[ws[i]].sentdata + 1)]
    {
      assert ws[..i + 1][..i] == ws[..i];
    }

    /** The walk over a device's watchers at the end of cmd_update. */
    static method NotifyWatchers(client: map<nat, Client>, watchers: seq<nat>) returns (r: map<nat, Client>)
      requires forall w :: w in watchers ==> w in client
      ensures r == Notify(client, watchers)
    {
      var i := 0;
      r := client;
      while i < |watchers|
        invariant 0 <= i <= |watchers|
        invariant r == Notify(client, watchers[..i])
      {
        NotifyMore(client, watchers, i);
        assert watchers[i] in watchers;
        hide Notify;
        var w := watchers[i];
        r := r[w := r[w].(sentdata := r[w].sentdata + 1)];
        i := i + 1;
      }
      assert watchers[..i] == watchers;
    }

    /** feeddata_cb: every due feed is sent, at its scale, and stamped; `lines` is what is sent. */
    method FeedDataCb(c: nat, now: int) returns (lines: seq<(string, int)>)
      requires c in client && NonzeroRates(client[c].feeds.wraps) && client[c].feeds.armed
      modifies this
      ensures Abs() == TimerTick(old(Abs()), c, now)
      ensures lines == DueLines(old(client[c].feeds.wraps), now)
    {
      var cl, i := client[c], 0;
      var wraps, sent := cl.feeds.wraps, cl.sentdata;
      lines := [];
      ghost var was := wraps;
      while i < |wraps|
        invariant 0 <= i <= |wraps| == |was|
        invariant forall k :: 0 <= k < |was| ==> wraps[k] == if k < i then Fire(was[k], now) else was[k]
        invariant lines == DueLines(was[..i], now) && sent == cl.sentdata + |lines|
      {
        assert was[..i + 1][..i] == was[..i];
        var diff := now - wraps[i].last;
        if Quotient(diff, wraps[i].rate) >= 1 {
          lines := lines + [(wraps[i].dev, wraps[i].scale)];
          wraps := wraps[i := wraps[i].(last := now)];
          sent := sent + 1;
        }
        i := i + 1;
      }
      assert was[..i] == was;
      assert wraps == Tick(cl.feeds, now).wraps;
      client := client[c := cl.(feeds := cl.feeds.(wraps := wraps), sentdata := sent)];
    }

    /** The watcher loop of buf_error_cb for one device: every entry of `c` is unlinked and counted. */
    static method UnlinkWatchers(ws: seq<nat>, c: nat) returns (kept: seq<nat>, unlinked: nat)
      ensures kept == Without(ws, c)
      ensures unlinked == multiset(ws)[c]
    {
      var i := 0;
      kept, unlinked := [], 0;
      while i < |ws|
        invariant 0 <= i <= |ws|
        invariant kept == Without(ws[..i], c)
        invariant unlinked == multiset(ws[..i])[c]
      {
        assert ws[..i + 1] == ws[..i] + [ws[i]];
        if ws[i] == c {
          unlinked := unlinked + 1;
        } else {
          kept := kept + [ws[i]];
        }
        i := i + 1;
      }
      assert ws[..i] == ws;
    }

    static lemma NextOf(us: seq<string>, i: nat)
      requires Distinct(us) && i < |us|
      ensures us[i] in us && us[i] !in us[..i] && us[..i + 1] == us[..i] + [us[i]]
    {
    }

    static lemma NobodyWatching(device: map<string, Device>, c: nat)
      ensures Watching([], device, c) == 0
    {
    }

    static lemma WatchingMore(devs: seq<string>, u: string, device: map<string, Device>, c: nat)
      requires u in device && forall v :: v in devs ==> v in device
      ensures Watching(devs + [u], device, c) == Watching(devs, device, c) + multiset(device[u].watchers)[c]
    {
      assert (devs + [u])[..|devs|] == devs;
    }

    /** The loop over all devices in buf_error_cb; `watched` counts down the client's entries. */
    static method UnwatchAll(alldevs: seq<string>, device: map<string, Device>, c: nat, watchedBefore: int)
      returns (r: map<string, Device>, watched: int)
      requires forall u :: u in alldevs <==> u in device
      requires Distinct(alldevs)
      ensures r == Unwatch(device, c)
      ensures watched == watchedBefore - Watching(alldevs, device, c)
    {
      var i := 0;
      r, watched := device, watchedBefore;
      assert alldevs[..0] == [] && UnwatchSome(device, [], c) == device;
      UnwatchAllIsUnwatch(device, alldevs, c);
      hide UnwatchSome, Unwatch, Watching, Distinct;
      assert Watching(alldevs[..0], device, c) == 0 by {
        NobodyWatching(device, c);
      }
      while i < |alldevs|
        invariant 0 <= i <= |alldevs|
        invariant r == UnwatchSome(device, alldevs[..i], c)
        invariant watched == watchedBefore - Watching(alldevs[..i], device, c)
      {
        var u := alldevs[i];
        NextOf(alldevs, i);
        ghost var done := alldevs[..i];
        UnwatchOne(device, done, u, c);
        WatchingMore(done, u, device, c);
        var kept, unlinked := UnlinkWatchers(r[u].watchers, c);
        r := r[u := r[u].(watchers := kept)];
        watched := watched - unlinked;
        i := i + 1;
      }
      assert alldevs[..i] == alldevs;
    }

    /** buf_error_cb: `complaint` is whether "still being watched" is logged. */
    method BufErrorCb(c: nat) returns (complaint: bool)
      requires Safe(Abs()) && c in client
      modifies this
      ensures Abs() == Close(old(Abs()), c)
      ensures !complaint
    {
      var cl := client[c];
      MarkedCounts(Abs(), c);
      assert forall u :: u in cl.devices ==> Holds(Abs(), c, u);
      if cl.collDev.Some? && cl.collDev.value in device {
        device := device[cl.collDev.value := device[cl.collDev.value].(data := COLLECTOR_BAD)];
      }
      var watched;
      device, watched := UnwatchAll(alldevs, device, c, cl.watched);
      complaint := watched > 0;
      if cl.provider {
        device := ReleaseDevices(device, cl.devices);
      }
      clients := Without(clients, c);
      client := client - {c};
    }

    /** The devices on a client's queue are unlinked one by one. */
    static method ReleaseDevices(device: map<string, Device>, devices: seq<string>) returns (r: map<string, Device>)
      requires forall u :: u in devices ==> u in device
      ensures r == Release(device, devices)
    {
      var rest, i := devices, 0;
      r := device;
      while rest != []
        invariant 0 <= i <= |devices| && rest == devices[i..]
        invariant r == Release(device, devices[..i])
        decreases |rest|
      {
        var u := rest[0];
        assert devices[..i + 1] == devices[..i] + [u] && u in devices;
        r := r[u := r[u].(collector := None, onq := false)];
        rest, i := rest[1..], i + 1;
      }
      assert devices[..i] == devices;
    }

    /** network_shutdown */
    method NetworkShutdown()
      requires Safe(Abs())
      modifies this
      ensures Abs() == Shutdown(old(Abs())) && Safe(Abs())
      ensures clients == []
    {
      while clients != []
        invariant Safe(Abs()) && Shutdown(Abs()) == Shutdown(old(Abs()))
        decreases |clients|
      {
        CloseSafe(Abs(), clients[0]);
        assert clients[0] in clients;
        ghost var n, c := |clients|, clients[0];
        var complaint := BufErrorCb(clients[0]);
        assert c !in clients;
      }
    }
  }

  /** The devices in `done` are not watched by `c` any more. */
  function UnwatchSome(device: map<string, Device>, done: seq<string>, c: nat): map<string, Device> {
    map u | u in device :: if u in done then device[u].(watchers := Without(device[u].watchers, c)) else device[u]
  }

  lemma UnwatchOne(device: map<string, Device>, done: seq<string>, u: string, c: nat)
    requires u in device && u !in done
    ensures var r := UnwatchSome(device, done, c);
      && u in r && r[u].watchers == device[u].watchers
      && UnwatchSome(device, done + [u], c) == r[u := r[u].(watchers := Without(device[u].watchers, c))]
  {
  }

  lemma UnwatchAllIsUnwatch(device: map<string, Device>, alldevs: seq<string>, c: nat)
    requires forall u :: u in device ==> u in alldevs
    ensures UnwatchSome(device, alldevs, c) == Unwatch(device, c)
  {
  }

  /** Marking the tracking device changes no watcher count. */
  lemma MarkedCounts(s: State, c: nat)
    requires Safe(s) && c in s.client
    ensures var m := MarkBad(s.device, s.client[c].collDev);
      m.Keys == s.device.Keys && s.client[c].watched == Watching(s.alldevs, m, c)
  {
    WatchingSame(s.alldevs, s.device, MarkBad(s.device, s.client[c].collDev), c);
  }
}
