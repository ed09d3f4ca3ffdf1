/**
 What holds in every state the server can reach, and what is left of a client after it is gone.
 */
module PubSubSafety {
  import opened Lists
  import opened FeedSchedule
  import opened PubSub

  /** The queues hold each live client and each device once. */
  ghost predicate Queues(s: State) {
    && Distinct(s.clients) && (forall c :: c in s.clients <==> c in s.client)
    && Distinct(s.alldevs) && (forall u :: u in s.alldevs <==> u in s.device)
    && (forall c :: c in s.client ==> c < s.born)
  }

  predicate Holds(s: State, c: nat, u: string) {
    c in s.client && u in s.client[c].devices
  }

  ghost predicate OnSomeQueue(s: State, u: string) {
    exists c :: Holds(s, c, u)
  }

  /** A device's queue flag is set iff it is on the device queue of a live client, and on one only. */
  ghost predicate Owned(s: State) {
    && (forall u :: u in s.device ==> (s.device[u].onq <==> OnSomeQueue(s, u)))
    && (forall c, d, u :: Holds(s, c, u) && Holds(s, d, u) ==> c == d)
    && (forall c, u :: Holds(s, c, u) ==> u in s.device)
  }

  /** No device queue holds a device twice; who has devices is marked as a provider. */
  predicate QueueShapes(s: State) {
    forall c :: c in s.client ==>
      Distinct(s.client[c].devices) && (s.client[c].devices != [] ==> s.client[c].provider)
  }

  predicate WatchersLive(s: State) {
    forall u :: u in s.device ==> forall w :: w in s.device[u].watchers ==> w in s.client
  }

  /** How many watcher entries of the devices `devs` name `c`. */
  function Watching(devs: seq<string>, device: map<string, Device>, c: nat): nat
    requires forall u :: u in devs ==> u in device
  {
    if devs == [] then 0
    else
      assert devs[|devs| - 1] in devs;
      Watching(devs[..|devs| - 1], device, c) + multiset(device[devs[|devs| - 1]].watchers)[c]
  }

  predicate WatchCounts(s: State) {
    && (forall u :: u in s.alldevs ==> u in s.device)
    && forall c :: c in s.client ==> s.client[c].watched == Watching(s.alldevs, s.device, c)
  }

  ghost predicate Timers(s: State) {
    forall c :: c in s.client ==> TimerRight(s.client[c].feeds)
  }

  ghost predicate Safe(s: State) {
    Queues(s) && Owned(s) && QueueShapes(s) && WatchersLive(s) && WatchCounts(s) && Timers(s)
  }

  // ----- counting watcher entries

  lemma {:induction false} WatchingSame(devs: seq<string>, a: map<string, Device>, b: map<string, Device>, c: nat)
    requires forall u :: u in devs ==> u in a && u in b
    requires forall u :: u in devs ==> multiset(a[u].watchers)[c] == multiset(b[u].watchers)[c]
    ensures Watching(devs, a, c) == Watching(devs, b, c)
  {
    if devs != [] {
      assert devs[|devs| - 1] in devs;
      WatchingSame(devs[..|devs| - 1], a, b, c);
    }
  }

  lemma WatchingNew(devs: seq<string>, u: string, a: map<string, Device>, b: map<string, Device>, c: nat)
    requires u !in devs && u in b && b[u].watchers == []
    requires forall v :: v in devs ==> v in a && v in b && a[v].watchers == b[v].watchers
    ensures Watching(devs + [u], b, c) == Watching(devs, a, c)
  {
    assert (devs + [u])[..|devs|] == devs;
    WatchingSame(devs, a, b, c);
  }

  lemma {:induction false} WatchingOneMore(devs: seq<string>, u: string, a: map<string, Device>, w: nat, c: nat)
    requires Distinct(devs) && u in devs && forall v :: v in devs ==> v in a
    ensures var b := a[u := a[u].(watchers := a[u].watchers + [w])];
      Watching(devs, b, c) == Watching(devs, a, c) + if c == w then 1 else 0
  {
    var b := a[u := a[u].(watchers := a[u].watchers + [w])];
    var last, rest := devs[|devs| - 1], devs[..|devs| - 1];
    if last == u {
      assert u !in rest;
      WatchingSame(rest, a, b, c);
    } else {
      WatchingOneMore(rest, u, a, w, c);
    }
  }

  lemma {:induction false} WatchingNone(devs: seq<string>, a: map<string, Device>, c: nat)
    requires forall u :: u in devs ==> u in a && c !in a[u].watchers
    ensures Watching(devs, a, c) == 0
  {
    if devs != [] {
      assert devs[|devs| - 1] in devs;
      WatchingNone(devs[..|devs| - 1], a, c);
    }
  }

  // ----- every step keeps the server safe

  /** Steps that move no device between queues. */
  lemma SameHolders(s: State, t: State)
    requires Owned(s)
    requires forall c, u :: Holds(t, c, u) <==> Holds(s, c, u)
    requires forall u :: u in s.device ==> u in t.device && t.device[u].onq == s.device[u].onq
    requires forall u :: u in t.device && u !in s.device ==> !t.device[u].onq
    ensures Owned(t)
  {
    forall u ensures OnSomeQueue(t, u) <==> OnSomeQueue(s, u) {
      if OnSomeQueue(s, u) {
        var c :| Holds(s, c, u);
        assert Holds(t, c, u);
      }
    }
    forall u | u in t.device ensures t.device[u].onq <==> OnSomeQueue(t, u) {
      assert forall c :: Holds(s, c, u) ==> u in s.device;
    }
  }

  lemma AcceptSafe(s: State)
    requires Safe(s)
    ensures Safe(Accept(s))
  {
    var t := Accept(s);
    assert forall i :: 0 <= i < |s.clients| ==> s.clients[i] in s.clients;
    assert Queues(t) && QueueShapes(t) && WatchersLive(t) && Timers(t);
    SameHolders(s, t);
    WatchingNone(s.alldevs, s.device, s.born);
    assert WatchCounts(t);
  }

  /** Who holds what after a register command. */
  lemma RegisterHolds(s: State, c: nat, a: RegisterArgs, d: nat, u: string)
    requires c in s.client && RegisterAccepted(s, a)
    ensures var uid := a.uid.value;
      var queued := !(uid in s.device && s.device[uid].onq);
      Holds(Register(s, c, a), d, u) <==> Holds(s, d, u) || (queued && d == c && u == uid)
  {
  }

  lemma RegisterOwned(s: State, c: nat, a: RegisterArgs)
    requires Queues(s) && Owned(s) && c in s.client && RegisterAccepted(s, a)
    ensures Owned(Register(s, c, a))
  {
    var t, uid := Register(s, c, a), a.uid.value;
    var queued := !(uid in s.device && s.device[uid].onq);
    hide Register;
    forall d, u ensures Holds(t, d, u) <==> Holds(s, d, u) || (queued && d == c && u == uid) {
      RegisterHolds(s, c, a, d, u);
    }
    assert t.device == s.device[uid := RegisteredDevice(s, c, a)];
    if queued {
      assert forall d :: !Holds(s, d, uid) by {
        assert uid in s.device ==> !OnSomeQueue(s, uid);
      }
    }
    forall u | u in t.device ensures t.device[u].onq <==> OnSomeQueue(t, u) {
      if u == uid {
        if queued {
          assert Holds(t, c, uid);
        } else {
          var d :| Holds(s, d, uid);
          assert Holds(t, d, uid);
        }
      } else {
        assert OnSomeQueue(t, u) <==> OnSomeQueue(s, u);
      }
    }
  }

  lemma RegisterQueues(s: State, c: nat, a: RegisterArgs)
    requires Queues(s) && c in s.client
    ensures Queues(Register(s, c, a))
  {
    hide QueueShapes, Owned;
  }

  lemma RegisterShapes(s: State, c: nat, a: RegisterArgs)
    requires Owned(s) && QueueShapes(s) && WatchersLive(s) && c in s.client
    ensures QueueShapes(Register(s, c, a)) && WatchersLive(Register(s, c, a))
  {
    if RegisterAccepted(s, a) {
      var uid := a.uid.value;
      if uid in s.client[c].devices {
        assert Holds(s, c, uid);
      }
    }
  }

  lemma RegisterCounts(s: State, c: nat, a: RegisterArgs)
    requires Queues(s) && WatchCounts(s) && c in s.client && RegisterAccepted(s, a)
    ensures WatchCounts(Register(s, c, a))
  {
    var t, uid := Register(s, c, a), a.uid.value;
    var dev := RegisteredDevice(s, c, a);
    assert t.device == s.device[uid := dev] && t.client.Keys == s.client.Keys;
    assert t.alldevs == if uid in s.device then s.alldevs else s.alldevs + [uid];
    assert forall d :: d in s.client ==> d in t.client && t.client[d].watched == s.client[d].watched;
    assert dev.watchers == if uid in s.device then s.device[uid].watchers else [];
    hide Register, RegisteredDevice;
    forall d | d in t.client ensures t.client[d].watched == Watching(t.alldevs, t.device, d) {
      if uid in s.device {
        WatchingSame(s.alldevs, s.device, t.device, d);
      } else {
        WatchingNew(s.alldevs, uid, s.device, t.device, d);
      }
    }
  }

  lemma RegisterSafe(s: State, c: nat, a: RegisterArgs)
    requires Safe(s) && c in s.client
    ensures Safe(Register(s, c, a))
  {
    if RegisterAccepted(s, a) {
      RegisterQueues(s, c, a);
      RegisterShapes(s, c, a);
      RegisterOwned(s, c, a);
      RegisterCounts(s, c, a);
      hide Queues, Owned, QueueShapes, WatchersLive, WatchCounts;
    }
  }

  lemma NameSafe(s: State, c: nat, cli: Option<string>, host: string)
    requires Safe(s) && c in s.client
    ensures Safe(Name(s, c, cli, host))
  {
    if cli.Some? && cli.value != "handler" {
      var t, uid := Name(s, c, cli, host), cli.value + "-" + host;
      if uid in s.device {
        ClientsOnlySafe(s, t);
      } else {
        NewDeviceSafe(s, t, uid);
      }
    }
  }

  /** A device nobody has on a queue or watches. */
  lemma NewDeviceQueues(s: State, t: State, uid: string)
    requires Queues(s) && QueueShapes(s) && WatchersLive(s) && uid !in s.device
    requires t.clients == s.clients && t.alldevs == s.alldevs + [uid] && t.born == s.born
    requires t.client.Keys == s.client.Keys
    requires uid in t.device && t.device == s.device[uid := t.device[uid]]
    requires t.device[uid].watchers == [] && !t.device[uid].onq
    requires forall c :: c in s.client ==>
      && t.client[c].devices == s.client[c].devices && t.client[c].provider == s.client[c].provider
      && t.client[c].watched == s.client[c].watched
    ensures Queues(t) && QueueShapes(t) && WatchersLive(t)
  {
    assert forall d :: d in t.client <==> d in s.client;
  }

  lemma NewDeviceSafe(s: State, t: State, uid: string)
    requires Safe(s) && Timers(t) && uid !in s.device
    requires t.clients == s.clients && t.alldevs == s.alldevs + [uid] && t.born == s.born
    requires t.client.Keys == s.client.Keys
    requires uid in t.device && t.device == s.device[uid := t.device[uid]]
    requires t.device[uid].watchers == [] && !t.device[uid].onq
    requires forall c :: c in s.client ==>
      && t.client[c].devices == s.client[c].devices && t.client[c].provider == s.client[c].provider
      && t.client[c].watched == s.client[c].watched
    ensures Safe(t)
  {
    assert forall d :: d in t.client <==> d in s.client;
    forall d | d in t.client ensures t.client[d].watched == Watching(t.alldevs, t.device, d) {
      WatchingNew(s.alldevs, uid, s.device, t.device, d);
    }
    NewDeviceQueues(s, t, uid);
    hide Watching, TimerRight, Owned, Queues, QueueShapes, WatchersLive;
    SameHolders(s, t);
  }

  /** Each watcher entry brings its client one message. */
  lemma {:induction false} NotifyReachesEach(client: map<nat, Client>, ws: seq<nat>, c: nat)
    requires c in client
    ensures c in Notify(client, ws) && Notify(client, ws)[c].sentdata == client[c].sentdata + multiset(ws)[c]
    decreases |ws|
  {
    if ws != [] {
      var most, w := ws[..|ws| - 1], ws[|ws| - 1];
      assert ws == most + [w];
      NotifyReachesEach(client, most, c);
    }
  }

  /** A cfeed command adds one watcher entry of its client to the device, and no other. */
  lemma CfeedEntries(s: State, c: nat, uid: Option<string>)
    requires c in s.client
    ensures var t := Cfeed(s, c, uid);
      forall u, d :: u in s.device ==>
        u in t.device && multiset(t.device[u].watchers)[d]
          == multiset(s.device[u].watchers)[d] + if uid == Some(u) && d == c then 1 else 0
  {
  }

  lemma CfeedSafe(s: State, c: nat, uid: Option<string>)
    requires Safe(s) && c in s.client
    ensures Safe(Cfeed(s, c, uid))
  {
    if uid.Some? && uid.value in s.device {
      MoreWatchersSafe(s, c, uid.value, Cfeed(s, c, uid));
    }
  }

  lemma MoreWatchersQueues(s: State, c: nat, u: string, t: State)
    requires Queues(s) && QueueShapes(s) && c in s.client && u in s.device
    requires t == s.(device := s.device[u := s.device[u].(watchers := s.device[u].watchers + [c])],
                     client := s.client[c := s.client[c].(watched := s.client[c].watched + 1)])
    ensures Queues(t) && QueueShapes(t)
  {
    hide Distinct;
    assert forall d :: d in t.client <==> d in s.client;
    assert forall v :: v in t.device <==> v in s.device;
  }

  lemma MoreWatchersLive(s: State, c: nat, u: string, t: State)
    requires WatchersLive(s) && Timers(s) && c in s.client && u in s.device
    requires t == s.(device := s.device[u := s.device[u].(watchers := s.device[u].watchers + [c])],
                     client := s.client[c := s.client[c].(watched := s.client[c].watched + 1)])
    ensures WatchersLive(t) && Timers(t)
  {
    hide TimerRight;
    assert forall d :: d in t.client <==> d in s.client;
  }

  lemma MoreWatchersSafe(s: State, c: nat, u: string, t: State)
    requires Safe(s) && c in s.client && u in s.device
    requires t == s.(device := s.device[u := s.device[u].(watchers := s.device[u].watchers + [c])],
                     client := s.client[c := s.client[c].(watched := s.client[c].watched + 1)])
    ensures Safe(t)
  {
    CfeedCounts(s, c, u, t);
    MoreWatchersQueues(s, c, u, t);
    MoreWatchersLive(s, c, u, t);
    hide Queues, QueueShapes, WatchersLive, WatchCounts, Timers, Owned;
    assert forall d, v :: Holds(t, d, v) <==> Holds(s, d, v);
    SameHolders(s, t);
  }

  lemma CfeedCounts(s: State, c: nat, u: string, t: State)
    requires Queues(s) && WatchCounts(s) && c in s.client && u in s.device
    requires t.device == s.device[u := s.device[u].(watchers := s.device[u].watchers + [c])]
    requires t.client == s.client[c := s.client[c].(watched := s.client[c].watched + 1)]
    requires t.alldevs == s.alldevs
    ensures WatchCounts(t)
  {
    forall d | d in t.client ensures t.client[d].watched == Watching(t.alldevs, t.device, d) {
      WatchingOneMore(s.alldevs, u, s.device, c, d);
    }
  }

  /** A step that touches neither device queues nor watchers. */
  lemma ClientsOnlySafe(s: State, t: State)
    requires Safe(s) && Timers(t)
    requires t.clients == s.clients && t.alldevs == s.alldevs && t.born == s.born
    requires t.client.Keys == s.client.Keys && t.device.Keys == s.device.Keys
    requires forall c :: c in s.client ==>
      && t.client[c].devices == s.client[c].devices && t.client[c].provider == s.client[c].provider
      && t.client[c].watched == s.client[c].watched
    requires forall u :: u in s.device ==>
      t.device[u].watchers == s.device[u].watchers && t.device[u].onq == s.device[u].onq
    ensures Safe(t)
  {
    assert forall d :: d in t.client <==> d in s.client;
    assert forall u :: u in t.device <==> u in s.device;
    SameHolders(s, t);
    forall d | d in t.client ensures t.client[d].watched == Watching(t.alldevs, t.device, d) {
      WatchingSame(s.alldevs, s.device, t.device, d);
    }
  }

  lemma FeedSafe(s: State, c: nat, uid: Option<string>, rate: int, scale: Option<int>)
    requires Safe(s) && c in s.client
    ensures Safe(Feed(s, c, uid, rate, scale))
  {
    if uid.Some? && uid.value in s.device {
      var sc := if scale.Some? then scale.value else s.device[uid.value].scale;
      AddFeedKeepsTimer(s.client[c].feeds, uid.value, rate, sc);
      ClientsOnlySafe(s, Feed(s, c, uid, rate, scale));
    }
  }

  lemma TickSafe(s: State, c: nat, now: int)
    requires Safe(s) && c in s.client && NonzeroRates(s.client[c].feeds.wraps)
    ensures Safe(TimerTick(s, c, now))
  {
    if s.client[c].feeds.armed {
      TickKeepsTimer(s.client[c].feeds, now);
      ClientsOnlySafe(s, TimerTick(s, c, now));
    }
  }

  lemma UpdateSafe(s: State, c: nat, uid: Option<string>, value: Option<int>)
    requires Safe(s) && c in s.client
    ensures Safe(Update(s, c, uid, value))
  {
    if uid.Some? && uid.value in s.device {
      hide Queues, Owned, QueueShapes, WatchersLive, WatchCounts, TimerRight, Notify;
      UpdateTouches(s, c, uid.value, value);
      hide Update;
      ClientsOnlySafe(s, Update(s, c, uid, value));
    }
  }

  /** What an update leaves as it was. */
  lemma UpdateTouches(s: State, c: nat, uid: string, value: Option<int>)
    requires c in s.client && uid in s.device
    ensures var t := Update(s, c, Some(uid), value);
      && t.clients == s.clients && t.alldevs == s.alldevs && t.born == s.born
      && t.client.Keys == s.client.Keys && t.device.Keys == s.device.Keys
      && (forall d :: d in s.client ==>
            && t.client[d].devices == s.client[d].devices && t.client[d].provider == s.client[d].provider
            && t.client[d].watched == s.client[d].watched && t.client[d].feeds == s.client[d].feeds)
      && (forall u :: u in s.device ==>
            t.device[u].watchers == s.device[u].watchers && t.device[u].onq == s.device[u].onq)
  {
    hide Notify;
  }

  lemma CloseHolds(s: State, c: nat, d: nat, u: string)
    requires c in s.client
    ensures Holds(Close(s, c), d, u) <==> d != c && Holds(s, d, u)
  {
  }

  lemma CloseDevice(s: State, c: nat, u: string)
    requires c in s.client && QueueShapes(s) && u in s.device
    ensures var t := Close(s, c);
      && u in t.device && t.device[u].watchers == Without(s.device[u].watchers, c)
      && t.device[u].onq == (s.device[u].onq && u !in s.client[c].devices)
  {
  }

  lemma CloseOwned(s: State, c: nat)
    requires Owned(s) && QueueShapes(s) && c in s.client
    ensures Owned(Close(s, c))
  {
    var t := Close(s, c);
    assert t.device.Keys == s.device.Keys;
    hide Close;
    forall d, u ensures Holds(t, d, u) <==> d != c && Holds(s, d, u) {
      CloseHolds(s, c, d, u);
    }
    forall u | u in t.device ensures t.device[u].onq <==> OnSomeQueue(t, u) {
      CloseDevice(s, c, u);
      if u in s.client[c].devices {
        assert Holds(s, c, u);
      } else if OnSomeQueue(s, u) {
        var d :| Holds(s, d, u);
        assert Holds(t, d, u);
      }
    }
  }

  lemma CloseCounts(s: State, c: nat)
    requires Queues(s) && QueueShapes(s) && WatchCounts(s) && c in s.client
    ensures WatchCounts(Close(s, c))
  {
    var t := Close(s, c);
    assert t.device.Keys == s.device.Keys && t.alldevs == s.alldevs && t.client == s.client - {c};
    hide Close;
    forall d | d in t.client ensures t.client[d].watched == Watching(t.alldevs, t.device, d) {
      forall u | u in s.alldevs ensures multiset(t.device[u].watchers)[d] == multiset(s.device[u].watchers)[d] {
        CloseDevice(s, c, u);
        WithoutCounts(s.device[u].watchers, c, d);
      }
      WatchingSame(s.alldevs, s.device, t.device, d);
    }
  }

  lemma CloseQueues(s: State, c: nat)
    requires Queues(s) && QueueShapes(s) && WatchersLive(s) && c in s.client
    ensures var t := Close(s, c); Queues(t) && QueueShapes(t) && WatchersLive(t)
  {
    var t := Close(s, c);
    assert t.device.Keys == s.device.Keys && t.alldevs == s.alldevs && t.client == s.client - {c};
    assert t.clients == Without(s.clients, c) && t.born == s.born;
    WithoutDistinct(s.clients, c);
    hide Close;
    assert forall u :: u in t.device <==> u in s.device;
    forall u | u in t.device ensures forall w :: w in t.device[u].watchers ==> w in t.client {
      CloseDevice(s, c, u);
    }
  }

  lemma CloseSafe(s: State, c: nat)
    requires Safe(s) && c in s.client
    ensures Safe(Close(s, c))
  {
    CloseQueues(s, c);
    CloseOwned(s, c);
    CloseCounts(s, c);
    hide Queues, Owned, QueueShapes, WatchersLive, WatchCounts;
  }

  lemma StepSafe(s: State, step: Step)
    requires Safe(s) && Possible(s, step)
    ensures Safe(Apply(s, step))
  {
    match step {
      case DoAccept => AcceptSafe(s);
      case DoRegister(c, a) => RegisterSafe(s, c, a);
      case DoName(c, cli, host) => NameSafe(s, c, cli, host);
      case DoCfeed(c, uid) => CfeedSafe(s, c, uid);
      case DoFeed(c, uid, rate, scale) => FeedSafe(s, c, uid, rate, scale);
      case DoUpdate(c, uid, value) => UpdateSafe(s, c, uid, value);
      case DoTick(c, now) => TickSafe(s, c, now);
      case DoClose(c) => CloseSafe(s, c);
    }
  }

  /** Every reachable state is safe. */
  lemma {:induction false} RunSafe(states: seq<State>, steps: seq<Step>, n: nat)
    requires IsRun(states, steps) && n < |states|
    ensures Safe(states[n])
  {
    if n > 0 {
      RunSafe(states, steps, n - 1);
      StepSafe(states[n - 1], steps[n - 1]);
    }
  }

  /** No queue, flag or watcher entry mentions client `c`. */
  predicate Gone(s: State, c: nat) {
    && c !in s.clients && c !in s.client
    && forall u :: u in s.device ==> c !in s.device[u].watchers
  }

  /** A closed client leaves nothing behind, and its devices are free to be registered again. */
  lemma CloseLeavesNothing(s: State, c: nat)
    requires Safe(s) && c in s.client
    ensures Gone(Close(s, c), c)
    ensures forall u :: u in s.client[c].devices ==>
      u in Close(s, c).device && Close(s, c).device[u].collector == None && !Close(s, c).device[u].onq
  {
    assert forall u :: u in s.client[c].devices ==> Holds(s, c, u);
  }

  lemma EmptyIfNone(ws: seq<nat>)
    ensures ws == [] || exists w :: w in ws
  {
    if ws != [] {
      assert ws[0] in ws;
    }
  }

  /** Shutting down disconnects everybody: no client, no watcher entry and no queued device remains. */
  lemma {:induction false} ShutdownEmpties(s: State)
    requires Safe(s)
    ensures var t := Shutdown(s);
      && Safe(t) && t.clients == [] && t.client == map[] && t.device.Keys == s.device.Keys
      && forall u :: u in t.device ==> t.device[u].watchers == [] && !t.device[u].onq
    decreases |s.clients|
  {
    if s.clients == [] {
      assert forall c :: c !in s.client;
      forall u | u in s.device ensures s.device[u].watchers == [] && !s.device[u].onq {
        assert forall w :: w in s.device[u].watchers ==> w in s.client;
        EmptyIfNone(s.device[u].watchers);
      }
    } else {
      var c := s.clients[0];
      CloseSafe(s, c);
      var t := Close(s, c);
      assert c in s.clients && c !in t.clients;
      ShutdownEmpties(t);
    }
  }

  // ----- collectors

  /** The collector of a registered device is the live client that has it on its queue, or none. */
  ghost predicate CollectorTrue(s: State, u: string)
    requires u in s.device
  {
    if !s.device[u].registered || s.device[u].collector.None? then !s.device[u].onq
    else Holds(s, s.device[u].collector.value, u)
  }

  ghost predicate CollectorsTrue(s: State) {
    forall u :: u in s.device ==> CollectorTrue(s, u)
  }

  /** The device named is new, unregistered so far, free, or this client's own. */
  predicate RegistersAlone(s: State, c: nat, a: RegisterArgs) {
    RegisterAccepted(s, a) && a.uid.value in s.device && s.device[a.uid.value].registered ==>
      s.device[a.uid.value].collector in {None, Some(c)}
  }

  /** A register command keeps the collectors true exactly if no other client has the device. */
  lemma RegisterCollectors(s: State, c: nat, a: RegisterArgs)
    requires Safe(s) && CollectorsTrue(s) && c in s.client
    ensures CollectorsTrue(Register(s, c, a)) <==> RegistersAlone(s, c, a)
  {
    if RegisterAccepted(s, a) {
      var t, uid := Register(s, c, a), a.uid.value;
      assert forall d, u :: Holds(s, d, u) ==> Holds(t, d, u);
      assert uid in s.device ==> CollectorTrue(s, uid);
      forall u | u in t.device && u != uid ensures CollectorTrue(t, u) {
        assert CollectorTrue(s, u);
      }
      if !RegistersAlone(s, c, a) {
        var d := s.device[uid].collector.value;
        assert Holds(s, d, uid) && d != c && OnSomeQueue(s, uid);
        RegisterHolds(s, c, a, c, uid);
        assert !Holds(t, c, uid);
        assert !CollectorTrue(t, uid);
      }
    }
  }

  /** The steps that are not a register command never disturb the collectors. */
  lemma StepCollectors(s: State, step: Step)
    requires Safe(s) && CollectorsTrue(s) && Possible(s, step) && !step.DoRegister?
    ensures CollectorsTrue(Apply(s, step))
  {
    var t := Apply(s, step);
    if step.DoClose? {
      CloseCollectors(s, step.c);
    } else {
      HoldersKept(s, step);
      hide Safe;
      forall u | u in t.device ensures CollectorTrue(t, u) {
        assert u in s.device ==> CollectorTrue(s, u);
      }
    }
  }

  /** Steps other than registering and closing. */
  lemma HoldersKept(s: State, step: Step)
    requires Possible(s, step) && !step.DoRegister? && !step.DoClose?
    requires Queues(s)
    ensures var t := Apply(s, step);
      && (forall d, u :: Holds(s, d, u) ==> Holds(t, d, u))
      && (forall u :: u in t.device ==>
            if u in s.device then
              && t.device[u].collector == s.device[u].collector && t.device[u].onq == s.device[u].onq
              && t.device[u].registered == s.device[u].registered
            else !t.device[u].registered && !t.device[u].onq)
  {
  }

  lemma CloseCollectors(s: State, c: nat)
    requires Safe(s) && CollectorsTrue(s) && c in s.client
    ensures CollectorsTrue(Close(s, c))
  {
    var t := Close(s, c);
    forall u | u in t.device ensures CollectorTrue(t, u) {
      assert CollectorTrue(s, u);
      if u in s.client[c].devices {
        assert Holds(s, c, u);
      }
    }
  }

  predicate StepAlone(s: State, step: Step) {
    step.DoRegister? ==> RegistersAlone(s, step.c, step.args)
  }

  /** Over a run the collectors stay true exactly as long as each register command finds the device its own. */
  lemma {:induction false} RunCollectors(states: seq<State>, steps: seq<Step>, n: nat)
    requires IsRun(states, steps) && n < |states|
    ensures (forall k :: 0 <= k <= n ==> CollectorsTrue(states[k]))
      <==> forall k :: 0 <= k < n ==> StepAlone(states[k], steps[k])
  {
    if n > 0 {
      RunCollectors(states, steps, n - 1);
      RunSafe(states, steps, n - 1);
      var s, step := states[n - 1], steps[n - 1];
      assert states[n] == Apply(s, step);
      hide Safe, Apply;
      if CollectorsTrue(s) {
        if step.DoRegister? {
          RegisterCollectors(s, step.c, step.args);
        } else {
          StepCollectors(s, step);
        }
        assert CollectorsTrue(states[n]) <==> StepAlone(s, step);
      }
    }
  }

  /** Two clients that register the same device: the first keeps it on its queue, the second is its collector. */
  lemma TwoCollectors()
    ensures exists states, steps :: IsRun(states, steps) && |steps| == 4 && !CollectorsTrue(states[4])
  {
    var a := RegisterArgs(Some("u"), Some("n"), 1, 1, 1, 0);
    var steps := [DoAccept, DoAccept, DoRegister(0, a), DoRegister(1, a)];
    var s1 := Accept(Empty);
    var s2 := Accept(s1);
    var s3 := Register(s2, 0, a);
    var s4 := Register(s3, 1, a);
    var states := [Empty, s1, s2, s3, s4];
    assert s2.client == map[0 := NewClient, 1 := NewClient];
    assert s3.device["u"].onq && s3.client[0].devices == ["u"] && s3.client[1].devices == [];
    assert s4.device["u"].collector == Some(1) && s4.client[1].devices == [];
    assert IsRun(states, steps);
    assert !CollectorTrue(s4, "u");
    assert states[4] == s4 && !CollectorsTrue(s4);
  }
}
