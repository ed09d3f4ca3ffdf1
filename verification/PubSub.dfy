/**
 The state of the publish/subscribe server and its commands as functions on it.  Clients and devices
 are named by numbers and uids, which stand for the pointers of the original; a device's `watchers`
 and a client's `devices` are the queues of such pointers.
 */
module PubSub {
  import opened Lists
  import opened FeedSchedule

  const DEVICE_SWITCH := 1
  const PROTO_COLLECTOR := 12
  const SUBTYPE_COLLECTOR := 30
  const COLLECTOR_BAD := 0
  const COLLECTOR_OK := 1

  /** client_t, as far as the queues, flags and counters go. */
  datatype Client = Client(
    provider: bool, devices: seq<string>, feeds: Feeds,
    watched: int, updates: nat, sentdata: nat, collDev: Option<string>)

  /**
   device_t.  `onq` is the flag DEVONQ_CLIENT; `registered` records that some register command has
   named the device, which tells it from a tracking device nobody registered.
   */
  datatype Device = Device(
    name: Option<string>, devtype: nat, proto: nat, subtype: nat, scale: nat, data: int,
    collector: Option<nat>, onq: bool, watchers: seq<nat>, registered: bool)

  /** The queue `clients` with its members, the queue `alldevs` with its members, a supply of names. */
  datatype State = State(
    clients: seq<nat>, client: map<nat, Client>, alldevs: seq<string>, device: map<string, Device>, born: nat)

  const Empty := State([], map[], [], map[], 0)
  const NewClient := Client(false, [], NoFeeds, 0, 0, 0, None)

  datatype RegisterArgs = RegisterArgs(
    uid: Option<string>, name: Option<string>, devtype: int, proto: int, subtype: int, scale: int)

  /** accept_cb */
  function Accept(s: State): State {
    s.(clients := s.clients + [s.born], client := s.client[s.born := NewClient], born := s.born + 1)
  }

  /** A stored uint8_t. */
  function Byte(i: int): nat { i % 256 }

  /** Whether cmd_register goes through. */
  predicate RegisterAccepted(s: State, a: RegisterArgs) {
    && a.uid.Some?
    && (a.uid.value in s.device
        || (Byte(a.subtype) != 0 && Byte(a.devtype) != 0 && Byte(a.proto) != 0 && a.name.Some?))
  }

  function RegisteredDevice(s: State, c: nat, a: RegisterArgs): Device
    requires a.uid.Some?
  {
    var known := a.uid.value in s.device;
    Device(a.name, Byte(a.devtype), Byte(a.proto), Byte(a.subtype), Byte(a.scale),
           if known then s.device[a.uid.value].data else 0,
           Some(c), true, if known then s.device[a.uid.value].watchers else [], true)
  }

  /** cmd_register */
  function Register(s: State, c: nat, a: RegisterArgs): State
    requires c in s.client
  {
    if !RegisterAccepted(s, a) then s
    else
      var uid, cl := a.uid.value, s.client[c];
      var known := uid in s.device;
      var cl1 := if cl.devices == [] then cl.(provider := true) else cl;
      var cl2 := if known && s.device[uid].onq then cl1 else cl1.(devices := cl1.devices + [uid]);
      s.(client := s.client[c := cl2],
         device := s.device[uid := RegisteredDevice(s, c, a)],
         alldevs := if known then s.alldevs else s.alldevs + [uid])
  }

  /** cmd_client, for a client connected from `host`. */
  function Name(s: State, c: nat, cli: Option<string>, host: string): State
    requires c in s.client
  {
    if cli.None? || cli.value == "handler" then s
    else
      var uid := cli.value + "-" + host;
      var known := uid in s.device;
      var dev := if known then s.device[uid]
                 else Device(Some("Collector " + cli.value + " from host " + host), DEVICE_SWITCH, PROTO_COLLECTOR,
                             SUBTYPE_COLLECTOR, 0, 0, Some(c), false, [], false);
      s.(client := s.client[c := s.client[c].(collDev := Some(uid))],
         device := s.device[uid := dev.(data := COLLECTOR_OK)],
         alldevs := if known then s.alldevs else s.alldevs + [uid])
  }

  /** cmd_cfeed */
  function Cfeed(s: State, c: nat, uid: Option<string>): State
    requires c in s.client
  {
    if uid.None? || uid.value !in s.device then s
    else
      var dev, cl := s.device[uid.value], s.client[c];
      s.(device := s.device[uid.value := dev.(watchers := dev.watchers + [c])],
         client := s.client[c := cl.(watched := cl.watched + 1)])
  }

  /** cmd_feed */
  function Feed(s: State, c: nat, uid: Option<string>, rate: int, scale: Option<int>): State
    requires c in s.client
  {
    if uid.None? || uid.value !in s.device then s
    else
      var sc := if scale.Some? then scale.value else s.device[uid.value].scale;
      s.(client := s.client[c := s.client[c].(feeds := AddFeed(s.client[c].feeds, uid.value, rate, sc))])
  }

  /** One update message to each watcher, in queue order. */
  function Notify(client: map<nat, Client>, watchers: seq<nat>): (r: map<nat, Client>)
    ensures r.Keys == client.Keys
    ensures forall c :: c in client ==> r[c] == client[c].(sentdata := r[c].sentdata)
    decreases |watchers|
  {
    if watchers == [] then client
    else
      var r, w := Notify(client, watchers[..|watchers| - 1]), watchers[|watchers| - 1];
      if w in r then r[w := r[w].(sentdata := r[w].sentdata + 1)] else r
  }

  /** cmd_update; `value` is the last data argument of the command, if it has one. */
  function Update(s: State, c: nat, uid: Option<string>, value: Option<int>): State
    requires c in s.client
  {
    if uid.None? || uid.value !in s.device then s
    else
      var dev := s.device[uid.value];
      var client := s.client[c := s.client[c].(updates := s.client[c].updates + 1)];
      s.(device := s.device[uid.value := dev.(data := if value.Some? then value.value else dev.data)],
         client := Notify(client, dev.watchers))
  }

  /** The device and the scale of each feed that is due, in queue order: what a tick sends. */
  function DueLines(wraps: seq<Wrap>, now: int): seq<(string, int)>
    requires NonzeroRates(wraps)
  {
    if wraps == [] then []
    else
      var w := wraps[|wraps| - 1];
      DueLines(wraps[..|wraps| - 1], now) + if Due(w, now) then [(w.dev, w.scale)] else []
  }

  /** feeddata_cb, when the client's timer goes off at time `now`. */
  function TimerTick(s: State, c: nat, now: int): State
    requires c in s.client && NonzeroRates(s.client[c].feeds.wraps)
  {
    var cl := s.client[c];
    if !cl.feeds.armed then s
    else
      s.(client := s.client[c := cl.(feeds := Tick(cl.feeds, now),
                                     sentdata := cl.sentdata + |DueLines(cl.feeds.wraps, now)|)])
  }

  function MarkBad(device: map<string, Device>, collDev: Option<string>): map<string, Device> {
    if collDev.Some? && collDev.value in device
    then device[collDev.value := device[collDev.value].(data := COLLECTOR_BAD)] else device
  }

  /** No device is watched by `c` any more. */
  function Unwatch(device: map<string, Device>, c: nat): map<string, Device> {
    map u | u in device :: device[u].(watchers := Without(device[u].watchers, c))
  }

  /** The devices in `uids` have lost their collector. */
  function Release(device: map<string, Device>, uids: seq<string>): map<string, Device> {
    map u | u in device :: if u in uids then device[u].(collector := None, onq := false) else device[u]
  }

  /** buf_error_cb: the connection of client `c` is gone. */
  function Close(s: State, c: nat): State
    requires c in s.client
  {
    var cl := s.client[c];
    var device := Unwatch(MarkBad(s.device, cl.collDev), c);
    s.(clients := Without(s.clients, c),
       client := s.client - {c},
       device := if cl.provider then Release(device, cl.devices) else device)
  }

  /** network_shutdown */
  function Shutdown(s: State): State
    requires forall c :: c in s.clients ==> c in s.client
    decreases |s.clients|
  {
    if s.clients == [] then s
    else
      var t := Close(s, s.clients[0]);
      assert s.clients[0] in s.clients && s.clients[0] !in t.clients;
      Shutdown(t)
  }

  // ----- runs

  datatype Step =
    | DoAccept
    | DoRegister(c: nat, args: RegisterArgs)
    | DoName(c: nat, cli: Option<string>, host: string)
    | DoCfeed(c: nat, uid: Option<string>)
    | DoFeed(c: nat, uid: Option<string>, rate: int, scale: Option<int>)
    | DoUpdate(c: nat, uid: Option<string>, value: Option<int>)
    | DoTick(c: nat, now: int)
    | DoClose(c: nat)

  /** A command of a client that is not connected does not exist, nor does a tick that divides by zero. */
  predicate Possible(s: State, step: Step) {
    && (step.DoAccept? || step.c in s.client)
    && (step.DoTick? ==> NonzeroRates(s.client[step.c].feeds.wraps))
  }

  function Apply(s: State, step: Step): State
    requires Possible(s, step)
  {
    match step
    case DoAccept => Accept(s)
    case DoRegister(c, a) => Register(s, c, a)
    case DoName(c, cli, host) => Name(s, c, cli, host)
    case DoCfeed(c, uid) => Cfeed(s, c, uid)
    case DoFeed(c, uid, rate, scale) => Feed(s, c, uid, rate, scale)
    case DoUpdate(c, uid, value) => Update(s, c, uid, value)
    case DoTick(c, now) => TimerTick(s, c, now)
    case DoClose(c) => Close(s, c)
  }

  /** `states` is a run from the empty server through the given steps. */
  predicate IsRun(states: seq<State>, steps: seq<Step>) {
    && |states| == |steps| + 1
    && states[0] == Empty
    && forall i :: 0 <= i < |steps| ==> Possible(states[i], steps[i]) && states[i + 1] == Apply(states[i], steps[i])
  }
}
