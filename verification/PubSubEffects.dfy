/** What each command of the server does to the device and the clients it is about, and to no others. */
module PubSubEffects {
  import opened Lists
  import opened Divisors
  import opened FeedSchedule
  import opened PubSub
  import opened PubSubSafety

  // ----- updates reach the watchers

  /**
   An update of a known device: every client gets one message for each of its watcher entries on the
   device, the device takes the value given, and nothing else changes but the sender's counter.
   */
  lemma UpdateReaches(s: State, c: nat, u: string, value: Option<int>, d: nat)
    requires c in s.client && d in s.client && u in s.device
    ensures var t := Update(s, c, Some(u), value);
      && d in t.client
      && t.client[d].sentdata == s.client[d].sentdata + multiset(s.device[u].watchers)[d]
      && t.client[d] == s.client[d].(sentdata := t.client[d].sentdata,
                                     updates := s.client[d].updates + if d == c then 1 else 0)
      && t.device == s.device[u := s.device[u].(data := if value.Some? then value.value else s.device[u].data)]
      && t.clients == s.clients && t.client.Keys == s.client.Keys
  {
    NotifyReachesEach(s.client[c := s.client[c].(updates := s.client[c].updates + 1)], s.device[u].watchers, d);
    hide Notify;
  }

  lemma {:induction false} EntryCounts(ws: seq<nat>, d: nat)
    ensures d in ws <==> multiset(ws)[d] > 0
  {
    assert d in ws <==> d in multiset(ws);
  }

  /** A client's watcher entries stay as long as it is connected. */
  lemma StaysWatched(s: State, step: Step, d: nat, u: string)
    requires Safe(s) && Possible(s, step) && u in s.device && d in s.device[u].watchers && step != DoClose(d)
    ensures var t := Apply(s, step); u in t.device && d in t.device[u].watchers
  {
    hide Queues, Owned, QueueShapes, WatchCounts, Timers;
    match step {
      case DoUpdate(c, uid, value) =>
        if uid.Some? && uid.value in s.device {
          UpdateTouches(s, c, uid.value, value);
          hide Update;
        }
      case _ =>
    }
  }

  /**
   In any run: once client `d` has asked for changes of a known device, and as long as it stays
   connected, every update of the device, whoever sends it, brings the client a message.
   */
  lemma {:induction false} CfeedThenUpdate(states: seq<State>, steps: seq<Step>, i: nat, j: nat, d: nat, u: string,
                                           c: nat, value: Option<int>)
    requires IsRun(states, steps) && i < j < |steps| && u in states[i].device
    requires steps[i] == DoCfeed(d, Some(u)) && steps[j] == DoUpdate(c, Some(u), value)
    requires forall k :: i < k < j ==> steps[k] != DoClose(d)
    ensures d in states[j].client && d in states[j + 1].client
    ensures states[j + 1].client[d].sentdata > states[j].client[d].sentdata
    ensures value.Some? ==> u in states[j + 1].device && states[j + 1].device[u].data == value.value
  {
    WatchedUntil(states, steps, i, j, d, u);
    RunSafe(states, steps, j);
    hide Safe, Update;
    assert Possible(states[j], steps[j]) && states[j + 1] == Apply(states[j], steps[j]);
    WatcherLive(states[j], u, d);
    UpdateReaches(states[j], c, u, value, d);
    EntryCounts(states[j].device[u].watchers, d);
  }

  lemma WatcherLive(s: State, u: string, d: nat)
    requires Safe(s) && u in s.device && d in s.device[u].watchers
    ensures d in s.client
  {
  }

  lemma {:induction false} WatchedUntil(states: seq<State>, steps: seq<Step>, i: nat, j: nat, d: nat, u: string)
    requires IsRun(states, steps) && i < j <= |steps| && u in states[i].device
    requires steps[i] == DoCfeed(d, Some(u)) && forall k :: i < k < j ==> steps[k] != DoClose(d)
    ensures u in states[j].device && d in states[j].device[u].watchers
    decreases j
  {
    var s := states[j - 1];
    assert Possible(s, steps[j - 1]) && states[j] == Apply(s, steps[j - 1]);
    if j == i + 1 {
      CfeedEntries(s, d, Some(u));
      EntryCounts(states[j].device[u].watchers, d);
    } else {
      WatchedUntil(states, steps, i, j - 1, d, u);
      RunSafe(states, steps, j - 1);
      hide Safe, Apply;
      StaysWatched(s, steps[j - 1], d, u);
    }
  }

  // ----- feeds

  /**
   A feed command for a known device adds exactly one feed, at the end of the client's queue, and arms
   the timer: at the rate if it was not armed, and in any case at a divisor of the rate.
   */
  lemma FeedAdds(s: State, c: nat, u: string, rate: int, scale: Option<int>)
    requires Safe(s) && c in s.client && u in s.device
    ensures var t := Feed(s, c, Some(u), rate, scale);
      var was, feeds := s.client[c].feeds, t.client[c].feeds;
      && t == s.(client := s.client[c := s.client[c].(feeds := feeds)])
      && feeds.wraps == was.wraps + [Wrap(u, rate, if scale.Some? then scale.value else s.device[u].scale, 0)]
      && feeds.armed && (!was.armed ==> feeds.timer == rate)
      && (PositiveRates(feeds.wraps) ==> feeds.timer > 0 && rate > 0 && Divides(feeds.timer, rate))
  {
    var t := Feed(s, c, Some(u), rate, scale);
    var feeds := t.client[c].feeds;
    FeedSafe(s, c, Some(u), rate, scale);
    assert TimerRight(feeds) by {
      hide Queues, Owned, QueueShapes, WatchersLive, WatchCounts, FoldGcd;
    }
    if PositiveRates(feeds.wraps) {
      TimerIsGreatest(feeds, 1);
      assert feeds.wraps[|feeds.wraps| - 1].rate == rate;
    }
  }

  /** A feed is due when its rate has passed; with a negative rate, when the clock is as far behind. */
  predicate Elapsed(w: Wrap, now: int) {
    if w.rate > 0 then now - w.last >= w.rate else now - w.last <= w.rate
  }

  lemma DueIsElapsedAlways(w: Wrap, now: int)
    requires w.rate != 0
    ensures Due(w, now) <==> Elapsed(w, now)
  {
    AtLeastOne(Magnitude(now - w.last), Magnitude(w.rate));
  }

  /** The lines of a tick: for each feed that is due, in queue order, its device at the feed's own scale. */
  lemma {:induction false} TickSends(before: seq<Wrap>, w: Wrap, behind: seq<Wrap>, now: int)
    requires NonzeroRates(before + [w] + behind)
    ensures NonzeroRates(before) && NonzeroRates(behind) && DueLines([], now) == []
    ensures DueLines(before + [w] + behind, now)
      == DueLines(before, now) + (if Elapsed(w, now) then [(w.dev, w.scale)] else []) + DueLines(behind, now)
    decreases |behind|
  {
    var all := before + [w] + behind;
    assert forall i :: 0 <= i < |before| ==> before[i] == all[i];
    assert forall i :: 0 <= i < |behind| ==> behind[i] == all[|before| + 1 + i];
    assert all[|before|] == w;
    hide Due, Elapsed;
    DueIsElapsedAlways(w, now);
    if behind == [] {
      assert all == before + [w] && all[..|all| - 1] == before;
    } else {
      var n := |behind| - 1;
      assert all[..|all| - 1] == before + [w] + behind[..n] && all[|all| - 1] == behind[n];
      TickSends(before, w, behind[..n], now);
      var line := if Due(behind[n], now) then [(behind[n].dev, behind[n].scale)] else [];
      Associative(DueLines(before, now) + (if Elapsed(w, now) then [(w.dev, w.scale)] else []),
                  DueLines(behind[..n], now), line);
    }
  }

  lemma TickSendsOne(wraps: seq<Wrap>, i: nat, now: int)
    requires NonzeroRates(wraps) && i < |wraps|
    ensures Elapsed(wraps[i], now) ==> (wraps[i].dev, wraps[i].scale) in DueLines(wraps, now)
  {
    assert wraps == wraps[..i] + [wraps[i]] + wraps[i + 1..];
    hide Elapsed, DueLines;
    TickSends(wraps[..i], wraps[i], wraps[i + 1..], now);
  }

  /** A tick keeps devices, rates and scales. */
  lemma {:induction false} TicksKeep(f: Feeds, t0: int, n: nat, i: nat)
    requires PositiveRates(f.wraps) && f.timer >= 0 && i < |f.wraps|
    ensures Ticks(f, t0, n).wraps[i] == f.wraps[i].(last := Ticks(f, t0, n).wraps[i].last)
    decreases n
  {
    if n > 0 {
      hide Due;
      TicksKeep(f, t0, n - 1, i);
    }
  }

  /**
   A new feed, end to end: after the command at time `t0`, at the first punctual tick n at which the
   clock has reached the rate, the device goes out at the scale asked for, or else its own.
   */
  lemma FeedIsSent(s: State, c: nat, u: string, rate: int, scale: Option<int>, t0: int) returns (n: nat)
    requires Safe(s) && c in s.client && u in s.device && t0 >= 0
    requires PositiveRates(Feed(s, c, Some(u), rate, scale).client[c].feeds.wraps)
    ensures n > 0 && Feed(s, c, Some(u), rate, scale).client[c].feeds.timer >= 0
    ensures var f := Feed(s, c, Some(u), rate, scale).client[c].feeds;
      var now, line := TickTime(t0, f.timer, n), (u, if scale.Some? then scale.value else s.device[u].scale);
      && now >= rate && (n > 1 ==> TickTime(t0, f.timer, n - 1) < rate)
      && line in DueLines(Ticks(f, t0, n - 1).wraps, now)
  {
    FeedAdds(s, c, u, rate, scale);
    hide Feed, Safe, Divides;
    var sc := if scale.Some? then scale.value else s.device[u].scale;
    n := NewFeedIsSent(Feed(s, c, Some(u), rate, scale).client[c].feeds, |s.client[c].feeds.wraps|, t0, u, rate, sc);
  }

  lemma NewFeedIsSent(f: Feeds, i: nat, t0: int, u: string, rate: int, scale: int) returns (n: nat)
    requires PositiveRates(f.wraps) && f.timer > 0 && t0 >= 0
    requires i < |f.wraps| && f.wraps[i] == Wrap(u, rate, scale, 0)
    ensures n > 0
    ensures var now := TickTime(t0, f.timer, n);
      && now >= rate && (n > 1 ==> TickTime(t0, f.timer, n - 1) < rate)
      && (u, scale) in DueLines(Ticks(f, t0, n - 1).wraps, now)
  {
    hide DueLines, Ticks;
    n := GapAfterRearm(f, t0, i);
    TicksKeep(f, t0, n - 1, i);
    TickSendsOne(Ticks(f, t0, n - 1).wraps, i, TickTime(t0, f.timer, n));
  }

  /** What a tick does to its client: the lines are counted, and the feeds sent are stamped. */
  lemma TickStamps(s: State, c: nat, now: int, i: nat)
    requires c in s.client && NonzeroRates(s.client[c].feeds.wraps) && i < |s.client[c].feeds.wraps|
    requires s.client[c].feeds.armed
    ensures var t := TimerTick(s, c, now);
      var was, cl := s.client[c], t.client[c];
      && t == s.(client := s.client[c := cl])
      && cl == was.(feeds := was.feeds.(wraps := cl.feeds.wraps), sentdata := cl.sentdata)
      && cl.sentdata == was.sentdata + |DueLines(was.feeds.wraps, now)|
      && |cl.feeds.wraps| == |was.feeds.wraps|
      && cl.feeds.wraps[i] == if Elapsed(was.feeds.wraps[i], now) then was.feeds.wraps[i].(last := now)
                              else was.feeds.wraps[i]
  {
    DueIsElapsedAlways(s.client[c].feeds.wraps[i], now);
    hide Due, Elapsed, DueLines;
  }

  // ----- registrations, names and ends of connections

  /** The low eight bits of an int. */
  ghost predicate LowByte(b: nat, n: int) {
    b < 256 && exists q: int :: n == 256 * q + b
  }

  lemma ByteIsLow(n: int)
    ensures LowByte(Byte(n), n)
  {
    assert n == 256 * (n / 256) + Byte(n);
  }

  /**
   A register command that goes through: the device has the name and the codes of the command, its
   collector and flag, and what it had of data and watchers; nothing else changes but the sender's queue.
   */
  lemma RegisterMakes(s: State, c: nat, a: RegisterArgs)
    requires c in s.client && RegisterAccepted(s, a)
    ensures var u, t := a.uid.value, Register(s, c, a);
      && u in t.device && t.device == s.device[u := t.device[u]]
      && var dev := t.device[u];
      && dev.name == a.name && dev.collector == Some(c) && dev.onq && dev.registered
      && LowByte(dev.devtype, a.devtype) && LowByte(dev.proto, a.proto) && LowByte(dev.subtype, a.subtype)
      && LowByte(dev.scale, a.scale)
      && (if u in s.device then dev.data == s.device[u].data && dev.watchers == s.device[u].watchers
          else dev.data == 0 && dev.watchers == [])
      && t.alldevs == (if u in s.device then s.alldevs else s.alldevs + [u])
      && t.clients == s.clients && t.client == s.client[c := t.client[c]]
      && t.client[c].devices == s.client[c].devices + (if u in s.device && s.device[u].onq then [] else [u])
      && t.client[c].provider == (s.client[c].provider || s.client[c].devices == [])
      && t.client[c] == s.client[c].(devices := t.client[c].devices, provider := t.client[c].provider)
  {
    ByteIsLow(a.devtype);
    ByteIsLow(a.proto);
    ByteIsLow(a.subtype);
    ByteIsLow(a.scale);
    hide Byte, LowByte;
    assert s.client[c].devices + [] == s.client[c].devices;
  }

  /** It is refused without a uid; and for a new device without a name, or with a code whose low byte is zero. */
  lemma RegisterRefused(s: State, c: nat, a: RegisterArgs)
    requires c in s.client
    ensures RegisterAccepted(s, a) <==>
      a.uid.Some? && (a.uid.value !in s.device ==>
        a.name.Some? && !LowByte(0, a.devtype) && !LowByte(0, a.proto) && !LowByte(0, a.subtype))
    ensures !RegisterAccepted(s, a) ==> Register(s, c, a) == s
  {
    ZeroByte(a.devtype);
    ZeroByte(a.proto);
    ZeroByte(a.subtype);
    hide LowByte, Byte;
  }

  lemma ZeroByte(n: int)
    ensures Byte(n) == 0 <==> LowByte(0, n)
  {
    ByteIsLow(n);
    if LowByte(0, n) {
      var q :| n == 256 * q + 0;
      assert n % 256 == 0;
    }
  }

  /** A client that names itself has a tracking device that says it is well, made if there was none. */
  lemma NameTracks(s: State, c: nat, cli: string, host: string)
    requires c in s.client && cli != "handler"
    ensures var u, t := cli + "-" + host, Name(s, c, Some(cli), host);
      && t.client == s.client[c := s.client[c].(collDev := Some(u))] && t.clients == s.clients
      && u in t.device && t.device[u].data == 1 && t.device == s.device[u := t.device[u]]
      && (u in s.device ==> t.device[u] == s.device[u].(data := 1) && t.alldevs == s.alldevs)
      && (u !in s.device ==>
            && t.alldevs == s.alldevs + [u] && t.device[u].collector == Some(c)
            && t.device[u].watchers == [] && !t.device[u].onq && !t.device[u].registered
            && (t.device[u].devtype, t.device[u].proto, t.device[u].subtype) == (1, 12, 30))
  {
  }

  /** Without a name, or for a handler, there is no such device. */
  lemma NameIgnored(s: State, c: nat, cli: Option<string>, host: string)
    requires c in s.client
    ensures cli == None || cli == Some("handler") ==> Name(s, c, cli, host) == s
  {
  }

  /** When it is gone the device says so; other devices keep their data, and other clients everything. */
  lemma CloseMarks(s: State, c: nat, u: string)
    requires c in s.client && u in s.device
    ensures var t := Close(s, c);
      && u in t.device && t.device[u].data == (if s.client[c].collDev == Some(u) then 0 else s.device[u].data)
      && t.device[u] == s.device[u].(data := t.device[u].data, watchers := t.device[u].watchers,
                                     collector := t.device[u].collector, onq := t.device[u].onq)
      && (u !in s.client[c].devices ==>
            t.device[u].collector == s.device[u].collector && t.device[u].onq == s.device[u].onq)
      && t.client == s.client - {c} && t.alldevs == s.alldevs
  {
  }

  /** Watcher entries of other clients stay when one is gone. */
  lemma CloseKeepsEntries(s: State, c: nat, u: string, d: nat)
    requires c in s.client && u in s.device
    ensures u in Close(s, c).device
    ensures multiset(Close(s, c).device[u].watchers)[d] == if d == c then 0 else multiset(s.device[u].watchers)[d]
  {
    WithoutCounts(s.device[u].watchers, c, d);
  }
}
