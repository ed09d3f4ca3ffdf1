/**
 The feeds of one client: devices it asked to have sent every so many seconds, driven by one
 repeating timer whose interval is the gcd of the rates.
 */
module FeedSchedule {
  import opened Divisors

  /** wrap_device_t, as far as feeds use it. */
  datatype Wrap = Wrap(dev: string, rate: int, scale: int, last: int)

  /** The feed fields of client_t; `armed` is whether the timer event exists. */
  datatype Feeds = Feeds(wraps: seq<Wrap>, armed: bool, timer: int)

  const NoFeeds := Feeds([], false, 0)

  predicate PositiveRates(wraps: seq<Wrap>) {
    forall i :: 0 <= i < |wraps| ==> wraps[i].rate > 0
  }

  predicate NonzeroRates(wraps: seq<Wrap>) {
    forall i :: 0 <= i < |wraps| ==> wraps[i].rate != 0
  }

  function FoldGcd(wraps: seq<Wrap>, timer: int): int {
    if wraps == [] then timer else FoldGcd(wraps[1..], IntGcd(wraps[0].rate, timer))
  }

  /** The part of cmd_feed after its arguments have been found good. */
  function AddFeed(f: Feeds, dev: string, rate: int, scale: int): Feeds {
    var wraps := f.wraps + [Wrap(dev, rate, scale, 0)];
    if !f.armed then Feeds(wraps, true, rate)
    else Feeds(wraps, true, FoldGcd(wraps, f.timer))
  }

  /** d divides every rate. */
  ghost predicate DividesAll(d: nat, wraps: seq<Wrap>) {
    forall i :: 0 <= i < |wraps| ==> wraps[i].rate >= 0 && Divides(d, wraps[i].rate)
  }

  /** The timer interval is the gcd of the rates: its divisors are their common divisors. */
  ghost predicate TimerIsGcd(f: Feeds) {
    && PositiveRates(f.wraps)
    && (f.armed <==> f.wraps != [])
    && f.timer >= 0
    && (f.armed ==> f.timer > 0 && forall d: nat :: Divides(d, f.timer) <==> DividesAll(d, f.wraps))
  }

  lemma {:induction false} FoldGcdDivisors(wraps: seq<Wrap>, timer: nat, d: nat)
    requires PositiveRates(wraps)
    ensures FoldGcd(wraps, timer) >= 0 && (timer > 0 ==> FoldGcd(wraps, timer) > 0)
    ensures Divides(d, FoldGcd(wraps, timer)) <==> Divides(d, timer) && DividesAll(d, wraps)
    decreases |wraps|
  {
    if wraps != [] {
      var g := Gcd(wraps[0].rate, timer);
      IntGcdIsGcd(wraps[0].rate, timer);
      GcdDivisors(wraps[0].rate, timer, d);
      GcdPositive(wraps[0].rate, timer);
      FoldGcdDivisors(wraps[1..], g, d);
      assert wraps == [wraps[0]] + wraps[1..];
    }
  }

  /** Every feed command leaves the timer at the gcd of all rates. */
  lemma AddFeedKeepsGcd(f: Feeds, dev: string, rate: int, scale: int)
    requires TimerIsGcd(f) && rate > 0
    ensures TimerIsGcd(AddFeed(f, dev, rate, scale))
  {
    var r := AddFeed(f, dev, rate, scale);
    FoldGcdDivisors(r.wraps, f.timer, 1);
    forall d: nat ensures Divides(d, r.timer) <==> DividesAll(d, r.wraps) {
      if f.armed {
        FoldGcdDivisors(r.wraps, f.timer, d);
        assert Divides(d, f.timer) <==> DividesAll(d, f.wraps);
        if DividesAll(d, r.wraps) {
          assert forall i :: 0 <= i < |f.wraps| ==> r.wraps[i] == f.wraps[i];
        }
      } else {
        assert r.wraps[0].rate == rate;
      }
    }
    if f.armed {
      FoldGcdDivisors(r.wraps, f.timer, 1);
    }
  }

  /** The timer interval divides each rate, and is as large as any number that does. */
  lemma TimerIsGreatest(f: Feeds, d: nat)
    requires TimerIsGcd(f) && f.armed
    ensures DividesAll(f.timer, f.wraps)
    ensures DividesAll(d, f.wraps) ==> 0 < d <= f.timer
  {
    DividesItself(f.timer);
    if DividesAll(d, f.wraps) {
      DivisorIsSmaller(d, f.timer);
    }
  }

  /** What holds of a client's timer whatever its rates; they may be negative, or zero. */
  ghost predicate TimerRight(f: Feeds) {
    (f.armed <==> f.wraps != []) && (PositiveRates(f.wraps) ==> TimerIsGcd(f))
  }

  lemma AddFeedKeepsTimer(f: Feeds, dev: string, rate: int, scale: int)
    requires TimerRight(f)
    ensures TimerRight(AddFeed(f, dev, rate, scale))
  {
    var r := AddFeed(f, dev, rate, scale);
    if PositiveRates(r.wraps) {
      assert forall i :: 0 <= i < |f.wraps| ==> r.wraps[i] == f.wraps[i];
      assert r.wraps[|f.wraps|].rate == rate;
      AddFeedKeepsGcd(f, dev, rate, scale);
    }
  }

  /** `/` of C, which rounds towards zero. */
  function Quotient(a: int, b: int): int
    requires b != 0
  {
    var q := Magnitude(a) / Magnitude(b);
    if (a < 0) == (b < 0) then q else -q
  }

  predicate Due(w: Wrap, now: int)
    requires w.rate != 0
  {
    Quotient(now - w.last, w.rate) >= 1
  }

  function Fire(w: Wrap, now: int): Wrap
    requires w.rate != 0
  {
    if Due(w, now) then w.(last := now) else w
  }

  /** feeddata_cb at time `now`; with a rate of zero it divides by zero. */
  function Tick(f: Feeds, now: int): (r: Feeds)
    requires NonzeroRates(f.wraps)
    ensures |r.wraps| == |f.wraps| && forall i :: 0 <= i < |f.wraps| ==> r.wraps[i].rate == f.wraps[i].rate
  {
    f.(wraps := seq(|f.wraps|, i requires 0 <= i < |f.wraps| => Fire(f.wraps[i], now)))
  }

  lemma TickKeepsTimer(f: Feeds, now: int)
    requires NonzeroRates(f.wraps) && TimerRight(f)
    ensures TimerRight(Tick(f, now))
  {
    hide Due;
    var r := Tick(f, now);
    if PositiveRates(r.wraps) {
      assert forall i :: 0 <= i < |f.wraps| ==> r.wraps[i].rate == f.wraps[i].rate;
      forall d: nat ensures DividesAll(d, r.wraps) <==> DividesAll(d, f.wraps) {
        assert forall i :: 0 <= i < |f.wraps| ==> r.wraps[i].rate == f.wraps[i].rate;
      }
    }
  }

  // ----- the schedule

  /** When tick `n` of a timer armed at `t0` with interval `g` comes: at t0 + n * g. */
  function TickTime(t0: int, g: nat, n: nat): (t: int)
    ensures t >= t0
  {
    if n == 0 then t0 else TickTime(t0, g, n - 1) + g
  }

  lemma {:induction false} TickTimeAdd(t0: int, g: nat, n: nat, m: nat)
    ensures TickTime(t0, g, n + m) == TickTime(t0, g, n) + TickTime(0, g, m)
  {
    if m > 0 {
      TickTimeAdd(t0, g, n, m - 1);
    }
  }

  lemma {:induction false} TickTimeIsProduct(g: nat, n: nat)
    ensures TickTime(0, g, n) == g * n
  {
    if n > 0 {
      TickTimeIsProduct(g, n - 1);
      assert g * n == g * (n - 1) + g;
    }
  }

  /** After `n` punctual ticks of a timer armed at time `t0`. */
  function Ticks(f: Feeds, t0: int, n: nat): (r: Feeds)
    requires PositiveRates(f.wraps) && f.timer >= 0
    ensures PositiveRates(r.wraps) && |r.wraps| == |f.wraps| && r.timer == f.timer
    ensures forall i :: 0 <= i < |f.wraps| ==> r.wraps[i].rate == f.wraps[i].rate
  {
    if n == 0 then f else Tick(Ticks(f, t0, n - 1), TickTime(t0, f.timer, n))
  }

  lemma DueIsElapsed(w: Wrap, now: int)
    requires w.rate > 0
    ensures Due(w, now) <==> now - w.last >= w.rate
  {
    AtLeastOne(Magnitude(now - w.last), w.rate);
  }

  lemma AtLeastOne(a: nat, b: nat)
    requires b > 0
    ensures a / b >= 1 <==> a >= b
  {
  }

  lemma NextTick(f: Feeds, t0: int, n: nat, i: nat)
    requires PositiveRates(f.wraps) && f.timer >= 0 && i < |f.wraps|
    ensures var w, now := Ticks(f, t0, n).wraps[i], TickTime(t0, f.timer, n + 1);
      Ticks(f, t0, n + 1).wraps[i].last == if now >= w.last + w.rate then now else w.last
  {
    DueIsElapsed(Ticks(f, t0, n).wraps[i], TickTime(t0, f.timer, n + 1));
  }

  /** A feed stays quiet until its rate has passed since it last fired. */
  lemma {:induction false} QuietUntilDue(f: Feeds, t0: int, n: nat, i: nat, m: nat)
    requires PositiveRates(f.wraps) && f.timer >= 0 && i < |f.wraps|
    requires TickTime(t0, f.timer, n + m) < Ticks(f, t0, n).wraps[i].last + f.wraps[i].rate
    ensures Ticks(f, t0, n + m).wraps[i].last == Ticks(f, t0, n).wraps[i].last
  {
    if m > 0 {
      QuietUntilDue(f, t0, n, i, m - 1);
      NextTick(f, t0, n + m - 1, i);
    }
  }

  /**
   Two firings of a feed on one timer are exactly `rate` seconds apart: fired at tick n, it fires
   again `q` ticks later, where q is `rate / timer`, and at no tick between.
   */
  lemma GapIsRate(f: Feeds, t0: int, n: nat, i: nat, q: nat, m: nat)
    requires PositiveRates(f.wraps) && f.timer > 0 && i < |f.wraps|
    requires f.wraps[i].rate == f.timer * q && m <= q
    requires Ticks(f, t0, n).wraps[i].last == TickTime(t0, f.timer, n)
    ensures Ticks(f, t0, n + m).wraps[i].last
         == TickTime(t0, f.timer, n) + if m < q then 0 else f.wraps[i].rate
  {
    var g, rate := f.timer, f.wraps[i].rate;
    TickTimeIsProduct(g, q);
    assert q == 0 ==> g * q == 0;
    TickTimeAdd(t0, g, n, q);
    if m < q {
      TickTimeLess(t0, g, n + m, n + q);
      QuietUntilDue(f, t0, n, i, m);
    } else {
      TickTimeLess(t0, g, n + (q - 1), n + q);
      QuietUntilDue(f, t0, n, i, q - 1);
      NextTick(f, t0, n + (q - 1), i);
    }
  }

  lemma {:induction false} TickTimeLess(t0: int, g: nat, a: nat, b: nat)
    requires a < b && g > 0
    ensures TickTime(t0, g, a) + g <= TickTime(t0, g, b)
    decreases b
  {
    if a + 1 < b {
      TickTimeLess(t0, g, a, b - 1);
    }
  }

  /** Between two punctual ticks no feed that has fired on this timer is overdue. */
  lemma NeverOverdue(f: Feeds, t0: int, n: nat, i: nat, q: nat, m: nat, now: int)
    requires PositiveRates(f.wraps) && f.timer > 0 && i < |f.wraps|
    requires f.wraps[i].rate == f.timer * q && m < q
    requires Ticks(f, t0, n).wraps[i].last == TickTime(t0, f.timer, n)
    requires TickTime(t0, f.timer, n + m) <= now < TickTime(t0, f.timer, n + m + 1)
    ensures var w := Ticks(f, t0, n + m).wraps[i]; w.last <= now < w.last + w.rate
  {
    var g := f.timer;
    GapIsRate(f, t0, n, i, q, m);
    TickTimeIsProduct(g, q);
    TickTimeAdd(t0, g, n, q);
    TickTimeAdd(t0, g, n, m);
    if m + 1 < q {
      TickTimeLess(t0, g, n + m + 1, n + q);
    }
  }

  /** The first tick at or after time `due`. */
  lemma {:induction false} FirstTickAfter(t0: int, g: nat, due: int) returns (n: nat)
    requires t0 < due && g > 0
    ensures n > 0 && TickTime(t0, g, n - 1) < due <= TickTime(t0, g, n)
    decreases due - t0
  {
    if due <= t0 + g {
      n := 1;
    } else {
      var k := FirstTickAfter(t0 + g, g, due);
      n := k + 1;
      TickTimeShift(t0, g, k);
      TickTimeShift(t0, g, k - 1);
    }
  }

  lemma {:induction false} TickTimeShift(t0: int, g: nat, n: nat)
    ensures TickTime(t0 + g, g, n) == TickTime(t0, g, n + 1)
  {
    if n > 0 {
      TickTimeShift(t0, g, n - 1);
    }
  }

  /**
   After the timer is re-armed at time `t0`, the feed stays quiet until some tick n and fires there,
   at least `rate` seconds after it last fired; less than `timer` seconds too late exactly if it was
   not overdue at `t0`.  (If it was, each further re-arming before the next tick delays it again.)
   */
  lemma GapAfterRearm(f: Feeds, t0: int, i: nat) returns (n: nat)
    requires PositiveRates(f.wraps) && f.timer > 0 && i < |f.wraps| && f.wraps[i].last <= t0
    ensures var w, now := f.wraps[i], TickTime(t0, f.timer, n);
      && n > 0 && (n > 1 ==> TickTime(t0, f.timer, n - 1) < w.last + w.rate)
      && Ticks(f, t0, n - 1).wraps[i].last == w.last
      && Ticks(f, t0, n).wraps[i].last == now
      && w.rate <= now - w.last
      && (now - w.last < w.rate + f.timer <==> t0 < w.last + w.rate)
  {
    var w, g := f.wraps[i], f.timer;
    if t0 < w.last + w.rate {
      n := FirstTickAfter(t0, g, w.last + w.rate);
      QuietUntilDue(f, t0, 0, i, n - 1);
    } else {
      n := 1;
      assert TickTime(t0, g, 1) == TickTime(t0, g, 0) + g;
    }
    NextTick(f, t0, n - 1, i);
  }
}
