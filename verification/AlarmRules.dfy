/**
 The alarm collector: rules over device values, each with a latch, that set and clear alarms on the
 server when the latch changes.
 */
module AlarmRules {
  import opened Lists
  import opened Decimals

  datatype Flag = GT | LT | GTE | LTE | EQ | NE | JITTER | AND | OR | HANDLER

  /** data_t: what its bits are as a double, as an unsigned int and as a long long. */
  datatype Data = Data(d: real, ui: nat, ll: int)

  datatype Kind = DOUBLE | UINT | LL

  /** watch_t: a rule, and the three fields that updates change. */
  datatype Watch = Watch(uid: string, wtype: set<Flag>, sev: CInt, chan: bv32, aluid: string, msg: string,
    handler: Option<string>, threshold: int, comparison: nat, val: Data, lastchg: int, fired: bool)

  /**
   An update of a device: the kind of its data, the data that the tests use, the data it stores
   (which differ for switches and their like), and the time.
   */
  datatype Update = Update(uid: string, kind: Kind, data: Data, stored: Data, now: int)

  /** A setalarm line. */
  datatype Msg = Msg(aluid: string, text: string, sev: CInt, chan: bv32)

  predicate SameRule(a: Watch, b: Watch) {
    b == a.(val := b.val, lastchg := b.lastchg, fired := b.fired)
  }

  /** Rules that look at another row name one. */
  predicate Wired(ws: seq<Watch>) {
    forall i :: 0 <= i < |ws| && (AND in ws[i].wtype || OR in ws[i].wtype) ==> ws[i].comparison < |ws|
  }

  predicate SameRules(ws: seq<Watch>, vs: seq<Watch>) {
    |vs| == |ws| && forall i :: 0 <= i < |ws| ==> SameRule(ws[i], vs[i])
  }

  /** TEST_DATATYPE: the comparison `test` in the field of the union that the kind says. */
  function Compare(test: Flag, kind: Kind, a: Data, b: Data): bool {
    match kind
    case DOUBLE => CompareReals(test, a.d, b.d)
    case UINT => CompareInts(test, a.ui, b.ui)
    case LL => CompareInts(test, a.ll, b.ll)
  }

  function CompareReals(test: Flag, a: real, b: real): bool {
    match test
    case GT => a > b
    case LT => a < b
    case EQ => a == b
    case LTE => a <= b
    case GTE => a >= b
    case _ => a != b
  }

  function CompareInts(test: Flag, a: int, b: int): bool {
    match test
    case GT => a > b
    case LT => a < b
    case EQ => a == b
    case LTE => a <= b
    case GTE => a >= b
    case _ => a != b
  }

  /** The row after the simple tests, of which only the first whose flag is set is made. */
  function Tested(w: Watch, u: Update): (r: (Watch, bool))
    ensures SameRule(w, r.0) && r.0.fired == w.fired
  {
    if GT in w.wtype then (w, Compare(GT, u.kind, u.data, w.val))
    else if LT in w.wtype then (w, Compare(LT, u.kind, u.data, w.val))
    else if EQ in w.wtype then (w, Compare(EQ, u.kind, u.data, w.val))
    else if LTE in w.wtype then (w, Compare(LTE, u.kind, u.data, w.val))
    else if GTE in w.wtype then (w, Compare(GTE, u.kind, u.data, w.val))
    else if NE in w.wtype then (w, Compare(NE, u.kind, u.data, w.val))
    else if JITTER in w.wtype then
      if !Compare(EQ, u.kind, u.data, w.val) then (w.(val := u.stored, lastchg := u.now), false)
      else (w, u.now - w.lastchg > w.threshold)
    else (w, false)
  }

  /** Whether row `i` fires, given what its simple test says. */
  function Combined(ws: seq<Watch>, i: nat, fired: bool): bool
    requires i < |ws| && Wired(ws)
  {
    var w := ws[i];
    var or := fired || (OR in w.wtype && ws[w.comparison].fired);
    if AND in w.wtype then or && ws[w.comparison].fired else or
  }

  function SetMsg(w: Watch): Msg {
    Msg(w.aluid, w.msg, w.sev, w.chan)
  }

  function ClearMsg(w: Watch): Msg {
    Msg(w.aluid, w.msg, 0, w.chan)
  }

  /** One row on an update of its device. */
  function Row(ws: seq<Watch>, i: nat, u: Update): (r: (Watch, seq<Msg>))
    requires i < |ws| && Wired(ws)
    ensures SameRule(ws[i], r.0)
  {
    var (w, simple) := Tested(ws[i], u);
    var fired := Combined(ws, i, simple);
    if fired && !w.fired then (w.(fired := true), if w.sev != 0 then [SetMsg(w)] else [])
    else if w.fired && !fired then (w.(fired := false), [ClearMsg(w)])
    else (w, [])
  }

  /** The handler that row `i` runs: on every update it fires at, whatever its latch. */
  function RowHandler(ws: seq<Watch>, i: nat, u: Update): seq<string>
    requires i < |ws| && Wired(ws)
  {
    var w := ws[i];
    if HANDLER in w.wtype && Combined(ws, i, Tested(w, u).1) && w.handler.Some? then [w.handler.value] else []
  }

  /** The handlers run by the loop from row `i` on. */
  function Handlers(ws: seq<Watch>, i: nat, u: Update): seq<string>
    requires i <= |ws| && Wired(ws)
    decreases |ws| - i
  {
    if i == |ws| then []
    else if ws[i].uid != u.uid then Handlers(ws, i + 1, u)
    else RowHandler(ws, i, u) + Handlers(ws[i := Row(ws, i, u).0], i + 1, u)
  }

  /** The loop of coll_upd_cb from row `i` on. */
  function Rows(ws: seq<Watch>, i: nat, u: Update): (r: (seq<Watch>, seq<Msg>))
    requires i <= |ws| && Wired(ws)
    ensures SameRules(ws, r.0)
    decreases |ws| - i
  {
    if i == |ws| then (ws, [])
    else if ws[i].uid != u.uid then Rows(ws, i + 1, u)
    else
      var (w, sent) := Row(ws, i, u);
      var (vs, more) := Rows(ws[i := w], i + 1, u);
      (vs, sent + more)
  }

  /** The callback, which changes the rows in place; `ran` are the handlers it runs. */
  method CollUpd(watched: array<Watch>, u: Update) returns (sent: seq<Msg>, ran: seq<string>)
    requires Wired(watched[..])
    modifies watched
    ensures (watched[..], sent) == Rows(old(watched[..]), 0, u)
    ensures ran == Handlers(old(watched[..]), 0, u)
    ensures Wired(watched[..])
  {
    hide Row, RowHandler;
    sent, ran := [], [];
    var i := 0;
    ghost var all, handlers := Rows(watched[..], 0, u), Handlers(watched[..], 0, u);
    assert sent + all.1 == all.1 && ran + handlers == handlers;
    while i < watched.Length
      invariant 0 <= i <= watched.Length && Wired(watched[..])
      invariant var (vs, more) := Rows(watched[..], i, u); (vs, sent + more) == all
      invariant ran + Handlers(watched[..], i, u) == handlers
    {
      ghost var ws, before, earlier := watched[..], sent, ran;
      if watched[i].uid == u.uid {
        var lines, handler := UpdateRow(watched, i, u);
        sent, ran := sent + lines, ran + handler;
        assert watched[..] == ws[i := Row(ws, i, u).0];
        Associative(before, lines, Rows(watched[..], i + 1, u).1);
        Associative(earlier, handler, Handlers(watched[..], i + 1, u));
      }
      i := i + 1;
    }
    assert sent + [] == sent && ran + [] == ran;
  }

  /** The body of the loop, as the source orders its tests. */
  method UpdateRow(watched: array<Watch>, i: nat, u: Update) returns (sent: seq<Msg>, ran: seq<string>)
    requires i < watched.Length && Wired(watched[..])
    modifies watched
    ensures watched[..] == old(watched[..])[i := Row(old(watched[..]), i, u).0]
    ensures sent == Row(old(watched[..]), i, u).1 && ran == RowHandler(old(watched[..]), i, u)
    ensures Wired(watched[..])
  {
    var watch, fired := SimpleTests(watched[i], u);
    hide Tested;
    sent, ran := [], [];
    if OR in watch.wtype && watched[watch.comparison].fired {
      fired := true;
    }
    if AND in watch.wtype {
      fired := fired && watched[watch.comparison].fired;
    }
    if HANDLER in watch.wtype && fired {
      if watch.handler.Some? {
        ran := [watch.handler.value];
      }
    }
    if fired && !watch.fired {
      if watch.sev != 0 {
        sent := [SetMsg(watch)];
      }
      watch := watch.(fired := true);
    } else if watch.fired && !fired {
      sent := [ClearMsg(watch)];
      watch := watch.(fired := false);
    }
    watched[i] := watch;
  }

  /** The chain of simple tests. */
  method SimpleTests(w: Watch, u: Update) returns (watch: Watch, fired: bool)
    ensures (watch, fired) == Tested(w, u)
  {
    watch, fired := w, false;
    if GT in watch.wtype {
      fired := Compare(GT, u.kind, u.data, watch.val);
    } else if LT in watch.wtype {
      fired := Compare(LT, u.kind, u.data, watch.val);
    } else if EQ in watch.wtype {
      fired := Compare(EQ, u.kind, u.data, watch.val);
    } else if LTE in watch.wtype {
      fired := Compare(LTE, u.kind, u.data, watch.val);
    } else if GTE in watch.wtype {
      fired := Compare(GTE, u.kind, u.data, watch.val);
    } else if NE in watch.wtype {
      fired := Compare(NE, u.kind, u.data, watch.val);
    } else if JITTER in watch.wtype {
      fired := Compare(EQ, u.kind, u.data, watch.val);
      if !fired {
        watch := watch.(val := u.stored, lastchg := u.now);
      } else {
        fired := u.now - watch.lastchg > watch.threshold;
      }
    }
  }
}
