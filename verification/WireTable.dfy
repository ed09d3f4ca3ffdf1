/**
 The argument table: every argument has a name and a type, and the table, sorted by name, is searched
 by halving.
 */
module WireTable {
  import opened Lists

  datatype Type = PTCHAR | PTINT | PTUINT | PTLL | PTDOUBLE

  /** The argument ids of commands.h. */
  datatype Sc =
    | SC_UID | SC_NAME | SC_RATE | SC_RRDNAME | SC_DEVTYPE | SC_PROTO | SC_SUBTYPE | SC_SWITCH
    | SC_DIMMER | SC_TEMP | SC_HUMID | SC_LUX | SC_PRESSURE | SC_SPEED | SC_DIR | SC_COUNT | SC_WETNESS
    | SC_PH | SC_WATTSEC | SC_VOLTAGE | SC_WATT | SC_AMPS | SC_RAINRATE | SC_CLIENT | SC_SCALE
    | SC_WEATHER | SC_HIWAT | SC_LOWAT | SC_HANDLER | SC_HARGS | SC_TAGS | SC_FLOWRATE | SC_DISTANCE
    | SC_ALARMSTATUS | SC_NUMBER | SC_PERCENTAGE | SC_VOLUME | SC_TIMER | SC_THMODE | SC_THSTATE
    | SC_SMNUMBER | SC_GROUPLIST | SC_DEVLIST | SC_COLLECTOR | SC_BLIND | SC_ALSEV | SC_ALTEXT
    | SC_ALUID | SC_TRIGGER | SC_ORP | SC_SALINITY | SC_ALCHAN | SC_SPAM | SC_DAYLIGHT | SC_TRISTATE
    | SC_MOONPH

  /** argtable_t */
  datatype Entry = Entry(name: string, num: Sc, kind: Type)

  // The rows of the table as init_argcomm leaves them, eight at a time: in the order of strcmp.

  function Rows1(): seq<Entry>
  {
    [Entry("alarm", SC_ALARMSTATUS, PTINT), Entry("alchan", SC_ALCHAN, PTUINT),
     Entry("alsev", SC_ALSEV, PTINT), Entry("altext", SC_ALTEXT, PTCHAR),
     Entry("aluid", SC_ALUID, PTCHAR), Entry("amps", SC_AMPS, PTDOUBLE),
     Entry("blind", SC_BLIND, PTINT), Entry("client", SC_CLIENT, PTCHAR)]
  }

  function Rows2(): seq<Entry>
  {
    [Entry("collector", SC_COLLECTOR, PTINT), Entry("count", SC_COUNT, PTUINT),
     Entry("daylight", SC_DAYLIGHT, PTINT), Entry("devt", SC_DEVTYPE, PTINT),
     Entry("dimmer", SC_DIMMER, PTDOUBLE), Entry("dir", SC_DIR, PTDOUBLE),
     Entry("distance", SC_DISTANCE, PTDOUBLE), Entry("dlist", SC_DEVLIST, PTCHAR)]
  }

  function Rows3(): seq<Entry>
  {
    [Entry("flow", SC_FLOWRATE, PTDOUBLE), Entry("glist", SC_GROUPLIST, PTCHAR),
     Entry("handler", SC_HANDLER, PTCHAR), Entry("hargs", SC_HARGS, PTCHAR),
     Entry("hiwat", SC_HIWAT, PTDOUBLE), Entry("humid", SC_HUMID, PTDOUBLE),
     Entry("lowat", SC_LOWAT, PTDOUBLE), Entry("lux", SC_LUX, PTDOUBLE)]
  }

  function Rows4(): seq<Entry>
  {
    [Entry("moonph", SC_MOONPH, PTDOUBLE), Entry("name", SC_NAME, PTCHAR),
     Entry("number", SC_NUMBER, PTLL), Entry("orp", SC_ORP, PTDOUBLE),
     Entry("pct", SC_PERCENTAGE, PTDOUBLE), Entry("ph", SC_PH, PTDOUBLE),
     Entry("pres", SC_PRESSURE, PTDOUBLE), Entry("proto", SC_PROTO, PTINT)]
  }

  function Rows5(): seq<Entry>
  {
    [Entry("rain", SC_RAINRATE, PTDOUBLE), Entry("rate", SC_RATE, PTINT),
     Entry("rrdname", SC_RRDNAME, PTCHAR), Entry("salinity", SC_SALINITY, PTDOUBLE),
     Entry("scale", SC_SCALE, PTINT), Entry("smnum", SC_SMNUMBER, PTINT),
     Entry("spamhandler", SC_SPAM, PTINT), Entry("speed", SC_SPEED, PTDOUBLE)]
  }

  function Rows6(): seq<Entry>
  {
    [Entry("subt", SC_SUBTYPE, PTINT), Entry("switch", SC_SWITCH, PTINT),
     Entry("tags", SC_TAGS, PTCHAR), Entry("temp", SC_TEMP, PTDOUBLE),
     Entry("thmode", SC_THMODE, PTINT), Entry("thstate", SC_THSTATE, PTINT),
     Entry("timer", SC_TIMER, PTUINT), Entry("trigger", SC_TRIGGER, PTUINT)]
  }

  function Rows7(): seq<Entry>
  {
    [Entry("tristate", SC_TRISTATE, PTINT), Entry("uid", SC_UID, PTCHAR),
     Entry("volts", SC_VOLTAGE, PTDOUBLE), Entry("volume", SC_VOLUME, PTDOUBLE),
     Entry("watt", SC_WATT, PTDOUBLE), Entry("weather", SC_WEATHER, PTINT),
     Entry("wet", SC_WETNESS, PTDOUBLE), Entry("wsec", SC_WATTSEC, PTLL)]
  }

  function Table(): (t: seq<Entry>)
    ensures |t| == 56
  {
    Rows1() + Rows2() + Rows3() + Rows4() + Rows5() + Rows6() + Rows7()
  }

  /** The index of the row of an argument. */
  function Place(sc: Sc): (i: nat)
    ensures i < 56
  {
    match sc
    case SC_ALARMSTATUS => 0
    case SC_ALCHAN => 1
    case SC_ALSEV => 2
    case SC_ALTEXT => 3
    case SC_ALUID => 4
    case SC_AMPS => 5
    case SC_BLIND => 6
    case SC_CLIENT => 7
    case SC_COLLECTOR => 8
    case SC_COUNT => 9
    case SC_DAYLIGHT => 10
    case SC_DEVTYPE => 11
    case SC_DIMMER => 12
    case SC_DIR => 13
    case SC_DISTANCE => 14
    case SC_DEVLIST => 15
    case SC_FLOWRATE => 16
    case SC_GROUPLIST => 17
    case SC_HANDLER => 18
    case SC_HARGS => 19
    case SC_HIWAT => 20
    case SC_HUMID => 21
    case SC_LOWAT => 22
    case SC_LUX => 23
    case SC_MOONPH => 24
    case SC_NAME => 25
    case SC_NUMBER => 26
    case SC_ORP => 27
    case SC_PERCENTAGE => 28
    case SC_PH => 29
    case SC_PRESSURE => 30
    case SC_PROTO => 31
    case SC_RAINRATE => 32
    case SC_RATE => 33
    case SC_RRDNAME => 34
    case SC_SALINITY => 35
    case SC_SCALE => 36
    case SC_SMNUMBER => 37
    case SC_SPAM => 38
    case SC_SPEED => 39
    case SC_SUBTYPE => 40
    case SC_SWITCH => 41
    case SC_TAGS => 42
    case SC_TEMP => 43
    case SC_THMODE => 44
    case SC_THSTATE => 45
    case SC_TIMER => 46
    case SC_TRIGGER => 47
    case SC_TRISTATE => 48
    case SC_UID => 49
    case SC_VOLTAGE => 50
    case SC_VOLUME => 51
    case SC_WATT => 52
    case SC_WEATHER => 53
    case SC_WETNESS => 54
    case SC_WATTSEC => 55
  }

  /** argtable[find_arg_byid(sc)].name */
  function Spelled(sc: Sc): string {
    Table()[Place(sc)].name
  }

  /** The type of an argument. */
  function TypeOf(sc: Sc): Type {
    match sc
    case SC_UID | SC_NAME | SC_RRDNAME | SC_CLIENT | SC_HANDLER | SC_HARGS | SC_TAGS | SC_GROUPLIST |
       SC_DEVLIST | SC_ALTEXT | SC_ALUID => PTCHAR
    case SC_COUNT | SC_TIMER | SC_TRIGGER | SC_ALCHAN => PTUINT
    case SC_WATTSEC | SC_NUMBER => PTLL
    case SC_DIMMER | SC_TEMP | SC_HUMID | SC_LUX | SC_PRESSURE | SC_SPEED | SC_DIR | SC_WETNESS |
       SC_PH | SC_VOLTAGE | SC_WATT | SC_AMPS | SC_RAINRATE | SC_HIWAT | SC_LOWAT | SC_FLOWRATE |
       SC_DISTANCE | SC_PERCENTAGE | SC_VOLUME | SC_ORP | SC_SALINITY | SC_MOONPH => PTDOUBLE
    case _ => PTINT
  }

  // ----- the order

  /** strcmp, from index `i` on. */
  function Strcmp(a: string, b: string, i: nat): int
    requires i <= |a| && i <= |b|
    decreases |a| - i
  {
    if i == |a| && i == |b| then 0
    else if i == |a| then -1
    else if i == |b| then 1
    else if a[i] != b[i] then a[i] as int - b[i] as int
    else Strcmp(a, b, i + 1)
  }

  predicate Before(a: string, b: string) {
    Strcmp(a, b, 0) < 0
  }

  predicate Ordered(rows: seq<Entry>) {
    forall j :: 0 <= j < |rows| - 1 ==> Before(rows[j].name, rows[j + 1].name)
  }

  lemma OrderedEight(r: seq<Entry>)
    requires |r| == 8
    requires Before(r[0].name, r[1].name) && Before(r[1].name, r[2].name) && Before(r[2].name, r[3].name)
    requires Before(r[3].name, r[4].name) && Before(r[4].name, r[5].name) && Before(r[5].name, r[6].name)
    requires Before(r[6].name, r[7].name)
    ensures Ordered(r)
  {
    hide Before;
  }

  lemma InOrderAbove()
    ensures |Rows1()| == |Rows2()| == |Rows3()| == |Rows4()| == 8
    ensures Ordered(Rows1()) && Ordered(Rows2()) && Ordered(Rows3())
    ensures Before(Rows1()[7].name, Rows2()[0].name) && Before(Rows2()[7].name, Rows3()[0].name)
    ensures Before(Rows3()[7].name, Rows4()[0].name)
  {
    hide Ordered;
    OrderedEight(Rows1());
    OrderedEight(Rows2());
    OrderedEight(Rows3());
  }

  lemma InOrderBelow()
    ensures |Rows4()| == |Rows5()| == |Rows6()| == |Rows7()| == 8
    ensures Ordered(Rows4()) && Ordered(Rows5()) && Ordered(Rows6()) && Ordered(Rows7())
    ensures Before(Rows4()[7].name, Rows5()[0].name) && Before(Rows5()[7].name, Rows6()[0].name)
    ensures Before(Rows6()[7].name, Rows7()[0].name)
  {
    hide Ordered;
    OrderedEight(Rows4());
    OrderedEight(Rows5());
    OrderedEight(Rows6());
    OrderedEight(Rows7());
  }

  lemma TableOrdered()
    ensures Ordered(Table())
  {
    hide Before, Rows1, Rows2, Rows3, Rows4, Rows5, Rows6, Rows7;
    InOrderAbove();
    InOrderBelow();
  }

  /** The row of an argument says what it is. */
  predicate RowIs(sc: Sc) {
    Table()[Place(sc)].num == sc && Table()[Place(sc)].kind == TypeOf(sc)
  }

  predicate IsRow(e: Entry, sc: Sc) {
    e.num == sc && e.kind == TypeOf(sc)
  }

  lemma EightRows()
    ensures |Rows1()| == |Rows2()| == |Rows3()| == |Rows4()| == |Rows5()| == |Rows6()| == |Rows7()| == 8
  {
  }

  /** Which eight rows a row of the table is among. */
  lemma RowAmong(i: nat)
    requires i < 56
    ensures |Rows1()| == |Rows2()| == |Rows3()| == |Rows4()| == |Rows5()| == |Rows6()| == |Rows7()| == 8
    ensures Table()[i] ==
      if i < 8 then Rows1()[i] else if i < 16 then Rows2()[i - 8] else if i < 24 then Rows3()[i - 16]
      else if i < 32 then Rows4()[i - 24] else if i < 40 then Rows5()[i - 32] else if i < 48 then Rows6()[i - 40]
      else Rows7()[i - 48]
  {
    EightRows();
    hide Rows1, Rows2, Rows3, Rows4, Rows5, Rows6, Rows7;
  }

  lemma RowsOf1(sc: Sc)
    requires Place(sc) < 8
    ensures |Rows1()| == 8 && IsRow(Rows1()[Place(sc)], sc)
  {
  }

  lemma RowsOf2(sc: Sc)
    requires 8 <= Place(sc) < 16
    ensures |Rows2()| == 8 && IsRow(Rows2()[Place(sc) - 8], sc)
  {
  }

  lemma RowsOf3(sc: Sc)
    requires 16 <= Place(sc) < 24
    ensures |Rows3()| == 8 && IsRow(Rows3()[Place(sc) - 16], sc)
  {
  }

  lemma RowsOf4(sc: Sc)
    requires 24 <= Place(sc) < 32
    ensures |Rows4()| == 8 && IsRow(Rows4()[Place(sc) - 24], sc)
  {
  }

  lemma RowsOf5(sc: Sc)
    requires 32 <= Place(sc) < 40
    ensures |Rows5()| == 8 && IsRow(Rows5()[Place(sc) - 32], sc)
  {
  }

  lemma RowsOf6(sc: Sc)
    requires 40 <= Place(sc) < 48
    ensures |Rows6()| == 8 && IsRow(Rows6()[Place(sc) - 40], sc)
  {
  }

  lemma RowsOf7(sc: Sc)
    requires 48 <= Place(sc) < 56
    ensures |Rows7()| == 8 && IsRow(Rows7()[Place(sc) - 48], sc)
  {
  }

  /** Every argument has its row. */
  lemma HasRow(sc: Sc)
    ensures RowIs(sc)
  {
    RowAmong(Place(sc));
    hide Place, Table, TypeOf, Rows1, Rows2, Rows3, Rows4, Rows5, Rows6, Rows7;
    var i := Place(sc);
    if i < 8 {
      RowsOf1(sc);
    } else if i < 16 {
      RowsOf2(sc);
    } else if i < 24 {
      RowsOf3(sc);
    } else if i < 32 {
      RowsOf4(sc);
    } else if i < 40 {
      RowsOf5(sc);
    } else if i < 48 {
      RowsOf6(sc);
    } else {
      RowsOf7(sc);
    }
  }

  // ----- strcmp is a strict order

  /** The two strings agree in front of index `i`. */
  predicate AgreeUpTo(a: string, b: string, i: nat) {
    i <= |a| && i <= |b| && forall k :: 0 <= k < i ==> a[k] == b[k]
  }

  lemma {:induction false} StrcmpTransitive(a: string, b: string, c: string, i: nat)
    requires i <= |a| && i <= |b| && i <= |c|
    requires Strcmp(a, b, i) < 0 && Strcmp(b, c, i) < 0
    ensures Strcmp(a, c, i) < 0
    decreases |a| - i
  {
    if i < |a| && i < |b| && i < |c| && a[i] == b[i] == c[i] {
      StrcmpTransitive(a, b, c, i + 1);
    }
  }

  lemma {:induction false} StrcmpReversed(a: string, b: string, i: nat)
    requires AgreeUpTo(a, b, i)
    ensures Strcmp(a, b, i) > 0 <==> Strcmp(b, a, i) < 0
    ensures Strcmp(a, b, i) == 0 <==> a == b
    decreases |a| - i
  {
    if i < |a| && i < |b| && a[i] == b[i] {
      StrcmpReversed(a, b, i + 1);
    }
  }

  lemma BeforeTransitive(a: string, b: string, c: string)
    requires Before(a, b) && Before(b, c)
    ensures Before(a, c)
  {
    StrcmpTransitive(a, b, c, 0);
  }

  lemma BeforeIrreflexive(a: string)
    ensures !Before(a, a)
  {
    StrcmpReversed(a, a, 0);
  }

  /** The table is in strict order, which is what the search by halving needs. */
  lemma {:induction false} TableInOrder(i: nat, j: nat)
    requires i < j < 56
    ensures Before(Table()[i].name, Table()[j].name)
    decreases j
  {
    TableOrdered();
    hide Table, Before;
    if i < j - 1 {
      TableInOrder(i, j - 1);
      BeforeTransitive(Table()[i].name, Table()[j - 1].name, Table()[j].name);
    }
  }

  /** No two rows have the same name. */
  lemma NamesDiffer(i: nat, j: nat)
    requires i < 56 && j < 56 && Table()[i].name == Table()[j].name
    ensures i == j
  {
    hide Table, Before;
    BeforeIrreflexive(Table()[i].name);
    if i < j {
      TableInOrder(i, j);
    } else if j < i {
      TableInOrder(j, i);
    }
  }

  /** The row with this name. */
  ghost function Lookup(key: string): (r: Option<nat>)
    ensures r.Some? ==> r.value < 56 && Table()[r.value].name == key
    ensures r.None? ==> forall i :: 0 <= i < 56 ==> Table()[i].name != key
  {
    if i :| 0 <= i < 56 && Table()[i].name == key then Some(i) else None
  }

  /** An argument's name leads to its row, and to no other. */
  lemma LookupSpelled(sc: Sc)
    ensures Lookup(Spelled(sc)) == Some(Place(sc))
    ensures Table()[Place(sc)].num == sc && Table()[Place(sc)].kind == TypeOf(sc)
  {
    hide Place, Table, TypeOf, Lookup;
    HasRow(sc);
    NamesDiffer(Place(sc), Lookup(Spelled(sc)).value);
  }

  /** bsearch in the table: the row with this name, if there is one. */
  method Bsearch(key: string) returns (r: Option<nat>)
    ensures r == Lookup(key)
  {
    hide Place, Table, Lookup, Before;
    var l, u := 0, 56;
    while l < u
      invariant 0 <= l <= u <= 56
      invariant forall i :: 0 <= i < l ==> Before(Table()[i].name, key)
      invariant forall i :: u <= i < 56 ==> Before(key, Table()[i].name)
    {
      var m := (l + u) / 2;
      var name := Table()[m].name;
      var c := Strcmp(key, name, 0);
      StrcmpBefore(key, name);
      if c < 0 {
        BelowRow(key, m);
        u := m;
      } else if c > 0 {
        AboveRow(key, m);
        l := m + 1;
      } else {
        NamesDiffer(m, Lookup(key).value);
        return Some(m);
      }
    }
    NoRow(key, l);
    return None;
  }

  lemma StrcmpBefore(a: string, b: string)
    ensures Strcmp(a, b, 0) < 0 ==> Before(a, b)
    ensures Strcmp(a, b, 0) > 0 ==> Before(b, a)
    ensures Strcmp(a, b, 0) == 0 ==> a == b
  {
    StrcmpReversed(a, b, 0);
  }

  lemma BelowRow(key: string, m: nat)
    requires m < 56 && Before(key, Table()[m].name)
    ensures forall i :: m <= i < 56 ==> Before(key, Table()[i].name)
  {
    hide Table, Before;
    forall i | m < i < 56 ensures Before(key, Table()[i].name) {
      TableInOrder(m, i);
      BeforeTransitive(key, Table()[m].name, Table()[i].name);
    }
  }

  lemma AboveRow(key: string, m: nat)
    requires m < 56 && Before(Table()[m].name, key)
    ensures forall i :: 0 <= i <= m ==> Before(Table()[i].name, key)
  {
    hide Table, Before;
    forall i | 0 <= i < m ensures Before(Table()[i].name, key) {
      TableInOrder(i, m);
      BeforeTransitive(Table()[i].name, Table()[m].name, key);
    }
  }

  lemma NoRow(key: string, l: nat)
    requires l <= 56
    requires forall i :: 0 <= i < l ==> Before(Table()[i].name, key)
    requires forall i :: l <= i < 56 ==> Before(key, Table()[i].name)
    ensures Lookup(key) == None
  {
    hide Table, Before, Lookup;
    BeforeIrreflexive(key);
    assert forall i :: 0 <= i < 56 ==> Table()[i].name != key;
  }

  /** find_arg_byid */
  method FindArgById(table: seq<Entry>, sc: Sc) returns (r: int)
    ensures r >= 0 ==> r < |table| && table[r].num == sc && forall i :: 0 <= i < r ==> table[i].num != sc
    ensures r < 0 ==> r == -1 && forall i :: 0 <= i < |table| ==> table[i].num != sc
  {
    var i := 0;
    while i < |table|
      invariant 0 <= i <= |table|
      invariant forall k :: 0 <= k < i ==> table[k].num != sc
    {
      if table[i].num == sc {
        return i;
      }
      i := i + 1;
    }
    return -1;
  }
}
