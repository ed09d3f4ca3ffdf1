/** parse_command: a line's words become typed arguments. */
module WireArgs {
  import opened Lists
  import opened Decimals
  import opened WireTable

  /** An argument's value; a number with a fraction is kept as the text that strtod is given. */
  datatype Value = Text(text: string) | Int(i: CInt) | UInt(u: CUInt) | Long(l: int) | Double(digits: string)

  datatype Arg = Arg(id: Sc, value: Value)

  function ValueOf(t: Type, s: string): Value {
    match t
    case PTCHAR => Text(s)
    case PTINT => Int(Atoi(s))
    case PTUINT => UInt(Strtoul(s))
    case PTLL => Long(Strtol(s))
    case PTDOUBLE => Double(s)
  }

  /** strcspn(w, ":") */
  function Colon(w: string): (n: nat)
    ensures n <= |w| && ':' !in w[..n]
    ensures n < |w| ==> w[n] == ':'
  {
    if w == "" || w[0] == ':' then 0 else 1 + Colon(w[1..])
  }

  function ToLower(c: char): char {
    if 'A' <= c <= 'Z' then c - 'A' + 'a' else c
  }

  function Lower(s: string): string {
    seq(|s|, i requires 0 <= i < |s| => ToLower(s[i]))
  }

  /** What one word contributes: nothing without a colon or with a name that is not in the table. */
  ghost function ArgOf(w: string): (r: seq<Arg>)
    ensures |r| <= 1
  {
    var n := Colon(w);
    if n == |w| then []
    else
      var row := Lookup(Lower(w[..n]));
      if row.None? then [] else [Arg(Table()[row.value].num, ValueOf(Table()[row.value].kind, w[n + 1..]))]
  }

  /** The arguments of the words after the command, up to an empty word. */
  ghost function ArgsOf(words: seq<string>): (r: seq<Arg>)
    ensures |r| <= |words|
  {
    if words == [] || words[0] == "" then [] else ArgOf(words[0]) + ArgsOf(words[1..])
  }

  /** parse_command: NULL without words; the command itself is ignored. */
  ghost function ParseCommand(words: seq<string>): Option<seq<Arg>> {
    if words == [] then None else Some(ArgsOf(words[1..]))
  }

  /** An entry of the pargs_t array; End is the entry whose cword is -1. */
  datatype Slot = Unset | Filled(arg: Arg) | End

  method LowerLoop(s: string) returns (r: string)
    ensures r == Lower(s)
  {
    r := "";
    for p := 0 to |s|
      invariant r == Lower(s[..p])
    {
      r := r + [ToLower(s[p])];
    }
    assert s[..|s|] == s;
  }

  method ParseArg(w: string) returns (r: Option<Arg>)
    ensures ArgOf(w) == if r.Some? then [r.value] else []
  {
    hide Table, ValueOf;
    var span := Colon(w);
    if span == |w| {
      return None;
    }
    var cp := LowerLoop(w[..span]);
    var asp := Bsearch(cp);
    if asp.None? {
      return None;
    }
    return Some(Arg(Table()[asp.value].num, ValueOf(Table()[asp.value].kind, w[span + 1..])));
  }

  /** The arguments in a stretch of the array. */
  function Given(slots: seq<Slot>): seq<Arg> {
    if slots == [] then []
    else Given(slots[..|slots| - 1]) + if slots[|slots| - 1].Filled? then [slots[|slots| - 1].arg] else []
  }

  lemma NextWord(words: seq<string>, i: nat, given: seq<Arg>)
    requires i < |words| && words[i] != ""
    ensures given + ArgsOf(words[i..]) == given + ArgOf(words[i]) + ArgsOf(words[i + 1..])
  {
    hide ArgOf;
    var rest := words[i..];
    assert rest[0] == words[i] && rest[1..] == words[i + 1..];
    assert ArgsOf(rest) == ArgOf(words[i]) + ArgsOf(words[i + 1..]);
    Associative(given, ArgOf(words[i]), ArgsOf(words[i + 1..]));
  }

  lemma GivenMore(slots: seq<Slot>, arg: Arg)
    ensures Given(slots + [Filled(arg)]) == Given(slots) + [arg]
  {
    assert (slots + [Filled(arg)])[..|slots|] == slots;
  }

  /** The loop of parse_command: one entry for each word is room for the arguments and the end. */
  method FillArgs(words: seq<string>) returns (args: array<Slot>, cur: nat)
    requires words != []
    ensures fresh(args) && args.Length == |words| && cur < args.Length && args[cur] == End
    ensures forall k :: 0 <= k < cur ==> args[k].Filled?
    ensures ParseCommand(words) == Some(Given(args[..cur]))
  {
    hide ArgOf, ArgsOf, Given;
    args := new Slot[|words|](_ => Unset);
    cur := 0;
    var i := 1;
    GivenNone(args[..0]);
    while i < |words| && words[i] != ""
      invariant 1 <= i <= |words| && cur < i
      invariant forall k :: 0 <= k < cur ==> args[k].Filled?
      invariant Given(args[..cur]) + ArgsOf(words[i..]) == ArgsOf(words[1..])
    {
      var arg := ParseArg(words[i]);
      ghost var before := args[..cur];
      NextWord(words, i, Given(before));
      if arg.Some? {
        GivenMore(before, arg.value);
        args[cur] := Filled(arg.value);
        assert args[..cur + 1] == before + [Filled(arg.value)];
        cur := cur + 1;
      }
      i := i + 1;
    }
    NoMoreWords(words, i);
    ghost var filled := args[..cur];
    args[cur] := End;
    assert args[..cur] == filled;
    assert Given(filled) + [] == Given(filled);
  }

  lemma GivenNone(slots: seq<Slot>)
    requires slots == []
    ensures Given(slots) == []
  {
  }

  lemma NoMoreWords(words: seq<string>, i: nat)
    requires i <= |words| && (i < |words| ==> words[i] == "")
    ensures ArgsOf(words[i..]) == []
  {
  }

  /** find_arg_by_id: the first entry with this id in front of the end. */
  method FindArg(args: array<Slot>, ghost end: nat, id: Sc) returns (r: int)
    requires end < args.Length && args[end] == End && forall k :: 0 <= k < end ==> args[k].Filled?
    ensures r == -1 ==> forall k :: 0 <= k < end ==> args[k].arg.id != id
    ensures r != -1 ==> 0 <= r < end && args[r].arg.id == id && forall k :: 0 <= k < r ==> args[k].arg.id != id
  {
    var i := 0;
    while args[i] != End
      invariant 0 <= i <= end
      invariant forall k :: 0 <= k < i ==> args[k].arg.id != id
      decreases end - i
    {
      if args[i].arg.id == id {
        return i;
      }
      i := i + 1;
    }
    return -1;
  }
}
