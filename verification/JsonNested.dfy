/** A text on which the search for a member goes wrong: a nested member stands before the one asked for. */
module JsonNested {
  import opened Lists
  import opened JsonLex
  import opened JsonRun
  import opened JsonPrinter
  import opened JsonRoundTrip
  import opened JsonLookup

  function Sole(v: Value): Value {
    Arr("", Item(v, "", "", NoItems))
  }

  function Two(v: Value, w: Value): Value {
    Arr("", Item(v, "", "", Item(w, "", "", NoItems)))
  }

  function Named(key: string, v: Value): Value {
    Obj("", Member(key, "", "", v, "", "", NoMembers))
  }

  /** `{"a":[[[1]],2]}` */
  function Nested(): Value {
    Named("a", Two(Sole(Sole(Plain("1"))), Plain("2")))
  }

  function NestedTokens(): seq<Token> {
    [Token(Object, 0, 15, 2, -1), Token(String, 2, 3, 0, -1), Token(Array, 5, 14, 2, 1), Token(Array, 6, 11, 1, -1),
     Token(Array, 7, 10, 1, -1), Token(Primitive, 8, 9, 0, -1), Token(Primitive, 12, 13, 0, -1)]
  }

  lemma ArrayParts(items: Items, pos: nat, idx: nat, key: int)
    ensures Print(Arr("", items)) == "[" + PrintItems(items) + "]"
    ensures Tokens(Arr("", items), pos, idx, key)
      == [Token(Array, pos, pos + |PrintItems(items)| + 2, Length(items), key)] + ItemTokens(items, pos + 1, idx + 1)
  {
    hide PrintItems, ItemTokens, Length;
    assert "[" + "" == "[";
  }

  lemma LastItem(v: Value, pos: nat, idx: nat)
    ensures PrintItems(Item(v, "", "", NoItems)) == Print(v)
    ensures ItemTokens(Item(v, "", "", NoItems), pos, idx) == Tokens(v, pos, idx, -1)
  {
    assert Print(v) + "" + "" == Print(v);
    assert Tokens(v, pos, idx, -1) + [] == Tokens(v, pos, idx, -1);
  }

  lemma SoleTokens(v: Value, pos: nat, idx: nat, key: int)
    ensures Print(Sole(v)) == "[" + Print(v) + "]" && Count(Sole(v)) == 1 + Count(v)
    ensures Tokens(Sole(v), pos, idx, key)
      == [Token(Array, pos, pos + |Print(v)| + 2, 1, key)] + Tokens(v, pos + 1, idx + 1, -1)
  {
    hide Print, Tokens;
    LastItem(v, pos + 1, idx + 1);
    ArrayParts(Item(v, "", "", NoItems), pos, idx, key);
  }

  lemma TwoTokens(v: Value, w: Value, pos: nat, idx: nat, key: int)
    ensures Print(Two(v, w)) == "[" + Print(v) + "," + Print(w) + "]" && Count(Two(v, w)) == 1 + Count(v) + Count(w)
    ensures Tokens(Two(v, w), pos, idx, key)
      == [Token(Array, pos, pos + |Print(v)| + |Print(w)| + 3, 2, key)] + Tokens(v, pos + 1, idx + 1, -1)
         + Tokens(w, pos + |Print(v)| + 2, idx + 1 + Count(v), -1)
  {
    hide Print, Tokens;
    var rest := Item(w, "", "", NoItems);
    var items := Item(v, "", "", rest);
    LastItem(w, pos + |Print(v)| + 2, idx + 1 + Count(v));
    assert PrintItems(items) == Print(v) + "" + ("," + "" + Print(w));
    assert PrintItems(items) == Print(v) + "," + Print(w);
    assert ItemTokens(items, pos + 1, idx + 1)
      == Tokens(v, pos + 1, idx + 1, -1) + ItemTokens(rest, pos + |Print(v)| + 2, idx + 1 + Count(v));
    ArrayParts(items, pos, idx, key);
    assert Length(rest) == 1 && Length(items) == 2;
    assert "[" + (Print(v) + "," + Print(w)) + "]" == "[" + Print(v) + "," + Print(w) + "]";
    Associative([Token(Array, pos, pos + |PrintItems(items)| + 2, 2, key)], Tokens(v, pos + 1, idx + 1, -1),
                Tokens(w, pos + |Print(v)| + 2, idx + 1 + Count(v), -1));
  }

  lemma NamedPrinted(key: string, v: Value)
    ensures Print(Named(key, v)) == "{\"" + key + "\":" + Print(v) + "}" && Count(Named(key, v)) == 2 + Count(v)
  {
    hide Tokens, Print, PrintMembers, MemberTokens;
    var m := Member(key, "", "", v, "", "", NoMembers);
    SoleMember(m, 1, 1);
    ObjectParts(m);
    assert "{" + ("\"" + key + "\":" + Print(v)) + "}" == "{\"" + key + "\":" + Print(v) + "}";
  }

  lemma NamedTokens(key: string, v: Value)
    ensures Tokens(Named(key, v), 0, 0, -1)
      == [Token(Object, 0, |key| + |Print(v)| + 5, 2, -1), Token(String, 2, 2 + |key|, 0, -1)] + Tokens(v,
        |key| + 4, 2, 1)
  {
    hide Tokens, Print, PrintMembers, MemberTokens;
    var m := Member(key, "", "", v, "", "", NoMembers);
    SoleMember(m, 1, 1);
    ObjectParts(m);
    var o, s := Token(Object, 0, |PrintMembers(m)| + 2, 2, -1), Token(String, 2, 2 + |key|, 0, -1);
    assert |PrintMembers(m)| == |key| + |Print(v)| + 3;
    assert [o] + [s] == [o, s];
    Associative([o], [s], Tokens(v, |key| + 4, 2, 1));
  }

  lemma ObjectParts(m: Members)
    ensures Print(Obj("", m)) == "{" + PrintMembers(m) + "}"
    ensures Tokens(Obj("", m), 0, 0, -1)
      == [Token(Object, 0, |PrintMembers(m)| + 2, 2 * Pairs(m), -1)] + MemberTokens(m, 1, 1)
  {
    hide PrintMembers, MemberTokens, Pairs;
    assert "{" + "" == "{";
  }

  lemma SoleMember(m: Members, pos: nat, idx: nat)
    requires m.Member? && m == Member(m.key, "", "", m.v, "", "", NoMembers)
    ensures PrintMembers(m) == "\"" + m.key + "\":" + Print(m.v) && CountMembers(m) == 1 + Count(m.v) && Pairs(m) == 1
    ensures MemberTokens(m, pos, idx)
      == [Token(String, pos + 1, pos + 1 + |m.key|, 0, -1)] + Tokens(m.v, pos + |m.key| + 3, idx + 1, idx)
  {
    hide Print, Tokens;
    var k, p := PrintKey(m), Print(m.v);
    assert PrintMembers(m) == k + "" + ":" + "" + p + "" + "";
    assert k + "" + ":" + "" + p + "" + "" == k + ":" + p;
    assert k + ":" + p == "\"" + m.key + "\":" + p;
  }

  lemma NestedIs()
    ensures Print(Nested()) == "{\"a\":[[[1]],2]}" && Tokens(Nested(), 0, 0, -1) == NestedTokens()
  {
    hide Print, Tokens, Count, Sole, Two, Named;
    var one, two := Plain("1"), Plain("2");
    PlainTokens("1", 8, 5);
    PlainTokens("2", 12, 6);
    SoleTokens(one, 7, 4, -1);
    SoleTokens(Sole(one), 6, 3, -1);
    TwoTokens(Sole(Sole(one)), two, 5, 2, 1);
    NamedPrinted("a", Two(Sole(Sole(one)), two));
    NamedTokens("a", Two(Sole(Sole(one)), two));
  }

  lemma PlainTokens(text: string, pos: nat, idx: nat)
    ensures Print(Plain(text)) == text && Count(Plain(text)) == 1
    ensures Tokens(Plain(text), pos, idx, -1) == [Token(Primitive, pos, pos + |text|, 0, -1)]
  {
  }

  lemma NestedLegal()
    ensures Legal(Nested()) && Count(Nested()) == 7
  {
    NestedIs();
    assert |Tokens(Nested(), 0, 0, -1)| == 7;
  }

  lemma NestedParsed()
    ensures var js := "{\"a\":[[[1]],2]}";
      Run(js, |js|, Init, 7) == Complete(State(|js|, -1, false, NestedTokens()))
  {
    NestedIs();
    NestedLegal();
    hide Run, Tokens, Print, Nested, NestedTokens, Legal;
    ParseUndoesPrint("", Nested(), "", 7);
    assert "" + Print(Nested()) + "" == Print(Nested());
  }

  /** Asked for member 1, the `2` at token 6, the search finds the `1` inside member 0, token 5. */
  lemma NestedMemberMissed()
    ensures var js, toks := "{\"a\":[[[1]],2]}", NestedTokens();
      && SizesKnown(toks) && js[toks[5].start] == '1' && js[toks[6].start] == '2'
      && NthMember(toks, js, 1, "a", 7) == 5
  {
    var toks, js := NestedTokens(), "{\"a\":[[[1]],2]}";
    assert js[2..3] == "a";
    assert FindToken(toks, js, "a", 1, 7) == 1;
    assert FindToken(toks, js, "a", 0, 7) == 1;
    assert FindValue(toks, 1, 2, 7) == 2;
    assert Hop(toks, 2, 1) == 2;
  }
}
