/** What the search for a field of a member finds in an object of leaves. */
module JsonFields {
  import opened JsonLex
  import opened JsonRun
  import opened JsonPrinter
  import opened JsonRoundTrip
  import opened JsonLookup
  import opened JsonMembers

  /** The index of the first pair with key `m`, -1 if there is none. */
  function FirstPair(members: Members, m: string): (r: int)
    ensures -1 <= r < Pairs(members)
  {
    if members.NoMembers? then -1
    else if members.key == m then 0
    else var r := FirstPair(members.rest, m); if r == -1 then -1 else r + 1
  }

  /** In an object of leaves the search for a field finds the value of the first pair with its key. */
  lemma {:induction false} FindPairInMembers(toks: seq<Token>, buf: string, m: string, members: Members, pos: nat,
                                             i: nat)
    requires LeafMembers(members) && TokensAt(toks, i, MemberTokens(members, pos, i))
    requires Has(buf, pos, PrintMembers(members))
    ensures var r := FirstPair(members, m);
      i + 2 * Pairs(members) <= |toks|
      && FindPair(toks, buf, m, i, i + 2 * Pairs(members) - 1) == if r == -1 then -1 else i + 2 * r + 1
    decreases members
  {
    if members.Member? {
      var rest, p := members.rest, PairEnd(members, pos) + 1 + |members.lead|;
      var ts := MemberTokens(members, pos, i);
      LeafCount(members.v);
      MemberTokensUnfold(members, pos, i);
      PairSpelled(toks, buf, m, members, pos, i);
      if rest.Member? {
        TokensAtTrans(toks, i, ts, 2, MemberTokens(rest, p, i + 2));
        RestPrinted(buf, members, pos);
        FindPairInMembers(toks, buf, m, rest, p, i + 2);
        PairSpelled(toks, buf, m, rest, p, i + 2);
        hide MemberTokens, PrintMembers, Has, TokensAt, LeafMembers;
        var end := i + 2 * Pairs(members) - 1;
        assert end == i + 2 + 2 * Pairs(rest) - 1;
        assert FindPair(toks, buf, m, i + 1, end) == FindPair(toks, buf, m, i + 2, end);
      } else {
        assert rest == NoMembers;
        assert FindPair(toks, buf, m, i + 1, i + 1) == -1;
      }
    }
  }

  /** The first pair: its key token is spelled as its key, its value token is linked to the key. */
  lemma {:induction false} PairSpelled(toks: seq<Token>, buf: string, m: string, members: Members, pos: nat, i: nat)
    requires members.Member? && TokensAt(toks, i, MemberTokens(members, pos, i))
    requires Has(buf, pos, PrintMembers(members))
    ensures i + 2 <= |toks| && toks[i + 1].valueof == i && toks[i].valueof == -1
    ensures Spelled(toks[i], buf, m) <==> members.key == m
  {
    var ts := MemberTokens(members, pos, i);
    FirstToken(members.v, ValuePos(members, pos), i + 1, i);
    assert toks[i + 0] == ts[0] && toks[i + 1] == ts[1] == Tokens(members.v, ValuePos(members, pos), i + 1, i)[0];
    var k := members.key;
    var tail := PrintMembers(members)[|PrintKey(members)|..];
    assert PrintMembers(members) == "\"" + (k + ("\"" + tail));
    HasParts(buf, pos, "\"", k + ("\"" + tail));
    HasParts(buf, pos + 1, k, "\"" + tail);
  }

  /** What is printed after the first pair of several. */
  lemma {:induction false} RestPrinted(buf: string, members: Members, pos: nat)
    requires members.Member? && members.rest.Member? && Has(buf, pos, PrintMembers(members))
    ensures Has(buf, PairEnd(members, pos) + 1 + |members.lead|, PrintMembers(members.rest))
  {
    var head := PrintKey(members) + members.beforeColon + ":" + members.afterColon + Print(members.v) + members.trail
      + "," + members.lead;
    assert PrintMembers(members) == head + PrintMembers(members.rest);
    HasParts(buf, pos, head, PrintMembers(members.rest));
    assert pos + |head| == PairEnd(members, pos) + 1 + |members.lead|;
  }

  /** jtok_find_token_val_nth_array on a member that is an object of leaves. */
  lemma {:induction false} FieldOfMember(toks: seq<Token>, buf: string, m: string, v: Value, pos: nat, tok: nat,
                                         key: int)
    requires v.Obj? && LeafMembers(v.members) && TokensAt(toks, tok, Tokens(v, pos, tok, key))
    requires Has(buf, pos, Print(v))
    ensures var r := FirstPair(v.members, m);
      && toks[tok].size == 2 * Pairs(v.members) && tok + toks[tok].size < |toks|
      && FindPair(toks, buf, m, tok + 1, tok + toks[tok].size) == if r == -1 then -1 else tok + 2 * r + 2
  {
    hide Tokens, MemberTokens, Print, PrintMembers, Has, FindPair, FirstPair, TokensAt, LeafMembers, Spelled, Pairs;
    var p := pos + 1 + |v.lead|;
    InnerMemberTokens(toks, tok, v, pos, key);
    InnerMembersPrinted(buf, v, pos);
    FindPairInMembers(toks, buf, m, v.members, p, tok + 1);
  }

  lemma {:induction false} InnerMembersPrinted(buf: string, v: Value, pos: nat)
    requires v.Obj? && Has(buf, pos, Print(v))
    ensures Has(buf, pos + 1 + |v.lead|, PrintMembers(v.members))
  {
    HasParts(buf, pos, "{" + v.lead + PrintMembers(v.members), "}");
    HasParts(buf, pos, "{" + v.lead, PrintMembers(v.members));
  }

  lemma {:induction false} InnerMemberTokens(toks: seq<Token>, tok: nat, v: Value, pos: nat, key: int)
    requires v.Obj? && TokensAt(toks, tok, Tokens(v, pos, tok, key))
    ensures TokensAt(toks, tok + 1, MemberTokens(v.members, pos + 1 + |v.lead|, tok + 1))
    ensures toks[tok].size == 2 * Pairs(v.members) && tok + 2 * Pairs(v.members) < |toks|
  {
    MembersCount(v.members);
    var ts, inner := Tokens(v, pos, tok, key), MemberTokens(v.members, pos + 1 + |v.lead|, tok + 1);
    forall k | 0 <= k < |inner| ensures toks[tok + 1 + k] == inner[k] {
      assert ts[1 + k] == inner[k];
    }
    assert toks[tok] == toks[tok + 0] == ts[0];
  }

  lemma {:induction false} ItemParts(buf: string, items: Items, pos: nat)
    requires items.Item? && Has(buf, pos, PrintItems(items))
    ensures Has(buf, pos, Print(items.v))
    ensures items.rest.Item? ==>
      Has(buf, pos + |Print(items.v)| + |items.trail| + 1 + |items.lead|, PrintItems(items.rest))
  {
    hide Print, Has;
    var head := Print(items.v) + items.trail;
    var more := if items.rest.NoItems? then "" else "," + items.lead + PrintItems(items.rest);
    assert PrintItems(items) == head + more;
    HasParts(buf, pos, head, more);
    HasParts(buf, pos, Print(items.v), items.trail);
    if items.rest.Item? {
      HasParts(buf, pos + |head|, "," + items.lead, PrintItems(items.rest));
    }
  }

  lemma {:induction false} ItemPrinted(buf: string, items: Items, pos: nat, k: nat)
    requires k < Length(items) && Has(buf, pos, PrintItems(items))
    ensures Has(buf, ItemPos(items, pos, k), Print(ItemAt(items, k)))
    decreases items
  {
    hide Print, PrintItems, Has;
    ItemParts(buf, items, pos);
    if k > 0 {
      ItemPrinted(buf, items.rest, pos + |Print(items.v)| + |items.trail| + 1 + |items.lead|, k - 1);
    }
  }

  /**
   jtok_find_token_val_nth_array end to end: in a named array of flat members, printed in the
   buffer, asking for field `m` of member k finds the value of that member's first pair with key
   `m`, or nothing.
   */
  lemma {:induction false} FieldOfNthMember(toks: seq<Token>, buf: string, am: string, m: string, n: nat, tok: nat,
                                            v: Value, pos: nat, k: nat)
    requires n <= |toks| && SizesKnown(toks) && NamedArray(toks, buf, am, n, tok, v, pos)
    requires Has(buf, pos, Print(v)) && k < Length(v.items) && FlatBefore(v.items, k)
    requires ItemAt(v.items, k).Obj? && LeafMembers(ItemAt(v.items, k).members)
    ensures var t, r := NthMember(toks, buf, k, am, n), FirstPair(ItemAt(v.items, k).members, m);
      && 0 <= t < |toks| && 0 <= t + toks[t].size < |toks|
      && FindPair(toks, buf, m, t + 1, t + toks[t].size) == if r == -1 then -1 else t + 2 * r + 2
  {
    hide Tokens, Print, PrintItems, NthMember, FindPair, FirstPair, Offset, LeafMembers, FlatBefore, ItemPos,
      Has, TokensAt, Length;
    NthMemberIsItem(toks, buf, am, n, tok, v, pos, k);
    ItemToken(toks, tok, v, pos, tok - 1, k);
    var p, o := pos + 1 + |v.lead|, tok + 1 + Offset(v.items, k);
    ItemPrintedInArray(buf, v, pos, k);
    FieldOfMember(toks, buf, m, ItemAt(v.items, k), ItemPos(v.items, p, k), o, -1);
  }

  lemma {:induction false} ItemPrintedInArray(buf: string, v: Value, pos: nat, k: nat)
    requires v.Arr? && Has(buf, pos, Print(v)) && k < Length(v.items)
    ensures Has(buf, ItemPos(v.items, pos + 1 + |v.lead|, k), Print(ItemAt(v.items, k)))
  {
    var p := pos + 1 + |v.lead|;
    assert Print(v) == "[" + v.lead + PrintItems(v.items) + "]";
    HasParts(buf, pos, "[" + v.lead + PrintItems(v.items), "]");
    HasParts(buf, pos, "[" + v.lead, PrintItems(v.items));
    ItemPrinted(buf, v.items, p, k);
  }
}
