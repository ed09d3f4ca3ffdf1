/** What the search for the value of a key finds in the tokens of a printed JSON value. */
module JsonKeys {
  import opened JsonLex
  import opened JsonRun
  import opened JsonPrinter
  import opened JsonRoundTrip
  import opened JsonLookup
  import opened JsonMembers
  import opened JsonArrays
  import opened JsonFields

  /** A value of any kind behind the first string spelled `m`, and linked to it, is the answer. */
  lemma {:induction false} ValueBehindKey(toks: seq<Token>, buf: string, m: string, n: nat, tok: nat, v: Value,
                                          pos: nat)
    requires tok > 0 && tok + Count(v) <= n <= |toks| && TokensAt(toks, tok, Tokens(v, pos, tok, tok - 1))
    requires FindToken(toks, buf, m, 0, n) == tok - 1
    ensures TokenVal(toks, buf, m, n) == tok
  {
    FirstToken(v, pos, tok, tok - 1);
    assert toks[tok] == toks[tok + 0] == Tokens(v, pos, tok, tok - 1)[0];
  }

  /** Any answer is the first token behind the first string spelled `m` that is linked to it; there may be none. */
  lemma ValueOrNothing(toks: seq<Token>, buf: string, m: string, n: nat, f: nat)
    requires f < n <= |toks| && Spelled(toks[f], buf, m) && forall k :: 0 <= k < f ==> !Spelled(toks[k], buf, m)
    ensures var r := TokenVal(toks, buf, m, n);
      && (r == -1 <==> forall k :: f < k < n ==> toks[k].valueof != f)
      && (r != -1 ==> f < r < n && toks[r].valueof == f && forall k :: f < k < r ==> toks[k].valueof != f)
  {
    hide Spelled;
    var g := FindToken(toks, buf, m, 0, n);
    assert g == f;
  }

  lemma NothingSpelled(toks: seq<Token>, buf: string, m: string, n: nat)
    requires n <= |toks| && forall k :: 0 <= k < n ==> !Spelled(toks[k], buf, m)
    ensures TokenVal(toks, buf, m, n) == -1
  {
    hide Spelled;
  }

  // ----- strings and keys of a value

  /** Some string or key inside is `m`. */
  predicate Mentions(v: Value, m: string) {
    match v
    case Plain(_) => false
    case Quoted(body) => body == m
    case Arr(_, items) => MentionedIn(items, m)
    case Obj(_, members) => MentionedBy(members, m)
  }

  predicate MentionedIn(items: Items, m: string) {
    items.Item? && (Mentions(items.v, m) || MentionedIn(items.rest, m))
  }

  predicate MentionedBy(members: Members, m: string) {
    members.Member? && (members.key == m || Mentions(members.v, m) || MentionedBy(members.rest, m))
  }

  lemma {:induction false} NotSpelled(buf: string, m: string, v: Value, pos: nat, idx: nat, key: int, j: nat)
    requires Has(buf, pos, Print(v)) && !Mentions(v, m) && j < Count(v)
    ensures !Spelled(Tokens(v, pos, idx, key)[j], buf, m)
    decreases v
  {
    match v {
      case Plain(_) =>
      case Quoted(body) =>
        hide Tokens, Print, Has, Spelled;
        QuotedSpelled(buf, m, v, pos, idx, key);
      case Arr(lead, items) =>
        if j > 0 {
          hide Print, Has;
          assert Tokens(v, pos, idx, key)[j] == ItemTokens(items, pos + 1 + |lead|, idx + 1)[j - 1];
          ArrayPrinted(buf, v, pos);
          NotSpelledIn(buf, m, items, pos + 1 + |lead|, idx + 1, j - 1);
        }
      case Obj(lead, members) =>
        if j > 0 {
          hide Print, Has;
          assert Tokens(v, pos, idx, key)[j] == MemberTokens(members, pos + 1 + |lead|, idx + 1)[j - 1];
          InnerMembersPrinted(buf, v, pos);
          NotSpelledBy(buf, m, members, pos + 1 + |lead|, idx + 1, j - 1);
        }
    }
  }

  lemma QuotedSpelled(buf: string, m: string, v: Value, pos: nat, idx: nat, key: int)
    requires v.Quoted? && Has(buf, pos, Print(v))
    ensures Tokens(v, pos, idx, key) == [Token(String, pos + 1, pos + 1 + |v.body|, 0, key)]
    ensures Spelled(Tokens(v, pos, idx, key)[0], buf, m) <==> v.body == m
  {
    assert Print(v) == "\"" + (v.body + "\"");
    HasParts(buf, pos, "\"", v.body + "\"");
    HasParts(buf, pos + 1, v.body, "\"");
  }

  lemma ArrayPrinted(buf: string, v: Value, pos: nat)
    requires v.Arr? && Has(buf, pos, Print(v))
    ensures Has(buf, pos + 1 + |v.lead|, PrintItems(v.items))
  {
    HasParts(buf, pos, "[" + v.lead + PrintItems(v.items), "]");
    HasParts(buf, pos, "[" + v.lead, PrintItems(v.items));
  }

  lemma {:induction false} NotSpelledIn(buf: string, m: string, items: Items, pos: nat, idx: nat, j: nat)
    requires Has(buf, pos, PrintItems(items)) && !MentionedIn(items, m) && j < CountItems(items)
    ensures !Spelled(ItemTokens(items, pos, idx)[j], buf, m)
    decreases items
  {
    var c := Count(items.v);
    ItemTokenOf(items, pos, idx, j);
    ItemParts(buf, items, pos);
    hide Tokens, ItemTokens, Print, PrintItems, Has, Spelled;
    if j < c {
      NotSpelled(buf, m, items.v, pos, idx, -1, j);
    } else {
      NotSpelledIn(buf, m, items.rest, ItemNext(items, pos), idx + c, j - c);
    }
  }

  lemma {:induction false} NotSpelledBy(buf: string, m: string, members: Members, pos: nat, idx: nat, j: nat)
    requires Has(buf, pos, PrintMembers(members)) && !MentionedBy(members, m) && j < CountMembers(members)
    ensures !Spelled(MemberTokens(members, pos, idx)[j], buf, m)
    decreases members
  {
    var d := 1 + Count(members.v);
    MemberTokenOf(members, pos, idx, d, j);
    MemberPrinted(buf, members, pos);
    if j == 0 {
      KeySpelled(buf, m, members, pos, idx);
    }
    hide Tokens, MemberTokens, Print, PrintMembers, Has, Spelled, ValuePos, Mentions, Count, CountMembers, MemberNext;
    if 0 < j < d {
      NotSpelled(buf, m, members.v, ValuePos(members, pos), idx + 1, idx, j - 1);
    } else if j >= d {
      NotSpelledBy(buf, m, members.rest, MemberNext(members, pos), idx + d, j - d);
    }
  }

  lemma KeySpelled(buf: string, m: string, members: Members, pos: nat, idx: nat)
    requires members.Member? && Has(buf, pos, PrintMembers(members))
    ensures var t := MemberTokens(members, pos, idx)[0];
      t == Token(String, pos + 1, pos + 1 + |members.key|, 0, -1) && (Spelled(t, buf, m) <==> members.key == m)
  {
    hide Print, Tokens;
    var k := members.key;
    var tail := PrintMembers(members)[|PrintKey(members)|..];
    assert PrintMembers(members) == "\"" + (k + ("\"" + tail));
    HasParts(buf, pos, "\"", k + ("\"" + tail));
    HasParts(buf, pos + 1, k, "\"" + tail);
  }

  lemma Regrouped(a: string, b: string, c: string, d: string)
    ensures a + b + c + d == a + (b + (c + d))
  {
  }

  /** Where the value of the first pair, and the pairs behind it, are printed. */
  lemma MemberPrinted(buf: string, members: Members, pos: nat)
    requires members.Member? && Has(buf, pos, PrintMembers(members))
    ensures Has(buf, ValuePos(members, pos), Print(members.v))
    ensures members.rest.Member? ==> Has(buf, MemberNext(members, pos), PrintMembers(members.rest))
    ensures members.rest.NoMembers? ==> CountMembers(members.rest) == 0
  {
    hide Print, Has, PrintKey;
    var head := PrintKey(members) + members.beforeColon + ":" + members.afterColon;
    var more := if members.rest.NoMembers? then "" else "," + members.lead + PrintMembers(members.rest);
    Regrouped(head, Print(members.v), members.trail, more);
    HasParts(buf, pos, head, Print(members.v) + (members.trail + more));
    HasParts(buf, pos + |head|, Print(members.v), members.trail + more);
    if members.rest.Member? {
      RestPrinted(buf, members, pos);
    }
  }

  // ----- links

  /** Token `j` is linked to nothing, or to the token before it, which is itself linked to nothing. */
  predicate LinkedAt(ts: seq<Token>, idx: nat, j: nat)
    requires j < |ts|
  {
    ts[j].valueof == -1 || (j > 0 && ts[j].valueof == idx + j - 1 && ts[j - 1].valueof == -1)
  }

  /** Links inside a value lead from the first token of a member's value to the key before it. */
  lemma {:induction false} LinkedToKey(v: Value, pos: nat, idx: nat, key: int, j: nat)
    requires 0 < j < Count(v)
    ensures LinkedAt(Tokens(v, pos, idx, key), idx, j)
    decreases v
  {
    InnerParts(v, pos, idx, key);
    hide Tokens, ItemTokens, MemberTokens, Count, CountItems, CountMembers, TokensAt, LinkedAt, Print;
    match v {
      case Arr(lead, items) =>
        LinkedInItems(items, pos + 1 + |lead|, idx + 1, j - 1);
        LinkedShift(Tokens(v, pos, idx, key), 1, ItemTokens(items, pos + 1 + |lead|, idx + 1), idx, j - 1, j);
      case Obj(lead, members) =>
        LinkedInMembers(members, pos + 1 + |lead|, idx + 1, j - 1);
        LinkedShift(Tokens(v, pos, idx, key), 1, MemberTokens(members, pos + 1 + |lead|, idx + 1), idx, j - 1, j);
      case _ =>
    }
  }

  lemma LinkedShift(toks: seq<Token>, i: nat, ts: seq<Token>, idx: nat, j: nat, n: nat)
    requires TokensAt(toks, i, ts) && j < |ts| && LinkedAt(ts, idx + i, j) && n == i + j
    ensures n < |toks| && LinkedAt(toks, idx, n)
  {
    assert toks[i + j] == ts[j];
    assert j > 0 ==> toks[i + (j - 1)] == ts[j - 1];
  }

  lemma {:induction false} LinkedInItems(items: Items, pos: nat, idx: nat, j: nat)
    requires j < CountItems(items)
    ensures LinkedAt(ItemTokens(items, pos, idx), idx, j)
    decreases items
  {
    var c := Count(items.v);
    ItemTokenOf(items, pos, idx, j);
    FirstToken(items.v, pos, idx, -1);
    if j > 0 {
      ItemTokenOf(items, pos, idx, j - 1);
    }
    hide Tokens, ItemTokens, Count, CountItems;
    if 0 < j < c {
      LinkedToKey(items.v, pos, idx, -1, j);
    } else if j >= c {
      LinkedInItems(items.rest, ItemNext(items, pos), idx + c, j - c);
    }
  }

  lemma {:induction false} LinkedInMembers(members: Members, pos: nat, idx: nat, j: nat)
    requires j < CountMembers(members)
    ensures LinkedAt(MemberTokens(members, pos, idx), idx, j)
    decreases members
  {
    var d, q := 1 + Count(members.v), ValuePos(members, pos);
    MemberTokenOf(members, pos, idx, d, j);
    FirstToken(members.v, q, idx + 1, idx);
    KeyUnlinked(members, pos, idx);
    if j > 0 {
      MemberTokenOf(members, pos, idx, d, j - 1);
    }
    hide Tokens, MemberTokens, Count, CountMembers, ValuePos;
    if 1 < j < d {
      LinkedToKey(members.v, q, idx + 1, idx, j - 1);
    } else if j >= d {
      LinkedInMembers(members.rest, MemberNext(members, pos), idx + d, j - d);
    }
  }

  lemma KeyUnlinked(members: Members, pos: nat, idx: nat)
    requires members.Member?
    ensures MemberTokens(members, pos, idx)[0].valueof == -1
  {
    hide Tokens, Print;
  }

  // ----- the members of an object

  function KeyAt(members: Members, k: nat): string
    requires k < Pairs(members)
  {
    if k == 0 then members.key else KeyAt(members.rest, k - 1)
  }

  function ValueAt(members: Members, k: nat): Value
    requires k < Pairs(members)
  {
    if k == 0 then members.v else ValueAt(members.rest, k - 1)
  }

  /** How many tokens the first `k` members have. */
  function TokensBefore(members: Members, k: nat): nat
    requires k <= Pairs(members)
  {
    if k == 0 then 0 else 1 + Count(members.v) + TokensBefore(members.rest, k - 1)
  }

  /** Where the value of member `k` is printed. */
  function ValuePosAt(members: Members, pos: nat, k: nat): nat
    requires k < Pairs(members)
  {
    if k == 0 then ValuePos(members, pos) else ValuePosAt(members.rest, MemberNext(members, pos), k - 1)
  }

  /** The first `k` members have no key and no string that is `m`. */
  predicate Unmentioned(members: Members, m: string, k: nat)
    requires k <= Pairs(members)
  {
    k == 0 || (members.key != m && !Mentions(members.v, m) && Unmentioned(members.rest, m, k - 1))
  }

  lemma AtFirst(members: Members, pos: nat)
    requires members.Member?
    ensures KeyAt(members, 0) == members.key && ValueAt(members, 0) == members.v
    ensures TokensBefore(members, 0) == 0 && ValuePosAt(members, pos, 0) == ValuePos(members, pos)
  {
  }

  lemma AtLater(members: Members, pos: nat, m: string, k: nat)
    requires 0 < k < Pairs(members) && Unmentioned(members, m, k)
    ensures var rest := members.rest;
      && rest.Member? && k - 1 < Pairs(rest) && Unmentioned(rest, m, k - 1)
      && members.key != m && !Mentions(members.v, m)
      && KeyAt(members, k) == KeyAt(rest, k - 1) && ValueAt(members, k) == ValueAt(rest, k - 1)
      && TokensBefore(members, k) == 1 + Count(members.v) + TokensBefore(rest, k - 1)
      && ValuePosAt(members, pos, k) == ValuePosAt(rest, MemberNext(members, pos), k - 1)
  {
    hide Mentions, Count, MemberNext;
  }

  /** At token `o` stands a key, which is spelled `m` or not, and behind it the value `w`, printed at `p`. */
  predicate PairAt(ts: seq<Token>, idx: nat, o: nat, w: Value, p: nat, buf: string, m: string, named: bool) {
    && o + 1 + Count(w) <= |ts| && TokensAt(ts, o + 1, Tokens(w, p, idx + o + 1, idx + o))
    && (Spelled(ts[o], buf, m) <==> named) && ts[o].valueof == -1
  }

  /** No token before `o` is spelled `m`. */
  predicate Quiet(ts: seq<Token>, buf: string, m: string, o: nat) {
    o <= |ts| && forall j :: 0 <= j < o ==> !Spelled(ts[j], buf, m)
  }

  lemma PairShift(toks: seq<Token>, i: nat, ts: seq<Token>, idx: nat, o: nat, w: Value, p: nat, buf: string, m: string,
                  named: bool)
    requires TokensAt(toks, i, ts) && PairAt(ts, idx + i, o, w, p, buf, m, named)
    ensures PairAt(toks, idx, i + o, w, p, buf, m, named)
  {
    hide Tokens, Spelled, Count;
    TokensAtTrans(toks, i, ts, o + 1, Tokens(w, p, idx + i + o + 1, idx + i + o));
    AtShift(toks, i, ts);
    assert toks[i + o] == ts[o];
  }

  lemma QuietShift(toks: seq<Token>, i: nat, ts: seq<Token>, o: nat, buf: string, m: string)
    requires Quiet(toks, buf, m, i) && TokensAt(toks, i, ts) && Quiet(ts, buf, m, o)
    ensures Quiet(toks, buf, m, i + o)
  {
    hide Spelled;
    AtShift(toks, i, ts);
    forall j | i <= j < i + o ensures !Spelled(toks[j], buf, m) {
      assert toks[j] == toks[i + (j - i)] == ts[j - i];
    }
  }

  lemma MemberShift(toks: seq<Token>, i: nat, ts: seq<Token>, idx: nat, o: nat, w: Value, p: nat, buf: string,
                    m: string, named: bool)
    requires TokensAt(toks, i, ts) && Quiet(toks, buf, m, i)
    requires Quiet(ts, buf, m, o) && PairAt(ts, idx + i, o, w, p, buf, m, named)
    ensures Quiet(toks, buf, m, i + o) && PairAt(toks, idx, i + o, w, p, buf, m, named)
  {
    hide TokensAt, PairAt, Quiet;
    QuietShift(toks, i, ts, o, buf, m);
    PairShift(toks, i, ts, idx, o, w, p, buf, m, named);
  }

  /** The tokens of member `k`, if none of those before is spelled `m`. */
  lemma {:induction false} MemberAt(buf: string, m: string, members: Members, pos: nat, idx: nat, k: nat)
    requires Has(buf, pos, PrintMembers(members)) && k < Pairs(members) && Unmentioned(members, m, k)
    ensures var ts, o, v := MemberTokens(members, pos, idx), TokensBefore(members, k), ValueAt(members, k);
      && Quiet(ts, buf, m, o)
      && PairAt(ts, idx, o, v, ValuePosAt(members, pos, k), buf, m, KeyAt(members, k) == m)
      && Has(buf, ValuePosAt(members, pos, k), Print(v))
    decreases k
  {
    hide Tokens, MemberTokens, Print, PrintMembers, Has, ValuePos, MemberNext, TokensAt, PairAt, Mentions, Count,
      CountMembers, Spelled;
    MemberPrinted(buf, members, pos);
    if k == 0 {
      AtFirst(members, pos);
      FirstPairThere(buf, m, members, pos, idx);
    } else {
      AtLater(members, pos, m, k);
      hide KeyAt, ValueAt, TokensBefore, ValuePosAt, Unmentioned, Quiet, Pairs;
      var d, q := 1 + Count(members.v), MemberNext(members, pos);
      var ts, us := MemberTokens(members, pos, idx), MemberTokens(members.rest, q, idx + d);
      RestThere(members, pos, idx, d);
      FirstPairQuiet(buf, m, members, pos, idx);
      MemberAt(buf, m, members.rest, q, idx + d, k - 1);
      var o := TokensBefore(members.rest, k - 1);
      MemberShift(ts, d, us, idx, o, ValueAt(members, k), ValuePosAt(members, pos, k), buf, m, KeyAt(members, k) == m);
    }
  }

  /** The key and the value of the first member. */
  lemma FirstPairThere(buf: string, m: string, members: Members, pos: nat, idx: nat)
    requires members.Member? && Has(buf, pos, PrintMembers(members))
    ensures var ts := MemberTokens(members, pos, idx);
      PairAt(ts, idx, 0, members.v, ValuePos(members, pos), buf, m, members.key == m)
  {
    MemberTokensParts(members, pos, idx, 1 + Count(members.v));
    KeySpelled(buf, m, members, pos, idx);
    hide Tokens, MemberTokens, Print, PrintMembers, Has, Spelled, ValuePos, TokensAt, Count, CountMembers;
  }

  lemma FirstPairQuiet(buf: string, m: string, members: Members, pos: nat, idx: nat)
    requires members.Member? && Has(buf, pos, PrintMembers(members)) && members.key != m && !Mentions(members.v, m)
    ensures Quiet(MemberTokens(members, pos, idx), buf, m, 1 + Count(members.v))
  {
    var ts, p := MemberTokens(members, pos, idx), ValuePos(members, pos);
    MemberTokensParts(members, pos, idx, 1 + Count(members.v));
    KeySpelled(buf, m, members, pos, idx);
    MemberPrinted(buf, members, pos);
    hide Tokens, MemberTokens, Print, PrintMembers, Has, Spelled, ValuePos, TokensAt, Mentions, Count, CountMembers;
    assert Quiet(ts, buf, m, 1);
    hide Quiet;
    ValueQuiet(buf, m, members.v, p, idx + 1, idx);
    QuietShift(ts, 1, Tokens(members.v, p, idx + 1, idx), Count(members.v), buf, m);
  }

  lemma RestThere(members: Members, pos: nat, idx: nat, d: nat)
    requires members.Member? && d == 1 + Count(members.v)
    ensures TokensAt(MemberTokens(members, pos, idx), d, MemberTokens(members.rest, MemberNext(members, pos), idx + d))
  {
    MemberTokensParts(members, pos, idx, d);
    hide Tokens, MemberTokens, Print, ValuePos, TokensAt, Count, CountMembers;
  }

  lemma AtShift(toks: seq<Token>, i: nat, ts: seq<Token>)
    requires TokensAt(toks, i, ts)
    ensures i + |ts| <= |toks| && forall k :: 0 <= k < |ts| ==> toks[i + k] == ts[k]
  {
  }

  lemma ValueQuiet(buf: string, m: string, v: Value, pos: nat, idx: nat, key: int)
    requires Has(buf, pos, Print(v)) && !Mentions(v, m)
    ensures Quiet(Tokens(v, pos, idx, key), buf, m, Count(v))
  {
    hide Tokens, Print, Has, Spelled, Mentions, Count;
    forall j | 0 <= j < Count(v) ensures !Spelled(Tokens(v, pos, idx, key)[j], buf, m) {
      NotSpelled(buf, m, v, pos, idx, key, j);
    }
  }

  /** The same for the object at token `tok`. */
  lemma {:induction false} ObjectMember(toks: seq<Token>, buf: string, m: string, v: Value, pos: nat, tok: nat,
                                        key: int, k: nat)
    requires v.Obj? && TokensAt(toks, tok, Tokens(v, pos, tok, key)) && Has(buf, pos, Print(v))
    requires k < Pairs(v.members) && Unmentioned(v.members, m, k) && Quiet(toks, buf, m, tok)
    ensures var o, w := tok + 1 + TokensBefore(v.members, k), ValueAt(v.members, k);
      var p := ValuePosAt(v.members, pos + 1 + |v.lead|, k);
      && o + 1 + Count(w) <= tok + Count(v)
      && Quiet(toks, buf, m, o) && PairAt(toks, 0, o, w, p, buf, m, KeyAt(v.members, k) == m) && Has(buf, p, Print(w))
  {
    var p, ts := pos + 1 + |v.lead|, MemberTokens(v.members, pos + 1 + |v.lead|, tok + 1);
    ObjectToken(toks, tok, v, pos, key, buf, m);
    InnerMembersPrinted(buf, v, pos);
    MemberAt(buf, m, v.members, p, tok + 1, k);
    PairWithin(ts, tok + 1, TokensBefore(v.members, k), ValueAt(v.members, k), ValuePosAt(v.members, p, k), buf, m,
               KeyAt(v.members, k) == m);
    hide Tokens, MemberTokens, Print, PrintMembers, Has, TokensAt, Mentions, Unmentioned, ValuePosAt, PairAt, Quiet;
    var o := TokensBefore(v.members, k);
    MemberShift(toks, tok + 1, ts, 0, o, ValueAt(v.members, k), ValuePosAt(v.members, p, k), buf, m,
                KeyAt(v.members, k) == m);
  }

  lemma PairWithin(ts: seq<Token>, idx: nat, o: nat, w: Value, p: nat, buf: string, m: string, named: bool)
    requires PairAt(ts, idx, o, w, p, buf, m, named)
    ensures o + 1 + Count(w) <= |ts|
  {
  }

  lemma ObjectToken(toks: seq<Token>, tok: nat, v: Value, pos: nat, key: int, buf: string, m: string)
    requires v.Obj? && TokensAt(toks, tok, Tokens(v, pos, tok, key)) && Quiet(toks, buf, m, tok)
    ensures tok + Count(v) <= |toks| && Count(v) == 1 + CountMembers(v.members)
    ensures TokensAt(toks, tok + 1, MemberTokens(v.members, pos + 1 + |v.lead|, tok + 1))
    ensures Quiet(toks, buf, m, tok + 1)
  {
    InnerMemberTokens(toks, tok, v, pos, key);
    assert toks[tok] == toks[tok + 0] == Tokens(v, pos, tok, key)[0];
  }

  /**
   In a printed object, wherever it stands among the tokens: the answer for a key that no string or key
   before it is spelled like is the first token of that member's value.
   */
  lemma MemberFound(toks: seq<Token>, buf: string, m: string, n: nat, v: Value, pos: nat, tok: nat, key: int, k: nat)
    requires v.Obj? && tok + Count(v) <= n <= |toks| && TokensAt(toks, tok, Tokens(v, pos, tok, key))
    requires Has(buf, pos, Print(v)) && forall j :: 0 <= j < tok ==> !Spelled(toks[j], buf, m)
    requires k < Pairs(v.members) && Unmentioned(v.members, m, k) && KeyAt(v.members, k) == m
    ensures var r, w := TokenVal(toks, buf, m, n), ValueAt(v.members, k);
      && r == tok + 2 + TokensBefore(v.members, k)
      && TokensAt(toks, r, Tokens(w, ValuePosAt(v.members, pos + 1 + |v.lead|, k), r, r - 1))
  {
    hide Tokens, Print, Has, Spelled, TokensAt, Unmentioned, TokenVal, ValuePosAt, FindToken;
    ObjectMember(toks, buf, m, v, pos, tok, key, k);
    var o, w := tok + 1 + TokensBefore(v.members, k), ValueAt(v.members, k);
    FirstIs(toks, buf, m, n, o);
    ValueBehindKey(toks, buf, m, n, o + 1, w, ValuePosAt(v.members, pos + 1 + |v.lead|, k));
  }

  lemma FirstIs(toks: seq<Token>, buf: string, m: string, n: nat, f: nat)
    requires f < n <= |toks| && Spelled(toks[f], buf, m) && forall k :: 0 <= k < f ==> !Spelled(toks[k], buf, m)
    ensures FindToken(toks, buf, m, 0, n) == f
  {
    hide Spelled;
  }

  /**
   A string value that is spelled like a later key hides it: in the tokens of a whole object the search
   for that key finds nothing.
   */
  lemma KeyHidden(toks: seq<Token>, buf: string, m: string, v: Value, pos: nat, k: nat)
    requires v.Obj? && toks == Tokens(v, pos, 0, -1) && Has(buf, pos, Print(v))
    requires k < Pairs(v.members) && Unmentioned(v.members, m, k)
    requires KeyAt(v.members, k) != m && ValueAt(v.members, k) == Quoted(m)
    ensures TokenVal(toks, buf, m, |toks|) == -1
  {
    WholeAt(toks);
    hide Tokens, Print, Has, Spelled, TokensAt, Unmentioned, TokenVal, ValuePosAt, LinkedAt;
    ObjectMember(toks, buf, m, v, pos, 0, -1, k);
    var f, p := 2 + TokensBefore(v.members, k), ValuePosAt(v.members, pos + 1 + |v.lead|, k);
    QuotedSpelled(buf, m, ValueAt(v.members, k), p, f, f - 1);
    AtShift(toks, f, Tokens(ValueAt(v.members, k), p, f, f - 1));
    assert toks[f] == toks[f + 0];
    forall j | f < j < |toks| ensures toks[j].valueof != f {
      LinkedToKey(v, pos, 0, -1, j);
      NotLinkedToValue(toks, f, j);
    }
    ValueOrNothing(toks, buf, m, |toks|, f);
  }

  lemma NotLinkedToValue(toks: seq<Token>, f: nat, j: nat)
    requires f < j < |toks| && LinkedAt(toks, 0, j) && toks[f].valueof != -1
    ensures toks[j].valueof != f
  {
  }

  lemma WholeAt(toks: seq<Token>)
    ensures TokensAt(toks, 0, toks)
  {
  }

  lemma PrintedThere(lead: string, t: string, trail: string)
    ensures Has(lead + t + trail, |lead|, t)
  {
    assert (lead + t + trail)[|lead|..|lead| + |t|] == t;
  }

  /** Parsing and looking up: the value of a key in a printed object is found in the tokens of its text. */
  lemma ParsedMemberFound(lead: string, v: Value, trail: string, cap: nat, k: nat)
    requires v.Obj? && Legal(v) && Blanks(lead) && Blanks(trail) && cap >= Count(v)
    requires k < Pairs(v.members) && Unmentioned(v.members, KeyAt(v.members, k), k)
    ensures var js := lead + Print(v) + trail;
      var r := Run(js, |js|, Init, cap);
      var tok, w := 2 + TokensBefore(v.members, k), ValueAt(v.members, k);
      && r.Complete? && |r.st.toks| == Count(v)
      && TokenVal(r.st.toks, js, KeyAt(v.members, k), Count(v)) == tok
      && TokensAt(r.st.toks, tok, Tokens(w, ValuePosAt(v.members, |lead| + 1 + |v.lead|, k), tok, tok - 1))
  {
    hide Tokens, Print, Has, Spelled, TokensAt, Unmentioned, TokenVal, ValuePosAt, Run, Legal, KeyAt, ValueAt,
      TokensBefore, Count;
    var js, toks := lead + Print(v) + trail, Tokens(v, |lead|, 0, -1);
    ParseUndoesPrint(lead, v, trail, cap);
    PrintedThere(lead, Print(v), trail);
    WholeAt(toks);
    MemberFound(toks, js, KeyAt(v.members, k), Count(v), v, |lead|, 0, -1, k);
  }
}
