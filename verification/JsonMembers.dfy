/** What the search for a member of an array finds in the tokens of a JSON value, and when that is right. */
module JsonMembers {
  import opened JsonLex
  import opened JsonRun
  import opened JsonPrinter
  import opened JsonRoundTrip
  import opened JsonLookup

  function ItemAt(items: Items, k: nat): Value
    requires k < Length(items)
  {
    if k == 0 then items.v else ItemAt(items.rest, k - 1)
  }

  /** Where item `k` is printed. */
  function ItemPos(items: Items, pos: nat, k: nat): nat
    requires k < Length(items)
  {
    if k == 0 then pos
    else ItemPos(items.rest, pos + |Print(items.v)| + |items.trail| + 1 + |items.lead|, k - 1)
  }

  /** How many tokens the first `k` items have. */
  function Offset(items: Items, k: nat): (r: nat)
    requires k <= Length(items)
    ensures r >= k
  {
    if k == 0 then 0 else Count(items.v) + Offset(items.rest, k - 1)
  }

  /** The size the tokenizer records. */
  function SizeOf(v: Value): nat {
    match v
    case Arr(_, items) => Length(items)
    case Obj(_, members) => 2 * Pairs(members)
    case _ => 0
  }

  /** A scalar or an empty container: one token. */
  predicate Leaf(v: Value) {
    v.Plain? || v.Quoted? || (v.Arr? && v.items.NoItems?) || (v.Obj? && v.members.NoMembers?)
  }

  predicate LeafItems(items: Items) {
    items.NoItems? || (Leaf(items.v) && LeafItems(items.rest))
  }

  predicate LeafMembers(members: Members) {
    members.NoMembers? || (Leaf(members.v) && LeafMembers(members.rest))
  }

  /** Nothing is nested in a container inside `v`. */
  predicate Flat(v: Value) {
    match v
    case Arr(_, items) => LeafItems(items)
    case Obj(_, members) => LeafMembers(members)
    case _ => true
  }

  predicate FlatBefore(items: Items, k: nat)
    requires k <= Length(items)
  {
    k == 0 || (Flat(items.v) && FlatBefore(items.rest, k - 1))
  }

  lemma {:induction false} LeafCount(v: Value)
    ensures Count(v) == 1 <==> Leaf(v)
  {
  }

  lemma {:induction false} ItemsCount(items: Items)
    ensures CountItems(items) >= Length(items)
    ensures CountItems(items) == Length(items) <==> LeafItems(items)
    ensures Offset(items, Length(items)) == CountItems(items)
  {
    if items.Item? {
      ItemsCount(items.rest);
      LeafCount(items.v);
    }
  }

  lemma {:induction false} MembersCount(members: Members)
    ensures CountMembers(members) >= 2 * Pairs(members)
    ensures CountMembers(members) == 2 * Pairs(members) <==> LeafMembers(members)
  {
    if members.Member? {
      MembersCount(members.rest);
      LeafCount(members.v);
    }
  }

  /** A token and its direct children never outnumber its subtree, and match it only if it is flat. */
  lemma {:induction false} CountOfFlat(v: Value)
    ensures SizeOf(v) + 1 <= Count(v)
    ensures SizeOf(v) + 1 == Count(v) <==> Flat(v)
  {
    match v {
      case Arr(_, items) => ItemsCount(items);
      case Obj(_, members) => MembersCount(members);
      case _ =>
    }
  }

  /** The tokens from index `j` on, as far as `size` tells, stay within the value. */
  lemma {:induction false} SizeWithin(v: Value, pos: nat, idx: nat, key: int, j: nat)
    requires j < Count(v)
    ensures var t := Tokens(v, pos, idx, key)[j]; 0 <= t.size && j + t.size + 1 <= Count(v)
    decreases v
  {
    match v {
      case Plain(_) =>
      case Quoted(_) =>
      case Arr(lead, items) =>
        ItemsCount(items);
        if j > 0 {
          ItemSizeWithin(items, pos + 1 + |lead|, idx + 1, Length(items), j - 1);
        }
      case Obj(lead, members) =>
        MembersCount(members);
        if j > 0 {
          MemberSizeWithin(members, pos + 1 + |lead|, idx + 1, j - 1);
        }
    }
  }

  lemma {:induction false} ItemSizeWithin(items: Items, pos: nat, idx: nat, k: nat, j: nat)
    requires k <= Length(items) && j < Offset(items, k)
    ensures j < CountItems(items)
    ensures var t := ItemTokens(items, pos, idx)[j]; 0 <= t.size && j + t.size + 1 <= Offset(items, k)
    decreases items
  {
    var c := Count(items.v);
    if j < c {
      SizeWithin(items.v, pos, idx, -1, j);
    } else {
      ItemSizeWithin(items.rest, pos + |Print(items.v)| + |items.trail| + 1 + |items.lead|, idx + c, k - 1, j - c);
    }
  }

  lemma {:induction false} MemberSizeWithin(members: Members, pos: nat, idx: nat, j: nat)
    requires j < CountMembers(members)
    ensures var t := MemberTokens(members, pos, idx)[j]; 0 <= t.size && j + t.size + 1 <= CountMembers(members)
    decreases members
  {
    hide Print, Tokens;
    var c, p := Count(members.v), ValuePos(members, pos);
    if 1 <= j <= c {
      SizeWithin(members.v, p, idx + 1, idx, j - 1);
    } else if j > c {
      MemberSizeWithin(members.rest, p + |Print(members.v)| + |members.trail| + 1 + |members.lead|,
        idx + 1 + c, j - 1 - c);
    }
  }

  /** Tokens `ts` stand at index `i`. */
  predicate TokensAt(toks: seq<Token>, i: nat, ts: seq<Token>) {
    i + |ts| <= |toks| && forall k :: 0 <= k < |ts| ==> toks[i + k] == ts[k]
  }

  lemma {:induction false} TokensAtTrans(toks: seq<Token>, i: nat, ts: seq<Token>, j: nat, us: seq<Token>)
    requires TokensAt(toks, i, ts) && TokensAt(ts, j, us)
    ensures TokensAt(toks, i + j, us)
  {
    forall k | 0 <= k < |us| ensures toks[i + j + k] == us[k] {
      assert us[k] == ts[j + k] == toks[i + (j + k)];
    }
  }

  lemma {:induction false} ItemTokensParts(items: Items, pos: nat, idx: nat)
    requires items.Item?
    ensures TokensAt(ItemTokens(items, pos, idx), 0, Tokens(items.v, pos, idx, -1))
    ensures var p := pos + |Print(items.v)| + |items.trail| + 1 + |items.lead|;
      TokensAt(ItemTokens(items, pos, idx), Count(items.v), ItemTokens(items.rest, p, idx + Count(items.v)))
  {
    hide Tokens, Print;
  }

  /** The tokens of item `k` stand at `Offset(items, k)` in those of the items. */
  lemma {:induction false} ItemTokensAt(items: Items, pos: nat, idx: nat, k: nat)
    requires k < Length(items)
    ensures var o, v := Offset(items, k), ItemAt(items, k);
      && o + Count(v) == Offset(items, k + 1) <= CountItems(items)
      && TokensAt(ItemTokens(items, pos, idx), o, Tokens(v, ItemPos(items, pos, k), idx + o, -1))
    decreases items
  {
    hide Tokens, Print, ItemTokens, TokensAt;
    ItemTokensParts(items, pos, idx);
    if k > 0 {
      var c, p := Count(items.v), pos + |Print(items.v)| + |items.trail| + 1 + |items.lead|;
      ItemTokensAt(items.rest, p, idx + c, k - 1);
      var o, v := Offset(items.rest, k - 1), ItemAt(items, k);
      var ts := Tokens(v, ItemPos(items, pos, k), idx + c + o, -1);
      TokensAtTrans(ItemTokens(items, pos, idx), c, ItemTokens(items.rest, p, idx + c), o, ts);
    }
  }

  /** The token of item `k` itself, for array `v` printed at `pos`, its tokens at index `tok`. */
  lemma {:induction false} ItemToken(toks: seq<Token>, tok: nat, v: Value, pos: nat, key: int, k: nat)
    requires v.Arr? && TokensAt(toks, tok, Tokens(v, pos, tok, key)) && k < Length(v.items)
    ensures var o, w := tok + 1 + Offset(v.items, k), ItemAt(v.items, k);
      && o + Count(w) <= tok + Count(v)
      && TokensAt(toks, o, Tokens(w, ItemPos(v.items, pos + 1 + |v.lead|, k), o, -1))
  {
    hide Tokens, ItemTokens, TokensAt, ItemAt, Offset, ItemPos, Print;
    var p, w, o := pos + 1 + |v.lead|, ItemAt(v.items, k), Offset(v.items, k);
    assert Count(v) == 1 + CountItems(v.items);
    hide Count, CountItems, Length;
    ItemTokensAt(v.items, p, tok + 1, k);
    InnerTokens(toks, tok, v, pos, key);
    TokensAtTrans(toks, tok + 1, ItemTokens(v.items, p, tok + 1), o, Tokens(w, ItemPos(v.items, p, k),
      tok + 1 + o, -1));
  }

  lemma {:induction false} InnerTokens(toks: seq<Token>, tok: nat, v: Value, pos: nat, key: int)
    requires v.Arr? && TokensAt(toks, tok, Tokens(v, pos, tok, key))
    ensures TokensAt(toks, tok + 1, ItemTokens(v.items, pos + 1 + |v.lead|, tok + 1))
    ensures toks[tok] == Token(Array, pos, pos + |Print(v)|, Length(v.items), key)
  {
    var ts, inner := Tokens(v, pos, tok, key), ItemTokens(v.items, pos + 1 + |v.lead|, tok + 1);
    forall k | 0 <= k < |inner| ensures toks[tok + 1 + k] == inner[k] {
      assert ts[1 + k] == inner[k];
    }
    assert toks[tok] == toks[tok + 0] == ts[0];
  }

  lemma {:induction false} FirstToken(v: Value, pos: nat, idx: nat, key: int)
    ensures var t := Tokens(v, pos, idx, key)[0]; t.size == SizeOf(v) && t.valueof == key
  {
  }

  lemma {:induction false} ItemTokenSize(toks: seq<Token>, tok: nat, v: Value, pos: nat, key: int, k: nat)
    requires v.Arr? && TokensAt(toks, tok, Tokens(v, pos, tok, key)) && k < Length(v.items)
    ensures var o := Offset(v.items, k);
      && tok + 1 + Offset(v.items, k + 1) <= |toks|
      && Offset(v.items, k + 1) == o + Count(ItemAt(v.items, k))
      && toks[tok + 1 + o].size == SizeOf(ItemAt(v.items, k))
  {
    var p, w, o := pos + 1 + |v.lead|, ItemAt(v.items, k), Offset(v.items, k);
    assert Count(v) == 1 + CountItems(v.items);
    ItemTokensAt(v.items, p, tok + 1, k);
    ItemToken(toks, tok, v, pos, key, k);
    FirstToken(w, ItemPos(v.items, p, k), tok + 1 + o, -1);
    hide Tokens, ItemTokens;
    assert toks[tok + 1 + o] == toks[tok + 1 + o + 0] == Tokens(w, ItemPos(v.items, p, k), tok + 1 + o, -1)[0];
  }

  /** A search that stands among the first `k` items stays among them. */
  lemma {:induction false} TokenSizeWithin(toks: seq<Token>, tok: nat, v: Value, pos: nat, key: int, k: nat, j: nat)
    requires v.Arr? && TokensAt(toks, tok, Tokens(v, pos, tok, key))
    requires k <= Length(v.items) && j < Offset(v.items, k)
    ensures tok + 1 + j < |toks| && j + toks[tok + 1 + j].size + 1 <= Offset(v.items, k)
  {
    var p := pos + 1 + |v.lead|;
    ItemSizeWithin(v.items, p, tok + 1, k, j);
    InnerTokens(toks, tok, v, pos, key);
    hide Tokens, ItemTokens, TokensAt, ItemAt, Offset, ItemPos, Print;
    assert toks[tok + 1 + j] == ItemTokens(v.items, p, tok + 1)[j];
  }

  lemma {:induction false} FlatBeforeNext(items: Items, k: nat)
    requires k < Length(items)
    ensures FlatBefore(items, k + 1) == (FlatBefore(items, k) && Flat(ItemAt(items, k)))
  {
    if k > 0 {
      FlatBeforeNext(items.rest, k - 1);
    }
  }

  /** The search stands on item `k` after `k` steps exactly if the items before it are flat. */
  lemma {:induction false} HopReaches(toks: seq<Token>, tok: nat, v: Value, pos: nat, key: int, k: nat)
    requires v.Arr? && TokensAt(toks, tok, Tokens(v, pos, tok, key))
    requires SizesKnown(toks) && k <= Length(v.items)
    ensures Hop(toks, tok, k) <= Offset(v.items, k)
    ensures Hop(toks, tok, k) == Offset(v.items, k) <==> FlatBefore(v.items, k)
  {
    if k > 0 {
      HopReaches(toks, tok, v, pos, key, k - 1);
      FlatBeforeNext(v.items, k - 1);
      ItemTokenSize(toks, tok, v, pos, key, k - 1);
      CountOfFlat(ItemAt(v.items, k - 1));
      var j, o := Hop(toks, tok, k - 1), Offset(v.items, k - 1);
      if j < o {
        TokenSizeWithin(toks, tok, v, pos, key, k - 1, j);
      }
      hide Tokens, ItemTokens, TokensAt, Flat, FlatBefore, Count, Offset, ItemAt;
      assert Hop(toks, tok, k) == j + toks[tok + 1 + j].size + 1;
    }
  }

  /** The array is the value of the first string spelled `m`. */
  predicate NamedArray(toks: seq<Token>, buf: string, m: string, n: nat, tok: nat, v: Value, pos: nat)
    requires n <= |toks|
  {
    && tok > 0 && tok + Count(v) <= n && v.Arr?
    && TokensAt(toks, tok, Tokens(v, pos, tok, tok - 1))
    && FindToken(toks, buf, m, 0, n) == tok - 1
  }

  /**
   Asking for member k of an array with more than k members gives the token of that member exactly
   if no member before it has anything nested in a container.
   */
  lemma {:induction false} NthMemberIsItem(toks: seq<Token>, buf: string, m: string, n: nat, tok: nat, v: Value,
                                           pos: nat, k: nat)
    requires n <= |toks| && SizesKnown(toks) && NamedArray(toks, buf, m, n, tok, v, pos)
    requires k < Length(v.items)
    ensures NthMember(toks, buf, k, m, n) == tok + 1 + Offset(v.items, k) <==> FlatBefore(v.items, k)
  {
    hide Tokens;
    InnerTokens(toks, tok, v, pos, tok - 1);
    HopReaches(toks, tok, v, pos, tok - 1, k);
    ItemToken(toks, tok, v, pos, tok - 1, k);
  }

  /** A request is refused exactly if it is for more than one member too many. */
  lemma {:induction false} NthMemberRefused(toks: seq<Token>, buf: string, m: string, n: nat, tok: nat, v: Value,
                                            pos: nat, k: int)
    requires n <= |toks| && SizesKnown(toks) && NamedArray(toks, buf, m, n, tok, v, pos)
    ensures NthMember(toks, buf, k, m, n) == -1 <==> k > Length(v.items)
  {
    hide Tokens;
    InnerTokens(toks, tok, v, pos, tok - 1);
    if k <= Length(v.items) {
      var hops := if k < 0 then 0 else k;
      HopReaches(toks, tok, v, pos, tok - 1, hops);
      OffsetWithin(v.items, hops);
    }
  }

  lemma {:induction false} OffsetWithin(items: Items, k: nat)
    requires k <= Length(items)
    ensures Offset(items, k) <= CountItems(items)
    decreases k
  {
    if k > 0 {
      OffsetWithin(items.rest, k - 1);
    }
  }

  /** Asking for one member too many gives the index after the whole array, if all members are flat. */
  lemma {:induction false} OneMemberTooMany(toks: seq<Token>, buf: string, m: string, n: nat, tok: nat, v: Value,
                                            pos: nat)
    requires n <= |toks| && SizesKnown(toks) && NamedArray(toks, buf, m, n, tok, v, pos)
    requires Length(v.items) > 0 && FlatBefore(v.items, Length(v.items))
    ensures NthMember(toks, buf, Length(v.items), m, n) == tok + Count(v)
  {
    hide Tokens;
    InnerTokens(toks, tok, v, pos, tok - 1);
    HopReaches(toks, tok, v, pos, tok - 1, Length(v.items));
    ItemsCount(v.items);
  }

  /**
   The answer is an index behind all tokens exactly for the member behind the last one of an array of
   flat members that is the last thing parsed; jtok_find_token_val_nth_array then reads that token.
   */
  lemma {:induction false} IndexPastTokens(toks: seq<Token>, buf: string, m: string, n: nat, tok: nat, v: Value,
                                           pos: nat, k: int)
    requires n <= |toks| && SizesKnown(toks) && NamedArray(toks, buf, m, n, tok, v, pos)
    ensures NthMember(toks, buf, k, m, n) == n
      <==> (if k < 0 then 0 else k) == Length(v.items) && FlatBefore(v.items, Length(v.items)) && tok + Count(v) == n
  {
    hide Tokens, FlatBefore;
    InnerTokens(toks, tok, v, pos, tok - 1);
    var hops := if k < 0 then 0 else k;
    if hops <= Length(v.items) {
      HopReaches(toks, tok, v, pos, tok - 1, hops);
      ItemsCount(v.items);
      if hops < Length(v.items) {
        HopsFitInArray(toks, tok, v, pos, tok - 1, hops);
      }
    }
  }

  /** In the tokens of a value the search for a member never leaves the array it is in. */
  lemma {:induction false} HopsFitInArray(toks: seq<Token>, tok: nat, v: Value, pos: nat, key: int, k: nat)
    requires v.Arr? && TokensAt(toks, tok, Tokens(v, pos, tok, key)) && SizesKnown(toks)
    requires k < Length(v.items)
    ensures tok + 1 + Hop(toks, tok, k) < tok + Count(v)
  {
    hide Tokens;
    HopReaches(toks, tok, v, pos, key, k);
    ItemToken(toks, tok, v, pos, key, k);
  }
}
