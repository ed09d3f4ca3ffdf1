/** The arrays at any depth of a value, found again in its tokens: no search leaves them. */
module JsonArrays {
  import opened JsonLex
  import opened JsonRun
  import opened JsonPrinter
  import opened JsonRoundTrip
  import opened JsonLookup
  import opened JsonMembers

  /** At token `j` of a value stands the array `w`, printed at `p`. */
  predicate ArrayAt(toks: seq<Token>, idx: nat, j: nat, w: Value, p: nat, key: int) {
    w.Arr? && TokensAt(toks, j, Tokens(w, p, idx + j, key))
  }

  lemma {:induction false} ArrayInside(v: Value, pos: nat, idx: nat, key: int, j: nat)
    returns (w: Value, p: nat, k: int)
    requires j < Count(v) && Tokens(v, pos, idx, key)[j].kind.Array?
    ensures ArrayAt(Tokens(v, pos, idx, key), idx, j, w, p, k)
    decreases v
  {
    InnerParts(v, pos, idx, key);
    hide Tokens, ItemTokens, MemberTokens, TokensAt;
    var ts := Tokens(v, pos, idx, key);
    if j == 0 {
      w, p, k := v, pos, key;
    } else if v.Arr? {
      hide ArrayAt;
      var us := ItemTokens(v.items, pos + 1 + |v.lead|, idx + 1);
      TokenOf(ts, 1, us, j - 1);
      w, p, k := ArrayInsideItems(v.items, pos + 1 + |v.lead|, idx + 1, j - 1);
      ShiftedAt(ts, 1, us, idx, j - 1, j, w, p, k);
    } else {
      hide ArrayAt;
      var us := MemberTokens(v.members, pos + 1 + |v.lead|, idx + 1);
      TokenOf(ts, 1, us, j - 1);
      w, p, k := ArrayInsideMembers(v.members, pos + 1 + |v.lead|, idx + 1, j - 1);
      ShiftedAt(ts, 1, us, idx, j - 1, j, w, p, k);
    }
  }

  lemma InnerParts(v: Value, pos: nat, idx: nat, key: int)
    ensures var ts := Tokens(v, pos, idx, key);
      TokensAt(ts, 0, ts) && (ts[0].kind.Array? <==> v.Arr?)
    ensures v.Arr? ==>
      Count(v) == 1 + CountItems(v.items)
      && TokensAt(Tokens(v, pos, idx, key), 1, ItemTokens(v.items, pos + 1 + |v.lead|, idx + 1))
    ensures v.Obj? ==>
      Count(v) == 1 + CountMembers(v.members)
      && TokensAt(Tokens(v, pos, idx, key), 1, MemberTokens(v.members, pos + 1 + |v.lead|, idx + 1))
    ensures v.Plain? || v.Quoted? ==> Count(v) == 1
  {
    hide ItemTokens, MemberTokens, Print;
  }

  lemma ShiftedAt(toks: seq<Token>, i: nat, ts: seq<Token>, idx: nat, j: nat, n: nat, w: Value, p: nat, key: int)
    requires TokensAt(toks, i, ts) && ArrayAt(ts, idx + i, j, w, p, key) && n == i + j
    ensures ArrayAt(toks, idx, n, w, p, key)
  {
    hide Tokens;
    TokensAtTrans(toks, i, ts, j, Tokens(w, p, idx + i + j, key));
  }

  lemma TokenOf(toks: seq<Token>, i: nat, ts: seq<Token>, j: nat)
    requires TokensAt(toks, i, ts) && j < |ts|
    ensures i + j < |toks| && toks[i + j] == ts[j]
  {
  }

  /** Where the items behind the first are printed. */
  function ItemNext(items: Items, pos: nat): nat
    requires items.Item?
  {
    pos + |Print(items.v)| + |items.trail| + 1 + |items.lead|
  }

  lemma ItemTokenOf(items: Items, pos: nat, idx: nat, j: nat)
    requires j < CountItems(items)
    ensures var c, ts := Count(items.v), ItemTokens(items, pos, idx);
      && (j < c ==> ts[j] == Tokens(items.v, pos, idx, -1)[j])
      && (j >= c ==> j - c < CountItems(items.rest) && ts[j] == ItemTokens(items.rest, ItemNext(items, pos),
        idx + Count(items.v))[j - c])
  {
    hide Tokens, Print;
  }

  lemma LiftItem(items: Items, pos: nat, idx: nat, j: nat, w: Value, p: nat, k: int)
    requires items.Item? && ArrayAt(Tokens(items.v, pos, idx, -1), idx, j, w, p, k)
    ensures ArrayAt(ItemTokens(items, pos, idx), idx, j, w, p, k)
  {
    hide Tokens, ItemTokens, Print, ArrayAt;
    ItemTokensParts(items, pos, idx);
    ShiftedAt(ItemTokens(items, pos, idx), 0, Tokens(items.v, pos, idx, -1), idx, j, j, w, p, k);
  }

  lemma LiftItems(items: Items, pos: nat, idx: nat, j: nat, n: nat, w: Value, p: nat, k: int)
    requires items.Item? && n == Count(items.v) + j
    requires var i := idx + Count(items.v); ArrayAt(ItemTokens(items.rest, ItemNext(items, pos), i), i, j, w, p, k)
    ensures ArrayAt(ItemTokens(items, pos, idx), idx, n, w, p, k)
  {
    hide Tokens, ItemTokens, Print, ArrayAt;
    ItemTokensParts(items, pos, idx);
    ShiftedAt(ItemTokens(items, pos, idx), Count(items.v), ItemTokens(items.rest, ItemNext(items, pos),
      idx + Count(items.v)), idx, j, n, w, p, k);
  }

  lemma {:induction false} ArrayInsideItems(items: Items, pos: nat, idx: nat, j: nat) returns (w: Value, p: nat, k: int)
    requires j < CountItems(items) && ItemTokens(items, pos, idx)[j].kind.Array?
    ensures ArrayAt(ItemTokens(items, pos, idx), idx, j, w, p, k)
    decreases items
  {
    ItemTokenOf(items, pos, idx, j);
    var c := Count(items.v);
    hide Tokens, ItemTokens, ItemNext, ArrayAt, TokensAt, Count, CountItems;
    if j < c {
      w, p, k := ArrayInside(items.v, pos, idx, -1, j);
      LiftItem(items, pos, idx, j, w, p, k);
    } else {
      w, p, k := ArrayInsideItems(items.rest, ItemNext(items, pos), idx + c, j - c);
      LiftItems(items, pos, idx, j - c, j, w, p, k);
    }
  }

  lemma MemberTokensParts(members: Members, pos: nat, idx: nat, d: nat)
    requires members.Member? && d == 1 + Count(members.v)
    ensures var q, ts := ValuePos(members, pos), MemberTokens(members, pos, idx);
      && CountMembers(members) == d + CountMembers(members.rest)
      && !ts[0].kind.Array?
      && TokensAt(ts, 1, Tokens(members.v, q, idx + 1, idx))
      && TokensAt(ts, d, MemberTokens(members.rest,
        q + |Print(members.v)| + |members.trail| + 1 + |members.lead|, idx + d))
  {
    hide Tokens, Print, ValuePos;
  }

  function MemberNext(members: Members, pos: nat): nat
    requires members.Member?
  {
    ValuePos(members, pos) + |Print(members.v)| + |members.trail| + 1 + |members.lead|
  }

  lemma MemberTokenOf(members: Members, pos: nat, idx: nat, d: nat, j: nat)
    requires j < CountMembers(members) && d == 1 + Count(members.v)
    ensures var ts := MemberTokens(members, pos, idx);
      && (j == 0 ==> !ts[j].kind.Array?)
      && (0 < j < d ==> ts[j] == Tokens(members.v, ValuePos(members, pos), idx + 1, idx)[j - 1])
      && (j >= d ==> j - d < CountMembers(members.rest) && ts[j] == MemberTokens(members.rest,
        MemberNext(members, pos), idx + d)[j - d])
  {
    hide Tokens, Print, ValuePos;
  }

  lemma LiftMember(members: Members, pos: nat, idx: nat, j: nat, n: nat, w: Value, p: nat, k: int)
    requires members.Member? && n == j + 1
    requires ArrayAt(Tokens(members.v, ValuePos(members, pos), idx + 1, idx), idx + 1, j, w, p, k)
    ensures ArrayAt(MemberTokens(members, pos, idx), idx, n, w, p, k)
  {
    hide Tokens, MemberTokens, Print, ArrayAt, ValuePos;
    MemberTokensParts(members, pos, idx, 1 + Count(members.v));
    ShiftedAt(MemberTokens(members, pos, idx), 1, Tokens(members.v, ValuePos(members, pos), idx + 1, idx), idx,
      j, n, w, p, k);
  }

  lemma LiftMembers(members: Members, pos: nat, idx: nat, d: nat, j: nat, n: nat, w: Value, p: nat, k: int)
    requires members.Member? && d == 1 + Count(members.v) && n == d + j
    requires ArrayAt(MemberTokens(members.rest, MemberNext(members, pos), idx + d), idx + d, j, w, p, k)
    ensures ArrayAt(MemberTokens(members, pos, idx), idx, n, w, p, k)
  {
    hide Tokens, MemberTokens, Print, ArrayAt, ValuePos;
    MemberTokensParts(members, pos, idx, d);
    ShiftedAt(MemberTokens(members, pos, idx), d, MemberTokens(members.rest, MemberNext(members, pos),
      idx + d), idx, j, n, w, p, k);
  }

  lemma {:induction false} ArrayInsideMembers(members: Members, pos: nat, idx: nat, j: nat)
    returns (w: Value, p: nat, k: int)
    requires j < CountMembers(members) && MemberTokens(members, pos, idx)[j].kind.Array?
    ensures ArrayAt(MemberTokens(members, pos, idx), idx, j, w, p, k)
    decreases members
  {
    var d, q := 1 + Count(members.v), ValuePos(members, pos);
    MemberTokenOf(members, pos, idx, d, j);
    assert members.Member?;
    hide Tokens, MemberTokens, MemberNext, ValuePos, ArrayAt, TokensAt, Count, CountMembers;
    if j < d {
      w, p, k := ArrayInside(members.v, q, idx + 1, idx, j - 1);
      LiftMember(members, pos, idx, j - 1, j, w, p, k);
    } else {
      w, p, k := ArrayInsideMembers(members.rest, MemberNext(members, pos), idx + d, j - d);
      LiftMembers(members, pos, idx, d, j - d, j, w, p, k);
    }
  }

  /** The tokens of any value have sizes, and no search in any of its arrays leaves them. */
  lemma {:induction false} ParsedHopsFit(v: Value, pos: nat)
    ensures var toks := Tokens(v, pos, 0, -1); SizesKnown(toks) && HopsFit(toks)
  {
    var toks := Tokens(v, pos, 0, -1);
    forall j | 0 <= j < |toks| ensures toks[j].size >= 0 {
      SizeWithin(v, pos, 0, -1, j);
    }
    forall tok, k | 0 <= tok < |toks| && 0 <= k < toks[tok].size && toks[tok].kind.Array?
      ensures tok + 1 + Hop(toks, tok, k) < |toks|
    {
      var w, p, key := ArrayInside(v, pos, 0, -1, tok);
      InnerTokens(toks, tok, w, p, key);
      HopsFitInArray(toks, tok, w, p, key, k);
    }
  }
}
