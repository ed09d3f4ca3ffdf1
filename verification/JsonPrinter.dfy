/**
 JSON texts as RFC 8259 writes them: a value together with the white space chosen for it, its
 printed form, and the token array that describes it.
 */
module JsonPrinter {
  import opened JsonLex
  import opened JsonRun

  /**
   A value and its white space.  `lead` stands after an opening bracket or a comma, `trail` after a
   value; the last item or member of a container has no use for its `lead`.
   */
  datatype Value =
    | Plain(text: string)     // a number, true, false or null
    | Quoted(body: string)    // what stands between the quotes
    | Arr(lead: string, items: Items)
    | Obj(lead: string, members: Members)

  datatype Items = NoItems | Item(v: Value, trail: string, lead: string, rest: Items)

  datatype Members =
    | NoMembers
    | Member(key: string, beforeColon: string, afterColon: string, v: Value, trail: string, lead: string, rest: Members)

  function Print(v: Value): string {
    match v
    case Plain(text) => text
    case Quoted(body) => "\"" + body + "\""
    case Arr(lead, items) => "[" + lead + PrintItems(items) + "]"
    case Obj(lead, members) => "{" + lead + PrintMembers(members) + "}"
  }

  function PrintItems(items: Items): string {
    match items
    case NoItems => ""
    case Item(v, trail, lead, rest) =>
      Print(v) + trail + if rest.NoItems? then "" else "," + lead + PrintItems(rest)
  }

  function PrintKey(m: Members): string
    requires m.Member?
  {
    "\"" + m.key + "\""
  }

  function PrintMembers(members: Members): string {
    match members
    case NoMembers => ""
    case Member(key, b, a, v, trail, lead, rest) =>
      PrintKey(members) + b + ":" + a + Print(v) + trail
      + if rest.NoMembers? then "" else "," + lead + PrintMembers(rest)
  }

  // ----- which texts are legal

  predicate Blanks(w: string) {
    forall c :: c in w ==> Blank(c)
  }

  /** Texts the tokenizer takes for one primitive; RFC 8259's numbers and literals are among them. */
  predicate PlainText(t: string) {
    && t != "" && t[0] != '{' && t[0] != '[' && t[0] != '\"'
    && forall c :: c in t ==> !Delimiter(c) && !Unprintable(c)
  }

  /** *char of RFC 8259 section 7. */
  predicate StringBody(b: string) {
    if b == "" then true
    else if b[0] != '\\' then ' ' <= b[0] && b[0] != '\"' && StringBody(b[1..])
    else if |b| < 2 then false
    else if ShortEscape(b[1]) then StringBody(b[2..])
    else b[1] == 'u' && |b| >= 6 && Hex(b[2]) && Hex(b[3]) && Hex(b[4]) && Hex(b[5]) && StringBody(b[6..])
  }

  predicate Legal(v: Value) {
    match v
    case Plain(text) => PlainText(text)
    case Quoted(body) => StringBody(body)
    case Arr(lead, items) => Blanks(lead) && LegalItems(items)
    case Obj(lead, members) => Blanks(lead) && LegalMembers(members)
  }

  predicate LegalItems(items: Items) {
    match items
    case NoItems => true
    case Item(v, trail, lead, rest) => Legal(v) && Blanks(trail) && Blanks(lead) && LegalItems(rest)
  }

  predicate LegalMembers(members: Members) {
    match members
    case NoMembers => true
    case Member(key, b, a, v, trail, lead, rest) =>
      && StringBody(key) && Blanks(b) && Blanks(a) && Legal(v) && Blanks(trail) && Blanks(lead)
      && LegalMembers(rest)
  }

  predicate Digits(t: string) {
    t != "" && forall c :: c in t ==> '0' <= c <= '9'
  }

  /** number of RFC 8259 section 6: [ minus ] int [ frac ] [ exp ] */
  predicate NumberParts(minus: string, whole: string, frac: string, exp: string) {
    && (minus == "" || minus == "-")
    && Digits(whole) && (whole[0] == '0' ==> |whole| == 1)
    && (frac == "" || (frac[0] == '.' && Digits(frac[1..])))
    && (exp == "" || ((exp[0] == 'e' || exp[0] == 'E')
                      && (Digits(exp[1..]) || (|exp| > 1 && (exp[1] == '+' || exp[1] == '-') && Digits(exp[2..])))))
  }

  /** Every scalar of RFC 8259 other than a string is covered by `Plain`. */
  lemma ScalarsArePlain(minus: string, whole: string, frac: string, exp: string)
    ensures PlainText("true") && PlainText("false") && PlainText("null")
    ensures NumberParts(minus, whole, frac, exp) ==> PlainText(minus + whole + frac + exp)
  {
    if NumberParts(minus, whole, frac, exp) {
      NumberChars(frac);
      NumberChars(exp);
      assert whole[0] in whole;
      var t := minus + whole + frac + exp;
      assert t[0] == '-' || '0' <= t[0] <= '9';
      forall c | c in t ensures !Delimiter(c) && !Unprintable(c) {
        assert c in minus || c in whole || c in frac || c in exp;
      }
    }
  }

  lemma NumberChars(t: string)
    requires t == "" || ((t[0] == '.' || t[0] == 'e' || t[0] == 'E')
      && (Digits(t[1..]) || (|t| > 1 && (t[1] == '+' || t[1] == '-') && Digits(t[2..]))))
    ensures forall c :: c in t ==> !Delimiter(c) && !Unprintable(c)
  {
    forall i | 0 <= i < |t| ensures !Delimiter(t[i]) && !Unprintable(t[i]) {
      if i >= 1 && Digits(t[1..]) {
        assert t[i] == t[1..][i - 1] && t[i] in t[1..];
      } else if i >= 2 {
        assert t[i] == t[2..][i - 2] && t[i] in t[2..];
      }
    }
  }

  // ----- the tokens of a value

  /** How many tokens: containers, keys, strings and primitives. */
  function Count(v: Value): nat
    ensures Count(v) >= 1
  {
    match v
    case Plain(_) => 1
    case Quoted(_) => 1
    case Arr(_, items) => 1 + CountItems(items)
    case Obj(_, members) => 1 + CountMembers(members)
  }

  function CountItems(items: Items): nat {
    match items
    case NoItems => 0
    case Item(v, _, _, rest) => Count(v) + CountItems(rest)
  }

  function CountMembers(members: Members): nat {
    match members
    case NoMembers => 0
    case Member(_, _, _, v, _, _, rest) => 1 + Count(v) + CountMembers(rest)
  }

  function Length(items: Items): nat {
    if items.NoItems? then 0 else 1 + Length(items.rest)
  }

  function Pairs(members: Members): nat {
    if members.NoMembers? then 0 else 1 + Pairs(members.rest)
  }

  /**
   The tokens of `v` in pre-order, for `v` printed at position `pos`, its first token at index `idx`
   and linked to key `key` (-1 outside objects).
   */
  function Tokens(v: Value, pos: nat, idx: nat, key: int): (r: seq<Token>)
    ensures |r| == Count(v)
  {
    match v
    case Plain(text) => [Token(Primitive, pos, pos + |text|, 0, key)]
    case Quoted(body) => [Token(String, pos + 1, pos + 1 + |body|, 0, key)]
    case Arr(lead, items) =>
      [Token(Array, pos, pos + |Print(v)|, Length(items), key)] + ItemTokens(items, pos + 1 + |lead|, idx + 1)
    case Obj(lead, members) =>
      [Token(Object, pos, pos + |Print(v)|, 2 * Pairs(members), key)]
      + MemberTokens(members, pos + 1 + |lead|, idx + 1)
  }

  function ItemTokens(items: Items, pos: nat, idx: nat): (r: seq<Token>)
    ensures |r| == CountItems(items)
  {
    match items
    case NoItems => []
    case Item(v, trail, lead, rest) =>
      Tokens(v, pos, idx, -1)
      + ItemTokens(rest, pos + |Print(v)| + |trail| + 1 + |lead|, idx + Count(v))
  }

  function ValuePos(m: Members, pos: nat): nat
    requires m.Member?
  {
    pos + |PrintKey(m)| + |m.beforeColon| + 1 + |m.afterColon|
  }

  function MemberTokens(members: Members, pos: nat, idx: nat): (r: seq<Token>)
    ensures |r| == CountMembers(members)
  {
    match members
    case NoMembers => []
    case Member(key, b, a, v, trail, lead, rest) =>
      var p := ValuePos(members, pos);
      [Token(String, pos + 1, pos + 1 + |key|, 0, -1)]
      + Tokens(v, p, idx + 1, idx)
      + MemberTokens(rest, p + |Print(v)| + |trail| + 1 + |lead|, idx + 1 + Count(v))
  }
}
