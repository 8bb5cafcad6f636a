/** The size estimate that guards every jsonb write.

    A document is charged token by token, without building its expanded text.
    The charge is sound: it is never less than the length of the text PostgreSQL
    prints, with exponents expanded, ": " and ", " separators, duplicate keys
    dropped and keys in any order; and it is stable under that normalisation. */
module JsonbBudget {
  import opened Wrappers
  import opened Fields
  import N = JsonNumber

  datatype Json =
    | Null
    | Bool(b: bool)
    | Str(text: string)
    | Num(number: N.Number)
    | Arr(items: seq<Json>)
    | Obj(members: seq<Member>)

  datatype Member = Member(key: string, value: Json)

  datatype Token = Delim | Text(text: string) | Numeral(number: N.Number) | Word

  // ----- tokens --------------------------------------------------------------

  function Tokens(j: Json): seq<Token>
    decreases j, 1
  {
    match j
    case Null => [Word]
    case Bool(_) => [Word]
    case Str(s) => [Text(s)]
    case Num(n) => [Numeral(n)]
    case Arr(items) => [Delim] + ItemTokens(items) + [Delim]
    case Obj(members) => [Delim] + MemberTokens(members) + [Delim]
  }

  function ItemTokens(items: seq<Json>): seq<Token>
    decreases items, 0
  {
    if items == [] then [] else Tokens(items[0]) + ItemTokens(items[1..])
  }

  function MemberTokens(members: seq<Member>): seq<Token>
    decreases members, 0
  {
    if members == [] then [] else [Text(members[0].key)] + Tokens(members[0].value) + MemberTokens(members[1..])
  }

  /** The length encoding/json gives one character of a string. */
  function GoLen(c: char): nat {
    if c == '"' || c == '\\' || c == '\n' || c == '\r' || c == '\t' || c as int == 8 || c as int == 12 then 2
    else if (c as int) < 0x20 || c == '<' || c == '>' || c == '&' || c as int == 0x2028 || c as int == 0x2029 then 6
    else Utf8Len(c)
  }

  function GoBytes(s: string): nat {
    if s == "" then 0 else GoLen(s[0]) + GoBytes(s[1..])
  }

  function TokenCharge(t: Token): nat {
    2 + match t
        case Delim => 1
        case Text(s) => 2 + GoBytes(s)
        case Numeral(n) => N.Charge(n)
        case Word => 5
  }

  predicate TokenOk(t: Token) {
    match t
    case Text(s) => forall c <- s :: c as int != 0
    case Numeral(n) => N.InRange(n)
    case _ => true
  }

  function TokensCharge(ts: seq<Token>): nat {
    if ts == [] then 0 else TokenCharge(ts[0]) + TokensCharge(ts[1..])
  }

  predicate TokensOk(ts: seq<Token>) {
    forall t <- ts :: TokenOk(t)
  }

  lemma {:induction false} ChargeAppend(xs: seq<Token>, ys: seq<Token>)
    ensures TokensCharge(xs + ys) == TokensCharge(xs) + TokensCharge(ys)
  {
    if xs == [] {
      assert xs + ys == ys;
    } else {
      assert (xs + ys)[1..] == xs[1..] + ys;
      ChargeAppend(xs[1..], ys);
    }
  }

  /** The token loop: a running total that stops at the first bad token or overrun. */
  method ChargeTokens(ts: seq<Token>, limit: nat) returns (ok: bool)
    ensures ok <==> TokensOk(ts) && TokensCharge(ts) <= limit
  {
    var used, i := 0, 0;
    while i < |ts|
      invariant i <= |ts| && used == TokensCharge(ts[..i]) <= limit
      invariant TokensOk(ts[..i])
    {
      assert ts[..i + 1] == ts[..i] + [ts[i]];
      assert ts == ts[..i + 1] + ts[i + 1..];
      ChargeAppend(ts[..i], [ts[i]]);
      ChargeAppend(ts[..i + 1], ts[i + 1..]);
      assert ts[i] in ts;
      used := used + TokenCharge(ts[i]);
      if !TokenOk(ts[i]) || used > limit {
        return false;
      }
      i := i + 1;
    }
    assert ts[..i] == ts;
    return true;
  }

  /** validateJSONBBudget after the text checks: it accepts exactly the documents whose tokens can be stored and whose
      text, token by token with separators, fits. */
  method ValidateBudget(rawLength: nat, j: Json, limit: nat) returns (ok: bool)
    ensures ok <==> Accepts(rawLength, j, limit)
    ensures ok <==> rawLength <= limit && Affordable(Tokens(j), limit)
  {
    AffordableExactly(Tokens(j), limit);
    if rawLength > limit {
      return false;
    }
    ok := ChargeTokens(Tokens(j), limit);
  }

  // ----- what is charged, as text --------------------------------------------

  /** One character as encoding/json writes it inside a string. */
  function GoEscape(c: char): string {
    if c < ' ' || c == '"' || c == '\\' then Escape(c)
    else if c == '<' || c == '>' || c == '&' || c as int == 0x2028 || c as int == 0x2029 then
      "\\u" + [Hex(c as int / 0x1000), Hex(c as int / 0x100 % 16), Hex(c as int / 16 % 16), Hex(c as int % 16)]
    else [c]
  }

  function GoEscapeAll(s: string): string {
    if s == "" then "" else GoEscape(s[0]) + GoEscapeAll(s[1..])
  }

  /** The expansion of a number before superfluous zeros are dropped. */
  function Unstripped(n: N.Number): N.Number {
    var i := N.IntegerDigits(n);
    N.Number(n.neg, if i == [] then [0] else i, N.FractionDigits(n), 0)
  }

  /** A token's text: strings escaped as encoding/json does, numbers expanded, the longest word for each word. */
  function Rendered(t: Token): string {
    match t
    case Delim => "{"
    case Text(s) => "\"" + GoEscapeAll(s) + "\""
    case Numeral(n) => PrintNumber(Unstripped(n))
    case Word => "false"
  }

  /** The tokens in order, each followed by a two-byte separator. */
  function Listed(ts: seq<Token>): string {
    if ts == [] then "" else Rendered(ts[0]) + ", " + Listed(ts[1..])
  }

  lemma GoEscapeLength(c: char)
    ensures Utf8Bytes(GoEscape(c)) == GoLen(c)
  {
    var e := GoEscape(c);
    if Ascii(e) {
      AsciiBytes(e);
    } else {
      assert e[1..] == "";
    }
  }

  lemma {:induction false} GoEscapeAllLength(s: string)
    ensures Utf8Bytes(GoEscapeAll(s)) == GoBytes(s)
  {
    if s != "" {
      GoEscapeLength(s[0]);
      GoEscapeAllLength(s[1..]);
      Utf8Append(GoEscape(s[0]), GoEscapeAll(s[1..]));
    }
  }

  /** Every token is charged exactly its text and a separator. */
  lemma TokenChargeExactly(t: Token)
    ensures TokenCharge(t) == Utf8Bytes(Rendered(t)) + 2
  {
    match t {
      case Text(s) =>
        GoEscapeAllLength(s);
        Surround("\"", GoEscapeAll(s), "\"");
      case Numeral(n) =>
        N.ChargeExactly(n);
        AsciiBytes(Rendered(t));
      case _ =>
        AsciiBytes(Rendered(t));
    }
  }

  /** So a document is charged exactly the text of its tokens with a separator after each. */
  lemma {:induction false} ChargeIsLength(ts: seq<Token>)
    ensures TokensCharge(ts) == Utf8Bytes(Listed(ts))
  {
    if ts != [] {
      TokenChargeExactly(ts[0]);
      ChargeIsLength(ts[1..]);
      AsciiBytes(", ");
      Utf8Append(Rendered(ts[0]) + ", ", Listed(ts[1..]));
      Utf8Append(Rendered(ts[0]), ", ");
    }
  }

  /** A token PostgreSQL can store: no NUL character, and a number within numeric's digits once expanded. */
  predicate Storable(t: Token) {
    match t
    case Text(s) => forall c <- s :: c as int != 0
    case Numeral(n) =>
      && n.exp <= N.MAX_INTEGER_DIGITS && |N.Strip(N.IntegerDigits(n))| <= N.MAX_INTEGER_DIGITS
      && |N.FractionDigits(n)| <= N.MAX_FRACTION_DIGITS
    case _ => true
  }

  /** Every token can be stored, and their text with separators is within the limit. */
  ghost predicate Affordable(ts: seq<Token>, limit: nat) {
    Utf8Bytes(Listed(ts)) <= limit && forall t <- ts :: Storable(t)
  }

  lemma TokenOkExactly(t: Token)
    ensures TokenOk(t) <==> Storable(t)
  {
    if t.Numeral? { N.InRangeExactly(t.number); }
  }

  lemma {:induction false} TokensOkExactly(ts: seq<Token>)
    ensures TokensOk(ts) <==> forall t <- ts :: Storable(t)
  {
    if ts != [] {
      TokenOkExactly(ts[0]);
      TokensOkExactly(ts[1..]);
      assert forall t :: t in ts <==> t == ts[0] || t in ts[1..];
    }
  }

  /** The charge and the token checks decide exactly that. */
  lemma AffordableExactly(ts: seq<Token>, limit: nat)
    ensures TokensOk(ts) && TokensCharge(ts) <= limit <==> Affordable(ts, limit)
  {
    ChargeIsLength(ts);
    TokensOkExactly(ts);
  }

  // ----- the stored document -------------------------------------------------

  type KeyOrder = (string, string) -> bool

  /** Adding a member to an object: a later duplicate replaces the earlier value. */
  function Store(before: KeyOrder, ms: seq<Member>, m: Member): seq<Member> {
    if ms == [] then [m]
    else if ms[0].key == m.key then [m] + ms[1..]
    else if before(m.key, ms[0].key) then [m] + ms
    else [ms[0]] + Store(before, ms[1..], m)
  }

  function Normal(before: KeyOrder, j: Json): Json
    decreases j, 1
  {
    match j
    case Num(n) => Num(N.Plain(n))
    case Arr(items) => Arr(NormalItems(before, items))
    case Obj(members) => Obj(NormalMembers(before, members))
    case _ => j
  }

  function NormalItems(before: KeyOrder, items: seq<Json>): seq<Json>
    decreases items, 0
  {
    if items == [] then [] else [Normal(before, items[0])] + NormalItems(before, items[1..])
  }

  function NormalMembers(before: KeyOrder, members: seq<Member>): seq<Member>
    decreases members, 0
  {
    if members == [] then []
    else
      var last := members[|members| - 1];
      Store(before, NormalMembers(before, members[..|members| - 1]), Member(last.key, Normal(before, last.value)))
  }

  /** A strict total order on keys. */
  ghost predicate Ordering(before: KeyOrder) {
    && (forall a, b, c :: before(a, b) && before(b, c) ==> before(a, c))
    && (forall a, b :: before(a, b) ==> !before(b, a))
    && (forall a, b :: a != b ==> before(a, b) || before(b, a))
  }

  ghost predicate Sorted(before: KeyOrder, ms: seq<Member>) {
    forall i, j :: 0 <= i < j < |ms| ==> before(ms[i].key, ms[j].key)
  }

  /** The value of a key, looked up from the front. */
  function Find(ms: seq<Member>, key: string): Option<Json> {
    if ms == [] then None else if ms[0].key == key then Some(ms[0].value) else Find(ms[1..], key)
  }

  /** The last value given for a key. */
  function Latest(ms: seq<Member>, key: string): Option<Json> {
    if ms == [] then None
    else if ms[|ms| - 1].key == key then Some(ms[|ms| - 1].value)
    else Latest(ms[..|ms| - 1], key)
  }

  lemma {:induction false} StoreKeys(before: KeyOrder, ms: seq<Member>, m: Member, i: nat)
    requires i < |Store(before, ms, m)|
    ensures var key := Store(before, ms, m)[i].key; key == m.key || exists j :: 0 <= j < |ms| && ms[j].key == key
  {
    if ms != [] && ms[0].key != m.key && !before(m.key, ms[0].key) && i > 0 {
      StoreKeys(before, ms[1..], m, i - 1);
      if Store(before, ms, m)[i].key != m.key {
        var j :| 0 <= j < |ms[1..]| && ms[1..][j].key == Store(before, ms, m)[i].key;
        assert ms[j + 1] == ms[1..][j];
      }
    } else if ms != [] && i > 0 && ms[0].key == m.key {
      assert Store(before, ms, m)[i] == ms[i];
    } else if ms != [] && i > 0 {
      assert Store(before, ms, m)[i] == ms[i - 1];
    }
  }

  lemma {:induction false} StoreSorted(before: KeyOrder, ms: seq<Member>, m: Member)
    requires Ordering(before) && Sorted(before, ms)
    ensures Sorted(before, Store(before, ms, m))
  {
    if ms != [] && ms[0].key != m.key && !before(m.key, ms[0].key) {
      var rest := Store(before, ms[1..], m);
      StoreSorted(before, ms[1..], m);
      forall i | 0 <= i < |rest| ensures before(ms[0].key, rest[i].key) {
        StoreKeys(before, ms[1..], m, i);
      }
    }
  }

  lemma {:induction false} StoreFinds(before: KeyOrder, ms: seq<Member>, m: Member, key: string)
    requires Ordering(before) && Sorted(before, ms)
    ensures Find(Store(before, ms, m), key) == if key == m.key then Some(m.value) else Find(ms, key)
  {
    var to := Store(before, ms, m);
    if ms == [] {
      assert to[1..] == [];
    } else if ms[0].key == m.key {
      assert to[1..] == ms[1..];
    } else if before(m.key, ms[0].key) {
      assert to[1..] == ms;
    } else {
      assert to[1..] == Store(before, ms[1..], m);
      StoreFinds(before, ms[1..], m, key);
    }
  }

  /** A stored object: keys in order, each once, with the last value given for it. */
  lemma {:induction false} NormalKeepsLatest(before: KeyOrder, members: seq<Member>, key: string)
    requires Ordering(before)
    ensures var to := NormalMembers(before, members);
            && Sorted(before, to)
            && Find(to, key) == match Latest(members, key) {
                 case None => None
                 case Some(v) => Some(Normal(before, v))
               }
    decreases |members|
  {
    if members != [] {
      var init, last := members[..|members| - 1], members[|members| - 1];
      NormalKeepsLatest(before, init, key);
      StoreSorted(before, NormalMembers(before, init), Member(last.key, Normal(before, last.value)));
      StoreFinds(before, NormalMembers(before, init), Member(last.key, Normal(before, last.value)), key);
    }
  }

  // ----- its text ------------------------------------------------------------

  function Hex(d: int): char
    requires 0 <= d < 16
  {
    if d < 10 then '0' + d as char else 'a' + (d - 10) as char
  }

  function Escape(c: char): string {
    if c == '"' then "\\\""
    else if c == '\\' then "\\\\"
    else if c == '\n' then "\\n"
    else if c == '\r' then "\\r"
    else if c == '\t' then "\\t"
    else if c as int == 8 then "\\b"
    else if c as int == 12 then "\\f"
    else if (c as int) < 0x20 then "\\u00" + [Hex(c as int / 16), Hex(c as int % 16)]
    else [c]
  }

  function EscapeAll(s: string): string {
    if s == "" then "" else Escape(s[0]) + EscapeAll(s[1..])
  }

  function Quote(s: string): string {
    "\"" + EscapeAll(s) + "\""
  }

  function Digits(ds: seq<N.Digit>): (s: string)
    ensures |s| == |ds| && Ascii(s)
  {
    seq(|ds|, i requires 0 <= i < |ds| => '0' + ds[i] as char)
  }

  function PrintNumber(n: N.Number): string {
    (if n.neg then "-" else "") + Digits(n.integer) + (if n.fraction == [] then "" else "." + Digits(n.fraction))
  }

  /** The document as PostgreSQL prints it. */
  function Print(j: Json): string
    decreases j, 1
  {
    match j
    case Null => "null"
    case Bool(b) => if b then "true" else "false"
    case Str(s) => Quote(s)
    case Num(n) => PrintNumber(n)
    case Arr(items) => "[" + PrintItems(items) + "]"
    case Obj(members) => "{" + PrintMembers(members) + "}"
  }

  function PrintItems(items: seq<Json>): string
    decreases items, 0
  {
    if items == [] then ""
    else Print(items[0]) + (if |items| > 1 then ", " else "") + PrintItems(items[1..])
  }

  function PrintMembers(members: seq<Member>): string
    decreases members, 0
  {
    if members == [] then ""
    else
      Quote(members[0].key) + ": " + Print(members[0].value) +
      (if |members| > 1 then ", " else "") + PrintMembers(members[1..])
  }

  // ----- charges by structure ------------------------------------------------

  function Charge(j: Json): nat {
    TokensCharge(Tokens(j))
  }

  lemma ArrCharge(items: seq<Json>)
    ensures Charge(Arr(items)) == 6 + TokensCharge(ItemTokens(items))
  {
    ChargeAppend([Delim] + ItemTokens(items), [Delim]);
    ChargeAppend([Delim], ItemTokens(items));
    assert TokensCharge([Delim]) == 3;
  }

  lemma ObjCharge(members: seq<Member>)
    ensures Charge(Obj(members)) == 6 + TokensCharge(MemberTokens(members))
  {
    ChargeAppend([Delim] + MemberTokens(members), [Delim]);
    ChargeAppend([Delim], MemberTokens(members));
    assert TokensCharge([Delim]) == 3;
  }

  lemma ItemsCharge(items: seq<Json>)
    requires items != []
    ensures TokensCharge(ItemTokens(items)) == Charge(items[0]) + TokensCharge(ItemTokens(items[1..]))
  {
    ChargeAppend(Tokens(items[0]), ItemTokens(items[1..]));
  }

  function MemberCharge(m: Member): nat {
    4 + GoBytes(m.key) + Charge(m.value)
  }

  lemma MembersCharge(members: seq<Member>)
    requires members != []
    ensures TokensCharge(MemberTokens(members)) == MemberCharge(members[0]) + TokensCharge(MemberTokens(members[1..]))
  {
    var m := members[0];
    ChargeAppend([Text(m.key)] + Tokens(m.value), MemberTokens(members[1..]));
    ChargeAppend([Text(m.key)], Tokens(m.value));
    assert TokensCharge([Text(m.key)]) == 4 + GoBytes(m.key);
  }

  // ----- the charge covers the text ------------------------------------------

  lemma EscapeCost(c: char)
    ensures Utf8Bytes(Escape(c)) <= GoLen(c)
  {
    var e := Escape(c);
    if (c as int) < 0x20 || c == '"' || c == '\\' {
      assert Ascii(e) && |e| <= 6;
      AsciiBytes(e);
    } else {
      assert e[1..] == "";
    }
  }

  lemma {:induction false} EscapeAllCost(s: string)
    ensures Utf8Bytes(EscapeAll(s)) <= GoBytes(s)
  {
    if s != "" {
      EscapeCost(s[0]);
      EscapeAllCost(s[1..]);
      Utf8Append(Escape(s[0]), EscapeAll(s[1..]));
    }
  }

  lemma QuoteCost(s: string)
    ensures Utf8Bytes(Quote(s)) <= 2 + GoBytes(s)
  {
    EscapeAllCost(s);
    Utf8Append("\"" + EscapeAll(s), "\"");
    Utf8Append("\"", EscapeAll(s));
    AsciiBytes("\"");
  }

  /** Every number is a literal without an exponent. */
  predicate Expanded(j: Json)
    decreases j, 1
  {
    match j
    case Num(n) => N.Literal(n) && n.exp == 0
    case Arr(items) => ExpandedItems(items)
    case Obj(members) => ExpandedMembers(members)
    case _ => true
  }

  predicate ExpandedItems(items: seq<Json>)
    decreases items, 0
  {
    items == [] || (Expanded(items[0]) && ExpandedItems(items[1..]))
  }

  predicate ExpandedMembers(members: seq<Member>)
    decreases members, 0
  {
    members == [] || (Expanded(members[0].value) && ExpandedMembers(members[1..]))
  }

  lemma NumberCost(n: N.Number)
    requires n.exp == 0 && n.integer != []
    ensures Utf8Bytes(PrintNumber(n)) <= N.Charge(n)
  {
    AsciiBytes(PrintNumber(n));
  }

  lemma WordCost(j: Json)
    requires j.Null? || j.Bool?
    ensures Utf8Bytes(Print(j)) <= 5 && Charge(j) == 7
  {
    AsciiBytes(Print(j));
    assert Tokens(j)[1..] == [];
  }

  /** Each value's text, with the two bytes of a separator, is covered by its charge. */
  lemma {:induction false} ChargeCoversText(j: Json)
    requires Expanded(j)
    ensures Utf8Bytes(Print(j)) + 2 <= Charge(j)
    decreases j, 1
  {
    match j {
      case Null => WordCost(j);
      case Bool(_) => WordCost(j);
      case Str(s) =>
        QuoteCost(s);
        assert Tokens(j)[1..] == [];
      case Num(n) =>
        NumberCost(n);
        assert Tokens(j)[1..] == [];
      case Arr(items) =>
        ArrCharge(items);
        ItemsCoverText(items);
        Surround("[", PrintItems(items), "]");
      case Obj(members) =>
        ObjCharge(members);
        MembersCoverText(members);
        Surround("{", PrintMembers(members), "}");
    }
  }

  lemma Surround(a: string, s: string, b: string)
    requires |a| == |b| == 1 && Ascii(a) && Ascii(b)
    ensures Utf8Bytes(a + s + b) == 2 + Utf8Bytes(s)
  {
    Utf8Append(a + s, b);
    Utf8Append(a, s);
    AsciiBytes(a);
    AsciiBytes(b);
  }

  lemma {:induction false} ItemsCoverText(items: seq<Json>)
    requires ExpandedItems(items)
    ensures Utf8Bytes(PrintItems(items)) <= TokensCharge(ItemTokens(items))
    decreases items, 0
  {
    if items != [] {
      ChargeCoversText(items[0]);
      ItemsCoverText(items[1..]);
      ItemsCharge(items);
      var sep := if |items| > 1 then ", " else "";
      AsciiBytes(sep);
      Utf8Append(Print(items[0]) + sep, PrintItems(items[1..]));
      Utf8Append(Print(items[0]), sep);
    }
  }

  lemma {:induction false} MembersCoverText(members: seq<Member>)
    requires ExpandedMembers(members)
    ensures Utf8Bytes(PrintMembers(members)) <= TokensCharge(MemberTokens(members))
    decreases members, 0
  {
    if members != [] {
      var m, sep := members[0], if |members| > 1 then ", " else "";
      ChargeCoversText(m.value);
      MembersCoverText(members[1..]);
      MembersCharge(members);
      QuoteCost(m.key);
      AsciiBytes(sep);
      AsciiBytes(": ");
      Utf8Append(Quote(m.key) + ": " + Print(m.value) + sep, PrintMembers(members[1..]));
      Utf8Append(Quote(m.key) + ": " + Print(m.value), sep);
      Utf8Append(Quote(m.key) + ": ", Print(m.value));
      Utf8Append(Quote(m.key), ": ");
    }
  }

  // ----- normalising keeps everything sound ----------------------------------

  /** Sound tokens throughout, by structure. */
  predicate Sound(j: Json)
    decreases j, 1
  {
    match j
    case Str(s) => TokenOk(Text(s))
    case Num(n) => N.InRange(n)
    case Arr(items) => SoundItems(items)
    case Obj(members) => SoundMembers(members)
    case _ => true
  }

  predicate SoundItems(items: seq<Json>)
    decreases items, 0
  {
    items == [] || (Sound(items[0]) && SoundItems(items[1..]))
  }

  predicate SoundMembers(members: seq<Member>)
    decreases members, 0
  {
    members == [] || (TokenOk(Text(members[0].key)) && Sound(members[0].value) && SoundMembers(members[1..]))
  }

  lemma {:induction false} SoundTokens(j: Json)
    ensures Sound(j) <==> TokensOk(Tokens(j))
    decreases j, 1
  {
    match j {
      case Str(s) => assert Text(s) in Tokens(j);
      case Num(n) => assert Numeral(n) in Tokens(j);
      case Arr(items) =>
        SoundItemTokens(items);
        assert forall t :: t in Tokens(j) <==> t == Delim || t in ItemTokens(items);
      case Obj(members) =>
        SoundMemberTokens(members);
        assert forall t :: t in Tokens(j) <==> t == Delim || t in MemberTokens(members);
      case _ =>
    }
  }

  lemma {:induction false} SoundItemTokens(items: seq<Json>)
    ensures SoundItems(items) <==> TokensOk(ItemTokens(items))
    decreases items, 0
  {
    if items != [] {
      SoundTokens(items[0]);
      SoundItemTokens(items[1..]);
      assert forall t :: t in ItemTokens(items) <==> t in Tokens(items[0]) || t in ItemTokens(items[1..]);
    }
  }

  lemma {:induction false} SoundMemberTokens(members: seq<Member>)
    ensures SoundMembers(members) <==> TokensOk(MemberTokens(members))
    decreases members, 0
  {
    if members != [] {
      var m := members[0];
      SoundTokens(m.value);
      SoundMemberTokens(members[1..]);
      assert forall t :: t in MemberTokens(members) <==>
            t == Text(m.key) || t in Tokens(m.value) || t in MemberTokens(members[1..]);
    }
  }

  /** What normalising promises of any document: expanded, charged no more, and as sound as before. */
  ghost predicate Tamed(from: Json, to: Json) {
    Expanded(to) && Charge(to) <= Charge(from) && (Sound(from) ==> Sound(to))
  }

  lemma {:induction false} NormalTames(before: KeyOrder, j: Json)
    ensures Tamed(j, Normal(before, j))
    decreases j, 1
  {
    match j {
      case Num(n) =>
        NumberTamed(n);
      case Arr(items) =>
        NormalItemsTame(before, items);
        ArrCharge(items);
        ArrCharge(NormalItems(before, items));
      case Obj(members) =>
        NormalMembersTame(before, members);
        ObjCharge(members);
        ObjCharge(NormalMembers(before, members));
      case _ =>
    }
  }

  lemma NumberTamed(n: N.Number)
    ensures Tamed(Num(n), Num(N.Plain(n)))
  {
    N.PlainChargedNoMore(n);
    N.PlainIsLiteral(n);
    if N.InRange(n) { N.PlainStaysInRange(n); }
    assert Tokens(Num(n))[1..] == [] && Tokens(Num(N.Plain(n)))[1..] == [];
  }

  lemma {:induction false} NormalItemsTame(before: KeyOrder, items: seq<Json>)
    ensures var to := NormalItems(before, items);
            && ExpandedItems(to) && TokensCharge(ItemTokens(to)) <= TokensCharge(ItemTokens(items))
            && (SoundItems(items) ==> SoundItems(to))
    decreases items, 0
  {
    if items != [] {
      NormalTames(before, items[0]);
      NormalItemsTame(before, items[1..]);
      var to := NormalItems(before, items);
      assert to[1..] == NormalItems(before, items[1..]);
      ItemsCharge(items);
      ItemsCharge(to);
    }
  }

  lemma {:induction false} StoreTames(before: KeyOrder, ms: seq<Member>, m: Member)
    requires ExpandedMembers(ms) && Expanded(m.value)
    ensures var to := Store(before, ms, m);
            && ExpandedMembers(to) && TokensCharge(MemberTokens(to)) <= TokensCharge(MemberTokens(ms)) + MemberCharge(m)
            && (SoundMembers(ms) && Sound(m.value) && TokenOk(Text(m.key)) ==> SoundMembers(to))
  {
    var to := Store(before, ms, m);
    MembersCharge(to);
    if ms == [] {
      assert to[1..] == [];
    } else {
      MembersCharge(ms);
      if ms[0].key == m.key {
        assert to[1..] == ms[1..];
      } else if before(m.key, ms[0].key) {
        assert to[1..] == ms;
      } else {
        StoreTames(before, ms[1..], m);
        assert to[1..] == Store(before, ms[1..], m);
      }
    }
  }

  lemma {:induction false} InitCharge(members: seq<Member>)
    requires members != []
    ensures TokensCharge(MemberTokens(members)) ==
            TokensCharge(MemberTokens(members[..|members| - 1])) + MemberCharge(members[|members| - 1])
  {
    MembersCharge(members);
    if |members| == 1 {
      assert members[..0] == [] && members[1..] == [];
    } else {
      InitCharge(members[1..]);
      assert members[1..][..|members| - 2] == members[..|members| - 1][1..];
      MembersCharge(members[..|members| - 1]);
    }
  }

  lemma {:induction false} SoundInit(members: seq<Member>)
    requires members != [] && SoundMembers(members)
    ensures var last := members[|members| - 1];
            SoundMembers(members[..|members| - 1]) && TokenOk(Text(last.key)) && Sound(last.value)
  {
    if |members| > 1 {
      SoundInit(members[1..]);
      assert members[1..][..|members| - 2] == members[..|members| - 1][1..];
    }
  }

  lemma {:induction false} NormalMembersTame(before: KeyOrder, members: seq<Member>)
    ensures var to := NormalMembers(before, members);
            && ExpandedMembers(to) && TokensCharge(MemberTokens(to)) <= TokensCharge(MemberTokens(members))
            && (SoundMembers(members) ==> SoundMembers(to))
    decreases members, 0
  {
    if members != [] {
      var last := members[|members| - 1];
      InitCharge(members);
      if SoundMembers(members) { SoundInit(members); }
      NormalMembersTame(before, members[..|members| - 1]);
      NormalTames(before, last.value);
      StoreTames(before, NormalMembers(before, members[..|members| - 1]), Member(last.key, Normal(before, last.value)));
    }
  }

  // ----- the theorems --------------------------------------------------------

  /** For every document, sound or not, the charge covers the text PostgreSQL prints once exponents are
      expanded, with two bytes to spare, whatever order the keys are stored in. */
  lemma ChargeCoversRendering(before: KeyOrder, j: Json)
    ensures Utf8Bytes(Print(Normal(before, j))) + 2 <= Charge(j)
  {
    NormalTames(before, j);
    ChargeCoversText(Normal(before, j));
  }

  predicate Accepts(rawLength: nat, j: Json, limit: nat) {
    rawLength <= limit && TokensOk(Tokens(j)) && TokensCharge(Tokens(j)) <= limit
  }

  /** An accepted document prints within the limit once stored, and its stored form is accepted at that length. */
  lemma StoredFormAccepted(before: KeyOrder, rawLength: nat, j: Json, limit: nat)
    requires Accepts(rawLength, j, limit)
    ensures Accepts(Utf8Bytes(Print(Normal(before, j))), Normal(before, j), limit)
  {
    SoundTokens(j);
    NormalTames(before, j);
    ChargeCoversRendering(before, j);
    SoundTokens(Normal(before, j));
  }
}
