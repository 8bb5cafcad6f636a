/** Reading JSON text (RFC 8259) as encoding/json does, and reading back what
    PostgreSQL prints. */
module JsonText {
  import opened Wrappers
  import opened JsonbBudget
  import N = JsonNumber

  predicate Space(c: char) {
    c == ' ' || c == '\t' || c == '\n' || c == '\r'
  }

  function Skip(s: string): (t: string)
    ensures |t| <= |s|
  {
    if s != "" && Space(s[0]) then Skip(s[1..]) else s
  }

  predicate StartsWith(s: string, c: char) {
    s != "" && s[0] == c
  }

  // ----- numbers -------------------------------------------------------------

  predicate IsDigit(c: char) {
    '0' <= c <= '9'
  }

  /** How many digits the text starts with. */
  function Run(s: string): (k: nat)
    ensures k <= |s| && forall i :: 0 <= i < k ==> IsDigit(s[i])
  {
    if s != "" && IsDigit(s[0]) then 1 + Run(s[1..]) else 0
  }

  function DigitOf(c: char): N.Digit
    requires IsDigit(c)
  {
    c as int - '0' as int
  }

  function DigitsOf(s: string, k: nat): seq<N.Digit>
    requires k <= |s| && forall i :: 0 <= i < k ==> IsDigit(s[i])
  {
    seq(k, i requires 0 <= i < k => DigitOf(s[i]))
  }

  function ReadFraction(s: string): (r: Option<(seq<N.Digit>, string)>)
    ensures r.Some? ==> |r.value.1| <= |s|
  {
    if !StartsWith(s, '.') then Some(([], s))
    else
      var k := Run(s[1..]);
      if k == 0 then None else Some((DigitsOf(s[1..], k), s[1..][k..]))
  }

  function ReadExponent(s: string): (r: Option<(int, string)>)
    ensures r.Some? ==> |r.value.1| <= |s|
  {
    if !StartsWith(s, 'e') && !StartsWith(s, 'E') then Some((0, s))
    else
      var neg, signed := StartsWith(s[1..], '-'), StartsWith(s[1..], '-') || StartsWith(s[1..], '+');
      var t := if signed then s[2..] else s[1..];
      var k := Run(t);
      if k == 0 then None else Some((if neg then 0 - N.Value(DigitsOf(t, k)) else N.Value(DigitsOf(t, k)), t[k..]))
  }

  function ReadMagnitude(neg: bool, s: string): (r: Option<(N.Number, string)>)
    ensures r.Some? ==> |r.value.1| < |s|
  {
    var k := Run(s);
    if k == 0 || (k > 1 && s[0] == '0') then None
    else
      match ReadFraction(s[k..])
      case None => None
      case Some((fraction, t)) =>
        match ReadExponent(t)
        case None => None
        case Some((exp, u)) => Some((N.Number(neg, DigitsOf(s, k), fraction, exp), u))
  }

  function ReadNumber(s: string): (r: Option<(N.Number, string)>)
    ensures r.Some? ==> |r.value.1| < |s|
  {
    if StartsWith(s, '-') then ReadMagnitude(true, s[1..]) else ReadMagnitude(false, s)
  }

  // ----- strings -------------------------------------------------------------

  function HexValue(c: char): (r: Option<int>)
    ensures r.Some? ==> 0 <= r.value < 16
  {
    if '0' <= c <= '9' then Some(c as int - '0' as int)
    else if 'a' <= c <= 'f' then Some(c as int - 'a' as int + 10)
    else if 'A' <= c <= 'F' then Some(c as int - 'A' as int + 10)
    else None
  }

  function HexFour(s: string): (r: Option<int>)
    requires |s| == 4
    ensures r.Some? ==> 0 <= r.value < 0x10000
  {
    var a, b, c, d := HexValue(s[0]), HexValue(s[1]), HexValue(s[2]), HexValue(s[3]);
    if a.Some? && b.Some? && c.Some? && d.Some? then Some(4096 * a.value + 256 * b.value + 16 * c.value + d.value)
    else None
  }

  predicate HighHalf(u: int) { 0xd800 <= u <= 0xdbff }

  predicate LowHalf(u: int) { 0xdc00 <= u <= 0xdfff }

  /** The character of one code unit; a lone surrogate reads as the replacement character. */
  function Rune(u: int): char
    requires 0 <= u < 0x10000
  {
    if HighHalf(u) || LowHalf(u) then '\U{fffd}' else u as char
  }

  function Pair(high: int, low: int): char
    requires HighHalf(high) && LowHalf(low)
  {
    (0x10000 + (high - 0xd800) * 0x400 + (low - 0xdc00)) as char
  }

  /** The code unit of a \u escape at the head of the text. */
  function UnicodeEscape(s: string): Option<int> {
    if |s| < 6 || s[0] != '\\' || s[1] != 'u' then None else HexFour(s[2..6])
  }

  /** The character a short escape stands for. */
  function ShortEscape(c: char): Option<char> {
    if c == '"' || c == '\\' || c == '/' then Some(c)
    else if c == 'b' then Some(8 as char)
    else if c == 'f' then Some(12 as char)
    else if c == 'n' then Some('\n')
    else if c == 'r' then Some('\r')
    else if c == 't' then Some('\t')
    else None
  }

  /** One character of a string and the text after it. */
  function ReadChar(s: string): (r: Option<(char, string)>)
    requires s != ""
    ensures r.Some? ==> |r.value.1| < |s|
  {
    if (s[0] as int) < 0x20 then None
    else if s[0] != '\\' then Some((s[0], s[1..]))
    else if |s| >= 2 && ShortEscape(s[1]).Some? then Some((ShortEscape(s[1]).value, s[2..]))
    else
      match UnicodeEscape(s)
      case None => None
      case Some(u) =>
        var low := UnicodeEscape(s[6..]);
        if HighHalf(u) && low.Some? && LowHalf(low.value) then Some((Pair(u, low.value), s[12..]))
        else Some((Rune(u), s[6..]))
  }

  /** The rest of a string after its opening quote, and the text after its closing one. */
  function ReadString(s: string): (r: Option<(string, string)>)
    ensures r.Some? ==> |r.value.1| < |s|
    decreases |s|
  {
    if s == "" then None
    else if s[0] == '"' then Some(("", s[1..]))
    else
      match ReadChar(s)
      case None => None
      case Some((c, t)) =>
        match ReadString(t)
        case None => None
        case Some((cs, u)) => Some(([c] + cs, u))
  }

  // ----- values --------------------------------------------------------------

  function ReadWord(s: string, word: string, j: Json): (r: Option<(Json, string)>)
    requires word != ""
    ensures r.Some? ==> |r.value.1| < |s|
  {
    if word <= s then Some((j, s[|word|..])) else None
  }

  function ReadAtom(s: string): (r: Option<(Json, string)>)
    ensures r.Some? ==> |r.value.1| < |s|
  {
    if StartsWith(s, 'n') then ReadWord(s, "null", Null)
    else if StartsWith(s, 't') then ReadWord(s, "true", Bool(true))
    else if StartsWith(s, 'f') then ReadWord(s, "false", Bool(false))
    else
      match ReadNumber(s)
      case None => None
      case Some((n, t)) => Some((Num(n), t))
  }

  function ReadValue(s: string): (r: Option<(Json, string)>)
    ensures r.Some? ==> |r.value.1| < |s|
    decreases |s|, 1
  {
    var t := Skip(s);
    if t == "" then None
    else if t[0] == '"' then
      match ReadString(t[1..])
      case None => None
      case Some((cs, u)) => Some((Str(cs), u))
    else if t[0] == '[' then
      var u := Skip(t[1..]);
      if StartsWith(u, ']') then Some((Arr([]), u[1..]))
      else
        match ReadItems(u)
        case None => None
        case Some((xs, v)) => Some((Arr(xs), v))
    else if t[0] == '{' then
      var u := Skip(t[1..]);
      if StartsWith(u, '}') then Some((Obj([]), u[1..]))
      else
        match ReadMembers(u)
        case None => None
        case Some((ms, v)) => Some((Obj(ms), v))
    else ReadAtom(t)
  }

  function ReadItems(s: string): (r: Option<(seq<Json>, string)>)
    ensures r.Some? ==> |r.value.1| < |s|
    decreases |s|, 2
  {
    match ReadValue(s)
    case None => None
    case Some((x, t)) =>
      var u := Skip(t);
      if StartsWith(u, ']') then Some(([x], u[1..]))
      else if !StartsWith(u, ',') then None
      else
        match ReadItems(u[1..])
        case None => None
        case Some((xs, v)) => Some(([x] + xs, v))
  }

  /** A key, its colon and the text of its value. */
  function ReadKey(s: string): (r: Option<(string, string)>)
    ensures r.Some? ==> |r.value.1| < |s|
  {
    var t := Skip(s);
    if !StartsWith(t, '"') then None
    else
      match ReadString(t[1..])
      case None => None
      case Some((key, u)) =>
        var v := Skip(u);
        if StartsWith(v, ':') then Some((key, v[1..])) else None
  }

  function ReadMembers(s: string): (r: Option<(seq<Member>, string)>)
    ensures r.Some? ==> |r.value.1| < |s|
    decreases |s|, 2
  {
    match ReadKey(s)
    case None => None
    case Some((key, t)) =>
      match ReadValue(t)
      case None => None
      case Some((x, u)) =>
        var v := Skip(u);
        if StartsWith(v, '}') then Some(([Member(key, x)], v[1..]))
        else if !StartsWith(v, ',') then None
        else
          match ReadMembers(v[1..])
          case None => None
          case Some((ms, w)) => Some(([Member(key, x)] + ms, w))
  }

  /** The document of a text: one value with nothing but space around it. */
  function Parse(s: string): Option<Json> {
    match ReadValue(s)
    case None => None
    case Some((j, t)) => if Skip(t) == "" then Some(j) else None
  }

  // ----- printed strings read back -------------------------------------------

  lemma Assoc(a: string, b: string, c: string)
    ensures a + b + c == a + (b + c)
  {
  }

  lemma Bracketed(a: string, body: string, b: string, rest: string)
    requires |a| == 1
    ensures var s := a + body + b + rest; s != "" && s[0] == a[0] && s[1..] == body + b + rest
  {
  }

  lemma HexRead(d: int)
    requires 0 <= d < 16
    ensures HexValue(Hex(d)) == Some(d)
  {
  }

  lemma EscapeRead(c: char, t: string)
    ensures Escape(c) != "" && Escape(c)[0] != '"'
    ensures ReadChar(Escape(c) + t) == Some((c, t))
  {
    var e := Escape(c);
    if |e| == 6 {
      var high, low := c as int / 16, c as int % 16;
      HexRead(high);
      HexRead(low);
      HexRead(0);
      assert e == ['\\', 'u', '0', '0', Hex(high), Hex(low)];
      assert (e + t)[2..6] == ['0', '0', Hex(high), Hex(low)];
      assert (e + t)[6..] == t;
    } else if |e| == 2 {
      assert (e + t)[2..] == t;
    } else {
      assert (e + t)[1..] == t;
    }
  }

  /** Unescaping undoes escaping, for every string. */
  lemma {:induction false} QuoteReadBack(s: string, rest: string)
    ensures ReadString(EscapeAll(s) + "\"" + rest) == Some((s, rest))
  {
    if s == "" {
      assert EscapeAll(s) + "\"" + rest == "\"" + rest;
      assert ("\"" + rest)[1..] == rest;
    } else {
      var t := EscapeAll(s[1..]) + "\"" + rest;
      Assoc(Escape(s[0]), EscapeAll(s[1..]), "\"");
      Assoc(Escape(s[0]), EscapeAll(s[1..]) + "\"", rest);
      EscapeRead(s[0], t);
      QuoteReadBack(s[1..], rest);
      assert [s[0]] + s[1..] == s;
    }
  }

  // ----- printed numbers read back -------------------------------------------

  /** What may follow a number. */
  predicate Ends(rest: string) {
    rest == "" || (!IsDigit(rest[0]) && rest[0] != '.' && rest[0] != 'e' && rest[0] != 'E')
  }

  lemma {:induction false} RunOfDigits(ds: seq<N.Digit>, t: string)
    requires t == "" || !IsDigit(t[0])
    ensures Run(Digits(ds) + t) == |ds|
  {
    if ds == [] {
      assert Digits(ds) + t == t;
    } else {
      assert (Digits(ds) + t)[1..] == Digits(ds[1..]) + t;
      RunOfDigits(ds[1..], t);
    }
  }

  lemma DigitsReadBack(ds: seq<N.Digit>, t: string)
    requires t == "" || !IsDigit(t[0])
    ensures var s := Digits(ds) + t; Run(s) == |ds| && DigitsOf(s, |ds|) == ds && s[|ds|..] == t
  {
    RunOfDigits(ds, t);
  }

  lemma FractionReadBack(ds: seq<N.Digit>, rest: string)
    requires Ends(rest)
    ensures var t := (if ds == [] then "" else "." + Digits(ds)) + rest;
            (t == "" || !IsDigit(t[0])) && ReadFraction(t) == Some((ds, rest))
  {
    var t := (if ds == [] then "" else "." + Digits(ds)) + rest;
    if ds == [] {
      assert t == rest;
    } else {
      assert t[1..] == Digits(ds) + rest;
      DigitsReadBack(ds, rest);
    }
  }

  lemma MagnitudeReadBack(n: N.Number, rest: string)
    requires N.Literal(n) && n.exp == 0 && Ends(rest)
    ensures var s := Digits(n.integer) + ((if n.fraction == [] then "" else "." + Digits(n.fraction)) + rest);
            s != "" && IsDigit(s[0]) && ReadMagnitude(n.neg, s) == Some((n, rest))
  {
    var t := (if n.fraction == [] then "" else "." + Digits(n.fraction)) + rest;
    FractionReadBack(n.fraction, rest);
    DigitsReadBack(n.integer, t);
    assert Digits(n.integer)[0] == '0' ==> n.integer[0] == 0;
  }

  lemma PrintedNumber(n: N.Number, rest: string)
    ensures PrintNumber(n) + rest ==
            (if n.neg then "-" else "") +
            (Digits(n.integer) + ((if n.fraction == [] then "" else "." + Digits(n.fraction)) + rest))
  {
  }

  lemma NumberReadBack(n: N.Number, rest: string)
    requires N.Literal(n) && n.exp == 0 && Ends(rest)
    ensures var s := PrintNumber(n) + rest;
            s != "" && (IsDigit(s[0]) || s[0] == '-') && ReadNumber(s) == Some((n, rest))
  {
    var m := Digits(n.integer) + ((if n.fraction == [] then "" else "." + Digits(n.fraction)) + rest);
    MagnitudeReadBack(n, rest);
    PrintedNumber(n, rest);
    SignReadBack(n.neg, m);
  }

  lemma SignReadBack(neg: bool, m: string)
    requires m != "" && IsDigit(m[0])
    ensures var s := (if neg then "-" else "") + m;
            s != "" && (IsDigit(s[0]) || s[0] == '-') && ReadNumber(s) == ReadMagnitude(neg, m)
  {
    if neg {
      assert ("-" + m)[1..] == m;
    } else {
      assert "" + m == m;
    }
  }

  // ----- printed documents read back -----------------------------------------

  /** A printed value starts with a character that is neither space nor a closing bracket. */
  lemma PrintStarts(j: Json)
    requires Expanded(j)
    ensures Print(j) != "" && !Space(Print(j)[0]) && Print(j)[0] != ']' && Print(j)[0] != '}'
  {
    if j.Num? {
      NumberReadBack(j.number, "");
      assert PrintNumber(j.number) + "" == PrintNumber(j.number);
    }
  }

  // One step of the reader on a text that starts with the value itself.

  lemma StringValue(s: string, cs: string, rest: string)
    requires StartsWith(s, '"') && ReadString(s[1..]) == Some((cs, rest))
    ensures ReadValue(s) == Some((Str(cs), rest))
  {
    assert Skip(s) == s;
  }

  lemma NumberValue(s: string, n: N.Number, rest: string)
    requires s != "" && (IsDigit(s[0]) || s[0] == '-') && ReadNumber(s) == Some((n, rest))
    ensures ReadValue(s) == Some((Num(n), rest))
  {
    AtomValue(s);
    NumberAtom(s, n, rest);
  }

  lemma AtomValue(s: string)
    requires s != "" && (IsDigit(s[0]) || s[0] == '-')
    ensures ReadValue(s) == ReadAtom(s)
  {
    assert Skip(s) == s;
  }

  lemma NumberAtom(s: string, n: N.Number, rest: string)
    requires s != "" && (IsDigit(s[0]) || s[0] == '-') && ReadNumber(s) == Some((n, rest))
    ensures ReadAtom(s) == Some((Num(n), rest))
  {
  }

  lemma ArrayValue(s: string, items: seq<Json>, rest: string)
    requires StartsWith(s, '[') && Skip(s[1..]) == s[1..]
    requires if items == [] then StartsWith(s[1..], ']') && s[1..][1..] == rest
             else !StartsWith(s[1..], ']') && ReadItems(s[1..]) == Some((items, rest))
    ensures ReadValue(s) == Some((Arr(items), rest))
  {
    assert Skip(s) == s;
  }

  lemma ObjectValue(s: string, members: seq<Member>, rest: string)
    requires StartsWith(s, '{') && Skip(s[1..]) == s[1..]
    requires if members == [] then StartsWith(s[1..], '}') && s[1..][1..] == rest
             else !StartsWith(s[1..], '}') && ReadMembers(s[1..]) == Some((members, rest))
    ensures ReadValue(s) == Some((Obj(members), rest))
  {
    assert Skip(s) == s;
  }

  lemma KeyValue(s: string, key: string, t: string)
    requires StartsWith(s, '"') && ReadString(s[1..]) == Some((key, t)) && StartsWith(t, ':')
    ensures ReadKey(s) == Some((key, t[1..]))
  {
    assert Skip(s) == s && Skip(t) == t;
  }

  lemma ItemsLast(s: string, x: Json, t: string)
    requires ReadValue(s) == Some((x, t)) && StartsWith(t, ']')
    ensures ReadItems(s) == Some(([x], t[1..]))
  {
    assert Skip(t) == t;
  }

  lemma ItemsMore(s: string, x: Json, t: string, xs: seq<Json>, rest: string)
    requires ReadValue(s) == Some((x, t)) && StartsWith(t, ',') && ReadItems(t[1..]) == Some((xs, rest))
    ensures ReadItems(s) == Some(([x] + xs, rest))
  {
    assert Skip(t) == t;
  }

  lemma MembersLast(s: string, key: string, t: string, x: Json, u: string)
    requires ReadKey(s) == Some((key, t)) && ReadValue(t) == Some((x, u)) && StartsWith(u, '}')
    ensures ReadMembers(s) == Some(([Member(key, x)], u[1..]))
  {
    assert Skip(u) == u;
  }

  lemma MembersMore(s: string, key: string, t: string, x: Json, u: string, ms: seq<Member>, rest: string)
    requires ReadKey(s) == Some((key, t)) && ReadValue(t) == Some((x, u)) && StartsWith(u, ',')
             && ReadMembers(u[1..]) == Some((ms, rest))
    ensures ReadMembers(s) == Some(([Member(key, x)] + ms, rest))
  {
    assert Skip(u) == u;
  }

  lemma WordReadBack(j: Json, rest: string)
    requires j.Null? || j.Bool?
    ensures ReadValue(Print(j) + rest) == Some((j, rest))
  {
    var s := Print(j) + rest;
    assert s[0] == Print(j)[0] && Skip(s) == s;
    assert Print(j) <= s && s[|Print(j)|..] == rest;
  }

  lemma StringReadBack(cs: string, rest: string)
    ensures ReadValue(Quote(cs) + rest) == Some((Str(cs), rest))
  {
    QuoteReadBack(cs, rest);
    Bracketed("\"", EscapeAll(cs), "\"", rest);
    StringValue(Quote(cs) + rest, cs, rest);
  }

  /** Reading what was printed gives the document back, with the rest of the text left over. */
  lemma {:induction false} ValueReadBack(j: Json, rest: string)
    requires Expanded(j) && Ends(rest)
    ensures ReadValue(Print(j) + rest) == Some((j, rest))
    decreases j, 1
  {
    match j {
      case Null => WordReadBack(j, rest);
      case Bool(_) => WordReadBack(j, rest);
      case Str(cs) => StringReadBack(cs, rest);
      case Num(n) =>
        NumberReadBack(n, rest);
        NumberValue(PrintNumber(n) + rest, n, rest);
      case Arr(items) =>
        ArrayReadBack(items, rest);
        Bracketed("[", PrintItems(items), "]", rest);
        ArrayValue("[" + PrintItems(items) + "]" + rest, items, rest);
      case Obj(members) =>
        ObjectReadBack(members, rest);
        Bracketed("{", PrintMembers(members), "}", rest);
        ObjectValue("{" + PrintMembers(members) + "}" + rest, members, rest);
    }
  }

  lemma {:induction false} ArrayReadBack(items: seq<Json>, rest: string)
    requires ExpandedItems(items)
    ensures var s := PrintItems(items) + "]" + rest;
            && Skip(s) == s
            && if items == [] then StartsWith(s, ']') && s[1..] == rest
               else !StartsWith(s, ']') && ReadItems(s) == Some((items, rest))
    decreases items, 1
  {
    var s := PrintItems(items) + "]" + rest;
    if items == [] {
      assert s == "]" + rest && s[1..] == rest;
    } else {
      PrintStarts(items[0]);
      assert s[0] == Print(items[0])[0];
      ItemsReadBack(items, rest);
    }
  }

  lemma SpaceBefore(s: string)
    ensures ReadValue(" " + s) == ReadValue(s) && ReadItems(" " + s) == ReadItems(s)
    ensures ReadKey(" " + s) == ReadKey(s) && ReadMembers(" " + s) == ReadMembers(s)
  {
    assert (" " + s)[1..] == s;
    assert Skip(" " + s) == Skip(s);
  }

  /** What follows a printed element: the closing bracket, or a comma, a space and the next ones. */
  function Onward(last: bool, close: string, more: string, rest: string): string {
    if last then close + rest else "," + (" " + (more + close + rest))
  }

  /** An element, its separator and what follows, regrouped. */
  lemma Regroup(v: string, last: bool, more: string, close: string, rest: string)
    requires last ==> more == ""
    ensures v + (if last then "" else ", ") + more + close + rest == v + Onward(last, close, more, rest)
  {
    var tail := more + close + rest;
    var sep := if last then "" else ", ";
    Assoc(v + sep, more, close);
    Assoc(v + sep, more + close, rest);
    Assoc(v, sep, tail);
    if last {
      assert sep + tail == close + rest by { assert more + close == close; }
    } else {
      Assoc(",", " ", tail);
      assert sep == "," + " ";
    }
  }

  lemma ItemsText(items: seq<Json>, rest: string)
    requires items != []
    ensures PrintItems(items) + "]" + rest == Print(items[0]) + Onward(|items| == 1, "]", PrintItems(items[1..]), rest)
  {
    Regroup(Print(items[0]), |items| == 1, PrintItems(items[1..]), "]", rest);
  }

  lemma OnwardStarts(last: bool, close: string, more: string, rest: string)
    requires close == "]" || close == "}"
    ensures var t := Onward(last, close, more, rest);
            && Ends(t) && StartsWith(t, if last then close[0] else ',')
            && t[1..] == if last then rest else " " + (more + close + rest)
  {
  }

  lemma ItemsJoin(s: string, x: Json, xs: seq<Json>, more: string, rest: string)
    requires ReadValue(s) == Some((x, Onward(xs == [], "]", more, rest)))
    requires xs != [] ==> ReadItems(more + "]" + rest) == Some((xs, rest))
    ensures ReadItems(s) == Some(([x] + xs, rest))
  {
    var t := Onward(xs == [], "]", more, rest);
    OnwardStarts(xs == [], "]", more, rest);
    if xs == [] {
      ItemsLast(s, x, t);
      assert [x] + xs == [x];
    } else {
      SpaceBefore(more + "]" + rest);
      ItemsMore(s, x, t, xs, rest);
    }
  }

  lemma {:induction false} ItemsReadBack(items: seq<Json>, rest: string)
    requires items != [] && ExpandedItems(items)
    ensures ReadItems(PrintItems(items) + "]" + rest) == Some((items, rest))
    decreases items, 0
  {
    var x, xs := items[0], items[1..];
    assert (|items| == 1) == (xs == []) && items == [x] + xs;
    ItemsText(items, rest);
    OnwardStarts(xs == [], "]", PrintItems(xs), rest);
    ValueReadBack(x, Onward(xs == [], "]", PrintItems(xs), rest));
    if xs != [] { ItemsReadBack(xs, rest); }
    ItemsJoin(PrintItems(items) + "]" + rest, x, xs, PrintItems(xs), rest);
  }

  lemma {:induction false} ObjectReadBack(members: seq<Member>, rest: string)
    requires ExpandedMembers(members)
    ensures var s := PrintMembers(members) + "}" + rest;
            && Skip(s) == s
            && if members == [] then StartsWith(s, '}') && s[1..] == rest
               else !StartsWith(s, '}') && ReadMembers(s) == Some((members, rest))
    decreases members, 1
  {
    var s := PrintMembers(members) + "}" + rest;
    if members == [] {
      assert s == "}" + rest && s[1..] == rest;
    } else {
      assert s[0] == '"';
      MembersReadBack(members, rest);
    }
  }

  lemma KeyReadBack(key: string, t: string)
    ensures ReadKey(Quote(key) + ": " + t) == Some((key, " " + t))
  {
    Assoc(Quote(key), ": ", t);
    Bracketed("\"", EscapeAll(key), "\"", ": " + t);
    QuoteReadBack(key, ": " + t);
    KeyValue(Quote(key) + (": " + t), key, ": " + t);
    assert (": " + t)[1..] == " " + t;
  }

  lemma MembersText(members: seq<Member>, rest: string)
    requires members != []
    ensures PrintMembers(members) + "}" + rest ==
            Quote(members[0].key) + ": " +
                (Print(members[0].value) + Onward(|members| == 1, "}", PrintMembers(members[1..]), rest))
  {
    var q, v := Quote(members[0].key) + ": ", Print(members[0].value);
    Regroup(q + v, |members| == 1, PrintMembers(members[1..]), "}", rest);
    Assoc(q, v, Onward(|members| == 1, "}", PrintMembers(members[1..]), rest));
  }

  lemma {:induction false} MemberReadBack(m: Member, t: string) returns (u: string)
    requires Expanded(m.value) && Ends(t)
    ensures ReadKey(Quote(m.key) + ": " + (Print(m.value) + t)) == Some((m.key, u))
            && ReadValue(u) == Some((m.value, t))
    decreases m, 0
  {
    u := " " + (Print(m.value) + t);
    KeyReadBack(m.key, Print(m.value) + t);
    SpaceBefore(Print(m.value) + t);
    ValueReadBack(m.value, t);
  }

  lemma MembersJoin(s: string, m: Member, u: string, ms: seq<Member>, more: string, rest: string)
    requires ReadKey(s) == Some((m.key, u)) && ReadValue(u) == Some((m.value, Onward(ms == [], "}", more, rest)))
    requires ms != [] ==> ReadMembers(more + "}" + rest) == Some((ms, rest))
    ensures ReadMembers(s) == Some(([m] + ms, rest))
  {
    var t := Onward(ms == [], "}", more, rest);
    OnwardStarts(ms == [], "}", more, rest);
    if ms == [] {
      MembersLast(s, m.key, u, m.value, t);
      assert [m] + ms == [m];
    } else {
      SpaceBefore(more + "}" + rest);
      MembersMore(s, m.key, u, m.value, t, ms, rest);
    }
  }

  lemma {:induction false} MembersReadBack(members: seq<Member>, rest: string)
    requires members != [] && ExpandedMembers(members)
    ensures ReadMembers(PrintMembers(members) + "}" + rest) == Some((members, rest))
    decreases members, 0
  {
    var m, ms := members[0], members[1..];
    assert (|members| == 1) == (ms == []) && members == [m] + ms;
    MembersText(members, rest);
    OnwardStarts(ms == [], "}", PrintMembers(ms), rest);
    var u := MemberReadBack(m, Onward(ms == [], "}", PrintMembers(ms), rest));
    if ms != [] { MembersReadBack(ms, rest); }
    MembersJoin(PrintMembers(members) + "}" + rest, m, u, ms, PrintMembers(ms), rest);
  }

  /** Parsing undoes printing, for every document without exponents. */
  lemma PrintedParses(j: Json)
    requires Expanded(j)
    ensures Parse(Print(j)) == Some(j)
  {
    ValueReadBack(j, "");
    assert Print(j) + "" == Print(j);
  }
}
