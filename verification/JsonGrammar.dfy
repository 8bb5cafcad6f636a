/** The grammar of JSON text (RFC 8259), as the ways a document can be spelled:
    any white space, any escape for a character, any form of a number.  The
    reader accepts exactly the texts that spell a document, and reads each as
    that document.

    A spelling is written with what follows it, so that texts need no regrouping. */
module JsonGrammar {
  import opened Wrappers
  import opened JsonbBudget
  import opened JsonText
  import N = JsonNumber

  // ----- spellings -----------------------------------------------------------

  /** One piece of a string: a character as it is, a short escape, or the four digits of a \u escape. */
  datatype Glyph = Plain(c: char) | Short(c: char) | Unit(h: string)

  /** A number: `fraction` is empty without a decimal point. */
  datatype Figure = Figure(neg: bool, integer: string, fraction: string, exponent: Option<Exponent>)

  datatype Exponent = Exponent(mark: char, sign: string, digits: string)

  datatype Layout =
    | NullWord
    | BoolWord(b: bool)
    | Quoted(glyphs: seq<Glyph>)
    | Numeric(figure: Figure)
    | Brackets(blank: string, items: seq<Item>)
    | Braces(blank: string, pairs: seq<Pair>)

  /** A value with the space around it. */
  datatype Item = Item(before: string, value: Layout, after: string)

  datatype Pair = Pair(before: string, key: seq<Glyph>, after: string, item: Item)

  predicate Blank(s: string) {
    forall c <- s :: c in {' ', '\t', '\n', '\r'}
  }

  predicate AllDigits(s: string) {
    forall i :: 0 <= i < |s| ==> '0' <= s[i] <= '9'
  }

  predicate HexChar(c: char) {
    '0' <= c <= '9' || 'a' <= c <= 'f' || 'A' <= c <= 'F'
  }

  predicate GlyphOk(g: Glyph) {
    match g
    case Plain(c) => c as int >= 0x20 && c != '"' && c != '\\'
    case Short(c) => c in {'"', '\\', '/', 'b', 'f', 'n', 'r', 't'}
    case Unit(h) => |h| == 4 && HexChar(h[0]) && HexChar(h[1]) && HexChar(h[2]) && HexChar(h[3])
  }

  predicate GlyphsOk(gs: seq<Glyph>) {
    gs == [] || (GlyphOk(gs[0]) && GlyphsOk(gs[1..]))
  }

  predicate FigureOk(f: Figure) {
    && f.integer != "" && AllDigits(f.integer) && (|f.integer| > 1 ==> f.integer[0] != '0') && AllDigits(f.fraction)
    && (f.exponent.Some? ==>
          && f.exponent.value.mark in {'e', 'E'} && f.exponent.value.sign in {"", "+", "-"}
          && f.exponent.value.digits != "" && AllDigits(f.exponent.value.digits))
  }

  predicate LayoutOk(v: Layout)
    decreases v, 1
  {
    match v
    case Quoted(gs) => GlyphsOk(gs)
    case Numeric(f) => FigureOk(f)
    case Brackets(blank, items) => Blank(blank) && ItemsOk(items)
    case Braces(blank, pairs) => Blank(blank) && PairsOk(pairs)
    case _ => true
  }

  predicate ItemsOk(items: seq<Item>)
    decreases items, 0
  {
    items == [] || (SpacedOk(items[0]) && LayoutOk(items[0].value) && ItemsOk(items[1..]))
  }

  predicate SpacedOk(x: Item) {
    Blank(x.before) && Blank(x.after)
  }

  predicate PairsOk(pairs: seq<Pair>)
    decreases pairs, 0
  {
    pairs == [] || (PairOk(pairs[0]) && LayoutOk(pairs[0].item.value) && PairsOk(pairs[1..]))
  }

  predicate PairOk(p: Pair) {
    Blank(p.before) && GlyphsOk(p.key) && Blank(p.after) && SpacedOk(p.item)
  }

  // ----- texts ---------------------------------------------------------------

  function SpellGlyph(g: Glyph, rest: string): string
    requires GlyphOk(g)
  {
    match g
    case Plain(c) => [c] + rest
    case Short(c) => ['\\', c] + rest
    case Unit(h) => ['\\', 'u', h[0], h[1], h[2], h[3]] + rest
  }

  /** The inside of a string and its closing quote. */
  function SpellString(gs: seq<Glyph>, rest: string): string
    requires GlyphsOk(gs)
  {
    if gs == [] then "\"" + rest else SpellGlyph(gs[0], SpellString(gs[1..], rest))
  }

  function SpellExponent(e: Option<Exponent>, rest: string): string {
    if e.None? then rest else [e.value.mark] + (e.value.sign + (e.value.digits + rest))
  }

  function SpellFraction(fraction: string, rest: string): string {
    if fraction == "" then rest else "." + (fraction + rest)
  }

  function SpellMagnitude(f: Figure, rest: string): string {
    f.integer + SpellFraction(f.fraction, SpellExponent(f.exponent, rest))
  }

  function SpellFigure(f: Figure, rest: string): string {
    (if f.neg then "-" else "") + SpellMagnitude(f, rest)
  }

  function Spell(v: Layout, rest: string): string
    requires LayoutOk(v)
    decreases v, 1
  {
    match v
    case NullWord => "null" + rest
    case BoolWord(b) => (if b then "true" else "false") + rest
    case Quoted(gs) => "\"" + SpellString(gs, rest)
    case Numeric(f) => SpellFigure(f, rest)
    case Brackets(blank, items) => "[" + if items == [] then blank + ("]" + rest) else SpellItems(items, rest)
    case Braces(blank, pairs) => "{" + if pairs == [] then blank + ("}" + rest) else SpellPairs(pairs, rest)
  }

  function SpellItems(items: seq<Item>, rest: string): string
    requires items != [] && ItemsOk(items)
    decreases items, 0
  {
    var x, onward := items[0], if |items| == 1 then "]" + rest else "," + SpellItems(items[1..], rest);
    x.before + Spell(x.value, x.after + onward)
  }

  function SpellPairs(pairs: seq<Pair>, rest: string): string
    requires pairs != [] && PairsOk(pairs)
    decreases pairs, 0
  {
    var x, onward := pairs[0].item, if |pairs| == 1 then "}" + rest else "," + SpellPairs(pairs[1..], rest);
    SpellKey(pairs[0], x.before + Spell(x.value, x.after + onward))
  }

  function SpellKey(p: Pair, rest: string): string
    requires PairOk(p)
  {
    p.before + ("\"" + SpellString(p.key, p.after + (":" + rest)))
  }

  // ----- meanings ------------------------------------------------------------

  function HexOf(c: char): (d: int)
    requires HexChar(c)
    ensures 0 <= d < 16
  {
    if c <= '9' then c as int - 48 else if c <= 'F' then c as int - 55 else c as int - 87
  }

  /** The UTF-16 code unit of a \u escape. */
  function CodeUnit(g: Glyph): (u: int)
    requires GlyphOk(g) && g.Unit?
    ensures 0 <= u < 0x10000
  {
    HexOf(g.h[0]) * 0x1000 + HexOf(g.h[1]) * 0x100 + HexOf(g.h[2]) * 0x10 + HexOf(g.h[3])
  }

  predicate HighUnit(g: Glyph) {
    GlyphOk(g) && g.Unit? && 0xd800 <= CodeUnit(g) < 0xdc00
  }

  predicate LowUnit(g: Glyph) {
    GlyphOk(g) && g.Unit? && 0xdc00 <= CodeUnit(g) < 0xe000
  }

  /** The character of one piece; half a surrogate pair alone stands for the replacement character. */
  function CharOf(g: Glyph): char
    requires GlyphOk(g)
  {
    match g
    case Plain(c) => c
    case Short(c) =>
      if c == 'b' then 8 as char else if c == 'f' then 12 as char else if c == 'n' then 10 as char
      else if c == 'r' then 13 as char else if c == 't' then 9 as char else c
    case Unit(_) => if HighUnit(g) || LowUnit(g) then 0xfffd as char else CodeUnit(g) as char
  }

  function StringOf(gs: seq<Glyph>): string
    requires GlyphsOk(gs)
  {
    if gs == [] then ""
    else if |gs| >= 2 && HighUnit(gs[0]) && LowUnit(gs[1]) then
      assert GlyphsOk(gs[1..]) && gs[1..][1..] == gs[2..];
      [(0x10000 + (CodeUnit(gs[0]) - 0xd800) * 1024 + (CodeUnit(gs[1]) - 0xdc00)) as char] + StringOf(gs[2..])
    else [CharOf(gs[0])] + StringOf(gs[1..])
  }

  function Figures(s: string): seq<N.Digit>
    requires AllDigits(s)
  {
    seq(|s|, i requires 0 <= i < |s| => s[i] as int - 48)
  }

  function Scale(e: Exponent): int
    requires AllDigits(e.digits)
  {
    if e.sign == "-" then 0 - N.Value(Figures(e.digits)) else N.Value(Figures(e.digits))
  }

  function NumberOf(f: Figure): N.Number
    requires FigureOk(f)
  {
    N.Number(f.neg, Figures(f.integer), Figures(f.fraction), if f.exponent.None? then 0 else Scale(f.exponent.value))
  }

  function Meaning(v: Layout): Json
    requires LayoutOk(v)
    decreases v, 1
  {
    match v
    case NullWord => Null
    case BoolWord(b) => Bool(b)
    case Quoted(gs) => Str(StringOf(gs))
    case Numeric(f) => Num(NumberOf(f))
    case Brackets(_, items) => Arr(ItemsOf(items))
    case Braces(_, pairs) => Obj(MembersOf(pairs))
  }

  function ItemsOf(items: seq<Item>): seq<Json>
    requires ItemsOk(items)
    decreases items, 0
  {
    if items == [] then [] else [Meaning(items[0].value)] + ItemsOf(items[1..])
  }

  function MembersOf(pairs: seq<Pair>): seq<Member>
    requires PairsOk(pairs)
    decreases pairs, 0
  {
    if pairs == [] then []
    else [Member(StringOf(pairs[0].key), Meaning(pairs[0].item.value))] + MembersOf(pairs[1..])
  }

  /** The text spells the document, with nothing but space around it. */
  ghost predicate Spells(d: Item, text: string, j: Json) {
    SpacedOk(d) && LayoutOk(d.value) && text == d.before + Spell(d.value, d.after) && Meaning(d.value) == j
  }

  // ----- spelled strings are read --------------------------------------------

  lemma HexReads(c: char)
    ensures HexValue(c) == if HexChar(c) then Some(HexOf(c)) else None
  {
  }

  lemma UnitReads(h: string, rest: string)
    requires GlyphOk(Unit(h))
    ensures UnicodeEscape(SpellGlyph(Unit(h), rest)) == Some(CodeUnit(Unit(h)))
    ensures SpellGlyph(Unit(h), rest)[6..] == rest
  {
    var s := SpellGlyph(Unit(h), rest);
    assert s[2..6] == h;
    HexReads(h[0]);
    HexReads(h[1]);
    HexReads(h[2]);
    HexReads(h[3]);
  }

  /** A text that continues a string starts with a low \u escape exactly if the next piece is one. */
  lemma NextUnit(gs: seq<Glyph>, rest: string)
    requires GlyphsOk(gs)
    ensures var u := UnicodeEscape(SpellString(gs, rest));
            u == if gs != [] && gs[0].Unit? then Some(CodeUnit(gs[0])) else None
  {
    if gs != [] && gs[0].Unit? { UnitReads(gs[0].h, SpellString(gs[1..], rest)); }
  }

  lemma PairReads(g: Glyph, k: Glyph, t: string)
    requires HighUnit(g) && LowUnit(k)
    ensures ReadChar(SpellGlyph(g, SpellGlyph(k, t))) ==
            Some(((0x10000 + (CodeUnit(g) - 0xd800) * 1024 + (CodeUnit(k) - 0xdc00)) as char, t))
  {
    var s := SpellGlyph(g, SpellGlyph(k, t));
    UnitReads(g.h, SpellGlyph(k, t));
    UnitReads(k.h, t);
    assert s[12..] == s[6..][6..];
  }

  lemma SingleReads(g: Glyph, t: string)
    requires GlyphOk(g)
    requires HighUnit(g) ==> var low := UnicodeEscape(t); low.None? || !LowHalf(low.value)
    ensures ReadChar(SpellGlyph(g, t)) == Some((CharOf(g), t))
  {
    var s := SpellGlyph(g, t);
    match g {
      case Plain(c) => assert s[1..] == t;
      case Short(c) => assert s[2..] == t;
      case Unit(h) => UnitReads(h, t);
    }
  }

  lemma {:induction false} StringReads(gs: seq<Glyph>, rest: string)
    requires GlyphsOk(gs)
    ensures ReadString(SpellString(gs, rest)) == Some((StringOf(gs), rest))
    decreases |gs|
  {
    if gs == [] {
      assert ("\"" + rest)[1..] == rest;
    } else if |gs| >= 2 && HighUnit(gs[0]) && LowUnit(gs[1]) {
      assert gs[1..][1..] == gs[2..];
      PairReads(gs[0], gs[1], SpellString(gs[2..], rest));
      StringReads(gs[2..], rest);
    } else {
      NextUnit(gs[1..], rest);
      SingleReads(gs[0], SpellString(gs[1..], rest));
      StringReads(gs[1..], rest);
    }
  }

  // ----- spelled numbers are read --------------------------------------------

  lemma {:induction false} RunReads(s: string, t: string)
    requires AllDigits(s) && (t == "" || !IsDigit(t[0]))
    ensures Run(s + t) == |s|
  {
    if s == "" {
      assert s + t == t;
    } else {
      assert (s + t)[1..] == s[1..] + t;
      RunReads(s[1..], t);
    }
  }

  lemma DigitsRead(s: string, t: string)
    requires AllDigits(s) && (t == "" || !IsDigit(t[0]))
    ensures Run(s + t) == |s| && (s + t)[|s|..] == t && DigitsOf(s + t, |s|) == Figures(s)
  {
    RunReads(s, t);
    Prefixed(s, t);
    SameDigits(s + t, s);
  }

  lemma Prefixed(s: string, t: string)
    ensures (s + t)[|s|..] == t && s <= s + t
  {
  }

  lemma SameDigits(r: string, s: string)
    requires s <= r && AllDigits(s)
    ensures (forall i :: 0 <= i < |s| ==> IsDigit(r[i])) && DigitsOf(r, |s|) == Figures(s)
  {
    forall i | 0 <= i < |s| ensures r[i] == s[i] {
    }
  }

  lemma ExponentReads(e: Exponent, rest: string)
    requires e.mark in {'e', 'E'} && e.sign in {"", "+", "-"} && e.digits != "" && AllDigits(e.digits) && Ends(rest)
    ensures ReadExponent(SpellExponent(Some(e), rest)) == Some((Scale(e), rest))
  {
    var s, t := SpellExponent(Some(e), rest), e.digits + rest;
    DigitsRead(e.digits, rest);
    SignReads(e.mark, e.sign, t);
    ExponentParts(s, e.sign, t, Figures(e.digits), rest);
  }

  lemma ExponentParts(s: string, sign: string, t: string, ds: seq<N.Digit>, rest: string)
    requires (StartsWith(s, 'e') || StartsWith(s, 'E')) && sign in {"", "+", "-"}
    requires (StartsWith(s[1..], '-') <==> sign == "-") && (StartsWith(s[1..], '+') <==> sign == "+")
    requires if sign == "" then s[1..] == t else |s| >= 2 && s[2..] == t
    requires Run(t) == |ds| > 0 && DigitsOf(t, |ds|) == ds && t[|ds|..] == rest
    ensures ReadExponent(s) == Some((if sign == "-" then 0 - N.Value(ds) else N.Value(ds), rest))
  {
  }

  lemma SignReads(mark: char, sign: string, t: string)
    requires sign in {"", "+", "-"} && t != "" && IsDigit(t[0])
    ensures var s := [mark] + (sign + t);
            && s[1..] == sign + t && (StartsWith(s[1..], '-') <==> sign == "-")
            && (StartsWith(s[1..], '+') <==> sign == "+")
            && (if sign == "" then s[1..] == t else |s| >= 2 && s[2..] == t)
  {
    var s := [mark] + (sign + t);
    if sign == "" {
      assert sign + t == t;
    } else {
      assert s[2..] == t;
    }
  }

  lemma FractionReads(fraction: string, e: Option<Exponent>, rest: string)
    requires AllDigits(fraction) && Ends(rest)
    requires e.Some? ==> e.value.mark in {'e', 'E'}
    ensures var t := SpellExponent(e, rest);
            ReadFraction(SpellFraction(fraction, t)) == Some((Figures(fraction), t))
    ensures var s := SpellFraction(fraction, SpellExponent(e, rest)); s == "" || !IsDigit(s[0])
  {
    var t := SpellExponent(e, rest);
    if fraction == "" {
      assert Figures(fraction) == [];
    } else {
      assert ("." + (fraction + t))[1..] == fraction + t;
      DigitsRead(fraction, t);
    }
  }

  lemma MagnitudeReads(f: Figure, rest: string)
    requires FigureOk(f) && Ends(rest)
    ensures ReadMagnitude(f.neg, SpellMagnitude(f, rest)) == Some((NumberOf(f), rest))
    ensures SpellMagnitude(f, rest) != "" && IsDigit(SpellMagnitude(f, rest)[0])
  {
    var u := SpellExponent(f.exponent, rest);
    var t := SpellFraction(f.fraction, u);
    FractionReads(f.fraction, f.exponent, rest);
    DigitsRead(f.integer, t);
    if f.exponent.Some? { ExponentReads(f.exponent.value, rest); }
    MagnitudeParts(f.neg, f.integer + t, t, Figures(f.fraction), u, NumberOf(f).exp, rest);
  }

  lemma MagnitudeParts(neg: bool, s: string, t: string, fraction: seq<N.Digit>, u: string, exp: int, rest: string)
    requires var k := Run(s); k > 0 && (k > 1 ==> s[0] != '0') && s[k..] == t
    requires ReadFraction(t) == Some((fraction, u)) && ReadExponent(u) == Some((exp, rest))
    ensures ReadMagnitude(neg, s) == Some((N.Number(neg, DigitsOf(s, Run(s)), fraction, exp), rest))
  {
  }

  lemma FigureReads(f: Figure, rest: string)
    requires FigureOk(f) && Ends(rest)
    ensures ReadValue(SpellFigure(f, rest)) == Some((Num(NumberOf(f)), rest))
    ensures SpellFigure(f, rest) != "" && (IsDigit(SpellFigure(f, rest)[0]) || SpellFigure(f, rest)[0] == '-')
  {
    MagnitudeReads(f, rest);
    SignReadBack(f.neg, SpellMagnitude(f, rest));
    NumberValue(SpellFigure(f, rest), NumberOf(f), rest);
  }

  // ----- spelled documents are read ------------------------------------------

  lemma {:induction false} SkipBlank(b: string, s: string)
    requires Blank(b)
    ensures Skip(b + s) == Skip(s)
  {
    if b == "" {
      assert b + s == s;
    } else {
      assert (b + s)[1..] == b[1..] + s && b[0] in b && forall c <- b[1..] :: c in b;
      SkipBlank(b[1..], s);
    }
  }

  lemma {:induction false} SkipTwice(s: string)
    ensures Skip(Skip(s)) == Skip(s)
  {
    if s != "" && Space(s[0]) { SkipTwice(s[1..]); }
  }

  lemma SkippedValue(s: string)
    ensures ReadValue(Skip(s)) == ReadValue(s)
  {
    SkipTwice(s);
  }

  lemma SkippedKey(s: string)
    ensures ReadKey(Skip(s)) == ReadKey(s)
  {
    SkipTwice(s);
  }

  lemma SameItems(s: string, t: string)
    requires ReadValue(s) == ReadValue(t)
    ensures ReadItems(s) == ReadItems(t)
  {
  }

  lemma SameMembers(s: string, t: string)
    requires ReadKey(s) == ReadKey(t)
    ensures ReadMembers(s) == ReadMembers(t)
  {
  }

  /** Space before a value, a list or a key makes no difference. */
  lemma SkippedReads(s: string)
    ensures ReadValue(Skip(s)) == ReadValue(s) && ReadItems(Skip(s)) == ReadItems(s)
    ensures ReadKey(Skip(s)) == ReadKey(s) && ReadMembers(Skip(s)) == ReadMembers(s)
  {
    SkippedValue(s);
    SkippedKey(s);
    SameItems(Skip(s), s);
    SameMembers(Skip(s), s);
  }

  lemma BlankBefore(b: string, s: string)
    requires Blank(b)
    ensures ReadValue(b + s) == ReadValue(s) && ReadItems(b + s) == ReadItems(s)
    ensures ReadKey(b + s) == ReadKey(s) && ReadMembers(b + s) == ReadMembers(s)
  {
    SkipBlank(b, s);
    SkippedReads(s);
    SkippedReads(b + s);
  }

  /** Space and a separator end a number, and are skipped up to the separator. */
  lemma BlankThen(b: string, t: string)
    requires Blank(b) && t != "" && t[0] in {',', ']', '}', ':'}
    ensures Ends(b + t) && Skip(b + t) == t
  {
    SkipBlank(b, t);
    if b == "" {
      assert b + t == t;
    } else {
      assert b[0] in b;
    }
  }

  lemma BlankEnds(b: string)
    requires Blank(b)
    ensures Ends(b) && Skip(b) == ""
  {
    SkipBlank(b, "");
    assert b + "" == b;
    if b != "" { assert b[0] in b; }
  }

  /** A spelled value starts with a character that is neither space nor a closing bracket. */
  lemma SpellStarts(v: Layout, rest: string)
    requires LayoutOk(v) && Ends(rest)
    ensures Spell(v, rest) != "" && !Space(Spell(v, rest)[0]) && Spell(v, rest)[0] != ']' && Spell(v, rest)[0] != '}'
  {
    if v.Numeric? { FigureReads(v.figure, rest); }
  }

  lemma WordReads(v: Layout, rest: string)
    requires v.NullWord? || v.BoolWord?
    ensures ReadValue(Spell(v, rest)) == Some((Meaning(v), rest))
  {
    var s := Spell(v, rest);
    var word := if v.NullWord? then "null" else if v.b then "true" else "false";
    assert s[0] == word[0] && Skip(s) == s;
    assert word <= s && s[|word|..] == rest;
  }

  lemma EmptyReads(open: char, blank: string, rest: string)
    requires Blank(blank) && (open == '[' || open == '{')
    ensures var s := [open] + (blank + ([if open == '[' then ']' else '}'] + rest));
            ReadValue(s) == Some((if open == '[' then Arr([]) else Obj([]), rest))
  {
    var close := if open == '[' then ']' else '}';
    var s, t := [open] + (blank + ([close] + rest)), [close] + rest;
    assert s[1..] == blank + t && Skip(s) == s;
    BlankThen(blank, t);
    assert t[1..] == rest;
  }

  lemma BracketReads(open: char, body: string)
    requires (open == '[' || open == '{') && body != "" && !StartsWith(Skip(body), if open == '[' then ']' else '}')
    ensures var s := [open] + body;
            ReadValue(s) ==
            if open == '[' then match ReadItems(body) { case None => None case Some((xs, v)) => Some((Arr(xs), v)) }
            else match ReadMembers(body) { case None => None case Some((ms, v)) => Some((Obj(ms), v)) }
  {
    var s := [open] + body;
    assert s[1..] == body && Skip(s) == s;
    SkippedReads(body);
  }

  lemma QuotedReads(gs: seq<Glyph>, rest: string)
    requires GlyphsOk(gs)
    ensures ReadValue("\"" + SpellString(gs, rest)) == Some((Str(StringOf(gs)), rest))
  {
    var s := "\"" + SpellString(gs, rest);
    assert s[1..] == SpellString(gs, rest);
    StringReads(gs, rest);
    StringValue(s, StringOf(gs), rest);
  }

  lemma {:induction false} ValueReads(v: Layout, rest: string)
    requires LayoutOk(v) && Ends(rest)
    ensures ReadValue(Spell(v, rest)) == Some((Meaning(v), rest))
    decreases v, 1
  {
    match v {
      case NullWord => WordReads(v, rest);
      case BoolWord(_) => WordReads(v, rest);
      case Quoted(gs) => QuotedReads(gs, rest);
      case Numeric(f) => FigureReads(f, rest);
      case Brackets(blank, items) =>
        if items == [] {
          EmptyReads('[', blank, rest);
        } else {
          ItemsRead(items, rest);
          BracketReads('[', SpellItems(items, rest));
        }
      case Braces(blank, pairs) =>
        if pairs == [] {
          EmptyReads('{', blank, rest);
        } else {
          PairsRead(pairs, rest);
          BracketReads('{', SpellPairs(pairs, rest));
        }
    }
  }

  /** An item and what follows it. */
  lemma {:induction false} ItemReads(x: Item, onward: string)
    requires SpacedOk(x) && LayoutOk(x.value) && onward != "" && onward[0] in {',', ']', '}'}
    ensures var s := x.before + Spell(x.value, x.after + onward);
            && ReadValue(s) == Some((Meaning(x.value), x.after + onward)) && Skip(x.after + onward) == onward
            && s != "" && !StartsWith(Skip(s), ']') && !StartsWith(Skip(s), '}')
    decreases x, 2
  {
    BlankThen(x.after, onward);
    ValueReads(x.value, x.after + onward);
    BlankBefore(x.before, Spell(x.value, x.after + onward));
    SpellStarts(x.value, x.after + onward);
    SkipBlank(x.before, Spell(x.value, x.after + onward));
  }

  lemma {:induction false} ItemsRead(items: seq<Item>, rest: string)
    requires items != [] && ItemsOk(items)
    ensures var s := SpellItems(items, rest);
            ReadItems(s) == Some((ItemsOf(items), rest)) && s != "" && !StartsWith(Skip(s), ']')
    decreases items, 0
  {
    var onward := if |items| == 1 then "]" + rest else "," + SpellItems(items[1..], rest);
    ItemReads(items[0], onward);
    if |items| == 1 {
      assert ("]" + rest)[1..] == rest && items[1..] == [];
      assert ItemsOf(items) == [Meaning(items[0].value)];
    } else {
      ItemsRead(items[1..], rest);
      assert ("," + SpellItems(items[1..], rest))[1..] == SpellItems(items[1..], rest);
    }
  }

  lemma KeyReads(p: Pair, rest: string)
    requires PairOk(p)
    ensures ReadKey(SpellKey(p, rest)) == Some((StringOf(p.key), rest))
    ensures SpellKey(p, rest) != "" && !StartsWith(Skip(SpellKey(p, rest)), '}')
  {
    var t := p.after + (":" + rest);
    var s := "\"" + SpellString(p.key, t);
    assert s[1..] == SpellString(p.key, t) && Skip(s) == s;
    StringReads(p.key, t);
    BlankThen(p.after, ":" + rest);
    assert (":" + rest)[1..] == rest;
    BlankBefore(p.before, s);
    SkipBlank(p.before, s);
  }

  lemma {:induction false} PairsRead(pairs: seq<Pair>, rest: string)
    requires pairs != [] && PairsOk(pairs)
    ensures var s := SpellPairs(pairs, rest);
            ReadMembers(s) == Some((MembersOf(pairs), rest)) && s != "" && !StartsWith(Skip(s), '}')
    decreases pairs, 0
  {
    var x, onward := pairs[0].item, if |pairs| == 1 then "}" + rest else "," + SpellPairs(pairs[1..], rest);
    var s, t := SpellPairs(pairs, rest), x.before + Spell(x.value, x.after + onward);
    KeyReads(pairs[0], t);
    ItemReads(x, onward);
    PairJoins(s, StringOf(pairs[0].key), t, Meaning(x.value), x.after + onward, onward);
    if |pairs| == 1 {
      assert ("}" + rest)[1..] == rest && pairs[1..] == [];
      assert MembersOf(pairs) == [Member(StringOf(pairs[0].key), Meaning(x.value))];
    } else {
      PairsRead(pairs[1..], rest);
      assert ("," + SpellPairs(pairs[1..], rest))[1..] == SpellPairs(pairs[1..], rest);
    }
  }

  lemma PairJoins(s: string, key: string, t: string, x: Json, u: string, w: string)
    requires ReadKey(s) == Some((key, t)) && ReadValue(t) == Some((x, u)) && Skip(u) == w && w != ""
    ensures w[0] == '}' ==> ReadMembers(s) == Some(([Member(key, x)], w[1..]))
    ensures w[0] == ',' && ReadMembers(w[1..]).Some? ==>
              var (ms, rest) := ReadMembers(w[1..]).value; ReadMembers(s) == Some(([Member(key, x)] + ms, rest))
  {
  }

  /** Every spelling of a document is read as that document. */
  lemma SpelledParses(d: Item, text: string, j: Json)
    requires Spells(d, text, j)
    ensures Parse(text) == Some(j)
  {
    BlankEnds(d.after);
    ValueReads(d.value, d.after);
    BlankBefore(d.before, Spell(d.value, d.after));
  }

  // ----- whatever is read was spelled ----------------------------------------

  lemma UnitLaid(s: string)
    requires UnicodeEscape(s).Some?
    ensures |s| >= 6 && GlyphOk(Unit(s[2..6])) && s == SpellGlyph(Unit(s[2..6]), s[6..])
    ensures UnicodeEscape(s) == Some(CodeUnit(Unit(s[2..6])))
  {
    var h := s[2..6];
    HexReads(h[0]);
    HexReads(h[1]);
    HexReads(h[2]);
    HexReads(h[3]);
    assert s == ['\\', 'u', h[0], h[1], h[2], h[3]] + s[6..];
  }

  /** The pieces of one character. */
  lemma CharLaid(s: string) returns (first: seq<Glyph>)
    requires s != "" && s[0] != '"' && ReadChar(s).Some?
    ensures GlyphsOk(first) && (|first| == 1 || |first| == 2)
    ensures var (c, t) := ReadChar(s).value;
            if |first| == 1 then
              && s == SpellGlyph(first[0], t) && CharOf(first[0]) == c
              && (HighUnit(first[0]) ==> UnicodeEscape(t).None? || !LowHalf(UnicodeEscape(t).value))
            else
              && HighUnit(first[0]) && LowUnit(first[1]) && s == SpellGlyph(first[0], SpellGlyph(first[1], t))
              && c == (0x10000 + (CodeUnit(first[0]) - 0xd800) * 1024 + (CodeUnit(first[1]) - 0xdc00)) as char
  {
    if s[0] != '\\' {
      first := [Plain(s[0])];
      assert s == [s[0]] + s[1..];
    } else if |s| >= 2 && ShortEscape(s[1]).Some? {
      first := [Short(s[1])];
      assert s == ['\\', s[1]] + s[2..];
    } else {
      first := EscapeLaid(s);
    }
  }

  lemma EscapeLaid(s: string) returns (first: seq<Glyph>)
    requires |s| >= 2 && s[0] == '\\' && ShortEscape(s[1]).None? && ReadChar(s).Some?
    ensures GlyphsOk(first) && (|first| == 1 || |first| == 2)
    ensures var (c, t) := ReadChar(s).value;
            if |first| == 1 then
              && s == SpellGlyph(first[0], t) && CharOf(first[0]) == c
              && (HighUnit(first[0]) ==> UnicodeEscape(t).None? || !LowHalf(UnicodeEscape(t).value))
            else
              && HighUnit(first[0]) && LowUnit(first[1]) && s == SpellGlyph(first[0], SpellGlyph(first[1], t))
              && c == (0x10000 + (CodeUnit(first[0]) - 0xd800) * 1024 + (CodeUnit(first[1]) - 0xdc00)) as char
  {
    UnitLaid(s);
    var g, t := Unit(s[2..6]), s[6..];
    var low := UnicodeEscape(t);
    if HighUnit(g) && low.Some? && LowHalf(low.value) {
      UnitLaid(t);
      first := [g, Unit(t[2..6])];
      assert first[1..] == [Unit(t[2..6])] && first[1..][1..] == [];
      assert s[12..] == t[6..];
    } else {
      first := [g];
    }
  }

  lemma {:induction false} StringLaid(s: string) returns (gs: seq<Glyph>)
    requires ReadString(s).Some?
    ensures GlyphsOk(gs) && s == SpellString(gs, ReadString(s).value.1) && StringOf(gs) == ReadString(s).value.0
    decreases |s|
  {
    var rest := ReadString(s).value.1;
    if s[0] == '"' {
      gs := [];
      assert s == "\"" + rest;
    } else {
      var (c, t) := ReadChar(s).value;
      var first := CharLaid(s);
      var more := StringLaid(t);
      gs := first + more;
      NextUnit(more, rest);
      if |first| == 1 {
        assert gs[1..] == more;
      } else {
        assert gs[1..][1..] == more && gs[2..] == more && gs[1..][0] == first[1];
      }
    }
  }

  lemma RunLaid(s: string)
    ensures var k := Run(s); AllDigits(s[..k]) && s == s[..k] + s[k..] && DigitsOf(s, k) == Figures(s[..k])
  {
  }

  lemma FractionLaid(s: string) returns (fraction: string)
    requires ReadFraction(s).Some?
    ensures AllDigits(fraction) && s == SpellFraction(fraction, ReadFraction(s).value.1)
            && Figures(fraction) == ReadFraction(s).value.0
  {
    fraction := "";
    if StartsWith(s, '.') {
      RunLaid(s[1..]);
      fraction := s[1..][..Run(s[1..])];
      assert s == "." + s[1..];
    }
  }

  lemma ExponentLaid(s: string) returns (e: Option<Exponent>)
    requires ReadExponent(s).Some?
    ensures s == SpellExponent(e, ReadExponent(s).value.1)
    ensures e.Some? ==>
              e.value.mark in {'e', 'E'} && e.value.sign in {"", "+", "-"} && e.value.digits != ""
              && AllDigits(e.value.digits)
    ensures ReadExponent(s).value.0 == if e.None? then 0 else Scale(e.value)
  {
    e := None;
    if StartsWith(s, 'e') || StartsWith(s, 'E') {
      var sign, t := SignLaid(s);
      RunLaid(t);
      e := Some(Exponent(s[0], sign, t[..Run(t)]));
    }
  }

  lemma SignLaid(s: string) returns (sign: string, t: string)
    requires s != ""
    ensures sign in {"", "+", "-"} && s == [s[0]] + (sign + t)
    ensures (sign == "-" <==> StartsWith(s[1..], '-')) && (sign == "+" <==> StartsWith(s[1..], '+'))
    ensures if sign == "" then t == s[1..] else |s| >= 2 && t == s[2..]
  {
    sign := if StartsWith(s[1..], '-') then "-" else if StartsWith(s[1..], '+') then "+" else "";
    t := s[1 + |sign|..];
  }

  lemma MagnitudeLaid(neg: bool, s: string) returns (f: Figure)
    requires ReadMagnitude(neg, s).Some?
    ensures FigureOk(f) && f.neg == neg && s == SpellMagnitude(f, ReadMagnitude(neg, s).value.1)
            && NumberOf(f) == ReadMagnitude(neg, s).value.0
  {
    var t := s[Run(s)..];
    RunLaid(s);
    var fraction := FractionLaid(t);
    var e := ExponentLaid(ReadFraction(t).value.1);
    f := Figure(neg, s[..Run(s)], fraction, e);
  }

  lemma FigureLaid(s: string) returns (f: Figure)
    requires ReadNumber(s).Some?
    ensures FigureOk(f) && s == SpellFigure(f, ReadNumber(s).value.1) && NumberOf(f) == ReadNumber(s).value.0
  {
    if StartsWith(s, '-') {
      f := MagnitudeLaid(true, s[1..]);
      assert s == "-" + s[1..];
    } else {
      f := MagnitudeLaid(false, s);
    }
  }

  lemma {:induction false} SkipLaid(s: string) returns (b: string)
    ensures Blank(b) && s == b + Skip(s)
  {
    b := "";
    if s != "" && Space(s[0]) {
      var more := SkipLaid(s[1..]);
      b := [s[0]] + more;
      assert s == [s[0]] + s[1..];
    }
  }

  lemma AtomLaid(s: string) returns (v: Layout)
    requires ReadAtom(s).Some?
    ensures LayoutOk(v) && s == Spell(v, ReadAtom(s).value.1) && Meaning(v) == ReadAtom(s).value.0
  {
    if StartsWith(s, 'n') {
      v := NullWord;
    } else if StartsWith(s, 't') || StartsWith(s, 'f') {
      v := BoolWord(StartsWith(s, 't'));
    } else {
      var f := FigureLaid(s);
      v := Numeric(f);
    }
  }

  /** A value that is read was spelled, after some space. */
  lemma {:induction false} ValueLaid(s: string) returns (b: string, v: Layout)
    requires ReadValue(s).Some?
    ensures Blank(b) && LayoutOk(v) && s == b + Spell(v, ReadValue(s).value.1) && Meaning(v) == ReadValue(s).value.0
    decreases |s|, 1
  {
    b := SkipLaid(s);
    var t := Skip(s);
    if t[0] == '"' {
      var gs := StringLaid(t[1..]);
      v := Quoted(gs);
      assert t == "\"" + t[1..];
    } else if t[0] == '[' || t[0] == '{' {
      v := ListLaid(t);
    } else {
      v := AtomLaid(t);
    }
  }

  lemma {:induction false} ListLaid(t: string) returns (v: Layout)
    requires t != "" && (t[0] == '[' || t[0] == '{') && ReadValue(t).Some?
    ensures LayoutOk(v) && t == Spell(v, ReadValue(t).value.1) && Meaning(v) == ReadValue(t).value.0
    decreases |t|, 0
  {
    var body := t[1..];
    assert Skip(t) == t && t == [t[0]] + body;
    var blank := SkipLaid(body);
    var u := Skip(body);
    SkippedReads(body);
    if StartsWith(u, if t[0] == '[' then ']' else '}') {
      assert u == [u[0]] + u[1..];
      v := if t[0] == '[' then Brackets(blank, []) else Braces(blank, []);
    } else if t[0] == '[' {
      var items := ItemsLaid(body);
      v := Brackets("", items);
    } else {
      var pairs := PairsLaid(body);
      v := Braces("", pairs);
    }
  }

  lemma {:induction false} ItemsLaid(s: string) returns (items: seq<Item>)
    requires ReadItems(s).Some?
    ensures items != [] && ItemsOk(items) && s == SpellItems(items, ReadItems(s).value.1)
            && ItemsOf(items) == ReadItems(s).value.0
    decreases |s|, 2
  {
    var b, v := ValueLaid(s);
    var t := ReadValue(s).value.1;
    var after := SkipLaid(t);
    var u := Skip(t);
    assert u == [u[0]] + u[1..];
    if StartsWith(u, ']') {
      items := [Item(b, v, after)];
    } else {
      var more := ItemsLaid(u[1..]);
      items := [Item(b, v, after)] + more;
      assert items[1..] == more;
    }
  }

  lemma KeyLaid(s: string) returns (before: string, key: seq<Glyph>, after: string)
    requires ReadKey(s).Some?
    ensures Blank(before) && GlyphsOk(key) && Blank(after) && StringOf(key) == ReadKey(s).value.0
    ensures s == before + ("\"" + SpellString(key, after + (":" + ReadKey(s).value.1)))
  {
    before := SkipLaid(s);
    SkipTwice(s);
    SkippedReads(s);
    key, after := NameLaid(Skip(s));
  }

  lemma Split(s: string)
    requires s != ""
    ensures s == [s[0]] + s[1..]
  {
  }

  lemma NameLaid(t: string) returns (key: seq<Glyph>, after: string)
    requires ReadKey(t).Some? && Skip(t) == t
    ensures GlyphsOk(key) && Blank(after) && StringOf(key) == ReadKey(t).value.0
    ensures t == "\"" + SpellString(key, after + (":" + ReadKey(t).value.1))
  {
    key := StringLaid(t[1..]);
    var u := ReadString(t[1..]).value.1;
    after := SkipLaid(u);
    Split(t);
    Split(Skip(u));
  }

  lemma {:induction false} PairsLaid(s: string) returns (pairs: seq<Pair>)
    requires ReadMembers(s).Some?
    ensures pairs != [] && PairsOk(pairs) && s == SpellPairs(pairs, ReadMembers(s).value.1)
            && MembersOf(pairs) == ReadMembers(s).value.0
    decreases |s|, 2
  {
    var p, w := PairLaid(s);
    Split(w);
    if StartsWith(w, '}') {
      pairs := [p];
      assert MembersOf(pairs) == [Member(StringOf(p.key), Meaning(p.item.value))];
    } else {
      var more := PairsLaid(w[1..]);
      pairs := [p] + more;
      assert pairs[1..] == more;
    }
  }

  /** The first member of an object, and the separator after it. */
  lemma {:induction false} PairLaid(s: string) returns (p: Pair, w: string)
    requires ReadMembers(s).Some?
    ensures PairOk(p) && LayoutOk(p.item.value) && w != "" && |w| < |s|
    ensures s == SpellKey(p, p.item.before + Spell(p.item.value, p.item.after + w))
    ensures var m, (ms, rest) := Member(StringOf(p.key), Meaning(p.item.value)), ReadMembers(s).value;
            if w[0] == '}' then ms == [m] && rest == w[1..]
            else w[0] == ',' && ReadMembers(w[1..]).Some? && ms == [m] + ReadMembers(w[1..]).value.0
                 && rest == ReadMembers(w[1..]).value.1
    decreases |s|, 1
  {
    var before, key, afterKey := KeyLaid(s);
    var t := ReadKey(s).value.1;
    var b, v := ValueLaid(t);
    var u := ReadValue(t).value.1;
    var after := SkipLaid(u);
    p, w := Pair(before, key, afterKey, Item(b, v, after)), Skip(u);
  }

  /** The reader is exact: a text is read as a document if and only if it spells that document. */
  lemma ParseExactly(text: string, j: Json)
    ensures Parse(text) == Some(j) <==> exists d :: Spells(d, text, j)
  {
    if Parse(text) == Some(j) {
      var b, v := ValueLaid(text);
      var t := ReadValue(text).value.1;
      var after := SkipLaid(t);
      assert after == t;
      assert Spells(Item(b, v, after), text, j);
    }
    forall d | Spells(d, text, j) ensures Parse(text) == Some(j) {
      SpelledParses(d, text, j);
    }
  }
}
