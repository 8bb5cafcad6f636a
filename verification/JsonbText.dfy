/** The whole jsonb check on text: size, syntax, surrogate scan and budget; and
    what PostgreSQL prints passes it again. */
module JsonbText {
  import opened Wrappers
  import opened Fields
  import opened JsonbBudget
  import opened JsonText
  import opened JsonGrammar
  import S = SurrogateScan

  type Byte = S.Byte

  // ----- UTF-8 ---------------------------------------------------------------

  function Encode(c: char): (bytes: seq<Byte>)
    ensures |bytes| == Utf8Len(c)
  {
    var n := c as int;
    if n < 0x80 then [n]
    else if n < 0x800 then [0xc0 + n / 64, 0x80 + n % 64]
    else if n < 0x10000 then [0xe0 + n / 4096, 0x80 + n / 64 % 64, 0x80 + n % 64]
    else [0xf0 + n / 262144, 0x80 + n / 4096 % 64, 0x80 + n / 64 % 64, 0x80 + n % 64]
  }

  function EncodeAll(s: string): (bytes: seq<Byte>)
    ensures |bytes| == Utf8Bytes(s)
  {
    if s == "" then [] else Encode(s[0]) + EncodeAll(s[1..])
  }

  lemma {:induction false} EncodeAppend(s: string, t: string)
    ensures EncodeAll(s + t) == EncodeAll(s) + EncodeAll(t)
  {
    if s == "" {
      assert s + t == t;
    } else {
      assert (s + t)[1..] == s[1..] + t;
      EncodeAppend(s[1..], t);
      BytesAssoc(Encode(s[0]), EncodeAll(s[1..]), EncodeAll(t));
    }
  }

  lemma Sextets(n: nat)
    ensures n == n / 64 * 64 + n % 64 && n / 64 == n / 4096 * 64 + n / 64 % 64
            && n / 4096 == n / 262144 * 64 + n / 4096 % 64
  {
    assert n / 64 / 64 == n / 4096;
    assert n / 4096 / 64 == n / 262144;
  }

  /** The six bits a continuation byte carries. */
  function Six(b: Byte): int {
    b as int - 0x80
  }

  /** The bytes carry the character: a lead byte that tells their number, and six bits in each of the others. */
  function Decoded(bytes: seq<Byte>): int {
    match |bytes|
    case 1 => bytes[0] as int
    case 2 => (bytes[0] as int - 0xc0) * 64 + Six(bytes[1])
    case 3 => (bytes[0] as int - 0xe0) * 4096 + Six(bytes[1]) * 64 + Six(bytes[2])
    case 4 => (bytes[0] as int - 0xf0) * 262144 + Six(bytes[1]) * 4096 + Six(bytes[2]) * 64 + Six(bytes[3])
    case _ => -1
  }

  lemma EncodeInverse(c: char)
    ensures Decoded(Encode(c)) == c as int
  {
    Sextets(c as int);
  }

  /** Characters beyond ASCII have no ASCII byte. */
  lemma EncodedBytes(c: char)
    ensures c as int < 0x80 ==> Encode(c) == [c as int]
    ensures c as int >= 0x80 ==> forall b <- Encode(c) :: b >= 0x80
  {
  }

  lemma {:induction false} NoQuoteBytes(s: string)
    requires '"' !in s
    ensures S.QUOTE !in EncodeAll(s)
  {
    if s != "" {
      EncodedBytes(s[0]);
      assert s[0] in s;
      NoQuoteBytes(s[1..]);
    }
  }

  // ----- every JSON text is lexically valid ----------------------------------

  /** From s to its tail t the bytes are these chunks. */
  ghost predicate Lexed(s: string, t: string, cs: seq<S.Chunk>) {
    S.ChunksOk(cs) && EncodeAll(s) == S.TextBytes(cs) + EncodeAll(t)
  }

  lemma BytesAssoc(a: seq<Byte>, b: seq<Byte>, c: seq<Byte>)
    ensures a + b + c == a + (b + c)
  {
  }

  lemma {:induction false} BytesAppend(cs: seq<S.Chunk>, ds: seq<S.Chunk>)
    ensures S.TextBytes(cs + ds) == S.TextBytes(cs) + S.TextBytes(ds)
  {
    if cs == [] {
      assert cs + ds == ds;
    } else {
      assert (cs + ds)[1..] == cs[1..] + ds;
      BytesAppend(cs[1..], ds);
      BytesAssoc(S.ChunkBytes(cs[0]), S.TextBytes(cs[1..]), S.TextBytes(ds));
    }
  }

  lemma {:induction false} ChunksAppend(cs: seq<S.Chunk>, ds: seq<S.Chunk>)
    requires S.ChunksOk(cs) && S.ChunksOk(ds)
    ensures S.ChunksOk(cs + ds)
  {
    if cs == [] {
      assert cs + ds == ds;
    } else {
      assert (cs + ds)[1..] == cs[1..] + ds;
      ChunksAppend(cs[1..], ds);
    }
  }

  lemma Rejoin(a: seq<Byte>, x: seq<Byte>, b: seq<Byte>, y: seq<Byte>, c: seq<Byte>)
    requires a == x + b && b == y + c
    ensures a == (x + y) + c
  {
  }

  lemma LexedThen(s: string, t: string, cs: seq<S.Chunk>, u: string, ds: seq<S.Chunk>)
    requires Lexed(s, t, cs) && Lexed(t, u, ds)
    ensures Lexed(s, u, cs + ds)
  {
    ChunksAppend(cs, ds);
    BytesAppend(cs, ds);
    Rejoin(EncodeAll(s), S.TextBytes(cs), EncodeAll(t), S.TextBytes(ds), EncodeAll(u));
  }

  lemma LexedOutside(s: string, k: nat)
    requires k <= |s| && '"' !in s[..k]
    ensures Lexed(s, s[k..], [S.Outside(EncodeAll(s[..k]))])
  {
    var cs := [S.Outside(EncodeAll(s[..k]))];
    NoQuoteBytes(s[..k]);
    assert s == s[..k] + s[k..];
    EncodeAppend(s[..k], s[k..]);
    assert S.TextBytes(cs[1..]) == [] && S.TextBytes(cs) == EncodeAll(s[..k]);
  }

  /** The first k characters hold no quote, and t is what follows them. */
  ghost predicate Span(s: string, k: nat, t: string) {
    k <= |s| && t == s[k..] && forall i :: 0 <= i < k ==> s[i] != '"'
  }

  lemma SpanThen(s: string, j: nat, t: string, k: nat, u: string)
    requires Span(s, j, t) && Span(t, k, u)
    ensures Span(s, j + k, u)
  {
    forall i | 0 <= i < j + k ensures s[i] != '"' {
      if i >= j { assert s[i] == t[i - j]; }
    }
  }

  lemma LexedSpan(s: string, k: nat, t: string) returns (cs: seq<S.Chunk>)
    requires Span(s, k, t)
    ensures Lexed(s, t, cs)
  {
    assert '"' !in s[..k];
    LexedOutside(s, k);
    cs := [S.Outside(EncodeAll(s[..k]))];
  }

  lemma {:induction false} SkipSpan(s: string) returns (k: nat)
    ensures Span(s, k, Skip(s))
  {
    k := 0;
    if s != "" && Space(s[0]) {
      var m := SkipSpan(s[1..]);
      SpanThen(s, 1, s[1..], m, Skip(s));
      k := 1 + m;
    }
  }

  lemma LexedSkip(s: string) returns (cs: seq<S.Chunk>)
    ensures Lexed(s, Skip(s), cs)
  {
    var k := SkipSpan(s);
    cs := LexedSpan(s, k, Skip(s));
  }

  lemma RunSpan(s: string)
    ensures Span(s, Run(s), s[Run(s)..])
  {
  }

  lemma FractionSpan(s: string) returns (k: nat)
    requires ReadFraction(s).Some?
    ensures Span(s, k, ReadFraction(s).value.1)
  {
    k := 0;
    if StartsWith(s, '.') {
      k := 1 + Run(s[1..]);
      RunSpan(s[1..]);
      SpanThen(s, 1, s[1..], Run(s[1..]), s[1..][Run(s[1..])..]);
    }
  }

  lemma ExponentSpan(s: string) returns (k: nat)
    requires ReadExponent(s).Some?
    ensures Span(s, k, ReadExponent(s).value.1)
  {
    k := 0;
    if StartsWith(s, 'e') || StartsWith(s, 'E') {
      var d := if StartsWith(s[1..], '-') || StartsWith(s[1..], '+') then 2 else 1;
      var t := s[d..];
      assert d == 2 ==> s[1] == s[1..][0];
      RunSpan(t);
      SpanThen(s, d, t, Run(t), t[Run(t)..]);
      k := d + Run(t);
    }
  }

  lemma ThreeSpans(s: string, a: nat, t: string, b: nat, u: string, c: nat, v: string) returns (k: nat)
    requires Span(s, a, t) && Span(t, b, u) && Span(u, c, v)
    ensures Span(s, k, v)
  {
    SpanThen(s, a, t, b, u);
    SpanThen(s, a + b, u, c, v);
    k := a + b + c;
  }

  lemma PartsSpan(s: string, t: string, u: string, v: string) returns (k: nat)
    requires Span(s, Run(s), t) && ReadFraction(t).Some? && u == ReadFraction(t).value.1
    requires ReadExponent(u).Some? && v == ReadExponent(u).value.1
    ensures Span(s, k, v)
  {
    var f := FractionSpan(t);
    var e := ExponentSpan(u);
    k := ThreeSpans(s, Run(s), t, f, u, e, v);
  }

  lemma MagnitudeSpan(neg: bool, s: string) returns (k: nat)
    requires ReadMagnitude(neg, s).Some?
    ensures Span(s, k, ReadMagnitude(neg, s).value.1)
  {
    RunSpan(s);
    var t := s[Run(s)..];
    var u := ReadFraction(t).value.1;
    k := PartsSpan(s, t, u, ReadExponent(u).value.1);
  }

  lemma AtomSpan(s: string) returns (k: nat)
    requires ReadAtom(s).Some?
    ensures Span(s, k, ReadAtom(s).value.1)
  {
    if StartsWith(s, 'n') || StartsWith(s, 't') || StartsWith(s, 'f') {
      k := WordSpan(s);
    } else if StartsWith(s, '-') {
      var m := MagnitudeSpan(true, s[1..]);
      SpanThen(s, 1, s[1..], m, ReadAtom(s).value.1);
      k := 1 + m;
    } else {
      k := MagnitudeSpan(false, s);
    }
  }

  lemma WordSpan(s: string) returns (k: nat)
    requires ReadAtom(s).Some? && (StartsWith(s, 'n') || StartsWith(s, 't') || StartsWith(s, 'f'))
    ensures Span(s, k, ReadAtom(s).value.1)
  {
    var word := if s[0] == 'n' then "null" else if s[0] == 't' then "true" else "false";
    k := |word|;
    assert word <= s && '"' !in word;
    assert forall i :: 0 <= i < k ==> s[i] == word[i];
  }

  // Strings: units from characters.

  function PlainUnits(bytes: seq<Byte>): seq<S.Unit> {
    seq(|bytes|, i requires 0 <= i < |bytes| => S.Plain(bytes[i]))
  }

  lemma {:induction false} PlainBytes(bytes: seq<Byte>)
    ensures S.UnitsBytes(PlainUnits(bytes)) == bytes
  {
    if bytes != [] {
      assert PlainUnits(bytes)[1..] == PlainUnits(bytes[1..]);
      PlainBytes(bytes[1..]);
    }
  }

  lemma {:induction false} UnitsAppend(us: seq<S.Unit>, vs: seq<S.Unit>)
    ensures S.UnitsBytes(us + vs) == S.UnitsBytes(us) + S.UnitsBytes(vs)
  {
    if us == [] {
      assert us + vs == vs;
    } else {
      assert (us + vs)[1..] == us[1..] + vs;
      UnitsAppend(us[1..], vs);
      BytesAssoc(S.UnitBytes(us[0]), S.UnitsBytes(us[1..]), S.UnitsBytes(vs));
    }
  }

  /** From s to t the bytes of a string are these units. */
  ghost predicate Units(s: string, t: string, us: seq<S.Unit>) {
    (forall u <- us :: S.UnitOk(u)) && EncodeAll(s) == S.UnitsBytes(us) + EncodeAll(t)
  }

  lemma UnitsThen(s: string, t: string, us: seq<S.Unit>, u: string, vs: seq<S.Unit>)
    requires Units(s, t, us) && Units(t, u, vs)
    ensures Units(s, u, us + vs)
  {
    UnitsAppend(us, vs);
    Rejoin(EncodeAll(s), S.UnitsBytes(us), EncodeAll(t), S.UnitsBytes(vs), EncodeAll(u));
  }

  lemma PlainChar(s: string)
    requires s != "" && (s[0] as int) >= 0x20 && s[0] != '"' && s[0] != '\\'
    ensures Units(s, s[1..], PlainUnits(Encode(s[0])))
  {
    EncodedBytes(s[0]);
    PlainBytes(Encode(s[0]));
  }

  lemma {:induction false} AsciiCodes(s: string)
    requires Ascii(s)
    ensures EncodeAll(s) == Codes(s)
  {
    if s != "" {
      assert s[0] in s && forall c <- s[1..] :: c in s;
      EncodedBytes(s[0]);
      AsciiCodes(s[1..]);
      assert Codes(s) == [s[0] as int] + Codes(s[1..]);
    }
  }

  lemma ShortUnit(s: string)
    requires |s| >= 2 && s[0] == '\\' && ShortEscape(s[1]).Some?
    ensures Units(s, s[2..], [S.Short(s[1] as int)])
  {
    assert s[..2] == [s[0], s[1]] && s == s[..2] + s[2..];
    AsciiCodes(s[..2]);
    EncodeAppend(s[..2], s[2..]);
    OneUnit(S.Short(s[1] as int));
  }

  lemma HexAscii(c: char)
    requires HexValue(c).Some?
    ensures c as int < 0x80 && S.HexDigit(c as int) == HexValue(c)
  {
  }

  function HexBytes(s: string): seq<Byte>
    requires |s| >= 6 && UnicodeEscape(s).Some?
  {
    HexAscii(s[2..6][0]);
    HexAscii(s[2..6][1]);
    HexAscii(s[2..6][2]);
    HexAscii(s[2..6][3]);
    [s[2] as int, s[3] as int, s[4] as int, s[5] as int]
  }

  lemma OneUnit(u: S.Unit)
    ensures S.UnitsBytes([u]) == S.UnitBytes(u)
  {
    assert [u][1..] == [];
  }

  lemma EscapedOk(s: string)
    requires UnicodeEscape(s).Some?
    ensures |s| >= 6 && S.UnitOk(S.Escaped(HexBytes(s)))
  {
    assert s[2..6][0] == s[2] && s[2..6][1] == s[3] && s[2..6][2] == s[4] && s[2..6][3] == s[5];
  }

  function CodeOf(c: char): Byte
    requires c as int < 0x80
  {
    c as int
  }

  function Codes(s: string): seq<Byte>
    requires Ascii(s)
  {
    seq(|s|, i requires 0 <= i < |s| => assert s[i] in s; CodeOf(s[i]))
  }

  lemma HexCodes(s: string)
    requires UnicodeEscape(s).Some?
    ensures |s| >= 6 && Ascii(s[..6]) && Codes(s[..6]) == [S.BACKSLASH, S.LETTER_U] + HexBytes(s)
  {
    assert s[2..6][0] == s[2] && s[2..6][1] == s[3] && s[2..6][2] == s[4] && s[2..6][3] == s[5];
    assert s[..6] == [s[0], s[1], s[2], s[3], s[4], s[5]];
  }

  lemma EscapedBytes(s: string)
    requires UnicodeEscape(s).Some?
    ensures |s| >= 6 && EncodeAll(s) == S.UnitBytes(S.Escaped(HexBytes(s))) + EncodeAll(s[6..])
  {
    HexCodes(s);
    AsciiCodes(s[..6]);
    assert s == s[..6] + s[6..];
    EncodeAppend(s[..6], s[6..]);
  }

  lemma EscapedUnit(s: string)
    requires UnicodeEscape(s).Some?
    ensures |s| >= 6 && Units(s, s[6..], [S.Escaped(HexBytes(s))])
  {
    EscapedOk(s);
    EscapedBytes(s);
    OneUnit(S.Escaped(HexBytes(s)));
  }

  lemma CharUnits(s: string) returns (us: seq<S.Unit>)
    requires s != "" && s[0] != '"' && ReadChar(s).Some?
    ensures Units(s, ReadChar(s).value.1, us)
  {
    if s[0] != '\\' {
      PlainChar(s);
      us := PlainUnits(Encode(s[0]));
    } else if |s| >= 2 && ShortEscape(s[1]).Some? {
      ShortUnit(s);
      us := [S.Short(s[1] as int)];
    } else {
      EscapedUnit(s);
      us := [S.Escaped(HexBytes(s))];
      var low := UnicodeEscape(s[6..]);
      if HighHalf(UnicodeEscape(s).value) && low.Some? && LowHalf(low.value) {
        EscapedUnit(s[6..]);
        UnitsThen(s, s[6..], us, s[6..][6..], [S.Escaped(HexBytes(s[6..]))]);
        us := us + [S.Escaped(HexBytes(s[6..]))];
        assert s[6..][6..] == s[12..];
      }
    }
  }

  lemma {:induction false} StringUnits(s: string) returns (us: seq<S.Unit>, t: string)
    requires ReadString(s).Some?
    ensures Units(s, t, us) && StartsWith(t, '"') && ReadString(s).value.1 == t[1..]
    decreases |s|
  {
    if s[0] == '"' {
      us, t := [], s;
    } else {
      var vs := CharUnits(s);
      var u := ReadChar(s).value.1;
      us, t := StringUnits(u);
      UnitsThen(s, u, vs, t, us);
      us := vs + us;
    }
  }

  lemma LexedString(s: string) returns (cs: seq<S.Chunk>)
    requires StartsWith(s, '"') && ReadString(s[1..]).Some?
    ensures Lexed(s, ReadString(s[1..]).value.1, cs)
  {
    var us, t := StringUnits(s[1..]);
    cs := [S.Literal(us)];
    QuoteHead(s);
    QuoteHead(t);
    Rejoin(EncodeAll(s), [S.QUOTE], EncodeAll(s[1..]), S.UnitsBytes(us), EncodeAll(t));
    Rejoin(EncodeAll(s), [S.QUOTE] + S.UnitsBytes(us), EncodeAll(t), [S.QUOTE], EncodeAll(t[1..]));
    OneLiteral(us);
  }

  lemma QuoteHead(s: string)
    requires StartsWith(s, '"')
    ensures EncodeAll(s) == [S.QUOTE] + EncodeAll(s[1..])
  {
    EncodedBytes('"');
  }

  lemma OneLiteral(us: seq<S.Unit>)
    requires forall u <- us :: S.UnitOk(u)
    ensures S.ChunksOk([S.Literal(us)]) && S.TextBytes([S.Literal(us)]) == [S.QUOTE] + S.UnitsBytes(us) + [S.QUOTE]
  {
    assert [S.Literal(us)][1..] == [];
  }

  lemma LexedChar(s: string) returns (cs: seq<S.Chunk>)
    requires s != "" && s[0] != '"'
    ensures Lexed(s, s[1..], cs)
  {
    cs := LexedSpan(s, 1, s[1..]);
  }

  /** Skip to a punctuation mark and over it. */
  lemma LexedMark(s: string, c: char) returns (cs: seq<S.Chunk>)
    requires StartsWith(Skip(s), c) && c != '"'
    ensures Lexed(s, Skip(s)[1..], cs)
  {
    var ds := LexedSkip(s);
    var es := LexedChar(Skip(s));
    LexedThen(s, Skip(s), ds, Skip(s)[1..], es);
    cs := ds + es;
  }

  lemma {:induction false} LexedValue(s: string) returns (cs: seq<S.Chunk>)
    requires ReadValue(s).Some?
    ensures Lexed(s, ReadValue(s).value.1, cs)
    decreases |s|, 2
  {
    var t := Skip(s);
    var ds := LexedSkip(s);
    var es := LexedAt(t);
    LexedThen(s, t, ds, ReadValue(s).value.1, es);
    cs := ds + es;
  }

  lemma {:induction false} LexedAt(t: string) returns (cs: seq<S.Chunk>)
    requires ReadValue(t).Some? && Skip(t) == t
    ensures Lexed(t, ReadValue(t).value.1, cs)
    decreases |t|, 1
  {
    if t[0] == '"' {
      cs := LexedString(t);
    } else if t[0] == '[' || t[0] == '{' {
      cs := LexedNested(t);
    } else {
      var k := AtomSpan(t);
      cs := LexedSpan(t, k, ReadValue(t).value.1);
    }
  }

  lemma {:induction false} LexedNested(t: string) returns (cs: seq<S.Chunk>)
    requires ReadValue(t).Some? && Skip(t) == t && t != "" && (t[0] == '[' || t[0] == '{')
    ensures Lexed(t, ReadValue(t).value.1, cs)
    decreases |t|, 0
  {
    var head := LexedChar(t);
    var body := t[1..];
    var u := Skip(body);
    if StartsWith(u, if t[0] == '[' then ']' else '}') {
      var tail := LexedMark(body, u[0]);
      LexedThen(t, body, head, u[1..], tail);
      cs := head + tail;
    } else {
      var gap := LexedSkip(body);
      LexedThen(t, body, head, u, gap);
      var inside;
      if t[0] == '[' {
        inside := LexedItems(u);
      } else {
        inside := LexedMembers(u);
      }
      LexedThen(t, u, head + gap, ReadValue(t).value.1, inside);
      cs := head + gap + inside;
    }
  }

  lemma {:induction false} LexedItems(s: string) returns (cs: seq<S.Chunk>)
    requires ReadItems(s).Some?
    ensures Lexed(s, ReadItems(s).value.1, cs)
    decreases |s|, 3
  {
    var first := LexedValue(s);
    var t := ReadValue(s).value.1;
    var u := Skip(t);
    var mark := LexedMark(t, u[0]);
    LexedThen(s, t, first, u[1..], mark);
    cs := first + mark;
    if u[0] == ',' {
      var more := LexedItems(u[1..]);
      LexedThen(s, u[1..], cs, ReadItems(s).value.1, more);
      cs := cs + more;
    }
  }

  lemma LexedKey(s: string) returns (cs: seq<S.Chunk>)
    requires ReadKey(s).Some?
    ensures Lexed(s, ReadKey(s).value.1, cs)
  {
    var t := Skip(s);
    var gap := LexedSkip(s);
    var name := LexedString(t);
    var u := ReadString(t[1..]).value.1;
    LexedThen(s, t, gap, u, name);
    var colon := LexedMark(u, ':');
    LexedThen(s, u, gap + name, Skip(u)[1..], colon);
    cs := gap + name + colon;
  }

  lemma {:induction false} LexedMembers(s: string) returns (cs: seq<S.Chunk>)
    requires ReadMembers(s).Some?
    ensures Lexed(s, ReadMembers(s).value.1, cs)
    decreases |s|, 2
  {
    var key := LexedKey(s);
    var t := ReadKey(s).value.1;
    var value := LexedValue(t);
    var u := ReadValue(t).value.1;
    LexedThen(s, t, key, u, value);
    var v := Skip(u);
    var mark := LexedMark(u, v[0]);
    LexedThen(s, u, key + value, v[1..], mark);
    cs := key + value + mark;
    if v[0] == ',' {
      var more := LexedMembers(v[1..]);
      LexedThen(s, v[1..], cs, ReadMembers(s).value.1, more);
      cs := cs + more;
    }
  }

  /** Every text that parses consists of bytes outside strings and well-formed string literals, which is
      what the surrogate scan relies on. */
  lemma ParsedHasChunks(text: string) returns (cs: seq<S.Chunk>)
    requires Parse(text).Some?
    ensures S.ChunksOk(cs) && S.TextBytes(cs) == EncodeAll(text)
  {
    var body := LexedValue(text);
    var t := ReadValue(text).value.1;
    var tail := LexedSkip(t);
    LexedThen(text, t, body, "", tail);
    cs := body + tail;
  }

  // ----- the printed text is clean -------------------------------------------

  /** The text leaves the scan where it found it: outside strings, with nothing refused. */
  ghost predicate Neutral(s: string) {
    forall rest: seq<Byte> :: S.Clean(EncodeAll(s) + rest, false) == S.Clean(rest, false)
  }

  lemma NeutralThen(s: string, t: string)
    requires Neutral(s) && Neutral(t)
    ensures Neutral(s + t)
  {
    EncodeAppend(s, t);
    forall rest: seq<Byte> ensures S.Clean(EncodeAll(s + t) + rest, false) == S.Clean(rest, false) {
      BytesAssoc(EncodeAll(s), EncodeAll(t), rest);
    }
  }

  lemma NeutralPlain(s: string)
    requires '"' !in s
    ensures Neutral(s)
  {
    NoQuoteBytes(s);
    forall rest: seq<Byte> ensures S.Clean(EncodeAll(s) + rest, false) == S.Clean(rest, false) {
      S.CleanOutside(EncodeAll(s), rest);
    }
  }

  /** Inside a string, bytes that are neither quote nor backslash pass. */
  lemma {:induction false} CleanInside(bytes: seq<Byte>, rest: seq<Byte>)
    requires S.QUOTE !in bytes && S.BACKSLASH !in bytes
    ensures S.Clean(bytes + rest, true) == S.Clean(rest, true)
  {
    if bytes == [] {
      assert bytes + rest == rest;
    } else {
      assert (bytes + rest)[1..] == bytes[1..] + rest;
      CleanInside(bytes[1..], rest);
    }
  }

  lemma CleanEscape(c: char, rest: seq<Byte>)
    ensures S.Clean(EncodeAll(Escape(c)) + rest, true) == S.Clean(rest, true)
  {
    var e := Escape(c);
    if |e| == 6 {
      CleanControl(c, rest);
    } else if |e| == 2 {
      CleanShort(e, rest);
    } else {
      EncodedBytes(c);
      assert EncodeAll(e) == Encode(c) by { assert e[1..] == ""; }
      CleanInside(Encode(c), rest);
    }
  }

  lemma CleanShort(e: string, rest: seq<Byte>)
    requires |e| == 2 && e[0] == '\\' && e[1] as int < 0x80 && e[1] != 'u'
    ensures S.Clean(EncodeAll(e) + rest, true) == S.Clean(rest, true)
  {
    AsciiCodes(e);
    var raw := EncodeAll(e) + rest;
    assert raw[0] == S.BACKSLASH && raw[1] == e[1] as int && raw[2..] == rest;
  }

  lemma CleanControl(c: char, rest: seq<Byte>)
    requires |Escape(c)| == 6
    ensures S.Clean(EncodeAll(Escape(c)) + rest, true) == S.Clean(rest, true)
  {
    var e := Escape(c);
    var high, low := c as int / 16, c as int % 16;
    assert e == ['\\', 'u', '0', '0', Hex(high), Hex(low)];
    AsciiCodes(e);
    var raw := EncodeAll(e) + rest;
    assert EncodeAll(e) == [S.BACKSLASH, S.LETTER_U, 0x30, 0x30, Hex(high) as int, Hex(low) as int];
    assert raw[2..6] == [0x30, 0x30, Hex(high) as int, Hex(low) as int] && raw[6..] == rest;
    assert S.EscapeAt(raw) == Some(c as int);
  }

  lemma {:induction false} CleanEscapes(s: string, rest: seq<Byte>)
    ensures S.Clean(EncodeAll(EscapeAll(s)) + rest, true) == S.Clean(rest, true)
  {
    if s == "" {
      assert EncodeAll(EscapeAll(s)) + rest == rest;
    } else {
      var more := EncodeAll(EscapeAll(s[1..])) + rest;
      EncodeAppend(Escape(s[0]), EscapeAll(s[1..]));
      BytesAssoc(EncodeAll(Escape(s[0])), EncodeAll(EscapeAll(s[1..])), rest);
      CleanEscape(s[0], more);
      CleanEscapes(s[1..], rest);
    }
  }

  lemma QuotedBytes(e: string)
    ensures EncodeAll("\"" + e + "\"") == [S.QUOTE] + EncodeAll(e) + [S.QUOTE]
  {
    QuoteHead("\"");
    EncodeAppend("\"" + e, "\"");
    EncodeAppend("\"", e);
  }

  lemma Enclosed(body: seq<Byte>, rest: seq<Byte>)
    ensures ([S.QUOTE] + body + [S.QUOTE] + rest)[1..] == body + ([S.QUOTE] + rest)
    ensures ([S.QUOTE] + rest)[1..] == rest
  {
  }

  lemma CleanQuote(s: string, rest: seq<Byte>)
    ensures S.Clean(EncodeAll(Quote(s)) + rest, false) == S.Clean(rest, false)
  {
    QuotedBytes(EscapeAll(s));
    Enclosed(EncodeAll(EscapeAll(s)), rest);
    CleanEscapes(s, [S.QUOTE] + rest);
  }

  lemma NeutralQuote(s: string)
    ensures Neutral(Quote(s))
  {
    forall rest: seq<Byte> ensures S.Clean(EncodeAll(Quote(s)) + rest, false) == S.Clean(rest, false) {
      CleanQuote(s, rest);
    }
  }

  lemma {:induction false} NeutralPrint(j: Json)
    ensures Neutral(Print(j))
    decreases j, 1
  {
    match j {
      case Null => NeutralWord(j);
      case Bool(_) => NeutralWord(j);
      case Str(s) => NeutralQuote(s);
      case Num(n) => NeutralNumber(n);
      case Arr(items) =>
        NeutralItems(items);
        NeutralBracket("[", PrintItems(items), "]");
      case Obj(members) =>
        NeutralMembers(members);
        NeutralBracket("{", PrintMembers(members), "}");
    }
  }

  lemma NeutralWord(j: Json)
    requires j.Null? || j.Bool?
    ensures Neutral(Print(j))
  {
    NeutralPlain(Print(j));
  }

  lemma NeutralNumber(n: N.Number)
    ensures Neutral(PrintNumber(n))
  {
    NeutralPlain(PrintNumber(n));
  }

  lemma NeutralBracket(a: string, body: string, b: string)
    requires '"' !in a && '"' !in b && Neutral(body)
    ensures Neutral(a + body + b)
  {
    NeutralPlain(a);
    NeutralPlain(b);
    NeutralThen(a, body);
    NeutralThen(a + body, b);
  }

  lemma {:induction false} NeutralItems(items: seq<Json>)
    ensures Neutral(PrintItems(items))
    decreases items, 0
  {
    if items == [] {
      NeutralPlain("");
    } else {
      var sep := if |items| > 1 then ", " else "";
      NeutralPrint(items[0]);
      NeutralItems(items[1..]);
      NeutralPlain(sep);
      NeutralThen(Print(items[0]), sep);
      NeutralThen(Print(items[0]) + sep, PrintItems(items[1..]));
    }
  }

  lemma {:induction false} NeutralMembers(members: seq<Member>)
    ensures Neutral(PrintMembers(members))
    decreases members, 0
  {
    if members == [] {
      NeutralPlain("");
    } else {
      var m, sep := members[0], if |members| > 1 then ", " else "";
      NeutralQuote(m.key);
      NeutralPrint(m.value);
      NeutralMembers(members[1..]);
      NeutralPlain(sep);
      NeutralPlain(": ");
      NeutralThen(Quote(m.key), ": ");
      NeutralThen(Quote(m.key) + ": ", Print(m.value));
      NeutralThen(Quote(m.key) + ": " + Print(m.value), sep);
      NeutralThen(Quote(m.key) + ": " + Print(m.value) + sep, PrintMembers(members[1..]));
    }
  }

  lemma PrintedClean(j: Json)
    ensures S.Clean(EncodeAll(Print(j)), false)
  {
    NeutralPrint(j);
    assert EncodeAll(Print(j)) + [] == EncodeAll(Print(j));
    assert S.Clean([], false);
  }

  // ----- nesting -------------------------------------------------------------

  /** The deepest nesting json.Valid accepts. */
  const MAX_NESTING: nat := 10000

  function Nesting(j: Json): nat
    decreases j, 1
  {
    match j
    case Arr(items) => 1 + ItemsNesting(items)
    case Obj(members) => 1 + MembersNesting(members)
    case _ => 0
  }

  function Deeper(a: nat, b: nat): nat { if a < b then b else a }

  function ItemsNesting(items: seq<Json>): nat
    decreases items, 0
  {
    if items == [] then 0 else Deeper(Nesting(items[0]), ItemsNesting(items[1..]))
  }

  function MembersNesting(members: seq<Member>): nat
    decreases members, 0
  {
    if members == [] then 0 else Deeper(Nesting(members[0].value), MembersNesting(members[1..]))
  }

  lemma {:induction false} StoreNesting(before: KeyOrder, ms: seq<Member>, m: Member)
    ensures MembersNesting(Store(before, ms, m)) <= Deeper(MembersNesting(ms), Nesting(m.value))
  {
    var to := Store(before, ms, m);
    if ms == [] {
      assert to[1..] == [];
    } else if ms[0].key == m.key {
      assert to[1..] == ms[1..];
    } else if before(m.key, ms[0].key) {
      assert to[1..] == ms;
    } else {
      StoreNesting(before, ms[1..], m);
      assert to[1..] == Store(before, ms[1..], m);
    }
  }

  lemma {:induction false} InitNesting(members: seq<Member>)
    requires members != []
    ensures MembersNesting(members) ==
            Deeper(MembersNesting(members[..|members| - 1]), Nesting(members[|members| - 1].value))
  {
    if |members| == 1 {
      assert members[..0] == [] && members[1..] == [];
    } else {
      InitNesting(members[1..]);
      assert members[1..][..|members| - 2] == members[..|members| - 1][1..];
    }
  }

  /** Storing a document never nests it deeper. */
  lemma {:induction false} NormalNesting(before: KeyOrder, j: Json)
    ensures Nesting(Normal(before, j)) <= Nesting(j)
    decreases j, 1
  {
    match j {
      case Arr(items) => NormalItemsNesting(before, items);
      case Obj(members) => NormalMembersNesting(before, members);
      case _ =>
    }
  }

  lemma {:induction false} NormalItemsNesting(before: KeyOrder, items: seq<Json>)
    ensures ItemsNesting(NormalItems(before, items)) <= ItemsNesting(items)
    decreases items, 0
  {
    if items != [] {
      NormalNesting(before, items[0]);
      NormalItemsNesting(before, items[1..]);
      assert NormalItems(before, items)[1..] == NormalItems(before, items[1..]);
    }
  }

  lemma {:induction false} NormalMembersNesting(before: KeyOrder, members: seq<Member>)
    ensures MembersNesting(NormalMembers(before, members)) <= MembersNesting(members)
    decreases members, 0
  {
    if members != [] {
      var last := members[|members| - 1];
      InitNesting(members);
      NormalMembersNesting(before, members[..|members| - 1]);
      NormalNesting(before, last.value);
      StoreNesting(before, NormalMembers(before, members[..|members| - 1]),
          Member(last.key, Normal(before, last.value)));
    }
  }

  // ----- the check, and its theorem ------------------------------------------

  /** What validateJSONBBudget accepts: valid JSON of the right size, clean escapes, sound tokens within the limit. */
  predicate AcceptsText(text: string, limit: nat) {
    && Parse(text).Some? && Nesting(Parse(text).value) <= MAX_NESTING
    && S.Clean(EncodeAll(text), false)
    && Accepts(Utf8Bytes(text), Parse(text).value, limit)
  }

  /** The values of a document lie at most `depth` brackets deep. */
  predicate NoDeeper(j: Json, depth: nat)
    decreases j
  {
    match j
    case Arr(items) => depth > 0 && forall i :: 0 <= i < |items| ==> NoDeeper(items[i], depth - 1)
    case Obj(members) => depth > 0 && forall i :: 0 <= i < |members| ==> NoDeeper(members[i].value, depth - 1)
    case _ => true
  }

  lemma {:induction false} NestingExactly(j: Json, depth: nat)
    ensures Nesting(j) <= depth <==> NoDeeper(j, depth)
    decreases j, 1
  {
    if depth > 0 {
      match j {
        case Arr(items) => ItemsNestingExactly(items, depth - 1);
        case Obj(members) => MembersNestingExactly(members, depth - 1);
        case _ =>
      }
    }
  }

  lemma {:induction false} ItemsNestingExactly(items: seq<Json>, depth: nat)
    ensures ItemsNesting(items) <= depth <==> forall i :: 0 <= i < |items| ==> NoDeeper(items[i], depth)
    decreases items, 0
  {
    if items != [] {
      NestingExactly(items[0], depth);
      ItemsNestingExactly(items[1..], depth);
      assert forall i :: 0 < i < |items| ==> items[i] == items[1..][i - 1];
    }
  }

  lemma {:induction false} MembersNestingExactly(members: seq<Member>, depth: nat)
    ensures MembersNesting(members) <= depth <==> forall i :: 0 <= i < |members| ==> NoDeeper(members[i].value, depth)
    decreases members, 0
  {
    if members != [] {
      NestingExactly(members[0].value, depth);
      MembersNestingExactly(members[1..], depth);
      assert forall i :: 0 < i < |members| ==> members[i] == members[1..][i - 1];
    }
  }

  /** The text is one JSON document that PostgreSQL can store: not nested too deep, no half of a surrogate pair, every
      token storable, and both the text and its tokens with separators within the limit. */
  ghost predicate Admissible(text: string, d: Item, j: Json, limit: nat) {
    && Spells(d, text, j) && NoDeeper(j, 10000) && S.Clean(EncodeAll(text), false)
    && Utf8Bytes(text) <= limit && Affordable(Tokens(j), limit)
  }

  lemma AcceptsExactly(text: string, limit: nat)
    ensures AcceptsText(text, limit) <==> exists d, j :: Admissible(text, d, j, limit)
  {
    if Parse(text).Some? {
      var j := Parse(text).value;
      ParseExactly(text, j);
      NestingExactly(j, MAX_NESTING);
      AffordableExactly(Tokens(j), limit);
      if AcceptsText(text, limit) {
        var d :| Spells(d, text, j);
        assert Admissible(text, d, j, limit);
      }
    }
    forall d, j | Admissible(text, d, j, limit) ensures AcceptsText(text, limit) {
      SpelledParses(d, text, j);
    }
  }

  /** validateJSONBBudget, on every text. */
  method ValidateText(text: string, limit: nat) returns (ok: bool)
    ensures ok <==> AcceptsText(text, limit)
    ensures ok <==> exists d, j :: Admissible(text, d, j, limit)
  {
    AcceptsExactly(text, limit);
    var raw := EncodeAll(text);
    if |raw| > limit {
      return false;
    }
    var j := Parse(text);
    if j.None? || Nesting(j.value) > MAX_NESTING {
      return false;
    }
    ghost var chunks := ParsedHasChunks(text);
    ok := S.ScanSurrogates(raw, chunks);
    if ok {
      ok := ValidateBudget(|raw|, j.value, limit);
    }
  }

  /** An accepted text stays accepted: what PostgreSQL prints for the stored document reads back as that document
      and passes the whole check again, in whatever order it stores the keys. */
  lemma AcceptedStaysAccepted(before: KeyOrder, text: string, limit: nat)
    requires AcceptsText(text, limit)
    ensures var stored := Normal(before, Parse(text).value);
            Parse(Print(stored)) == Some(stored) && AcceptsText(Print(stored), limit)
  {
    var j := Parse(text).value;
    var stored := Normal(before, j);
    NormalTames(before, j);
    PrintedParses(stored);
    PrintedClean(stored);
    NormalNesting(before, j);
    StoredFormAccepted(before, Utf8Bytes(text), j, limit);
  }
}
