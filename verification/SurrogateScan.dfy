/** The scan for unpaired UTF-16 surrogates in the raw bytes of a JSON text.

    encoding/json replaces unpaired surrogates silently, so they are looked for
    before decoding, by an index that jumps over escapes.  A valid JSON text is,
    lexically, bytes outside strings and string literals made of plain bytes,
    short escapes and \u escapes (section 7 of RFC 8259). */
module SurrogateScan {
  import opened Wrappers

  type Byte = b: int | 0 <= b < 256

  const QUOTE: Byte := 0x22
  const BACKSLASH: Byte := 0x5c
  const LETTER_U: Byte := 0x75

  datatype Unit =
    | Plain(b: Byte)
    | Short(c: Byte)
    | Escaped(h: seq<Byte>)

  datatype Chunk = Outside(bytes: seq<Byte>) | Literal(units: seq<Unit>)

  function HexDigit(b: Byte): Option<int> {
    if 0x30 <= b <= 0x39 then Some(b - 0x30)
    else if 0x61 <= b <= 0x66 then Some(b - 0x61 + 10)
    else if 0x41 <= b <= 0x46 then Some(b - 0x41 + 10)
    else None
  }

  /** strconv.ParseUint(_, 16, 16) on four bytes. */
  function ParseHex(h: seq<Byte>): Option<int>
    requires |h| == 4
  {
    var a, b, c, d := HexDigit(h[0]), HexDigit(h[1]), HexDigit(h[2]), HexDigit(h[3]);
    if a.Some? && b.Some? && c.Some? && d.Some? then Some(4096 * a.value + 256 * b.value + 16 * c.value + d.value)
    else None
  }

  predicate UnitOk(u: Unit) {
    match u
    case Plain(b) => b != QUOTE && b != BACKSLASH && b >= 0x20
    case Short(c) => c in {0x22, 0x5c, 0x2f, 0x62, 0x66, 0x6e, 0x72, 0x74}
    case Escaped(h) => |h| == 4 && ParseHex(h).Some?
  }

  predicate ChunkOk(c: Chunk) {
    match c
    case Outside(bytes) => QUOTE !in bytes
    case Literal(units) => forall u <- units :: UnitOk(u)
  }

  predicate ChunksOk(cs: seq<Chunk>) {
    cs == [] || (ChunkOk(cs[0]) && ChunksOk(cs[1..]))
  }

  function UnitBytes(u: Unit): seq<Byte> {
    match u
    case Plain(b) => [b]
    case Short(c) => [BACKSLASH, c]
    case Escaped(h) => [BACKSLASH, LETTER_U] + h
  }

  function UnitsBytes(us: seq<Unit>): seq<Byte> {
    if us == [] then [] else UnitBytes(us[0]) + UnitsBytes(us[1..])
  }

  function ChunkBytes(c: Chunk): seq<Byte> {
    match c
    case Outside(bytes) => bytes
    case Literal(units) => [QUOTE] + UnitsBytes(units) + [QUOTE]
  }

  function TextBytes(cs: seq<Chunk>): seq<Byte> {
    if cs == [] then [] else ChunkBytes(cs[0]) + TextBytes(cs[1..])
  }

  // ----- what is looked for --------------------------------------------------

  predicate High(u: int) {
    0xd800 <= u <= 0xdbff
  }

  predicate Low(u: int) {
    0xdc00 <= u <= 0xdfff
  }

  /** The UTF-16 code unit an escape stands for; anything else in a string is no surrogate. */
  function Code(u: Unit): int {
    if u.Escaped? && |u.h| == 4 && ParseHex(u.h).Some? then ParseHex(u.h).value else 0
  }

  /** Well-formed UTF-16: each high surrogate is followed by a low one, each low one follows a high one. */
  ghost predicate WellPaired(us: seq<Unit>) {
    && (forall i :: 0 <= i < |us| && High(Code(us[i])) ==> i + 1 < |us| && Low(Code(us[i + 1])))
    && (forall i :: 0 <= i < |us| && Low(Code(us[i])) ==> i > 0 && High(Code(us[i - 1])))
  }

  /** The same, read from the left. */
  predicate Paired(us: seq<Unit>) {
    if us == [] then true
    else if High(Code(us[0])) then |us| > 1 && Low(Code(us[1])) && Paired(us[2..])
    else !Low(Code(us[0])) && Paired(us[1..])
  }

  lemma {:induction false} PairedIsWellPaired(us: seq<Unit>)
    ensures Paired(us) <==> WellPaired(us)
  {
    if us == [] {
    } else if High(Code(us[0])) {
      if |us| > 1 && Low(Code(us[1])) {
        PairedIsWellPaired(us[2..]);
        DropPaired(us, 2);
      }
    } else if !Low(Code(us[0])) {
      PairedIsWellPaired(us[1..]);
      DropPaired(us, 1);
    }
  }

  /** Dropping one non-surrogate, or one whole pair, from the front changes nothing. */
  lemma DropPaired(us: seq<Unit>, k: nat)
    requires k == 1 || k == 2
    requires |us| >= k && if k == 1 then !High(Code(us[0])) && !Low(Code(us[0]))
                          else High(Code(us[0])) && Low(Code(us[1]))
    ensures WellPaired(us) <==> WellPaired(us[k..])
  {
    var vs := us[k..];
    if WellPaired(vs) {
      forall i | 0 <= i < |us| && High(Code(us[i])) ensures i + 1 < |us| && Low(Code(us[i + 1])) {
        if i >= k { assert vs[i - k] == us[i]; }
      }
      forall i | 0 <= i < |us| && Low(Code(us[i])) ensures i > 0 && High(Code(us[i - 1])) {
        if i >= k { assert vs[i - k] == us[i]; }
      }
    }
    if WellPaired(us) {
      forall i | 0 <= i < |vs| && High(Code(vs[i])) ensures i + 1 < |vs| && Low(Code(vs[i + 1])) {
        assert us[i + k] == vs[i];
      }
      forall i | 0 <= i < |vs| && Low(Code(vs[i])) ensures i > 0 && High(Code(vs[i - 1])) {
        assert us[i + k] == vs[i];
      }
    }
  }

  predicate AllPaired(cs: seq<Chunk>) {
    cs == [] || ((cs[0].Literal? ==> Paired(cs[0].units)) && AllPaired(cs[1..]))
  }

  // ----- reading units from bytes -------------------------------------------

  /** The bytes of a string from some unit on, up to its closing quote and beyond. */
  function Onward(us: seq<Unit>, rest: seq<Byte>): seq<Byte> {
    UnitsBytes(us) + [QUOTE] + rest
  }

  lemma OnwardFirst(us: seq<Unit>, rest: seq<Byte>)
    requires us != []
    ensures Onward(us, rest) == UnitBytes(us[0]) + Onward(us[1..], rest)
  {
    var x, y := UnitBytes(us[0]), UnitsBytes(us[1..]);
    assert (x + y) + [QUOTE] + rest == x + (y + [QUOTE] + rest);
  }

  lemma EscapedFirst(h: seq<Byte>, more: seq<Byte>)
    requires |h| == 4
    ensures var tail := UnitBytes(Escaped(h)) + more;
            |tail| == 6 + |more| && tail[0] == BACKSLASH && tail[1] == LETTER_U && tail[2..6] == h && tail[6..] == more
  {
  }

  /** What the first byte of the rest of a string means, and what follows its first unit. */
  lemma Leading(us: seq<Unit>, rest: seq<Byte>)
    requires forall x <- us :: UnitOk(x)
    ensures var tail := Onward(us, rest);
            && |tail| >= 1
            && (us == [] <==> tail[0] == QUOTE)
            && (us == [] ==> tail[1..] == rest)
            && (us != [] ==>
                  var more := Onward(us[1..], rest);
                  match us[0]
                  case Plain(_) => tail[0] != BACKSLASH && tail[1..] == more
                  case Short(c) => tail[0] == BACKSLASH && |tail| >= 2 && tail[1] != LETTER_U && tail[2..] == more
                  case Escaped(h) =>
                    && tail[0] == BACKSLASH && |tail| >= 7 && tail[1] == LETTER_U
                    && tail[2..6] == h && tail[6..] == more)
  {
    if us != [] {
      assert UnitOk(us[0]) by { assert us[0] in us; }
      OnwardFirst(us, rest);
      if us[0].Escaped? { EscapedFirst(us[0].h, Onward(us[1..], rest)); }
    }
  }

  // ----- what the scan decides, on any bytes ---------------------------------

  /** The code unit of a \u escape at the head of the bytes. */
  function EscapeAt(raw: seq<Byte>): Option<int> {
    if |raw| >= 6 && raw[0] == BACKSLASH && raw[1] == LETTER_U then ParseHex(raw[2..6]) else None
  }

  /** No surrogate escape stands alone in any string; `inside` says whether the bytes start within one. */
  predicate Clean(raw: seq<Byte>, inside: bool)
    decreases |raw|
  {
    if raw == [] then true
    else if raw[0] == QUOTE then Clean(raw[1..], !inside)
    else if !inside || raw[0] != BACKSLASH then Clean(raw[1..], inside)
    else if |raw| == 1 || raw[1] != LETTER_U then Clean(raw[if |raw| == 1 then 1 else 2..], true)
    else
      var u := EscapeAt(raw);
      if u.None? then false
      else if High(u.value) then EscapeAt(raw[6..]).Some? && Low(EscapeAt(raw[6..]).value) && Clean(raw[12..], true)
      else !Low(u.value) && Clean(raw[6..], true)
  }

  lemma EscapeAtUnit(us: seq<Unit>, rest: seq<Byte>)
    requires forall x <- us :: UnitOk(x)
    ensures EscapeAt(Onward(us, rest)) == if us != [] && us[0].Escaped? then Some(Code(us[0])) else None
  {
    Leading(us, rest);
    if us != [] { assert UnitOk(us[0]) by { assert us[0] in us; } }
  }

  lemma {:induction false} CleanString(us: seq<Unit>, rest: seq<Byte>)
    requires forall x <- us :: UnitOk(x)
    ensures Clean(Onward(us, rest), true) <==> Paired(us) && Clean(rest, false)
    decreases |us|
  {
    Leading(us, rest);
    if us != [] {
      assert forall x <- us[1..] :: x in us;
      if us[0].Escaped? {
        CleanEscaped(us, rest);
      } else {
        CleanString(us[1..], rest);
      }
    }
  }

  lemma {:induction false} CleanEscaped(us: seq<Unit>, rest: seq<Byte>)
    requires us != [] && us[0].Escaped? && forall x <- us :: UnitOk(x)
    ensures Clean(Onward(us, rest), true) <==> Paired(us) && Clean(rest, false)
    decreases |us|, 0
  {
    var tail, more := Onward(us, rest), Onward(us[1..], rest);
    assert forall x <- us[1..] :: x in us;
    Leading(us, rest);
    EscapeAtUnit(us, rest);
    EscapeAtUnit(us[1..], rest);
    if High(Code(us[0])) {
      if |us| > 1 && Low(Code(us[1])) {
        assert us[1..][0] == us[1] && us[1].Escaped? && us[1..][1..] == us[2..];
        Leading(us[1..], rest);
        assert tail[12..] == more[6..] == Onward(us[2..], rest);
        assert forall x <- us[2..] :: x in us;
        CleanString(us[2..], rest);
      }
    } else {
      CleanString(us[1..], rest);
    }
  }

  lemma {:induction false} CleanOutside(bytes: seq<Byte>, rest: seq<Byte>)
    requires QUOTE !in bytes
    ensures Clean(bytes + rest, false) == Clean(rest, false)
  {
    if bytes == [] {
      assert bytes + rest == rest;
    } else {
      assert (bytes + rest)[1..] == bytes[1..] + rest;
      CleanOutside(bytes[1..], rest);
    }
  }

  /** On a lexically valid text: clean exactly when every string is paired. */
  lemma {:induction false} CleanText(cs: seq<Chunk>)
    requires ChunksOk(cs)
    ensures Clean(TextBytes(cs), false) <==> AllPaired(cs)
  {
    if cs != [] {
      CleanText(cs[1..]);
      match cs[0] {
        case Outside(bytes) => CleanOutside(bytes, TextBytes(cs[1..]));
        case Literal(units) =>
          OpeningQuote(cs);
          assert TextBytes(cs)[1..] == Onward(units, TextBytes(cs[1..]));
          CleanString(units, TextBytes(cs[1..]));
      }
    }
  }

  // ----- the scan ------------------------------------------------------------

  lemma TailAt(raw: seq<Byte>, k: nat, j: nat)
    requires k + j < |raw|
    ensures raw[k..][j] == raw[k + j]
  {
  }

  lemma TailRange(raw: seq<Byte>, k: nat, a: nat, b: nat)
    requires a <= b && k + b <= |raw|
    ensures raw[k..][a..b] == raw[k + a..k + b] && raw[k..][b..] == raw[k + b..]
  {
  }

  /** One \u escape inside a string, with the index on its last digit; skips the low half of a pair. */
  method CheckEscape(raw: seq<Byte>, start: nat, u: int, ghost us: seq<Unit>, ghost rest: seq<Byte>)
    returns (ok: bool, i: nat, ghost after: seq<Unit>)
    requires us != [] && us[0].Escaped? && forall x <- us :: UnitOk(x)
    requires u == Code(us[0])
    requires start + 1 <= |raw| && raw[start + 1..] == Onward(us[1..], rest)
    ensures ok <==> !Low(u) && (High(u) ==> |us| > 1 && Low(Code(us[1])))
    ensures ok ==> Paired(us) == Paired(after) && i + 1 <= |raw| && raw[i + 1..] == Onward(after, rest)
    ensures ok ==> start <= i && (forall x <- after :: UnitOk(x)) && |after| < |us|
  {
    i, after := start, us[1..];
    assert forall x <- after :: x in us;
    if 0xd800 <= u <= 0xdbff {
      ghost var tail := raw[i + 1..];
      Leading(us[1..], rest);
      assert us[1..] != [] ==> us[1..][0] == us[1];
      if i + 6 >= |raw| || raw[i + 1] != BACKSLASH || raw[i + 2] != LETTER_U {
        if i + 6 < |raw| {
          TailAt(raw, i + 1, 0);
          TailAt(raw, i + 1, 1);
        }
        return false, i, after;
      }
      TailAt(raw, i + 1, 0);
      TailAt(raw, i + 1, 1);
      TailRange(raw, i + 1, 2, 6);
      var low := ParseHex(raw[i + 3..i + 7]);
      if low.None? || low.value < 0xdc00 || low.value > 0xdfff {
        return false, i, after;
      }
      i := i + 6;
      after := us[2..];
      assert raw[i + 1..] == tail[6..];
      return true, i, after;
    }
    ok := !(0xdc00 <= u <= 0xdfff);
  }

  /** What the scan sees at the head of the rest of a string. */
  lemma HeadUnit(raw: seq<Byte>, start: nat, us: seq<Unit>, rest: seq<Byte>)
    requires start < |raw| && raw[start] != QUOTE && raw[start..] == Onward(us, rest) && forall x <- us :: UnitOk(x)
    ensures us != [] && UnitOk(us[0]) && forall x <- us[1..] :: UnitOk(x)
    ensures match us[0]
            case Plain(_) => raw[start] != BACKSLASH && raw[start + 1..] == Onward(us[1..], rest)
            case Short(_) =>
              && raw[start] == BACKSLASH && start + 2 <= |raw| && raw[start + 1] != LETTER_U
              && raw[start + 2..] == Onward(us[1..], rest)
            case Escaped(h) =>
              && raw[start] == BACKSLASH && start + 7 <= |raw| && raw[start + 1] == LETTER_U
              && raw[start + 2..start + 6] == h && raw[start + 6..] == Onward(us[1..], rest)
  {
    Leading(us, rest);
    TailAt(raw, start, 0);
    assert us[0] in us && forall x <- us[1..] :: x in us;
    match us[0] {
      case Plain(_) => TailRange(raw, start, 0, 1);
      case Short(_) =>
        TailAt(raw, start, 1);
        TailRange(raw, start, 0, 2);
      case Escaped(_) =>
        TailAt(raw, start, 1);
        TailRange(raw, start, 2, 6);
    }
  }

  /** One unit of a string: the index moves to the last byte of the unit, or of its pair. */
  method ScanUnit(raw: seq<Byte>, start: nat, ghost us: seq<Unit>, ghost rest: seq<Byte>)
    returns (ok: bool, i: nat, ghost after: seq<Unit>)
    requires start < |raw| && raw[start] != QUOTE && raw[start..] == Onward(us, rest) && forall x <- us :: UnitOk(x)
    ensures !ok ==> !Paired(us)
    ensures ok ==> Paired(us) == Paired(after) && start <= i < |raw| && raw[i + 1..] == Onward(after, rest)
    ensures ok ==> (forall x <- after :: UnitOk(x)) && |after| < |us|
  {
    i, ok, after := start, true, us[1..];
    HeadUnit(raw, start, us, rest);
    if raw[i] == BACKSLASH {
      i := i + 1;
      if raw[i] == LETTER_U {
        var u := ParseHex(raw[i + 1..i + 5]).value;
        i := i + 4;
        ok, i, after := CheckEscape(raw, i, u, us, rest);
      }
    }
  }

  /** One turn of the inner loop: the unit, then the loop's own increment. */
  method PassUnit(raw: seq<Byte>, start: nat, ghost us: seq<Unit>, ghost rest: seq<Byte>)
    returns (ok: bool, i: nat, ghost after: seq<Unit>)
    requires start < |raw| && raw[start] != QUOTE && raw[start..] == Onward(us, rest) && forall x <- us :: UnitOk(x)
    ensures !ok ==> !Paired(us)
    ensures ok ==> Paired(us) == Paired(after) && start < i <= |raw| && raw[i..] == Onward(after, rest)
    ensures ok ==> (forall x <- after :: UnitOk(x)) && |after| < |us|
  {
    var last;
    ok, last, after := ScanUnit(raw, start, us, rest);
    i := last + 1;
  }

  lemma StringEnds(raw: seq<Byte>, i: nat, us: seq<Unit>, rest: seq<Byte>)
    requires i <= |raw| && raw[i..] == Onward(us, rest) && forall x <- us :: UnitOk(x)
    ensures i < |raw| && (raw[i] == QUOTE ==> us == [] && raw[i + 1..] == rest)
  {
    Leading(us, rest);
    TailAt(raw, i, 0);
    TailRange(raw, i, 0, 1);
  }

  /** The inside of one string, from the byte after its opening quote to its closing quote. */
  method ScanString(raw: seq<Byte>, start: nat, ghost units: seq<Unit>, ghost rest: seq<Byte>)
    returns (ok: bool, i: nat)
    requires start <= |raw| && raw[start..] == Onward(units, rest) && forall x <- units :: UnitOk(x)
    ensures ok <==> Paired(units)
    ensures ok ==> start <= i < |raw| && raw[i] == QUOTE && raw[i + 1..] == rest
  {
    i, ok := start, true;
    ghost var us := units;
    while i < |raw| && raw[i] != QUOTE
      invariant start <= i <= |raw| && raw[i..] == Onward(us, rest)
      invariant (forall x <- us :: UnitOk(x)) && Paired(us) == Paired(units)
      decreases |us|
    {
      ok, i, us := PassUnit(raw, i, us, rest);
      if !ok {
        return;
      }
    }
    StringEnds(raw, i, us, rest);
    ok := true;
  }

  /** Collect the bytes up to the next string. */
  lemma {:induction false} UpToString(cs: seq<Chunk>) returns (bytes: seq<Byte>, rest: seq<Chunk>)
    requires ChunksOk(cs)
    ensures TextBytes(cs) == bytes + TextBytes(rest) && QUOTE !in bytes
    ensures ChunksOk(rest) && AllPaired(rest) == AllPaired(cs) && |rest| <= |cs|
    ensures rest == [] || rest[0].Literal?
  {
    if cs == [] || cs[0].Literal? {
      bytes, rest := [], cs;
      assert bytes + TextBytes(cs) == TextBytes(cs);
    } else {
      bytes, rest := UpToString(cs[1..]);
      assert cs[0].bytes + (bytes + TextBytes(rest)) == (cs[0].bytes + bytes) + TextBytes(rest);
      bytes := cs[0].bytes + bytes;
    }
  }

  /** A literal at the head of the text: its opening quote, then its inside. */
  lemma OpeningQuote(cs: seq<Chunk>)
    requires cs != [] && cs[0].Literal?
    ensures TextBytes(cs) == [QUOTE] + Onward(cs[0].units, TextBytes(cs[1..]))
  {
    Quoted([QUOTE], UnitsBytes(cs[0].units), TextBytes(cs[1..]));
  }

  lemma Quoted(quote: seq<Byte>, us: seq<Byte>, rest: seq<Byte>)
    ensures (quote + us + quote) + rest == quote + (us + quote + rest)
  {
  }

  /** Outside strings at index i: some bytes without a quote, then chunks that start with a string. */
  ghost predicate At(raw: seq<Byte>, i: nat, bytes: seq<Byte>, cs: seq<Chunk>) {
    && i <= |raw| && raw[i..] == bytes + TextBytes(cs) && QUOTE !in bytes
    && ChunksOk(cs) && (cs == [] || cs[0].Literal?)
  }

  lemma AtStart(raw: seq<Byte>, chunks: seq<Chunk>) returns (bytes: seq<Byte>, cs: seq<Chunk>)
    requires ChunksOk(chunks) && raw == TextBytes(chunks)
    ensures At(raw, 0, bytes, cs) && AllPaired(cs) == AllPaired(chunks)
  {
    bytes, cs := UpToString(chunks);
    assert raw[0..] == raw;
  }

  lemma AtPlainByte(raw: seq<Byte>, i: nat, bytes: seq<Byte>, cs: seq<Chunk>, next: nat) returns (bytes': seq<Byte>)
    requires At(raw, i, bytes, cs) && i < |raw| && raw[i] != QUOTE && next == i + 1
    ensures At(raw, next, bytes', cs)
  {
    var tail := raw[i..];
    assert raw[i] == tail[0] && raw[i + 1..] == tail[1..];
    if bytes == [] && cs != [] { OpeningQuote(cs); }
    bytes' := bytes[1..];
  }

  lemma AtQuote(raw: seq<Byte>, i: nat, bytes: seq<Byte>, cs: seq<Chunk>)
    requires At(raw, i, bytes, cs) && i < |raw| && raw[i] == QUOTE
    ensures cs != [] && cs[0].Literal? && raw[i + 1..] == Onward(cs[0].units, TextBytes(cs[1..]))
            && forall x <- cs[0].units :: UnitOk(x)
  {
    var tail := raw[i..];
    assert raw[i] == tail[0] && raw[i + 1..] == tail[1..];
    assert bytes == [];
    assert tail == TextBytes(cs);
    OpeningQuote(cs);
  }

  lemma AfterString(raw: seq<Byte>, i: nat, cs: seq<Chunk>) returns (bytes: seq<Byte>, rest: seq<Chunk>)
    requires i <= |raw| && cs != [] && ChunksOk(cs) && raw[i..] == TextBytes(cs[1..])
    requires cs[0].Literal? && Paired(cs[0].units)
    ensures At(raw, i, bytes, rest) && AllPaired(rest) == AllPaired(cs)
  {
    bytes, rest := UpToString(cs[1..]);
  }

  lemma AtEnd(raw: seq<Byte>, bytes: seq<Byte>, cs: seq<Chunk>)
    requires At(raw, |raw|, bytes, cs)
    ensures AllPaired(cs)
  {
    if cs != [] { OpeningQuote(cs); }
  }

  /** One string from its opening quote on; the index ends after its closing quote. */
  method ScanLiteral(raw: seq<Byte>, start: nat, ghost bytes: seq<Byte>, ghost cs: seq<Chunk>)
    returns (ok: bool, i: nat, ghost bytes': seq<Byte>, ghost cs': seq<Chunk>)
    requires At(raw, start, bytes, cs) && start < |raw| && raw[start] == QUOTE
    ensures !ok ==> !AllPaired(cs)
    ensures ok ==> start < i <= |raw| && At(raw, i, bytes', cs') && AllPaired(cs') == AllPaired(cs)
  {
    bytes', cs' := bytes, cs;
    AtQuote(raw, start, bytes, cs);
    var close;
    ok, close := ScanString(raw, start + 1, cs[0].units, TextBytes(cs[1..]));
    i := close + 1;
    if ok {
      bytes', cs' := AfterString(raw, i, cs);
    }
  }

  method ScanText(raw: seq<Byte>, ghost chunks: seq<Chunk>) returns (ok: bool)
    requires ChunksOk(chunks) && raw == TextBytes(chunks)
    ensures ok <==> AllPaired(chunks)
  {
    var i := 0;
    ghost var bytes, cs := AtStart(raw, chunks);
    while i < |raw|
      invariant At(raw, i, bytes, cs) && AllPaired(cs) == AllPaired(chunks)
      decreases |raw| - i
    {
      if raw[i] != QUOTE {
        bytes := AtPlainByte(raw, i, bytes, cs, i + 1);
        i := i + 1;
      } else {
        ok, i, bytes, cs := ScanLiteral(raw, i, bytes, cs);
        if !ok {
          return;
        }
      }
    }
    AtEnd(raw, bytes, cs);
    ok := true;
  }

  /** The whole scan.  On every lexically valid text no index leaves the buffer, and the text is
      accepted exactly when the escapes of every string are well-paired UTF-16. */
  method ScanSurrogates(raw: seq<Byte>, ghost chunks: seq<Chunk>) returns (ok: bool)
    requires ChunksOk(chunks) && raw == TextBytes(chunks)
    ensures ok <==> forall c <- chunks :: c.Literal? ==> WellPaired(c.units)
    ensures ok <==> Clean(raw, false)
  {
    StringsWellPaired(chunks);
    CleanText(chunks);
    ok := ScanText(raw, chunks);
  }

  lemma {:induction false} StringsWellPaired(cs: seq<Chunk>)
    ensures AllPaired(cs) <==> forall c <- cs :: c.Literal? ==> WellPaired(c.units)
  {
    if cs != [] {
      StringsWellPaired(cs[1..]);
      assert forall c :: c in cs <==> c == cs[0] || c in cs[1..];
      if cs[0].Literal? { PairedIsWellPaired(cs[0].units); }
    }
  }
}
