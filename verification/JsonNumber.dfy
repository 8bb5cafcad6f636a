/** JSON numbers as PostgreSQL's jsonb keeps them: exponents expanded into plain
    digits, without changing the value. */
module JsonNumber {
  type Digit = d: int | 0 <= d <= 9

  const MAX_INTEGER_DIGITS: int := 131072
  const MAX_FRACTION_DIGITS: int := 16383

  /** A number literal; `exp` is 0 when there is no exponent part. */
  datatype Number = Number(neg: bool, integer: seq<Digit>, fraction: seq<Digit>, exp: int)

  /** The grammar: at least one integer digit, and no leading zero before another. */
  predicate Literal(n: Number) {
    n.integer != [] && (|n.integer| > 1 ==> n.integer[0] != 0)
  }

  function LeadingZeros(ds: seq<Digit>): (z: nat)
    ensures z <= |ds|
  {
    if ds == [] || ds[0] != 0 then 0 else 1 + LeadingZeros(ds[1..])
  }

  function Max(a: int, b: int): int {
    if a < b then b else a
  }

  /** The range check: the exponent is a 32-bit integer and neither side expands too far. */
  predicate InRange(n: Number) {
    && -0x8000_0000 <= n.exp < 0x8000_0000
    && |n.integer| - LeadingZeros(n.integer + n.fraction) + n.exp <= MAX_INTEGER_DIGITS
    && |n.fraction| - n.exp <= MAX_FRACTION_DIGITS
    && n.exp <= MAX_INTEGER_DIGITS
    && n.exp >= -MAX_FRACTION_DIGITS - |n.integer|
  }

  /** What the estimate charges, computed from lengths alone. */
  function Charge(n: Number): nat {
    var integerBytes := Max(1, |n.integer| + n.exp);
    var fractionBytes := Max(0, |n.fraction| - n.exp);
    integerBytes + fractionBytes + (if fractionBytes > 0 then 1 else 0) + (if n.neg then 1 else 0)
  }

  // ----- expansion -----------------------------------------------------------

  function Zeros(k: nat): (ds: seq<Digit>)
    ensures |ds| == k
  {
    seq(k, i => 0)
  }

  function Strip(ds: seq<Digit>): seq<Digit> {
    ds[LeadingZeros(ds)..]
  }

  /** The digits before the decimal point once the exponent has moved it. */
  function IntegerDigits(n: Number): seq<Digit> {
    var ds, point := n.integer + n.fraction, |n.integer| + n.exp;
    if point <= 0 then [] else if point <= |ds| then ds[..point] else ds + Zeros(point - |ds|)
  }

  function FractionDigits(n: Number): (f: seq<Digit>)
    ensures |f| == Max(0, |n.fraction| - n.exp)
  {
    var ds, point := n.integer + n.fraction, |n.integer| + n.exp;
    if point >= |ds| then [] else if point >= 0 then ds[point..] else Zeros(-point) + ds
  }

  /** The number as numeric prints it: no exponent, no superfluous leading zero, no sign on zero. */
  function Plain(n: Number): Number {
    var i, f := Strip(IntegerDigits(n)), FractionDigits(n);
    Number(n.neg && LeadingZeros(n.integer + n.fraction) < |n.integer + n.fraction|, if i == [] then [0] else i, f, 0)
  }

  lemma PlainIsLiteral(n: Number)
    ensures Literal(Plain(n)) && Plain(n).exp == 0
  {
    StripHead(IntegerDigits(n));
  }

  lemma {:induction false} StripHead(ds: seq<Digit>)
    ensures Strip(ds) != [] ==> Strip(ds)[0] != 0
    ensures forall i :: 0 <= i < LeadingZeros(ds) ==> ds[i] == 0
  {
    if ds != [] && ds[0] == 0 {
      StripHead(ds[1..]);
      assert Strip(ds) == Strip(ds[1..]);
      assert forall i :: 0 < i < LeadingZeros(ds) ==> ds[i] == ds[1..][i - 1];
    }
  }

  // ----- the value is kept ---------------------------------------------------

  function Value(ds: seq<Digit>): nat {
    if ds == [] then 0 else 10 * Value(ds[..|ds| - 1]) + ds[|ds| - 1]
  }

  function Pow10(k: nat): nat {
    if k == 0 then 1 else 10 * Pow10(k - 1)
  }

  lemma {:induction false} ValueZeroHead(ds: seq<Digit>)
    ensures Value([0] + ds) == Value(ds)
  {
    if ds == [] {
      assert ([0] + ds)[..0] == [];
    } else {
      assert ([0] + ds)[..|ds|] == [0] + ds[..|ds| - 1];
      ValueZeroHead(ds[..|ds| - 1]);
    }
  }

  lemma {:induction false} ValueStrip(ds: seq<Digit>)
    ensures Value(Strip(ds)) == Value(ds)
  {
    if ds != [] && ds[0] == 0 {
      ValueStrip(ds[1..]);
      assert Strip(ds) == Strip(ds[1..]);
      assert ds == [0] + ds[1..];
      ValueZeroHead(ds[1..]);
    }
  }

  /** Stripping before appending more digits changes nothing either. */
  lemma {:induction false} ValueStripAppend(ds: seq<Digit>, es: seq<Digit>)
    ensures Value(Strip(ds) + es) == Value(ds + es)
  {
    if es == [] {
      assert Strip(ds) + es == Strip(ds) && ds + es == ds;
      ValueStrip(ds);
    } else {
      var init := es[..|es| - 1];
      assert (Strip(ds) + es)[..|Strip(ds) + es| - 1] == Strip(ds) + init;
      assert (ds + es)[..|ds + es| - 1] == ds + init;
      ValueStripAppend(ds, init);
    }
  }

  lemma {:induction false} ValueZerosFront(k: nat, ds: seq<Digit>)
    ensures Value(Zeros(k) + ds) == Value(ds)
  {
    if k == 0 {
      assert Zeros(0) + ds == ds;
    } else {
      assert Zeros(k) + ds == [0] + (Zeros(k - 1) + ds);
      ValueZeroHead(Zeros(k - 1) + ds);
      ValueZerosFront(k - 1, ds);
    }
  }

  lemma ValueZeroTail(ds: seq<Digit>)
    ensures Value(ds + [0]) == 10 * Value(ds)
  {
    assert (ds + [0])[..|ds|] == ds;
  }

  lemma TenTimes(v: nat, p: nat)
    ensures 10 * (v * p) == v * (10 * p)
  {
  }

  lemma {:induction false} ValueZerosBack(ds: seq<Digit>, k: nat)
    ensures Value(ds + Zeros(k)) == Value(ds) * Pow10(k)
  {
    if k == 0 {
      assert ds + Zeros(0) == ds;
    } else {
      var shorter := ds + Zeros(k - 1);
      assert ds + Zeros(k) == shorter + [0];
      ValueZeroTail(shorter);
      ValueZerosBack(ds, k - 1);
      TenTimes(Value(ds), Pow10(k - 1));
    }
  }

  /** The digits with the zeros the point needs before or after them. */
  function Padded(ds: seq<Digit>, point: int): seq<Digit> {
    if point < 0 then Zeros(-point) + ds else if point <= |ds| then ds else ds + Zeros(point - |ds|)
  }

  lemma ExpandedDigits(n: Number)
    ensures IntegerDigits(n) + FractionDigits(n) == Padded(n.integer + n.fraction, |n.integer| + n.exp)
  {
  }

  lemma PaddedFront(ds: seq<Digit>, k: nat)
    ensures Value(Padded(ds, 0 - k)) == Value(ds)
  {
    ValueZerosFront(k, ds);
    assert Padded(ds, 0 - k) == Zeros(k) + ds;
  }

  lemma PaddedBack(ds: seq<Digit>, k: nat)
    ensures Value(Padded(ds, |ds| + k)) == Value(ds) * Pow10(k)
  {
    ValueZerosBack(ds, k);
    assert Padded(ds, |ds| + k) == ds + Zeros(k);
  }

  lemma PaddedWithin(ds: seq<Digit>, point: int)
    requires point <= |ds|
    ensures Value(Padded(ds, point)) == Value(ds)
  {
    if point < 0 { PaddedFront(ds, -point); }
  }

  lemma TimesOne(v: nat)
    ensures v * Pow10(0) == v
  {
    assert Pow10(0) == 1;
  }

  lemma PaddedValue(ds: seq<Digit>, point: int)
    ensures Value(Padded(ds, point)) == Value(ds) * Pow10(Max(0, point - |ds|))
  {
    var k := Max(0, point - |ds|);
    if point > |ds| {
      PaddedBack(ds, k);
    } else {
      PaddedWithin(ds, point);
      TimesOne(Value(ds));
    }
  }

  lemma ExpandedValue(n: Number)
    ensures Value(IntegerDigits(n) + FractionDigits(n)) ==
            Value(n.integer + n.fraction) * Pow10(Max(0, n.exp - |n.fraction|))
  {
    ExpandedDigits(n);
    PaddedValue(n.integer + n.fraction, |n.integer| + n.exp);
  }

  lemma {:induction false} ValuePositive(ds: seq<Digit>)
    ensures Value(ds) > 0 <==> LeadingZeros(ds) < |ds|
  {
    if ds != [] {
      var init, last := ds[..|ds| - 1], ds[|ds| - 1];
      ValuePositive(init);
      LeadingZerosInit(init, last);
      assert ds == init + [last];
    }
  }

  lemma {:induction false} LeadingZerosInit(init: seq<Digit>, last: Digit)
    ensures LeadingZeros(init + [last]) < |init| + 1 <==> LeadingZeros(init) < |init| || last != 0
  {
    if init == [] {
      assert (init + [last])[1..] == [];
    } else {
      assert (init + [last])[1..] == init[1..] + [last];
      LeadingZerosInit(init[1..], last);
    }
  }

  /** The plain number denotes the same value: its digits are the literal's, scaled by the digits
      after its point, for every literal; and it keeps the sign of every number but zero. */
  lemma PlainKeepsValue(n: Number)
    ensures Plain(n).neg <==> n.neg && Value(n.integer + n.fraction) > 0
    ensures |Plain(n).fraction| == Max(0, |n.fraction| - n.exp)
    ensures Value(Plain(n).integer + Plain(n).fraction) ==
            Value(n.integer + n.fraction) * Pow10(Max(0, n.exp - |n.fraction|))
  {
    var i, f := IntegerDigits(n), FractionDigits(n);
    ValuePositive(n.integer + n.fraction);
    ExpandedValue(n);
    ValueStripAppend(i, f);
    if Strip(i) == [] {
      assert Strip(i) + f == f;
      ValueZeroHead(f);
    }
  }

  // ----- the check is stable -------------------------------------------------

  lemma {:induction false} LeadingZerosBelow(ds: seq<Digit>, k: nat)
    requires k <= |ds| && forall i :: 0 <= i < k ==> ds[i] == 0
    ensures LeadingZeros(ds) >= k
    ensures k < |ds| && ds[k] != 0 ==> LeadingZeros(ds) == k
    decreases k
  {
    if k > 0 {
      assert forall i :: 0 <= i < k - 1 ==> ds[1..][i] == ds[i + 1];
      LeadingZerosBelow(ds[1..], k - 1);
    }
  }

  /** How many integer digits survive: those the point leaves after the literal's leading zeros. */
  lemma StrippedLength(n: Number)
    ensures var z, point := LeadingZeros(n.integer + n.fraction), |n.integer| + n.exp;
            |Strip(IntegerDigits(n))| == if z == |n.integer + n.fraction| then 0 else Max(0, point - z)
  {
    var ds, i := n.integer + n.fraction, IntegerDigits(n);
    var z, point := LeadingZeros(ds), |n.integer| + n.exp;
    StripHead(ds);
    var k := if z == |ds| || point <= z then |i| else z;
    forall j | 0 <= j < k ensures i[j] == 0 {
      if j < |ds| { assert i[j] == ds[j]; }
    }
    if k < |i| {
      assert i[k] == ds[z] == Strip(ds)[0];
    }
    LeadingZerosBelow(i, k);
  }

  /** The range check decides exactly this: the exponent is at most the integer limit, and the expansion keeps at most
      131072 integer digits besides leading zeros and at most 16383 fraction digits. */
  lemma InRangeExactly(n: Number)
    ensures InRange(n) <==>
            && n.exp <= MAX_INTEGER_DIGITS
            && |Strip(IntegerDigits(n))| <= MAX_INTEGER_DIGITS
            && |FractionDigits(n)| <= MAX_FRACTION_DIGITS
  {
    StrippedLength(n);
  }

  /** A number is charged exactly the digits of its expansion, leading zeros and a zero's sign included. */
  lemma ChargeExactly(n: Number)
    ensures Charge(n) == (if n.neg then 1 else 0) + (if IntegerDigits(n) == [] then 1 else |IntegerDigits(n)|) +
            (if FractionDigits(n) == [] then 0 else 1 + |FractionDigits(n)|)
  {
  }

  /** Expanding never costs: every number's plain form is charged no more than the number. */
  lemma PlainChargedNoMore(n: Number)
    ensures Charge(Plain(n)) <= Charge(n)
  {
    StrippedLength(n);
  }

  /** Expanding an accepted number yields an accepted number within the digit bounds. */
  lemma PlainStaysInRange(n: Number)
    requires InRange(n)
    ensures InRange(Plain(n))
    ensures |Plain(n).integer| <= MAX_INTEGER_DIGITS && |Plain(n).fraction| <= MAX_FRACTION_DIGITS
  {
    var p := Plain(n);
    StrippedLength(n);
    if Strip(IntegerDigits(n)) == [] {
      assert (p.integer + p.fraction)[0] == 0;
    }
  }
}
