/** Text fields as sequences of Unicode scalar values, measured in UTF-8 bytes. */
module Fields {
  const FIELD_MAX_BYTES: nat := 64

  function Utf8Len(c: char): nat {
    if c as int < 0x80 then 1 else if c as int < 0x800 then 2 else if c as int < 0x10000 then 3 else 4
  }

  function Utf8Bytes(s: string): nat {
    if s == "" then 0 else Utf8Len(s[0]) + Utf8Bytes(s[1..])
  }

  predicate Control(c: char) {
    (c as int) < 0x20 || 0x7f <= (c as int) <= 0x9f
  }

  /** 1 to max UTF-8 bytes without control characters. */
  predicate ValidStorageField(value: string, max: nat) {
    value != "" && Utf8Bytes(value) <= max && forall c <- value :: !Control(c)
  }

  lemma {:induction false} Utf8Append(s: string, t: string)
    ensures Utf8Bytes(s + t) == Utf8Bytes(s) + Utf8Bytes(t)
  {
    if s == "" {
      assert s + t == t;
    } else {
      assert (s + t)[1..] == s[1..] + t;
      Utf8Append(s[1..], t);
    }
  }

  predicate Ascii(s: string) {
    forall c <- s :: (c as int) < 0x80
  }

  lemma {:induction false} AsciiBytes(s: string)
    requires Ascii(s)
    ensures Utf8Bytes(s) == |s|
  {
    if s != "" {
      assert s[0] in s && forall c <- s[1..] :: c in s;
      AsciiBytes(s[1..]);
    }
  }
}
