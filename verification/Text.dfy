/** Rust strings as UTF-8 bytes: hex, decimal, whitespace trimming and UTF-8 validity. */
module Text {
  import opened Prelude

  type Text = Bytes

  // ---- UTF-8 well-formedness (String::from_utf8) ----

  predicate Continuation(b: Byte) { 0x80 <= b <= 0xBF }

  // Length of the well-formed character at the start of b, or 0 when there is none.
  function CharLength(b: Bytes): (n: nat)
    ensures n <= |b|
  {
    if b == [] then 0
    else if b[0] <= 0x7F then 1
    else if |b| >= 2 && 0xC2 <= b[0] <= 0xDF && Continuation(b[1]) then 2
    else if |b| >= 3 && 0xE0 <= b[0] <= 0xEF && Continuation(b[1]) && Continuation(b[2])
            && (b[0] == 0xE0 ==> b[1] >= 0xA0) && (b[0] == 0xED ==> b[1] <= 0x9F) then 3
    else if |b| >= 4 && 0xF0 <= b[0] <= 0xF4 && Continuation(b[1]) && Continuation(b[2]) && Continuation(b[3])
            && (b[0] == 0xF0 ==> b[1] >= 0x90) && (b[0] == 0xF4 ==> b[1] <= 0x8F) then 4
    else 0
  }

  predicate Utf8(b: Bytes) {
    b == [] || (CharLength(b) > 0 && Utf8(b[CharLength(b)..]))
  }

  lemma {:induction false} AsciiIsUtf8(b: Bytes)
    requires forall i :: 0 <= i < |b| ==> b[i] <= 0x7F
    ensures Utf8(b)
  {
    if b != [] {
      AsciiIsUtf8(b[1..]);
    }
  }

  lemma {:induction false} Utf8Joins(a: Bytes, b: Bytes)
    requires Utf8(a) && Utf8(b)
    ensures Utf8(a + b)
  {
    if a == [] {
      assert a + b == b;
    } else {
      var n := CharLength(a);
      CharStays(a, b);
      assert (a + b)[n..] == a[n..] + b;
      Utf8Joins(a[n..], b);
    }
  }

  lemma CharStays(a: Bytes, b: Bytes)
    requires CharLength(a) > 0
    ensures CharLength(a + b) == CharLength(a)
  {
    assert forall i :: 0 <= i < |a| ==> (a + b)[i] == a[i];
  }

  // ---- str::trim: Unicode White_Space at either end ----

  predicate Space1(a: Byte) { 0x09 <= a <= 0x0D || a == 0x20 }

  predicate Space2(a: Byte, b: Byte) { a == 0xC2 && (b == 0x85 || b == 0xA0) }

  predicate Space3(a: Byte, b: Byte, c: Byte) {
    || (a == 0xE1 && b == 0x9A && c == 0x80)
    || (a == 0xE2 && b == 0x80 && (0x80 <= c <= 0x8A || c == 0xA8 || c == 0xA9 || c == 0xAF))
    || (a == 0xE2 && b == 0x81 && c == 0x9F)
    || (a == 0xE3 && b == 0x80 && c == 0x80)
  }

  function TrimStart(t: Text): Text {
    if |t| >= 1 && Space1(t[0]) then TrimStart(t[1..])
    else if |t| >= 2 && Space2(t[0], t[1]) then TrimStart(t[2..])
    else if |t| >= 3 && Space3(t[0], t[1], t[2]) then TrimStart(t[3..])
    else t
  }

  function TrimEnd(t: Text): Text {
    var n := |t|;
    if n >= 1 && Space1(t[n - 1]) then TrimEnd(t[..n - 1])
    else if n >= 2 && Space2(t[n - 2], t[n - 1]) then TrimEnd(t[..n - 2])
    else if n >= 3 && Space3(t[n - 3], t[n - 2], t[n - 1]) then TrimEnd(t[..n - 3])
    else t
  }

  function Trim(t: Text): Text { TrimEnd(TrimStart(t)) }

  // ---- decimal text (u64::to_string / str::parse::<u64>) ----

  predicate IsDigit(b: Byte) { 48 <= b <= 57 }

  function Decimal(n: nat): (t: Text)
    ensures t != []
    ensures forall i :: 0 <= i < |t| ==> IsDigit(t[i])
  {
    if n < 10 then [48 + n] else Decimal(n / 10) + [48 + n % 10]
  }

  function DigitsValue(t: Text): int {
    if t == [] then 0 else DigitsValue(t[..|t| - 1]) * 10 + (t[|t| - 1] as int - 48)
  }

  function ParseU64(t: Text): (r: Option<U64>) {
    var digits := if t != [] && t[0] == 43 then t[1..] else t;  // one leading '+' is allowed
    if digits == [] || exists i :: 0 <= i < |digits| && !IsDigit(digits[i]) then None
    else
      var v := DigitsValue(digits);
      if 0 <= v <= MAX_U64 then Some(v) else None
  }

  lemma {:induction false} DecimalValue(n: nat)
    ensures DigitsValue(Decimal(n)) == n
  {
    if n >= 10 {
      DecimalValue(n / 10);
      assert Decimal(n)[..|Decimal(n)| - 1] == Decimal(n / 10);
    }
  }

  // The marker text written for a revision reads back as that revision.
  lemma DecimalRoundTrip(n: U64)
    ensures Utf8(Decimal(n))
    ensures Trim(Decimal(n)) == Decimal(n)
    ensures ParseU64(Trim(Decimal(n))) == Some(n)
  {
    hide Utf8, Trim, Decimal, DigitsValue;
    var t := Decimal(n);
    AsciiIsUtf8(t);
    DigitsStay(t);
    DecimalValue(n);
  }

  lemma DigitsStay(t: Text)
    requires t != [] && IsDigit(t[0]) && IsDigit(t[|t| - 1])
    ensures Trim(t) == t
  {}

  lemma {:induction false} DecimalLength(n: nat, digits: nat, bound: nat)
    requires digits > 0
    requires bound == Pow10(digits)
    requires n < bound
    ensures |Decimal(n)| <= digits
  {
    if n >= 10 {
      DecimalLength(n / 10, digits - 1, Pow10(digits - 1));
    }
  }

  function Pow10(k: nat): nat {
    if k == 0 then 1 else 10 * Pow10(k - 1)
  }

  lemma DecimalU64Length(n: U64)
    ensures |Decimal(n)| <= 20
  {
    assert Pow10(5) == 100_000;
    assert Pow10(10) == 10_000_000_000 by { assert Pow10(7) == 10_000_000; }
    assert Pow10(12) == 1_000_000_000_000;
    assert Pow10(15) == 1_000_000_000_000_000 by { assert Pow10(13) == 10 * Pow10(12); }
    assert Pow10(18) == 1_000_000_000_000_000_000 by { assert Pow10(16) == 10 * Pow10(15); }
    assert Pow10(20) == 100_000_000_000_000_000_000;
    DecimalLength(n, 20, Pow10(20));
  }

  // ---- lowercase hex (format!("{byte:02x}")) and its decoder ----

  function HexDigit(v: nat): Byte
    requires v < 16
  {
    if v < 10 then 48 + v else 87 + v
  }

  predicate IsHexDigit(b: Byte) {
    48 <= b <= 57 || 97 <= b <= 102 || 65 <= b <= 70
  }

  function HexValue(b: Byte): (v: nat)
    requires IsHexDigit(b)
    ensures v < 16
  {
    if b <= 57 then b - 48 else if b <= 70 then b - 55 else b - 87
  }

  function Hex(b: Bytes): (t: Text)
    ensures |t| == 2 * |b|
    ensures forall i :: 0 <= i < |t| ==> IsHexDigit(t[i])
  {
    seq(2 * |b|, i requires 0 <= i < 2 * |b| => HexDigit(if i % 2 == 0 then b[i / 2] / 16 else b[i / 2] % 16))
  }

  // The decoder of the delivery module: the empty text is the empty byte string.
  function DecodeHex(t: Text): Option<Bytes> {
    if |t| % 2 != 0 || exists i :: 0 <= i < |t| && !IsHexDigit(t[i]) then None
    else Some(seq(|t| / 2, i requires 0 <= i < |t| / 2 => HexValue(t[2 * i]) * 16 + HexValue(t[2 * i + 1])))
  }

  // The decoder of the attachment module refuses the empty text.
  function DecodeHexNonEmpty(t: Text): Option<Bytes> {
    if t == [] then None else DecodeHex(t)
  }

  lemma HexPair(b: Bytes, i: nat)
    requires i < |b|
    ensures HexValue(Hex(b)[2 * i]) * 16 + HexValue(Hex(b)[2 * i + 1]) == b[i]
  {
    assert (2 * i) / 2 == i && (2 * i) % 2 == 0;
    assert (2 * i + 1) / 2 == i && (2 * i + 1) % 2 == 1;
    assert Hex(b)[2 * i] == HexDigit(b[i] / 16);
    assert Hex(b)[2 * i + 1] == HexDigit(b[i] % 16);
  }

  lemma HexRoundTrip(b: Bytes)
    ensures DecodeHex(Hex(b)) == Some(b)
  {
    var r := DecodeHex(Hex(b));
    assert r.Some? && |r.value| == |b|;
    forall i | 0 <= i < |b|
      ensures r.value[i] == b[i]
    {
      HexPair(b, i);
    }
    assert r.value == b;
  }

  lemma HexInjective(a: Bytes, b: Bytes)
    requires Hex(a) == Hex(b)
    ensures a == b
  {
    HexRoundTrip(a);
    HexRoundTrip(b);
  }

  // ---- printable ASCII ----

  predicate PlainText(t: Text) {
    forall i :: 0 <= i < |t| ==> 32 <= t[i] < 127
  }

  lemma AsciiIsPlain(s: string)
    requires forall i :: 0 <= i < |s| ==> ' ' <= s[i] <= '~'
    ensures |Ascii(s)| == |s| && PlainText(Ascii(s))
  {}

  lemma PlainTextConcat(a: Text, b: Text)
    requires PlainText(a) && PlainText(b)
    ensures PlainText(a + b)
  {}

  lemma HexIsPlain(b: Bytes)
    ensures PlainText(Hex(b))
  {}
}
