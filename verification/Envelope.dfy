/** The relay envelope: padding to blocks, coarse expiry, and its wire text. */
module Envelopes {
  import opened Prelude
  import opened Text
  import LedgerRestore

  datatype EnvelopeError = InvalidMailbox | InvalidCiphertext | InvalidExpiry | InvalidWire | Expired | TooLarge

  datatype Envelope = Envelope(
    version: Byte, mailbox: Text, id: Text, expiresAt: U64, ciphertext: Bytes, padding: Bytes)

  // The JSON object on the wire.
  datatype Wire = Wire(v: Byte, m: Text, i: Text, e: U64, c: Text, p: Text)

  const VERSION: Byte := 1
  const BLOCK_SIZE := 256
  const MAX_CIPHERTEXT_BYTES := 96 * 1024
  const MAX_MAILBOX_BYTES := 128
  const EXPIRY_BUCKET := 300
  const MAX_TTL: U64 := 7 * 24 * 60 * 60

  // len.div_ceil(256) * 256
  function PaddedLength(n: nat): (r: nat)
    ensures n <= r < n + BLOCK_SIZE && r % BLOCK_SIZE == 0
  {
    (n + BLOCK_SIZE - 1) / BLOCK_SIZE * BLOCK_SIZE
  }

  // expires_at.div_ceil(300) * 300
  function CoarseExpiry(n: nat): (r: nat)
    ensures n <= r < n + EXPIRY_BUCKET && r % EXPIRY_BUCKET == 0
  {
    (n + EXPIRY_BUCKET - 1) / EXPIRY_BUCKET * EXPIRY_BUCKET
  }

  predicate Printable(t: Text) {
    forall i :: 0 <= i < |t| ==> 33 <= t[i] <= 126 && t[i] != 34 && t[i] != 92  // no '"' and no '\'
  }

  predicate ValidMailbox(m: Text) {
    m != [] && |m| <= MAX_MAILBOX_BYTES && Printable(m)
  }

  // ---- create ----

  function PaddingFor(n: nat): nat {
    PaddedLength(n) - n
  }

  // `padding` and `id` are the random bytes drawn. Rounding the expiry up must stay within u64.
  function Create(mailbox: Text, ciphertext: Bytes, expiresAt: U64, now: U64, padding: Bytes, id: Bytes)
    : Result<Envelope, EnvelopeError>
    requires |padding| == PaddingFor(|ciphertext|) && |id| == 16
    requires CoarseExpiry(expiresAt) <= MAX_U64
  {
    if !ValidMailbox(mailbox) then Err(InvalidMailbox)
    else if ciphertext == [] then Err(InvalidCiphertext)
    else if |ciphertext| > MAX_CIPHERTEXT_BYTES then Err(TooLarge)
    else if expiresAt <= now || expiresAt > SaturatingAdd(now, MAX_TTL) then Err(InvalidExpiry)
    else Ok(Envelope(VERSION, mailbox, Hex(id), CoarseExpiry(expiresAt), ciphertext, padding))
  }

  // ---- the wire text ----

  function Quoted(t: Text): Text { [34] + t + [34] }

  function Member(name: string, value: Text, rest: Text): Text {
    Ascii(name) + (value + rest)
  }

  // {"v":_,"m":"_","i":"_","e":_,"c":"_","p":"_"} for fields that need no escaping.
  function Render(w: Wire): Text {
    Member("{\"v\":", Decimal(w.v), Member(",\"m\":", Quoted(w.m), Member(",\"i\":", Quoted(w.i),
    Member(",\"e\":", Decimal(w.e), Member(",\"c\":", Quoted(w.c), Member(",\"p\":", Quoted(w.p), Ascii("}")))))))
  }

  predicate Plain(w: Wire) {
    Printable(w.m) && Printable(w.i) && Printable(w.c) && Printable(w.p)
  }

  datatype Json = Json(write: Wire -> Text, read: Text -> Option<Wire>)

  // serde_json writes plain fields verbatim and reads them back.
  ghost predicate LawfulJson(j: Json) {
    forall w :: Plain(w) ==> j.write(w) == Render(w) && j.read(Render(w)) == Some(w)
  }

  lemma SameMember(name: string, x: Text, y: Text, r: Text, s: Text)
    requires Member(name, x, r) == Member(name, y, s)
    ensures x + r == y + s
  {
    assert Member(name, x, r)[|name|..] == x + r;
    assert Member(name, y, s)[|name|..] == y + s;
  }

  lemma SameQuoted(x: Text, y: Text, r: Text, s: Text)
    requires Printable(x) && Printable(y) && Quoted(x) + r == Quoted(y) + s
    ensures x == y && r == s
  {
    var t := Quoted(x) + r;
    assert t[|x| + 1] == 34 && t[|y| + 1] == 34;
    assert forall i :: 0 <= i < |x| ==> t[i + 1] == x[i];
    assert forall i :: 0 <= i < |y| ==> t[i + 1] == y[i];
    assert |x| == |y|;
    assert t[|x| + 2..] == r && t[|y| + 2..] == s;
  }

  lemma SameDecimal(a: nat, b: nat, r: Text, s: Text)
    requires r != [] && s != [] && r[0] == s[0] == 44
    requires Decimal(a) + r == Decimal(b) + s
    ensures a == b && r == s
  {
    var x, y := Decimal(a), Decimal(b);
    var t := x + r;
    assert t[|x|] == 44 && t[|y|] == 44;
    assert forall i :: 0 <= i < |x| ==> t[i] == x[i];
    assert forall i :: 0 <= i < |y| ==> t[i] == y[i];
    assert x == t[..|x|] && y == t[..|y|] && r == t[|x|..] && s == t[|y|..];
    assert |x| == |y|;
    DecimalValue(a);
    DecimalValue(b);
  }

  // The wire text is unambiguous.
  lemma RenderInjective(a: Wire, b: Wire)
    requires Plain(a) && Plain(b) && Render(a) == Render(b)
    ensures a == b
  {
    hide Decimal, Quoted, Ascii, Printable;
    var a6, b6 := Member(",\"p\":", Quoted(a.p), Ascii("}")), Member(",\"p\":", Quoted(b.p), Ascii("}"));
    var a5, b5 := Member(",\"c\":", Quoted(a.c), a6), Member(",\"c\":", Quoted(b.c), b6);
    var a4, b4 := Member(",\"e\":", Decimal(a.e), a5), Member(",\"e\":", Decimal(b.e), b5);
    var a3, b3 := Member(",\"i\":", Quoted(a.i), a4), Member(",\"i\":", Quoted(b.i), b4);
    var a2, b2 := Member(",\"m\":", Quoted(a.m), a3), Member(",\"m\":", Quoted(b.m), b3);
    hide Member;
    SameMember("{\"v\":", Decimal(a.v), Decimal(b.v), a2, b2);
    Commas(Quoted(a.m), a3);
    Commas(Quoted(b.m), b3);
    SameDecimal(a.v, b.v, a2, b2);
    SameMember(",\"m\":", Quoted(a.m), Quoted(b.m), a3, b3);
    SameQuoted(a.m, b.m, a3, b3);
    SameMember(",\"i\":", Quoted(a.i), Quoted(b.i), a4, b4);
    SameQuoted(a.i, b.i, a4, b4);
    SameMember(",\"e\":", Decimal(a.e), Decimal(b.e), a5, b5);
    Commas(Quoted(a.c), a6);
    Commas(Quoted(b.c), b6);
    SameDecimal(a.e, b.e, a5, b5);
    SameMember(",\"c\":", Quoted(a.c), Quoted(b.c), a6, b6);
    SameQuoted(a.c, b.c, a6, b6);
    SameMember(",\"p\":", Quoted(a.p), Quoted(b.p), Ascii("}"), Ascii("}"));
    SameQuoted(a.p, b.p, Ascii("}"), Ascii("}"));
  }

  lemma Commas(value: Text, rest: Text)
    ensures Member(",\"m\":", value, rest) != [] && Member(",\"m\":", value, rest)[0] == 44
    ensures Member(",\"c\":", value, rest) != [] && Member(",\"c\":", value, rest)[0] == 44
  {
    assert Ascii(",\"m\":")[0] == 44 && Ascii(",\"c\":")[0] == 44;
  }

  // Hence the laws asked of the JSON codec can be met.
  lemma LawfulJsonExists() returns (j: Json)
    ensures LawfulJson(j)
  {
    hide Render, Plain;
    j := Json(w => Render(w), t => ReadRendered(t));
    forall w | Plain(w) ensures ReadRendered(Render(w)) == Some(w) {
      var back := ReadRendered(Render(w)).value;
      RenderInjective(w, back);
    }
  }

  ghost function ReadRendered(t: Text): Option<Wire> {
    if exists w :: Plain(w) && Render(w) == t then
      var w :| Plain(w) && Render(w) == t;
      Some(w)
    else None
  }

  function WireOf(e: Envelope): Wire {
    Wire(e.version, e.mailbox, e.id, e.expiresAt, Hex(e.ciphertext), Hex(e.padding))
  }

  function ToWire(j: Json, e: Envelope): Result<Text, EnvelopeError> {
    if e.version != VERSION || |e.ciphertext| + |e.padding| > MAX_CIPHERTEXT_BYTES + BLOCK_SIZE then Err(InvalidWire)
    else Ok(j.write(WireOf(e)))
  }

  predicate InDate(e: U64, now: U64) {
    now < e <= SaturatingAdd(now, MAX_TTL)
  }

  function FromWire(j: Json, t: Text, now: U64): Result<Envelope, EnvelopeError> {
    match j.read(t)
    case None => Err(InvalidWire)
    case Some(w) =>
      if w.v != VERSION || !InDate(w.e, now) then Err(if w.e <= now then Expired else InvalidWire)
      else if !ValidMailbox(w.m) then Err(InvalidMailbox)
      else if |w.i| != 32 || exists k :: 0 <= k < |w.i| && !IsHexDigit(w.i[k]) then Err(InvalidWire)
      else if DecodeHex(w.c).None? || DecodeHex(w.p).None? then Err(InvalidWire)
      else
        var ciphertext, padding := DecodeHex(w.c).value, DecodeHex(w.p).value;
        if ciphertext == [] || |ciphertext| > MAX_CIPHERTEXT_BYTES
           || |ciphertext| + |padding| > MAX_CIPHERTEXT_BYTES + BLOCK_SIZE then Err(TooLarge)
        else if (|ciphertext| + |padding|) % BLOCK_SIZE != 0 then Err(InvalidWire)
        else Ok(Envelope(w.v, w.m, w.i, w.e, ciphertext, padding))
  }

  // The digest that names a delivery.
  function Digest(j: Json, sha: Bytes -> Bytes, e: Envelope): Result<Text, EnvelopeError> {
    match ToWire(j, e)
    case Err(x) => Err(x)
    case Ok(t) => Ok(Hex(sha(t)))
  }

  // ---- what create promises ----

  // Any envelope the reader would accept, apart from its date.
  predicate WellFormed(e: Envelope) {
    && e.version == VERSION && ValidMailbox(e.mailbox)
    && |e.id| == 32 && (forall k :: 0 <= k < |e.id| ==> IsHexDigit(e.id[k]))
    && 0 < |e.ciphertext| <= MAX_CIPHERTEXT_BYTES
    && |e.ciphertext| + |e.padding| <= MAX_CIPHERTEXT_BYTES + BLOCK_SIZE
    && (|e.ciphertext| + |e.padding|) % BLOCK_SIZE == 0
  }

  // An envelope is made exactly for a valid mailbox, a ciphertext of 1 to 98304 bytes and an expiry within
  // seven days, and it is for that mailbox and carries that ciphertext under the id drawn. Sealed sizes
  // reveal only a block count, and the expiry only a five-minute bucket.
  lemma CreatedShape(mailbox: Text, ciphertext: Bytes, expiresAt: U64, now: U64, padding: Bytes, id: Bytes)
    requires |padding| == PaddingFor(|ciphertext|) && |id| == 16
    requires CoarseExpiry(expiresAt) <= MAX_U64
    ensures var r := Create(mailbox, ciphertext, expiresAt, now, padding, id);
            && (r.Ok? <==>
                  && ValidMailbox(mailbox) && 1 <= |ciphertext| <= 98304
                  && now < expiresAt && (expiresAt <= now + 604800 || now + 604800 > MAX_U64))
            && (r.Err? ==>
                  r.error == if !ValidMailbox(mailbox) then InvalidMailbox else if ciphertext == [] then InvalidCiphertext
                             else if |ciphertext| > 98304 then TooLarge else InvalidExpiry)
    ensures var r := Create(mailbox, ciphertext, expiresAt, now, padding, id);
            r.Ok? ==>
              && WellFormed(r.value)
              && r.value.mailbox == mailbox && r.value.ciphertext == ciphertext
              && r.value.padding == padding && r.value.id == Hex(id)
              && 0 < |r.value.ciphertext| + |r.value.padding| <= MAX_CIPHERTEXT_BYTES
              && r.value.expiresAt % EXPIRY_BUCKET == 0 && expiresAt <= r.value.expiresAt < expiresAt + EXPIRY_BUCKET
  {
    if 0 < |ciphertext| <= MAX_CIPHERTEXT_BYTES {
      BlockBound(|ciphertext|);
    }
  }

  lemma BlockBound(n: nat)
    requires n <= MAX_CIPHERTEXT_BYTES
    ensures PaddedLength(n) <= MAX_CIPHERTEXT_BYTES
  {
    assert MAX_CIPHERTEXT_BYTES == 384 * BLOCK_SIZE;
    assert (n + 255) / 256 <= 384;
  }

  // The wire text of a well-formed envelope fits the ledger's wire limit.
  lemma WireFitsLedger(j: Json, e: Envelope)
    requires LawfulJson(j) && WellFormed(e)
    ensures ToWire(j, e).Ok?
    ensures |ToWire(j, e).value| <= LedgerRestore.MAX_WIRE_BYTES
    ensures LedgerRestore.Fits(Some(ToWire(j, e).value), LedgerRestore.MAX_WIRE_BYTES)
  {
    hide Decimal, ToWire;
    var w := WireOf(e);
    PlainWire(e);
    DecimalU64Length(e.version);
    DecimalU64Length(e.expiresAt);
    RenderLength(w);
    ToWireOf(j, e);
  }

  lemma PlainWire(e: Envelope)
    requires WellFormed(e)
    ensures Plain(WireOf(e))
  {
    hide Hex;
  }

  lemma ToWireOf(j: Json, e: Envelope)
    requires WellFormed(e)
    ensures ToWire(j, e) == Ok(j.write(WireOf(e)))
  {}

  lemma RenderLength(w: Wire)
    ensures |Render(w)| == 39 + |Decimal(w.v)| + |Decimal(w.e)| + |w.m| + |w.i| + |w.c| + |w.p|
  {
    hide Decimal, Ascii;
  }

  // Reading back a well-formed envelope gives exactly it while in date, and the right error otherwise.
  lemma WireRoundTrip(j: Json, e: Envelope, now: U64)
    requires LawfulJson(j) && WellFormed(e)
    ensures ToWire(j, e).Ok?
    ensures FromWire(j, ToWire(j, e).value, now)
            == if InDate(e.expiresAt, now) then Ok(e) else if e.expiresAt <= now then Err(Expired) else Err(InvalidWire)
  {
    hide DecodeHex, Render;
    HexRoundTrip(e.ciphertext);
    HexRoundTrip(e.padding);
    PlainWire(e);
  }

  // Whatever the reader accepts is well formed, in date, and reads back to itself.
  lemma FromWireWellFormed(j: Json, t: Text, now: U64)
    ensures FromWire(j, t, now).Ok? ==>
              WellFormed(FromWire(j, t, now).value) && InDate(FromWire(j, t, now).value.expiresAt, now)
  {
    hide DecodeHex;
  }

  // The sender can read its own envelope at creation time exactly when the rounded expiry is
  // still within the limit; asking for at most 604501 seconds is always enough, one more is not.
  lemma CreationTimeReading(j: Json, mailbox: Text, ciphertext: Bytes, expiresAt: U64, now: U64, padding: Bytes, id: Bytes)
    requires LawfulJson(j)
    requires |padding| == PaddingFor(|ciphertext|) && |id| == 16
    requires CoarseExpiry(expiresAt) <= MAX_U64
    ensures var r := Create(mailbox, ciphertext, expiresAt, now, padding, id);
            r.Ok? ==>
              && ToWire(j, r.value).Ok?
              && (FromWire(j, ToWire(j, r.value).value, now) == Ok(r.value)
                  <==> CoarseExpiry(expiresAt) <= SaturatingAdd(now, MAX_TTL))
              && (expiresAt <= now + 604501 ==> CoarseExpiry(expiresAt) <= SaturatingAdd(now, MAX_TTL))
  {
    hide ToWire, FromWire;
    CreatedShape(mailbox, ciphertext, expiresAt, now, padding, id);
    var r := Create(mailbox, ciphertext, expiresAt, now, padding, id);
    if r.Ok? {
      WireRoundTrip(j, r.value, now);
    }
  }

  // 604502 seconds ahead of second 299 is accepted by create and refused by its own reader.
  lemma CreationTimeLimitIsTight(j: Json, ciphertext: Bytes, padding: Bytes, id: Bytes)
    requires LawfulJson(j) && 0 < |ciphertext| <= MAX_CIPHERTEXT_BYTES
    requires |padding| == PaddingFor(|ciphertext|) && |id| == 16
    ensures CoarseExpiry(299 + 604502) <= MAX_U64
    ensures var r := Create([109], ciphertext, 299 + 604502, 299, padding, id);
            r.Ok? && ToWire(j, r.value).Ok? && FromWire(j, ToWire(j, r.value).value, 299) == Err(InvalidWire)
  {
    hide ToWire, FromWire;
    assert CoarseExpiry(299 + 604502) == 605100;
    assert ValidMailbox([109]);
    CreatedShape([109], ciphertext, 299 + 604502, 299, padding, id);
    var r := Create([109], ciphertext, 299 + 604502, 299, padding, id);
    WireRoundTrip(j, r.value, 299);
  }
}
