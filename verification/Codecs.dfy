/** The laws asked of the JSON codecs can be met: total, injective encodings as bytes. */
module Codecs {
  import opened Prelude
  import opened Text
  import opened Ledger
  import opened LedgerRestore
  import A = RecoveryArtifact
  import K = KeyPackages
  import Q = ProposalQueue

  // What an injective encoding reads back.
  ghost function Inverse<T(!new), U(!new)>(encode: T -> U, code: U): Option<T> {
    if exists v :: encode(v) == code then
      var v :| encode(v) == code;
      Some(v)
    else None
  }

  lemma InverseReads<T(!new), U(!new)>(encode: T -> U)
    requires forall a, b :: encode(a) == encode(b) ==> a == b
    ensures forall v :: Inverse(encode, encode(v)) == Some(v)
  {}

  // ---- fields ----

  // Each byte announced by a 1, the end by a 0.
  function Delimited(b: Bytes): Bytes {
    if b == [] then [0] else [1, b[0]] + Delimited(b[1..])
  }

  lemma {:induction false} SameDelimited(a: Bytes, b: Bytes, r: Bytes, s: Bytes)
    requires Delimited(a) + r == Delimited(b) + s
    ensures a == b && r == s
  {
    var t := Delimited(a) + r;
    if a == [] || b == [] {
      assert t[0] == 0;
      assert r == t[1..] && s == t[1..];
    } else {
      assert t[0] == 1 && t[1] == a[0] && t[1] == b[0];
      assert t[2..] == Delimited(a[1..]) + r && t[2..] == Delimited(b[1..]) + s;
      SameDelimited(a[1..], b[1..], r, s);
    }
  }

  function TextField(t: Option<Text>): Bytes { if t.None? then [] else [1] + t.value }

  function TimeField(t: Option<U64>): Bytes { if t.None? then [] else Decimal(t.value) }

  lemma SameTextField(a: Option<Text>, b: Option<Text>)
    ensures TextField(a) == TextField(b) ==> a == b
  {
    if a.Some? && b.Some? && TextField(a) == TextField(b) {
      assert TextField(a)[1..] == a.value && TextField(b)[1..] == b.value;
    }
  }

  lemma SameTimeField(a: Option<U64>, b: Option<U64>)
    ensures TimeField(a) == TimeField(b) ==> a == b
  {
    if a.Some? {
      DecimalValue(a.value);
    }
    if b.Some? {
      DecimalValue(b.value);
    }
  }

  function AllDelimited(fs: seq<Bytes>): Bytes {
    if fs == [] then [] else Delimited(fs[0]) + AllDelimited(fs[1..])
  }

  lemma {:induction false} SameAllDelimited(a: seq<Bytes>, b: seq<Bytes>, r: Bytes, s: Bytes)
    requires |a| == |b| && AllDelimited(a) + r == AllDelimited(b) + s
    ensures a == b && r == s
  {
    hide Delimited;
    if a == [] {
      assert AllDelimited(a) + r == r && AllDelimited(b) + s == s;
    } else {
      assert AllDelimited(a) + r == Delimited(a[0]) + (AllDelimited(a[1..]) + r);
      assert AllDelimited(b) + s == Delimited(b[0]) + (AllDelimited(b[1..]) + s);
      SameDelimited(a[0], b[0], AllDelimited(a[1..]) + r, AllDelimited(b[1..]) + s);
      SameAllDelimited(a[1..], b[1..], r, s);
      assert a == [a[0]] + a[1..] && b == [b[0]] + b[1..];
    }
  }

  // ---- ledgers ----

  function StateByte(s: DeliveryState): Byte {
    match s
    case Draft => 0
    case Encrypted => 1
    case Queued => 2
    case RelayAccepted => 3
    case RecipientReceived => 4
    case Decrypted => 5
    case Retryable => 6
    case Failed => 7
    case Cancelled => 8
  }

  function Fields(r: DeliveryRecord): (fs: seq<Bytes>)
    ensures |fs| == 7
  {
    [[StateByte(r.state), r.attempts], r.digest, TimeField(r.nextRetryAt), TextField(r.relayId), TextField(r.wire),
     TimeField(r.expiresAt), TextField(r.destination)]
  }

  lemma SameFields(a: DeliveryRecord, b: DeliveryRecord)
    requires Fields(a) == Fields(b)
    ensures a == b
  {
    hide TimeField, TextField;
    assert Fields(a)[0] == Fields(b)[0] && Fields(a)[1] == Fields(b)[1] && Fields(a)[2] == Fields(b)[2] && Fields(a)[3] == Fields(b)[3];
    assert Fields(a)[4] == Fields(b)[4] && Fields(a)[5] == Fields(b)[5] && Fields(a)[6] == Fields(b)[6];
    assert Fields(a)[0][0] == Fields(b)[0][0] && Fields(a)[0][1] == Fields(b)[0][1];
    SameTimeField(a.nextRetryAt, b.nextRetryAt);
    SameTimeField(a.expiresAt, b.expiresAt);
    SameTextField(a.relayId, b.relayId);
    SameTextField(a.wire, b.wire);
    SameTextField(a.destination, b.destination);
  }

  ghost function Written(l: Ledger): Bytes {
    if l == map[] then [0]
    else
      var d :| d in l;
      [1] + (Delimited(d) + (AllDelimited(Fields(l[d])) + Written(l - {d})))
  }

  lemma FirstWritten(l: Ledger) returns (d: Text)
    requires l != map[]
    ensures d in l && Written(l) == [1] + (Delimited(d) + (AllDelimited(Fields(l[d])) + Written(l - {d})))
  {
    hide Delimited, AllDelimited, Fields;
    d :| d in l && Written(l) == [1] + (Delimited(d) + (AllDelimited(Fields(l[d])) + Written(l - {d})));
  }

  lemma WrittenStart(l: Ledger)
    ensures Written(l) != [] && Written(l)[0] == if l == map[] then 0 else 1
  {
    hide Delimited, AllDelimited, Fields;
  }

  lemma {:induction false} SameWritten(a: Ledger, b: Ledger)
    requires Written(a) == Written(b)
    ensures a == b
    decreases |a|
  {
    hide Delimited, AllDelimited, Fields, Written;
    WrittenStart(a);
    WrittenStart(b);
    if a != map[] && b != map[] {
      var d := FirstWritten(a);
      var e := FirstWritten(b);
      var t := Written(a);
      assert t[1..] == Delimited(d) + (AllDelimited(Fields(a[d])) + Written(a - {d}));
      assert t[1..] == Delimited(e) + (AllDelimited(Fields(b[e])) + Written(b - {e}));
      SameDelimited(d, e, AllDelimited(Fields(a[d])) + Written(a - {d}), AllDelimited(Fields(b[e])) + Written(b - {e}));
      SameAllDelimited(Fields(a[d]), Fields(b[e]), Written(a - {d}), Written(b - {e}));
      SameFields(a[d], b[e]);
      SameWritten(a - {d}, b - {e});
      assert a == (a - {d})[d := a[d]] && b == (b - {e})[e := b[e]];
    }
  }

  // Any two ledgers may even be given encodings of at most one byte.
  ghost function WrittenBut(small: Ledger, other: Ledger, l: Ledger): Bytes {
    if l == small then [] else if l == other then [2] else Written(l)
  }

  lemma LawfulJsonExists(small: Ledger, other: Ledger) returns (j: Json)
    ensures LawfulJson(j) && j.write(small) == [] && |j.write(other)| <= 1
  {
    var write := l => WrittenBut(small, other, l);
    j := Json(write, b => Inverse(write, b));
    forall l, back | write(l) == write(back) ensures l == back {
      WrittenStart(l);
      WrittenStart(back);
      if l !in {small, other} && back !in {small, other} {
        SameWritten(l, back);
      }
    }
    InverseReads(write);
  }

  // ---- recovery manifests ----

  function ManifestFields(m: A.Manifest): (fs: seq<Bytes>)
    ensures |fs| == 6
  {
    [Decimal(m.schemaVersion), Decimal(m.createdAt), Decimal(m.storeBytes), Decimal(m.revisionBytes), m.storeDigest, m.revisionDigest]
  }

  function WriteManifest(m: A.Manifest): Bytes { AllDelimited(ManifestFields(m)) }

  lemma SameManifest(a: A.Manifest, b: A.Manifest)
    ensures WriteManifest(a) == WriteManifest(b) ==> a == b
  {
    hide AllDelimited, Decimal;
    if WriteManifest(a) == WriteManifest(b) {
      var fs, gs := ManifestFields(a), ManifestFields(b);
      SameAllDelimited(fs, gs, [], []);
      assert fs[0] == gs[0] && fs[1] == gs[1] && fs[2] == gs[2] && fs[3] == gs[3] && fs[4] == gs[4] && fs[5] == gs[5];
      DecimalValue(a.schemaVersion);
      DecimalValue(b.schemaVersion);
      DecimalValue(a.createdAt);
      DecimalValue(b.createdAt);
      DecimalValue(a.storeBytes);
      DecimalValue(b.storeBytes);
      DecimalValue(a.revisionBytes);
      DecimalValue(b.revisionBytes);
    }
  }

  lemma LawfulArtifactToolsExist() returns (t: A.Tools)
    ensures A.LawfulTools(t)
  {
    t := A.Tools(WriteManifest, b => Inverse(WriteManifest, b), b => b);
    forall a, b | WriteManifest(a) == WriteManifest(b) ensures a == b {
      SameManifest(a, b);
    }
    InverseReads(WriteManifest);
  }

  // ---- key package records and proposal references ----

  function PackageFields(r: K.KeyPackageRecord): (fs: seq<Bytes>)
    ensures |fs| == 4
  {
    [[match r.state case Available => 0 case Reserved => 1 case Consumed => 2 case Expired => 3],
     TextField(r.reservationDigest), TimeField(r.notBefore), TimeField(r.notAfter)]
  }

  function WritePackage(r: K.KeyPackageRecord): Bytes { AllDelimited(PackageFields(r)) }

  lemma SamePackage(a: K.KeyPackageRecord, b: K.KeyPackageRecord)
    ensures WritePackage(a) == WritePackage(b) ==> a == b
  {
    hide AllDelimited, TextField, TimeField;
    if WritePackage(a) == WritePackage(b) {
      var fs, gs := PackageFields(a), PackageFields(b);
      SameAllDelimited(fs, gs, [], []);
      assert fs[0] == gs[0] && fs[1] == gs[1] && fs[2] == gs[2] && fs[3] == gs[3];
      assert fs[0][0] == gs[0][0];
      SameTextField(a.reservationDigest, b.reservationDigest);
      SameTimeField(a.notBefore, b.notBefore);
      SameTimeField(a.notAfter, b.notAfter);
    }
  }

  lemma LawfulPackageToolsExist() returns (t: K.Tools)
    ensures K.Lawful(t)
  {
    t := K.Tools(b => seq(32, i => 0), WritePackage, b => Inverse(WritePackage, b));
    forall a, b | WritePackage(a) == WritePackage(b) ensures a == b {
      SamePackage(a, b);
    }
    InverseReads(WritePackage);
  }

  function WriteRefs(refs: seq<Text>): Bytes { Delimited(Decimal(|refs|)) + AllDelimited(refs) }

  lemma SameRefs(a: seq<Text>, b: seq<Text>)
    ensures WriteRefs(a) == WriteRefs(b) ==> a == b
  {
    hide Delimited, AllDelimited, Decimal;
    if WriteRefs(a) == WriteRefs(b) {
      SameDelimited(Decimal(|a|), Decimal(|b|), AllDelimited(a), AllDelimited(b));
      DecimalValue(|a|);
      DecimalValue(|b|);
      assert AllDelimited(a) + [] == AllDelimited(b) + [];
      SameAllDelimited(a, b, [], []);
    }
  }

  lemma LawfulQueueToolsExist() returns (t: Q.Tools)
    ensures Q.Lawful(t)
  {
    t := Q.Tools(b => seq(32, i => 0), WriteRefs, b => Inverse(WriteRefs, b));
    forall a, b | WriteRefs(a) == WriteRefs(b) ensures a == b {
      SameRefs(a, b);
    }
    InverseReads(WriteRefs);
  }
}
