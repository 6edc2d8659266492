/**
 * The byte strings that go into the signature hashes, and the framing of
 * AES-GCM output. A parser stands beside each builder; the two are inverse to
 * each other, so the bytes determine the fields.
 */
module Preimages {
  import opened Prelude

  // -- fixed-width integers --------------------------------------------------

  /** `n` in `w` bytes, most significant first. */
  function BigEndian(n: nat, w: nat): (b: Bytes)
    ensures |b| == w
  {
    if w == 0 then [] else BigEndian(n / 256, w - 1) + [n % 256]
  }

  function FromBigEndian(b: Bytes): nat {
    if b == [] then 0 else 256 * FromBigEndian(b[..|b| - 1]) + b[|b| - 1]
  }

  function Pow256(w: nat): nat {
    if w == 0 then 1 else 256 * Pow256(w - 1)
  }

  lemma {:induction false} IntegerReadsBack(n: nat, w: nat)
    requires n < Pow256(w)
    ensures FromBigEndian(BigEndian(n, w)) == n
  {
    if w > 0 {
      IntegerReadsBack(n / 256, w - 1);
      assert BigEndian(n, w)[..w - 1] == BigEndian(n / 256, w - 1);
    }
  }

  lemma {:induction false} IntegerWritesBack(b: Bytes)
    ensures FromBigEndian(b) < Pow256(|b|) && BigEndian(FromBigEndian(b), |b|) == b
  {
    if b != [] {
      IntegerWritesBack(b[..|b| - 1]);
      assert b == b[..|b| - 1] + [b[|b| - 1]];
    }
  }

  lemma WidthLimits()
    ensures Pow256(4) == TWO_TO_THE_32 && Pow256(8) == TWO_TO_THE_32 * TWO_TO_THE_32
  {
    assert Pow256(2) == 65536;
    assert Pow256(4) == 65536 * 65536;
    assert Pow256(6) == 65536 * 65536 * 65536;
  }

  // -- length-prefixed fields ------------------------------------------------

  /** `writeUInt32BE` throws from 2^32 on; so does this, as None. */
  function LengthPrefixed(field: Bytes): Option<Bytes> {
    if |field| < TWO_TO_THE_32 then Some(BigEndian(|field|, 4) + field) else None
  }

  function ReadField(s: Bytes): Option<(Bytes, Bytes)> {
    if |s| < 4 || |s| < 4 + FromBigEndian(s[..4]) then None
    else
      var n := 4 + FromBigEndian(s[..4]);
      Some((s[4..n], s[n..]))
  }

  lemma FieldReadsBack(field: Bytes, rest: Bytes)
    requires LengthPrefixed(field).Some?
    ensures ReadField(LengthPrefixed(field).value + rest) == Some((field, rest))
  {
    WidthLimits();
    IntegerReadsBack(|field|, 4);
    var s := BigEndian(|field|, 4) + field + rest;
    assert s[..4] == BigEndian(|field|, 4);
  }

  lemma FieldWritesBack(s: Bytes)
    requires ReadField(s).Some?
    ensures LengthPrefixed(ReadField(s).value.0).Some?
    ensures s == LengthPrefixed(ReadField(s).value.0).value + ReadField(s).value.1
  {
    WidthLimits();
    IntegerWritesBack(s[..4]);
    assert s == s[..4] + s[4..4 + FromBigEndian(s[..4])] + s[4 + FromBigEndian(s[..4])..];
  }

  /** The prefixed fields one after the other. */
  function Fields(fs: seq<Bytes>): Option<Bytes> {
    if fs == [] then Some([])
    else
      match (LengthPrefixed(fs[0]), Fields(fs[1..]))
      case (Some(a), Some(b)) => Some(a + b)
      case _ => None
  }

  /** Reads `n` fields. */
  function ReadFields(s: Bytes, n: nat): Option<(seq<Bytes>, Bytes)> {
    if n == 0 then Some(([], s))
    else
      match ReadField(s)
      case None => None
      case Some((f, rest)) =>
        match ReadFields(rest, n - 1)
        case None => None
        case Some((fs, end)) => Some(([f] + fs, end))
  }

  lemma {:induction false} FieldsReadBack(fs: seq<Bytes>, rest: Bytes)
    requires Fields(fs).Some?
    ensures ReadFields(Fields(fs).value + rest, |fs|) == Some((fs, rest))
  {
    if fs == [] {
      assert [] + rest == rest;
    } else {
      var a, b := LengthPrefixed(fs[0]).value, Fields(fs[1..]).value;
      assert a + b + rest == a + (b + rest);
      FieldReadsBack(fs[0], b + rest);
      FieldsReadBack(fs[1..], rest);
      assert [fs[0]] + fs[1..] == fs;
    }
  }

  lemma {:induction false} FieldsWriteBack(s: Bytes, n: nat)
    requires ReadFields(s, n).Some?
    ensures
      var (fs, rest) := ReadFields(s, n).value;
      |fs| == n && Fields(fs).Some? && s == Fields(fs).value + rest
  {
    if n == 0 {
      assert [] + s == s;
    } else {
      var (f, rest) := ReadField(s).value;
      FieldWritesBack(s);
      FieldsWriteBack(rest, n - 1);
      var (fs, end) := ReadFields(rest, n - 1).value;
      assert ([f] + fs)[1..] == fs;
      assert LengthPrefixed(f).value + (Fields(fs).value + end) == LengthPrefixed(f).value + Fields(fs).value + end;
    }
  }

  /** Appending a field at the end, as the hash-updating loops do. */
  lemma {:induction false} FieldsExtend(fs: seq<Bytes>, f: Bytes)
    ensures Fields(fs + [f]) ==
              match (Fields(fs), LengthPrefixed(f))
              case (Some(a), Some(b)) => Some(a + b)
              case _ => None
  {
    if fs == [] {
      assert [f][1..] == [] && [] + [f] == [f];
      assert forall b: Bytes :: b + [] == b == [] + b;
    } else {
      assert (fs + [f])[1..] == fs[1..] + [f];
      FieldsExtend(fs[1..], f);
      if Fields(fs).Some? && LengthPrefixed(f).Some? {
        var a, b, c := LengthPrefixed(fs[0]).value, Fields(fs[1..]).value, LengthPrefixed(f).value;
        assert a + (b + c) == a + b + c;
      }
    }
  }

  // -- the two preimages -----------------------------------------------------

  function Ascii(s: string): Bytes
    requires forall i :: 0 <= i < |s| ==> s[i] < 128 as char
  {
    seq(|s|, i requires 0 <= i < |s| => s[i] as int)
  }

  const AUTH_LABEL: Bytes := Ascii("dicode/oauth-auth-request/v4")
  const DELIVERY_LABEL: Bytes := Ascii("dicode/oauth-token-delivery/v4")

  datatype AuthFields = AuthFields(
    sessionId: Bytes,
    challenge: Bytes,
    relayUuid: Bytes,
    provider: Bytes,
    timestamp: int)

  function AuthList(x: AuthFields): seq<Bytes> {
    [x.sessionId, x.challenge, x.relayUuid, x.provider]
  }

  /** What `buildSignedPayload` hashes; None where it throws. */
  function AuthPreimage(x: AuthFields): Option<Bytes> {
    if !(0 <= x.timestamp < Pow256(8)) then None
    else
      match Fields(AuthList(x))
      case None => None
      case Some(b) => Some(AUTH_LABEL + b + BigEndian(x.timestamp, 8))
  }

  function StripLabel(prefix: Bytes, s: Bytes): Option<Bytes> {
    if |prefix| <= |s| && s[..|prefix|] == prefix then Some(s[|prefix|..]) else None
  }

  lemma LabelStrips(prefix: Bytes, s: Bytes)
    requires StripLabel(prefix, s).Some?
    ensures s == prefix + StripLabel(prefix, s).value
  {
  }

  lemma LabelAppends(prefix: Bytes, body: Bytes)
    ensures StripLabel(prefix, prefix + body) == Some(body)
  {
    assert (prefix + body)[|prefix|..] == body;
  }

  function ReadAuth(s: Bytes): Option<AuthFields> {
    match StripLabel(AUTH_LABEL, s)
    case None => None
    case Some(body) =>
      match ReadFields(body, 4)
      case None => None
      case Some((fs, ts)) =>
        if |fs| == 4 && |ts| == 8 then Some(AuthFields(fs[0], fs[1], fs[2], fs[3], FromBigEndian(ts))) else None
  }

  /** The delivery fields in order: type, session id, ephemeral key, ciphertext, nonce. */
  function DeliveryPreimage(fs: seq<Bytes>): Option<Bytes> {
    match Fields(fs)
    case None => None
    case Some(b) => Some(DELIVERY_LABEL + b)
  }

  function ReadDelivery(s: Bytes, n: nat): Option<seq<Bytes>> {
    match StripLabel(DELIVERY_LABEL, s)
    case None => None
    case Some(body) =>
      match ReadFields(body, n)
      case None => None
      case Some((fs, rest)) => if rest == [] then Some(fs) else None
  }

  lemma DeliveryReadsBack(fs: seq<Bytes>)
    requires DeliveryPreimage(fs).Some?
    ensures ReadDelivery(DeliveryPreimage(fs).value, |fs|) == Some(fs)
  {
    var b := Fields(fs).value;
    LabelAppends(DELIVERY_LABEL, b);
    FieldsReadBack(fs, []);
    assert b + [] == b;
  }

  lemma {:induction false} FieldTooLong(fs: seq<Bytes>, i: nat)
    requires i < |fs| && LengthPrefixed(fs[i]) == None
    ensures Fields(fs) == None
  {
    if i > 0 {
      FieldTooLong(fs[1..], i - 1);
    }
  }

  lemma PrefixExtends(fs: seq<Bytes>, i: nat)
    requires i < |fs| && Fields(fs[..i]).Some? && LengthPrefixed(fs[i]).Some?
    ensures Fields(fs[..i + 1]).Some?
    ensures DELIVERY_LABEL + Fields(fs[..i]).value + LengthPrefixed(fs[i]).value
         == DELIVERY_LABEL + Fields(fs[..i + 1]).value
  {
    FieldsExtend(fs[..i], fs[i]);
    assert fs[..i] + [fs[i]] == fs[..i + 1];
  }

  /** `buildDeliverySignaturePayload` up to the digest: the bytes fed to the hash, field by field. */
  method BuildDeliveryPreimage(kind: Bytes, sessionId: Bytes, ephemeralPubkey: Bytes, ciphertext: Bytes, nonce: Bytes)
    returns (hashed: Option<Bytes>)
    ensures hashed == DeliveryPreimage([kind, sessionId, ephemeralPubkey, ciphertext, nonce])
    ensures hashed.Some? ==>
              ReadDelivery(hashed.value, 5) == Some([kind, sessionId, ephemeralPubkey, ciphertext, nonce])
  {
    var fields := [kind, sessionId, ephemeralPubkey, ciphertext, nonce];
    var hash := DELIVERY_LABEL;
    assert DELIVERY_LABEL == DELIVERY_LABEL + [];
    var i := 0;
    while i < |fields|
      invariant 0 <= i <= |fields| && Fields(fields[..i]).Some?
      invariant hash == DELIVERY_LABEL + Fields(fields[..i]).value
    {
      var b := LengthPrefixed(fields[i]);
      if b == None {
        FieldTooLong(fields, i);
        return None;
      }
      PrefixExtends(fields, i);
      hash := hash + b.value;
      i := i + 1;
    }
    assert fields[..i] == fields;
    DeliveryReadsBack(fields);
    return Some(hash);
  }

  /** The parser inverts the builder. */
  lemma AuthReadsBack(x: AuthFields)
    requires AuthPreimage(x).Some?
    ensures ReadAuth(AuthPreimage(x).value) == Some(x)
  {
    var b, ts := Fields(AuthList(x)).value, BigEndian(x.timestamp, 8);
    var s := AuthPreimage(x).value;
    assert s == AUTH_LABEL + (b + ts);
    LabelAppends(AUTH_LABEL, b + ts);
    FieldsReadBack(AuthList(x), ts);
    IntegerReadsBack(x.timestamp, 8);
  }

  /** The builder inverts the parser: nothing else is readable. */
  lemma AuthWritesBack(s: Bytes)
    requires ReadAuth(s).Some?
    ensures AuthPreimage(ReadAuth(s).value) == Some(s)
  {
    var body := StripLabel(AUTH_LABEL, s).value;
    var (fs, ts) := ReadFields(body, 4).value;
    FieldsWriteBack(body, 4);
    IntegerWritesBack(ts);
    assert AuthList(ReadAuth(s).value) == fs;
    LabelStrips(AUTH_LABEL, s);
    assert AUTH_LABEL + (Fields(fs).value + ts) == AUTH_LABEL + Fields(fs).value + ts;
  }

  lemma DeliveryWritesBack(s: Bytes, n: nat)
    requires ReadDelivery(s, n).Some?
    ensures DeliveryPreimage(ReadDelivery(s, n).value) == Some(s)
  {
    var body := StripLabel(DELIVERY_LABEL, s).value;
    FieldsWriteBack(body, n);
    var (fs, rest) := ReadFields(body, n).value;
    assert Fields(fs).value + [] == Fields(fs).value;
    LabelStrips(DELIVERY_LABEL, s);
  }

  // -- the bytes themselves ---------------------------------------------------

  /** `text` stands at the start of `s`, one byte a character. */
  predicate StartsWith(s: Bytes, text: string) {
    |text| <= |s| && forall i :: 0 <= i < |text| ==> s[i] == text[i] as int
  }

  /** Four bytes, most significant first. */
  function Word(a: int, b: int, c: int, d: int): int {
    a * 16777216 + b * 65536 + c * 256 + d
  }

  /** A length of four bytes and then the field. */
  predicate FieldAt(s: Bytes, p: nat, f: Bytes) {
    p + 4 + |f| <= |s| && Word(s[p], s[p + 1], s[p + 2], s[p + 3]) == |f| && s[p + 4..p + 4 + |f|] == f
  }

  /** The fields follow one another from `p` to `end`. */
  predicate FieldsAt(s: Bytes, p: nat, fs: seq<Bytes>, end: nat)
    decreases |fs|
  {
    if fs == [] then p == end else FieldAt(s, p, fs[0]) && FieldsAt(s, p + 4 + |fs[0]|, fs[1..], end)
  }

  lemma WordValue(b: Bytes)
    requires |b| == 4
    ensures FromBigEndian(b) == Word(b[0], b[1], b[2], b[3])
  {
    assert b[..3][..2] == b[..2] && b[..2][..1] == b[..1] && b[..1][..0] == [];
    assert FromBigEndian(b[..1]) == b[0];
    assert FromBigEndian(b[..2]) == 256 * FromBigEndian(b[..1]) + b[1];
    assert FromBigEndian(b[..3]) == 256 * FromBigEndian(b[..2]) + b[2];
  }

  lemma TimesByte(x: nat, y: nat, z: nat)
    ensures 256 * (x * y + z) == x * (256 * y) + 256 * z
  {
  }

  lemma {:induction false} ValueOfBoth(a: Bytes, b: Bytes)
    ensures FromBigEndian(a + b) == FromBigEndian(a) * Pow256(|b|) + FromBigEndian(b)
  {
    if b == [] {
      assert a + b == a;
    } else {
      var n := |b| - 1;
      ValueOfBoth(a, b[..n]);
      assert (a + b)[..|a + b| - 1] == a + b[..n];
      TimesByte(FromBigEndian(a), Pow256(n), FromBigEndian(b[..n]));
    }
  }

  lemma TwoWords(b: Bytes)
    requires |b| == 8
    ensures FromBigEndian(b) == Word(b[0], b[1], b[2], b[3]) * 4294967296 + Word(b[4], b[5], b[6], b[7])
  {
    assert b == b[..4] + b[4..];
    ValueOfBoth(b[..4], b[4..]);
    WordValue(b[..4]);
    WordValue(b[4..]);
    WidthLimits();
  }

  lemma PrefixedStands(before: Bytes, f: Bytes, after: Bytes)
    requires LengthPrefixed(f).Some?
    ensures FieldAt(before + LengthPrefixed(f).value + after, |before|, f)
  {
    var a, p := LengthPrefixed(f).value, |before|;
    var s := before + a + after;
    WidthLimits();
    IntegerReadsBack(|f|, 4);
    WordValue(BigEndian(|f|, 4));
    assert s[p..p + 4] == BigEndian(|f|, 4);
    assert s[p] == s[p..p + 4][0] && s[p + 1] == s[p..p + 4][1] && s[p + 2] == s[p..p + 4][2];
    assert s[p + 3] == s[p..p + 4][3];
  }

  lemma Regroup(a: Bytes, b: Bytes, c: Bytes, d: Bytes)
    ensures a + (b + c) + d == a + b + (c + d) && a + (b + c) + d == a + b + c + d
  {
  }

  lemma {:induction false} FieldsStand(before: Bytes, fs: seq<Bytes>, after: Bytes)
    requires Fields(fs).Some?
    ensures FieldsAt(before + Fields(fs).value + after, |before|, fs, |before| + |Fields(fs).value|)
    decreases |fs|
  {
    hide FieldAt;
    if fs != [] {
      var a, rest := LengthPrefixed(fs[0]).value, Fields(fs[1..]).value;
      PrefixedStands(before, fs[0], rest + after);
      FieldsStand(before + a, fs[1..], after);
      Regroup(before, a, rest, after);
    }
  }

  lemma LabelStands(prefix: Bytes, after: Bytes)
    ensures forall i :: 0 <= i < |prefix| ==> (prefix + after)[i] == prefix[i]
  {
  }

  lemma LabelsSpell()
    ensures |AUTH_LABEL| == 28 && StartsWith(AUTH_LABEL, "dicode/oauth-auth-request/v4")
    ensures |DELIVERY_LABEL| == 30 && StartsWith(DELIVERY_LABEL, "dicode/oauth-token-delivery/v4")
  {
  }

  /** An auth request is hashed as its label, its four fields in order, and eight bytes of timestamp. */
  lemma AuthLayout(x: AuthFields)
    requires AuthPreimage(x).Some?
    ensures
      var s := AuthPreimage(x).value;
      var n := |s| - 8;
      && n >= 28 && StartsWith(s, "dicode/oauth-auth-request/v4")
      && FieldsAt(s, 28, [x.sessionId, x.challenge, x.relayUuid, x.provider], n)
      && Word(s[n], s[n + 1], s[n + 2], s[n + 3]) * 4294967296 + Word(s[n + 4], s[n + 5], s[n + 6], s[n + 7])
           == x.timestamp
  {
    hide FieldsAt, Fields;
    var s, b, ts := AuthPreimage(x).value, Fields(AuthList(x)).value, BigEndian(x.timestamp, 8);
    FieldsStand(AUTH_LABEL, AuthList(x), ts);
    IntegerReadsBack(x.timestamp, 8);
    TwoWords(ts);
    assert forall i :: 0 <= i < 8 ==> s[|s| - 8..][i] == ts[i];
    LabelsSpell();
    LabelStands(AUTH_LABEL, b + ts);
    assert s == AUTH_LABEL + (b + ts);
  }

  lemma DeliveryLayout(fs: seq<Bytes>)
    requires DeliveryPreimage(fs).Some?
    ensures
      var s := DeliveryPreimage(fs).value;
      StartsWith(s, "dicode/oauth-token-delivery/v4") && FieldsAt(s, 30, fs, |s|)
  {
    FieldsStand(DELIVERY_LABEL, fs, []);
    LabelsSpell();
    LabelStands(DELIVERY_LABEL, Fields(fs).value);
    assert DELIVERY_LABEL + Fields(fs).value + [] == DeliveryPreimage(fs).value;
  }

  /** The hashed bytes of an auth request determine its four fields and its timestamp. */
  lemma AuthPreimageInjective(x: AuthFields, y: AuthFields)
    requires AuthPreimage(x).Some? && AuthPreimage(x) == AuthPreimage(y)
    ensures x == y
  {
    AuthReadsBack(x);
    AuthReadsBack(y);
  }

  lemma DeliveryPreimageInjective(xs: seq<Bytes>, ys: seq<Bytes>)
    requires |xs| == |ys| && DeliveryPreimage(xs).Some? && DeliveryPreimage(xs) == DeliveryPreimage(ys)
    ensures xs == ys
  {
    DeliveryReadsBack(xs);
    DeliveryReadsBack(ys);
  }

  /** A signature over one kind of message is never one over the other kind. */
  lemma DomainsAreSeparate(x: AuthFields, fs: seq<Bytes>)
    requires AuthPreimage(x).Some? && DeliveryPreimage(fs).Some?
    ensures AuthPreimage(x) != DeliveryPreimage(fs)
  {
    var a, d := AuthPreimage(x).value, DeliveryPreimage(fs).value;
    assert a[13] == AUTH_LABEL[13] == 'a' as int;
    assert d[13] == DELIVERY_LABEL[13] == 't' as int;
  }

  // -- GCM framing -----------------------------------------------------------

  const IV_LEN := 12
  const TAG_LEN := 16

  /** `subarray` with a possibly negative index, which counts from the end. */
  function Index(b: Bytes, i: int): (k: nat)
    ensures k <= |b|
  {
    if i < 0 then Max(|b| + i, 0) else Min(i, |b|)
  }

  /** The recipient's split of ciphertext and tag. */
  function SplitTag(data: Bytes): (Bytes, Bytes) {
    var k := Index(data, |data| - TAG_LEN);
    (data[..k], data[k..])
  }

  /** Appending a tag and splitting it off undo each other, for 16-byte tags and strings of 16 bytes or more. */
  lemma TagSplitsOff(ct: Bytes, tag: Bytes, data: Bytes)
    ensures |tag| == 16 ==> SplitTag(ct + tag) == (ct, tag)
    ensures SplitTag(data).0 + SplitTag(data).1 == data
    ensures |SplitTag(data).1| == 16 <==> |data| >= 16
  {
  }

  datatype Frame = Frame(iv: Bytes, ct: Bytes, tag: Bytes)

  predicate WellFormed(f: Frame) {
    |f.iv| == 12 && |f.tag| == 16
  }

  /** The framing of a flow token: `null` below 28 bytes. */
  function ReadFrame(raw: Bytes): Option<Frame> {
    if |raw| < IV_LEN + TAG_LEN then None
    else Some(Frame(raw[..IV_LEN], raw[IV_LEN..|raw| - TAG_LEN], raw[|raw| - TAG_LEN..]))
  }

  /** Reading is a bijection from strings of 28 bytes or more to frames of 12, any and 16 bytes, one after the other. */
  lemma FramesReadBack(f: Frame, raw: Bytes)
    ensures WellFormed(f) ==> ReadFrame(f.iv + f.ct + f.tag) == Some(f)
    ensures |raw| >= 28 <==> ReadFrame(raw).Some?
    ensures
      ReadFrame(raw).Some? ==>
        var r := ReadFrame(raw).value;
        WellFormed(r) && r.iv + r.ct + r.tag == raw
  {
    if WellFormed(f) {
      var r := f.iv + f.ct + f.tag;
      assert r[..IV_LEN] == f.iv && r[IV_LEN..|r| - TAG_LEN] == f.ct && r[|r| - TAG_LEN..] == f.tag;
    }
    if |raw| >= IV_LEN + TAG_LEN {
      assert raw == raw[..IV_LEN] + raw[IV_LEN..|raw| - TAG_LEN] + raw[|raw| - TAG_LEN..];
    }
  }
}
