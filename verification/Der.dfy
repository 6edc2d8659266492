/**
 * Signatures on the daemon's side: Web Crypto yields r and s as two 32-byte
 * halves, the relay wants SEQUENCE { INTEGER r, INTEGER s } in DER.
 */
module Der {
  import opened Prelude

  /** The natural a byte string stands for, most significant byte first. */
  function Value(b: Bytes): nat {
    if b == [] then 0 else 256 * Value(b[..|b| - 1]) + b[|b| - 1]
  }

  /** The content octets of an INTEGER (section 8.3 of ITU-T X.690): two's complement. */
  function Signed(c: Bytes): int
    requires c != []
  {
    if |c| == 1 then (if c[0] < 0x80 then c[0] else c[0] - 256)
    else 256 * Signed(c[..|c| - 1]) + c[|c| - 1]
  }

  /** Section 8.3.2 of ITU-T X.690: the first nine bits are neither all zeros nor all ones. */
  predicate Minimal(c: Bytes) {
    && c != []
    && (|c| >= 2 ==> !(c[0] == 0 && c[1] < 0x80) && !(c[0] == 0xff && c[1] >= 0x80))
  }

  /** Tag, short-form length, contents; what follows is handed back. */
  function ReadInteger(s: Bytes): Option<(int, Bytes)> {
    if |s| < 2 || s[0] != 0x02 || s[1] >= 0x80 || |s| < 2 + s[1] then None
    else if !Minimal(s[2..2 + s[1]]) then None
    else Some((Signed(s[2..2 + s[1]]), s[2 + s[1]..]))
  }

  /** Ecdsa-Sig-Value of section 2.2.3 of RFC 3279, nothing left over. */
  function ReadSignature(s: Bytes): Option<(int, int)> {
    if |s| < 2 || s[0] != 0x30 || s[1] >= 0x80 || |s| != 2 + s[1] then None
    else
      match ReadInteger(s[2..])
      case None => None
      case Some((r, rest)) =>
        match ReadInteger(rest)
        case None => None
        case Some((v, end)) => if end == [] then Some((r, v)) else None
  }

  // -- facts about the two readings of a byte string -------------------------

  lemma {:induction false} SignedIsValue(c: Bytes)
    requires c != [] && c[0] < 0x80
    ensures Signed(c) == Value(c)
  {
    if |c| == 1 {
      assert c[..0] == [];
    } else {
      SignedIsValue(c[..|c| - 1]);
    }
  }

  lemma {:induction false} LeadingZero(b: Bytes)
    ensures Value([0] + b) == Value(b)
  {
    var z := [0] + b;
    if b == [] {
      assert z[..0] == [];
    } else {
      assert z[..|z| - 1] == [0] + b[..|b| - 1];
      LeadingZero(b[..|b| - 1]);
    }
  }

  /** A minimal encoding of two or more bytes holds a number that one byte cannot. */
  lemma {:induction false} LongIsLarge(c: Bytes)
    requires Minimal(c) && |c| >= 2
    ensures Signed(c) < -128 || 127 < Signed(c)
  {
    if |c| > 2 {
      LongIsLarge(c[..|c| - 1]);
    }
  }

  /** An integer has one minimal encoding. */
  lemma {:induction false} MinimalIsUnique(a: Bytes, b: Bytes)
    requires Minimal(a) && Minimal(b) && Signed(a) == Signed(b)
    ensures a == b
  {
    if |a| >= 2 { LongIsLarge(a); }
    if |b| >= 2 { LongIsLarge(b); }
    if |a| >= 2 && |b| >= 2 {
      MinimalIsUnique(a[..|a| - 1], b[..|b| - 1]);
      assert a == a[..|a| - 1] + [a[|a| - 1]] && b == b[..|b| - 1] + [b[|b| - 1]];
    }
  }

  lemma {:induction false} FixedWidthIsUnique(a: Bytes, b: Bytes)
    requires |a| == |b| && Value(a) == Value(b)
    ensures a == b
  {
    if a != [] {
      FixedWidthIsUnique(a[..|a| - 1], b[..|b| - 1]);
      assert a == a[..|a| - 1] + [a[|a| - 1]] && b == b[..|b| - 1] + [b[|b| - 1]];
    }
  }

  // -- the encoder -----------------------------------------------------------

  method TrimAndPad(b: Bytes) returns (c: Bytes)
    ensures b == [] ==> c == []
    ensures b != [] ==> Minimal(c) && Signed(c) == Value(b) && |c| <= |b| + 1
  {
    var start := 0;
    while start < |b| - 1 && b[start] == 0
      invariant 0 <= start <= |b| && (b != [] ==> start < |b|)
      invariant Value(b[start..]) == Value(b)
    {
      assert b[start..] == [0] + b[start + 1..];
      LeadingZero(b[start + 1..]);
      start := start + 1;
    }
    var trimmed := b[start..];
    if trimmed != [] && trimmed[0] >= 0x80 {
      LeadingZero(trimmed);
      SignedIsValue([0] + trimmed);
      return [0] + trimmed;
    }
    if trimmed != [] {
      SignedIsValue(trimmed);
    }
    return trimmed;
  }

  /** `Uint8Array.slice`: bounds past the end are clamped. */
  function Slice(b: Bytes, from: nat, to: nat): Bytes
    requires from <= to
  {
    b[Min(from, |b|)..Min(to, |b|)]
  }

  function Tlv(tag: Byte, c: Bytes): Bytes
    requires |c| < 0x80
  {
    [tag, |c|] + c
  }

  lemma ReadsBack(c: Bytes, rest: Bytes)
    requires |c| < 0x80
    ensures ReadInteger(Tlv(0x02, c) + rest) == if Minimal(c) then Some((Signed(c), rest)) else None
  {
    var s := Tlv(0x02, c) + rest;
    assert s[2..2 + |c|] == c && s[2 + |c|..] == rest;
  }

  lemma SignatureReadsBack(r: Bytes, v: Bytes)
    requires |r| + |v| + 4 < 0x80
    ensures ReadSignature(Tlv(0x30, Tlv(0x02, r) + Tlv(0x02, v))) ==
              if Minimal(r) && Minimal(v) then Some((Signed(r), Signed(v))) else None
  {
    var body := Tlv(0x02, r) + Tlv(0x02, v);
    assert Tlv(0x30, body)[2..] == body;
    ReadsBack(r, Tlv(0x02, v));
    assert Tlv(0x02, v) == Tlv(0x02, v) + [];
    ReadsBack(v, []);
  }

  lemma LaidOut(r: Bytes, v: Bytes)
    requires |r| + |v| + 4 < 0x80
    ensures [] + [0x30, |r| + |v| + 4] + Tlv(0x02, r) + Tlv(0x02, v) == Tlv(0x30, Tlv(0x02, r) + Tlv(0x02, v))
  {
  }

  /** Where the tags and the outer length stand. */
  lemma TagsStand(s: Bytes, r: Bytes, v: Bytes)
    requires |r| + |v| + 4 < 0x80 && s == Tlv(0x30, Tlv(0x02, r) + Tlv(0x02, v))
    ensures |s| == 6 + |r| + |v| && s[0] == 0x30 && s[1] == |s| - 2
    ensures s[2] == 0x02 && s[3] == |r| && s[4 + |r|] == 0x02
  {
    assert s[2..] == Tlv(0x02, r) + Tlv(0x02, v);
    assert s[2 + (2 + |r|)] == Tlv(0x02, v)[0];
  }

  /** `out.set(bytes, i)`, with the index moved past what was written. */
  method Set(out: array<Byte>, bytes: Bytes, i: nat) returns (next: nat)
    requires i + |bytes| <= out.Length
    modifies out
    ensures next == i + |bytes| && out[..next] == old(out[..i]) + bytes
  {
    forall k | 0 <= k < |bytes| { out[i + k] := bytes[k]; }
    next := i + |bytes|;
  }

  /** A tag and a length. */
  method SetHeader(out: array<Byte>, tag: Byte, length: Byte, i: nat) returns (next: nat)
    requires i + 2 <= out.Length
    modifies out
    ensures next == i + 2 && out[..next] == old(out[..i]) + [tag, length]
  {
    out[i] := tag;
    out[i + 1] := length;
    next := i + 2;
  }

  method SetInteger(out: array<Byte>, content: Bytes, i: nat) returns (next: nat)
    requires i + 2 + |content| <= out.Length && |content| < 0x80
    modifies out
    ensures next == i + 2 + |content| && out[..next] == old(out[..i]) + Tlv(0x02, content)
  {
    ghost var before := out[..i];
    next := SetHeader(out, 0x02, |content|, i);
    next := Set(out, content, next);
    assert before + [0x02, |content|] + content == before + Tlv(0x02, content);
  }

  /**
   * The output of `p1363ToDer` reads back as the two halves' numbers, and is
   * readable at all exactly when the input reaches past its first half.
   */
  method P1363ToDer(p1363: Bytes) returns (out: array<Byte>)
    ensures fresh(out) && 6 <= out.Length <= 72
    ensures out[0] == 0x30 && out[1] == out.Length - 2
    ensures out[2] == 0x02 && 5 + out[3] < out.Length && out[4 + out[3]] == 0x02
    ensures ReadSignature(out[..]) ==
              if |p1363| > 32 then Some((Value(Slice(p1363, 0, 32)), Value(Slice(p1363, 32, 64)))) else None
  {
    hide Tlv, ReadSignature;
    var r := TrimAndPad(Slice(p1363, 0, 32));
    var s := TrimAndPad(Slice(p1363, 32, 64));
    var seqLen := |r| + |s| + 4;
    out := new Byte[2 + seqLen];
    var i := 0;
    i := SetHeader(out, 0x30, seqLen, i);
    i := SetInteger(out, r, i);
    i := SetInteger(out, s, i);
    LaidOut(r, s);
    assert out[..] == out[..i];
    TagsStand(out[..], r, s);
    SignatureReadsBack(r, s);
  }

  // -- what the reading means ------------------------------------------------

  lemma IntegerIsUnique(a: Bytes, b: Bytes)
    requires ReadInteger(a).Some? && ReadInteger(a) == ReadInteger(b)
    ensures a == b
  {
    var ca, cb := a[2..2 + a[1]], b[2..2 + b[1]];
    MinimalIsUnique(ca, cb);
    assert a == [a[0], a[1]] + ca + a[2 + a[1]..] && b == [b[0], b[1]] + cb + b[2 + b[1]..];
  }

  /** Two readable byte strings that hold the same pair are the same string: the reading fixes every byte. */
  lemma EncodingIsUnique(a: Bytes, b: Bytes)
    requires ReadSignature(a).Some? && ReadSignature(a) == ReadSignature(b)
    ensures a == b
  {
    var ra, rb := ReadInteger(a[2..]).value.1, ReadInteger(b[2..]).value.1;
    IntegerIsUnique(ra, rb);
    IntegerIsUnique(a[2..], b[2..]);
    assert a == [a[0], a[1]] + a[2..] && b == [b[0], b[1]] + b[2..];
  }

  /** 64-byte signatures with the same DER form are the same signature. */
  lemma DerDeterminesSignature(p: Bytes, q: Bytes, d: Bytes)
    requires |p| == |q| == 64
    requires ReadSignature(d) == Some((Value(p[..32]), Value(p[32..])))
    requires ReadSignature(d) == Some((Value(q[..32]), Value(q[32..])))
    ensures p == q
  {
    FixedWidthIsUnique(p[..32], q[..32]);
    FixedWidthIsUnique(p[32..], q[32..]);
    assert p == p[..32] + p[32..] && q == q[..32] + q[32..];
  }
}
