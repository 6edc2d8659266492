/**
 * The allow-list check that `dispatchRequest` makes on a request target:
 * percent-decoding as decodeURIComponent does it, POSIX normalisation by
 * segments, and the comparison of the three forms of the path.
 */
module Paths {
  import opened Prelude

  // -- the target's two parts ------------------------------------------------

  /** Everything before the first `?`. */
  function BarePath(target: string): string {
    if target == "" || target[0] == '?' then "" else [target[0]] + BarePath(target[1..])
  }

  // -- decodeURIComponent ----------------------------------------------------

  function HexValue(c: char): (v: int)
    ensures -1 <= v < 16
  {
    if '0' <= c <= '9' then c as int - '0' as int
    else if 'a' <= c <= 'f' then c as int - 'a' as int + 10
    else if 'A' <= c <= 'F' then c as int - 'A' as int + 10
    else -1
  }

  /** The byte that the three characters of `s` from `k` encode; -1 when they are not an escape. */
  function EscapedByte(s: string, k: nat): (b: int)
    ensures -1 <= b < 256
    ensures b >= 0 ==> k + 3 <= |s| && s[k] == '%'
  {
    if k + 3 > |s| || s[k] != '%' || HexValue(s[k + 1]) < 0 || HexValue(s[k + 2]) < 0 then -1
    else HexValue(s[k + 1]) * 16 + HexValue(s[k + 2])
  }

  /** Length of the UTF-8 sequence that `b` starts; 0 when no sequence starts with it. */
  function SequenceLength(b: Byte): (n: nat)
    ensures n <= 4
  {
    if b < 0x80 then 1
    else if 0xC2 <= b <= 0xDF then 2
    else if 0xE0 <= b <= 0xEF then 3
    else if 0xF0 <= b <= 0xF4 then 4
    else 0
  }

  /** The six payload bits of the continuation byte escaped at `k`; -1 when there is none. */
  function Continuation(s: string, k: nat): (v: int)
    ensures -1 <= v < 64
    ensures v >= 0 ==> k + 3 <= |s|
  {
    var b := EscapedByte(s, k);
    if 0x80 <= b <= 0xBF then b - 0x80 else -1
  }

  /** The code point escaped at the start of `s` with `n` bytes; -1 when it is malformed. */
  function CodePoint(s: string, b: Byte, n: nat): int
    requires n == SequenceLength(b) > 0
  {
    if n == 1 then b
    else
      var c1 := Continuation(s, 3);
      if c1 < 0 then -1
      else if n == 2 then (b - 0xC0) * 64 + c1
      else
        var c2 := Continuation(s, 6);
        if c2 < 0 then -1
        else if n == 3 then
          var v := (b - 0xE0) * 4096 + c1 * 64 + c2;
          if v < 0x800 then -1 else v
        else
          var c3 := Continuation(s, 9);
          if c3 < 0 then -1
          else
            var v := (b - 0xF0) * 262144 + c1 * 4096 + c2 * 64 + c3;
            if v < 0x1_0000 then -1 else v
  }

  predicate IsScalar(v: int) {
    0 <= v < 0xD800 || 0xE000 <= v < 0x11_0000
  }

  /** decodeURIComponent; None where it throws. */
  function PercentDecode(s: string): Option<string>
    decreases |s|
  {
    if s == "" then Some("")
    else if s[0] != '%' then
      (match PercentDecode(s[1..])
       case Some(rest) => Some([s[0]] + rest)
       case None => None)
    else
      var b := EscapedByte(s, 0);
      if b < 0 then None
      else
        var n := SequenceLength(b);
        if n == 0 || 3 * n > |s| || !IsScalar(CodePoint(s, b, n)) then None
        else
          match PercentDecode(s[3 * n..])
          case Some(rest) => Some([CodePoint(s, b, n) as char] + rest)
          case None => None
  }

  lemma {:induction false} DecodeShrinks(s: string)
    ensures '%' !in s ==> PercentDecode(s) == Some(s)
    ensures PercentDecode(s).Some? ==> |PercentDecode(s).value| <= |s|
    ensures PercentDecode(s).Some? && '%' in s ==> |PercentDecode(s).value| < |s|
    decreases |s|
  {
    if s != "" {
      assert s == [s[0]] + s[1..];
      if s[0] != '%' {
        DecodeShrinks(s[1..]);
      } else {
        var b := EscapedByte(s, 0);
        if b >= 0 && 0 < 3 * SequenceLength(b) <= |s| {
          DecodeShrinks(s[3 * SequenceLength(b)..]);
        }
      }
    }
  }

  // -- what decoding means ---------------------------------------------------

  /** `c` is the hexadecimal digit `v`, in either case. */
  predicate IsDigit(c: char, v: nat) {
    v < 16 && (c == "0123456789abcdef"[v] || c == "0123456789ABCDEF"[v])
  }

  lemma HexValueExactly(c: char, v: nat)
    ensures HexValue(c) == v <==> IsDigit(c, v)
  {
  }

  /** The percent escape of byte `b` stands at `k`. */
  predicate EscapeAt(s: string, k: nat, b: nat) {
    k + 3 <= |s| && s[k] == '%' && IsDigit(s[k + 1], b / 16) && IsDigit(s[k + 2], b % 16)
  }

  lemma EscapedByteExactly(s: string, k: nat, b: nat)
    ensures EscapedByte(s, k) == b <==> EscapeAt(s, k, b)
  {
    if k + 3 <= |s| {
      HexValueExactly(s[k + 1], b / 16);
      HexValueExactly(s[k + 2], b % 16);
    }
  }

  /** The UTF-8 encoding of a character. */
  function Utf8(c: char): (bytes: seq<Byte>)
    ensures 1 <= |bytes| <= 4
  {
    var v := c as int;
    if v < 0x80 then [v]
    else if v < 0x800 then [0xC0 + v / 64, 0x80 + v % 64]
    else if v < 0x1_0000 then [0xE0 + v / 4096, 0x80 + v / 64 % 64, 0x80 + v % 64]
    else [0xF0 + v / 262144, 0x80 + v / 4096 % 64, 0x80 + v / 64 % 64, 0x80 + v % 64]
  }

  /** The UTF-8 bytes of `c`, each as an escape, at the start of `s`. */
  ghost predicate EscapedAs(s: string, c: char) {
    var u := Utf8(c);
    && EscapeAt(s, 0, u[0]) && (|u| > 1 ==> EscapeAt(s, 3, u[1]))
    && (|u| > 2 ==> EscapeAt(s, 6, u[2])) && (|u| > 3 ==> EscapeAt(s, 9, u[3]))
  }

  /** `s` spells `t`: each character stands for itself, if it is no percent sign, or is escaped byte by byte. */
  ghost predicate Spells(s: string, t: string)
    decreases |t|
  {
    if t == "" then s == ""
    else
      || (s != "" && s[0] == t[0] != '%' && Spells(s[1..], t[1..]))
      || (EscapedAs(s, t[0]) && 3 * |Utf8(t[0])| <= |s| && Spells(s[3 * |Utf8(t[0])|..], t[1..]))
  }

  ghost predicate Decodes(s: string) {
    exists t :: Spells(s, t)
  }

  lemma TwoBytes(v: nat, b0: int, b1: int)
    requires 0x80 <= v < 0x800
    ensures b0 == 0xC0 + v / 64 && b1 == 0x80 + v % 64 <==>
              0xC2 <= b0 <= 0xDF && 0x80 <= b1 <= 0xBF && (b0 - 0xC0) * 64 + (b1 - 0x80) == v
  {
  }

  lemma ThreeBytes(v: nat, b0: int, b1: int, b2: int)
    requires 0x800 <= v < 0x1_0000
    ensures b0 == 0xE0 + v / 4096 && b1 == 0x80 + v / 64 % 64 && b2 == 0x80 + v % 64 <==>
              && 0xE0 <= b0 <= 0xEF && 0x80 <= b1 <= 0xBF && 0x80 <= b2 <= 0xBF
              && (b0 - 0xE0) * 4096 + (b1 - 0x80) * 64 + (b2 - 0x80) == v
  {
    assert v == v / 4096 * 4096 + v / 64 % 64 * 64 + v % 64;
  }

  lemma SixBits(high: int, low: int)
    requires 0 <= low < 64
    ensures (high * 64 + low) / 64 == high && (high * 64 + low) % 64 == low
  {
  }

  lemma DividedTwice(v: nat)
    ensures v / 4096 == v / 64 / 64 && v / 262144 == v / 64 / 64 / 64
  {
  }

  lemma Digits(v: nat)
    ensures v == v / 262144 * 262144 + v / 4096 % 64 * 4096 + v / 64 % 64 * 64 + v % 64
  {
    DividedTwice(v);
    var a, b := v / 64, v / 64 / 64;
    assert v == 64 * a + v % 64 && a == 64 * b + a % 64 && b == 64 * (b / 64) + b % 64;
  }

  lemma DigitsAreUnique(v: nat, d0: int, d1: int, d2: int, d3: int)
    requires 0 <= d1 < 64 && 0 <= d2 < 64 && 0 <= d3 < 64
    requires v == d0 * 262144 + d1 * 4096 + d2 * 64 + d3
    ensures d0 == v / 262144 && d1 == v / 4096 % 64 && d2 == v / 64 % 64 && d3 == v % 64
  {
    SixBits(d0 * 4096 + d1 * 64 + d2, d3);
    SixBits(d0 * 64 + d1, d2);
    SixBits(d0, d1);
    DividedTwice(v);
  }

  lemma FourBytes(v: nat, b0: int, b1: int, b2: int, b3: int)
    requires 0x1_0000 <= v < 0x11_0000
    ensures
      (b0 == 0xF0 + v / 262144 && b1 == 0x80 + v / 4096 % 64 && b2 == 0x80 + v / 64 % 64 && b3 == 0x80 + v % 64) <==>
              && 0xF0 <= b0 <= 0xF4 && 0x80 <= b1 <= 0xBF && 0x80 <= b2 <= 0xBF && 0x80 <= b3 <= 0xBF
              && (b0 - 0xF0) * 262144 + (b1 - 0x80) * 4096 + (b2 - 0x80) * 64 + (b3 - 0x80) == v
  {
    Digits(v);
    if 0x80 <= b1 <= 0xBF && 0x80 <= b2 <= 0xBF && 0x80 <= b3 <= 0xBF
       && (b0 - 0xF0) * 262144 + (b1 - 0x80) * 4096 + (b2 - 0x80) * 64 + (b3 - 0x80) == v {
      DigitsAreUnique(v, b0 - 0xF0, b1 - 0x80, b2 - 0x80, b3 - 0x80);
    }
  }

  /** `s` starts with a well-formed escape sequence for `c`, as `CodePoint` sees it. */
  predicate ReadAs(s: string, c: char) {
    var b := EscapedByte(s, 0);
    b >= 0 && SequenceLength(b) == |Utf8(c)| && 3 * |Utf8(c)| <= |s| && CodePoint(s, b, SequenceLength(b)) == c as int
  }

  lemma EscapedAsBytes(s: string, c: char)
    ensures
      var u := Utf8(c);
      EscapedAs(s, c) <==>
        && EscapedByte(s, 0) == u[0] && (|u| > 1 ==> EscapedByte(s, 3) == u[1])
        && (|u| > 2 ==> EscapedByte(s, 6) == u[2]) && (|u| > 3 ==> EscapedByte(s, 9) == u[3])
  {
    hide EscapedByte, EscapeAt, Utf8;
    var u := Utf8(c);
    EscapedByteExactly(s, 0, u[0]);
    if |u| > 1 { EscapedByteExactly(s, 3, u[1]); }
    if |u| > 2 { EscapedByteExactly(s, 6, u[2]); }
    if |u| > 3 { EscapedByteExactly(s, 9, u[3]); }
  }

  lemma AsTwoBytes(s: string, c: char)
    requires 0x80 <= c as int < 0x800
    ensures EscapedAs(s, c) <==> ReadAs(s, c)
  {
    EscapedAsBytes(s, c);
    var b0, b1 := EscapedByte(s, 0), EscapedByte(s, 3);
    assert b1 >= 0 ==> 6 <= |s|;
    hide EscapedAs, EscapedByte;
    TwoBytes(c as int, b0, b1);
  }

  lemma AsThreeBytes(s: string, c: char)
    requires 0x800 <= c as int < 0x1_0000
    ensures EscapedAs(s, c) <==> ReadAs(s, c)
  {
    EscapedAsBytes(s, c);
    var b0, b1, b2 := EscapedByte(s, 0), EscapedByte(s, 3), EscapedByte(s, 6);
    assert b2 >= 0 ==> 9 <= |s|;
    hide EscapedAs, EscapedByte;
    ThreeBytes(c as int, b0, b1, b2);
  }

  lemma CodeOfFour(s: string, b0: Byte, v: nat)
    requires SequenceLength(b0) == 4 && 0x1_0000 <= v
    ensures
      var b1, b2, b3 := EscapedByte(s, 3), EscapedByte(s, 6), EscapedByte(s, 9);
      CodePoint(s, b0, 4) == v <==>
        && 0x80 <= b1 <= 0xBF && 0x80 <= b2 <= 0xBF && 0x80 <= b3 <= 0xBF
        && (b0 - 0xF0) * 262144 + (b1 - 0x80) * 4096 + (b2 - 0x80) * 64 + (b3 - 0x80) == v
  {
  }

  lemma AsFourBytes(s: string, c: char)
    requires 0x1_0000 <= c as int
    ensures EscapedAs(s, c) <==> ReadAs(s, c)
  {
    EscapedAsBytes(s, c);
    var b0, b1, b2, b3 := EscapedByte(s, 0), EscapedByte(s, 3), EscapedByte(s, 6), EscapedByte(s, 9);
    assert b3 >= 0 ==> 12 <= |s|;
    if b0 >= 0 && SequenceLength(b0) == 4 { CodeOfFour(s, b0, c as int); }
    hide EscapedAs, EscapedByte, CodePoint;
    FourBytes(c as int, b0, b1, b2, b3);
  }

  /** The escape at the start of `s` is read as a code point exactly when it is that character's encoding. */
  lemma CodePointExactly(s: string, c: char)
    ensures EscapedAs(s, c) <==> ReadAs(s, c)
  {
    if c as int < 0x80 {
      EscapedAsBytes(s, c);
    } else if c as int < 0x800 {
      AsTwoBytes(s, c);
    } else if c as int < 0x1_0000 {
      AsThreeBytes(s, c);
    } else {
      AsFourBytes(s, c);
    }
  }

  lemma CodeIsScalar(s: string, b: Byte)
    requires SequenceLength(b) > 0 && IsScalar(CodePoint(s, b, SequenceLength(b)))
    requires EscapedByte(s, 0) == b && 3 * SequenceLength(b) <= |s|
    ensures ReadAs(s, CodePoint(s, b, SequenceLength(b)) as char)
  {
  }

  /** Decoding succeeds on what spells some text, and yields that text. */
  lemma {:induction false} DecodesExactly(s: string, t: string)
    ensures PercentDecode(s) == Some(t) <==> Spells(s, t)
    decreases |s|
  {
    if s == "" {
      if t != "" { CodePointExactly(s, t[0]); }
    } else if s[0] != '%' {
      if t != "" {
        CodePointExactly(s, t[0]);
        DecodesExactly(s[1..], t[1..]);
        assert t == [t[0]] + t[1..];
      }
    } else {
      if t != "" {
        CodePointExactly(s, t[0]);
        if ReadAs(s, t[0]) {
          DecodesExactly(s[3 * |Utf8(t[0])|..], t[1..]);
        }
        assert t == [t[0]] + t[1..];
      }
      var b := EscapedByte(s, 0);
      if b >= 0 && 0 < 3 * SequenceLength(b) <= |s| && IsScalar(CodePoint(s, b, SequenceLength(b))) {
        CodeIsScalar(s, b);
      }
    }
  }

  // -- posix.normalize -------------------------------------------------------

  function Split(s: string): (segs: seq<string>)
    ensures segs != []
  {
    if s == "" then [""]
    else
      var rest := Split(s[1..]);
      if s[0] == '/' then [""] + rest else [[s[0]] + rest[0]] + rest[1..]
  }

  function Join(segs: seq<string>): string
    requires segs != []
  {
    if |segs| == 1 then segs[0] else segs[0] + "/" + Join(segs[1..])
  }

  /** Segments after resolving `.` and `..` against the ones kept so far. */
  function Resolve(kept: seq<string>, segs: seq<string>, absolute: bool): seq<string>
    decreases |segs|
  {
    if segs == [] then kept
    else
      var seg := segs[0];
      var kept' :=
        if seg == "" || seg == "." then kept
        else if seg != ".." then kept + [seg]
        else if kept != [] && kept[|kept| - 1] != ".." then kept[..|kept| - 1]
        else if absolute then kept
        else kept + [".."];
      Resolve(kept', segs[1..], absolute)
  }

  function Normalize(path: string): string {
    if path == "" then "."
    else
      var absolute, trailing := path[0] == '/', path[|path| - 1] == '/';
      var kept := Resolve([], Split(path), absolute);
      if kept == [] then (if absolute then "/" else if trailing then "./" else ".")
      else
        (if absolute then "/" else "") + Join(kept) + (if trailing then "/" else "")
  }

  // -- the check -------------------------------------------------------------

  datatype Verdict = Malformed | Forbidden | Allowed

  predicate UnderHooks(path: string) {
    |path| >= 7 && path[..7] == "/hooks/"
  }

  predicate Listed(path: string) {
    UnderHooks(path) || path == "/dicode.js"
  }

  function Check(target: string): Verdict {
    var bare := BarePath(target);
    match PercentDecode(bare)
    case None => Malformed
    case Some(decoded) =>
      var normalised := Normalize(decoded);
      if normalised != decoded || normalised != bare then Forbidden
      else if !Listed(normalised) then Forbidden
      else Allowed
  }

  // -- what the check accepts ------------------------------------------------

  predicate CleanSegment(seg: string) {
    seg != "" && seg != "." && seg != ".." && '/' !in seg
  }

  ghost predicate AllClean(segs: seq<string>) {
    forall i :: 0 <= i < |segs| ==> CleanSegment(segs[i])
  }

  /** A leading slash, then segments none of which is empty, `.` or `..`; one trailing slash allowed. */
  ghost predicate CleanPath(path: string) {
    var segs := Split(path);
    && |segs| >= 2 && segs[0] == ""
    && (AllClean(segs[1..]) || (|segs| >= 3 && segs[|segs| - 1] == "" && AllClean(segs[1..|segs| - 1])))
  }

  ghost predicate NoSlash(segs: seq<string>) {
    forall i :: 0 <= i < |segs| ==> '/' !in segs[i]
  }

  lemma {:induction false} JoinSplit(s: string)
    ensures NoSlash(Split(s)) && Join(Split(s)) == s
  {
    if s != "" {
      JoinSplit(s[1..]);
      var rest, segs := Split(s[1..]), Split(s);
      assert s == [s[0]] + s[1..];
      if s[0] == '/' {
        assert segs[1..] == rest;
      } else if |rest| > 1 {
        assert segs[1..] == rest[1..];
        calc {
          Join(segs);
          ([s[0]] + rest[0]) + "/" + Join(rest[1..]);
          [s[0]] + (rest[0] + "/" + Join(rest[1..]));
        }
      }
    }
  }

  lemma {:induction false} SplitWord(word: string, tail: string)
    requires '/' !in word
    ensures Split(word + tail) == [word + Split(tail)[0]] + Split(tail)[1..]
  {
    if word == "" {
      assert word + tail == tail && word + Split(tail)[0] == Split(tail)[0];
    } else {
      var s := word + tail;
      assert s[1..] == word[1..] + tail && s[0] == word[0];
      SplitWord(word[1..], tail);
      assert word == [word[0]] + word[1..];
      assert Split(s) == [[s[0]] + Split(s[1..])[0]] + Split(s[1..])[1..];
      assert [word[0]] + (word[1..] + Split(tail)[0]) == word + Split(tail)[0];
    }
  }

  lemma {:induction false} SplitJoin(segs: seq<string>)
    requires segs != [] && NoSlash(segs)
    ensures Split(Join(segs)) == segs
  {
    var word := segs[0];
    if |segs| == 1 {
      SplitWord(word, "");
      assert word + "" == word && segs == [word];
    } else {
      var tail := "/" + Join(segs[1..]);
      SplitJoin(segs[1..]);
      assert tail[1..] == Join(segs[1..]);
      assert Split(tail) == [""] + segs[1..];
      SplitWord(word, tail);
      assert word + tail == word + "/" + Join(segs[1..]);
      assert word + "" == word;
    }
  }

  /** Clean segments survive resolution untouched. */
  lemma {:induction false} ResolveClean(kept: seq<string>, segs: seq<string>)
    requires AllClean(segs)
    ensures Resolve(kept, segs, true) == kept + segs
    decreases |segs|
  {
    if segs == [] {
      assert kept + segs == kept;
    } else {
      assert CleanSegment(segs[0]);
      ResolveClean(kept + [segs[0]], segs[1..]);
      assert kept + [segs[0]] + segs[1..] == kept + segs;
    }
  }

  lemma {:induction false} ResolveSkipsEmptyEnd(kept: seq<string>, segs: seq<string>)
    ensures Resolve(kept, segs + [""], true) == Resolve(kept, segs, true)
    decreases |segs|
  {
    if segs == [] {
      assert [""][1..] == [];
      assert Resolve(kept, [""], true) == Resolve(kept, [""][1..], true);
      assert segs + [""] == [""];
    } else {
      assert (segs + [""])[0] == segs[0] && (segs + [""])[1..] == segs[1..] + [""];
      var seg := segs[0];
      var kept' := if seg == "" || seg == "." then kept
        else if seg != ".." then kept + [seg]
        else if kept != [] && kept[|kept| - 1] != ".." then kept[..|kept| - 1]
        else kept;
      ResolveSkipsEmptyEnd(kept', segs[1..]);
    }
  }

  /** Resolution of an absolute path yields clean segments only. */
  lemma {:induction false} ResolveCleans(kept: seq<string>, segs: seq<string>)
    requires AllClean(kept) && NoSlash(segs)
    ensures AllClean(Resolve(kept, segs, true))
    decreases |segs|
  {
    if segs != [] {
      var seg := segs[0];
      var kept' := if seg == "" || seg == "." then kept
        else if seg != ".." then kept + [seg]
        else if kept != [] && kept[|kept| - 1] != ".." then kept[..|kept| - 1]
        else kept;
      assert AllClean(kept');
      ResolveCleans(kept', segs[1..]);
    }
  }

  lemma JoinPrefix(segs: seq<string>)
    requires segs != []
    ensures Join([""] + segs) == "/" + Join(segs)
  {
    assert ([""] + segs)[1..] == segs;
    assert "" + "/" == "/";
  }

  lemma {:induction false} JoinTrailing(segs: seq<string>)
    requires segs != []
    ensures Join(segs + [""]) == Join(segs) + "/"
  {
    var all := segs + [""];
    assert all[0] == segs[0] && all[1..] == segs[1..] + [""];
    if |segs| == 1 {
      assert all[1..] == [""];
      assert segs[0] + "/" + "" == segs[0] + "/";
    } else {
      JoinTrailing(segs[1..]);
      assert segs[0] + "/" + (Join(segs[1..]) + "/") == (segs[0] + "/" + Join(segs[1..])) + "/";
    }
  }

  lemma {:induction false} JoinEndsInLast(segs: seq<string>)
    requires segs != [] && segs[|segs| - 1] != ""
    ensures Join(segs) != ""
    ensures var j, last := Join(segs), segs[|segs| - 1]; j[|j| - 1] == last[|last| - 1]
  {
    if |segs| > 1 {
      JoinEndsInLast(segs[1..]);
    }
  }

  lemma ResolvesToMiddle(middle: seq<string>)
    requires AllClean(middle)
    ensures Resolve([], [""] + middle, true) == middle
  {
    assert ([""] + middle)[1..] == middle && [] + middle == middle;
    ResolveClean([], middle);
  }

  lemma BareIsFixedPoint(path: string, middle: seq<string>)
    requires path != "" && path[0] == '/' && middle != [] && AllClean(middle)
    requires Split(path) == [""] + middle && Join(Split(path)) == path
    ensures Normalize(path) == path
  {
    ResolvesToMiddle(middle);
    JoinPrefix(middle);
    var last := middle[|middle| - 1];
    assert CleanSegment(last);
    JoinEndsInLast(Split(path));
    assert "/" + Join(middle) + "" == "/" + Join(middle);
  }

  lemma TrailingIsFixedPoint(path: string, middle: seq<string>)
    requires path != "" && path[0] == '/' && middle != [] && AllClean(middle)
    requires Split(path) == [""] + middle + [""] && Join(Split(path)) == path
    ensures Normalize(path) == path
  {
    ResolvesToMiddle(middle);
    ResolveSkipsEmptyEnd([], [""] + middle);
    JoinTrailing([""] + middle);
    JoinPrefix(middle);
  }

  lemma CleanIsFixedPoint(path: string)
    requires path != "" && path[0] == '/' && CleanPath(path)
    ensures Normalize(path) == path
  {
    var segs := Split(path);
    JoinSplit(path);
    var n := |segs|;
    if segs[n - 1] == "" {
      assert !AllClean(segs[1..]) by { assert !CleanSegment(segs[1..][n - 2]); }
      TrailingIsFixedPoint(path, segs[1..n - 1]);
    } else {
      BareIsFixedPoint(path, segs[1..]);
    }
  }

  lemma FixedPointIsClean(path: string)
    requires path != "" && path[0] == '/' && path != "/" && Normalize(path) == path
    ensures CleanPath(path)
  {
    JoinSplit(path);
    var kept := Resolve([], Split(path), true);
    ResolveCleans([], Split(path));
    JoinPrefix(kept);
    var segs := [""] + kept;
    if path[|path| - 1] == '/' {
      JoinTrailing(segs);
      SplitJoin(segs + [""]);
      assert Split(path) == segs + [""];
      assert (segs + [""])[1..|segs|] == kept;
    } else {
      assert "/" + Join(kept) + "" == "/" + Join(kept);
      SplitJoin(segs);
      assert Split(path) == segs && segs[1..] == kept;
    }
  }

  /** Clean absolute paths are the fixed points of normalisation, other than "/". */
  lemma FixedPointsAreClean(path: string)
    requires path != "" && path[0] == '/' && path != "/"
    ensures Normalize(path) == path <==> CleanPath(path)
  {
    JoinSplit(path);
    if Normalize(path) == path {
      FixedPointIsClean(path);
    }
    if CleanPath(path) {
      CleanIsFixedPoint(path);
    }
  }

  /** No percent sign, no empty, `.` or `..` segment (one trailing slash aside), under /hooks/ or /dicode.js. */
  ghost predicate Accepts(target: string) {
    var bare := BarePath(target);
    '%' !in bare && CleanPath(bare) && ("/hooks/" <= bare || bare == "/dicode.js")
  }

  /** A target is allowed exactly when its path is accepted; it is malformed exactly when its path spells no text. */
  lemma CheckExactly(target: string)
    ensures Check(target) == Allowed <==> Accepts(target)
    ensures Check(target) == Malformed <==> !Decodes(BarePath(target))
  {
    var bare := BarePath(target);
    DecodeShrinks(bare);
    forall t ensures PercentDecode(bare) == Some(t) <==> Spells(bare, t) { DecodesExactly(bare, t); }
    if Listed(bare) {
      assert bare[0] == '/' && bare != "/" by {
        if UnderHooks(bare) { assert bare[0] == bare[..7][0] && |bare| >= 7; }
      }
      FixedPointsAreClean(bare);
    }
  }

  /** The bare path stops at the first question mark and nothing before it changes. */
  lemma {:induction false} BarePathIsPrefix(target: string)
    ensures BarePath(target) <= target && '?' !in BarePath(target)
    ensures BarePath(target) == target || target[|BarePath(target)|] == '?'
  {
    if target != "" && target[0] != '?' {
      BarePathIsPrefix(target[1..]);
      assert target == [target[0]] + target[1..];
    }
  }
}
