/** `dispatchRequest`: from a request frame to the one response that answers it. */
module Forwarder {
  import opened Prelude
  import opened Relay
  import Paths

  const MAX_BODY := 5 * 1024 * 1024

  // -- header names ----------------------------------------------------------

  function LowerChar(c: char): char {
    if 'A' <= c <= 'Z' then (c as int + 32) as char else c
  }

  function Lower(name: string): string {
    seq(|name|, i requires 0 <= i < |name| => LowerChar(name[i]))
  }

  predicate HopByHop(name: string) {
    Lower(name) in {"connection", "keep-alive", "proxy-authenticate", "proxy-authorization", "te",
                    "trailers", "transfer-encoding", "upgrade", "set-cookie"}
  }

  predicate StrippedInbound(name: string) {
    Lower(name) in {"authorization", "cookie", "x-api-key"}
  }

  predicate IsRelayBase(name: string) {
    Lower(name) == "x-relay-base"
  }

  predicate SameLetter(a: char, b: char) {
    a == b || ('A' <= a <= 'Z' && b as int - a as int == 'a' as int - 'A' as int)
  }

  /** The same name, in whatever case. */
  predicate SameName(a: string, b: string) {
    |a| == |b| && forall i :: 0 <= i < |a| ==> SameLetter(a[i], b[i]) || SameLetter(b[i], a[i])
  }

  lemma SameNameExactly(a: string, b: string)
    ensures Lower(a) == Lower(b) <==> SameName(a, b)
  {
    if Lower(a) == Lower(b) {
      forall i | 0 <= i < |a| ensures SameLetter(a[i], b[i]) || SameLetter(b[i], a[i]) {
        assert Lower(a)[i] == Lower(b)[i];
      }
    }
  }

  /** One of `names`, in whatever case. */
  ghost predicate IsOneOf(name: string, names: set<string>) {
    exists n :: n in names && SameName(name, n)
  }

  predicate NoCapitals(name: string) {
    forall i :: 0 <= i < |name| ==> !('A' <= name[i] <= 'Z')
  }

  lemma OneOfLower(name: string, names: set<string>)
    requires forall n :: n in names ==> NoCapitals(n)
    ensures Lower(name) in names <==> IsOneOf(name, names)
  {
    forall n | n in names ensures Lower(n) == n && (Lower(name) == n <==> SameName(name, n)) {
      SameNameExactly(name, n);
    }
    if Lower(name) in names { assert SameName(name, Lower(name)); }
  }

  lemma HopByHopInLowerCase()
    ensures NoCapitals("connection") && NoCapitals("keep-alive") && NoCapitals("proxy-authenticate")
    ensures NoCapitals("proxy-authorization") && NoCapitals("te") && NoCapitals("trailers")
    ensures NoCapitals("transfer-encoding") && NoCapitals("upgrade") && NoCapitals("set-cookie")
  {
  }

  /** Response headers that never reach the caller, in whatever case. */
  lemma HopByHopExactly(name: string)
    ensures HopByHop(name) <==>
              IsOneOf(name, {"connection", "keep-alive", "proxy-authenticate", "proxy-authorization", "te", "trailers",
                             "transfer-encoding", "upgrade", "set-cookie"})
  {
    hide NoCapitals, Lower, IsOneOf;
    HopByHopInLowerCase();
    OneOfLower(name, {"connection", "keep-alive", "proxy-authenticate", "proxy-authorization", "te", "trailers",
                      "transfer-encoding", "upgrade", "set-cookie"});
  }

  lemma StampInLowerCase()
    ensures Lower("X-Relay-Base") == "x-relay-base"
  {
  }

  /** Request headers that are not passed on, and the one that is stamped anew, in whatever case. */
  lemma InboundExactly(name: string)
    ensures StrippedInbound(name) <==> IsOneOf(name, {"authorization", "cookie", "x-api-key"})
    ensures IsRelayBase(name) <==> SameName(name, "X-Relay-Base")
  {
    OneOfLower(name, {"authorization", "cookie", "x-api-key"});
    SameNameExactly(name, "X-Relay-Base");
    StampInLowerCase();
  }

  // -- outgoing headers ------------------------------------------------------

  /** One line of a header list: a name and one value. */
  type Line = (string, string)

  function Lines(name: string, values: seq<string>): seq<Line> {
    seq(|values|, i requires 0 <= i < |values| => (name, values[i]))
  }

  /** The inbound headers that go on to the local daemon, one line for each value. */
  function Passed(headers: Headers): seq<Line> {
    if headers == [] then []
    else
      var (name, values) := headers[|headers| - 1];
      var before := Passed(headers[..|headers| - 1]);
      if IsRelayBase(name) || StrippedInbound(name) then before else before + Lines(name, values)
  }

  method BuildHeaders(headers: Headers, daemonUuid: Uuid) returns (out: seq<Line>)
    ensures out == Passed(headers) + [("X-Relay-Base", "/u/" + daemonUuid)]
  {
    out := [];
    var i := 0;
    while i < |headers|
      invariant 0 <= i <= |headers|
      invariant out == Passed(headers[..i])
    {
      var (name, values) := headers[i];
      assert headers[..i + 1][..i] == headers[..i];
      if !IsRelayBase(name) && !StrippedInbound(name) {
        var j := 0;
        while j < |values|
          invariant 0 <= j <= |values|
          invariant out == Passed(headers[..i]) + Lines(name, values[..j])
        {
          assert Lines(name, values[..j + 1]) == Lines(name, values[..j]) + [(name, values[j])];
          out := out + [(name, values[j])];
          j := j + 1;
        }
        assert values[..|values|] == values;
      }
      i := i + 1;
    }
    assert headers[..|headers|] == headers;
    out := out + [("X-Relay-Base", "/u/" + daemonUuid)];
  }

  /** The values of every entry whose name is `name` in any case, in order. */
  function ValuesOf(lines: seq<Line>, name: string): seq<string> {
    if lines == [] then []
    else
      var before := ValuesOf(lines[..|lines| - 1], name);
      var (n, v) := lines[|lines| - 1];
      if Lower(n) == Lower(name) then before + [v] else before
  }

  function InboundValues(headers: Headers, name: string): seq<string> {
    if headers == [] then []
    else
      var before := InboundValues(headers[..|headers| - 1], name);
      var (n, vs) := headers[|headers| - 1];
      if Lower(n) == Lower(name) then before + vs else before
  }

  lemma {:induction false} ValuesOfAppend(a: seq<Line>, b: seq<Line>, name: string)
    ensures ValuesOf(a + b, name) == ValuesOf(a, name) + ValuesOf(b, name)
  {
    if b == [] {
      assert a + b == a;
    } else {
      assert (a + b)[..|a + b| - 1] == a + b[..|b| - 1];
      ValuesOfAppend(a, b[..|b| - 1], name);
    }
  }

  lemma {:induction false} ValuesOfLines(n: string, values: seq<string>, name: string)
    ensures ValuesOf(Lines(n, values), name) == if Lower(n) == Lower(name) then values else []
  {
    if values != [] {
      var k := |values| - 1;
      assert Lines(n, values)[..k] == Lines(n, values[..k]);
      ValuesOfLines(n, values[..k], name);
      assert values[..k] + [values[k]] == values;
    }
  }

  lemma {:induction false} PassedValues(headers: Headers, name: string)
    ensures ValuesOf(Passed(headers), name) ==
            if IsRelayBase(name) || StrippedInbound(name) then [] else InboundValues(headers, name)
  {
    if headers != [] {
      var k := |headers| - 1;
      PassedValues(headers[..k], name);
      var (n, vs) := headers[k];
      if !IsRelayBase(n) && !StrippedInbound(n) {
        ValuesOfAppend(Passed(headers[..k]), Lines(n, vs), name);
        ValuesOfLines(n, vs, name);
      }
    }
  }

  /**
   * The local daemon sees no credential header, one X-Relay-Base that names this daemon
   * whatever the caller sent, and every other header with its values in order.
   */
  lemma OutgoingHeaders(headers: Headers, daemonUuid: Uuid, name: string)
    ensures
      var out := Passed(headers) + [("X-Relay-Base", "/u/" + daemonUuid)];
      ValuesOf(out, name) ==
        if SameName(name, "X-Relay-Base") then ["/u/" + daemonUuid]
        else if IsOneOf(name, {"authorization", "cookie", "x-api-key"}) then []
        else InboundValues(headers, name)
  {
    hide Lower, StrippedInbound, SameName, IsOneOf;
    InboundExactly(name);
    var base := [("X-Relay-Base", "/u/" + daemonUuid)];
    ValuesOfAppend(Passed(headers), base, name);
    PassedValues(headers, name);
    StampInLowerCase();
    assert base[..0] == [];
  }

  // -- the capped body -------------------------------------------------------

  datatype Read = Done | Chunk(bytes: Bytes)

  /** What the reads from number `i` on return, up to the end of the stream or read `n`. */
  function Delivered(stream: nat -> Read, i: nat, n: nat): Bytes
    decreases n - i
  {
    if i >= n || stream(i).Done? then [] else stream(i).bytes + Delivered(stream, i + 1, n)
  }

  function Capped(bytes: Bytes): Bytes {
    bytes[..Min(|bytes|, MAX_BODY)]
  }

  lemma NextRead(stream: nat -> Read, i: nat, n: nat, buf: Bytes)
    requires stream(i).Chunk?
    ensures i < n ==> buf + Delivered(stream, i, n) == (buf + stream(i).bytes) + Delivered(stream, i + 1, n)
  {
  }

  /** The body loop, on a stream that ends at read `n`, or is over the cap by then. */
  method ReadBody(stream: nat -> Read, ghost n: nat) returns (buf: Bytes)
    requires stream(n).Done? || |Delivered(stream, 0, n)| > MAX_BODY
    ensures buf == Capped(Delivered(stream, 0, n))
  {
    buf := [];
    var i, done := 0, false;
    while !done
      invariant done ==> buf == Capped(Delivered(stream, 0, n))
      invariant !done ==> i <= n && |buf| <= MAX_BODY && Delivered(stream, 0, n) == buf + Delivered(stream, i, n)
      decreases !done, n - i
    {
      var result := stream(i);
      done := result.Done?;
      if !done {
        if |buf| + |result.bytes| > MAX_BODY {
          NextRead(stream, i, n, buf);
          buf := buf + result.bytes[..MAX_BODY - |buf|];
          done := true;
        } else {
          NextRead(stream, i, n, buf);
          buf := buf + result.bytes;
        }
      }
      i := i + 1;
    }
  }

  // -- response headers ------------------------------------------------------

  /** Index of the entry named `name`, or |headers|. */
  function IndexOf(headers: Headers, name: string): (i: nat)
    ensures i <= |headers|
    ensures i < |headers| ==> headers[i].0 == name
    ensures forall j :: 0 <= j < i ==> headers[j].0 != name
  {
    if headers == [] then 0
    else if headers[0].0 == name then 0
    else 1 + IndexOf(headers[1..], name)
  }

  /** `respHeaders[k]` gains a value, as a new entry or on the existing one. */
  function Push(headers: Headers, line: Line): Headers {
    var i := IndexOf(headers, line.0);
    if i < |headers| then headers[i := (line.0, headers[i].1 + [line.1])]
    else headers + [(line.0, [line.1])]
  }

  function Collected(lines: seq<Line>): Headers {
    if lines == [] then []
    else
      var before := Collected(lines[..|lines| - 1]);
      var line := lines[|lines| - 1];
      if HopByHop(line.0) then before else Push(before, line)
  }

  method CollectHeaders(lines: seq<Line>) returns (headers: Headers)
    ensures headers == Collected(lines)
  {
    headers := [];
    var i := 0;
    while i < |lines|
      invariant 0 <= i <= |lines|
      invariant headers == Collected(lines[..i])
    {
      assert lines[..i + 1][..i] == lines[..i];
      if !HopByHop(lines[i].0) {
        headers := Push(headers, lines[i]);
      }
      i := i + 1;
    }
    assert lines[..|lines|] == lines;
  }

  /** The values of the lines named exactly `name`, in order. */
  function LineValues(lines: seq<Line>, name: string): seq<string> {
    if lines == [] then []
    else
      var before := LineValues(lines[..|lines| - 1], name);
      if lines[|lines| - 1].0 == name then before + [lines[|lines| - 1].1] else before
  }

  ghost predicate DistinctNames(headers: Headers) {
    forall i, j :: 0 <= i < j < |headers| ==> headers[i].0 != headers[j].0
  }

  /** `Push` touches the entry of its own line only, and leaves it findable. */
  lemma PushFinds(h: Headers, line: Line, name: string)
    requires IndexOf(h, name) < |h| || name == line.0
    ensures IndexOf(Push(h, line), name) < |Push(h, line)|
  {
    var h', i0 := Push(h, line), IndexOf(h, line.0);
    if name == line.0 {
      assert h'[if i0 < |h| then i0 else |h|].0 == name;
    } else {
      assert h'[IndexOf(h, name)].0 == name;
    }
  }

  lemma LineValuesOfAppend(lines: seq<Line>, line: Line, name: string)
    ensures LineValues(lines + [line], name) ==
              if name == line.0 then LineValues(lines, name) + [line.1] else LineValues(lines, name)
  {
    assert (lines + [line])[..|lines|] == lines;
  }

  /** Each name once, never a hop-by-hop one, with all its values in order. */
  ghost predicate Collects(h: Headers, lines: seq<Line>) {
    && DistinctNames(h)
    && (forall i :: 0 <= i < |h| ==> h[i].1 == LineValues(lines, h[i].0) != [] && !HopByHop(h[i].0))
    && (forall name :: !HopByHop(name) && LineValues(lines, name) != [] ==> IndexOf(h, name) < |h|)
  }

  lemma PushKeeps(h: Headers, lines: seq<Line>, line: Line)
    requires Collects(h, lines) && !HopByHop(line.0)
    ensures Collects(Push(h, line), lines + [line])
  {
    var all, h', i0 := lines + [line], Push(h, line), IndexOf(h, line.0);
    LineValuesOfAppend(lines, line, line.0);
    if i0 == |h| {
      assert LineValues(lines, line.0) == [];
      assert [] + [line.1] == [line.1];
    }
    forall i | 0 <= i < |h'|
      ensures h'[i].1 == LineValues(all, h'[i].0) != [] && !HopByHop(h'[i].0)
    {
      LineValuesOfAppend(lines, line, h'[i].0);
    }
    forall name | !HopByHop(name) && LineValues(all, name) != [] ensures IndexOf(h', name) < |h'| {
      LineValuesOfAppend(lines, line, name);
      PushFinds(h, line, name);
    }
  }

  lemma {:induction false} CollectedExactly(lines: seq<Line>)
    ensures Collects(Collected(lines), lines)
  {
    if lines != [] {
      var k := |lines| - 1;
      CollectedExactly(lines[..k]);
      var h, h0, line := Collected(lines), Collected(lines[..k]), lines[k];
      if !HopByHop(line.0) {
        PushKeeps(h0, lines[..k], line);
        assert lines == lines[..k] + [line];
      } else {
        forall i | 0 <= i < |h| ensures h[i].1 == LineValues(lines, h[i].0) {
          assert h[i].0 != line.0;
        }
      }
    }
  }

  // -- dispatch --------------------------------------------------------------

  /** What the local HTTP server does with the request. A broken stream makes the handler throw. */
  datatype LocalReply =
    | Unreachable
    | Broken
    | Replied(status: int, lines: seq<Line>, chunks: seq<Bytes>)

  function ErrorResponse(id: ReqId, status: int): Response {
    Response(id, status, [], [])
  }

  function Concat(chunks: seq<Bytes>): Bytes {
    if chunks == [] then [] else chunks[0] + Concat(chunks[1..])
  }

  /** The response to `req`, or None when the handler throws and nothing is sent. */
  function Dispatch(req: Request, reply: LocalReply): (resp: Option<Response>)
    ensures resp.Some? ==> resp.value.id == req.id
    ensures resp.None? ==> reply.Broken?
  {
    match Paths.Check(req.path)
    case Malformed => Some(ErrorResponse(req.id, 400))
    case Forbidden => Some(ErrorResponse(req.id, 403))
    case Allowed =>
      if |req.body| > MAX_BODY then Some(ErrorResponse(req.id, 413))
      else
        match reply
        case Unreachable => Some(ErrorResponse(req.id, 502))
        case Broken => None
        case Replied(status, lines, chunks) =>
          Some(Response(req.id, status, Collected(lines), Capped(Concat(chunks))))
  }

  /** An answer with a status and nothing else. */
  predicate Bare(code: int, status: int, headers: Headers, body: Bytes) {
    status == code && headers == [] && body == []
  }

  /** The first 5 MiB of `total`, or all of it. */
  predicate FirstBytes(body: Bytes, total: Bytes) {
    body <= total && |body| == Min(|total|, 5242880)
  }

  /** What answers `req`, given what the local server does with it. */
  ghost predicate RightAnswer(req: Request, reply: LocalReply, status: int, headers: Headers, body: Bytes) {
    if !Paths.Decodes(Paths.BarePath(req.path)) then Bare(400, status, headers, body)
    else if !Paths.Accepts(req.path) then Bare(403, status, headers, body)
    else if |req.body| > 5242880 then Bare(413, status, headers, body)
    else
      match reply
      case Unreachable => Bare(502, status, headers, body)
      case Broken => false
      case Replied(replied, lines, chunks) =>
        status == replied && Collects(headers, lines) && FirstBytes(body, Concat(chunks))
  }

  /** The local server is asked: the path passes and the body fits. */
  ghost predicate GoesThrough(req: Request) {
    Paths.Accepts(req.path) && |req.body| <= 5242880
  }

  /** The answer carries the request's id and is the right one; there is none exactly for a stream that breaks. */
  lemma DispatchExactly(req: Request, reply: LocalReply)
    ensures
      var resp := Dispatch(req, reply);
      && (resp.None? <==> GoesThrough(req) && reply.Broken?)
      && (resp.Some? ==>
            && resp.value.id == req.id
            && RightAnswer(req, reply, resp.value.status, resp.value.headers, resp.value.body))
  {
    hide Collects;
    Paths.CheckExactly(req.path);
    if reply.Replied? { CollectedExactly(reply.lines); }
  }

  function ReadsOf(chunks: seq<Bytes>): nat -> Read {
    (i: nat) => if i < |chunks| then Chunk(chunks[i]) else Done
  }

  lemma {:induction false} DeliveredIsConcat(chunks: seq<Bytes>, i: nat)
    requires i <= |chunks|
    ensures Delivered(ReadsOf(chunks), i, |chunks|) == Concat(chunks[i..])
    decreases |chunks| - i
  {
    if i < |chunks| {
      DeliveredIsConcat(chunks, i + 1);
      assert chunks[i..][1..] == chunks[i + 1..];
    }
  }

  /** `dispatchRequest` itself, with the loops of the original. */
  method DispatchRequest(req: Request, daemonUuid: Uuid, reply: LocalReply)
    returns (resp: Option<Response>, outgoing: Option<(string, string, seq<Line>, Bytes)>)
    ensures resp == Dispatch(req, reply)
    ensures resp.None? <==> GoesThrough(req) && reply.Broken?
    ensures resp.Some? ==>
              && resp.value.id == req.id
              && RightAnswer(req, reply, resp.value.status, resp.value.headers, resp.value.body)
    ensures outgoing.Some? <==> GoesThrough(req)
    ensures outgoing.Some? ==>
              outgoing.value == (req.verb, req.path,
                                 Passed(req.headers) + [("X-Relay-Base", "/u/" + daemonUuid)], req.body)
  {
    hide RightAnswer;
    DispatchExactly(req, reply);
    Paths.CheckExactly(req.path);
    outgoing := None;
    var verdict := Paths.Check(req.path);
    if verdict == Paths.Malformed {
      return Some(ErrorResponse(req.id, 400)), None;
    }
    if verdict == Paths.Forbidden {
      return Some(ErrorResponse(req.id, 403)), None;
    }
    if |req.body| > MAX_BODY {
      return Some(ErrorResponse(req.id, 413)), None;
    }
    var headers := BuildHeaders(req.headers, daemonUuid);
    outgoing := Some((req.verb, req.path, headers, req.body));
    match reply {
      case Unreachable => resp := Some(ErrorResponse(req.id, 502));
      case Broken => resp := None;
      case Replied(status, lines, chunks) =>
        var buf := ReadBody(ReadsOf(chunks), |chunks|);
        DeliveredIsConcat(chunks, 0);
        assert chunks[0..] == chunks;
        var respHeaders := CollectHeaders(lines);
        resp := Some(Response(req.id, status, respHeaders, buf));
    }
  }
}
