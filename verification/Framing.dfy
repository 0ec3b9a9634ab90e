/** Request framing: a line scanner and header/body pairs (internal/protocol/reader.go). */
module Framing {
  import opened Prelude
  import opened LocalCache
  import opened Handlers

  /** JSON and base64, taken as given: how headers and body lines are written and read back. */
  datatype Codec = Codec(
    encodeHeader: Request -> string, decodeHeader: string -> Option<Request>,
    encodeBody: Bytes -> string, decodeBody: string -> Option<Bytes>)

  datatype Scanned = Token(line: string, rest: string) | End | TooLong

  function LineEnd(input: string): (n: nat)
    ensures n <= |input|
    ensures forall i :: 0 <= i < n ==> input[i] != '\n'
    ensures n < |input| ==> input[n] == '\n'
  {
    if input == "" || input[0] == '\n' then 0 else 1 + LineEnd(input[1..])
  }

  function DropCR(line: string): string {
    if line != "" && line[|line| - 1] == '\r' then line[..|line| - 1] else line
  }

  /** One step of the scanner: the next line without its terminator, unless it does not fit the buffer. */
  function NextLine(input: string, limit: nat): (s: Scanned)
    ensures s.Token? ==> |s.rest| < |input|
  {
    if input == "" then End
    else
      var n := LineEnd(input);
      if n >= limit then TooLong
      else Token(DropCR(input[..n]), if n < |input| then input[n + 1..] else "")
  }

  predicate OneLine(text: string) {
    forall i :: 0 <= i < |text| ==> text[i] != '\n'
  }

  /** The scanner delivers a line, with or without its end, when it is shorter than the buffer, and else gives up. */
  lemma ScansLine(line: string, rest: string, limit: nat)
    requires OneLine(line)
    ensures NextLine(line + "\n" + rest, limit) == if |line| < limit then Token(DropCR(line), rest) else TooLong
    ensures line != "" ==> NextLine(line, limit) == if |line| < limit then Token(DropCR(line), "") else TooLong
  {
    var input := line + "\n" + rest;
    assert input[|line|] == '\n' && forall i :: 0 <= i < |line| ==> input[i] == line[i];
    assert LineEnd(input) == |line| && LineEnd(line) == |line|;
    assert input[..|line|] == line && input[|line| + 1..] == rest && line[..|line|] == line;
  }

  /** One carriage return before the end belongs to the line end. */
  lemma DropsOneCR(line: string)
    ensures DropCR(line + "\r") == line
    ensures (line == "" || line[|line| - 1] != '\r') ==> DropCR(line) == line
  {
    assert (line + "\r")[..|line|] == line;
  }

  function NextNonEmpty(input: string, limit: nat): (s: Scanned)
    ensures s.Token? ==> s.line != "" && |s.rest| < |input|
    decreases |input|
  {
    var s := NextLine(input, limit);
    if s.Token? && s.line == "" then NextNonEmpty(s.rest, limit) else s
  }

  /** Where the scanner stands after the blank lines. */
  function SkipBlank(input: string, limit: nat): (rest: string)
    ensures NextNonEmpty(input, limit) == NextLine(rest, limit)
    decreases |input|
  {
    var s := NextLine(input, limit);
    if s.Token? && s.line == "" then SkipBlank(s.rest, limit) else input
  }

  datatype ReadResult = Got(req: Request) | Eof | Failure(reason: string)

  predicate HasBodyLine(req: Request) {
    req.command == "put" && req.bodySize > 0
  }

  /** The body line of a put whose header announces one. */
  function ReadBody(codec: Codec, limit: nat, header: Request, input: string): (r: (ReadResult, string))
    ensures r.0.Got? ==> |r.1| < |input| && r.0.req == header.(body := r.0.req.body)
    ensures r.0.Got? ==> |r.0.req.body| == header.bodySize
  {
    match NextNonEmpty(input, limit)
    case End => (Failure("read body line: unexpected EOF"), "")
    case TooLong => (Failure("read body line"), SkipBlank(input, limit))
    case Token(line, rest) =>
      match codec.decodeBody(line)
      case None => (Failure("decode body"), rest)
      case Some(body) =>
        if |body| != header.bodySize then (Failure("body size mismatch"), rest)
        else (Got(header.(body := body)), rest)
  }

  /**
   * One request, and where the scanner stands after it. A put that is returned carries as many bytes as it
   * declares exactly when it declares a non-negative size: a negative size skips the body line and is not
   * refused. Identifiers are not looked at.
   */
  function ReadNext(codec: Codec, limit: nat, input: string): (r: (ReadResult, string))
    ensures r.0.Got? ==> |r.1| < |input|
    ensures r.0.Got? && r.0.req.command == "put" && 0 < r.0.req.bodySize ==> |r.0.req.body| == r.0.req.bodySize
    ensures r.0.Got? && r.0.req.command == "put" ==> FromReader(r.0.req)
  {
    match NextNonEmpty(input, limit)
    case End => (Eof, "")
    case TooLong => (Failure("read request"), SkipBlank(input, limit))
    case Token(line, rest) =>
      match codec.decodeHeader(line)
      case None => (Failure("decode request"), rest)
      case Some(header) =>
        if !HasBodyLine(header) then (Got(header.(body := [])), rest)
        else ReadBody(codec, limit, header, rest)
  }

  /**
   * What is read after a header that decodes: nothing more for a get, a close, an unknown command or a put
   * without bytes, whatever line comes next; for a put that announces bytes, the next line that is not blank,
   * which has to hold exactly that many.
   */
  lemma ReadByHeader(codec: Codec, limit: nat, input: string, header: Request)
    requires NextNonEmpty(input, limit).Token? && codec.decodeHeader(NextNonEmpty(input, limit).line) == Some(header)
    ensures var rest := NextNonEmpty(input, limit).rest;
      if header.command != "put" || header.bodySize <= 0 then
        ReadNext(codec, limit, input) == (Got(header.(body := [])), rest)
      else
        match NextNonEmpty(rest, limit)
        case End => ReadNext(codec, limit, input).0 == Failure("read body line: unexpected EOF")
        case TooLong => ReadNext(codec, limit, input).0 == Failure("read body line")
        case Token(line, after) =>
          var body := codec.decodeBody(line);
          ReadNext(codec, limit, input) ==
            (if body.None? then Failure("decode body")
             else if |body.value| == header.bodySize then Got(header.(body := body.value))
             else Failure("body size mismatch"), after)
  {
  }

  /** What is read when there is no header: the end, a line too long, or a line that is no header. */
  lemma ReadWithoutHeader(codec: Codec, limit: nat, input: string)
    ensures NextNonEmpty(input, limit) == End ==> ReadNext(codec, limit, input).0 == Eof
    ensures NextNonEmpty(input, limit) == TooLong ==> ReadNext(codec, limit, input).0 == Failure("read request")
    ensures var s := NextNonEmpty(input, limit);
      s.Token? && codec.decodeHeader(s.line).None? ==> ReadNext(codec, limit, input).0 == Failure("decode request")
  {
  }

  /** The request loop's view of its input: every request up to the first end or failure. */
  function ReadAll(codec: Codec, limit: nat, input: string): (seq<Request>, ReadResult)
    decreases |input|
  {
    var (r, rest) := ReadNext(codec, limit, input);
    if r.Got? then
      var (reqs, last) := ReadAll(codec, limit, rest);
      ([r.req] + reqs, last)
    else ([], r)
  }

  class Reader {
    const codec: Codec
    const limit: nat
    var input: string
    var line: string

    constructor (codec: Codec, limit: nat, input: string)
      ensures this.codec == codec && this.limit == limit && this.input == input
    {
      this.codec, this.limit, this.input, this.line := codec, limit, input, "";
    }

    /** The underlying scanner: false at the end of the input and on a line that does not fit. */
    method Scan() returns (ok: bool)
      modifies this`input, this`line
      ensures var s := NextLine(old(input), limit);
        && ok == s.Token?
        && (s.Token? ==> line == s.line && input == s.rest)
        && (!s.Token? ==> input == old(input))
    {
      var s := NextLine(input, limit);
      if s.Token? {
        line, input := s.line, s.rest;
      }
      return s.Token?;
    }

    method ScanNonEmpty() returns (ok: bool)
      modifies this`input, this`line
      ensures var s := NextNonEmpty(old(input), limit);
        && ok == s.Token?
        && (s.Token? ==> line == s.line && input == s.rest)
        && (!s.Token? ==> input == SkipBlank(old(input), limit))
    {
      ok := Scan();
      while ok
        invariant ok && line == "" ==> SkipBlank(old(input), limit) == SkipBlank(input, limit)
        invariant !ok ==> SkipBlank(old(input), limit) == input
        invariant ok ==>
          NextNonEmpty(old(input), limit) == if line == "" then NextNonEmpty(input, limit) else Token(line, input)
        invariant !ok ==> NextNonEmpty(old(input), limit) == NextLine(input, limit) && !NextLine(input, limit).Token?
        decreases |input|, ok
      {
        if line != "" {
          return true;
        }
        ok := Scan();
      }
      return false;
    }

    method Read() returns (r: ReadResult)
      modifies this`input, this`line
      ensures (r, input) == ReadNext(codec, limit, old(input))
    {
      var ok := ScanNonEmpty();
      if !ok {
        if NextLine(input, limit).TooLong? {
          return Failure("read request");
        }
        return Eof;
      }
      var header := codec.decodeHeader(line);
      if header == None {
        return Failure("decode request");
      }
      var req := header.value.(body := []);
      if req.command == "put" && req.bodySize > 0 {
        ok := ScanNonEmpty();
        if !ok {
          if NextLine(input, limit).TooLong? {
            return Failure("read body line");
          }
          return Failure("read body line: unexpected EOF");
        }
        var body := codec.decodeBody(line);
        if body == None {
          return Failure("decode body");
        }
        if |body.value| != req.bodySize {
          return Failure("body size mismatch");
        }
        req := req.(body := body.value);
      }
      return Got(req);
    }
  }

  predicate Blank(line: string) {
    DropCR(line) == ""
  }

  /** A line the scanner can deliver: no terminator inside, and shorter than the buffer. */
  predicate Fits(line: string, limit: nat) {
    |line| < limit && forall i :: 0 <= i < |line| ==> line[i] != '\n'
  }

  function Wire(lines: seq<string>): string {
    if lines == [] then "" else lines[0] + "\n" + Wire(lines[1..])
  }

  function NonBlank(lines: seq<string>): seq<string> {
    if lines == [] then []
    else if Blank(lines[0]) then NonBlank(lines[1..])
    else [lines[0]] + NonBlank(lines[1..])
  }

  /** As the protocol has it, a body line follows the header of a put that announces bytes, and no other header. */
  function BodyLines(codec: Codec, req: Request, more: seq<string>): seq<string> {
    if req.command == "put" && 0 < req.bodySize then [codec.encodeBody(req.body)] + more else more
  }

  function LinesOf(codec: Codec, reqs: seq<Request>): seq<string> {
    if reqs == [] then []
    else
      [codec.encodeHeader(reqs[0])] + BodyLines(codec, reqs[0], LinesOf(codec, reqs[1..]))
  }

  /** A request whose lines the codec reads back, and that carries a body exactly when it announces one. */
  ghost predicate Faithful(codec: Codec, req: Request) {
    && codec.decodeHeader(DropCR(codec.encodeHeader(req))) == Some(req.(body := []))
    && (if req.command == "put" && 0 < req.bodySize
        then codec.decodeBody(DropCR(codec.encodeBody(req.body))) == Some(req.body) && |req.body| == req.bodySize
        else req.body == [])
  }

  lemma NextLineOfWire(lines: seq<string>, limit: nat)
    requires lines != [] && Fits(lines[0], limit)
    ensures NextLine(Wire(lines), limit) == Token(DropCR(lines[0]), Wire(lines[1..]))
  {
    ScansLine(lines[0], Wire(lines[1..]), limit);
  }

  /** Skipping blank lines finds the next written line, wherever the blank ones are. */
  lemma {:induction false} NextOfWire(lines: seq<string>, limit: nat) returns (rest: seq<string>)
    requires forall i :: 0 <= i < |lines| ==> Fits(lines[i], limit)
    ensures |rest| <= |lines| && rest == lines[|lines| - |rest|..]
    ensures NonBlank(lines) == [] ==> NextNonEmpty(Wire(lines), limit) == End
    ensures NonBlank(lines) != [] ==>
      && NextNonEmpty(Wire(lines), limit) == Token(DropCR(NonBlank(lines)[0]), Wire(rest))
      && NonBlank(rest) == NonBlank(lines)[1..]
  {
    rest := [];
    if lines == [] {
    } else {
      NextLineOfWire(lines, limit);
      if Blank(lines[0]) {
        rest := NextOfWire(lines[1..], limit);
      } else {
        rest := lines[1..];
      }
    }
  }

  lemma ReadBodyOfWire(codec: Codec, limit: nat, req: Request, more: seq<string>, lines: seq<string>)
    returns (rest: seq<string>)
    requires Faithful(codec, req) && HasBodyLine(req)
    requires forall i :: 0 <= i < |lines| ==> Fits(lines[i], limit)
    requires NonBlank(lines) == [codec.encodeBody(req.body)] + more
    ensures |rest| <= |lines| && rest == lines[|lines| - |rest|..]
    ensures ReadBody(codec, limit, req.(body := []), Wire(lines)) == (Got(req), Wire(rest))
    ensures NonBlank(rest) == more
  {
    rest := NextOfWire(lines, limit);
  }

  lemma ReadOneOfWire(codec: Codec, limit: nat, req: Request, more: seq<string>, lines: seq<string>)
    returns (rest: seq<string>)
    requires Faithful(codec, req)
    requires forall i :: 0 <= i < |lines| ==> Fits(lines[i], limit)
    requires NonBlank(lines) == [codec.encodeHeader(req)] + BodyLines(codec, req, more)
    ensures |rest| <= |lines| && rest == lines[|lines| - |rest|..]
    ensures ReadNext(codec, limit, Wire(lines)) == (Got(req), Wire(rest))
    ensures NonBlank(rest) == more
  {
    var after := NextOfWire(lines, limit);
    assert NonBlank(lines)[0] == codec.encodeHeader(req) && NonBlank(after) == BodyLines(codec, req, more);
    if HasBodyLine(req) {
      rest := ReadBodyOfWire(codec, limit, req, more, after);
    } else {
      rest := after;
    }
  }

  /**
   * Framing round trip: whatever blank lines surround them, the written requests are read back in order,
   * followed by the end of the input.
   */
  lemma {:induction false} FramingRoundTrip(codec: Codec, limit: nat, reqs: seq<Request>, lines: seq<string>)
    requires forall i :: 0 <= i < |reqs| ==> Faithful(codec, reqs[i])
    requires forall i :: 0 <= i < |lines| ==> Fits(lines[i], limit)
    requires NonBlank(lines) == LinesOf(codec, reqs)
    ensures ReadAll(codec, limit, Wire(lines)) == (reqs, Eof)
    decreases |reqs|
  {
    if reqs == [] {
      var _ := NextOfWire(lines, limit);
    } else {
      var rest := ReadOneOfWire(codec, limit, reqs[0], LinesOf(codec, reqs[1..]), lines);
      FramingRoundTrip(codec, limit, reqs[1..], rest);
      assert [reqs[0]] + reqs[1..] == reqs;
    }
  }

  /** A get with an empty action identifier is read like any other request, and makes the handler panic. */
  lemma EmptyActionPanics(codec: Codec, limit: nat, req: Request, sha: HashFunction, c: Cache, remote: Option<Remote>,
                          env: GetEnv)
    requires Faithful(codec, req) && req.command == "get" && req.actionID == [] && Fits(codec.encodeHeader(req), limit)
    requires !Blank(codec.encodeHeader(req))
    ensures ReadAll(codec, limit, Wire([codec.encodeHeader(req)])) == ([req], Eof)
    ensures GetOutcome(c, sha, req, remote, env) == (c, Panicked)
  {
    var lines := [codec.encodeHeader(req)];
    assert lines[1..] == [] && [req][1..] == [] && !HasBodyLine(req);
    assert NonBlank(lines[1..]) == [] && NonBlank(lines) == lines;
    assert LinesOf(codec, [req][1..]) == [] && BodyLines(codec, req, []) == [];
    assert LinesOf(codec, [req]) == lines;
    FramingRoundTrip(codec, limit, [req], lines);
  }
}
