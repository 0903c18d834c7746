/** Where the head of a request ends, and what the body then accounts for. */
module HeadLaws {
  import opened Bytes
  import opened Numbers
  import opened RequestSpec
  import opened RequestLaws

  predicate HeadersDone(r: Request) {
    r.state.Body? || r.state.Complete?
  }

  predicate InHead(r: Request) {
    r.state.RequestLine? || r.state.Headers?
  }

  // ------------------------------------------------- reachable requests

  /** What every request reachable from a fresh one satisfies. */
  predicate Sound(r: Request) {
    && (r.chunk.Data? ==> r.remaining > 0)
    && (InHead(r) ==> r.body == "" && r.chunk.Size? && r.remaining == 0 && !r.chunked)
    && (r.bodyTooLarge ==> r.state.Error?)
    && (HeadersDone(r) ==> r.chunked == ChunkedCoding(r.headers))
    && (r.state.Complete? && r.chunked ==> r.chunk.Trailers?)
    && (HeadersDone(r) && r.chunked && !r.chunk.Data? ==> r.maxBodySize == 0 || |r.body| <= r.maxBodySize)
    && (HeadersDone(r) && !r.chunked ==> FixedBodySound(r))
  }

  predicate FixedBodySound(r: Request) {
    var cl := Header(r.headers, "content-length");
    if cl == "" then r.body == ""
    else
      && |r.body| <= AtolSize(cl)
      && (r.state.Complete? ==> |r.body| == AtolSize(cl) && (r.maxBodySize == 0 || |r.body| <= r.maxBodySize))
  }

  lemma StepSound(r: Request)
    requires Sound(r) && !r.Terminal() && Step(r).Goto?
    ensures Sound(Step(r).next) && Step(r).next.maxBodySize == r.maxBodySize
  {
    hide ChunkedBody, FixedBody, ReadRequestLine, ReadHeaderLine, AfterHeaders, Sound;
    if r.state.Body? {
      InBodyStep(r);
      if r.chunked {
        ChunkedStepSound(r);
      } else {
        FixedStepSound(r);
      }
    } else {
      var cut := CutLine(r.buffer);
      HeadLineSound(r, r.(buffer := cut.rest), cut.line);
    }
  }

  lemma InBodyStep(r: Request)
    requires r.state.Body? && Step(r).Goto?
    ensures if r.chunked then ChunkedBody(r).Goto? else FixedBody(r).Goto?
  {
  }

  lemma HeadLineSound(r: Request, n: Request, line: string)
    requires Sound(r) && InHead(r) && n == r.(buffer := n.buffer)
    ensures r.state.RequestLine? ==> Sound(ReadRequestLine(n, line)) && ReadRequestLine(n, line).maxBodySize == r.maxBodySize
    ensures r.state.Headers? ==> Sound(ReadHeaderLine(n, line)) && ReadHeaderLine(n, line).maxBodySize == r.maxBodySize
    ensures r.state.Headers? ==> Sound(AfterHeaders(n)) && AfterHeaders(n).maxBodySize == r.maxBodySize
  {
    hide ReadRequestLine, ReadHeaderLine, AfterHeaders, FixedBodySound, ChunkedCoding;
    RequestLineFrame(n, line);
    HeaderLineFrame(n, line);
    if r.state.Headers? {
      AfterHeadersSound(n);
    }
  }

  /** A request line changes the state and the three fields it holds. */
  lemma RequestLineFrame(r: Request, line: string)
    ensures var n := ReadRequestLine(r, line);
            && n == r.(state := n.state, verb := n.verb, target := n.target, protocol := n.protocol)
            && (n.state.Headers? || n.state.Error?)
  {
    hide FindChar;
  }

  lemma HeaderLineFrame(r: Request, line: string)
    ensures var n := ReadHeaderLine(r, line);
            n == r.(state := n.state, headers := n.headers) && (n.state == r.state || n.state.Error?)
  {
    hide FindChar, Trim, Lower;
  }

  lemma AfterHeadersSound(r: Request)
    requires Sound(r) && r.state.Headers?
    ensures Sound(AfterHeaders(r)) && AfterHeaders(r).maxBodySize == r.maxBodySize
  {
    hide ChunkedCoding, AtolSize;
  }

  lemma FixedStepSound(r: Request)
    requires Sound(r) && r.state.Body? && !r.chunked && FixedBody(r).Goto?
    ensures Sound(FixedBody(r).next) && FixedBody(r).next.maxBodySize == r.maxBodySize
  {
  }

  lemma ChunkedStepSound(r: Request)
    requires Sound(r) && r.state.Body? && r.chunked && ChunkedBody(r).Goto?
    ensures Sound(ChunkedBody(r).next) && ChunkedBody(r).next.maxBodySize == r.maxBodySize
  {
  }

  lemma {:induction false} RunSound(r: Request)
    requires Sound(r)
    ensures Sound(Run(r)) && Run(r).maxBodySize == r.maxBodySize
    decreases |r.buffer|, Rank(r)
  {
    if !r.Terminal() && Step(r).Goto? {
      StepShrinks(r);
      StepSound(r);
      RunSound(Step(r).next);
    }
  }

  /** Every request parsed from a stream is sound and settled. */
  lemma StreamSound(limit: nat, s: string)
    ensures Sound(Parse(Fresh(limit), s)) && Settled(Parse(Fresh(limit), s))
  {
    RunSound(Fresh(limit).Feed(s));
    RunSettles(Fresh(limit).Feed(s));
  }

  // ---------------------------------------------------- end of the head

  lemma DoubleCrlf(p: string, j: nat)
    ensures At(p, CRLFCRLF, j) <==> At(p, CRLF, j) && At(p, CRLF, j + 2)
  {
    assert CRLFCRLF == CRLF + CRLF;
    if j + 4 <= |p| {
      assert p[j..j + 4] == p[j..j + 2] + p[j + 2..j + 4];
      assert p[j..j + 4][..2] == p[j..j + 2] && p[j..j + 4][2..] == p[j + 2..j + 4];
    }
  }

  lemma AtShift(a: string, s: string, p: string, j: nat)
    ensures At(a + s, p, |a| + j) <==> At(s, p, j)
  {
    if j + |p| <= |s| {
      assert (a + s)[|a| + j..|a| + j + |p|] == s[j..j + |p|];
    }
  }

  /** With a CRLF put before it, a line that is not blank hides no blank line. */
  lemma NoBlankLineYet(line: string, rest: string)
    requires !Contains(line, CRLF) && line != ""
    ensures forall j :: 0 <= j < |line| + 2 ==> !At(CRLF + (line + CRLF + rest), CRLFCRLF, j)
  {
    forall j | 0 <= j < |line| + 2
      ensures !At(CRLF + (line + CRLF + rest), CRLFCRLF, j)
    {
      NoBlankLineAt(line, rest, j);
    }
  }

  lemma NoBlankLineAt(line: string, rest: string, j: nat)
    requires !Contains(line, CRLF) && line != "" && j < |line| + 2
    ensures !At(CRLF + (line + CRLF + rest), CRLFCRLF, j)
  {
    hide CutLine;
    var s := line + CRLF + rest;
    DoubleCrlf(CRLF + s, j);
    if j == 1 {
      assert (CRLF + s)[1..3][0] == '\n';
    } else {
      var k := if j == 0 then 0 else j - 2;
      FirstCrlf(line, rest, k);
      AtShift(CRLF, s, CRLF, k);
    }
  }

  lemma FirstCrlf(line: string, rest: string, k: nat)
    requires !Contains(line, CRLF) && k < |line|
    ensures !At(line + CRLF + rest, CRLF, k)
  {
    CutLineOf(line, rest);
    assert FindFrom(line + CRLF + rest, CRLF, 0) == |line|;
  }

  lemma FindSkips(a: string, s: string, p: string)
    requires forall j :: 0 <= j < |a| ==> !At(a + s, p, j)
    ensures Find(a + s, p) == if Contains(s, p) then |a| + Find(s, p) else -1
  {
    if Contains(s, p) {
      AtShift(a, s, p, Find(s, p));
      forall j | 0 <= j < |a| + Find(s, p)
        ensures !At(a + s, p, j)
      {
        if j >= |a| {
          AtShift(a, s, p, j - |a|);
        }
      }
      FindIs(a + s, p, |a| + Find(s, p));
    } else {
      forall j | 0 <= j
        ensures !At(a + s, p, j)
      {
        if j >= |a| {
          AtShift(a, s, p, j - |a|);
        }
      }
    }
  }

  /** What is left after the first blank line, given that `s` starts at a line start. */
  datatype Gate = Closed | Open(rest: string)

  function BlankLine(s: string): Gate {
    var i := Find(CRLF + s, CRLFCRLF);
    if i < 0 then Closed else Open((CRLF + s)[i + 4..])
  }

  lemma BlankLineAtFront(rest: string)
    ensures BlankLine(CRLF + rest) == Open(rest)
  {
    var p := CRLF + (CRLF + rest);
    assert p[0..4] == CRLFCRLF;
    FindIs(p, CRLFCRLF, 0);
    assert p[4..] == rest;
  }

  lemma BlankLineAfter(line: string, rest: string)
    requires !Contains(line, CRLF) && line != ""
    ensures BlankLine(line + CRLF + rest) == BlankLine(rest)
  {
    var a, q := CRLF + line, CRLF + rest;
    NoBlankLineYet(line, rest);
    assert CRLF + (line + CRLF + rest) == a + q;
    FindSkips(a, q, CRLFCRLF);
    var k := Find(q, CRLFCRLF);
    if k >= 0 {
      CutSecond(a, q, k + 4);
    }
  }

  lemma NoLineNoBlank(s: string)
    requires !Contains(s, CRLF)
    ensures BlankLine(s).Closed?
  {
    var p := CRLF + s;
    forall j | 0 <= j
      ensures !At(p, CRLFCRLF, j)
    {
      DoubleCrlf(p, j);
      AtShift(CRLF, s, CRLF, j);
    }
  }

  /** Step only as long as the head is being read. */
  function RunHead(r: Request): Request
    decreases |r.buffer|, Rank(r)
  {
    if !InHead(r) then r
    else
      match Step(r)
      case Blocked => r
      case Goto(n) => StepShrinks(r); RunHead(n)
  }

  lemma {:induction false} RunHeadThenRun(r: Request)
    ensures Run(RunHead(r)) == Run(r)
    decreases |r.buffer|, Rank(r)
  {
    if InHead(r) && Step(r).Goto? {
      StepShrinks(r);
      RunHeadThenRun(Step(r).next);
    }
  }

  /** A request whose head has just been read, with `rest` still to be taken as body. */
  predicate PastHead(h: Request, rest: string) {
    Sound(h) && HeadersDone(h) && h.body == "" && h.buffer == rest
  }

  predicate HeadEndsAt(h: Request, gate: Gate) {
    h.state.Error? || (if gate.Open? then PastHead(h, gate.rest) else InHead(h))
  }

  lemma {:induction false} HeadersEndAtBlankLine(r: Request)
    requires r.state.Headers? && Sound(r)
    ensures HeadEndsAt(RunHead(r), BlankLine(r.buffer))
    decreases |r.buffer|
  {
    match CutLine(r.buffer)
    case NoLine => NoLineNoBlank(r.buffer);
    case Line(line, rest) =>
      var n := Step(r).next;
      StepSound(r);
      if line == "" {
        assert r.buffer == CRLF + rest;
        BlankLineAtFront(rest);
      } else {
        BlankLineAfter(line, rest);
        if n.state.Headers? {
          HeadersEndAtBlankLine(n);
        }
      }
  }

  /** Client::has_complete_header and what it leaves for the body. */
  function HeaderGate(s: string): Gate {
    var i := Find(s, CRLFCRLF);
    if i < 0 then Closed else Open(s[i + 4..])
  }

  lemma NoGateInLine(line: string, rest: string)
    requires !Contains(line, CRLF)
    ensures forall j :: 0 <= j < |line| ==> !At(line + (CRLF + rest), CRLFCRLF, j)
  {
    var s := line + (CRLF + rest);
    Assoc(line, CRLF, rest);
    CutLineOf(line, rest);
    forall j | 0 <= j < |line|
      ensures !At(s, CRLFCRLF, j)
    {
      DoubleCrlf(s, j);
    }
  }

  lemma GateAfterLine(line: string, rest: string)
    requires !Contains(line, CRLF)
    ensures HeaderGate(line + CRLF + rest) == BlankLine(rest)
  {
    var q := CRLF + rest;
    Assoc(line, CRLF, rest);
    NoGateInLine(line, rest);
    FindSkips(line, q, CRLFCRLF);
    var k := Find(q, CRLFCRLF);
    if k >= 0 {
      CutSecond(line, q, k + 4);
    }
  }

  lemma NoLineNoGate(s: string)
    requires !Contains(s, CRLF)
    ensures HeaderGate(s).Closed?
  {
    forall j | 0 <= j
      ensures !At(s, CRLFCRLF, j)
    {
      DoubleCrlf(s, j);
    }
  }

  lemma RequestEndsAtGate(r: Request)
    requires r.state.RequestLine? && Sound(r)
    ensures HeadEndsAt(RunHead(r), HeaderGate(r.buffer))
  {
    hide ChunkedBody, FixedBody, ReadRequestLine, HeaderGate, BlankLine;
    match CutLine(r.buffer)
    case NoLine => NoLineNoGate(r.buffer);
    case Line(line, rest) =>
      GateAfterLine(line, rest);
      var n := Step(r).next;
      StepSound(r);
      if n.state.Headers? {
        HeadersEndAtBlankLine(n);
      }
  }

  /**
   * The gate and the parser agree on where the head ends: unless a head line is malformed, the
   * head has been read exactly when the stream holds a CRLFCRLF, and what follows it is the body.
   */
  lemma GateAgreesWithParser(limit: nat, s: string)
    ensures HeadEndsAt(RunHead(Fresh(limit).Feed(s)), HeaderGate(s))
  {
    var r := Fresh(limit).Feed(s);
    assert r.buffer == s;
    RequestEndsAtGate(r);
  }

  // ---------------------------------------------------- body accounting

  /** Reading a Content-Length body only moves bytes from the buffer to the body. */
  lemma FixedBodyConserves(h: Request)
    requires !InHead(h) && !h.chunked
    ensures Run(h).body + Run(h).buffer == h.body + h.buffer
    ensures !Run(h).chunked && Run(h).headers == h.headers
  {
  }

  /**
   * After any fragmentation of a stream into a request that is not chunked: body and buffer are
   * together exactly what followed the head, and a complete body has the announced length.
   */
  lemma ContentLengthAccounting(limit: nat, pieces: seq<string>)
    requires pieces != []
    ensures var r := ParseAll(Fresh(limit), pieces);
            HeadersDone(r) && !r.chunked ==>
              && HeaderGate(Join(pieces)) == Open(r.body + r.buffer)
              && FixedBodySound(r)
  {
    FragmentationInvariance(Fresh(limit), pieces);
    AccountingAtOnce(limit, Join(pieces));
  }

  lemma AccountingAtOnce(limit: nat, s: string)
    ensures var r := Parse(Fresh(limit), s);
            HeadersDone(r) && !r.chunked ==>
              HeaderGate(s) == Open(r.body + r.buffer) && FixedBodySound(r)
  {
    GateAgreesWithParser(limit, s);
    AccountingFrom(Fresh(limit).Feed(s), HeaderGate(s));
  }

  lemma AccountingFrom(r: Request, gate: Gate)
    requires Sound(r) && HeadEndsAt(RunHead(r), gate)
    ensures HeadersDone(Run(r)) && !Run(r).chunked ==>
              gate == Open(Run(r).body + Run(r).buffer) && FixedBodySound(Run(r))
  {
    var h := RunHead(r);
    RunSound(r);
    RunHeadThenRun(r);
    if !HeadersDone(h) {
      HeadStays(r);
    } else if h.chunked {
      ChunkedStays(h);
    } else {
      FixedBodyConserves(h);
      assert h.body + h.buffer == h.buffer;
    }
  }

  /** If the head never ends, the request stays there. */
  lemma {:induction false} HeadStays(r: Request)
    requires !HeadersDone(RunHead(r))
    ensures Run(r) == RunHead(r)
    decreases |r.buffer|, Rank(r)
  {
    if InHead(r) && Step(r).Goto? {
      StepShrinks(r);
      HeadStays(Step(r).next);
    }
  }

  lemma {:induction false} ChunkedStays(h: Request)
    requires h.chunked && !InHead(h)
    ensures Run(h).chunked
    decreases |h.buffer|, Rank(h)
  {
    if !h.Terminal() && Step(h).Goto? {
      StepShrinks(h);
      ChunkedStays(Step(h).next);
    }
  }

  /**
   * The limit holds for every complete request, in either coding. A chunked body is only tested
   * when a chunk ends, so between chunks it is within the limit.
   */
  lemma CompleteWithinLimit(limit: nat, pieces: seq<string>)
    requires pieces != []
    ensures var r := ParseAll(Fresh(limit), pieces);
            r.state.Complete? || (r.state.Body? && r.chunked && !r.chunk.Data?) ==> limit == 0 || |r.body| <= limit
  {
    FragmentationInvariance(Fresh(limit), pieces);
    RunSound(Fresh(limit).Feed(Join(pieces)));
    hide Run;
  }
}
