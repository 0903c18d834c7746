/** The gate before the parser: hold the stream until the head is whole, then pick the body limit. */
module HeaderGating {
  import opened Bytes
  import opened RequestSpec
  import opened RequestLaws
  import opened HeadLaws
  import opened Routing
  import HttpRequest

  datatype Config = Config(limit: nat, routes: seq<Route>)

  function StripQuery(uri: string): string {
    var q := FindChar(uri, '?', 0);
    if q < 0 then uri else uri[..q]
  }

  /** The limit in force for a URI: the route's own, or the server's. */
  function LimitFor(conf: Config, uri: string): nat
    requires NonEmptyPaths(conf.routes)
  {
    var b := Select(uri, conf.routes);
    if b >= 0 && conf.routes[b].hasLimit then conf.routes[b].limit else conf.limit
  }

  datatype Peeked = NoUri | Uri(uri: string)

  /** The URI peeked at in the raw buffer, before anything is parsed. */
  function PeekUri(buf: string): Peeked {
    var a := FindChar(buf, ' ', 0);
    if a < 0 then NoUri
    else
      var b := FindChar(buf, ' ', a + 1);
      if b < 0 then NoUri else Uri(StripQuery(buf[a + 1..b]))
  }

  function PeekLimit(conf: Config, buf: string): nat
    requires NonEmptyPaths(conf.routes)
  {
    match PeekUri(buf)
    case NoUri => conf.limit
    case Uri(uri) => LimitFor(conf, uri)
  }

  /** The CGI gate: the route of the target runs a CGI for its extension and allows the method. */
  predicate ForCgi(conf: Config, verb: string, uri: string)
    requires NonEmptyPaths(conf.routes)
  {
    var b := Select(uri, conf.routes);
    b >= 0 && conf.routes[b].cgiExtension != "" && EndsWith(uri, conf.routes[b].cgiExtension)
    && (conf.routes[b].methods == [] || verb in conf.routes[b].methods)
  }

  predicate EndsWith(s: string, end: string) {
    |s| >= |end| && s[|s| - |end|..] == end
  }

  /** Such a request is dispatched as soon as its head has been read. */
  predicate ToCgi(conf: Config, r: Request)
    requires NonEmptyPaths(conf.routes)
  {
    HeadersDone(r) && ForCgi(conf, r.verb, StripQuery(r.target))
  }

  /** Reading requests; relaying one to a CGI; or, after a bad request, no longer polled for reading. */
  datatype Mode = Reading | Relaying | Refused

  /** A request that has been answered, and the stretch of the stream it was read from. */
  datatype Answered = Answered(stream: string, request: Request)

  /** A connection; `stream` is what has been read since its last answer. */
  datatype Conn = Conn(buffer: string, started: bool, request: Request, mode: Mode,
                       stream: string, answers: seq<Answered>)

  const NEW_CONN := Conn("", false, Fresh(0), Reading, "", [])

  /** The bytes reach the parser, or wait for the rest of the head. */
  function Gated(c: Conn, data: string, conf: Config): Conn
    requires NonEmptyPaths(conf.routes)
  {
    var n := c.(stream := c.stream + data);
    if c.started then n.(request := Parse(c.request, data), buffer := "")
    else
      var buffer := c.buffer + data;
      if !Contains(buffer, CRLFCRLF) then n.(buffer := buffer)
      else n.(buffer := "", started := true, request := Parse(c.request.(maxBodySize := PeekLimit(conf, buffer)), buffer))
  }

  /** The request has its answer; the connection is set back for another. */
  function Answer(c: Conn, mode: Mode): Conn {
    Conn("", false, Fresh(0), mode, "", c.answers + [Answered(c.stream, c.request)])
  }

  /** What becomes of the request once the parser has had the bytes. */
  function Concluded(c: Conn, conf: Config): Conn
    requires NonEmptyPaths(conf.routes)
  {
    if !c.started then c
    else if c.request.state.Error? then Answer(c, Refused)
    else if ToCgi(conf, c.request) then c.(mode := Relaying)
    else if c.request.state.Complete? then Answer(c, Reading)
    else c
  }

  function OnData(c: Conn, data: string, conf: Config): Conn
    requires NonEmptyPaths(conf.routes)
  {
    if c.mode.Reading? then Concluded(Gated(c, data, conf), conf) else c
  }

  function OnAll(c: Conn, pieces: seq<string>, conf: Config): Conn
    requires NonEmptyPaths(conf.routes)
    decreases |pieces|
  {
    if pieces == [] then c else OnAll(OnData(c, pieces[0], conf), pieces[1..], conf)
  }

  /** The fields of Client that take part, with the parser as an object of its own. */
  class Connection {
    var buffer: string
    var started: bool
    const request: HttpRequest.HTTPRequest
    var mode: Mode
    ghost var stream: string
    ghost var answers: seq<Answered>

    ghost function Value(): Conn
      reads this, request
    {
      Conn(buffer, started, request.Value(), mode, stream, answers)
    }

    constructor ()
      ensures Value() == NEW_CONN && fresh(request)
    {
      buffer, started, mode := "", false, Reading;
      stream, answers := "", [];
      request := new HttpRequest.HTTPRequest();
    }

    method ReadLimit(buf: string, conf: Config) returns (limit: nat)
      requires NonEmptyPaths(conf.routes)
      ensures limit == PeekLimit(conf, buf)
    {
      hide IsBest, Matches;
      limit := conf.limit;
      var a := FindChar(buf, ' ', 0);
      if a >= 0 {
        var b := FindChar(buf, ' ', a + 1);
        if b >= 0 {
          var route := MatchRoute(StripQuery(buf[a + 1..b]), conf.routes);
          if route >= 0 && conf.routes[route].hasLimit {
            limit := conf.routes[route].limit;
          }
        }
      }
    }

    /** The read half of handle_client_read, from the bytes read to the parser's answer. */
    method Feed(data: string, conf: Config) returns (complete: bool)
      requires NonEmptyPaths(conf.routes)
      modifies this, request
      ensures Value() == Gated(old(Value()), data, conf)
      ensures complete <==> started && request.state.Complete?
      ensures mode == old(mode)
    {
      hide Run, PeekLimit;
      var newData := data;
      stream := stream + data;
      if !started {
        buffer := buffer + data;
        if !Contains(buffer, CRLFCRLF) {
          return false;
        }
        var limit := ReadLimit(buffer, conf);
        request.SetMaxBodySize(limit);
        started := true;
        newData := buffer;
        buffer := "";
      }
      complete := request.Parse(newData);
      buffer := "";
    }

    /** clear_buffer, after an answer has been set. */
    method Clear()
      modifies this, request
      ensures Value() == Answer(old(Value()), old(mode))
    {
      answers := answers + [Answered(stream, request.Value())];
      stream := "";
      buffer := "";
      request.Reset();
      started := false;
    }

    method RunsCgi(conf: Config) returns (cgi: bool)
      requires NonEmptyPaths(conf.routes)
      ensures cgi == ForCgi(conf, request.verb, StripQuery(request.requestTarget))
    {
      var uri := StripQuery(request.requestTarget);
      var route := MatchRoute(uri, conf.routes);
      if route < 0 || conf.routes[route].cgiExtension == "" {
        return false;
      }
      if !EndsWith(uri, conf.routes[route].cgiExtension) {
        return false;
      }
      var methods := conf.routes[route].methods;
      cgi := methods == [];
      for i := 0 to |methods|
        invariant cgi <==> methods == [] || request.verb in methods[..i]
      {
        if methods[i] == request.verb {
          cgi := true;
          break;
        }
      }
    }

    /** handle_client_read on bytes read while no CGI is active. */
    method Read(data: string, conf: Config)
      requires NonEmptyPaths(conf.routes) && mode == Reading
      modifies this, request
      ensures Value() == OnData(old(Value()), data, conf)
    {
      hide Gated, ForCgi;
      var complete := Feed(data, conf);
      ghost var g := Value();
      if !started {
        assert Value() == Concluded(g, conf);
        return;
      }
      if request.state == Error {
        mode := Refused;
        Clear();
        assert Value() == Concluded(g, conf);
        return;
      }
      if request.state == Body || request.state == Complete {
        var cgi := RunsCgi(conf);
        if cgi {
          mode := Relaying;
          assert Value() == Concluded(g, conf);
          return;
        }
      }
      if !complete {
        assert Value() == Concluded(g, conf);
        return;
      }
      Clear();
      assert Value() == Concluded(g, conf);
    }
  }

  // ----------------------------------------------------------- agreement

  /** Where the target of a request line stands, if it has one. */
  predicate TargetAt(line: string, a: int, b: int) {
    a == FindChar(line, ' ', 0) && a >= 0 && b == FindChar(line, ' ', a + 1) && b >= 0
  }

  lemma PeekExtends(line: string, rest: string, a: int, b: int)
    requires TargetAt(line, a, b)
    ensures PeekUri(line + rest) == Uri(StripQuery(line[a + 1..b]))
  {
    hide StripQuery;
    FindCharExtends(line, rest, ' ', 0);
    FindCharExtends(line, rest, ' ', a + 1);
    assert (line + rest)[a + 1..b] == line[a + 1..b];
  }

  /** A request keeps the method and target its request line gave it. */
  lemma {:induction false} TargetStays(r: Request)
    requires !r.state.RequestLine?
    ensures Run(r).target == r.target && Run(r).verb == r.verb && Run(r).maxBodySize == r.maxBodySize
    decreases |r.buffer|, Rank(r)
  {
    if !r.Terminal() && Step(r).Goto? {
      StepShrinks(r);
      StepKeepsTarget(r);
      TargetStays(Step(r).next);
    }
  }

  lemma StepKeepsTarget(r: Request)
    requires !r.Terminal() && !r.state.RequestLine? && Step(r).Goto?
    ensures var n := Step(r).next;
            n.target == r.target && n.verb == r.verb && n.maxBodySize == r.maxBodySize && !n.state.RequestLine?
  {
    hide Run, ChunkedBody, FixedBody;
    if r.state.Body? {
      if r.chunked {
        ChunkedFrame(r);
      } else {
        FixedFrame(r);
      }
    }
  }

  lemma GoodRequestLine(r: Request, line: string)
    requires !ReadRequestLine(r, line).state.Error?
    ensures var a := FindChar(line, ' ', 0);
            a >= 0 && TargetAt(line, a, FindChar(line, ' ', a + 1))
            && ReadRequestLine(r, line).target == line[a + 1..FindChar(line, ' ', a + 1)]
            && ReadRequestLine(r, line).state.Headers?
  {
  }

  lemma FirstStep(r: Request)
    requires r.state.RequestLine? && CutLine(r.buffer).Line?
    ensures Run(r) == Run(ReadRequestLine(r.(buffer := CutLine(r.buffer).rest), CutLine(r.buffer).line))
  {
    hide ReadRequestLine;
    RunStep(r, ReadRequestLine(r.(buffer := CutLine(r.buffer).rest), CutLine(r.buffer).line));
  }

  /** Once its first line is there, a request that is not malformed has that line's target. */
  lemma ParsedTarget(r: Request)
    requires r.state.RequestLine? && CutLine(r.buffer).Line? && !Run(r).state.Error?
    ensures var line := CutLine(r.buffer).line;
            var a := FindChar(line, ' ', 0);
            a >= 0 && TargetAt(line, a, FindChar(line, ' ', a + 1))
            && Run(r).target == line[a + 1..FindChar(line, ' ', a + 1)]
            && Run(r).maxBodySize == r.maxBodySize
  {
    hide Run, Step, ReadRequestLine;
    var cut := CutLine(r.buffer);
    var n := ReadRequestLine(r.(buffer := cut.rest), cut.line);
    FirstStep(r);
    if n.state.Error? {
      RunOfTerminal(n);
    }
    GoodRequestLine(r.(buffer := cut.rest), cut.line);
    RequestLineKeepsLimit(r.(buffer := cut.rest), cut.line);
    TargetStays(n);
  }

  lemma RunOfTerminal(r: Request)
    requires r.Terminal()
    ensures Run(r) == r
  {
  }

  lemma RequestLineKeepsLimit(r: Request, line: string)
    ensures ReadRequestLine(r, line).maxBodySize == r.maxBodySize
  {
  }

  /** For a valid request line, the URI peeked at is the target the parser finds. */
  lemma PeekIsTarget(r: Request)
    requires r.state.RequestLine? && CutLine(r.buffer).Line? && !Run(r).state.Error?
    ensures PeekUri(r.buffer) == Uri(StripQuery(Run(r).target))
  {
    hide Run, PeekUri, StripQuery;
    var cut := CutLine(r.buffer);
    ParsedTarget(r);
    var a := FindChar(cut.line, ' ', 0);
    Assoc(cut.line, CRLF, cut.rest);
    PeekExtends(cut.line, CRLF + cut.rest, a, FindChar(cut.line, ' ', a + 1));
  }

  // ------------------------------------------------------ whole streams

  /** The limit is the one selected by the target of the stream's first line, if it has one. */
  predicate LimitRight(conf: Config, limit: nat, s: string)
    requires NonEmptyPaths(conf.routes) && CutLine(s).Line?
  {
    var line := CutLine(s).line;
    var a := FindChar(line, ' ', 0);
    a >= 0 && FindChar(line, ' ', a + 1) >= 0 ==>
      limit == LimitFor(conf, StripQuery(line[a + 1..FindChar(line, ' ', a + 1)]))
  }

  /** What the gate and the parser make of a stretch `s` that holds a whole head. */
  predicate ReadFrom(conf: Config, r: Request, s: string)
    requires NonEmptyPaths(conf.routes)
  {
    && Contains(s, CRLFCRLF) && r == Parse(Fresh(r.maxBodySize), s) && !InHead(r)
    && CutLine(s).Line? && LimitRight(conf, r.maxBodySize, s)
  }

  /** The request being read: nothing is parsed until its head is whole, and a CGI has it from then on. */
  predicate CurrentInv(conf: Config, c: Conn)
    requires NonEmptyPaths(conf.routes)
  {
    if !c.started then
      c.buffer == c.stream && c.request == Fresh(0) && !Contains(c.stream, CRLFCRLF) && !c.mode.Relaying?
    else
      && c.buffer == "" && ReadFrom(conf, c.request, c.stream)
      && (if c.mode.Relaying? then ToCgi(conf, c.request)
          else c.mode.Reading? && c.request.state.Body? && !ToCgi(conf, c.request))
  }

  /** Every answered request is finished, and was read from its own stretch of the stream alone. */
  predicate AnswersInv(conf: Config, answers: seq<Answered>)
    requires NonEmptyPaths(conf.routes)
  {
    forall i :: 0 <= i < |answers| ==> AnswerInv(conf, answers[i], i == |answers| - 1)
  }

  predicate AnswerInv(conf: Config, a: Answered, last: bool)
    requires NonEmptyPaths(conf.routes)
  {
    ReadFrom(conf, a.request, a.stream)
    && (if a.request.state.Error? then last else a.request.state.Complete? && !ToCgi(conf, a.request))
  }

  predicate GateInv(conf: Config, c: Conn)
    requires NonEmptyPaths(conf.routes)
  {
    && CurrentInv(conf, c) && AnswersInv(conf, c.answers)
    && (c.mode.Refused? <==> c.answers != [] && c.answers[|c.answers| - 1].request.state.Error?)
  }

  /** All that has been read, in order. */
  function Consumed(c: Conn): string {
    Stretches(c.answers) + c.stream
  }

  function Stretches(answers: seq<Answered>): string {
    if answers == [] then "" else Stretches(answers[..|answers| - 1]) + answers[|answers| - 1].stream
  }

  lemma DoubleHasCrlf(s: string)
    requires Contains(s, CRLFCRLF)
    ensures CutLine(s).Line?
  {
    DoubleCrlf(s, Find(s, CRLFCRLF));
  }

  lemma PeekIsRight(conf: Config, s: string)
    requires NonEmptyPaths(conf.routes) && CutLine(s).Line?
    ensures LimitRight(conf, PeekLimit(conf, s), s)
  {
    hide LimitFor, StripQuery, PeekUri;
    var cut := CutLine(s);
    var a := FindChar(cut.line, ' ', 0);
    if a >= 0 && FindChar(cut.line, ' ', a + 1) >= 0 {
      Assoc(cut.line, CRLF, cut.rest);
      PeekExtends(cut.line, CRLF + cut.rest, a, FindChar(cut.line, ' ', a + 1));
    }
  }

  lemma GateOpens(conf: Config, s: string)
    requires NonEmptyPaths(conf.routes) && Contains(s, CRLFCRLF)
    ensures var r := Parse(Fresh(PeekLimit(conf, s)), s); ReadFrom(conf, r, s)
  {
    hide Run, PeekLimit, LimitRight, Step;
    DoubleHasCrlf(s);
    RunSound(Fresh(PeekLimit(conf, s)).Feed(s));
    NeverInHead(PeekLimit(conf, s), s);
    PeekIsRight(conf, s);
  }

  lemma OpenGateStays(conf: Config, r: Request, s: string, data: string)
    requires NonEmptyPaths(conf.routes) && ReadFrom(conf, r, s)
    ensures ReadFrom(conf, Parse(r, data), s + data)
    ensures Parse(r, data).verb == r.verb && Parse(r, data).target == r.target
  {
    hide Run, LimitFor, StripQuery, Step;
    FindExtends(s, data, CRLFCRLF);
    CutLineExtends(s, data);
    SplitInvariance(Fresh(r.maxBodySize), s, data);
    TargetStays(r.Feed(data));
    NeverBack(r.Feed(data));
  }

  /** What a connection becomes when it has read `data`, apart from the answer. */
  lemma GatedKeeps(conf: Config, c: Conn, data: string)
    requires NonEmptyPaths(conf.routes) && CurrentInv(conf, c) && c.mode.Reading?
    ensures var n := Gated(c, data, conf);
            && n.stream == c.stream + data && n.mode == c.mode && n.answers == c.answers
            && (if n.started then n.buffer == "" && ReadFrom(conf, n.request, n.stream)
                else CurrentInv(conf, n))
            && (c.started && n.started && ToCgi(conf, n.request) ==> ForCgi(conf, c.request.verb, StripQuery(c.request.target)))
  {
    hide Run, PeekLimit, ReadFrom, ForCgi, StripQuery;
    if c.started {
      OpenGateStays(conf, c.request, c.stream, data);
    } else if Contains(c.buffer + data, CRLFCRLF) {
      GateOpens(conf, c.buffer + data);
    }
  }

  lemma AnswerKeeps(conf: Config, c: Conn, mode: Mode)
    requires NonEmptyPaths(conf.routes) && AnswersInv(conf, c.answers) && ReadFrom(conf, c.request, c.stream)
    requires c.answers != [] ==> !c.answers[|c.answers| - 1].request.state.Error?
    requires if c.request.state.Error? then mode.Refused?
             else c.request.state.Complete? && !ToCgi(conf, c.request) && mode.Reading?
    ensures GateInv(conf, Answer(c, mode)) && Consumed(Answer(c, mode)) == Consumed(c)
  {
    hide ReadFrom, AnswersInv, ToCgi, Stretches, Contains;
    FindAbsent("", CRLFCRLF);
    NotContained("");
    var a := Answered(c.stream, c.request);
    AnswersGrow(conf, c.answers, a);
    StretchesGrow(c.answers, a);
  }

  lemma NotContained(s: string)
    requires s == ""
    ensures !Contains(s, CRLFCRLF)
  {
  }

  lemma AnswersGrow(conf: Config, answers: seq<Answered>, a: Answered)
    requires NonEmptyPaths(conf.routes) && AnswersInv(conf, answers) && AnswerInv(conf, a, true)
    requires answers != [] ==> !answers[|answers| - 1].request.state.Error?
    ensures AnswersInv(conf, answers + [a])
  {
    hide ReadFrom, ToCgi;
    var n := answers + [a];
    forall i | 0 <= i < |n|
      ensures AnswerInv(conf, n[i], i == |n| - 1)
    {
      if i < |answers| {
        assert AnswerInv(conf, answers[i], i == |answers| - 1);
      }
    }
  }

  lemma StretchesGrow(answers: seq<Answered>, a: Answered)
    ensures Stretches(answers + [a]) == Stretches(answers) + a.stream
    ensures Stretches(answers + [a]) + "" == Stretches(answers) + a.stream
  {
    var n := answers + [a];
    assert n[..|n| - 1] == answers;
  }

  lemma GateStep(conf: Config, c: Conn, data: string)
    requires NonEmptyPaths(conf.routes) && GateInv(conf, c)
    ensures GateInv(conf, OnData(c, data, conf))
    ensures Consumed(OnData(c, data, conf)) == if c.mode.Reading? then Consumed(c) + data else Consumed(c)
  {
    hide Run, Gated, ForCgi, ReadFrom, AnswersInv, Answer, StripQuery;
    if c.mode.Reading? {
      var n := Gated(c, data, conf);
      GatedKeeps(conf, c, data);
      Assoc(Stretches(c.answers), c.stream, data);
      if n.started {
        NotInHead(conf, n.request, n.stream);
        if n.request.state.Error? {
          AnswerKeeps(conf, n, Refused);
        } else if !ToCgi(conf, n.request) && n.request.state.Complete? {
          AnswerKeeps(conf, n, Reading);
        }
      }
    }
  }

  lemma NotInHead(conf: Config, r: Request, s: string)
    requires NonEmptyPaths(conf.routes) && ReadFrom(conf, r, s)
    ensures !InHead(r)
  {
  }

  lemma {:induction false} GateAll(conf: Config, c: Conn, pieces: seq<string>)
    requires NonEmptyPaths(conf.routes) && GateInv(conf, c)
    ensures var e := OnAll(c, pieces, conf);
            && GateInv(conf, e) && Consumed(e) <= Consumed(c) + Join(pieces)
            && (e.mode.Reading? ==> Consumed(e) == Consumed(c) + Join(pieces))
            && (!c.mode.Reading? ==> e == c)
    decreases |pieces|
  {
    hide GateInv, OnData, Consumed;
    if pieces == [] {
      assert Consumed(c) + "" == Consumed(c);
    } else {
      GateStep(conf, c, pieces[0]);
      OnDataOnlyReading(conf, c, pieces[0]);
      GateAll(conf, OnData(c, pieces[0], conf), pieces[1..]);
      Assoc(Consumed(c), pieces[0], Join(pieces[1..]));
    }
  }

  lemma OnDataOnlyReading(conf: Config, c: Conn, data: string)
    requires NonEmptyPaths(conf.routes)
    ensures !c.mode.Reading? ==> OnData(c, data, conf) == c
  {
  }

  /**
   * A connection under every fragmentation of its stream. What has been read falls into stretches,
   * one for each answered request and one for the request being read, one behind the other. What a
   * stretch holds behind its request is thrown away with the answer. Nothing of a stretch is parsed until it holds a CRLFCRLF; from
   * then on its request is the one a single parse of the stretch gives, is never still in its head,
   * and is parsed under the limit its own target selects. Only the last answer can be an error.
   */
  lemma GatedConnection(conf: Config, pieces: seq<string>)
    requires NonEmptyPaths(conf.routes)
    ensures var c := OnAll(NEW_CONN, pieces, conf);
            && GateInv(conf, c) && Consumed(c) <= Join(pieces)
            && (c.mode.Reading? ==> Consumed(c) == Join(pieces))
            && (c.started <==> Contains(c.stream, CRLFCRLF))
  {
    hide OnData, OnAll, ReadFrom, AnswersInv;
    NewConnection(conf);
    GateAll(conf, NEW_CONN, pieces);
    assert "" + Join(pieces) == Join(pieces);
    StartedExactly(conf, OnAll(NEW_CONN, pieces, conf));
  }

  lemma StartedExactly(conf: Config, c: Conn)
    requires NonEmptyPaths(conf.routes) && CurrentInv(conf, c)
    ensures c.started <==> Contains(c.stream, CRLFCRLF)
  {
  }

  lemma NewConnection(conf: Config)
    requires NonEmptyPaths(conf.routes)
    ensures GateInv(conf, NEW_CONN) && Consumed(NEW_CONN) == ""
  {
    FindAbsent("", CRLFCRLF);
  }

  /** A request that is not malformed is read under the limit its own target selects. */
  lemma LimitIsOwn(conf: Config, r: Request, s: string)
    requires NonEmptyPaths(conf.routes) && ReadFrom(conf, r, s) && !r.state.Error?
    ensures r.maxBodySize == LimitFor(conf, StripQuery(r.target)) && Sound(r)
  {
    hide Run, LimitFor, StripQuery, CutLine, FindChar, Sound;
    var f := Fresh(r.maxBodySize).Feed(s);
    assert f.buffer == s;
    ParsedTarget(f);
    StreamSound(r.maxBodySize, s);
  }

  lemma {:induction false} NeverBack(r: Request)
    requires !InHead(r)
    ensures !InHead(Run(r))
    decreases |r.buffer|, Rank(r)
  {
    if !r.Terminal() && Step(r).Goto? {
      StepShrinks(r);
      NeverBack(Step(r).next);
    }
  }

  lemma NeverInHead(limit: nat, s: string)
    requires Contains(s, CRLFCRLF)
    ensures !InHead(Parse(Fresh(limit), s))
  {
    hide Run, RunHead;
    var r := Fresh(limit).Feed(s);
    GateAgreesWithParser(limit, s);
    RunHeadThenRun(r);
    NeverBack(RunHead(r));
  }

  lemma CompleteIsPastGate(limit: nat, s: string)
    requires Parse(Fresh(limit), s).state.Complete?
    ensures Contains(s, CRLFCRLF)
  {
    hide Run, RunHead;
    var r := Fresh(limit).Feed(s);
    GateAgreesWithParser(limit, s);
    if !Contains(s, CRLFCRLF) {
      HeadStays(r);
    }
  }

  // ----------------------------------------------------- bytes past it

  /** When a read completes the head, fewer bytes than that read are left over after it. */
  lemma PastHeadIsNew(a: string, b: string)
    requires !Contains(a, CRLFCRLF) && HeaderGate(a + b).Open?
    ensures |HeaderGate(a + b).rest| < |b|
  {
    var i := Find(a + b, CRLFCRLF);
    if i + 4 <= |a| {
      AtExtends(a, b, CRLFCRLF, i);
    }
  }

  /** Body and buffer never hold more than what was there to read. */
  lemma {:induction false} BodyVolume(r: Request)
    requires !InHead(r)
    ensures |Run(r).body| + |Run(r).buffer| <= |r.body| + |r.buffer|
    decreases |r.buffer|, Rank(r)
  {
    hide FixedBody, ChunkedBody;
    if !r.Terminal() && Step(r).Goto? {
      StepShrinks(r);
      if r.chunked {
        ChunkedFrame(r);
      } else {
        FixedFrame(r);
      }
      BodyVolume(Step(r).next);
    }
  }

  /** So what a request brings to dispatch on the read that completes its head is less than that read. */
  lemma DispatchVolume(limit: nat, a: string, b: string)
    requires !Contains(a, CRLFCRLF) && Contains(a + b, CRLFCRLF)
    requires !Parse(Fresh(limit), a + b).state.Error?
    ensures var r := Parse(Fresh(limit), a + b); |r.body| + |r.buffer| < |b|
  {
    hide Run, RunHead;
    var r := Fresh(limit).Feed(a + b);
    GateAgreesWithParser(limit, a + b);
    RunHeadThenRun(r);
    PastHeadIsNew(a, b);
    if RunHead(r).state.Error? {
      RunOfTerminal(RunHead(r));
    } else {
      BodyVolume(RunHead(r));
    }
  }

  /** A connection hands its request over on the very read that completes the head. */
  lemma DispatchOnHeadRead(conf: Config, c: Conn, data: string)
    requires NonEmptyPaths(conf.routes) && GateInv(conf, c) && c.mode.Reading? && OnData(c, data, conf).mode.Relaying?
    ensures var r := OnData(c, data, conf).request;
            && !Contains(c.buffer, CRLFCRLF) && Contains(c.buffer + data, CRLFCRLF)
            && r == Parse(Fresh(r.maxBodySize), c.buffer + data) && HeadersDone(r)
            && |r.body| + |r.buffer| < |data|
  {
    hide Run, ForCgi, StripQuery, PeekLimit;
    GatedKeeps(conf, c, data);
    DispatchVolume(PeekLimit(conf, c.buffer + data), c.buffer, data);
  }
}
