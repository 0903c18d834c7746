/** The CGI-to-client half of one exchange, as a transition system on values. */
module OutputSpec {
  import opened Bytes
  import opened CgiResponse

  const READ_BUFFER_SIZE: nat := 65536
  const CGI_BACKPRESSURE_LIMIT: nat := 4194304
  const FAIR_IO_LIMIT: nat := 262144

  /** Client fields and poll interest, then what has happened so far. */
  datatype Out = Out(
    cgiOutput: string,
    headersSent: bool,
    pending: string,
    active: bool,
    response: string,
    offset: nat,
    stdoutIn: bool,   // POLLIN on the CGI's stdout
    clientOut: bool,  // POLLOUT on the client
    gone: bool,       // the client has been removed
    log: Log)

  /** Everything read and sent, the pending size when the header was built, and bytes read while POLLIN was off. */
  datatype Log = Log(read: string, sent: string, atHeader: nat, offPoll: nat, aborted: bool)

  const STARTED := Out("", false, "", true, "", 0, true, false, false, Log("", "", 0, 0, false))

  // ------------------------------------------------ what the client gets

  function Close(r: Response): Response {
    r.(headers := Set(r.headers, "Connection", "close"))
  }

  /** The HTTP header sent for a CGI header section. */
  function HttpHeader(section: string): (s: string)
    ensures s != ""
  {
    HeaderToString(Close(ReadSection(section)))
  }

  function Error500(page: string): Response {
    var r := WithBody(WithStatus(Response("", [], ""), 500, "Internal Server Error"), page);
    r.(headers := Set(r.headers, "Content-Type", "text/html"))
  }

  /** The reply for output that ended without a CRLFCRLF. */
  function LateReply(raw: string, page: string): (s: string)
    ensures s != ""
  {
    match if raw == "" then None else ReadWhole(raw)
    case None => ToString(Close(Error500(page)))
    case Some(r) => ToString(Close(r))
  }

  /** What the client must have received when the CGI has written `raw` and ended. */
  function Expected(raw: string, page: string): string {
    var i := Find(raw, CRLFCRLF);
    if i >= 0 then HttpHeader(raw[..i]) + raw[i + 4..] else LateReply(raw, page)
  }

  // ------------------------------------------------------------- moves

  /** One successful read from the CGI. */
  function Receive(s: Out, data: string): Out {
    var log := s.log.(read := s.log.read + data, offPoll := s.log.offPoll + (if s.stdoutIn then 0 else |data|));
    if s.headersSent then s.(pending := s.pending + data, clientOut := true, log := log)
    else
      var raw := s.cgiOutput + data;
      var i := Find(raw, CRLFCRLF);
      if i < 0 then s.(cgiOutput := raw, log := log)
      else
        var pending := s.pending + HttpHeader(raw[..i]) + raw[i + 4..];
        s.(cgiOutput := raw, headersSent := true, pending := pending, clientOut := true,
           log := log.(atHeader := |pending|))
  }

  /** Back-pressure: stop polling the CGI while too much is pending. */
  function Throttle(s: Out): Out {
    if |s.pending| > CGI_BACKPRESSURE_LIMIT then s.(stdoutIn := false) else s
  }

  /** finalize_cgi, at the end of the CGI's output. */
  function Finalize(s: Out, page: string): Out {
    var n := s.(active := false, stdoutIn := false, clientOut := true);
    if s.headersSent then n else n.(response := LateReply(s.cgiOutput, page), offset := 0)
  }

  /** The client takes `n` pending bytes. */
  function Deliver(s: Out, n: nat): Out
    requires n <= |s.pending|
  {
    var rest := s.pending[n..];
    s.(pending := rest, log := s.log.(sent := s.log.sent + s.pending[..n]),
       stdoutIn := s.stdoutIn || (s.active && |rest| < CGI_BACKPRESSURE_LIMIT))
  }

  /** The client is writable with nothing pending: rest while the CGI runs, else disconnect. */
  function Rest(s: Out): Out {
    s.(clientOut := false, gone := !s.active)
  }

  /** The client takes `n` bytes of a reply built at the end. */
  function Reply(s: Out, n: nat): Out
    requires s.offset + n <= |s.response|
  {
    var e := s.offset + n;
    var t := s.(offset := e, log := s.log.(sent := s.log.sent + s.response[s.offset..e]));
    if e >= |s.response| then t.(gone := true, clientOut := false) else t
  }

  function Abort(s: Out): Out {
    s.(gone := true, log := s.log.(aborted := true))
  }

  // ------------------------------------------------------ poll handlers

  datatype ReadResult = Got(data: string) | WouldBlock | End

  datatype SendResult = Took(n: nat) | Full | Broken

  /** A read moves between one byte and a buffer's worth; a send moves at least one byte. */
  predicate ValidReads(script: seq<ReadResult>) {
    forall i :: 0 <= i < |script| && script[i].Got? ==> 0 < |script[i].data| <= READ_BUFFER_SIZE
  }

  predicate ValidSends(script: seq<SendResult>) {
    forall i :: 0 <= i < |script| && script[i].Took? ==> script[i].n > 0
  }

  /** handle_cgi_output: bounded reading. An exhausted script stands for would-block. */
  function ReadLoop(s: Out, script: seq<ReadResult>, total: nat, page: string): Out
    decreases |script|
  {
    if total >= FAIR_IO_LIMIT || script == [] then s
    else
      match script[0]
      case WouldBlock => s
      case End => Finalize(s, page)
      case Got(data) =>
        var n := Throttle(Receive(s, data));
        if |n.pending| > CGI_BACKPRESSURE_LIMIT then n else ReadLoop(n, script[1..], total + |data|, page)
  }

  function Least(a: nat, b: nat): nat {
    if a < b then a else b
  }

  /** The CGI branch of handle_poll_output: bounded sending. */
  function SendLoop(s: Out, script: seq<SendResult>, total: nat): Out
    decreases |script|
  {
    if total >= FAIR_IO_LIMIT then s
    else if s.pending == "" then Rest(s)
    else if script == [] then s
    else
      match script[0]
      case Full => s
      case Broken => Abort(s)
      case Took(n) =>
        var k := Least(n, |s.pending|);
        SendLoop(Deliver(s, k), script[1..], total + k)
  }

  predicate Streaming(s: Out) {
    s.active || s.pending != "" || s.headersSent
  }

  /** The plain branch: one send of the reply; anything but progress drops the client. */
  function ReplyOnce(s: Out, script: seq<SendResult>): Out {
    if s.response == "" then s
    else if script == [] || !script[0].Took? || s.offset > |s.response| then Abort(s)
    else Reply(s, Least(script[0].n, |s.response| - s.offset))
  }

  function Writable(s: Out, script: seq<SendResult>): Out {
    if Streaming(s) then SendLoop(s, script, 0) else ReplyOnce(s, script)
  }

  /** A poll event handled for this exchange. POLLHUP is delivered even where POLLIN is off. */
  datatype Call = CgiReadable(input: seq<ReadResult>) | CgiHangup(input: seq<ReadResult>) | ClientWritable(output: seq<SendResult>)

  predicate Possible(s: Out, c: Call) {
    !s.gone &&
    match c
    case CgiReadable(input) => s.active && s.stdoutIn && ValidReads(input)
    case CgiHangup(input) => s.active && ValidReads(input)
    case ClientWritable(output) => s.clientOut && ValidSends(output)
  }

  function Handle(s: Out, c: Call, page: string): Out {
    match c
    case CgiReadable(input) => ReadLoop(s, input, 0, page)
    case CgiHangup(input) => ReadLoop(s, input, 0, page)
    case ClientWritable(output) => Writable(s, output)
  }

  /** A run of the exchange: calls that poll could have delivered, one after another. */
  predicate IsRun(s: Out, calls: seq<Call>, page: string)
    decreases |calls|
  {
    calls == [] || (Possible(s, calls[0]) && IsRun(Handle(s, calls[0], page), calls[1..], page))
  }

  function AfterRun(s: Out, calls: seq<Call>, page: string): Out
    decreases |calls|
  {
    if calls == [] then s else AfterRun(Handle(s, calls[0], page), calls[1..], page)
  }
}
