/** The client-to-CGI half of one exchange, as a transition system on values. */
module InputSpec {
  import opened Numbers
  import opened RequestSpec
  import opened DecoderSpec
  import opened Handoff
  import opened OutputSpec

  /** Client fields and poll interest, then what has happened so far. */
  datatype In = In(
    open: bool,          // the CGI's stdin is open
    pending: string,
    eof: bool,
    chunked: bool,
    dec: Decoder,
    forwarded: nat,
    contentLength: nat,
    clientIn: bool,      // POLLIN on the client
    stdinOut: bool,      // POLLOUT on the CGI's stdin
    log: InLog)

  /**
   * Bytes read from the client for the CGI, body bytes accepted for it and bytes its stdin has taken,
   * in order; the bytes accepted at dispatch; the first decoding failure; and whether the pipe has
   * broken, the client has ended, or a write has gone ahead of bytes still pending.
   */
  datatype InLog = InLog(received: string, accepted: string, written: string, initial: nat,
                         failure: DecodeFailure, broken: bool, ended: bool, mixed: bool)
  {
    predicate Failed() {
      failure.Failure?
    }

    function Receiving(data: string): InLog {
      this.(received := received + data)
    }

    /** Only the first failure is recorded. */
    function Failing(before: string, last: string, dec: Decoder): InLog {
      if Failed() then this else this.(failure := Failure(before, last, accepted, dec.state.DecDataCrlf?))
    }
  }

  /**
   * Decoding failed in the read `last`, with `before` received earlier and `accepted` accepted by
   * then, where CRLF was due after chunk data or, else, at a size line.
   */
  datatype DecodeFailure = Unfailed | Failure(before: string, last: string, accepted: string, atCrlf: bool)

  // ------------------------------------------------------------- moves

  /** Close stdin if nothing is pending, else leave that to the flush. */
  function EndInput(s: In): In {
    if s.pending == "" then s.(open := false) else s.(eof := true)
  }

  /** The same where the flag is raised in either case. */
  function GiveUp(s: In): In {
    s.(eof := true, open := s.open && s.pending != "")
  }

  /** Write straight to the pipe, which takes up to `room` bytes, and keep the rest. */
  function Forward(s: In, data: string, room: nat): In {
    var k := Least(room, |data|);
    s.(pending := s.pending + data[k..],
       stdinOut := s.stdinOut || k < |data|,
       log := s.log.(accepted := s.log.accepted + data, written := s.log.written + data[..k],
                     mixed := s.log.mixed || (k > 0 && s.pending != "")))
  }

  /** One successful read in Content-Length mode. */
  function AcceptRaw(s: In, data: string, room: nat): In {
    var n := Forward(s.(log := s.log.Receiving(data)), data, room).(forwarded := s.forwarded + |data|);
    if n.contentLength > 0 && n.forwarded >= n.contentLength then EndInput(n) else n
  }

  /** One successful read in chunked mode. */
  function AcceptChunked(s: In, data: string, room: nat): In {
    var o := Decode(s.dec, data);
    var d := s.(dec := o.dec, log := s.log.Receiving(data));
    if !o.ok then GiveUp(d.(log := d.log.Failing(s.log.received, data, o.dec)))
    else
      var n := if o.out == "" then d else Forward(d, o.out, room);
      if o.eof then EndInput(n) else n
  }

  function Accept(s: In, data: string, room: nat): In {
    if s.chunked then AcceptChunked(s, data, room) else AcceptRaw(s, data, room)
  }

  /** The end of the body has just been seen, so the read loop returns. */
  predicate Ends(s: In, data: string) {
    if s.chunked then !Decode(s.dec, data).ok || Decode(s.dec, data).eof
    else s.contentLength > 0 && s.forwarded + |data| >= s.contentLength
  }

  // ----------------------------------------------------------- handlers

  /** What a read from the client reports; `room` is what the pipe takes of the bytes forwarded. */
  datatype ClientResult = FromClient(bytes: string, room: nat) | NoData | ClientEnd

  datatype WriteResult = Wrote(n: nat) | Stuck

  predicate ValidInput(script: seq<ClientResult>) {
    forall i :: 0 <= i < |script| && script[i].FromClient? ==> 0 < |script[i].bytes| <= READ_BUFFER_SIZE
  }

  /** handle_client_read while the CGI is active. */
  function ClientLoop(s: In, script: seq<ClientResult>, total: nat): In
    decreases |script|
  {
    if total >= FAIR_IO_LIMIT then s
    else if |s.pending| > CGI_BACKPRESSURE_LIMIT then s.(clientIn := false)
    else if script == [] then s
    else
      match script[0]
      case NoData => s
      case ClientEnd => GiveUp(s.(log := s.log.(ended := true)))
      case FromClient(bytes, room) =>
        if !s.open then s
        else
          var n := Accept(s, bytes, room);
          if Ends(s, bytes) then n else ClientLoop(n, script[1..], total + |bytes|)
  }

  function Flush(s: In, n: nat): In
    requires n <= |s.pending|
  {
    s.(pending := s.pending[n..], log := s.log.(written := s.log.written + s.pending[..n]))
  }

  function FlushLoop(s: In, script: seq<WriteResult>, total: nat): In
    decreases |script|
  {
    if s.pending == "" || total >= FAIR_IO_LIMIT || script == [] then s
    else
      match script[0]
      case Stuck => s
      case Wrote(n) =>
        var k := Least(n, |s.pending|);
        if k == 0 then s else FlushLoop(Flush(s, k), script[1..], total + k)
  }

  /** What handle_cgi_stdin_writable decides after flushing. */
  function AfterFlush(s: In): In {
    if s.pending == "" && s.eof then s.(open := false)
    else s.(clientIn := s.clientIn || |s.pending| < CGI_BACKPRESSURE_LIMIT,
            stdinOut := s.stdinOut && s.pending != "")
  }

  /** A poll event handled for this half of the exchange. */
  datatype InCall = ClientReadable(input: seq<ClientResult>) | StdinWritable(room: seq<WriteResult>) | StdinBroken

  predicate CanHappen(s: In, c: InCall) {
    match c
    case ClientReadable(input) => s.clientIn && ValidInput(input)
    case StdinWritable(room) => s.open && s.stdinOut
    case StdinBroken => s.open
  }

  function HandleIn(s: In, c: InCall): In {
    match c
    case ClientReadable(input) => ClientLoop(s, input, 0)
    case StdinWritable(room) => AfterFlush(FlushLoop(s, room, 0))
    case StdinBroken => s.(open := false, log := s.log.(broken := true))
  }

  predicate IsInRun(s: In, calls: seq<InCall>)
    decreases |calls|
  {
    calls == [] || (CanHappen(s, calls[0]) && IsInRun(HandleIn(s, calls[0]), calls[1..]))
  }

  function AfterInRun(s: In, calls: seq<InCall>): In
    decreases |calls|
  {
    if calls == [] then s else AfterInRun(HandleIn(s, calls[0]), calls[1..])
  }

  // ----------------------------------------------------------- dispatch

  /** The first write to the new pipe, which takes up to `room` bytes. */
  function FirstWrite(body: string, room: nat, chunked: bool, dec: Decoder, contentLength: nat): In {
    var k := Least(room, |body|);
    In(true, body[k..], false, chunked, dec, |body|, contentLength, true, true,
       InLog("", body, body[..k], |body|, Unfailed, false, false, false))
  }

  /** The body part of dispatch_cgi. */
  function Dispatch(r: Request, room: nat): In {
    var cl := AtolSize(Header(r.headers, "content-length"));
    var chunked := ChunkedCoding(r.headers);
    var o := if chunked then Decode(Handover(r), r.buffer) else Waiting(Decoder(DecSize, 0, ""), "");
    var complete := if chunked then o.eof else cl == 0 || |r.body| >= cl;
    var s := FirstWrite(r.body + o.out, room, chunked, o.dec, cl);
    if complete then EndInput(s) else s
  }
}
