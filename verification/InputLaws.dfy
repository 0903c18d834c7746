/** What every run of the input relay keeps. */
module InputLaws {
  import opened Bytes
  import opened Numbers
  import opened RequestSpec
  import opened RequestLaws
  import opened HeadLaws
  import opened DecoderSpec
  import opened Handoff
  import opened OutputSpec
  import opened OutputLaws
  import opened InputSpec
  import opened HeaderGating

  /** Every byte accepted for the CGI is exactly once either taken by its stdin or pending. */
  predicate Accounted(s: In) {
    && multiset(s.log.written) + multiset(s.pending) == multiset(s.log.accepted)
    && (!s.log.mixed ==> s.log.written + s.pending == s.log.accepted)
  }

  /** Stdin is left open just as long as it is needed, and closed with nothing left over. */
  predicate EndsRight(s: In) {
    && (s.open && s.eof ==> s.pending != "")
    && (!s.open && !s.log.broken ==> s.pending == "")
    && (s.open && !s.eof && !s.log.Failed() ==> !BodyOver(s))
    && ((s.eof || !s.open) && !s.log.broken && !s.log.Failed() && !s.log.ended ==> BodyOver(s))
    && (s.log.ended || s.log.Failed() ==> s.eof || !s.open)
    && (s.log.broken ==> !s.open)
  }

  /** The end of the request body has gone by. */
  predicate BodyOver(s: In) {
    if s.chunked then s.dec.state.DecDone? else s.forwarded >= s.contentLength
  }

  /** No lost wakeup on the input side. */
  predicate InAwake(s: In) {
    && (s.open && s.pending != "" ==> s.stdinOut)
    && (s.open && !s.clientIn ==> |s.pending| >= CGI_BACKPRESSURE_LIMIT)
  }

  /** One read above the back-pressure limit, or what was there at dispatch. */
  function Bound(s: In): nat {
    Most(s.log.initial, CGI_BACKPRESSURE_LIMIT + READ_BUFFER_SIZE)
  }

  predicate InBounded(s: In) {
    && (s.chunked && !s.log.Failed() ==> Idle(s.dec))
    && (!s.log.Failed() ==> |s.pending| <= Bound(s))
    && (!s.chunked ==> s.forwarded == |s.log.accepted|)
    && (s.log.Failed() ==> BoundedAfterFailure(s))
  }

  /**
   * Stuck at a missing CRLF, the decoder never emits again. After a bad size line it may, even bytes
   * it had buffered: but pending and buffered bytes never outgrow what has been read since.
   */
  predicate BoundedAfterFailure(s: In)
    requires s.log.Failed()
  {
    var f := s.log.failure;
    && |f.before| + |f.last| <= |s.log.received|
    && if f.atCrlf then CrlfMissing(s.dec) && |s.pending| <= Bound(s) && s.log.accepted == f.accepted
       else |s.pending| + |s.dec.buf| <= Bound(s) + |s.log.received| - |f.before|
  }

  predicate InInv(s: In) {
    Accounted(s) && EndsRight(s) && InAwake(s) && InBounded(s)
  }

  // ------------------------------------------------------------ forward

  lemma SplitMultiset(data: string, k: nat)
    requires k <= |data|
    ensures multiset(data) == multiset(data[..k]) + multiset(data[k..])
  {
    assert data == data[..k] + data[k..];
  }

  lemma ForwardAccounts(s: In, data: string, room: nat)
    requires Accounted(s)
    ensures Accounted(Forward(s, data, room))
  {
    var k := Least(room, |data|);
    SplitMultiset(data, k);
    if !s.log.mixed && (k == 0 || s.pending == "") {
      WriteAndKeep(s.log.written, s.pending, data, k);
    }
  }

  lemma WriteAndKeep(written: string, pending: string, data: string, k: nat)
    requires k <= |data| && (k == 0 || pending == "")
    ensures (written + data[..k]) + (pending + data[k..]) == (written + pending) + data
  {
    assert data == data[..k] + data[k..];
  }

  /**
   * When a write goes ahead of pending bytes, the order survives exactly if what was written
   * and what was pending read the same in either order.
   */
  lemma OrderKeptExactly(s: In, data: string, room: nat)
    requires s.log.written + s.pending == s.log.accepted
    ensures var n, head := Forward(s, data, room), data[..Least(room, |data|)];
            n.log.written + n.pending == n.log.accepted <==> head + s.pending == s.pending + head
  {
    var k := Least(room, |data|);
    var w, p, head, tail := s.log.written, s.pending, data[..k], data[k..];
    assert data == head + tail;
    assert (w + head) + (p + tail) == w + ((head + p) + tail);
    assert (w + p) + (head + tail) == w + ((p + head) + tail);
    CancelAround(w, head + p, p + head, tail);
  }

  lemma CancelAround(w: string, a: string, b: string, t: string)
    requires |a| == |b|
    ensures w + (a + t) == w + (b + t) <==> a == b
  {
    if w + (a + t) == w + (b + t) {
      assert a == (w + (a + t))[|w|..|w| + |a|];
      assert b == (w + (b + t))[|w|..|w| + |b|];
    }
  }

  // -------------------------------------------------------------- moves

  lemma EndInputKeeps(s: In)
    requires Accounted(s) && InAwake(s) && InBounded(s) && s.open && !s.log.broken && BodyOver(s)
    ensures InInv(EndInput(s))
  {
    hide Accounted, Idle;
    assert Accounted(s) == Accounted(EndInput(s)) by { SameBytes(s, EndInput(s)); }
  }

  lemma SameBytes(s: In, n: In)
    requires s.pending == n.pending && s.log.written == n.log.written
    requires s.log.accepted == n.log.accepted && s.log.mixed == n.log.mixed
    ensures Accounted(s) == Accounted(n)
  {
  }

  lemma GiveUpKeeps(s: In)
    requires Accounted(s) && InAwake(s) && InBounded(s) && (s.log.ended || s.log.Failed())
    requires (!s.open && !s.log.broken ==> s.pending == "") && (s.log.broken ==> !s.open)
    ensures InInv(GiveUp(s))
  {
    hide Accounted, Idle;
    SameBytes(s, GiveUp(s));
  }

  lemma ForwardKeeps(s: In, data: string, room: nat)
    requires Accounted(s) && InAwake(s) && s.open
    requires s.chunked && !s.log.Failed() ==> Idle(s.dec)
    requires |s.pending| <= CGI_BACKPRESSURE_LIMIT && |data| <= READ_BUFFER_SIZE
    ensures var n := Forward(s, data, room);
            Accounted(n) && InAwake(n)
            && (n.chunked && !n.log.Failed() ==> Idle(n.dec))
            && |n.pending| <= CGI_BACKPRESSURE_LIMIT + READ_BUFFER_SIZE
            && |n.log.accepted| == |s.log.accepted| + |data|
            && n.log.(accepted := s.log.accepted, written := s.log.written, mixed := s.log.mixed) == s.log
  {
    hide Accounted, Idle;
    ForwardAccounts(s, data, room);
  }

  lemma AcceptRawKeeps(s: In, data: string, room: nat)
    requires InInv(s) && s.open && !s.chunked && !s.log.Failed()
    requires |s.pending| <= CGI_BACKPRESSURE_LIMIT && 0 < |data| <= READ_BUFFER_SIZE
    ensures InInv(AcceptRaw(s, data, room))
  {
    hide Accounted, Idle;
    var r := s.(log := s.log.Receiving(data));
    SameBytes(s, r);
    ForwardKeeps(r, data, room);
    var n := Forward(r, data, room).(forwarded := s.forwarded + |data|);
    SameBytes(Forward(r, data, room), n);
    if n.contentLength > 0 && n.forwarded >= n.contentLength {
      EndInputKeeps(n);
    }
  }

  lemma DoneStays(d: Decoder, data: string)
    ensures d.state.DecDone? ==> Decode(d, data).dec.state.DecDone?
  {
  }

  lemma AcceptChunkedKeeps(s: In, data: string, room: nat)
    requires InInv(s) && s.open && s.chunked && |s.pending| <= CGI_BACKPRESSURE_LIMIT && 0 < |data| <= READ_BUFFER_SIZE
    requires !s.log.Failed()
    ensures InInv(AcceptChunked(s, data, room))
  {
    hide Accounted, Idle, Drain, CrlfMissing;
    var o := Decode(s.dec, data);
    var d := s.(dec := o.dec, log := s.log.Receiving(data));
    SameBytes(s, d);
    if !o.ok {
      var f := d.(log := d.log.Failing(s.log.received, data, o.dec));
      SameBytes(s, f);
      FailureLeaves(s.dec, data);
      GiveUpKeeps(f);
    } else {
      EmissionBound(s.dec, data);
      DrainIdles(s.dec.Feed(data));
      EofMeansDone(s.dec.Feed(data));
      DoneStays(s.dec, data);
      ForwardKeeps(d, o.out, room);
      var n := if o.out == "" then d else Forward(d, o.out, room);
      if o.eof {
        EndInputKeeps(n);
      }
    }
  }

  /** A decoder that failed at a size line may emit again. */
  lemma AcceptAfterFailureKeeps(s: In, data: string, room: nat)
    requires InInv(s) && s.open && s.chunked && s.log.Failed() && s.eof
    ensures InInv(AcceptChunked(s, data, room))
  {
    hide Accounted, Idle, Drain, CrlfMissing;
    var o := Decode(s.dec, data);
    var d := s.(dec := o.dec, log := s.log.Receiving(data));
    SameBytes(s, d);
    if s.log.failure.atCrlf {
      MissingStays(s.dec, data);
    }
    DrainVolume(s.dec.Feed(data));
    if !o.ok {
      GiveUpKeeps(d);
    } else {
      ForwardAccounts(d, o.out, room);
      var n := if o.out == "" then d else Forward(d, o.out, room);
      SameBytes(n, EndInput(n));
    }
  }

  /** Decoding has failed only if the flag is up. */
  predicate FailureFlagged(s: In) {
    s.log.Failed() ==> s.eof && s.chunked
  }

  lemma AcceptKeeps(s: In, data: string, room: nat)
    requires InInv(s) && FailureFlagged(s) && s.open
    requires |s.pending| <= CGI_BACKPRESSURE_LIMIT && 0 < |data| <= READ_BUFFER_SIZE
    ensures InInv(Accept(s, data, room)) && FailureFlagged(Accept(s, data, room))
  {
    hide InInv, Drain;
    if !s.chunked {
      AcceptRawKeeps(s, data, room);
    } else if s.log.Failed() {
      AcceptAfterFailureKeeps(s, data, room);
    } else {
      AcceptChunkedKeeps(s, data, room);
    }
  }

  lemma {:induction false} ClientLoopKeeps(s: In, script: seq<ClientResult>, total: nat)
    requires InInv(s) && FailureFlagged(s) && ValidInput(script)
    ensures InInv(ClientLoop(s, script, total)) && FailureFlagged(ClientLoop(s, script, total))
    decreases |script|
  {
    hide InInv, Accept, GiveUp, FailureFlagged;
    if total >= FAIR_IO_LIMIT {
    } else if |s.pending| > CGI_BACKPRESSURE_LIMIT {
      PauseKeeps(s);
    } else if script != [] {
      match script[0]
      case NoData =>
      case ClientEnd => ClientEndKeeps(s);
      case FromClient(bytes, room) =>
        if s.open {
          AcceptKeeps(s, bytes, room);
          ClientLoopKeeps(Accept(s, bytes, room), script[1..], total + |bytes|);
        }
    }
  }

  lemma PauseKeeps(s: In)
    requires InInv(s) && FailureFlagged(s) && |s.pending| > CGI_BACKPRESSURE_LIMIT
    ensures InInv(s.(clientIn := false)) && FailureFlagged(s.(clientIn := false))
  {
    hide Accounted, Idle;
    SameBytes(s, s.(clientIn := false));
    assert s.open ==> s.stdinOut;
  }

  lemma ClientEndKeeps(s: In)
    requires InInv(s) && FailureFlagged(s)
    ensures var n := GiveUp(s.(log := s.log.(ended := true))); InInv(n) && FailureFlagged(n)
  {
    hide Accounted, Idle;
    var e := s.(log := s.log.(ended := true));
    SameBytes(s, e);
    GiveUpKeeps(e);
  }

  // -------------------------------------------------------------- flush

  lemma FlushKeeps(s: In, n: nat)
    requires Accounted(s) && n <= |s.pending|
    ensures Accounted(Flush(s, n))
  {
    SplitMultiset(s.pending, n);
    assert s.pending == s.pending[..n] + s.pending[n..];
    Assoc(s.log.written, s.pending[..n], s.pending[n..]);
  }

  /** Everything but pending bytes is as it was, and those were written from the front. */
  predicate OnlyFlushed(s: In, n: In) {
    && n == s.(pending := n.pending, log := s.log.(written := n.log.written))
    && |n.pending| <= |s.pending|
  }

  lemma {:induction false} FlushLoopKeeps(s: In, script: seq<WriteResult>, total: nat)
    requires Accounted(s)
    ensures Accounted(FlushLoop(s, script, total)) && OnlyFlushed(s, FlushLoop(s, script, total))
    decreases |script|
  {
    hide Accounted;
    if s.pending != "" && total < FAIR_IO_LIMIT && script != [] && script[0].Wrote? {
      var k := Least(script[0].n, |s.pending|);
      FlushKeeps(s, k);
      FlushLoopKeeps(Flush(s, k), script[1..], total + k);
    }
  }

  lemma AfterFlushKeeps(s: In, f: In)
    requires InInv(s) && FailureFlagged(s) && s.open && OnlyFlushed(s, f) && Accounted(f)
    ensures InInv(AfterFlush(f)) && FailureFlagged(AfterFlush(f))
  {
    hide Accounted, Idle;
    SameBytes(f, AfterFlush(f));
  }

  /** Each flush that writes anything brings the end nearer, and the last one closes stdin. */
  lemma FlushProgresses(s: In, script: seq<WriteResult>)
    requires InInv(s) && s.open && s.pending != ""
    requires script != [] && script[0].Wrote? && script[0].n > 0
    ensures var n := HandleIn(s, StdinWritable(script));
            |n.pending| < |s.pending| && (n.pending == "" && s.eof ==> !n.open)
  {
    hide InInv;
    var k := Least(script[0].n, |s.pending|);
    FlushShrinks(Flush(s, k), script[1..], k);
  }

  lemma {:induction false} FlushShrinks(s: In, script: seq<WriteResult>, total: nat)
    ensures |FlushLoop(s, script, total).pending| <= |s.pending| && FlushLoop(s, script, total).eof == s.eof
    decreases |script|
  {
    if s.pending != "" && total < FAIR_IO_LIMIT && script != [] && script[0].Wrote? {
      var k := Least(script[0].n, |s.pending|);
      if k > 0 {
        FlushShrinks(Flush(s, k), script[1..], total + k);
      }
    }
  }

  // --------------------------------------------------------------- runs

  lemma InCallKeeps(s: In, c: InCall)
    requires InInv(s) && FailureFlagged(s) && CanHappen(s, c)
    ensures InInv(HandleIn(s, c)) && FailureFlagged(HandleIn(s, c))
  {
    hide ClientLoop, FlushLoop, Accounted, Idle;
    match c
    case ClientReadable(input) => ClientLoopKeeps(s, input, 0);
    case StdinWritable(room) =>
      FlushLoopKeeps(s, room, 0);
      AfterFlushKeeps(s, FlushLoop(s, room, 0));
    case StdinBroken =>
      SameBytes(s, HandleIn(s, c));
  }

  lemma {:induction false} InRunKeeps(s: In, calls: seq<InCall>)
    requires InInv(s) && FailureFlagged(s) && IsInRun(s, calls)
    ensures InInv(AfterInRun(s, calls)) && FailureFlagged(AfterInRun(s, calls))
    decreases |calls|
  {
    hide InInv, HandleIn, FailureFlagged;
    if calls != [] {
      InCallKeeps(s, calls[0]);
      InRunKeeps(HandleIn(s, calls[0]), calls[1..]);
    }
  }

  // ----------------------------------------------------------- dispatch

  /** A request as the server hands it over: its head is read and the parser can do no more. */
  predicate HandedOver(r: Request) {
    Sound(r) && HeadersDone(r) && Settled(r)
  }

  lemma ModeIsCoding(r: Request)
    requires HandedOver(r)
    ensures r.chunked == ChunkedCoding(r.headers)
  {
  }

  lemma DispatchDecodes(r: Request)
    requires HandedOver(r) && r.chunked
    ensures var o := Decode(Handover(r), r.buffer);
            o.ok && o.out == "" && Idle(o.dec) && (o.eof <==> o.dec.state.DecDone?)
  {
    hide Drain, Run, Step;
    var d := Seeded(r);
    if r.state.Body? {
      LeftoverIsIdle(r);
      assert d.buf == r.buffer;
      DrainIdles(d);
    } else {
      CompleteHandoff(r);
      DrainIdles(d);
      if r.buffer == "" {
        DrainUnfold(d);
      } else {
        EofMeansDone(d);
      }
    }
  }

  lemma DispatchKeeps(r: Request, room: nat)
    requires HandedOver(r)
    ensures InInv(Dispatch(r, room)) && FailureFlagged(Dispatch(r, room))
  {
    hide Drain, Run, Step, Sound, Idle, Accounted, InAwake, InBounded, HandedOver, ChunkedCoding, FirstWrite;
    var cl := AtolSize(Header(r.headers, "content-length"));
    var o := if r.chunked then Decode(Handover(r), r.buffer) else Waiting(Decoder(DecSize, 0, ""), "");
    ModeIsCoding(r);
    if r.chunked {
      DispatchDecodes(r);
    }
    assert r.body + "" == r.body;
    FirstWriteKeeps(r.body + o.out, room, r.chunked, o.dec, cl);
    var s := FirstWrite(r.body + o.out, room, r.chunked, o.dec, cl);
    if BodyOver(s) {
      EndInputKeeps(s);
    }
  }

  lemma FirstWriteKeeps(body: string, room: nat, chunked: bool, dec: Decoder, cl: nat)
    requires chunked ==> Idle(dec)
    ensures var s := FirstWrite(body, room, chunked, dec, cl);
            && Accounted(s) && InAwake(s) && InBounded(s) && s.open && !s.eof
            && !s.log.Failed() && !s.log.broken && !s.log.ended
            && s.chunked == chunked && s.dec == dec && s.forwarded == |body| && s.contentLength == cl
  {
    hide Idle;
    var k := Least(room, |body|);
    SplitMultiset(body, k);
    assert body == body[..k] + body[k..];
  }

  /**
   * Safety of the input relay over every run of one exchange, from dispatch on. Nothing is lost or
   * invented on the way into the CGI; its stdin is never left open once the body is over with
   * nothing pending, nor closed with bytes left over or, but for a failure or the client's end,
   * before the body is over. The client's end and a failure end the input too, and a broken pipe
   * closes it.
   */
  lemma InputAccounting(r: Request, room: nat, calls: seq<InCall>)
    requires HandedOver(r) && IsInRun(Dispatch(r, room), calls)
    ensures var s := AfterInRun(Dispatch(r, room), calls);
            && multiset(s.log.written) + multiset(s.pending) == multiset(s.log.accepted)
            && |s.log.written| + |s.pending| == |s.log.accepted|
            && (!s.log.mixed ==> s.log.written + s.pending == s.log.accepted)
            && (s.open && s.eof ==> s.pending != "")
            && (!s.open && !s.log.broken ==> s.pending == "")
            && (s.open && !s.eof && !s.log.Failed() ==> !BodyOver(s))
            && ((s.eof || !s.open) && !s.log.broken && !s.log.Failed() && !s.log.ended ==> BodyOver(s))
            && (s.log.ended || s.log.Failed() ==> s.eof || !s.open)
            && (s.log.broken ==> !s.open)
            && (!s.chunked ==> s.forwarded == |s.log.accepted|)
  {
    hide AfterInRun, IsInRun, Dispatch, BodyOver, Idle;
    DispatchKeeps(r, room);
    InRunKeeps(Dispatch(r, room), calls);
    var s := AfterInRun(Dispatch(r, room), calls);
    assert |multiset(s.log.written) + multiset(s.pending)| == |s.log.accepted|;
  }

  /**
   * Back-pressure on the input side, and no lost wakeup, over every run. A failed decode keeps the
   * bound if it failed at a missing CRLF; at a size line, pending bytes and those the decoder still
   * holds exceed it by no more than has been read since, the failing read included.
   */
  lemma InputBackPressure(r: Request, room: nat, calls: seq<InCall>)
    requires HandedOver(r) && IsInRun(Dispatch(r, room), calls)
    ensures var s := AfterInRun(Dispatch(r, room), calls);
            && (!s.log.Failed() || s.log.failure.atCrlf ==>
                  |s.pending| <= Most(s.log.initial, CGI_BACKPRESSURE_LIMIT + READ_BUFFER_SIZE))
            && (s.log.Failed() && !s.log.failure.atCrlf ==>
                  |s.pending| + |s.dec.buf| <= Most(s.log.initial, CGI_BACKPRESSURE_LIMIT + READ_BUFFER_SIZE)
                                              + |s.log.received| - |s.log.failure.before|)
            && (s.open && !s.clientIn ==> |s.pending| >= CGI_BACKPRESSURE_LIMIT && s.stdinOut)
            && (s.open && s.pending != "" ==> s.stdinOut)
  {
    hide AfterInRun, IsInRun, Dispatch, BodyOver, Idle, Accounted;
    DispatchKeeps(r, room);
    InRunKeeps(Dispatch(r, room), calls);
  }

  // ------------------------------------------------ what the CGI is fed

  /**
   * The bytes accepted are those the whole stream decodes to, until decoding fails; then those
   * decoded before the failing read are accepted, and what that read emitted is dropped.
   */
  predicate Tracks(s: In, r: Request) {
    if !s.chunked then s.log.accepted == r.body + s.log.received
    else if s.log.Failed() then FailedFrom(s, r)
    else SameButEof(Prefixed(r.body, Decode(Seeded(r), s.log.received)), Waiting(s.dec, s.log.accepted))
  }

  predicate FailedFrom(s: In, r: Request)
    requires s.log.Failed()
  {
    var f := s.log.failure;
    && f.before + f.last <= s.log.received
    && Decode(Seeded(r), f.before).ok && !Decode(Seeded(r), f.before + f.last).ok
    && f.accepted == r.body + Decode(Seeded(r), f.before).out && f.accepted <= s.log.accepted
    && (f.atCrlf <==> Decode(Seeded(r), f.before + f.last).dec.state.DecDataCrlf?)
  }

  lemma ForwardEffect(s: In, data: string, room: nat)
    ensures var n := Forward(s, data, room);
            && n.chunked == s.chunked && n.contentLength == s.contentLength && n.clientIn == s.clientIn
            && n.dec == s.dec && n.log.received == s.log.received
            && n.log.failure == s.log.failure && n.log.initial == s.log.initial
            && n.log.broken == s.log.broken && n.log.ended == s.log.ended
            && n.log.accepted == s.log.accepted + data
  {
  }

  lemma AcceptRawEffect(s: In, data: string, room: nat)
    ensures var n := AcceptRaw(s, data, room);
            && n.chunked == s.chunked && n.contentLength == s.contentLength && n.clientIn == s.clientIn
            && n.log.received == s.log.received + data
            && n.log.initial == s.log.initial && n.log.failure == s.log.failure
            && n.log.broken == s.log.broken && n.log.ended == s.log.ended
            && n.log.accepted == s.log.accepted + data
  {
    hide Forward;
    ForwardEffect(s.(log := s.log.Receiving(data)), data, room);
  }

  lemma AcceptChunkedEffect(s: In, data: string, room: nat)
    ensures var n, o := AcceptChunked(s, data, room), Decode(s.dec, data);
            && n.chunked == s.chunked && n.contentLength == s.contentLength && n.clientIn == s.clientIn
            && n.log.received == s.log.received + data && n.dec == o.dec
            && n.log.initial == s.log.initial
            && n.log.broken == s.log.broken && n.log.ended == s.log.ended
            && n.log.accepted == s.log.accepted + (if o.ok then o.out else "")
            && n.log.failure == (if o.ok || s.log.Failed() then s.log.failure
                                 else Failure(s.log.received, data, s.log.accepted, o.dec.state.DecDataCrlf?))
  {
    hide Decode, Forward, EndInput, GiveUp;
    var o := Decode(s.dec, data);
    var d := s.(dec := o.dec, log := s.log.Receiving(data));
    if o.ok {
      ForwardEffect(d, o.out, room);
      OnlyEnded(if o.out == "" then d else Forward(d, o.out, room));
    } else {
      OnlyEnded(d.(log := d.log.Failing(s.log.received, data, o.dec)));
    }
    assert s.log.accepted + "" == s.log.accepted;
  }

  /** Ending the input changes nothing else. */
  lemma OnlyEnded(s: In)
    ensures EndInput(s) == s.(open := EndInput(s).open, eof := EndInput(s).eof)
    ensures GiveUp(s) == s.(open := GiveUp(s).open, eof := GiveUp(s).eof)
  {
  }

  lemma AcceptTracks(s: In, data: string, room: nat, r: Request)
    requires Tracks(s, r)
    ensures Tracks(Accept(s, data, room), r)
  {
    hide Decode, AcceptRaw, AcceptChunked, FailedFrom;
    if !s.chunked {
      AcceptRawEffect(s, data, room);
      Assoc(r.body, s.log.received, data);
    } else {
      AcceptChunkedEffect(s, data, room);
      if s.log.Failed() {
        FailureStays(s, AcceptChunked(s, data, room), r);
      } else {
        TracksOn(Seeded(r), r.body, s.log.received, s.dec, s.log.accepted, data);
        if !Decode(s.dec, data).ok {
          FailureTracks(s, AcceptChunked(s, data, room), data, r);
        }
      }
    }
  }

  lemma FailureStays(s: In, n: In, r: Request)
    requires s.log.Failed() && FailedFrom(s, r)
    requires n.log.failure == s.log.failure && s.log.received <= n.log.received && s.log.accepted <= n.log.accepted
    ensures FailedFrom(n, r)
  {
    hide Decode;
  }

  lemma FailureTracks(s: In, n: In, data: string, r: Request)
    requires SameButEof(Prefixed(r.body, Decode(Seeded(r), s.log.received)), Waiting(s.dec, s.log.accepted))
    requires !Decode(s.dec, data).ok
    requires n.log.failure == Failure(s.log.received, data, s.log.accepted, Decode(s.dec, data).dec.state.DecDataCrlf?)
    requires n.log.received == s.log.received + data && s.log.accepted <= n.log.accepted
    ensures FailedFrom(n, r)
  {
    hide Decode;
    DecodeSplit(Seeded(r), s.log.received, data);
  }

  lemma TracksOn(seed: Decoder, body: string, received: string, d: Decoder, accepted: string, data: string)
    requires SameButEof(Prefixed(body, Decode(seed, received)), Waiting(d, accepted))
    ensures Decode(seed, received + data).ok == Decode(d, data).ok
    ensures Decode(d, data).ok ==>
              SameButEof(Prefixed(body, Decode(seed, received + data)),
                         Waiting(Decode(d, data).dec, accepted + Decode(d, data).out))
  {
    hide Drain;
    DecodeSplit(seed, received, data);
    Assoc(body, Decode(seed, received).out, Decode(d, data).out);
  }

  /** Read all at once, the stream fails where it failed in pieces, whatever has come since. */
  lemma StillFails(s: In, r: Request)
    requires s.log.Failed() && FailedFrom(s, r)
    ensures var f, o := s.log.failure, Decode(Seeded(r), s.log.received);
            !o.ok && o.out == Decode(Seeded(r), f.before).out + Decode(Decode(Seeded(r), f.before).dec, f.last).out
  {
    hide Drain;
    var f := s.log.failure;
    var rest := s.log.received[|f.before + f.last|..];
    DecodeSplit(Seeded(r), f.before, f.last);
    FailureFeeds(Seeded(r).Feed(f.before + f.last), rest);
    assert s.log.received == (f.before + f.last) + rest;
    assert Seeded(r).Feed(f.before + f.last).Feed(rest) == Seeded(r).Feed(s.log.received);
  }

  lemma {:induction false} ClientLoopTracks(s: In, script: seq<ClientResult>, total: nat, r: Request)
    requires Tracks(s, r)
    ensures Tracks(ClientLoop(s, script, total), r)
    decreases |script|
  {
    hide Accept, Drain;
    if total < FAIR_IO_LIMIT && |s.pending| <= CGI_BACKPRESSURE_LIMIT && script != [] && script[0].FromClient? && s.open {
      AcceptTracks(s, script[0].bytes, script[0].room, r);
      ClientLoopTracks(Accept(s, script[0].bytes, script[0].room), script[1..], total + |script[0].bytes|, r);
    }
  }

  lemma {:induction false} InRunTracks(s: In, calls: seq<InCall>, r: Request)
    requires Tracks(s, r) && Accounted(s)
    requires IsInRun(s, calls) && InInv(s) && FailureFlagged(s)
    ensures Tracks(AfterInRun(s, calls), r)
    decreases |calls|
  {
    hide Drain, ClientLoop, FlushLoop, InInv, Accounted, FailureFlagged;
    if calls != [] {
      var c := calls[0];
      InCallKeeps(s, c);
      AccountedPart(HandleIn(s, c));
      if c.ClientReadable? {
        ClientLoopTracks(s, c.input, 0, r);
      } else if c.StdinWritable? {
        FlushLoopKeeps(s, c.room, 0);
      }
      InRunTracks(HandleIn(s, c), calls[1..], r);
    }
  }

  lemma AccountedPart(s: In)
    requires InInv(s)
    ensures Accounted(s)
  {
  }

  lemma DispatchTracks(r: Request, room: nat)
    requires HandedOver(r)
    ensures Tracks(Dispatch(r, room), r) && Dispatch(r, room).chunked == r.chunked && Dispatch(r, room).log.received == ""
  {
    hide Drain, Run, Step, Sound;
    ModeIsCoding(r);
    assert Seeded(r).Feed("") == Seeded(r);
    assert r.body + "" == r.body;
    if r.chunked {
      DispatchDecodes(r);
    }
  }

  /** The request with its body limit lifted: after dispatch nothing applies the limit any more. */
  function Unlimited(r: Request): Request {
    r.(maxBodySize := 0)
  }

  lemma {:induction false} NeverTooLarge(r: Request)
    requires r.maxBodySize == 0 && !r.bodyTooLarge && r.state.Body? && r.chunked
    ensures !Run(r).bodyTooLarge
    decreases |r.buffer|, Rank(r)
  {
    hide ChunkedBody;
    if Step(r).Goto? {
      StepShrinks(r);
      ChunkedFrame(r);
      StepNotTooLarge(r);
      if !Step(r).next.Terminal() {
        NeverTooLarge(Step(r).next);
      }
    }
  }

  lemma StepNotTooLarge(r: Request)
    requires r.maxBodySize == 0 && !r.bodyTooLarge && r.state.Body? && ChunkedBody(r).Goto?
    ensures !ChunkedBody(r).next.bodyTooLarge
  {
  }

  /**
   * End to end, for a request handed over in the middle of its body. Let `p` be what the parser
   * would have made of the same bytes without a body limit. In chunked mode, as long as the size
   * lines are ones both decoders treat alike: decoding has failed exactly when `p` has; if not, the
   * CGI has been given exactly `p`'s body, and its stdin is done with exactly when `p` is complete
   * or the client or the pipe has gone. In Content-Length mode its stdin is done with just then too,
   * but it has been given all bytes received, in the read that ended the body and in later ones:
   * just `p`'s body if and only if none came after it.
   */
  lemma CgiIsFedTheBody(r: Request, room: nat, calls: seq<InCall>)
    requires HandedOver(r) && r.state.Body? && IsInRun(Dispatch(r, room), calls)
    ensures var s := AfterInRun(Dispatch(r, room), calls);
            var p := Parse(Unlimited(r), s.log.received);
            if r.chunked then
              SizesAgree(Unlimited(r).Feed(s.log.received)) ==>
                && (s.log.Failed() <==> p.state.Error?)
                && (!s.log.Failed() ==>
                      && s.log.accepted == p.body
                      && (s.open && !s.eof ==> !p.state.Complete?)
                      && ((s.eof || !s.open) && !s.log.broken && !s.log.ended ==> p.state.Complete?))
            else
              && s.log.accepted == p.body + p.buffer && (s.log.accepted == p.body <==> p.buffer == "")
              && !p.state.Error?
              && (s.open && !s.eof ==> !p.state.Complete?)
              && ((s.eof || !s.open) && !s.log.broken && !s.log.ended ==> p.state.Complete?)
  {
    hide Run, Step, Dispatch, AfterInRun, IsInRun, SizesAgree, InInv, Sound, Tracks, FailureFlagged;
    RunFacts(r, room, calls);
    StateIsFed(AfterInRun(Dispatch(r, room), calls), r);
  }

  /** What every run keeps, in one place. */
  lemma RunFacts(r: Request, room: nat, calls: seq<InCall>)
    requires HandedOver(r) && IsInRun(Dispatch(r, room), calls)
    ensures var s := AfterInRun(Dispatch(r, room), calls);
            && InInv(s) && FailureFlagged(s) && Tracks(s, r) && s.chunked == r.chunked
            && s.contentLength == Announced(r) && s.log.initial == |r.body|
  {
    hide Drain, Run, Step, AfterInRun, IsInRun, InInv, Sound, Tracks, FailureFlagged, HandedOver, Dispatch;
    DispatchKeeps(r, room);
    DispatchTracks(r, room);
    DispatchInitial(r, room);
    AccountedPart(Dispatch(r, room));
    InRunKeeps(Dispatch(r, room), calls);
    InRunTracks(Dispatch(r, room), calls, r);
    ModeStays(Dispatch(r, room), calls);
  }

  /** The length a request announces. */
  function Announced(r: Request): nat {
    AtolSize(Header(r.headers, "content-length"))
  }

  /** The same of any state that keeps the invariant. */
  lemma StateIsFed(s: In, r: Request)
    requires HandedOver(r) && r.state.Body? && InInv(s) && FailureFlagged(s) && Tracks(s, r)
    requires s.chunked == r.chunked && s.contentLength == Announced(r)
    ensures var p := Parse(Unlimited(r), s.log.received);
            if r.chunked then
              SizesAgree(Unlimited(r).Feed(s.log.received)) ==>
                && (s.log.Failed() <==> p.state.Error?)
                && (!s.log.Failed() ==>
                      && s.log.accepted == p.body
                      && (s.open && !s.eof ==> !p.state.Complete?)
                      && ((s.eof || !s.open) && !s.log.broken && !s.log.ended ==> p.state.Complete?))
            else
              && s.log.accepted == p.body + p.buffer && (s.log.accepted == p.body <==> p.buffer == "")
              && !p.state.Error?
              && (s.open && !s.eof ==> !p.state.Complete?)
              && ((s.eof || !s.open) && !s.log.broken && !s.log.ended ==> p.state.Complete?)
  {
    hide Drain, Run, Step, SizesAgree, Accounted, Sound, Idle;
    SoundReading(r);
    var u := Unlimited(r).Feed(s.log.received);
    if r.chunked {
      NeverTooLarge(u);
      if SizesAgree(u) {
        HandoffExact(u);
        assert Seeded(r).Feed(s.log.received) == Seeded(u);
        if s.log.Failed() {
          StillFails(s, r);
        }
      }
    } else {
      FixedBodyConserves(u);
      assert r.body + (r.buffer + s.log.received) == r.body + s.log.received;
      FixedDone(r, s.log.received);
      assert Run(u).buffer == "" ==> Run(u).body + Run(u).buffer == Run(u).body;
    }
  }

  lemma UnlimitedSound(r: Request, data: string)
    requires HandedOver(r) && r.state.Body?
    ensures Sound(Unlimited(r).Feed(data))
  {
    hide Settled;
  }

  /** A Content-Length body is complete exactly when as many bytes as announced have come. */
  lemma FixedDone(r: Request, data: string)
    requires HandedOver(r) && r.state.Body? && !r.chunked
    ensures var p := Parse(Unlimited(r), data);
            !p.state.Error? && (p.state.Complete? <==> |p.body| + |p.buffer| >= Announced(r))
  {
    hide Run, Step, Sound;
    var u := Unlimited(r).Feed(data);
    UnlimitedSound(r, data);
    RunSound(u);
    RunSettles(u);
    FixedBodyConserves(u);
    FixedNeverFails(u);
    FixedSettled(Run(u));
  }

  lemma FixedNeverFails(r: Request)
    requires r.state.Body? && !r.chunked && r.maxBodySize == 0
    ensures Run(r).state.Body? || Run(r).state.Complete?
  {
  }

  lemma FixedSettled(p: Request)
    requires Sound(p) && Settled(p) && HeadersDone(p) && !p.chunked && p.maxBodySize == 0
    ensures p.state.Complete? <==> |p.body| + |p.buffer| >= AtolSize(Header(p.headers, "content-length"))
  {
    hide Run;
    assert AtolSize("") == 0;
  }

  /**
   * When decoding fails, what the CGI was given depends on how the stream was cut. It has the bytes
   * decoded from the reads before the failing one; those the failing read itself decoded before the
   * bad byte are dropped. So it has all of the body that `p` has, the parser's own failed parse,
   * if and only if the failing read decoded nothing. Nothing is added later if the failure was at a
   * missing CRLF.
   */
  lemma FailureDropsLastRead(r: Request, room: nat, calls: seq<InCall>)
    requires HandedOver(r) && r.state.Body? && r.chunked && IsInRun(Dispatch(r, room), calls)
    requires AfterInRun(Dispatch(r, room), calls).log.Failed()
    ensures var s := AfterInRun(Dispatch(r, room), calls);
            var f, p := s.log.failure, Parse(Unlimited(r), s.log.received);
            var dropped := Decode(Decode(Seeded(r), f.before).dec, f.last);
            && f.before + f.last <= s.log.received && !dropped.ok
            && f.accepted == r.body + Decode(Seeded(r), f.before).out && f.accepted <= s.log.accepted
            && (f.atCrlf ==> s.log.accepted == f.accepted)
            && (SizesAgree(Unlimited(r).Feed(s.log.received)) ==>
                  p.state.Error? && p.body == f.accepted + dropped.out)
  {
    hide Drain, Run, Step, Dispatch, AfterInRun, IsInRun, SizesAgree, Accounted, Sound, Idle, CrlfMissing;
    var s := AfterInRun(Dispatch(r, room), calls);
    var f, u := s.log.failure, Unlimited(r).Feed(s.log.received);
    RunFacts(r, room, calls);
    SoundReading(r);
    NeverTooLarge(u);
    StillFails(s, r);
    DecodeSplit(Seeded(r), f.before, f.last);
    if SizesAgree(u) {
      HandoffExact(u);
      assert Seeded(r).Feed(s.log.received) == Seeded(u);
      Assoc(r.body, Decode(Seeded(r), f.before).out, Decode(Decode(Seeded(r), f.before).dec, f.last).out);
    }
  }

  lemma SoundReading(r: Request)
    requires HandedOver(r) && r.state.Body?
    ensures if r.chunked then ReadingChunks(r) && !r.bodyTooLarge else r.buffer == ""
  {
  }

  /** The mode, the length announced and the volume at dispatch are settled once. */
  predicate SameMode(s: In, n: In) {
    n.chunked == s.chunked && n.contentLength == s.contentLength && n.log.initial == s.log.initial
  }

  lemma {:induction false} ModeStays(s: In, calls: seq<InCall>)
    ensures SameMode(s, AfterInRun(s, calls))
    decreases |calls|
  {
    hide ClientLoop, FlushLoop, Drain;
    if calls != [] {
      match calls[0] {
        case ClientReadable(input) => LoopModeStays(s, input, 0);
        case StdinWritable(room) => FlushModeStays(s, room, 0);
        case StdinBroken =>
      }
      ModeStays(HandleIn(s, calls[0]), calls[1..]);
    }
  }

  lemma {:induction false} LoopModeStays(s: In, script: seq<ClientResult>, total: nat)
    ensures var n := ClientLoop(s, script, total); SameMode(s, n)
    decreases |script|
  {
    hide Accept, Ends;
    if total < FAIR_IO_LIMIT && |s.pending| <= CGI_BACKPRESSURE_LIMIT && script != [] && script[0].FromClient? && s.open {
      AcceptBasics(s, script[0].bytes, script[0].room);
      LoopModeStays(Accept(s, script[0].bytes, script[0].room), script[1..], total + |script[0].bytes|);
    }
  }

  lemma AcceptBasics(s: In, data: string, room: nat)
    ensures var n := Accept(s, data, room);
            && n.chunked == s.chunked && n.contentLength == s.contentLength && n.clientIn == s.clientIn
            && n.log.initial == s.log.initial && n.log.received == s.log.received + data
            && n.log.broken == s.log.broken && n.log.ended == s.log.ended
  {
    hide AcceptRaw, AcceptChunked;
    if s.chunked {
      AcceptChunkedEffect(s, data, room);
    } else {
      AcceptRawEffect(s, data, room);
    }
  }

  lemma {:induction false} FlushModeStays(s: In, script: seq<WriteResult>, total: nat)
    ensures var n := FlushLoop(s, script, total); SameMode(s, n)
    decreases |script|
  {
    if s.pending != "" && total < FAIR_IO_LIMIT && script != [] && script[0].Wrote? {
      var k := Least(script[0].n, |s.pending|);
      if k > 0 {
        FlushModeStays(Flush(s, k), script[1..], total + k);
      }
    }
  }

  /** A call on the client pauses it only with more pending than the limit. */
  lemma {:induction false} PausesAbove(s: In, script: seq<ClientResult>, total: nat)
    requires s.clientIn
    ensures var n := ClientLoop(s, script, total); n.clientIn || |n.pending| > CGI_BACKPRESSURE_LIMIT
    decreases |script|
  {
    hide Accept, Ends;
    if total < FAIR_IO_LIMIT && |s.pending| <= CGI_BACKPRESSURE_LIMIT && script != [] && script[0].FromClient? && s.open {
      AcceptBasics(s, script[0].bytes, script[0].room);
      PausesAbove(Accept(s, script[0].bytes, script[0].room), script[1..], total + |script[0].bytes|);
    }
  }

  /** And it polls the pipe for writing only if it leaves more pending than it found. */
  lemma {:induction false} WakesOnlyForMore(s: In, script: seq<ClientResult>, total: nat)
    ensures var n := ClientLoop(s, script, total);
            |s.pending| <= |n.pending| && (n.stdinOut <==> s.stdinOut || |n.pending| > |s.pending|)
    decreases |script|
  {
    hide Accept, Ends;
    if total < FAIR_IO_LIMIT && |s.pending| <= CGI_BACKPRESSURE_LIMIT && script != [] && script[0].FromClient? && s.open {
      AcceptWakes(s, script[0].bytes, script[0].room);
      WakesOnlyForMore(Accept(s, script[0].bytes, script[0].room), script[1..], total + |script[0].bytes|);
    }
  }

  lemma AcceptWakes(s: In, data: string, room: nat)
    ensures var n := Accept(s, data, room);
            |s.pending| <= |n.pending| && (n.stdinOut <==> s.stdinOut || |n.pending| > |s.pending|)
  {
    hide Decode, Forward;
    var r := s.(log := s.log.Receiving(data));
    var o := Decode(s.dec, data);
    ForwardWakes(r, data, room);
    ForwardWakes(r.(dec := o.dec), o.out, room);
  }

  lemma ForwardWakes(s: In, data: string, room: nat)
    ensures var n := Forward(s, data, room);
            |s.pending| <= |n.pending| && (n.stdinOut <==> s.stdinOut || |n.pending| > |s.pending|)
  {
  }

  /**
   * A flush that leaves stdin open resumes the client exactly below the limit, and goes on polling
   * the pipe exactly while bytes are pending; it closes stdin exactly if the end is flagged and
   * nothing is.
   */
  lemma FlushDecides(s: In, room: seq<WriteResult>)
    requires s.open && Accounted(s)
    ensures var n := HandleIn(s, StdinWritable(room));
            && (!n.open <==> s.eof && n.pending == "")
            && (n.open ==> (n.clientIn <==> s.clientIn || |n.pending| < CGI_BACKPRESSURE_LIMIT)
                           && (n.stdinOut <==> s.stdinOut && n.pending != ""))
  {
    hide FlushLoop, Accounted;
    FlushLoopKeeps(s, room, 0);
  }

  function AllSent(script: seq<ClientResult>): string {
    if script == [] then "" else (if script[0].FromClient? then script[0].bytes else "") + AllSent(script[1..])
  }

  /** A call reads on: it takes all there is unless it has had its share, must pause or has seen the end. */
  lemma {:induction false} TakesOn(s: In, script: seq<ClientResult>, total: nat)
    requires s.open && !s.eof && forall i :: 0 <= i < |script| ==> script[i].FromClient?
    ensures var n := ClientLoop(s, script, total);
            && |s.log.received| <= |n.log.received|
            && (n.log.received == s.log.received + AllSent(script) || |n.pending| > CGI_BACKPRESSURE_LIMIT
                || n.eof || !n.open || |n.log.received| - |s.log.received| + total >= FAIR_IO_LIMIT)
    decreases |script|
  {
    hide Accept, Ends;
    if script == [] {
      assert s.log.received + "" == s.log.received;
    } else if total < FAIR_IO_LIMIT && |s.pending| <= CGI_BACKPRESSURE_LIMIT {
      var data, room := script[0].bytes, script[0].room;
      AcceptBasics(s, data, room);
      Assoc(s.log.received, data, AllSent(script[1..]));
      if Ends(s, data) {
        EndsEnd(s, data, room);
      } else {
        OpenUnlessEnds(s, data, room);
        TakesOn(Accept(s, data, room), script[1..], total + |data|);
      }
    }
  }

  lemma EndsEnd(s: In, data: string, room: nat)
    requires Ends(s, data)
    ensures Accept(s, data, room).eof || !Accept(s, data, room).open
  {
    hide Decode;
  }

  function AllRoom(script: seq<WriteResult>): nat {
    if script == [] then 0 else (if script[0].Wrote? then script[0].n else 0) + AllRoom(script[1..])
  }

  /** And writes on, until nothing is pending, it has had its share or the pipe takes no more. */
  lemma {:induction false} WritesOn(s: In, script: seq<WriteResult>, total: nat)
    requires forall i :: 0 <= i < |script| ==> script[i].Wrote? && script[i].n > 0
    ensures var n := FlushLoop(s, script, total);
            && |s.log.written| <= |n.log.written|
            && (n.pending == "" || |n.log.written| - |s.log.written| == AllRoom(script)
                || |n.log.written| - |s.log.written| + total >= FAIR_IO_LIMIT)
    decreases |script|
  {
    if total < FAIR_IO_LIMIT && s.pending != "" && script != [] {
      var k := Least(script[0].n, |s.pending|);
      WritesOn(Flush(s, k), script[1..], total + k);
    }
  }

  /** If no single write takes more than `most`, one call writes less than the fair share plus that. */
  lemma {:induction false} FairWriting(s: In, script: seq<WriteResult>, total: nat, most: nat)
    requires forall i :: 0 <= i < |script| && script[i].Wrote? ==> script[i].n <= most
    requires most > 0
    ensures var n := FlushLoop(s, script, total).log.written;
            |s.log.written| <= |n| && (total < FAIR_IO_LIMIT ==> |n| - |s.log.written| + total < FAIR_IO_LIMIT + most)
            && (total >= FAIR_IO_LIMIT ==> |n| == |s.log.written|)
    decreases |script|
  {
    if s.pending != "" && total < FAIR_IO_LIMIT && script != [] && script[0].Wrote? {
      var k := Least(script[0].n, |s.pending|);
      if k > 0 {
        FairWriting(Flush(s, k), script[1..], total + k, most);
      }
    }
  }

  /** The read that ends the input is the last of its call: what the socket still holds is left there. */
  lemma {:induction false} EndStopsReading(s: In, script: seq<ClientResult>, more: seq<ClientResult>, total: nat)
    requires s.open && !s.eof
    requires var n := ClientLoop(s, script, total); n.eof || !n.open
    ensures ClientLoop(s, script + more, total) == ClientLoop(s, script, total)
    decreases |script|
  {
    hide Accept, Ends, GiveUp;
    if total < FAIR_IO_LIMIT && |s.pending| <= CGI_BACKPRESSURE_LIMIT && script != [] {
      assert (script + more)[0] == script[0] && (script + more)[1..] == script[1..] + more;
      if script[0].FromClient? && !Ends(s, script[0].bytes) {
        OpenUnlessEnds(s, script[0].bytes, script[0].room);
        EndStopsReading(Accept(s, script[0].bytes, script[0].room), script[1..], more, total + |script[0].bytes|);
      }
    }
  }

  lemma OpenUnlessEnds(s: In, data: string, room: nat)
    requires s.open && !s.eof && !Ends(s, data)
    ensures Accept(s, data, room).open && !Accept(s, data, room).eof
  {
    hide Decode;
  }

  /** One call takes less from the client than the fair share plus one buffer. */
  lemma {:induction false} FairTaking(s: In, script: seq<ClientResult>, total: nat)
    requires ValidInput(script)
    ensures var n := ClientLoop(s, script, total).log.received;
            |s.log.received| <= |n|
            && (total < FAIR_IO_LIMIT ==> |n| - |s.log.received| + total < FAIR_IO_LIMIT + READ_BUFFER_SIZE)
            && (total >= FAIR_IO_LIMIT ==> |n| == |s.log.received|)
    decreases |script|
  {
    hide Accept, Ends;
    if total < FAIR_IO_LIMIT && script != [] && script[0].FromClient? {
      AcceptBasics(s, script[0].bytes, script[0].room);
      FairTaking(Accept(s, script[0].bytes, script[0].room), script[1..], total + |script[0].bytes|);
    }
  }

  // ------------------------------------------------- at the first read

  /**
   * A request is handed over on the read that completes its head, so what it brings is less than
   * one read; then no run of the exchange keeps more than the limit and one read pending, and what
   * was read since a bad size line.
   */
  lemma InputMemory(limit: nat, before: string, last: string, room: nat, calls: seq<InCall>)
    requires !Contains(before, CRLFCRLF) && Contains(before + last, CRLFCRLF) && |last| <= READ_BUFFER_SIZE
    requires !Parse(Fresh(limit), before + last).state.Error?
    requires IsInRun(Dispatch(Parse(Fresh(limit), before + last), room), calls)
    ensures HandedOver(Parse(Fresh(limit), before + last))
    ensures var s := AfterInRun(Dispatch(Parse(Fresh(limit), before + last), room), calls);
            && (!s.log.Failed() || s.log.failure.atCrlf ==> |s.pending| <= CGI_BACKPRESSURE_LIMIT + READ_BUFFER_SIZE)
            && (s.log.Failed() && !s.log.failure.atCrlf ==>
                  |s.pending| + |s.dec.buf| <= CGI_BACKPRESSURE_LIMIT + READ_BUFFER_SIZE
                                              + |s.log.received| - |s.log.failure.before|)
  {
    hide Run, Step, Drain, AfterInRun, IsInRun, InInv, Idle, Dispatch;
    var r := Parse(Fresh(limit), before + last);
    RunSettles(Fresh(limit).Feed(before + last));
    RunSound(Fresh(limit).Feed(before + last));
    NeverInHead(limit, before + last);
    DispatchVolume(limit, before, last);
    InputBackPressure(r, room, calls);
    RunFacts(r, room, calls);
  }

  lemma DispatchInitial(r: Request, room: nat)
    requires HandedOver(r)
    ensures var s := Dispatch(r, room);
            s.log.initial == |r.body| && s.contentLength == Announced(r) && s.chunked == r.chunked && s.log.received == ""
  {
    hide Run, Step, Drain, Sound, Idle;
    ModeIsCoding(r);
    assert r.body + "" == r.body;
    if r.chunked {
      DispatchDecodes(r);
    }
  }

  // ------------------------------------------------------ what fails

  /**
   * A chunked request that is complete when it is handed over, over every run: the CGI is given its
   * body and no more, and unless the client or the pipe goes, its input is ended if and only if a
   * blank line follows the request in what was left in the buffer and has been read since.
   */
  lemma CompleteDispatchEnds(r: Request, room: nat, calls: seq<InCall>)
    requires HandedOver(r) && r.state.Complete? && r.chunked && IsInRun(Dispatch(r, room), calls)
    ensures var s := AfterInRun(Dispatch(r, room), calls);
            && !s.log.Failed() && s.log.accepted == r.body
            && (!s.log.broken && !s.log.ended ==>
                  ((s.eof || !s.open) <==> BlankLine(r.buffer + s.log.received).Open?))
  {
    hide Run, Step, Dispatch, AfterInRun, IsInRun, Accounted, BlankLine, Idle, HandedOver;
    RunFacts(r, room, calls);
    CompleteState(AfterInRun(Dispatch(r, room), calls), r);
  }

  /** The same of any state that keeps the invariant. */
  lemma CompleteState(s: In, r: Request)
    requires HandedOver(r) && r.state.Complete? && r.chunked && Tracks(s, r) && s.chunked
    ensures !s.log.Failed() && s.log.accepted == r.body
    ensures BodyOver(s) <==> BlankLine(r.buffer + s.log.received).Open?
  {
    hide Drain, Run, Step, BlankLine, Idle;
    var d := Seeded(r).Feed(s.log.received);
    CompleteSeed(r);
    TrailersNotFailed(s, r);
    DecTrailersNeverFail(d);
    TrailersDone(d);
    assert r.body + "" == r.body;
  }

  /**
   * A Content-Length request, or one without a body, that is complete when it is handed over, over
   * every run: the CGI is given its body, the input is ended at once and closed when nothing is
   * pending. Bytes left behind the body in the parser's buffer are dropped; those of later reads are
   * given to the CGI as well, as long as stdin waits for the pipe.
   */
  lemma CompleteFixedDispatch(r: Request, room: nat, calls: seq<InCall>)
    requires HandedOver(r) && r.state.Complete? && !r.chunked && IsInRun(Dispatch(r, room), calls)
    ensures var s := AfterInRun(Dispatch(r, room), calls);
            && !s.log.Failed() && s.log.accepted == r.body + s.log.received
            && (s.eof || !s.open) && (!s.open && !s.log.broken ==> s.pending == "")
            && (s.open ==> s.pending != "" && s.stdinOut)
  {
    hide Run, Step, Dispatch, AfterInRun, IsInRun, Accounted, Sound, HandedOver;
    RunFacts(r, room, calls);
    CompleteFixedLength(r);
  }

  lemma CompleteFixedLength(r: Request)
    requires HandedOver(r) && r.state.Complete? && !r.chunked
    ensures |r.body| >= Announced(r)
  {
    hide Settled;
    assert AtolSize("") == 0;
  }

  lemma CompleteSeed(r: Request)
    requires HandedOver(r) && r.state.Complete? && r.chunked
    ensures Seeded(r).state.DecTrailers?
  {
    hide Settled;
  }

  lemma TrailersNotFailed(s: In, r: Request)
    requires Tracks(s, r) && s.chunked && Seeded(r).state.DecTrailers?
    ensures !s.log.Failed()
  {
    hide Drain;
    if s.log.Failed() {
      DecTrailersNeverFail(Seeded(r).Feed(s.log.failure.before + s.log.failure.last));
    }
  }

  lemma TrailersDone(d: Decoder)
    requires d.state.DecTrailers?
    ensures Drain(d).dec.state.DecDone? <==> BlankLine(d.buf).Open?
  {
    hide BlankLine;
    TrailersWaitForBlank(d);
    DecTrailersNeverFail(d);
    if d.buf != "" {
      EofMeansDone(d);
    }
  }

  /** Order is not kept in general: a read can overtake bytes still pending from before it. */
  lemma OrderCanBeLost(r: Request)
    requires HandedOver(r) && r.state.Body? && !r.chunked && r.body == "a" && Header(r.headers, "content-length") == "3"
    ensures var call := ClientReadable([FromClient("b", 1)]);
            var s := AfterInRun(Dispatch(r, 0), [call]);
            IsInRun(Dispatch(r, 0), [call]) && s.log.accepted == "ab" && s.log.written == "b" && s.pending == "a"
  {
  }
}
