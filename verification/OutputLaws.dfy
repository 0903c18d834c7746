/** What every run of the output relay keeps, and that every run can be finished. */
module OutputLaws {
  import opened Bytes
  import opened OutputSpec

  // ---------------------------------------------------------- invariant

  /** Conservation: nothing lost, repeated or reordered between the CGI and the client. */
  predicate Conserved(s: Out, page: string) {
    var raw := s.log.read;
    var i := Find(raw, CRLFCRLF);
    if s.headersSent then i >= 0 && s.log.sent + s.pending == HttpHeader(raw[..i]) + raw[i + 4..]
    else
      && i < 0 && s.cgiOutput == raw && s.pending == ""
      && if s.active then s.log.sent == ""
         else s.response == LateReply(raw, page) && s.offset <= |s.response| && s.log.sent == s.response[..s.offset]
  }

  /** No lost wakeup: whatever the exchange waits for, its event is being polled. */
  predicate Awake(s: Out) {
    && (s.active && !s.stdoutIn ==> |s.pending| >= CGI_BACKPRESSURE_LIMIT)
    && (s.pending != "" ==> s.clientOut)
    && (!s.active ==> s.clientOut)
  }

  function Most(a: nat, b: nat): nat {
    if a < b then b else a
  }

  /** Bounded buffering, up to what was read on hang-up while POLLIN was off. */
  predicate Bounded(s: Out) {
    && |s.pending| <= Most(s.log.atHeader, CGI_BACKPRESSURE_LIMIT + READ_BUFFER_SIZE) + s.log.offPoll
    && (s.active && s.stdoutIn ==> |s.pending| <= CGI_BACKPRESSURE_LIMIT)
  }

  /**
   * Stdout is polled only while the CGI is active; a reply exists only once it is all there is to
   * send, and then some of it is unsent.
   */
  predicate Tidy(s: Out) {
    && (!s.active ==> !s.stdoutIn)
    && if s.active || s.headersSent then s.response == "" && s.offset == 0
    else (s.gone && !s.log.aborted) || s.offset < |s.response|
  }

  predicate OutInv(s: Out, page: string) {
    && Tidy(s)
    && Conserved(s, page) && Bounded(s)
    && (!s.gone ==> Awake(s) && !s.log.aborted)
    && (s.gone && !s.log.aborted ==> !s.active && s.log.sent == Expected(s.log.read, page))
  }

  lemma StartedInv(page: string)
    ensures OutInv(STARTED, page)
  {
    FindAbsent("", CRLFCRLF);
  }

  lemma {:induction false} ReceiveKeeps(s: Out, data: string, page: string)
    requires OutInv(s, page) && !s.gone && s.active && 0 < |data| <= READ_BUFFER_SIZE
    ensures var n := Throttle(Receive(s, data)); OutInv(n, page) && !n.gone && n.active
  {
    hide HttpHeader, LateReply, Conserved;
    ReceiveConserves(s, data, page);
    ReceiveShape(s, data, page);
    ThrottleConserves(Receive(s, data), page);
  }

  lemma ThrottleConserves(s: Out, page: string)
    ensures Conserved(Throttle(s), page) == Conserved(s, page)
  {
    hide HttpHeader, LateReply, Find;
  }

  /** A read only adds to what is pending; if it does not build the header, it adds no more than it read. */
  lemma ReceiveShape(s: Out, data: string, page: string)
    requires Conserved(s, page) && s.active
    ensures var n := Receive(s, data);
            && n.active == s.active && n.gone == s.gone && n.stdoutIn == s.stdoutIn
            && n.response == s.response && n.offset == s.offset && n.log.aborted == s.log.aborted
            && n.log.offPoll == s.log.offPoll + (if s.stdoutIn then 0 else |data|)
            && (n.pending != "" ==> n.clientOut)
            && (if n.headersSent && !s.headersSent then |n.pending| == n.log.atHeader && s.pending == ""
                else |s.pending| <= |n.pending| <= |s.pending| + |data| && n.log.atHeader == s.log.atHeader
                     && (s.headersSent ==> |n.pending| == |s.pending| + |data|))
  {
    hide HttpHeader, LateReply;
  }

  lemma ReceiveConserves(s: Out, data: string, page: string)
    requires Conserved(s, page) && s.active
    ensures Conserved(Receive(s, data), page)
  {
    hide HttpHeader, LateReply;
    if s.headersSent {
      StreamConserves(s, data, page);
    } else {
      HeaderConserves(s, data, page);
    }
  }

  lemma StreamConserves(s: Out, data: string, page: string)
    requires Conserved(s, page) && s.headersSent
    ensures Conserved(Receive(s, data), page)
  {
    hide HttpHeader, LateReply;
    var raw := s.log.read;
    var i := Find(raw, CRLFCRLF);
    FindExtends(raw, data, CRLFCRLF);
    CutFirst(raw, data, i);
    CutFirst(raw, data, i + 4);
    Assoc(s.log.sent, s.pending, data);
    Assoc(HttpHeader(raw[..i]), raw[i + 4..], data);
  }

  lemma HeaderConserves(s: Out, data: string, page: string)
    requires Conserved(s, page) && s.active && !s.headersSent
    ensures Conserved(Receive(s, data), page)
  {
    hide HttpHeader, LateReply;
    var raw := s.cgiOutput + data;
    var i := Find(raw, CRLFCRLF);
    if i >= 0 {
      EmptyInFront(HttpHeader(raw[..i]), raw[i + 4..]);
    }
  }

  lemma EmptyInFront(h: string, t: string)
    ensures "" + ("" + h + t) == h + t
  {
  }

  lemma FinalizeKeeps(s: Out, page: string)
    requires OutInv(s, page) && !s.gone && s.active
    ensures OutInv(Finalize(s, page), page)
  {
    hide HttpHeader;
  }

  lemma DeliverKeeps(s: Out, n: nat, page: string)
    requires OutInv(s, page) && !s.gone && n <= |s.pending| && s.headersSent
    ensures OutInv(Deliver(s, n), page)
  {
    hide HttpHeader, LateReply;
    assert s.pending == s.pending[..n] + s.pending[n..];
    Assoc(s.log.sent, s.pending[..n], s.pending[n..]);
  }

  lemma RestKeeps(s: Out, page: string)
    requires OutInv(s, page) && !s.gone && s.pending == "" && (s.active || s.headersSent)
    ensures OutInv(Rest(s), page)
  {
    hide HttpHeader, LateReply;
    assert s.log.sent + "" == s.log.sent;
  }

  lemma ReplyKeeps(s: Out, n: nat, page: string)
    requires OutInv(s, page) && !s.gone && !s.active && !s.headersSent && s.offset + n <= |s.response|
    ensures OutInv(Reply(s, n), page)
  {
    hide HttpHeader, LateReply;
    assert s.response[..s.offset] + s.response[s.offset..s.offset + n] == s.response[..s.offset + n];
    assert s.response[..|s.response|] == s.response;
  }

  lemma {:induction false} ReadLoopKeeps(s: Out, script: seq<ReadResult>, total: nat, page: string)
    requires OutInv(s, page) && !s.gone && s.active && ValidReads(script)
    ensures OutInv(ReadLoop(s, script, total, page), page)
    decreases |script|
  {
    hide OutInv, Receive, Finalize;
    if total < FAIR_IO_LIMIT && script != [] {
      match script[0]
      case WouldBlock =>
      case End => FinalizeKeeps(s, page);
      case Got(data) =>
        ReceiveKeeps(s, data, page);
        var n := Throttle(Receive(s, data));
        if |n.pending| <= CGI_BACKPRESSURE_LIMIT {
          ReadLoopKeeps(n, script[1..], total + |data|, page);
        }
    }
  }

  lemma PendingMeansSent(s: Out, page: string)
    requires OutInv(s, page) && !s.gone && s.pending != ""
    ensures s.headersSent
  {
    hide HttpHeader, LateReply;
  }

  lemma AbortKeeps(s: Out, page: string)
    requires OutInv(s, page) && !s.gone
    ensures OutInv(Abort(s), page)
  {
  }

  lemma {:induction false} SendLoopKeeps(s: Out, script: seq<SendResult>, total: nat, page: string)
    requires OutInv(s, page) && !s.gone && Streaming(s)
    ensures OutInv(SendLoop(s, script, total), page)
    decreases |script|
  {
    hide OutInv;
    if total < FAIR_IO_LIMIT {
      if s.pending == "" {
        RestKeeps(s, page);
      } else if script != [] {
        PendingMeansSent(s, page);
        match script[0]
        case Full =>
        case Broken => AbortKeeps(s, page);
        case Took(n) =>
          var k := Least(n, |s.pending|);
          DeliverKeeps(s, k, page);
          SendLoopKeeps(Deliver(s, k), script[1..], total + k, page);
      }
    }
  }

  lemma CallKeeps(s: Out, c: Call, page: string)
    requires OutInv(s, page) && Possible(s, c)
    ensures OutInv(Handle(s, c, page), page)
  {
    match c
    case CgiReadable(input) => ReadLoopKeeps(s, input, 0, page);
    case CgiHangup(input) => ReadLoopKeeps(s, input, 0, page);
    case ClientWritable(output) =>
      hide OutInv, SendLoop, Reply;
      if Streaming(s) {
        SendLoopKeeps(s, output, 0, page);
      } else {
        ReplyOnceKeeps(s, output, page);
      }
  }

  lemma ReplyOnceKeeps(s: Out, script: seq<SendResult>, page: string)
    requires OutInv(s, page) && !s.gone && !Streaming(s)
    ensures OutInv(ReplyOnce(s, script), page)
  {
    hide OutInv;
    if s.response != "" {
      if script == [] || !script[0].Took? || s.offset > |s.response| {
        AbortKeeps(s, page);
      } else {
        ReplyKeeps(s, Least(script[0].n, |s.response| - s.offset), page);
      }
    }
  }

  /** Every run of one exchange, from its start, keeps the invariant. */
  lemma {:induction false} RunKeeps(s: Out, calls: seq<Call>, page: string)
    requires OutInv(s, page) && IsRun(s, calls, page)
    ensures OutInv(AfterRun(s, calls, page), page)
    decreases |calls|
  {
    hide OutInv, Handle;
    if calls != [] {
      CallKeeps(s, calls[0], page);
      RunKeeps(Handle(s, calls[0], page), calls[1..], page);
    }
  }

  /**
   * Safety of the output relay over every run of one exchange, also one that was cut off:
   * once the header is out, what was sent followed by what is pending is the built header followed
   * by all CGI output after the first CRLFCRLF; before that nothing is pending and the collected
   * output has no CRLFCRLF. A client removed in good order has received exactly the expected reply.
   */
  lemma OutputConservation(calls: seq<Call>, page: string)
    requires IsRun(STARTED, calls, page)
    ensures var s := AfterRun(STARTED, calls, page);
            var raw := s.log.read;
            var i := Find(raw, CRLFCRLF);
            && (s.headersSent ==> i >= 0 && s.log.sent + s.pending == HttpHeader(raw[..i]) + raw[i + 4..])
            && (!s.headersSent ==> i < 0 && s.pending == "" && s.cgiOutput == raw)
            && (s.gone && !s.log.aborted ==> s.log.sent == Expected(raw, page))
  {
    hide IsRun, AfterRun, HttpHeader, LateReply, Expected;
    StartedInv(page);
    RunKeeps(STARTED, calls, page);
  }

  /** No lost wakeup over every run: an exchange that waits has the event it waits for polled. */
  lemma NoLostWakeup(calls: seq<Call>, page: string)
    requires IsRun(STARTED, calls, page)
    ensures var s := AfterRun(STARTED, calls, page);
            !s.gone ==>
              && (s.pending != "" ==> s.clientOut)
              && (s.active ==> s.stdoutIn || (|s.pending| >= CGI_BACKPRESSURE_LIMIT && s.clientOut))
              && (!s.active ==> s.clientOut && !s.stdoutIn)
  {
    hide IsRun, AfterRun, Conserved;
    StartedInv(page);
    RunKeeps(STARTED, calls, page);
  }

  // ----------------------------------------------------- blocked replies

  predicate NoBroken(c: Call) {
    c.ClientWritable? ==> forall i :: 0 <= i < |c.output| ==> !c.output[i].Broken?
  }

  predicate NoneBroken(calls: seq<Call>) {
    forall i :: 0 <= i < |calls| ==> NoBroken(calls[i])
  }

  /** The plain branch is called and its one send takes nothing: the socket is full. */
  predicate Blocks(s: Out, c: Call) {
    c.ClientWritable? && !Streaming(s) && s.response != "" && (c.output == [] || !c.output[0].Took?)
  }

  predicate SomeCallBlocks(s: Out, calls: seq<Call>, page: string)
    decreases |calls|
  {
    calls != [] && (Blocks(s, calls[0]) || SomeCallBlocks(Handle(s, calls[0], page), calls[1..], page))
  }

  lemma {:induction false} SendLoopDropsNone(s: Out, script: seq<SendResult>, total: nat)
    requires forall i :: 0 <= i < |script| ==> !script[i].Broken?
    ensures SendLoop(s, script, total).log.aborted == s.log.aborted
    decreases |script|
  {
    if total < FAIR_IO_LIMIT && s.pending != "" && script != [] && script[0].Took? {
      var k := Least(script[0].n, |s.pending|);
      SendLoopDropsNone(Deliver(s, k), script[1..], total + k);
    }
  }

  lemma {:induction false} ReadingDropsNone(s: Out, script: seq<ReadResult>, total: nat, page: string)
    ensures ReadLoop(s, script, total, page).log.aborted == s.log.aborted
    decreases |script|
  {
    hide HttpHeader, LateReply;
    if total < FAIR_IO_LIMIT && script != [] && script[0].Got? {
      ReadingDropsNone(Throttle(Receive(s, script[0].data)), script[1..], total + |script[0].data|, page);
    }
  }

  lemma CallDropsExactly(s: Out, c: Call, page: string)
    requires OutInv(s, page) && Possible(s, c) && NoBroken(c)
    ensures Handle(s, c, page).log.aborted <==> Blocks(s, c)
    ensures Blocks(s, c) ==> !s.active && !s.headersSent && s.pending == "" && Handle(s, c, page) == Abort(s)
  {
    hide Conserved, Bounded, SendLoop, ReadLoop;
    match c
    case CgiReadable(input) => ReadingDropsNone(s, input, 0, page);
    case CgiHangup(input) => ReadingDropsNone(s, input, 0, page);
    case ClientWritable(output) => SendLoopDropsNone(s, output, 0);
  }

  /**
   * A client whose sends do not fail is dropped if and only if a call of the plain branch finds the
   * socket full. Then nothing of a header had been sent, and the CGI had ended without a CRLFCRLF:
   * so no exchange is cut off whose CGI prints one.
   */
  lemma {:induction false} DroppedExactly(s: Out, calls: seq<Call>, page: string)
    requires OutInv(s, page) && !s.log.aborted && IsRun(s, calls, page) && NoneBroken(calls)
    ensures var e := AfterRun(s, calls, page);
            && (e.log.aborted <==> SomeCallBlocks(s, calls, page))
            && (e.log.aborted ==> !e.active && !e.headersSent && e.pending == "" && !Contains(e.log.read, CRLFCRLF)
                                  && e.log.sent < e.response)
    decreases |calls|
  {
    hide OutInv, Handle, Blocks, Possible;
    if calls != [] {
      var n := Handle(s, calls[0], page);
      assert NoBroken(calls[0]);
      CallKeeps(s, calls[0], page);
      CallDropsExactly(s, calls[0], page);
      if n.log.aborted {
        NothingAfterDrop(n, calls[1..], page);
        DroppedState(n, page);
      } else {
        assert forall i :: 0 <= i < |calls[1..]| ==> NoBroken(calls[1..][i]);
        DroppedExactly(n, calls[1..], page);
      }
    }
  }

  lemma NothingAfterDrop(s: Out, calls: seq<Call>, page: string)
    requires OutInv(s, page) && s.log.aborted && IsRun(s, calls, page)
    ensures calls == []
  {
    hide Conserved, Bounded;
  }

  lemma DroppedState(s: Out, page: string)
    requires OutInv(s, page) && s.log.aborted && !s.active && !s.headersSent
    ensures s.pending == "" && !Contains(s.log.read, CRLFCRLF) && s.log.sent < s.response
  {
    hide LateReply;
  }

  /** The input: a CGI that ends without a word, and a socket that is full when the reply is sent. */
  lemma FullSocketDrops(page: string)
    ensures var calls := [CgiReadable([End]), ClientWritable([Full])];
            var e := AfterRun(STARTED, calls, page);
            IsRun(STARTED, calls, page) && NoneBroken(calls) && e.gone && e.log.aborted && e.log.sent == ""
  {
    hide LateReply;
    var a, b := CgiReadable([End]), ClientWritable([Full]);
    assert [a, b][1..] == [b] && [b][1..] == [];
    var n := Finalize(STARTED, page);
    assert Handle(STARTED, a, page) == n;
    assert Handle(n, b, page) == Abort(n);
    assert AfterRun(Abort(n), [], page) == Abort(n);
  }

  // ------------------------------------------------------------- memory

  predicate NoHangup(calls: seq<Call>) {
    forall i :: 0 <= i < |calls| ==> !calls[i].CgiHangup?
  }

  lemma {:induction false} PolledReadsStayOnPoll(s: Out, script: seq<ReadResult>, total: nat, page: string)
    requires s.stdoutIn && |s.pending| <= CGI_BACKPRESSURE_LIMIT
    ensures ReadLoop(s, script, total, page).log.offPoll == s.log.offPoll
    decreases |script|
  {
    hide HttpHeader, LateReply;
    if total < FAIR_IO_LIMIT && script != [] && script[0].Got? {
      var n := Throttle(Receive(s, script[0].data));
      if |n.pending| <= CGI_BACKPRESSURE_LIMIT {
        PolledReadsStayOnPoll(n, script[1..], total + |script[0].data|, page);
      }
    }
  }

  lemma {:induction false} SendingReadsNothing(s: Out, script: seq<SendResult>, total: nat)
    ensures SendLoop(s, script, total).log.offPoll == s.log.offPoll
    decreases |script|
  {
    if total < FAIR_IO_LIMIT && s.pending != "" && script != [] && script[0].Took? {
      var k := Least(script[0].n, |s.pending|);
      SendingReadsNothing(Deliver(s, k), script[1..], total + k);
    }
  }

  lemma {:induction false} NoHangupNoOffPoll(s: Out, calls: seq<Call>, page: string)
    requires OutInv(s, page) && IsRun(s, calls, page) && NoHangup(calls)
    ensures AfterRun(s, calls, page).log.offPoll == s.log.offPoll
    decreases |calls|
  {
    hide Conserved, ReadLoop, SendLoop;
    if calls != [] {
      CallKeeps(s, calls[0], page);
      match calls[0]
      case CgiReadable(input) =>
        PolledReadsStayOnPoll(s, input, 0, page);
        NoHangupNoOffPoll(Handle(s, calls[0], page), calls[1..], page);
      case ClientWritable(output) =>
        SendingReadsNothing(s, output, 0);
        NoHangupNoOffPoll(Handle(s, calls[0], page), calls[1..], page);
    }
  }

  /**
   * Memory: when every read is taken under POLLIN, pending stays within one read of the
   * back-pressure limit, or within what the header-completing read left if that was more.
   */
  lemma MemoryBound(calls: seq<Call>, page: string)
    requires IsRun(STARTED, calls, page) && NoHangup(calls)
    ensures var s := AfterRun(STARTED, calls, page);
            |s.pending| <= Most(s.log.atHeader, CGI_BACKPRESSURE_LIMIT + READ_BUFFER_SIZE)
  {
    hide IsRun, AfterRun, Conserved;
    StartedInv(page);
    RunKeeps(STARTED, calls, page);
    NoHangupNoOffPoll(STARTED, calls, page);
  }

  /** With hang-up reads, pending exceeds that by no more than what was read while POLLIN was off. */
  lemma MemoryBoundWithHangups(calls: seq<Call>, page: string)
    requires IsRun(STARTED, calls, page)
    ensures var s := AfterRun(STARTED, calls, page);
            && |s.pending| <= Most(s.log.atHeader, CGI_BACKPRESSURE_LIMIT + READ_BUFFER_SIZE) + s.log.offPoll
            && (s.active && s.stdoutIn ==> |s.pending| <= CGI_BACKPRESSURE_LIMIT)
  {
    hide IsRun, AfterRun, Conserved;
    StartedInv(page);
    RunKeeps(STARTED, calls, page);
  }

  /** One call reads less than the fair share plus one buffer. */
  lemma {:induction false} FairReading(s: Out, script: seq<ReadResult>, total: nat, page: string)
    requires ValidReads(script)
    ensures var n := ReadLoop(s, script, total, page).log.read;
            |s.log.read| <= |n|
            && (total < FAIR_IO_LIMIT ==> |n| - |s.log.read| + total < FAIR_IO_LIMIT + READ_BUFFER_SIZE)
            && (total >= FAIR_IO_LIMIT ==> |n| == |s.log.read|)
    decreases |script|
  {
    hide HttpHeader, LateReply;
    if total < FAIR_IO_LIMIT && script != [] && script[0].Got? {
      FairReading(Throttle(Receive(s, script[0].data)), script[1..], total + |script[0].data|, page);
    }
  }

  /** A call on POLLIN stops the polling if and only if it leaves more pending than the limit. */
  lemma {:induction false} PausesExactly(s: Out, script: seq<ReadResult>, total: nat, page: string)
    requires s.active && s.stdoutIn && |s.pending| <= CGI_BACKPRESSURE_LIMIT
    ensures var n := ReadLoop(s, script, total, page);
            n.active ==> (n.stdoutIn <==> |n.pending| <= CGI_BACKPRESSURE_LIMIT)
    decreases |script|
  {
    hide HttpHeader, LateReply;
    if total < FAIR_IO_LIMIT && script != [] && script[0].Got? {
      var n := Throttle(Receive(s, script[0].data));
      if |n.pending| <= CGI_BACKPRESSURE_LIMIT {
        PausesExactly(n, script[1..], total + |script[0].data|, page);
      }
    }
  }

  /** Sending resumes it if and only if it brings what is pending below the limit. */
  lemma {:induction false} ResumesExactly(s: Out, script: seq<SendResult>, total: nat)
    requires s.active && ValidSends(script)
    ensures var n := SendLoop(s, script, total);
            && |n.pending| <= |s.pending|
            && (n.stdoutIn <==> s.stdoutIn || |n.pending| < Least(|s.pending|, CGI_BACKPRESSURE_LIMIT))
    decreases |script|
  {
    if total < FAIR_IO_LIMIT && s.pending != "" && script != [] && script[0].Took? {
      var k := Least(script[0].n, |s.pending|);
      ResumesExactly(Deliver(s, k), script[1..], total + k);
    }
  }

  function AllRead(script: seq<ReadResult>): string {
    if script == [] then "" else (if script[0].Got? then script[0].data else "") + AllRead(script[1..])
  }

  /** A call reads on: it takes all there is unless it has had its share or must pause. */
  lemma {:induction false} ReadsOn(s: Out, script: seq<ReadResult>, total: nat, page: string)
    requires forall i :: 0 <= i < |script| ==> script[i].Got?
    ensures var n := ReadLoop(s, script, total, page);
            && |s.log.read| <= |n.log.read|
            && (n.log.read == s.log.read + AllRead(script) || |n.pending| > CGI_BACKPRESSURE_LIMIT
                || |n.log.read| - |s.log.read| + total >= FAIR_IO_LIMIT)
    decreases |script|
  {
    hide HttpHeader, LateReply;
    if script == [] {
      assert s.log.read + "" == s.log.read;
    } else if total < FAIR_IO_LIMIT {
      var data := script[0].data;
      var n := Throttle(Receive(s, data));
      Assoc(s.log.read, data, AllRead(script[1..]));
      if |n.pending| <= CGI_BACKPRESSURE_LIMIT {
        ReadsOn(n, script[1..], total + |data|, page);
      }
    }
  }

  function AllTaken(script: seq<SendResult>): nat {
    if script == [] then 0 else (if script[0].Took? then script[0].n else 0) + AllTaken(script[1..])
  }

  /** And sends on, until nothing is pending, it has had its share or the socket takes no more. */
  lemma {:induction false} SendsOn(s: Out, script: seq<SendResult>, total: nat)
    requires forall i :: 0 <= i < |script| ==> script[i].Took?
    ensures var n := SendLoop(s, script, total);
            && |s.log.sent| <= |n.log.sent|
            && (n.pending == "" || |n.log.sent| - |s.log.sent| == AllTaken(script)
                || |n.log.sent| - |s.log.sent| + total >= FAIR_IO_LIMIT)
    decreases |script|
  {
    if total < FAIR_IO_LIMIT && s.pending != "" && script != [] {
      var k := Least(script[0].n, |s.pending|);
      SendsOn(Deliver(s, k), script[1..], total + k);
      if k == |s.pending| {
        NothingPendingStays(Deliver(s, k), script[1..], total + k);
      }
    }
  }

  lemma NothingPendingStays(s: Out, script: seq<SendResult>, total: nat)
    requires s.pending == ""
    ensures SendLoop(s, script, total).pending == ""
  {
  }

  /** If no single send takes more than `most`, one call sends less than the fair share plus that. */
  lemma {:induction false} FairSending(s: Out, script: seq<SendResult>, total: nat, most: nat)
    requires forall i :: 0 <= i < |script| && script[i].Took? ==> script[i].n <= most
    requires most > 0
    ensures var n := SendLoop(s, script, total).log.sent;
            |s.log.sent| <= |n| && (total < FAIR_IO_LIMIT ==> |n| - |s.log.sent| + total < FAIR_IO_LIMIT + most)
            && (total >= FAIR_IO_LIMIT ==> |n| == |s.log.sent|)
    decreases |script|
  {
    if total < FAIR_IO_LIMIT && s.pending != "" && script != [] && script[0].Took? {
      var k := Least(script[0].n, |s.pending|);
      FairSending(Deliver(s, k), script[1..], total + k, most);
    }
  }

  // ------------------------------------------------------------ liveness

  /** An exchange and the output its CGI has yet to write before it ends. */
  datatype World = World(out: Out, todo: string)

  /**
   * The smallest moves: one read and the end of the output, under POLLIN or on a hang-up with POLLIN
   * off; one send; one wakeup with nothing to send; and a send of the plain reply that takes nothing.
   */
  datatype Tick = ReadSome(k: nat) | ReadEnd | HangupSome(k: nat) | HangupEnd | SendSome(k: nat) | WakeIdle | ReplyBlocked

  predicate Enabled(w: World, t: Tick) {
    var s := w.out;
    !s.gone &&
    match t
    case ReadSome(k) => s.active && s.stdoutIn && 0 < k <= |w.todo| && k <= READ_BUFFER_SIZE
    case ReadEnd => s.active && s.stdoutIn && w.todo == ""
    case HangupSome(k) => s.active && 0 < k <= |w.todo| && k <= READ_BUFFER_SIZE
    case HangupEnd => s.active && w.todo == ""
    case SendSome(k) =>
      s.clientOut && 0 < k && k <= (if Streaming(s) then |s.pending| else |s.response| - s.offset)
    case WakeIdle => s.clientOut && Streaming(s) && s.pending == ""
    case ReplyBlocked => s.clientOut && !Streaming(s) && s.response != ""
  }

  function Advance(w: World, t: Tick, page: string): World
    requires Enabled(w, t)
  {
    var s := w.out;
    match t
    case ReadSome(k) => World(Throttle(Receive(s, w.todo[..k])), w.todo[k..])
    case HangupSome(k) => World(Throttle(Receive(s, w.todo[..k])), w.todo[k..])
    case ReadEnd => World(Finalize(s, page), w.todo)
    case HangupEnd => World(Finalize(s, page), w.todo)
    case SendSome(k) => w.(out := if Streaming(s) then Deliver(s, k) else Reply(s, k))
    case WakeIdle => w.(out := Rest(s))
    case ReplyBlocked => w.(out := Abort(s))
  }

  lemma AdvanceKeeps(w: World, t: Tick, page: string)
    requires OutInv(w.out, page) && Enabled(w, t)
    ensures OutInv(Advance(w, t, page).out, page)
  {
    hide OutInv, Receive, Finalize, Deliver, Reply, Rest;
    match t
    case ReadSome(k) => ReceiveKeeps(w.out, w.todo[..k], page);
    case HangupSome(k) => ReceiveKeeps(w.out, w.todo[..k], page);
    case ReadEnd => FinalizeKeeps(w.out, page);
    case HangupEnd => FinalizeKeeps(w.out, page);
    case WakeIdle => RestKeeps(w.out, page);
    case ReplyBlocked => AbortKeeps(w.out, page);
    case SendSome(k) =>
      if Streaming(w.out) {
        PendingMeansSent(w.out, page);
        DeliverKeeps(w.out, k, page);
      } else {
        ReplyKeeps(w.out, k, page);
      }
  }

  function Flag(b: bool): nat {
    if b then 1 else 0
  }

  function Unsent(s: Out): int {
    |s.pending| + |s.response| - s.offset
  }

  /** Lexicographic progress: unread output, activity, unsent bytes, interest in POLLOUT, the connection. */
  predicate Progresses(w: World, n: World) {
    var a, b := w.out, n.out;
    |n.todo| < |w.todo| || (|n.todo| == |w.todo| && (
      Flag(b.active) < Flag(a.active) || (b.active == a.active && (
        0 <= Unsent(b) < Unsent(a) || (Unsent(b) == Unsent(a) && (
          Flag(b.clientOut) < Flag(a.clientOut) || (b.clientOut == a.clientOut && Flag(!b.gone) < Flag(!a.gone))))))))
  }

  lemma AdvanceProgresses(w: World, t: Tick, page: string)
    requires OutInv(w.out, page) && Enabled(w, t)
    ensures Progresses(w, Advance(w, t, page))
    ensures Advance(w, t, page).out.log.read + Advance(w, t, page).todo == w.out.log.read + w.todo
    ensures Advance(w, t, page).out.log.aborted == (w.out.log.aborted || t.ReplyBlocked?)
  {
    hide HttpHeader, LateReply;
    match t
    case ReadSome(k) => ReadTakes(w, k);
    case HangupSome(k) => ReadTakes(w, k);
    case SendSome(k) =>
      if Streaming(w.out) {
        PendingMeansSent(w.out, page);
      }
    case _ =>
  }

  lemma ReadTakes(w: World, k: nat)
    requires k <= |w.todo|
    ensures (w.out.log.read + w.todo[..k]) + w.todo[k..] == w.out.log.read + w.todo
  {
    assert w.todo == w.todo[..k] + w.todo[k..];
  }

  /** A move that is always possible while the client is connected, needs no hang-up and drops nothing. */
  function SomeTick(w: World, page: string): (t: Tick)
    requires OutInv(w.out, page) && !w.out.gone
    ensures Enabled(w, t) && !t.HangupSome? && !t.HangupEnd? && !t.ReplyBlocked?
  {
    var s := w.out;
    if s.active && s.stdoutIn then
      (if w.todo == "" then ReadEnd else ReadSome(Least(|w.todo|, READ_BUFFER_SIZE)))
    else if s.pending != "" then SendSome(1)
    else if s.headersSent then WakeIdle
    else
      assert s.offset < |s.response| by { ReplyNotDone(s, page); }
      SendSome(1)
  }

  lemma ReplyNotDone(s: Out, page: string)
    requires OutInv(s, page) && !s.gone && !s.active && !s.headersSent
    ensures s.offset < |s.response|
  {
    hide HttpHeader, LateReply;
  }

  /** A scheduler that always picks some possible move. */
  ghost predicate Picks(pick: World -> Tick, page: string) {
    forall w: World :: OutInv(w.out, page) && !w.out.gone ==> Enabled(w, pick(w))
  }

  lemma SomeoneCanPick(page: string)
    ensures Picks((w: World) => if OutInv(w.out, page) && !w.out.gone then SomeTick(w, page) else WakeIdle, page)
  {
    hide OutInv, Enabled;
  }

  /** Let the scheduler move the exchange until the client is gone. */
  ghost function Drive(w: World, pick: World -> Tick, page: string): World
    requires OutInv(w.out, page) && Picks(pick, page)
    decreases |w.todo|, Flag(w.out.active), Unsent(w.out), Flag(w.out.clientOut), Flag(!w.out.gone)
  {
    if w.out.gone then w
    else
      AdvanceKeeps(w, pick(w), page);
      AdvanceProgresses(w, pick(w), page);
      Drive(Advance(w, pick(w), page), pick, page)
  }

  /** The client is let go only after the CGI has ended, with all its output read. */
  predicate EndedClean(w: World) {
    !w.out.active ==> w.todo == ""
  }

  /** The exchange was cut off only over a reply built at the end, by a send that took nothing. */
  predicate CutOffInReply(s: Out) {
    s.log.aborted ==> !s.active && !s.headersSent
  }

  lemma AdvanceEndsClean(w: World, t: Tick, page: string)
    requires EndedClean(w) && Enabled(w, t) && !w.out.log.aborted
    ensures EndedClean(Advance(w, t, page)) && CutOffInReply(Advance(w, t, page).out)
  {
    hide HttpHeader, LateReply;
  }

  /**
   * What the client has when it is let go: the whole reply, or, if the reply had to be built at the
   * end and a send of it took nothing, a part of it.
   */
  predicate Delivered(s: Out, output: string, page: string) {
    var whole := Expected(output, page);
    && s.gone && s.log.sent <= whole
    && (s.log.aborted <==> s.log.sent != whole)
    && (s.log.aborted ==> !Contains(output, CRLFCRLF))
  }

  lemma {:induction false} DriveDelivers(w: World, pick: World -> Tick, page: string)
    requires OutInv(w.out, page) && Picks(pick, page) && EndedClean(w)
    requires CutOffInReply(w.out) && (w.out.log.aborted ==> w.out.gone)
    ensures Delivered(Drive(w, pick, page).out, w.out.log.read + w.todo, page)
    decreases |w.todo|, Flag(w.out.active), Unsent(w.out), Flag(w.out.clientOut), Flag(!w.out.gone)
  {
    hide OutInv, Advance, Delivered, Picks;
    if w.out.gone {
      GoneMeansDelivered(w, page);
    } else {
      PickIsEnabled(w, pick, page);
      ConnectedNotAborted(w.out, page);
      var n := Advance(w, pick(w), page);
      AdvanceKeeps(w, pick(w), page);
      AdvanceProgresses(w, pick(w), page);
      AdvanceEndsClean(w, pick(w), page);
      if n.out.log.aborted {
        AbortedIsGone(n.out, page);
      }
      DriveDelivers(n, pick, page);
    }
  }

  lemma PickIsEnabled(w: World, pick: World -> Tick, page: string)
    requires OutInv(w.out, page) && !w.out.gone && Picks(pick, page)
    ensures Enabled(w, pick(w))
  {
  }

  lemma ConnectedNotAborted(s: Out, page: string)
    requires OutInv(s, page) && !s.gone
    ensures !s.log.aborted
  {
  }

  lemma AbortedIsGone(s: Out, page: string)
    requires OutInv(s, page) && s.log.aborted
    ensures s.gone
  {
  }

  lemma GoneMeansDelivered(w: World, page: string)
    requires OutInv(w.out, page) && w.out.gone && EndedClean(w) && CutOffInReply(w.out)
    ensures Delivered(w.out, w.out.log.read + w.todo, page)
  {
    hide HttpHeader, LateReply;
    assert !w.out.active && w.todo == "";
    assert w.out.log.read + w.todo == w.out.log.read;
  }

  /**
   * Liveness: whatever order the reads, hang-up reads and sends come in, and however they cut the
   * bytes, an exchange whose CGI writes `output` and ends comes to its end. The client has then
   * received exactly the reply that `output` stands for, or a part of it, if `output` has no
   * CRLFCRLF and a send of the reply took nothing.
   */
  lemma EveryScheduleDelivers(output: string, pick: World -> Tick, page: string)
    requires Picks(pick, page)
    ensures OutInv(STARTED, page)
    ensures Delivered(Drive(World(STARTED, output), pick, page).out, output, page)
  {
    hide Delivered;
    StartedInv(page);
    assert "" + output == output;
    DriveDelivers(World(STARTED, output), pick, page);
  }

  // ------------------------------------------- handlers are such moves

  predicate AllEnabled(w: World, ticks: seq<Tick>, page: string)
    decreases |ticks|
  {
    ticks == [] || (Enabled(w, ticks[0]) && AllEnabled(Advance(w, ticks[0], page), ticks[1..], page))
  }

  function AdvanceAll(w: World, ticks: seq<Tick>, page: string): World
    requires AllEnabled(w, ticks, page)
    decreases |ticks|
  {
    if ticks == [] then w else AdvanceAll(Advance(w, ticks[0], page), ticks[1..], page)
  }

  /** The reads a script reports are what the CGI has to give. */
  predicate Supplies(script: seq<ReadResult>, todo: string) {
    script == [] ||
    match script[0]
    case WouldBlock => true
    case End => todo == ""
    case Got(data) => data <= todo && Supplies(script[1..], todo[|data|..])
  }

  lemma Prepend(w: World, t: Tick, n: World, rest: seq<Tick>, page: string) returns (ticks: seq<Tick>)
    requires Enabled(w, t) && Advance(w, t, page) == n && AllEnabled(n, rest, page)
    ensures AllEnabled(w, ticks, page) && AdvanceAll(w, ticks, page) == AdvanceAll(n, rest, page)
  {
    hide Advance, Enabled;
    ticks := [t] + rest;
    assert ticks[1..] == rest;
  }

  /** A call of handle_cgi_output, on POLLIN or on a hang-up, is a sequence of the small moves. */
  lemma {:induction false} ReadLoopIsMoves(w: World, script: seq<ReadResult>, total: nat, page: string)
    returns (ticks: seq<Tick>)
    requires !w.out.gone && w.out.active && ValidReads(script) && Supplies(script, w.todo)
    ensures AllEnabled(w, ticks, page) && AdvanceAll(w, ticks, page).out == ReadLoop(w.out, script, total, page)
    decreases |script|
  {
    hide Receive, Finalize;
    ticks := [];
    if total < FAIR_IO_LIMIT && script != [] {
      var polled := w.out.stdoutIn;
      match script[0]
      case WouldBlock =>
      case End =>
        ticks := Prepend(w, if polled then ReadEnd else HangupEnd, World(Finalize(w.out, page), w.todo), [], page);
      case Got(data) =>
        var n := World(Throttle(Receive(w.out, data)), w.todo[|data|..]);
        assert w.todo[..|data|] == data;
        var rest := [];
        if |n.out.pending| <= CGI_BACKPRESSURE_LIMIT {
          ReceiveStaysActive(w.out, data);
          rest := ReadLoopIsMoves(n, script[1..], total + |data|, page);
        }
        ticks := Prepend(w, if polled then ReadSome(|data|) else HangupSome(|data|), n, rest, page);
    }
  }

  lemma ReceiveStaysActive(s: Out, data: string)
    ensures var n := Receive(s, data); n.active == s.active && n.stdoutIn == s.stdoutIn && n.gone == s.gone
  {
    hide HttpHeader;
  }

  /** So is a call of handle_poll_output in streaming mode, as long as no send fails. */
  lemma {:induction false} SendLoopIsMoves(w: World, script: seq<SendResult>, total: nat, page: string)
    returns (ticks: seq<Tick>)
    requires !w.out.gone && w.out.clientOut && Streaming(w.out) && ValidSends(script)
    requires w.out.pending != "" ==> w.out.headersSent
    requires forall i :: 0 <= i < |script| ==> !script[i].Broken?
    ensures AllEnabled(w, ticks, page) && AdvanceAll(w, ticks, page).out == SendLoop(w.out, script, total)
    decreases |script|
  {
    ticks := [];
    if total < FAIR_IO_LIMIT {
      if w.out.pending == "" {
        ticks := Prepend(w, WakeIdle, w.(out := Rest(w.out)), [], page);
      } else if script != [] && script[0].Took? {
        var k := Least(script[0].n, |w.out.pending|);
        var n := w.(out := Deliver(w.out, k));
        var rest := SendLoopIsMoves(n, script[1..], total + k, page);
        ticks := Prepend(w, SendSome(k), n, rest, page);
      }
    }
  }

  /** And so is a call on the client's socket in either mode, as long as its sends do not fail. */
  lemma WritableIsMoves(w: World, script: seq<SendResult>, page: string) returns (ticks: seq<Tick>)
    requires OutInv(w.out, page) && !w.out.gone && w.out.clientOut && ValidSends(script)
    requires forall i :: 0 <= i < |script| ==> !script[i].Broken?
    ensures AllEnabled(w, ticks, page) && AdvanceAll(w, ticks, page).out == Writable(w.out, script)
  {
    hide OutInv, SendLoop, Reply;
    if Streaming(w.out) {
      if w.out.pending != "" {
        PendingMeansSent(w.out, page);
      }
      ticks := SendLoopIsMoves(w, script, 0, page);
    } else {
      ReplyNotDone(w.out, page);
      if script == [] || !script[0].Took? {
        ticks := Prepend(w, ReplyBlocked, w.(out := Abort(w.out)), [], page);
      } else {
        var k := Least(script[0].n, |w.out.response| - w.out.offset);
        ticks := Prepend(w, SendSome(k), w.(out := Reply(w.out, k)), [], page);
      }
    }
  }
}
