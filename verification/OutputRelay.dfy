/** The poll handlers that move a CGI's output to its client. */
module OutputRelay {
  import opened Bytes
  import opened CgiResponse
  import opened PendingBuffer
  import opened OutputSpec

  class CgiOutputRelay {
    var cgiOutput: string
    var headersSent: bool
    const sendPending: Pending
    var active: bool
    var response: string
    var responseOffset: nat
    var stdoutIn: bool
    var clientOut: bool
    var gone: bool
    ghost var log: Log

    ghost predicate Valid()
      reads this, sendPending
    {
      sendPending.Valid() && responseOffset <= |response|
    }

    ghost function Value(): Out
      requires Valid()
      reads this, sendPending
    {
      Out(cgiOutput, headersSent, sendPending.Contents(), active, response, responseOffset,
          stdoutIn, clientOut, gone, log)
    }

    /** start_cgi, for a client on which nothing was pending. */
    constructor ()
      ensures Valid() && Value() == STARTED && fresh(sendPending)
    {
      cgiOutput, headersSent, active, response, responseOffset := "", false, true, "", 0;
      stdoutIn, clientOut, gone := true, false, false;
      log := Log("", "", 0, 0, false);
      sendPending := new Pending();
    }

    static method BuildHeader(section: string) returns (header: string)
      ensures header == HttpHeader(section)
    {
      var parsed := ParseCgiHeaders(section);
      header := HeaderToString(Close(parsed));
    }

    static method BuildReply(raw: string, page: string) returns (reply: string)
      ensures reply == LateReply(raw, page)
    {
      if raw == "" {
        reply := ToString(Close(Error500(page)));
      } else {
        var parsed := ParseCgiResponse(raw);
        reply := ToString(Close(if parsed.Some? then parsed.value else Error500(page)));
      }
    }

    /** One successful read: collect header bytes, or stream body bytes. */
    method Receive(data: string)
      requires Valid()
      modifies this, sendPending
      ensures Valid() && Value() == OutputSpec.Receive(old(Value()), data)
    {
      hide HttpHeader, Find;
      ghost var offPoll := log.offPoll + (if stdoutIn then 0 else |data|);
      log := log.(read := log.read + data, offPoll := offPoll);
      if !headersSent {
        cgiOutput := cgiOutput + data;
        var headerEnd := Find(cgiOutput, CRLFCRLF);
        FindFits(cgiOutput, CRLFCRLF);
        if headerEnd >= 0 {
          SendHeader(headerEnd);
        }
      } else {
        sendPending.Append(data);
        clientOut := true;
      }
    }

    /** The header section is whole: queue the HTTP header and the body bytes behind it. */
    method SendHeader(headerEnd: nat)
      requires Valid() && headerEnd + 4 <= |cgiOutput|
      modifies sendPending, `headersSent, `clientOut, `log
      ensures Valid()
      ensures var pending := old(sendPending.Contents()) + HttpHeader(cgiOutput[..headerEnd]) + cgiOutput[headerEnd + 4..];
              Value() == old(Value()).(headersSent := true, pending := pending, clientOut := true,
                                       log := old(log).(atHeader := |pending|))
    {
      hide HttpHeader;
      var header := BuildHeader(cgiOutput[..headerEnd]);
      sendPending.Append(header);
      sendPending.Append(cgiOutput[headerEnd + 4..]);
      headersSent := true;
      clientOut := true;
      log := log.(atHeader := |sendPending.Contents()|);
    }

    /** handle_cgi_output: `script` is what the successive reads report. */
    method HandleCgiOutput(script: seq<ReadResult>, page: string)
      requires Valid() && !gone && active && ValidReads(script)
      modifies this, sendPending
      ensures Valid() && Value() == ReadLoop(old(Value()), script, 0, page)
    {
      hide OutputSpec.Receive, OutputSpec.Finalize;
      var total: nat := 0;
      var next := 0;
      assert script[0..] == script;
      while total < FAIR_IO_LIMIT && next < |script|
        invariant Valid() && next <= |script|
        invariant ReadLoop(Value(), script[next..], total, page) == ReadLoop(old(Value()), script, 0, page)
        decreases |script| - next
      {
        ghost var was := Value();
        assert script[next..][0] == script[next] && script[next..][1..] == script[next + 1..];
        match script[next] {
          case WouldBlock =>
            return;
          case End =>
            FinalizeCgi(page);
            return;
          case Got(data) =>
            total := total + |data|;
            Receive(data);
            var size := sendPending.Size();
            if size > CGI_BACKPRESSURE_LIMIT {
              stdoutIn := false;
              assert Value() == Throttle(OutputSpec.Receive(was, data));
              return;
            }
        }
        next := next + 1;
      }
      assert next == |script| ==> script[next..] == [];
    }

    method FinalizeCgi(page: string)
      requires Valid()
      modifies this
      ensures Valid() && Value() == OutputSpec.Finalize(old(Value()), page)
    {
      hide LateReply;
      if !headersSent {
        response := BuildReply(cgiOutput, page);
        responseOffset := 0;
      }
      active := false;
      stdoutIn := false;
      clientOut := true;
    }

    /** handle_poll_output on the client: `script` is what the successive sends report. */
    method HandlePollOutput(script: seq<SendResult>)
      requires Valid() && !gone && ValidSends(script)
      modifies this, sendPending
      ensures Valid() && Value() == Writable(old(Value()), script)
    {
      var size := sendPending.Size();
      if active || size > 0 || headersSent {
        FlushPending(script);
      } else if response != "" {
        if script == [] || !script[0].Took? {
          Drop();
          return;
        }
        var n := Least(script[0].n, |response| - responseOffset);
        log := log.(sent := log.sent + response[responseOffset..responseOffset + n]);
        responseOffset := responseOffset + n;
        if responseOffset >= |response| {
          gone := true;
          clientOut := false;
        }
      }
    }

    method Drop()
      requires Valid()
      modifies `gone, `log
      ensures Valid() && Value() == Abort(old(Value()))
    {
      gone := true;
      log := log.(aborted := true);
    }

    method FlushPending(script: seq<SendResult>)
      requires Valid() && !gone && ValidSends(script)
      modifies this, sendPending
      ensures Valid() && Value() == SendLoop(old(Value()), script, 0)
    {
      hide OutputSpec.Deliver;
      var total: nat := 0;
      var next := 0;
      assert script[0..] == script;
      while total < FAIR_IO_LIMIT
        invariant Valid() && !gone && next <= |script|
        invariant SendLoop(Value(), script[next..], total) == SendLoop(old(Value()), script, 0)
        decreases |script| - next
      {
        ghost var was := Value();
        var size := sendPending.Size();
        if size == 0 {
          clientOut := false;
          if !active {
            gone := true;
          }
          assert Value() == Rest(was);
          return;
        }
        if next == |script| {
          assert script[next..] == [];
          return;
        }
        assert script[next..][0] == script[next] && script[next..][1..] == script[next + 1..];
        match script[next] {
          case Full =>
            return;
          case Broken =>
            Drop();
            return;
          case Took(n) =>
            var sent := Least(n, size);
            Deliver(sent);
            total := total + sent;
        }
        next := next + 1;
      }
    }

    method Deliver(sent: nat)
      requires Valid() && sent <= |sendPending.Contents()|
      modifies sendPending, `log, `stdoutIn
      ensures Valid() && Value() == OutputSpec.Deliver(old(Value()), sent)
    {
      log := log.(sent := log.sent + sendPending.Contents()[..sent]);
      sendPending.Consume(sent);
      var left := sendPending.Size();
      if active && left < CGI_BACKPRESSURE_LIMIT {
        stdoutIn := true;
      }
    }
  }
}
