/** The poll handlers that move a request body into a CGI. */
module InputRelay {
  import opened Numbers
  import opened RequestSpec
  import opened DecoderSpec
  import opened Handoff
  import opened PendingBuffer
  import opened OutputSpec
  import opened InputSpec
  import HttpRequest
  import ChunkDecoder

  class CgiInputRelay {
    var open: bool
    const stdinPending: Pending
    var eof: bool
    var chunked: bool
    const decoder: ChunkDecoder.CgiChunkDecoder
    var forwarded: nat
    var contentLength: nat
    var clientIn: bool
    var stdinOut: bool
    ghost var log: InLog

    ghost predicate Valid()
      reads this, stdinPending
    {
      stdinPending.Valid()
    }

    ghost function Value(): In
      requires Valid()
      reads this, stdinPending, decoder
    {
      In(open, stdinPending.Contents(), eof, chunked, decoder.Value(), forwarded, contentLength,
         clientIn, stdinOut, log)
    }

    /** The body part of dispatch_cgi: `room` is what the pipe takes of the first write. */
    constructor Dispatch(request: HttpRequest.HTTPRequest, room: nat)
      ensures Valid() && Value() == InputSpec.Dispatch(request.Value(), room)
      ensures fresh(stdinPending) && fresh(decoder)
    {
      open, eof, forwarded := true, false, 0;
      clientIn, stdinOut := true, true;
      chunked := ChunkedCoding(request.headers);
      contentLength := AtolSize(Header(request.headers, "content-length"));
      stdinPending := new Pending();
      decoder := new ChunkDecoder.CgiChunkDecoder();
      new;
      hide Drain;
      var body := request.body;
      var complete := !chunked && (contentLength == 0 || |body| >= contentLength);
      if chunked {
        var decoded;
        decoded, complete := DecodeLeftover(request);
        body := body + decoded;
      } else {
        assert body + "" == body;
      }
      FirstWrite(body, room);
      if complete {
        End();
      }
    }

    /** Seed the decoder and put the request parser's leftover bytes through it. */
    method DecodeLeftover(request: HttpRequest.HTTPRequest) returns (decoded: string, chunkEof: bool)
      modifies decoder
      ensures var o := Decode(Handover(request.Value()), request.buffer);
              decoder.Value() == o.dec && decoded == o.out && chunkEof == o.eof
    {
      hide Drain;
      decoder.Init(ChunkCode(request.chunkedState), request.chunkRemaining);
      assert decoder.Value() == Handover(request.Value());
      decoded, chunkEof := "", false;
      if request.buffer != "" {
        var ok;
        decoded, chunkEof, ok := decoder.Decode(request.buffer);
      } else {
        DrainUnfold(Handover(request.Value()).Feed(""));
      }
    }

    /** The first write to the new pipe; what does not fit is kept. */
    method FirstWrite(body: string, room: nat)
      requires Valid() && stdinPending.Contents() == ""
      modifies stdinPending, `forwarded, `log
      ensures Valid()
      ensures var k := Least(room, |body|);
              Value() == old(Value()).(pending := body[k..], forwarded := |body|,
                log := InLog("", body, body[..k], |body|, Unfailed, false, false, false))
    {
      var written := Least(room, |body|);
      forwarded := |body|;
      stdinPending.Append(body[written..]);
      log := InLog("", body, body[..written], |body|, Unfailed, false, false, false);
    }

    /** HTTPRequest::get_chunked_state. */
    static function ChunkCode(c: ChunkState): int {
      match c
      case Size => 0
      case Data => 1
      case DataCrlf => 2
      case Trailers => 3
    }

    method End()
      requires Valid()
      modifies `open, `eof
      ensures Valid() && Value() == EndInput(old(Value()))
    {
      var size := stdinPending.Size();
      if size == 0 {
        open := false;
      } else {
        eof := true;
      }
    }

    method RaiseEof()
      requires Valid()
      modifies `open, `eof
      ensures Valid() && Value() == GiveUp(old(Value()))
    {
      eof := true;
      var size := stdinPending.Size();
      if size == 0 {
        open := false;
      }
    }

    /** Write to the pipe and keep what does not fit. */
    method Forward(data: string, room: nat)
      requires Valid()
      modifies stdinPending, `stdinOut, `log
      ensures Valid() && Value() == InputSpec.Forward(old(Value()), data, room)
    {
      var sent := Least(room, |data|);
      log := log.(accepted := log.accepted + data, written := log.written + data[..sent],
                  mixed := log.mixed || (sent > 0 && stdinPending.Contents() != ""));
      if sent < |data| {
        stdinPending.Append(data[sent..]);
        stdinOut := true;
      } else {
        assert stdinPending.Contents() + data[sent..] == stdinPending.Contents();
      }
    }

    /** Bytes read from the client; true when the read loop must return. */
    method Accept(data: string, room: nat) returns (ends: bool)
      requires Valid()
      modifies this, stdinPending, decoder
      ensures Valid() && Value() == InputSpec.Accept(old(Value()), data, room)
      ensures ends == Ends(old(Value()), data)
    {
      hide Decode, AcceptChunked, InputSpec.AcceptRaw;
      if chunked {
        ends := AcceptDecoded(data, room);
      } else {
        ends := AcceptRaw(data, room);
      }
    }

    method AcceptRaw(data: string, room: nat) returns (ends: bool)
      requires Valid()
      modifies this, stdinPending
      ensures Valid() && Value() == InputSpec.AcceptRaw(old(Value()), data, room)
      ensures ends == old(contentLength > 0 && forwarded + |data| >= contentLength)
    {
      hide InputSpec.Forward, EndInput;
      log := log.Receiving(data);
      Forward(data, room);
      forwarded := forwarded + |data|;
      ends := contentLength > 0 && forwarded >= contentLength;
      if ends {
        End();
      }
    }

    method AcceptDecoded(data: string, room: nat) returns (ends: bool)
      requires Valid()
      modifies this, stdinPending, decoder
      ensures Valid() && Value() == AcceptChunked(old(Value()), data, room)
      ensures ends == (!Decode(old(decoder.Value()), data).ok || Decode(old(decoder.Value()), data).eof)
    {
      hide Drain, InputSpec.Forward, EndInput;
      ghost var before := log.received;
      log := log.Receiving(data);
      var decoded, chunkEof, ok := decoder.Decode(data);
      if !ok {
        log := log.Failing(before, data, decoder.Value());
        RaiseEof();
        return true;
      }
      if decoded != "" {
        Forward(decoded, room);
      }
      if chunkEof {
        End();
      }
      ends := chunkEof;
    }

    /** The CGI-active half of handle_client_read: `script` is what the successive reads report. */
    method HandleClientRead(script: seq<ClientResult>)
      requires Valid() && ValidInput(script)
      modifies this, stdinPending, decoder
      ensures Valid() && Value() == ClientLoop(old(Value()), script, 0)
    {
      hide InputSpec.Accept, Ends, GiveUp;
      var total: nat := 0;
      var next := 0;
      assert script[0..] == script;
      while total < FAIR_IO_LIMIT
        invariant Valid() && next <= |script|
        invariant ClientLoop(Value(), script[next..], total) == ClientLoop(old(Value()), script, 0)
        decreases |script| - next
      {
        var size := stdinPending.Size();
        if size > CGI_BACKPRESSURE_LIMIT {
          ghost var was := Value();
          clientIn := false;
          assert Value() == was.(clientIn := false);
          return;
        }
        if next == |script| {
          assert script[next..] == [];
          return;
        }
        assert script[next..][0] == script[next] && script[next..][1..] == script[next + 1..];
        match script[next] {
          case NoData =>
            return;
          case ClientEnd =>
            log := log.(ended := true);
            RaiseEof();
            return;
          case FromClient(bytes, room) =>
            total := total + |bytes|;
            if !open {
              return;
            }
            var ends := Accept(bytes, room);
            if ends {
              return;
            }
        }
        next := next + 1;
      }
    }

    /** handle_cgi_stdin_writable: `script` is what the successive writes report. */
    method HandleCgiStdinWritable(script: seq<WriteResult>)
      requires Valid()
      modifies this, stdinPending
      ensures Valid() && Value() == AfterFlush(FlushLoop(old(Value()), script, 0))
    {
      FlushPending(script);
      var size := stdinPending.Size();
      if size == 0 && eof {
        open := false;
        return;
      }
      if size < CGI_BACKPRESSURE_LIMIT {
        clientIn := true;
      }
      if size == 0 {
        stdinOut := false;
      }
    }

    method WritePending(n: nat)
      requires Valid() && n <= |stdinPending.Contents()|
      modifies stdinPending, `log
      ensures Valid() && Value() == Flush(old(Value()), n)
    {
      log := log.(written := log.written + stdinPending.Contents()[..n]);
      stdinPending.Consume(n);
    }

    method FlushPending(script: seq<WriteResult>)
      requires Valid()
      modifies stdinPending, `log
      ensures Valid() && Value() == FlushLoop(old(Value()), script, 0)
    {
      hide Flush;
      var total: nat := 0;
      var next := 0;
      assert script[0..] == script;
      var size := stdinPending.Size();
      while size > 0 && total < FAIR_IO_LIMIT && next < |script|
        invariant Valid() && next <= |script| && size == |stdinPending.Contents()|
        invariant FlushLoop(Value(), script[next..], total) == FlushLoop(old(Value()), script, 0)
        decreases |script| - next
      {
        assert script[next..][0] == script[next] && script[next..][1..] == script[next + 1..];
        if script[next].Stuck? || script[next].n == 0 {
          return;
        }
        var written := Least(script[next].n, size);
        total := total + written;
        WritePending(written);
        size := stdinPending.Size();
        next := next + 1;
      }
      assert next == |script| ==> script[next..] == [];
    }
  }
}
