/** HTTPRequest: the parser object, which works on its buffer in place. */
module HttpRequest {
  import opened Bytes
  import opened Numbers
  import opened RequestSpec

  class HTTPRequest {
    var buffer: string
    var state: ParseState
    var chunkedState: ChunkState
    var chunkRemaining: nat
    var isChunked: bool
    var verb: string
    var requestTarget: string
    var protocol: string
    var headers: map<string, string>
    var body: string
    var maxBodySize: nat
    var bodyTooLarge: bool

    /** The object as a value. */
    ghost function Value(): Request
      reads this
    {
      Request(buffer, state, chunkedState, chunkRemaining, isChunked, verb, requestTarget,
              protocol, headers, body, maxBodySize, bodyTooLarge)
    }

    constructor ()
      ensures Value() == Fresh(0)
    {
      buffer, state, chunkedState, chunkRemaining, isChunked := "", RequestLine, Size, 0, false;
      verb, requestTarget, protocol, headers, body := "", "", "", map[], "";
      maxBodySize, bodyTooLarge := 0, false;
    }

    method SetMaxBodySize(size: nat)
      modifies this
      ensures Value() == old(Value()).(maxBodySize := size)
    {
      maxBodySize := size;
    }

    method Reset()
      modifies this
      ensures Value() == Fresh(0)
    {
      buffer, state, chunkedState, chunkRemaining, isChunked := "", RequestLine, Size, 0, false;
      verb, requestTarget, protocol, headers, body := "", "", "", map[], "";
      maxBodySize, bodyTooLarge := 0, false;
    }

    /** Feed one piece of the stream; true once the whole request has been read. */
    method Parse(data: string) returns (complete: bool)
      modifies this
      ensures Value() == RequestSpec.Parse(old(Value()), data)
      ensures complete <==> state.Complete?
    {
      buffer := buffer + data;
      while state != Complete && state != Error
        invariant Run(Value()) == RequestSpec.Parse(old(Value()), data)
        decreases |buffer|, Rank(Value())
      {
        ghost var was := Value();
        if state == RequestLine {
          var ok := ParseRequestLine();
          if !ok {
            return false;
          }
          state := Headers;
        } else if state == Headers {
          var ok := ParseHeaders();
          if !ok {
            return false;
          }
          if HasBody(headers) {
            isChunked := ChunkedCoding(headers);
            state := Body;
          } else {
            state := Complete;
          }
        } else {
          var ok := ParseBody();
          if !ok {
            return false;
          }
          state := Complete;
        }
      }
      complete := state == Complete;
    }

    method ParseRequestLine() returns (ok: bool)
      requires state == RequestLine
      modifies this
      ensures ok ==> Step(old(Value())) == Goto(Value().(state := Headers))
      ensures !ok ==> Settled(Value()) && !state.Complete? && Run(old(Value())) == Value()
      ensures ok ==> |buffer| < |old(buffer)|
    {
      var cut := CutLine(buffer);
      if cut.NoLine? {
        return false;
      }
      ghost var next := ReadRequestLine(Value().(buffer := cut.rest), cut.line);
      RunStep(Value(), next);
      buffer := cut.rest;
      ok := SplitRequestLine(cut.line);
    }

    /** The part of parse_request_line after the line has been taken off the buffer. */
    method SplitRequestLine(line: string) returns (ok: bool)
      requires state == RequestLine
      modifies `state, `verb, `requestTarget, `protocol
      ensures Value().(state := if ok then Headers else Error) == ReadRequestLine(old(Value()), line)
      ensures !ok ==> state == Error
    {
      var firstSpace := FindChar(line, ' ', 0);
      if firstSpace < 0 {
        state := Error;
        return false;
      }
      var secondSpace := FindChar(line, ' ', firstSpace + 1);
      if secondSpace < 0 {
        state := Error;
        return false;
      }
      verb := line[..firstSpace];
      requestTarget := line[firstSpace + 1..secondSpace];
      protocol := line[secondSpace + 1..];
      if verb == "" || requestTarget == "" || protocol == "" {
        state := Error;
        return false;
      }
      return true;
    }

    method ParseHeaders() returns (ok: bool)
      requires state == Headers
      modifies this
      ensures ok ==> state == Headers && Run(AfterHeaders(Value())) == Run(old(Value()))
      ensures ok ==> |buffer| < |old(buffer)|
      ensures !ok ==> Settled(Value()) && !state.Complete? && Run(old(Value())) == Value()
    {
      while true
        invariant state == Headers && Run(Value()) == Run(old(Value()))
        invariant |buffer| <= |old(buffer)|
        decreases |buffer|
      {
        ghost var before := Value();
        var cut := CutLine(buffer);
        if cut.NoLine? {
          return false;
        }
        var line := cut.line;
        buffer := cut.rest;
        if line == "" {
          return true;
        }
        RunStep(before, ReadHeaderLine(before.(buffer := cut.rest), line));
        var stored := StoreHeader(line);
        if !stored {
          return false;
        }
      }
    }

    /** The part of parse_headers that takes one header line apart. */
    method StoreHeader(line: string) returns (ok: bool)
      modifies `state, `headers
      ensures Value() == ReadHeaderLine(old(Value()), line)
      ensures if ok then state == old(state) else state == Error
    {
      var colon := FindChar(line, ':', 0);
      if colon < 0 {
        state := Error;
        return false;
      }
      var key := Lower(line[..colon]);
      var value := Trim(line[colon + 1..]);
      headers := headers[key := value];
      ok := true;
    }

    /** The body has been read in full exactly when this returns true. */
    method ParseBody() returns (ok: bool)
      requires state == Body
      modifies this
      ensures ok ==> state == Body && Value().(state := Complete) == Run(old(Value()))
      ensures !ok ==> Settled(Value()) && !state.Complete? && Run(old(Value())) == Value()
      ensures |buffer| <= |old(buffer)|
    {
      if isChunked {
        ok := ParseChunkedBody();
      } else {
        ok := ParseFixedBody();
      }
    }

    method ParseFixedBody() returns (ok: bool)
      requires state == Body && !isChunked
      modifies `state, `bodyTooLarge, `body, `buffer
      ensures ok ==> state == Body && Value().(state := Complete) == Run(old(Value()))
      ensures !ok ==> Settled(Value()) && !state.Complete? && Run(old(Value())) == Value()
      ensures |buffer| <= |old(buffer)|
    {
      hide Run, AtolSize;
      ghost var was := Value();
      var contentLength := Header(headers, "content-length");
      if contentLength != "" {
        var len := AtolSize(contentLength);
        if maxBodySize > 0 && len > maxBodySize {
          RunStep(was, TooLarge(was));
          bodyTooLarge := true;
          state := Error;
          return false;
        }
        if len > |body| {
          var needed := len - |body|;
          if |buffer| >= needed {
            RunStep(was, was.Take(needed).(state := Complete));
            body := body + buffer[..needed];
            buffer := buffer[needed..];
            return true;
          }
          body := body + buffer;
          buffer := "";
          PartOfBody(was, Value());
          return false;
        }
      }
      RunStep(was, was.(state := Complete));
      return true;
    }

    static lemma PartOfBody(r: Request, n: Request)
      requires r.state.Body? && !r.chunked && Header(r.headers, "content-length") != ""
      requires var len := AtolSize(Header(r.headers, "content-length"));
               (r.maxBodySize == 0 || len <= r.maxBodySize) && |r.body| + |r.buffer| < len
      requires n == r.(body := r.body + r.buffer, buffer := "")
      ensures Settled(n) && Run(r) == n
    {
      hide Run, AtolSize;
      if r.buffer == "" {
        assert r.body + r.buffer == r.body;
      } else {
        assert r.buffer[..|r.buffer|] == r.buffer;
        RunStep(r, n);
      }
      SettledRuns(n);
    }

    method ParseChunkedBody() returns (ok: bool)
      requires state == Body && isChunked
      modifies this
      ensures ok ==> state == Body && Value().(state := Complete) == Run(old(Value()))
      ensures !ok ==> Settled(Value()) && !state.Complete? && Run(old(Value())) == Value()
      ensures |buffer| <= |old(buffer)|
    {
      while true
        invariant state == Body && isChunked && Run(Value()) == Run(old(Value()))
        invariant |buffer| <= |old(buffer)|
        decreases |buffer|, Rank(Value())
      {
        var done := false;
        if chunkedState == Size {
          done := ParseChunkSize();
        } else if chunkedState == Data {
          done := ParseChunkData();
        } else if chunkedState == DataCrlf {
          done := ParseChunkDataCrlf();
        } else {
          ok := ParseChunkTrailers();
          return;
        }
        if !done {
          return false;
        }
      }
    }

    method ParseChunkSize() returns (done: bool)
      requires state == Body && isChunked && chunkedState == Size
      modifies this
      ensures done ==> Step(old(Value())) == Goto(Value()) && state == Body && isChunked
      ensures !done ==> Settled(Value()) && !state.Complete? && Run(old(Value())) == Value()
      ensures |buffer| <= |old(buffer)|
    {
      var cut := CutLine(buffer);
      if cut.NoLine? {
        return false;
      }
      ghost var next := ReadSizeLine(Value().(buffer := cut.rest), cut.line);
      RunStep(Value(), next);
      buffer := cut.rest;
      done := ReadChunkSize(cut.line);
    }

    /** The part of parse_chunk_size after the line has been taken off the buffer. */
    method ReadChunkSize(line: string) returns (done: bool)
      requires state == Body
      modifies `state, `chunkRemaining, `chunkedState
      ensures Value() == ReadSizeLine(old(Value()), line)
      ensures done <==> state == Body
    {
      var sizeLine := line;
      var semi := FindChar(sizeLine, ';', 0);
      if semi >= 0 {
        sizeLine := sizeLine[..semi];
      }
      sizeLine := Trim(sizeLine);
      if sizeLine == "" {
        state := Error;
        return false;
      }
      var ok, size := ParseHexString(sizeLine);
      if !ok {
        state := Error;
        return false;
      }
      chunkRemaining := size;
      chunkedState := if chunkRemaining == 0 then Trailers else Data;
      return true;
    }

    method ParseChunkData() returns (done: bool)
      requires state == Body && isChunked && chunkedState == Data
      modifies this
      ensures done ==> Step(old(Value())) == Goto(Value()) && state == Body && isChunked
      ensures !done ==> Settled(Value()) && !state.Complete? && Run(old(Value())) == Value()
      ensures |buffer| <= |old(buffer)|
    {
      if |buffer| >= chunkRemaining {
        body := body + buffer[..chunkRemaining];
        buffer := buffer[chunkRemaining..];
        chunkRemaining := 0;
        chunkedState := DataCrlf;
      } else {
        if buffer == "" {
          assert body + buffer == body;
        } else {
          assert buffer[..|buffer|] == buffer;
        }
        chunkRemaining := chunkRemaining - |buffer|;
        body := body + buffer;
        buffer := "";
        return false;
      }
      if maxBodySize > 0 && |body| > maxBodySize {
        bodyTooLarge := true;
        state := Error;
        return false;
      }
      return true;
    }

    method ParseChunkDataCrlf() returns (done: bool)
      requires state == Body && isChunked && chunkedState == DataCrlf
      modifies this
      ensures done ==> Step(old(Value())) == Goto(Value()) && state == Body && isChunked
      ensures !done ==> Settled(Value()) && !state.Complete? && Run(old(Value())) == Value()
      ensures |buffer| <= |old(buffer)|
    {
      if |buffer| < 2 {
        return false;
      }
      if buffer[0] != '\r' || buffer[1] != '\n' {
        assert buffer[..2][0] == buffer[0] && buffer[..2][1] == buffer[1];
        state := Error;
        return false;
      }
      assert buffer[..2] == CRLF;
      buffer := buffer[2..];
      chunkedState := Size;
      return true;
    }

    method ParseChunkTrailers() returns (ok: bool)
      requires state == Body && isChunked && chunkedState == Trailers
      modifies this
      ensures ok ==> state == Body && Value().(state := Complete) == Run(old(Value()))
      ensures !ok ==> Settled(Value()) && !state.Complete? && Run(old(Value())) == Value()
      ensures |buffer| <= |old(buffer)|
    {
      while true
        invariant state == Body && isChunked && chunkedState == Trailers
        invariant Run(Value()) == Run(old(Value()))
        invariant |buffer| <= |old(buffer)|
        decreases |buffer|
      {
        var cut := CutLine(buffer);
        if cut.NoLine? {
          return false;
        }
        var line := cut.line;
        buffer := cut.rest;
        if line == "" {
          return true;
        }
      }
    }
  }
}
