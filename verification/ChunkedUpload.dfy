/** From the printed request to the CGI: a chunked upload arrives whole, wherever it changes decoders. */
module ChunkedUpload {
  import opened Bytes
  import opened RequestSpec
  import opened RequestLaws
  import opened HeadLaws
  import opened RoundTrip
  import opened Handoff
  import opened InputSpec
  import opened InputLaws
  import HeaderGating

  // ------------------------------------------- printed sizes are agreed

  lemma AgreeStep(r: Request, n: Request)
    requires !r.Terminal() && Step(r) == Goto(n) && SizesAgree(n)
    requires ReadingChunks(r) && r.chunk.Size? ==> CutLine(r.buffer).Line? && FieldAgrees(CutLine(r.buffer).line)
    ensures SizesAgree(r)
  {
    StepShrinks(r);
  }

  /** Trailer lines are never size lines. */
  lemma {:induction false} TrailersAgree(r: Request)
    requires r.state.Body? && r.chunked && r.chunk.Trailers?
    ensures SizesAgree(r)
    decreases |r.buffer|
  {
    if Step(r).Goto? {
      if !Step(r).next.Terminal() {
        TrailersAgree(Step(r).next);
      }
      AgreeStep(r, Step(r).next);
    }
  }

  lemma SizeLineAgrees(size: string, ext: string, n: nat, rest: string, r: Request)
    requires ValidSize(size, ext, n)
    requires r.state.Body? && r.chunked && r.chunk.Size? && r.buffer == size + ext + CRLF + rest
    requires SizesAgree(WithChunkSize(r.(buffer := rest), n))
    ensures SizesAgree(r)
  {
    hide SizesAgree, Step, Run, CutLine, FieldAgrees;
    SizeLineStep(size, ext, n, rest, r);
    SizeAgrees(size, ext, n);
    AgreeStep(r, WithChunkSize(r.(buffer := rest), n));
  }

  lemma SizeAgrees(size: string, ext: string, n: nat)
    requires ValidSize(size, ext, n)
    ensures FieldAgrees(size + ext)
  {
    SizeFieldParses(size, ext);
    TrimIdentity(size);
  }

  lemma ChunkAgrees(c: Chunk, rest: string, r: Request)
    requires ValidChunk(c)
    requires r.state.Body? && r.chunked && r.chunk.Size? && r.remaining == 0 && r.maxBodySize == 0
    requires r.buffer == c.size + c.ext + CRLF + (c.data + (CRLF + rest))
    requires SizesAgree(r.(body := r.body + c.data, buffer := rest))
    ensures SizesAgree(r)
  {
    hide SizesAgree, FieldAgrees;
    var more := c.data + (CRLF + rest);
    var d := WithChunkSize(r.(buffer := more), |c.data|);
    CutSecond(c.data, CRLF + rest, 0);
    var e := r.(body := r.body + c.data, buffer := CRLF + rest, chunk := DataCrlf);
    CutSecond(CRLF, rest, 0);
    AgreeStep(e, r.(body := r.body + c.data, buffer := rest));
    AgreeStep(d, e);
    SizeLineAgrees(c.size, c.ext, |c.data|, more, r);
  }

  lemma {:induction false} ChunksAgree(chunks: seq<Chunk>, rest: string, r: Request)
    requires forall i :: 0 <= i < |chunks| ==> ValidChunk(chunks[i])
    requires r.state.Body? && r.chunked && r.chunk.Size? && r.remaining == 0 && r.maxBodySize == 0
    requires r.buffer == PrintChunks(chunks) + rest
    requires SizesAgree(r.(body := r.body + Concat(chunks), buffer := rest))
    ensures SizesAgree(r)
    decreases |chunks|
  {
    hide SizesAgree;
    if chunks == [] {
      assert r.body + Concat(chunks) == r.body && r.buffer == rest;
    } else {
      var c, more := chunks[0], PrintChunks(chunks[1..]) + rest;
      var n := r.(body := r.body + c.data, buffer := more);
      PrintChunksUnfolds(chunks, rest);
      Assoc(r.body, c.data, Concat(chunks[1..]));
      ChunksAgree(chunks[1..], rest, n);
      ChunkAgrees(c, more, r);
    }
  }

  /** Every size line of a printed coding is one both decoders treat alike. */
  lemma CodingAgrees(k: Coding, suffix: string, r: Request)
    requires ValidCoding(k)
    requires r.state.Body? && r.chunked && r.chunk.Size? && r.remaining == 0 && r.maxBodySize == 0
    requires r.buffer == PrintCoding(k) + suffix
    ensures SizesAgree(r)
  {
    hide SizesAgree;
    var rest := PrintTrailers(k.trailers) + suffix;
    var last := k.lastSize + k.lastExt + CRLF + rest;
    assert r.buffer == PrintChunks(k.chunks) + last;
    var n := r.(body := r.body + Concat(k.chunks), buffer := last);
    TrailersAgree(WithChunkSize(n.(buffer := rest), 0));
    SizeLineAgrees(k.lastSize, k.lastExt, 0, rest, n);
    ChunksAgree(k.chunks, last, r);
  }

  // --------------------------------------------- at any point of a parse

  /** Past the step the parser takes now, the size lines still to come are still agreed. */
  lemma AgreePastStep(r: Request, b: string)
    requires r.state.Body? && r.chunked && Step(r).Goto? && SizesAgree(r.Feed(b))
    ensures SizesAgree(Step(r).next.Feed(b))
    ensures r.chunk.Size? && ReadingChunks(r) ==> CutLine(r.buffer).Line? && FieldAgrees(CutLine(r.buffer).line)
  {
    hide FieldAgrees;
    var n := Step(r).next;
    if r.chunk.Data? && |r.buffer| < r.remaining {
      if b == "" {
        assert r.Feed(b) == r && n.Feed(b) == n;
      } else {
        AbsorbChunkStep(r, n, b);
        StepShrinks(n.Feed(b));
      }
    } else if r.chunk.Data? {
      CutFirst(r.buffer, b, r.remaining);
    } else if r.chunk.DataCrlf? {
      CutFirst(r.buffer, b, 2);
    } else {
      CutLineExtends(r.buffer, b);
      LineStepFeeds(r, b);
    }
  }

  /** Size lines agreed on the whole stream are agreed on each part of it. */
  lemma {:induction false} AgreeAlong(r: Request, b: string)
    requires r.state.Body? && ReadingChunks(r) && SizesAgree(r.Feed(b))
    ensures SizesAgree(r) && SizesAgree(Run(r).Feed(b))
    decreases |r.buffer|, Rank(r)
  {
    hide ChunkedBody, FieldAgrees;
    if Step(r).Goto? {
      var n := Step(r).next;
      StepShrinks(r);
      AgreePastStep(r, b);
      if !n.Terminal() {
        ChunkedKeepsReading(r);
        AgreeAlong(n, b);
      }
      AgreeStep(r, n);
    }
  }

  lemma SizeLineKeepsReading(r: Request, line: string)
    requires ReadingChunks(r) && !ReadSizeLine(r, line).Terminal()
    ensures ReadingChunks(ReadSizeLine(r, line))
  {
  }

  lemma DataKeepsReading(r: Request)
    requires ReadingChunks(r) && ChunkData(r).Goto? && !ChunkData(r).next.Terminal()
    ensures ReadingChunks(ChunkData(r).next)
  {
  }

  lemma ChunkedKeepsReading(r: Request)
    requires ReadingChunks(r) && ChunkedBody(r).Goto? && !ChunkedBody(r).next.Terminal()
    ensures ReadingChunks(ChunkedBody(r).next)
  {
    hide ReadSizeLine, ChunkData;
    if r.chunk.Data? {
      DataKeepsReading(r);
    } else if r.chunk.Size? {
      var cut := CutLine(r.buffer);
      SizeLineKeepsReading(r.(buffer := cut.rest), cut.line);
    }
  }

  lemma SizeLineUnseen(r: Request, line: string)
    ensures ReadSizeLine(Unlimited(r), line) == Unlimited(ReadSizeLine(r, line))
  {
  }

  lemma DataUnseen(r: Request)
    requires r.state.Body?
    ensures ChunkData(r).Blocked? ==> ChunkData(Unlimited(r)).Blocked?
    ensures ChunkData(r).Goto? && !ChunkData(r).next.state.Error? ==>
              ChunkData(Unlimited(r)) == Goto(Unlimited(ChunkData(r).next))
  {
  }

  lemma StepUnseen(r: Request)
    requires r.state.Body? && r.chunked
    ensures ChunkedBody(r).Blocked? ==> ChunkedBody(Unlimited(r)).Blocked?
    ensures ChunkedBody(r).Goto? && !ChunkedBody(r).next.state.Error? ==>
              ChunkedBody(Unlimited(r)) == Goto(Unlimited(ChunkedBody(r).next))
  {
    hide ReadSizeLine, ChunkData;
    if r.chunk.Data? {
      DataUnseen(r);
    } else if r.chunk.Size? && CutLine(r.buffer).Line? {
      var cut := CutLine(r.buffer);
      SizeLineUnseen(r.(buffer := cut.rest), cut.line);
    }
  }

  /** A parse that was not stopped by the limit went as it would have without one. */
  lemma {:induction false} LimitUnseen(r: Request)
    requires r.state.Body? && r.chunked && !Run(r).state.Error?
    ensures Run(Unlimited(r)) == Unlimited(Run(r))
    decreases |r.buffer|, Rank(r)
  {
    hide ChunkedBody;
    StepUnseen(r);
    if Step(r).Goto? {
      var n := Step(r).next;
      StepShrinks(r);
      ChunkedFrame(r);
      RunStep(r, n);
      RunStep(Unlimited(r), Unlimited(n));
      if !n.Terminal() {
        LimitUnseen(n);
      }
    }
  }

  // ------------------------------------------------------------- upload

  lemma HeadReadUnlimited(h: Head, limit: nat, rest: string)
    ensures Unlimited(HeadRead(h, limit, rest)) == HeadRead(h, 0, rest)
  {
  }

  /** The request at handoff is the printed one, read as far as `got`. */
  lemma UploadHandsOver(h: Head, limit: nat, got: string)
    requires ValidHead(h) && ChunkedCoding(FieldMap(h.fields, map[]))
    requires Parse(Fresh(limit), PrintHead(h) + got).state.Body?
    ensures var r := Parse(Fresh(limit), PrintHead(h) + got);
            HandedOver(r) && r.chunked && Unlimited(r) == Run(HeadRead(h, 0, got))
  {
    hide Run, Step, FieldMap, HeadRead;
    HeadParses(h, limit, got);
    ChunkedHeadRead(h, limit, got, got);
    ChunkedStays(HeadRead(h, limit, got));
    LimitUnseen(HeadRead(h, limit, got));
    HeadReadUnlimited(h, limit, got);
    RunSettles(Fresh(limit).Feed(PrintHead(h) + got));
    RunSound(Fresh(limit).Feed(PrintHead(h) + got));
  }

  lemma PrintedWhole(h: Head, k: Coding, suffix: string)
    requires ValidCoding(k) && ChunkedCoding(FieldMap(h.fields, map[]))
    ensures var q := Run(HeadRead(h, 0, PrintCoding(k) + suffix));
            q.state.Complete? && q.body == Concat(k.chunks)
    ensures SizesAgree(HeadRead(h, 0, PrintCoding(k) + suffix))
  {
    hide Run, FieldMap, HeadRead, SizesAgree;
    var r := HeadRead(h, 0, PrintCoding(k) + suffix);
    ChunkedHeadRead(h, 0, PrintCoding(k) + suffix, suffix);
    Assoc(PrintChunks(k.chunks), k.lastSize + k.lastExt + CRLF + PrintTrailers(k.trailers), suffix);
    CodingParses(k, suffix, r);
    CodingAgrees(k, suffix, r);
  }

  lemma StaysPut(p: Request, rest: string)
    ensures p.state.Error? ==> Parse(p, rest).state.Error?
    ensures p.state.Complete? ==> Parse(p, rest).body == p.body
  {
  }

  /** The parser on a beginning of the printed body, and on all of it. */
  lemma UploadParses(h: Head, k: Coding, suffix: string, part: string, rest: string)
    requires ValidCoding(k) && ChunkedCoding(FieldMap(h.fields, map[]))
    requires part + rest == PrintCoding(k) + suffix
    ensures var p := Run(HeadRead(h, 0, part));
            && !p.state.Error? && p.body <= Concat(k.chunks)
            && (p.state.Complete? ==> p.body == Concat(k.chunks))
            && (rest == "" ==> p.state.Complete?)
            && SizesAgree(HeadRead(h, 0, part))
  {
    hide Run, Step, FieldMap, HeadRead, SizesAgree;
    var r := HeadRead(h, 0, part);
    var p := Run(r);
    PrintedWhole(h, k, suffix);
    ChunkedHeadRead(h, 0, part, part + rest);
    assert r.Feed(rest) == HeadRead(h, 0, part + rest);
    RunThenParse(r, rest);
    StaysPut(p, rest);
    ChunkedStays(r);
    HeaderGating.NeverBack(r);
    BodyGrows(p.Feed(rest));
    AgreeAlong(r, rest);
    if rest == "" {
      assert part + rest == part;
    }
  }

  /**
   * A chunked upload to a CGI, end to end. Print a request and its chunks; hand it over after
   * any part `got` of the body that leaves it unfinished; let the exchange run in any way, having
   * read part or all of the rest. Decoding never fails; what the CGI is given is a beginning of
   * the concatenated chunks, and all of it once all has been read; and its input is ended then,
   * and not before unless the client or the pipe has gone.
   */
  lemma ChunkedUploadArrives(h: Head, k: Coding, suffix: string, limit: nat, got: string, rest: string,
                             room: nat, calls: seq<InCall>)
    requires ValidHead(h) && ValidCoding(k) && ChunkedCoding(FieldMap(h.fields, map[]))
    requires var r := Parse(Fresh(limit), PrintHead(h) + got);
             r.state.Body? && IsInRun(Dispatch(r, room), calls)
             && got + AfterInRun(Dispatch(r, room), calls).log.received + rest == PrintCoding(k) + suffix
    ensures var s := AfterInRun(Dispatch(Parse(Fresh(limit), PrintHead(h) + got), room), calls);
            && !s.log.Failed() && s.log.accepted <= Concat(k.chunks)
            && (rest == "" ==> s.log.accepted == Concat(k.chunks) && (s.eof || !s.open))
            && ((s.eof || !s.open) && !s.log.broken && !s.log.ended ==> s.log.accepted == Concat(k.chunks))
  {
    hide Run, Step, FieldMap, HeadRead, SizesAgree, Dispatch, AfterInRun, IsInRun, PrintCoding, Sound, PrintHead, Concat;
    var r := Parse(Fresh(limit), PrintHead(h) + got);
    var s := AfterInRun(Dispatch(r, room), calls);
    var first := HeadRead(h, 0, got);
    UploadHandsOver(h, limit, got);
    CgiIsFedTheBody(r, room, calls);
    UploadParses(h, k, suffix, got + s.log.received, rest);
    ChunkedHeadRead(h, 0, got, got + s.log.received);
    assert first.Feed(s.log.received) == HeadRead(h, 0, got + s.log.received);
    RunThenParse(first, s.log.received);
    AgreeAlong(first, s.log.received);
  }
}
