/** A half-parsed chunked request moves from one decoder to a separately written one. */
module Handoff {
  import opened Bytes
  import opened Numbers
  import opened RequestSpec
  import opened RequestLaws
  import opened HeadLaws
  import opened DecoderSpec

  /** init_cgi_chunk_decoder(get_chunked_state(), ...). */
  function DecStateOf(c: ChunkState): DecState {
    match c
    case Size => DecSize
    case Data => DecData
    case DataCrlf => DecDataCrlf
    case Trailers => DecTrailers
  }

  /** The decoder dispatch_cgi sets up, before the parser's leftover bytes go through it. */
  function Handover(r: Request): Decoder {
    Decoder(DecStateOf(r.chunk), r.remaining, "")
  }

  /** That decoder once the leftover bytes have been appended to its buffer. */
  function Seeded(r: Request): (d: Decoder)
    ensures d == Handover(r).Feed(r.buffer)
  {
    assert "" + r.buffer == r.buffer;
    Decoder(DecStateOf(r.chunk), r.remaining, r.buffer)
  }

  /** A chunked body is being read. */
  predicate ReadingChunks(r: Request) {
    r.state.Body? && r.chunked && (r.chunk.Data? ==> r.remaining > 0)
  }

  // ------------------------------------------- where the decoders differ

  /**
   * The size fields both decoders treat alike. `HTTPRequest` trims blanks and rejects an empty
   * field; `Client` rejects blanks and reads an empty field as zero.
   */
  predicate FieldAgrees(line: string) {
    var f := SizeField(line);
    f != "" && (Trimmed(f) || !IsHex(Trim(f)) || Trim(f) == "")
  }

  /** Every size line the parser comes to is one both decoders treat alike. */
  predicate SizesAgree(r: Request)
    decreases |r.buffer|, Rank(r)
  {
    r.Terminal() || Step(r).Blocked? || (
      StepShrinks(r);
      (ReadingChunks(r) && r.chunk.Size? ==> FieldAgrees(CutLine(r.buffer).line)) && SizesAgree(Step(r).next))
  }

  /** Parser and decoder have come from `r` to the same place. */
  predicate Alike(r: Request, p: Request, o: Outcome) {
    && (o.ok <==> !p.state.Error?)
    && p.body == r.body + o.out
    && (o.ok ==> p.buffer == o.dec.buf && (o.dec.state.DecDone? <==> p.state.Complete?))
    && (!p.Terminal() ==> o.dec == Seeded(p))
  }

  lemma BlankIsNotHex(f: string)
    requires f != "" && !Trimmed(f)
    ensures !IsHex(f)
  {
    var i := if Blank(f[0]) then 0 else |f| - 1;
    assert HexDigit(f[i]) < 0;
  }

  lemma TrimmedEmpty(f: string)
    requires f != "" && Trimmed(f)
    ensures Trim(f) == f
  {
    TrimIdentity(f);
  }

  // ---------------------------------------------------------- simulation

  /** The decoder's step from `r` leads where the parser's step to `n` leads. */
  predicate Mirrors(r: Request, n: Request) {
    match DecStep(Seeded(r))
    case Continue(d, out) => d == Seeded(n) && n.body == r.body + out
    case Stop(o) =>
      n.buffer == "" && n.chunk.Data? && o == Waiting(Seeded(n), r.buffer) && n.body == r.body + r.buffer
  }

  /** A step of the parser inside a chunked body is the same step of the decoder. */
  lemma StepSimulates(r: Request)
    requires ReadingChunks(r) && r.buffer != "" && Step(r).Goto? && !Step(r).next.Terminal()
    requires r.chunk.Size? ==> FieldAgrees(CutLine(r.buffer).line)
    ensures ReadingChunks(Step(r).next) && Mirrors(r, Step(r).next)
  {
    hide ReadSizeLine, DecSizeLine, FieldAgrees, ChunkData, DecDataStep;
    if r.chunk.Size? {
      SizeStepSimulates(r);
    } else if r.chunk.Data? {
      DataStepSimulates(r);
    } else {
      assert r.body + "" == r.body;
    }
  }

  lemma DataStepSimulates(r: Request)
    requires ReadingChunks(r) && r.chunk.Data? && r.buffer != "" && ChunkData(r).Goto? && !ChunkData(r).next.Terminal()
    ensures ReadingChunks(ChunkData(r).next) && Mirrors(r, ChunkData(r).next)
  {
    if |r.buffer| < r.remaining {
      assert r.buffer[..|r.buffer|] == r.buffer && r.buffer[|r.buffer|..] == "";
    }
  }

  lemma SizeStepSimulates(r: Request)
    requires ReadingChunks(r) && r.chunk.Size? && Step(r).Goto? && !Step(r).next.Terminal()
    requires FieldAgrees(CutLine(r.buffer).line)
    ensures ReadingChunks(Step(r).next)
    ensures DecStep(Seeded(r)) == Continue(Seeded(Step(r).next), "") && Step(r).next.body == r.body + ""
  {
    hide ReadSizeLine, DecSizeLine, FieldAgrees;
    assert r.body + "" == r.body;
    var cut := CutLine(r.buffer);
    FieldReadsAlike(r.(buffer := cut.rest), cut.line);
  }

  lemma FieldReadsAlike(r: Request, line: string)
    requires r.state.Body? && r.chunked && r.chunk.Size? && FieldAgrees(line) && !ReadSizeLine(r, line).Terminal()
    ensures var n := ReadSizeLine(r, line);
            DecSizeLine(Seeded(r), line) == Continue(Seeded(n), "")
            && ReadingChunks(n) && n.body == r.body && n.buffer == r.buffer
  {
    var f := SizeField(line);
    if Trimmed(f) {
      TrimmedEmpty(f);
    }
  }

  /** The parser's last step is the decoder's last step. */
  lemma LastStepSimulates(r: Request)
    requires ReadingChunks(r) && r.buffer != "" && Step(r).Goto? && Step(r).next.Terminal()
    requires r.chunk.Size? ==> FieldAgrees(CutLine(r.buffer).line)
    requires !Step(r).next.bodyTooLarge
    ensures Alike(r, Step(r).next, Drain(Seeded(r)))
  {
    hide Run, Drain, ReadSizeLine, DecSizeLine, FieldAgrees;
    DrainUnfold(Seeded(r));
    assert r.body + "" == r.body;
    if r.chunk.Size? {
      var cut := CutLine(r.buffer);
      FieldFailsAlike(r.(buffer := cut.rest), cut.line);
    }
  }

  lemma FieldFailsAlike(r: Request, line: string)
    requires r.state.Body? && r.chunked && r.chunk.Size? && FieldAgrees(line) && ReadSizeLine(r, line).Terminal()
    ensures DecSizeLine(Seeded(r), line) == Stop(Failed(Seeded(r)))
    ensures ReadSizeLine(r, line) == r.(state := Error)
  {
    var f := SizeField(line);
    if Trimmed(f) {
      TrimmedEmpty(f);
    } else {
      BlankIsNotHex(f);
    }
  }

  lemma BlockedSimulates(r: Request)
    requires ReadingChunks(r) && Step(r).Blocked?
    ensures Alike(r, r, Drain(Seeded(r)))
  {
    assert r.body + "" == r.body;
  }

  /**
   * The simulation: seeded with the parser's chunk state, remaining count and buffer, the CGI
   * decoder emits the rest of the body the parser would have read and ends where it would end.
   */
  lemma {:induction false} DecoderSimulates(r: Request)
    requires ReadingChunks(r) && !Run(r).bodyTooLarge && SizesAgree(r)
    ensures Alike(r, Run(r), Drain(Seeded(r)))
    decreases |r.buffer|, Rank(r)
  {
    hide ChunkedBody, Alike, DecStep, Seeded, FieldAgrees;
    if Step(r).Blocked? {
      BlockedSimulates(r);
    } else {
      var n := Step(r).next;
      StepShrinks(r);
      NotStuck(r);
      if n.Terminal() {
        LastStepSimulates(r);
      } else {
        StepSimulates(r);
        DecoderSimulates(n);
        AlikeStep(r, n, Run(n));
      }
    }
  }

  lemma NotStuck(r: Request)
    requires ReadingChunks(r) && Step(r).Goto?
    ensures r.buffer != "" && (r.chunk.Size? ==> CutLine(r.buffer).Line?)
  {
  }

  lemma AlikeStep(r: Request, n: Request, p: Request)
    requires ReadingChunks(r) && r.buffer != "" && ReadingChunks(n)
    requires Alike(n, p, Drain(Seeded(n)))
    requires Mirrors(r, n)
    ensures Alike(r, p, Drain(Seeded(r)))
  {
    hide DecStep;
    DrainUnfold(Seeded(r));
    var out := if DecStep(Seeded(r)).Continue? then DecStep(Seeded(r)).out else r.buffer;
    Assoc(r.body, out, Drain(Seeded(n)).out);
    assert out + "" == out;
  }

  // ------------------------------------------------- and only then alike

  lemma {:induction false} TrailersNeverFail(r: Request)
    requires r.state.Body? && r.chunked && r.chunk.Trailers?
    ensures !Run(r).state.Error? && Run(r).body == r.body
    decreases |r.buffer|
  {
    if Step(r).Goto? && !Step(r).next.Terminal() {
      TrailersNeverFail(Step(r).next);
    }
  }

  lemma {:induction false} DecTrailersNeverFail(d: Decoder)
    requires d.state.DecTrailers?
    ensures Drain(d).ok && Drain(d).out == ""
    decreases |d.buf|
  {
    if d.buf != "" && DecStep(d).Continue? {
      DecTrailersNeverFail(DecStep(d).next);
    }
  }

  lemma DataNotBlocked(r: Request)
    requires ReadingChunks(r) && Run(r).state.Error?
    ensures Step(r).Goto?
  {
  }

  /** A parse that fails after the size line of a non-empty chunk has read some of its data. */
  lemma FailureInChunkGrows(r: Request)
    requires ReadingChunks(r) && r.chunk.Data? && Run(r).state.Error?
    ensures |Run(r).body| > |r.body|
  {
    hide ChunkedBody;
    DataNotBlocked(r);
    StepShrinks(r);
    ChunkedFrame(r);
    BodyGrows(Step(r).next);
  }

  /** At a size line the decoders treat differently, they part for good. */
  lemma DisagreementShows(r: Request)
    requires ReadingChunks(r) && r.chunk.Size? && Step(r).Goto? && !FieldAgrees(CutLine(r.buffer).line)
    ensures !Alike(r, Run(r), Drain(Seeded(r)))
  {
    hide Run, Drain;
    var cut := CutLine(r.buffer);
    var n := Step(r).next;
    RunStep(r, n);
    DrainUnfold(Seeded(r));
    DisagreeingField(r.(buffer := cut.rest), cut.line);
    if n.Terminal() {
      DecTrailersNeverFail(DecStep(Seeded(r)).next);
    } else if n.chunk.Trailers? {
      TrailersNeverFail(n);
    } else if Run(n).state.Error? {
      FailureInChunkGrows(n);
      assert |r.body + Drain(Seeded(r)).out| == |r.body|;
    }
  }

  lemma DisagreeingField(r: Request, line: string)
    requires r.state.Body? && r.chunked && r.chunk.Size? && !FieldAgrees(line)
    ensures var n := ReadSizeLine(r, line);
            n.body == r.body && n.chunked
            && if SizeField(line) == "" then n.state.Error? && DecSizeLine(Seeded(r), line)
                                                        == Continue(Seeded(r).(state := DecTrailers, remaining := 0), "")
               else DecSizeLine(Seeded(r), line) == Stop(Failed(Seeded(r)))
                    && n.state.Body? && (n.chunk.Trailers? || (n.chunk.Data? && n.remaining > 0))
  {
    var f := SizeField(line);
    if f == "" {
      assert Trim(f) == "";
      assert HexValue(f) == 0;
    } else {
      BlankIsNotHex(f);
    }
  }

  /**
   * Handing over is faithful exactly when every size line met on the way is one both decoders
   * treat alike: not empty, and not a numeral padded with blanks.
   */
  lemma {:induction false} HandoffExact(r: Request)
    requires ReadingChunks(r) && !Run(r).bodyTooLarge
    ensures Alike(r, Run(r), Drain(Seeded(r))) <==> SizesAgree(r)
    decreases |r.buffer|, Rank(r)
  {
    hide ChunkedBody, Alike, DecStep, Seeded, FieldAgrees;
    if SizesAgree(r) {
      DecoderSimulates(r);
    } else {
      var n := Step(r).next;
      StepShrinks(r);
      NotStuck(r);
      if r.chunk.Size? && !FieldAgrees(CutLine(r.buffer).line) {
        DisagreementShows(r);
      } else {
        assert n.Terminal() ==> SizesAgree(n);
        StepSimulates(r);
        HandoffExact(n);
        UnlikeStep(r, n, Run(n));
      }
    }
  }

  lemma UnlikeStep(r: Request, n: Request, p: Request)
    requires ReadingChunks(r) && r.buffer != "" && ReadingChunks(n)
    requires !Alike(n, p, Drain(Seeded(n)))
    requires Mirrors(r, n)
    ensures !Alike(r, p, Drain(Seeded(r)))
  {
    hide DecStep;
    DrainUnfold(Seeded(r));
    var out := if DecStep(Seeded(r)).Continue? then DecStep(Seeded(r)).out else r.buffer;
    Assoc(r.body, out, Drain(Seeded(n)).out);
    assert out + "" == out;
  }

  // --------------------------------------------------------- in pieces

  /** A failed call stays failed where it is, whatever follows in the buffer. */
  lemma {:induction false} FailureFeeds(d: Decoder, b: string)
    requires !Drain(d).ok
    ensures !Drain(d.Feed(b)).ok && Drain(d.Feed(b)).out == Drain(d).out
    decreases |d.buf|, DecRank(d)
  {
    hide DecStep;
    DrainUnfold(d);
    DrainUnfold(d.Feed(b));
    match DecStep(d)
    case Continue(n, out) =>
      StepShrinksBuf(d);
      ContinueFeeds(d, b);
      FailureFeeds(n, b);
    case Stop(o) =>
      StopFailureFeeds(d, b);
  }

  lemma StopFailureFeeds(d: Decoder, b: string)
    requires d.buf != "" && DecStep(d).Stop? && !DecStep(d).outcome.ok
    ensures DecStep(d.Feed(b)).Stop? && !DecStep(d.Feed(b)).outcome.ok && DecStep(d.Feed(b)).outcome.out == ""
    ensures DecStep(d).outcome.out == ""
  {
    if d.state.DecSize? {
      CutLineExtends(d.buf, b);
    } else {
      CutFirst(d.buf, b, 2);
    }
  }

  predicate SameFlow(o: Outcome, p: Outcome) {
    o.ok == p.ok && o.out == p.out && (o.ok ==> o.dec == p.dec)
  }

  /** Decoding piece by piece, stopping at a failure, is decoding all at once. */
  lemma {:induction false} DecodeAllJoins(d: Decoder, pieces: seq<string>)
    requires pieces != []
    ensures SameFlow(DecodeAll(d, pieces), Decode(d, Join(pieces)))
    decreases |pieces|
  {
    hide Drain;
    var a, rest := pieces[0], pieces[1..];
    var o := Decode(d, a);
    if |pieces| == 1 {
      assert Join(rest) == "" && a + "" == a;
    } else if o.ok {
      DecodeAllJoins(o.dec, rest);
      DecodeSplit(d, a, Join(rest));
    } else {
      FailureFeeds(d.Feed(a), Join(rest));
      Assoc(d.buf, a, Join(rest));
      assert d.Feed(a).Feed(Join(rest)) == d.Feed(a + Join(rest));
    }
  }

  /** What dispatch finds in the buffer of a request still in its body is already taken in. */
  lemma LeftoverIsIdle(r: Request)
    requires ReadingChunks(r) && Step(r).Blocked?
    ensures Decode(Handover(r), r.buffer) == Waiting(Seeded(r), "")
  {
  }

  /**
   * Handoff over a stream: hand a chunked request over in mid-body and decode the later reads,
   * however they are cut. Unless the parser would have found the body too large, the decoder
   * emits exactly the rest of the body, fails exactly when the parser fails and is done exactly
   * when the parser is complete, if and only if every size line read is one both treat alike.
   */
  lemma HandoffOverStream(r: Request, pieces: seq<string>)
    requires ReadingChunks(r) && Step(r).Blocked? && pieces != []
    requires !ParseAll(r, pieces).bodyTooLarge
    ensures Alike(r, ParseAll(r, pieces), DecodeAll(Decode(Handover(r), r.buffer).dec, pieces))
       <==> SizesAgree(r.Feed(Join(pieces)))
  {
    hide Run, Drain, SizesAgree;
    var data := Join(pieces);
    LeftoverIsIdle(r);
    FragmentationInvariance(r, pieces);
    DecodeAllJoins(Seeded(r), pieces);
    HandoffExact(r.Feed(data));
    assert Seeded(r).Feed(data) == Seeded(r.Feed(data));
  }

  /** Every chunked request the server can hand over in mid-body is one of these. */
  lemma ReachableReadsChunks(limit: nat, data: string)
    ensures var r := Parse(Fresh(limit), data);
            r.state.Body? && r.chunked ==> ReadingChunks(r) && Step(r).Blocked?
  {
    hide Run, Step;
    RunSettles(Fresh(limit).Feed(data));
    RunSound(Fresh(limit).Feed(data));
  }

  // ------------------------------------------- complete before dispatch

  /**
   * A chunked request that is already complete when it is handed over: the decoder waits among
   * the trailers for a blank line that has gone by. No byte is added, and the end of the body is
   * reported if and only if what follows the request in the buffer has a blank line of its own.
   */
  lemma CompleteHandoff(r: Request)
    requires Sound(r) && r.state.Complete? && r.chunked
    ensures var o := Decode(Handover(r), r.buffer);
            o.ok && o.out == "" && (o.eof <==> BlankLine(r.buffer).Open?)
  {
    TrailersWaitForBlank(Seeded(r));
    DecTrailersNeverFail(Seeded(r));
  }

  lemma {:induction false} TrailersWaitForBlank(d: Decoder)
    requires d.state.DecTrailers?
    ensures Drain(d).eof <==> BlankLine(d.buf).Open?
    decreases |d.buf|
  {
    match CutLine(d.buf)
    case NoLine => NoLineNoBlank(d.buf);
    case Line(line, rest) =>
      if line == "" {
        assert d.buf == CRLF + rest;
        BlankLineAtFront(rest);
      } else {
        BlankLineAfter(line, rest);
        TrailersWaitForBlank(d.(buf := rest));
      }
  }

  /** With nothing after the request, the call made at dispatch does not report the end. */
  lemma CompleteHandoffHangs(r: Request)
    requires Sound(r) && r.state.Complete? && r.chunked && r.buffer == ""
    ensures !Decode(Handover(r), r.buffer).eof
  {
  }
}
