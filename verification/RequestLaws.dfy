/** The meaning of a request does not depend on how the stream was cut into reads. */
module RequestLaws {
  import opened Bytes
  import opened Numbers
  import opened RequestSpec

  // ---------------------------------------------------- split invariance

  /** A step taken now is still the right first step once more bytes have arrived. */
  lemma StepCommutes(r: Request, data: string)
    requires !r.Terminal() && Step(r).Goto?
    ensures Parse(r, data) == Parse(Step(r).next, data)
  {
    var n := Step(r).next;
    if r.state.Body? && !r.chunked {
      FixedBodyCommutes(r, data);
    } else if r.state.Body? && r.chunk.Data? {
      ChunkDataCommutes(r, data);
    } else if r.state.Body? && r.chunk.DataCrlf? {
      CutFirst(r.buffer, data, 2);
      RunStep(r.Feed(data), n.Feed(data));
    } else {
      LineCommutes(r, data);
    }
  }

  /** The states in which a step takes a line. */
  predicate ReadsLines(r: Request) {
    !r.Terminal() && (r.state.Body? ==> r.chunked && (r.chunk.Size? || r.chunk.Trailers?))
  }

  /** What a line does, once it has been taken off the buffer. */
  function TakeLine(r: Request, line: string): Request
    requires ReadsLines(r)
  {
    match r.state
    case RequestLine => ReadRequestLine(r, line)
    case Headers => if line == "" then AfterHeaders(r) else ReadHeaderLine(r, line)
    case _ =>
      if r.chunk.Size? then ReadSizeLine(r, line) else if line == "" then r.(state := Complete) else r
  }

  lemma StepTakesLine(r: Request)
    requires ReadsLines(r)
    ensures Step(r) == match CutLine(r.buffer)
                       case NoLine => Blocked
                       case Line(line, rest) => Goto(TakeLine(r.(buffer := rest), line))
  {
    hide CutLine, ReadRequestLine, AfterHeaders, ReadHeaderLine, ReadSizeLine;
  }

  /** What a line does does not depend on what is behind it. */
  lemma TakeLineBuffer(r: Request, line: string, buffer: string)
    requires ReadsLines(r)
    ensures TakeLine(r.(buffer := buffer), line) == TakeLine(r, line).(buffer := buffer)
    ensures TakeLine(r, line).buffer == r.buffer
  {
    hide ReadRequestLine, AfterHeaders, ReadHeaderLine, ReadSizeLine;
    match r.state
    case RequestLine => RequestLineBuffer(r, line, buffer);
    case Headers => HeaderLineBuffer(r, line, buffer);
    case _ => SizeLineBuffer(r, line, buffer);
  }

  lemma RequestLineBuffer(r: Request, line: string, buffer: string)
    ensures ReadRequestLine(r.(buffer := buffer), line) == ReadRequestLine(r, line).(buffer := buffer)
    ensures ReadRequestLine(r, line).buffer == r.buffer
  {
  }

  lemma HeaderLineBuffer(r: Request, line: string, buffer: string)
    ensures AfterHeaders(r.(buffer := buffer)) == AfterHeaders(r).(buffer := buffer)
    ensures ReadHeaderLine(r.(buffer := buffer), line) == ReadHeaderLine(r, line).(buffer := buffer)
    ensures AfterHeaders(r).buffer == ReadHeaderLine(r, line).buffer == r.buffer
  {
    hide Trim, Lower, ChunkedCoding;
  }

  lemma SizeLineBuffer(r: Request, line: string, buffer: string)
    ensures ReadSizeLine(r.(buffer := buffer), line) == ReadSizeLine(r, line).(buffer := buffer)
    ensures ReadSizeLine(r, line).buffer == r.buffer
  {
    hide Trim, SizeField;
  }

  lemma LineCommutes(r: Request, data: string)
    requires ReadsLines(r) && Step(r).Goto?
    ensures Parse(r, data) == Parse(Step(r).next, data)
  {
    hide Step, Run, TakeLine, CutLine;
    StepTakesLine(r);
    CutLineExtends(r.buffer, data);
    LineStepFeeds(r, data);
    RunStep(r.Feed(data), Step(r).next.Feed(data));
  }

  lemma LineStepFeeds(r: Request, data: string)
    requires ReadsLines(r) && CutLine(r.buffer).Line?
    requires CutLine(r.buffer + data) == Line(CutLine(r.buffer).line, CutLine(r.buffer).rest + data)
    ensures Step(r).Goto? && Step(r.Feed(data)) == Goto(Step(r).next.Feed(data))
  {
    hide Step, TakeLine, CutLine;
    var cut := CutLine(r.buffer);
    var n := r.(buffer := cut.rest);
    StepTakesLine(r);
    StepTakesLine(r.Feed(data));
    TakeLineBuffer(n, cut.line, cut.rest);
    TakeLineBuffer(n, cut.line, cut.rest + data);
  }

  lemma FixedBodyCommutes(r: Request, data: string)
    requires r.state.Body? && !r.chunked && Step(r).Goto?
    ensures Parse(r, data) == Parse(Step(r).next, data)
  {
    var n := Step(r).next;
    if n.Terminal() {
      var k := |n.body| - |r.body|;
      CutFirst(r.buffer, data, k);
      RunStep(r.Feed(data), n.Feed(data));
    } else {
      AbsorbCommutes(r, n, data);
    }
  }

  lemma ChunkDataCommutes(r: Request, data: string)
    requires r.state.Body? && r.chunked && r.chunk.Data? && Step(r).Goto?
    ensures Parse(r, data) == Parse(Step(r).next, data)
  {
    var n := Step(r).next;
    if |r.buffer| >= r.remaining {
      CutFirst(r.buffer, data, r.remaining);
      RunStep(r.Feed(data), n.Feed(data));
    } else {
      AbsorbCommutes(r, n, data);
    }
  }

  /** Moving a partial body piece early, then the rest, is the same as moving both at once. */
  lemma AbsorbCommutes(r: Request, n: Request, data: string)
    requires r.state.Body? && Step(r) == Goto(n) && n.state.Body? && n.buffer == ""
    requires !r.chunked || (r.chunk.Data? && |r.buffer| < r.remaining)
    requires n.body == r.body + r.buffer
    ensures Parse(r, data) == Parse(n, data)
  {
    var s, t := r.Feed(data), n.Feed(data);
    if data == "" {
      assert s == r && t == n;
      RunStep(r, n);
    } else {
      if r.chunked {
        AbsorbChunkStep(r, n, data);
      } else {
        AbsorbFixedStep(r, n, data);
      }
      StepShrinks(s);
      StepShrinks(t);
      RunStep(s, Step(s).next);
      RunStep(t, Step(s).next);
    }
  }

  lemma TakeAfterAbsorb(r: Request, n: Request, data: string, k: nat)
    requires n.buffer == "" && n.body == r.body + r.buffer && k <= |data|
    ensures r.Feed(data).Take(|r.buffer| + k).body == n.Feed(data).Take(k).body
    ensures r.Feed(data).Take(|r.buffer| + k).buffer == n.Feed(data).Take(k).buffer
  {
    CutSecond(r.buffer, data, k);
    assert n.buffer + data == data;
    assert r.body + (r.buffer + data[..k]) == n.body + data[..k];
  }

  lemma AbsorbChunkStep(r: Request, n: Request, data: string)
    requires r.state.Body? && r.chunked && r.chunk.Data? && |r.buffer| < r.remaining && data != ""
    requires Step(r) == Goto(n)
    ensures Step(r.Feed(data)) == Step(n.Feed(data)) && Step(r.Feed(data)).Goto?
  {
    TakeAfterAbsorb(r, n, data, if |data| >= n.remaining then n.remaining else |data|);
  }

  lemma AbsorbFixedStep(r: Request, n: Request, data: string)
    requires r.state.Body? && !r.chunked && data != ""
    requires FixedBody(r) == Goto(n) && n.state.Body?
    ensures FixedBody(r.Feed(data)) == FixedBody(n.Feed(data)) && FixedBody(r.Feed(data)).Goto?
  {
    hide AtolSize, Header;
    var left := AtolSize(Header(r.headers, "content-length")) - |n.body|;
    TakeAfterAbsorb(r, n, data, if |data| >= left then left else |data|);
  }

  /** Parsing a piece and then another is parsing both at once, in every field. */
  lemma {:induction false} SplitInvariance(r: Request, a: string, b: string)
    ensures Parse(Parse(r, a), b) == Parse(r, a + b)
  {
    assert r.Feed(a).Feed(b) == r.Feed(a + b) by { assert r.buffer + a + b == r.buffer + (a + b); }
    RunThenParse(r.Feed(a), b);
  }

  lemma {:induction false} RunThenParse(r: Request, data: string)
    ensures Parse(Run(r), data) == Parse(r, data)
    decreases |r.buffer|, Rank(r)
  {
    if !r.Terminal() && Step(r).Goto? {
      StepShrinks(r);
      RunThenParse(Step(r).next, data);
      StepCommutes(r, data);
    }
  }

  /** Every fragmentation of a byte stream gives the same request. */
  lemma {:induction false} FragmentationInvariance(r: Request, pieces: seq<string>)
    requires pieces != []
    ensures ParseAll(r, pieces) == Parse(r, Join(pieces))
    decreases |pieces|
  {
    var p := Parse(r, pieces[0]);
    if |pieces| == 1 {
      assert pieces[1..] == [];
      assert Join(pieces) == pieces[0];
    } else {
      FragmentationInvariance(p, pieces[1..]);
      SplitInvariance(r, pieces[0], Join(pieces[1..]));
    }
  }

  /** What `parse` leaves behind is settled: parsing nothing more changes nothing. */
  lemma {:induction false} RunSettles(r: Request)
    ensures Settled(Run(r)) && Run(Run(r)) == Run(r)
    decreases |r.buffer|, Rank(r)
  {
    if !r.Terminal() && Step(r).Goto? {
      StepShrinks(r);
      RunSettles(Step(r).next);
    }
  }

  // ------------------------------------------------------ growing bodies

  lemma ChunkedStepAdds(r: Request)
    requires r.state.Body? && ChunkedBody(r).Goto?
    ensures r.body <= ChunkedBody(r).next.body
  {
    hide ChunkData, ReadSizeLine;
    if r.chunk.Data? {
      ChunkDataAdds(r);
    } else if r.chunk.Size? {
      var cut := CutLine(r.buffer);
      SizeLineFrame(r.(buffer := cut.rest), cut.line);
    }
  }

  lemma ChunkDataAdds(r: Request)
    requires r.state.Body? && ChunkData(r).Goto?
    ensures r.body <= ChunkData(r).next.body
  {
  }

  lemma FixedStepAdds(r: Request)
    requires r.state.Body? && FixedBody(r).Goto?
    ensures r.body <= FixedBody(r).next.body
  {
  }

  /** Bytes once in a body stay there. */
  lemma {:induction false} BodyGrows(r: Request)
    ensures r.body <= Run(r).body
    decreases |r.buffer|, Rank(r)
  {
    hide ChunkedBody, FixedBody;
    if !r.Terminal() && Step(r).Goto? {
      StepShrinks(r);
      if r.state.Body? && r.chunked {
        ChunkedStepAdds(r);
      } else if r.state.Body? {
        FixedStepAdds(r);
      }
      BodyGrows(Step(r).next);
    }
  }

  // ------------------------------------------------------ what is unread

  /** A step never looks past the bytes it takes, unless it fails. */
  lemma StepWithout(r: Request, x: string, t: string)
    requires !r.Terminal() && Step(r).Goto? && !Step(r).next.state.Error? && Step(r).next.buffer == x + t
    ensures |t| <= |r.buffer|
    ensures var w := r.buffer[..|r.buffer| - |t|];
            r.buffer == w + t && Step(r.(buffer := w)) == Goto(Step(r).next.(buffer := x))
  {
    hide Run;
    if r.state.Body? && (!r.chunked || r.chunk.Data?) {
      TakeWithout(r, x, t);
    } else if r.state.Body? && r.chunk.DataCrlf? {
      assert r.buffer == CRLF + (x + t) && r.buffer[..|r.buffer| - |t|] == CRLF + x;
    } else {
      LineWithout(r, x, t);
    }
  }

  lemma LineWithout(r: Request, x: string, t: string)
    requires ReadsLines(r) && Step(r).Goto? && Step(r).next.buffer == x + t
    ensures |t| <= |r.buffer|
    ensures var w := r.buffer[..|r.buffer| - |t|];
            r.buffer == w + t && Step(r.(buffer := w)) == Goto(Step(r).next.(buffer := x))
  {
    hide Step, TakeLine, CutLine;
    StepTakesLine(r);
    var cut := CutLine(r.buffer);
    LineOfCut(r.buffer);
    TakeLineBuffer(r.(buffer := cut.rest), cut.line, x);
    assert r.buffer == (cut.line + CRLF + x) + t;
    CutLineOf(cut.line, x);
    StepTakesLine(r.(buffer := cut.line + CRLF + x));
  }

  lemma LineOfCut(s: string)
    requires CutLine(s).Line?
    ensures var cut := CutLine(s); s == cut.line + CRLF + cut.rest && !Contains(cut.line, CRLF)
  {
  }

  lemma TakeWithout(r: Request, x: string, t: string)
    requires r.state.Body? && (!r.chunked || r.chunk.Data?)
    requires Step(r).Goto? && !Step(r).next.state.Error? && Step(r).next.buffer == x + t
    ensures |t| <= |r.buffer|
    ensures var w := r.buffer[..|r.buffer| - |t|];
            r.buffer == w + t && Step(r.(buffer := w)) == Goto(Step(r).next.(buffer := x))
  {
    hide FixedBody, ChunkData;
    if r.chunked {
      ChunkTakeWithout(r, x, t);
    } else {
      FixedTakeWithout(r, x, t);
    }
  }

  lemma CutsWithout(buffer: string, k: nat, x: string, t: string)
    requires k <= |buffer| && buffer[k..] == x + t
    ensures |t| <= |buffer|
    ensures var w := buffer[..|buffer| - |t|]; buffer == w + t && |w| == k + |x| && w[..k] == buffer[..k] && w[k..] == x
  {
  }

  lemma ChunkTakeWithout(r: Request, x: string, t: string)
    requires r.state.Body? && ChunkData(r).Goto? && !ChunkData(r).next.state.Error? && ChunkData(r).next.buffer == x + t
    ensures |t| <= |r.buffer|
    ensures var w := r.buffer[..|r.buffer| - |t|];
            r.buffer == w + t && ChunkData(r.(buffer := w)) == Goto(ChunkData(r).next.(buffer := x))
  {
    CutsWithout(r.buffer, if |r.buffer| >= r.remaining then r.remaining else |r.buffer|, x, t);
  }

  lemma FixedTakeWithout(r: Request, x: string, t: string)
    requires r.state.Body? && FixedBody(r).Goto? && !FixedBody(r).next.state.Error? && FixedBody(r).next.buffer == x + t
    ensures |t| <= |r.buffer|
    ensures var w := r.buffer[..|r.buffer| - |t|];
            r.buffer == w + t && FixedBody(r.(buffer := w)) == Goto(FixedBody(r).next.(buffer := x))
  {
    hide AtolSize;
    var len := AtolSize(Header(r.headers, "content-length"));
    var k := if Header(r.headers, "content-length") == "" || len <= |r.body| then 0
             else if |r.buffer| >= len - |r.body| then len - |r.body| else |r.buffer|;
    CutsWithout(r.buffer, k, x, t);
  }

  /** A complete request does not depend on the bytes left unread: without them it is the same. */
  lemma {:induction false} RunWithout(r: Request, v: string, t: string)
    requires Run(r).state.Complete? && Run(r).buffer == v + t
    ensures |t| <= |r.buffer|
    ensures var w := r.buffer[..|r.buffer| - |t|];
            r.buffer == w + t && Run(r.(buffer := w)) == Run(r).(buffer := v)
    decreases |r.buffer|, Rank(r)
  {
    hide Step;
    if r.Terminal() {
      assert r.buffer[..|v|] == v;
    } else {
      CompletesByStep(r);
      var n := Step(r).next;
      StepShrinks(r);
      RunWithout(n, v, t);
      var x := n.buffer[..|n.buffer| - |t|];
      StepWithout(r, x, t);
      RunStep(r.(buffer := r.buffer[..|r.buffer| - |t|]), n.(buffer := x));
    }
  }

  lemma CompletesByStep(r: Request)
    requires !r.Terminal() && Run(r).state.Complete?
    ensures Step(r).Goto? && !Step(r).next.state.Error? && Run(r) == Run(Step(r).next)
  {
    StepShrinks(r);
  }

  lemma FinishedStays(r: Request, data: string)
    requires r.Terminal()
    ensures Parse(r, data) == r.Feed(data)
  {
  }
}
