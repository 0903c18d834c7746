/** Printing a request and parsing the stream, however it is cut, gives the request back. */
module RoundTrip {
  import opened Bytes
  import opened Numbers
  import opened RequestSpec
  import opened RequestLaws

  predicate CrlfFree(s: string) {
    !Contains(s, CRLF)
  }

  // ---------------------------------------------------------------- head

  /** A header field, its name as it is spelled and its value with padding around it. */
  datatype Field = Field(name: string, spelled: string, before: string, value: string, after: string)

  datatype Head = Head(verb: string, target: string, protocol: string, fields: seq<Field>)

  predicate ValidField(f: Field) {
    && IsLower(f.name) && SpelledAs(f.spelled, f.name) && !HasChar(f.spelled, ':') && CrlfFree(f.spelled)
    && Padding(f.before) && Padding(f.after) && Trimmed(f.value) && CrlfFree(f.value)
  }

  predicate ValidHead(h: Head) {
    && h.verb != "" && !HasChar(h.verb, ' ') && CrlfFree(h.verb)
    && h.target != "" && !HasChar(h.target, ' ') && CrlfFree(h.target)
    && h.protocol != "" && CrlfFree(h.protocol)
    && forall i :: 0 <= i < |h.fields| ==> ValidField(h.fields[i])
  }

  function RequestLineOf(h: Head): string {
    h.verb + " " + h.target + " " + h.protocol
  }

  function PrintField(f: Field): string {
    f.spelled + ":" + (f.before + f.value + f.after)
  }

  function PrintFields(fields: seq<Field>): string {
    if fields == [] then CRLF
    else PrintField(fields[0]) + CRLF + PrintFields(fields[1..])
  }

  function PrintHead(h: Head): string {
    RequestLineOf(h) + CRLF + PrintFields(h.fields)
  }

  /** The header map of a list of fields; a repeated name keeps its last value. */
  function FieldMap(fields: seq<Field>, have: HeaderMap): HeaderMap {
    if fields == [] then have else FieldMap(fields[1..], have[fields[0].name := fields[0].value])
  }

  /** A request whose head is `h` and whose body is still to come from `rest`. */
  function HeadRead(h: Head, limit: nat, rest: string): Request {
    AfterHeaders(Request(rest, Headers, Size, 0, false, h.verb, h.target, h.protocol,
                         FieldMap(h.fields, map[]), "", limit, false))
  }

  lemma CrlfFreeJoin(a: string, c: char, b: string)
    requires CrlfFree(a) && CrlfFree(b) && c != '\r' && c != '\n'
    ensures CrlfFree(a + [c] + b)
  {
    var s := a + [c] + b;
    forall j | 0 <= j
      ensures !At(s, CRLF, j)
    {
      if j + 2 <= |s| {
        NoCrlfAt(a, c, b, j);
      }
    }
    FindAbsent(s, CRLF);
  }

  lemma NoCrlfAt(a: string, c: char, b: string, j: nat)
    requires CrlfFree(a) && CrlfFree(b) && c != '\r' && c != '\n' && j + 2 <= |a + [c] + b|
    ensures !At(a + [c] + b, CRLF, j)
  {
    hide Contains;
    var s := a + [c] + b;
    assert s[|a|] == c;
    assert s[j..j + 2][0] == s[j] && s[j..j + 2][1] == s[j + 1];
    if j + 2 <= |a| {
      NoneInFree(a, j);
      assert s[j..j + 2] == a[j..j + 2];
    } else if j > |a| {
      var k := j - |a| - 1;
      NoneInFree(b, k);
      assert s[j..j + 2] == b[k..k + 2];
    }
  }

  lemma NoneInFree(s: string, j: nat)
    requires CrlfFree(s)
    ensures !At(s, CRLF, j)
  {
  }

  lemma SpacesOf(v: string, t: string, p: string)
    requires !HasChar(v, ' ') && !HasChar(t, ' ')
    ensures var line := v + " " + t + " " + p;
            var a, b := |v|, |v| + 1 + |t|;
            FindChar(line, ' ', 0) == a && FindChar(line, ' ', a + 1) == b
            && line[..a] == v && line[a + 1..b] == t && line[b + 1..] == p
  {
    var line := v + " " + t + " " + p;
    var a, b := |v|, |v| + 1 + |t|;
    assert line == v + [' '] + (t + " " + p);
    FirstChar(v, ' ', t + " " + p);
    assert line[b] == ' ';
    assert forall i :: a + 1 <= i < b ==> line[i] == t[i - a - 1];
  }

  lemma RequestLineParses(h: Head, r: Request)
    requires ValidHead(h)
    ensures ReadRequestLine(r, RequestLineOf(h)) == WithRequestLine(r, h.verb, h.target, h.protocol)
  {
    SpacesOf(h.verb, h.target, h.protocol);
  }

  lemma RequestLineIsLine(h: Head)
    requires ValidHead(h)
    ensures CrlfFree(RequestLineOf(h))
  {
    var tail := h.target + [' '] + h.protocol;
    CrlfFreeJoin(h.target, ' ', h.protocol);
    CrlfFreeJoin(h.verb, ' ', tail);
    assert RequestLineOf(h) == h.verb + [' '] + tail;
  }

  lemma PaddedFree(before: string, s: string, after: string)
    requires Padding(before) && Padding(after) && CrlfFree(s)
    ensures CrlfFree(before + s + after)
  {
    var p := before + s + after;
    forall j | 0 <= j
      ensures !At(p, CRLF, j)
    {
      if j + 2 <= |p| {
        assert p[j..j + 2][0] == p[j] && p[j..j + 2][1] == p[j + 1];
        var k := j - |before|;
        if 0 <= k && k + 2 <= |s| {
          NoneInFree(s, k);
          assert p[j..j + 2] == s[k..k + 2];
        } else if k < 0 {
          assert p[j] == before[j];
        } else {
          assert p[j + 1] == after[k + 1 - |s|];
        }
      }
    }
    FindAbsent(p, CRLF);
  }

  lemma FieldParses(f: Field, r: Request)
    requires ValidField(f)
    ensures var line := PrintField(f);
            ReadHeaderLine(r, line) == r.(headers := r.headers[f.name := f.value])
            && CrlfFree(line) && line != ""
  {
    hide CrlfFree, Trim, Lower, Padding, SpelledAs, Trimmed;
    var line, rest := PrintField(f), f.before + f.value + f.after;
    PaddedFree(f.before, f.value, f.after);
    assert line == f.spelled + [':'] + rest;
    CrlfFreeJoin(f.spelled, ':', rest);
    FirstChar(f.spelled, ':', rest);
    assert line[..|f.spelled|] == f.spelled && line[|f.spelled| + 1..] == rest;
    LowerIsSpelling(f.spelled, f.name);
    TrimPadded(f.before, f.value, f.after);
  }

  lemma FreeLine(line: string, rest: string)
    requires CrlfFree(line)
    ensures CutLine(line + CRLF + rest) == Line(line, rest)
  {
    CutLineOf(line, rest);
  }

  lemma {:induction false} FieldsParse(fields: seq<Field>, rest: string, r: Request)
    requires forall i :: 0 <= i < |fields| ==> ValidField(fields[i])
    requires r.state.Headers? && r.buffer == PrintFields(fields) + rest
    ensures Run(r) == Run(AfterHeaders(r.(headers := FieldMap(fields, r.headers), buffer := rest)))
    decreases |fields|
  {
    hide Run, Step, CutLine, AfterHeaders, ReadHeaderLine, ValidField, CrlfFree, PrintField;
    StepTakesLine(r);
    if fields == [] {
      assert r.buffer == "" + CRLF + rest;
      FindAbsent("", CRLF);
      CutLineOf("", rest);
      RunStep(r, AfterHeaders(r.(buffer := rest)));
    } else {
      var f := fields[0];
      var line, more := PrintField(f), PrintFields(fields[1..]) + rest;
      assert r.buffer == line + CRLF + more;
      FieldParses(f, r.(buffer := more));
      FreeLine(line, more);
      var n := r.(buffer := more, headers := r.headers[f.name := f.value]);
      RunStep(r, n);
      FieldsParse(fields[1..], rest, n);
    }
  }

  /** A printed head is read back field by field, and leaves what follows untouched. */
  lemma HeadParses(h: Head, limit: nat, rest: string)
    requires ValidHead(h)
    ensures Parse(Fresh(limit), PrintHead(h) + rest) == Run(HeadRead(h, limit, rest))
  {
    hide Run, Step, CutLine, ReadRequestLine, AfterHeaders, FieldMap, PrintFields, RequestLineOf, CrlfFree;
    var r := Fresh(limit).Feed(PrintHead(h) + rest);
    var more := PrintFields(h.fields) + rest;
    assert r.buffer == RequestLineOf(h) + CRLF + more;
    RequestLineParses(h, r.(buffer := more));
    RequestLineIsLine(h);
    FreeLine(RequestLineOf(h), more);
    StepTakesLine(r);
    var n := WithRequestLine(r.(buffer := more), h.verb, h.target, h.protocol);
    RunStep(r, n);
    FieldsParse(h.fields, rest, n);
  }

  // --------------------------------------------- what announces a body

  predicate ChunkedAt(value: string, i: int) {
    0 <= i && i + 7 <= |value| && SpelledAs(value[i..i + 7], "chunked")
  }

  /** The word `chunked`, in any case and anywhere in the value, makes the coding chunked, and nothing else. */
  lemma ChunkedExactly(m: HeaderMap)
    ensures ChunkedCoding(m) <==> "transfer-encoding" in m && exists i :: ChunkedAt(m["transfer-encoding"], i)
  {
    var v := Header(m, "transfer-encoding");
    if ChunkedCoding(m) {
      var i := Find(Lower(v), "chunked");
      assert At(Lower(v), "chunked", i);
      LowerOfPart(v, i, i + 7);
      LowerIsSpelling(v[i..i + 7], "chunked");
      assert ChunkedAt(v, i);
    }
    if i :| "transfer-encoding" in m && ChunkedAt(v, i) {
      LowerIsSpelling(v[i..i + 7], "chunked");
      LowerOfPart(v, i, i + 7);
      assert At(Lower(v), "chunked", i);
    }
  }

  lemma LowerOfPart(s: string, i: nat, j: nat)
    requires i <= j <= |s|
    ensures Lower(s)[i..j] == Lower(s[i..j])
  {
  }

  /** A request has a body if it says so in either way. */
  lemma HasBodyExactly(m: HeaderMap)
    ensures HasBody(m) <==> ChunkedCoding(m) || "content-length" in m
  {
  }

  // ----------------------------------------------------- malformed heads

  /** A request line in three parts, none empty, the first two without a space. */
  predicate ThreeParts(line: string, v: string, t: string, p: string) {
    v != "" && t != "" && p != "" && !HasChar(v, ' ') && !HasChar(t, ' ') && line == v + " " + t + " " + p
  }

  /** A request line is good if and only if it has three parts. */
  lemma RequestLineExactly(r: Request, line: string)
    ensures !ReadRequestLine(r, line).state.Error? <==> exists v, t, p :: ThreeParts(line, v, t, p)
  {
    hide FindChar, ReadRequestLine, ThreeParts;
    if !ReadRequestLine(r, line).state.Error? {
      GoodIsParts(r, line);
    }
    if v, t, p :| ThreeParts(line, v, t, p) {
      PartsAreGood(r, line, v, t, p);
    }
  }

  lemma GoodIsParts(r: Request, line: string)
    requires !ReadRequestLine(r, line).state.Error?
    ensures exists v, t, p :: ThreeParts(line, v, t, p)
  {
    hide HasChar, ReadRequestLine, FindChar;
    GoodCuts(r, line);
    var a := FindChar(line, ' ', 0);
    var b := FindChar(line, ' ', a + 1);
    var v, t, p := line[..a], line[a + 1..b], line[b + 1..];
    NoneBefore(line, ' ', 0);
    NoneBefore(line, ' ', a + 1);
    Rejoin(line, a, b);
    assert ThreeParts(line, v, t, p);
  }

  lemma GoodCuts(r: Request, line: string)
    requires !ReadRequestLine(r, line).state.Error?
    ensures var a := FindChar(line, ' ', 0);
            var b := FindChar(line, ' ', a + 1);
            0 < a < b - 1 && b + 1 < |line| && line[a] == line[b] == ' '
  {
    hide WithRequestLine;
    var a := FindChar(line, ' ', 0);
    var b := FindChar(line, ' ', a + 1);
    if a >= 0 && b >= 0 {
      GoodParts(r, line[..a], line[a + 1..b], line[b + 1..]);
    }
  }

  lemma GoodParts(r: Request, v: string, t: string, p: string)
    ensures WithRequestLine(r, v, t, p).state.Error? <==> |v| == 0 || |t| == 0 || |p| == 0
  {
  }

  lemma Rejoin(line: string, a: nat, b: nat)
    requires a < b < |line| && line[a] == line[b] == ' '
    ensures line == line[..a] + " " + line[a + 1..b] + " " + line[b + 1..]
  {
  }

  lemma NoneBefore(s: string, c: char, from: nat)
    requires FindChar(s, c, from) >= 0
    ensures !HasChar(s[from..FindChar(s, c, from)], c)
  {
    var i := FindChar(s, c, from);
    assert forall k :: 0 <= k < i - from ==> s[from..i][k] == s[from + k];
  }

  lemma PartsAreGood(r: Request, line: string, v: string, t: string, p: string)
    requires ThreeParts(line, v, t, p)
    ensures !ReadRequestLine(r, line).state.Error?
  {
    hide FindChar, HasChar;
    SpacesOf(v, t, p);
  }

  /** A header line is bad if and only if it has no colon. */
  lemma HeaderLineExactly(r: Request, line: string)
    requires r.state.Headers?
    ensures ReadHeaderLine(r, line).state.Error? <==> !HasChar(line, ':')
  {
  }

  // ------------------------------------------------ Content-Length bodies

  predicate AnnouncesLength(h: Head, n: nat) {
    var m := FieldMap(h.fields, map[]);
    "content-length" in m && m["content-length"] == DecOf(n) && !ChunkedCoding(m)
  }

  /**
   * Print/parse round trip for a Content-Length request under every fragmentation: the same
   * request comes back and the bytes after it stay in the buffer, unless the body exceeds the limit.
   */
  lemma ContentLengthRoundTrip(h: Head, body: string, suffix: string, limit: nat, pieces: seq<string>)
    requires ValidHead(h) && |body| <= LONG_MAX && AnnouncesLength(h, |body|)
    requires pieces != [] && Join(pieces) == PrintHead(h) + (body + suffix)
    ensures ParseAll(Fresh(limit), pieces)
         == if limit == 0 || |body| <= limit
            then HeadRead(h, limit, suffix).(body := body, state := Complete)
            else TooLarge(HeadRead(h, limit, body + suffix))
  {
    hide Run;
    var r := HeadRead(h, limit, body + suffix);
    FragmentationInvariance(Fresh(limit), pieces);
    HeadParses(h, limit, body + suffix);
    AtolOfDec(|body|);
    CutSecond(body, suffix, 0);
    assert "" + body[..] == body;
    var n := HeadRead(h, limit, suffix).(body := body, state := Complete);
    if limit > 0 && |body| > limit {
      RunStep(r, TooLarge(r));
    } else if body == "" {
      assert body + suffix == suffix;
      RunStep(r, n);
    } else {
      assert (body + suffix)[..|body|] == body && (body + suffix)[|body|..] == suffix;
      assert r.Take(|body|).(state := Complete) == n;
      RunStep(r, n);
    }
  }

  /** A request that announces no body is complete at its blank line. */
  lemma BodylessRoundTrip(h: Head, suffix: string, limit: nat, pieces: seq<string>)
    requires ValidHead(h) && !HasBody(FieldMap(h.fields, map[]))
    requires pieces != [] && Join(pieces) == PrintHead(h) + suffix
    ensures ParseAll(Fresh(limit), pieces) == HeadRead(h, limit, suffix)
    ensures HeadRead(h, limit, suffix).state.Complete?
  {
    FragmentationInvariance(Fresh(limit), pieces);
    HeadParses(h, limit, suffix);
  }

  // ------------------------------------------------------- chunked bodies

  /** A chunk of section 4.1 of RFC 7230: size numeral, extensions, data. */
  datatype Chunk = Chunk(size: string, ext: string, data: string)

  predicate ValidSize(size: string, ext: string, n: nat) {
    && size != "" && IsHex(size) && HexValue(size) == n < MOD64
    && (ext == "" || ext[0] == ';') && CrlfFree(size + ext)
  }

  predicate ValidChunk(c: Chunk) {
    c.data != "" && ValidSize(c.size, c.ext, |c.data|)
  }

  function PrintChunks(chunks: seq<Chunk>): string {
    if chunks == [] then ""
    else chunks[0].size + chunks[0].ext + CRLF + (chunks[0].data + (CRLF + PrintChunks(chunks[1..])))
  }

  function Concat(chunks: seq<Chunk>): string {
    if chunks == [] then "" else chunks[0].data + Concat(chunks[1..])
  }

  function PrintTrailers(lines: seq<string>): string {
    if lines == [] then CRLF else lines[0] + CRLF + PrintTrailers(lines[1..])
  }

  datatype Coding = Coding(chunks: seq<Chunk>, lastSize: string, lastExt: string, trailers: seq<string>)

  predicate ValidCoding(k: Coding) {
    && (forall i :: 0 <= i < |k.chunks| ==> ValidChunk(k.chunks[i]))
    && ValidSize(k.lastSize, k.lastExt, 0)
    && (forall i :: 0 <= i < |k.trailers| ==> k.trailers[i] != "" && CrlfFree(k.trailers[i]))
  }

  function PrintCoding(k: Coding): string {
    PrintChunks(k.chunks) + (k.lastSize + k.lastExt + CRLF + PrintTrailers(k.trailers))
  }

  lemma SizeFieldParses(size: string, ext: string)
    requires size != "" && IsHex(size) && (ext == "" || ext[0] == ';')
    ensures SizeField(size + ext) == size && Trim(size) == size
  {
    assert forall i :: 0 <= i < |size| ==> HexDigit(size[i]) >= 0;
    assert !HasChar(size, ';');
    if ext == "" {
      assert size + ext == size;
    } else {
      assert size + ext == size + [';'] + ext[1..];
      FirstChar(size, ';', ext[1..]);
    }
    TrimIdentity(size);
  }

  lemma {:induction false} TrailersParse(lines: seq<string>, suffix: string, r: Request)
    requires forall i :: 0 <= i < |lines| ==> lines[i] != "" && CrlfFree(lines[i])
    requires r.state.Body? && r.chunked && r.chunk.Trailers? && r.buffer == PrintTrailers(lines) + suffix
    ensures Run(r) == r.(buffer := suffix, state := Complete)
    decreases |lines|
  {
    hide Run;
    if lines == [] {
      assert r.buffer == "" + CRLF + suffix;
      FindAbsent("", CRLF);
      CutLineOf("", suffix);
      RunStep(r, r.(buffer := suffix, state := Complete));
    } else {
      var more := PrintTrailers(lines[1..]) + suffix;
      assert r.buffer == lines[0] + CRLF + more;
      CutLineOf(lines[0], more);
      RunStep(r, r.(buffer := more));
      TrailersParse(lines[1..], suffix, r.(buffer := more));
    }
  }

  lemma SizeLineReads(size: string, ext: string, n: nat, r: Request)
    requires ValidSize(size, ext, n)
    ensures ReadSizeLine(r, size + ext) == WithChunkSize(r, n)
  {
    SizeFieldParses(size, ext);
  }

  lemma SizeLineStep(size: string, ext: string, n: nat, rest: string, r: Request)
    requires ValidSize(size, ext, n)
    requires r.state.Body? && r.chunked && r.chunk.Size? && r.buffer == size + ext + CRLF + rest
    ensures Run(r) == Run(WithChunkSize(r.(buffer := rest), n))
    ensures CutLine(r.buffer) == Line(size + ext, rest) && Step(r) == Goto(WithChunkSize(r.(buffer := rest), n))
  {
    hide Run, Step, CutLine, ReadSizeLine, CrlfFree, IsHex;
    SizeLineReads(size, ext, n, r.(buffer := rest));
    FreeLine(size + ext, rest);
    StepTakesLine(r);
    RunStep(r, WithChunkSize(r.(buffer := rest), n));
  }

  /** One chunk, from its size line to the CRLF after its data. */
  lemma ChunkParses(c: Chunk, rest: string, r: Request)
    requires ValidChunk(c)
    requires r.state.Body? && r.chunked && r.chunk.Size? && r.remaining == 0
    requires r.buffer == c.size + c.ext + CRLF + (c.data + (CRLF + rest))
    ensures var n := r.(body := r.body + c.data, buffer := rest);
            if r.maxBodySize > 0 && |n.body| > r.maxBodySize
            then Run(r) == TooLarge(n.(chunk := DataCrlf, buffer := CRLF + rest))
            else Run(r) == Run(n)
  {
    hide Run;
    var more := c.data + (CRLF + rest);
    SizeLineStep(c.size, c.ext, |c.data|, more, r);
    var d := WithChunkSize(r.(buffer := more), |c.data|);
    CutSecond(c.data, CRLF + rest, 0);
    var e := r.(body := r.body + c.data, buffer := CRLF + rest, chunk := DataCrlf);
    ChunkEnds(d, e, r.(body := r.body + c.data, buffer := rest), rest);
  }

  lemma ChunkEnds(d: Request, e: Request, n: Request, rest: string)
    requires d.state.Body? && d.chunked && d.chunk.Data? && |d.buffer| >= d.remaining
    requires d.Take(d.remaining).(remaining := 0, chunk := DataCrlf) == e
    requires e.buffer == CRLF + rest && n == e.(buffer := rest, chunk := Size)
    ensures Run(d) == if d.maxBodySize > 0 && |e.body| > d.maxBodySize then TooLarge(e) else Run(n)
  {
    hide Run;
    if d.maxBodySize > 0 && |e.body| > d.maxBodySize {
      RunStep(d, TooLarge(e));
    } else {
      RunStep(d, e);
      CutSecond(CRLF, rest, 0);
      RunStep(e, n);
    }
  }

  lemma ConcatPrefix(chunks: seq<Chunk>, k: nat)
    requires k < |chunks|
    ensures Concat(chunks[..k + 1]) == chunks[0].data + Concat(chunks[1..][..k])
  {
    assert chunks[..k + 1][1..] == chunks[1..][..k];
  }

  /** How many chunks are read before the body exceeds the limit; all of them if it never does. */
  function Fit(chunks: seq<Chunk>, have: nat, limit: nat): (k: nat)
    ensures k <= |chunks|
    ensures limit == 0 || have + |Concat(chunks)| <= limit ==> k == |chunks|
    ensures limit > 0 && have <= limit < have + |Concat(chunks)| ==>
              k < |chunks| && have + |Concat(chunks[..k])| <= limit < have + |Concat(chunks[..k + 1])|
  {
    if chunks == [] then 0
    else if limit > 0 && have + |chunks[0].data| > limit then
      ConcatPrefix(chunks, 0);
      0
    else
      var k := Fit(chunks[1..], have + |chunks[0].data|, limit);
      ConcatPrefix(chunks, k);
      assert k < |chunks| - 1 ==> |Concat(chunks[..k + 2])| == |chunks[0].data| + |Concat(chunks[1..][..k + 1])| by {
        if k < |chunks| - 1 { ConcatPrefix(chunks, k + 1); }
      }
      k + 1
  }

  lemma PrintChunksUnfolds(chunks: seq<Chunk>, rest: string)
    requires chunks != []
    ensures var c := chunks[0];
            PrintChunks(chunks) + rest == c.size + c.ext + CRLF + (c.data + (CRLF + (PrintChunks(chunks[1..]) + rest)))
  {
    var c, p := chunks[0], PrintChunks(chunks[1..]);
    Assoc(c.size + c.ext + CRLF, c.data + (CRLF + p), rest);
    Assoc(c.data, CRLF + p, rest);
    Assoc(CRLF, p, rest);
  }

  /** Chunks whose data stays within the limit are all read. */
  lemma {:induction false} ChunksParse(chunks: seq<Chunk>, rest: string, r: Request)
    requires forall i :: 0 <= i < |chunks| ==> ValidChunk(chunks[i])
    requires r.state.Body? && r.chunked && r.chunk.Size? && r.remaining == 0
    requires r.buffer == PrintChunks(chunks) + rest
    requires r.maxBodySize == 0 || |r.body| + |Concat(chunks)| <= r.maxBodySize
    ensures Run(r) == Run(r.(body := r.body + Concat(chunks), buffer := rest))
    decreases |chunks|
  {
    hide Run;
    if chunks == [] {
      assert r.body + Concat(chunks) == r.body && r.buffer == rest;
    } else {
      var c, more := chunks[0], PrintChunks(chunks[1..]) + rest;
      PrintChunksUnfolds(chunks, rest);
      ChunkParses(c, more, r);
      ChunksParse(chunks[1..], rest, r.(body := r.body + c.data, buffer := more));
      Assoc(r.body, c.data, Concat(chunks[1..]));
    }
  }

  /** The data of the chunks up to and including the first that passes the limit. */
  function Overrun(chunks: seq<Chunk>, have: nat, limit: nat): string
    requires have <= limit < have + |Concat(chunks)|
  {
    var d := chunks[0].data;
    d + (if have + |d| > limit then "" else Overrun(chunks[1..], have + |d|, limit))
  }

  lemma {:induction false} OverrunIsPrefix(chunks: seq<Chunk>, have: nat, limit: nat)
    requires 0 < limit && have <= limit < have + |Concat(chunks)|
    ensures Overrun(chunks, have, limit) == Concat(chunks[..Fit(chunks, have, limit) + 1])
  {
    var d := chunks[0].data;
    if have + |d| > limit {
      ConcatPrefix(chunks, 0);
    } else {
      OverrunIsPrefix(chunks[1..], have + |d|, limit);
      ConcatPrefix(chunks, Fit(chunks, have, limit));
    }
  }

  /** Otherwise the first chunk that passes the limit is the last one read. */
  lemma {:induction false} ChunksOverrun(chunks: seq<Chunk>, rest: string, r: Request)
    requires forall i :: 0 <= i < |chunks| ==> ValidChunk(chunks[i])
    requires r.state.Body? && r.chunked && r.chunk.Size? && r.remaining == 0
    requires r.buffer == PrintChunks(chunks) + rest
    requires |r.body| <= r.maxBodySize < |r.body| + |Concat(chunks)| && r.maxBodySize > 0
    ensures Run(r).state.Error? && Run(r).bodyTooLarge
    ensures Run(r).body == r.body + Overrun(chunks, |r.body|, r.maxBodySize)
    decreases |chunks|
  {
    hide Run;
    var c, more := chunks[0], PrintChunks(chunks[1..]) + rest;
    PrintChunksUnfolds(chunks, rest);
    ChunkParses(c, more, r);
    if |r.body| + |c.data| <= r.maxBodySize {
      var n := r.(body := r.body + c.data, buffer := more);
      ChunksOverrun(chunks[1..], rest, n);
      Assoc(r.body, c.data, Overrun(chunks[1..], |n.body|, r.maxBodySize));
    } else {
      assert c.data + "" == c.data;
    }
  }

  /**
   * Chunked round trip with the limit, under every fragmentation. Any chunks, in any hex case,
   * with extensions and trailers, give the request back with the concatenated data, exactly when
   * there is no limit or the data is within it. Otherwise the parse fails as too large, having
   * read chunks up to the first one that passes the limit.
   */
  lemma ChunkedRoundTrip(h: Head, k: Coding, suffix: string, limit: nat, pieces: seq<string>)
    requires ValidHead(h) && ValidCoding(k) && ChunkedCoding(FieldMap(h.fields, map[]))
    requires pieces != [] && Join(pieces) == PrintHead(h) + (PrintCoding(k) + suffix)
    ensures var r := ParseAll(Fresh(limit), pieces);
            var fit := Fit(k.chunks, 0, limit);
            if limit == 0 || |Concat(k.chunks)| <= limit
            then r == HeadRead(h, limit, suffix).(body := Concat(k.chunks), chunk := Trailers, state := Complete)
            else fit < |k.chunks| && r.state.Error? && r.bodyTooLarge && r.body == Concat(k.chunks[..fit + 1])
  {
    hide Run, ParseAll, FieldMap, HeadRead;
    FragmentationInvariance(Fresh(limit), pieces);
    HeadParses(h, limit, PrintCoding(k) + suffix);
    ChunkedHeadRead(h, limit, PrintCoding(k) + suffix, suffix);
    var last := k.lastSize + k.lastExt + CRLF + PrintTrailers(k.trailers);
    Assoc(PrintChunks(k.chunks), last, suffix);
    CodingParses(k, suffix, HeadRead(h, limit, PrintCoding(k) + suffix));
  }

  lemma ChunkedHeadRead(h: Head, limit: nat, rest: string, suffix: string)
    requires ChunkedCoding(FieldMap(h.fields, map[]))
    ensures var r := HeadRead(h, limit, rest);
            && r.state.Body? && r.chunked && r.chunk.Size? && r.remaining == 0
            && r.body == "" && r.buffer == rest && r.maxBodySize == limit
            && r.(buffer := suffix) == HeadRead(h, limit, suffix)
  {
  }

  lemma CodingParses(k: Coding, suffix: string, r: Request)
    requires ValidCoding(k)
    requires r.state.Body? && r.chunked && r.chunk.Size? && r.remaining == 0 && r.body == ""
    requires r.buffer == PrintChunks(k.chunks) + (k.lastSize + k.lastExt + CRLF + PrintTrailers(k.trailers) + suffix)
    ensures var fit := Fit(k.chunks, 0, r.maxBodySize);
            if r.maxBodySize == 0 || |Concat(k.chunks)| <= r.maxBodySize
            then Run(r) == r.(body := Concat(k.chunks), buffer := suffix, chunk := Trailers, state := Complete)
            else fit < |k.chunks| && Run(r).state.Error? && Run(r).bodyTooLarge && Run(r).body == Concat(k.chunks[..fit + 1])
  {
    hide Run;
    var tail := k.lastSize + k.lastExt + CRLF + PrintTrailers(k.trailers) + suffix;
    if r.maxBodySize == 0 || |Concat(k.chunks)| <= r.maxBodySize {
      ChunksParse(k.chunks, tail, r);
      assert r.body + Concat(k.chunks) == Concat(k.chunks);
      LastChunkParses(k, suffix, r.(body := Concat(k.chunks), buffer := tail));
    } else {
      ChunksOverrun(k.chunks, tail, r);
      OverrunIsPrefix(k.chunks, 0, r.maxBodySize);
    }
  }

  lemma LastChunkParses(k: Coding, suffix: string, r: Request)
    requires ValidCoding(k)
    requires r.state.Body? && r.chunked && r.chunk.Size? && r.remaining == 0
    requires r.buffer == k.lastSize + k.lastExt + CRLF + PrintTrailers(k.trailers) + suffix
    ensures Run(r) == r.(buffer := suffix, chunk := Trailers, state := Complete)
  {
    hide Run;
    var rest := PrintTrailers(k.trailers) + suffix;
    assert r.buffer == k.lastSize + k.lastExt + CRLF + rest;
    SizeLineStep(k.lastSize, k.lastExt, 0, rest, r);
    TrailersParse(k.trailers, suffix, WithChunkSize(r.(buffer := rest), 0));
  }

  /** Every body has a coding: one chunk per byte string, sizes as shortest numerals. */
  function Encode(parts: seq<string>, upper: bool): (k: Coding)
    requires forall i :: 0 <= i < |parts| ==> 0 < |parts[i]| < MOD64
    ensures ValidCoding(k) && Concat(k.chunks) == Join(parts)
  {
    HexIsCrlfFree("0");
    assert HexValue("0") == 16 * HexValue("0"[..0]) + HexDigit('0');
    assert "0" + "" == "0";
    if parts == [] then Coding([], "0", "", [])
    else
      var c := Chunk(HexOf(|parts[0]|, upper), "", parts[0]);
      HexIsCrlfFree(c.size);
      assert c.size + c.ext == c.size;
      var k := Encode(parts[1..], upper);
      k.(chunks := [c] + k.chunks)
  }

  lemma HexIsCrlfFree(s: string)
    requires IsHex(s)
    ensures CrlfFree(s)
  {
    forall j | 0 <= j
      ensures !At(s, CRLF, j)
    {
      if j + 2 <= |s| {
        assert HexDigit(s[j..j + 2][0]) >= 0 > HexDigit(CRLF[0]);
      }
    }
  }

  /** A chunk size is taken for what it says exactly when it is below 2^64. */
  lemma {:induction false} SizeExactBelow2To64(size: string, ext: string, r: Request)
    requires size != "" && IsHex(size) && (ext == "" || ext[0] == ';')
    ensures ReadSizeLine(r, size + ext).remaining == HexValue(size) <==> HexValue(size) < MOD64
  {
    SizeFieldParses(size, ext);
  }

  /** Beyond that it wraps: the numeral for 2^64 is read as the size of the last chunk. */
  lemma SizeWraps(r: Request, upper: bool)
    ensures HexValue(HexOf(MOD64, upper)) == MOD64 && ReadSizeLine(r, HexOf(MOD64, upper)).chunk.Trailers?
  {
    var size := HexOf(MOD64, upper);
    SizeFieldParses(size, "");
    assert size + "" == size;
  }
}
