/** Streams on which the server does what its parts, taken one by one, do not promise. */
module Witnesses {
  import opened Bytes
  import opened Numbers
  import opened RequestSpec
  import opened RequestLaws
  import opened HeadLaws
  import opened RoundTrip
  import opened DecoderSpec
  import opened Handoff
  import opened OutputSpec
  import opened OutputLaws
  import opened InputSpec
  import opened InputLaws

  // ------------------------------------------------------------ requests

  const CHUNKED: Head := Head("POST", "/", "HTTP/1.1", [Field("transfer-encoding", "Transfer-Encoding", " ", "Chunked", "")])
  const THREE_BYTES: Head := Head("POST", "/", "HTTP/1.1", [Field("content-length", "Content-Length", " ", "3", "")])

  lemma NoCr(s: string)
    requires !HasChar(s, '\r')
    ensures CrlfFree(s)
  {
    forall j | 0 <= j
      ensures !At(s, CRLF, j)
    {
      if j + 2 <= |s| {
        assert s[j..j + 2][0] == s[j];
      }
    }
    FindAbsent(s, CRLF);
  }

  lemma PostIsValid(fields: seq<Field>)
    requires |fields| == 1 && ValidField(fields[0])
    ensures ValidHead(Head("POST", "/", "HTTP/1.1", fields))
    ensures FieldMap(fields, map[]) == map[fields[0].name := fields[0].value]
  {
    hide ValidField, CrlfFree;
    NoCr("POST");
    NoCr("/");
    NoCr("HTTP/1.1");
    assert fields[1..] == [];
  }

  lemma FieldIsValid(f: Field)
    requires IsLower(f.name) && SpelledAs(f.spelled, f.name) && !HasChar(f.spelled, ':') && !HasChar(f.spelled, '\r')
    requires f.before == " " && f.after == "" && Trimmed(f.value) && !HasChar(f.value, '\r')
    ensures ValidField(f)
  {
    NoCr(f.spelled);
    NoCr(f.value);
  }

  lemma TransferEncodingIsName()
    ensures IsLower("transfer-encoding") && SpelledAs("Transfer-Encoding", "transfer-encoding")
    ensures !HasChar("Transfer-Encoding", ':') && !HasChar("Transfer-Encoding", '\r')
  {
  }

  lemma ContentLengthIsName()
    ensures IsLower("content-length") && SpelledAs("Content-Length", "content-length")
    ensures !HasChar("Content-Length", ':') && !HasChar("Content-Length", '\r')
  {
  }

  lemma ChunkedIsValid()
    ensures ValidHead(CHUNKED) && ChunkedCoding(FieldMap(CHUNKED.fields, map[]))
  {
    hide ValidHead, FieldMap, ChunkedCoding, ValidField, IsLower, SpelledAs;
    TransferEncodingIsName();
    FieldIsValid(CHUNKED.fields[0]);
    PostIsValid(CHUNKED.fields);
    SaysChunked(FieldMap(CHUNKED.fields, map[]));
  }

  lemma SaysChunked(m: HeaderMap)
    requires "transfer-encoding" in m && m["transfer-encoding"] == "Chunked"
    ensures ChunkedCoding(m)
  {
    hide ChunkedCoding;
    ChunkedExactly(m);
    assert "Chunked"[0..7] == "Chunked";
    assert ChunkedAt("Chunked", 0);
  }

  lemma ThreeBytesIsValid()
    ensures ValidHead(THREE_BYTES) && AnnouncesLength(THREE_BYTES, 3)
  {
    hide ValidHead, FieldMap, ChunkedCoding, ValidField, DecOf, IsLower, SpelledAs;
    ContentLengthIsName();
    FieldIsValid(THREE_BYTES.fields[0]);
    PostIsValid(THREE_BYTES.fields);
    DecOfThree();
    SaysNothing(FieldMap(THREE_BYTES.fields, map[]));
  }

  lemma DecOfThree()
    ensures DecOf(3) == "3"
  {
  }

  lemma SaysNothing(m: HeaderMap)
    requires "transfer-encoding" !in m
    ensures !ChunkedCoding(m)
  {
    FindAbsent("", "chunked");
  }

  /** A chunked request handed over with nothing of its body read. */
  lemma ChunkedStart(h: Head, limit: nat, room: nat)
    requires ValidHead(h) && ChunkedCoding(FieldMap(h.fields, map[]))
    ensures var r := Parse(Fresh(limit), PrintHead(h));
            && r == HeadRead(h, limit, "") && HandedOver(r) && ReadingChunks(r) && r.chunk.Size? && r.remaining == 0
            && r.body == "" && r.buffer == "" && Seeded(r) == Decoder(DecSize, 0, "")
            && Dispatch(r, room)
               == FirstWrite("", room, true, Decoder(DecSize, 0, ""), AtolSize(Header(r.headers, "content-length")))
  {
    hide Run, Step, FieldMap, HeadRead, PrintHead, Sound, ChunkedCoding;
    var r := Parse(Fresh(limit), PrintHead(h));
    HeadParses(h, limit, "");
    assert PrintHead(h) + "" == PrintHead(h);
    ChunkedHeadRead(h, limit, "", "");
    NothingBlocks(HeadRead(h, limit, ""));
    assert r == HeadRead(h, limit, "");
    StreamSound(limit, PrintHead(h));
    ModeIsCoding(r);
    assert Decode(Handover(r), "") == Waiting(Decoder(DecSize, 0, ""), "");
  }

  lemma NothingBlocks(r: Request)
    requires r.state.Body? && r.chunked && r.chunk.Size? && r.buffer == ""
    ensures Run(r) == r
  {
    FindAbsent("", CRLF);
  }

  // ----------------------------------------------- the decoders disagree

  /** A padded size: the parser completes the request, the decoder gives up. */
  lemma PaddedSizeParts(h: Head, limit: nat)
    requires ValidHead(h) && ChunkedCoding(FieldMap(h.fields, map[]))
    ensures var r, data := Parse(Fresh(limit), PrintHead(h)), " 0" + CRLF + CRLF;
            Parse(r, data).state.Complete? && !Decode(Seeded(r), data).ok
  {
    hide Run, Decode, HeadRead, PrintHead, FieldMap, ValidHead;
    ChunkedStart(h, limit, 0);
    PaddedParses(HeadRead(h, limit, ""));
    PaddedFails();
  }

  lemma AnySizeLine(r: Request, line: string, rest: string)
    requires r.state.Body? && r.chunked && r.chunk.Size? && r.buffer == line + CRLF + rest && CrlfFree(line)
    ensures Run(r) == Run(ReadSizeLine(r.(buffer := rest), line))
  {
    hide Run, ReadSizeLine;
    CutLineOf(line, rest);
    RunStep(r, ReadSizeLine(r.(buffer := rest), line));
  }

  lemma PaddedParses(r: Request)
    requires r.state.Body? && r.chunked && r.chunk.Size? && r.buffer == ""
    ensures Parse(r, " 0" + CRLF + CRLF).state.Complete?
  {
    hide Run, ReadSizeLine, DecSizeLine;
    var f := r.Feed(" 0" + CRLF + CRLF);
    assert f.buffer == " 0" + CRLF + CRLF;
    NoCr(" 0");
    AnySizeLine(f, " 0", CRLF);
    PaddedZero(f.(buffer := CRLF), Decoder(DecSize, 0, CRLF));
    assert PrintTrailers([]) + "" == CRLF;
    TrailersParse([], "", WithChunkSize(f.(buffer := CRLF), 0));
  }

  lemma PaddedFails()
    ensures !Decode(Decoder(DecSize, 0, ""), " 0" + CRLF + CRLF).ok
  {
    hide Drain;
    var f := Decoder(DecSize, 0, "").Feed(" 0" + CRLF + CRLF);
    assert f.buf == " 0" + CRLF + CRLF;
    NoCr(" 0");
    CutLineOf(" 0", CRLF);
    PaddedZero(Fresh(0), Decoder(DecSize, 0, CRLF));
    DrainUnfold(f);
  }

  lemma PaddedZero(r: Request, d: Decoder)
    ensures ReadSizeLine(r, " 0") == WithChunkSize(r, 0) && DecSizeLine(d, " 0") == Stop(Failed(d))
  {
    assert FindChar(" 0", ';', 0) == -1;
    TrimPadded(" ", "0", "");
    assert " " + "0" + "" == " 0";
    assert HexValue("0") == 16 * HexValue("0"[..0]) + 0;
    assert HexDigit(" 0"[0]) < 0;
  }

  /** An empty size: the parser rejects the request, the decoder takes it for the last chunk. */
  lemma EmptySizeParts(h: Head, limit: nat)
    requires ValidHead(h) && ChunkedCoding(FieldMap(h.fields, map[]))
    ensures var r, data := Parse(Fresh(limit), PrintHead(h)), CRLF + CRLF;
            Parse(r, data).state.Error? && Decode(Seeded(r), data).ok && Decode(Seeded(r), data).eof
  {
    hide Run, Decode, HeadRead, PrintHead, FieldMap, ValidHead, ReadSizeLine;
    ChunkedStart(h, limit, 0);
    var r := HeadRead(h, limit, "");
    var f := r.Feed(CRLF + CRLF);
    assert f.buffer == "" + CRLF + CRLF;
    NoCr("");
    AnySizeLine(f, "", CRLF);
    assert FindChar("", ';', 0) == -1;
    EmptyRejected(f.(buffer := CRLF));
    EmptyIsLast();
  }

  lemma EmptyRejected(r: Request)
    ensures Run(ReadSizeLine(r, "")).state.Error?
  {
    assert ReadSizeLine(r, "") == r.(state := Error);
  }

  lemma EmptyIsLast()
    ensures var o := Decode(Decoder(DecSize, 0, ""), CRLF + CRLF); o.ok && o.eof
  {
    hide Drain;
    var f := Decoder(DecSize, 0, "").Feed(CRLF + CRLF);
    assert f.buf == "" + CRLF + CRLF && CRLF == "" + CRLF + "";
    NoCr("");
    CutLineOf("", CRLF);
    CutLineOf("", "");
    assert FindChar("", ';', 0) == -1;
    assert HexValue("") == 0;
    var d := Decoder(DecTrailers, 0, CRLF);
    assert DecStep(f) == Continue(d, "");
    DrainUnfold(f);
    DrainUnfold(d);
  }

  // ----------------------------------------------- complete at dispatch

  /**
   * A chunked upload that arrives whole before it is dispatched, over every run: the CGI is given
   * all of it, but its input is not ended until the client or the pipe goes or, past the end of the
   * request, a blank line comes.
   */
  lemma CompleteDispatchHangs(h: Head, k: Coding, limit: nat, pieces: seq<string>, room: nat, calls: seq<InCall>)
    requires ValidHead(h) && ValidCoding(k) && ChunkedCoding(FieldMap(h.fields, map[]))
    requires pieces != [] && Join(pieces) == PrintHead(h) + PrintCoding(k)
    requires limit == 0 || |Concat(k.chunks)| <= limit
    requires IsInRun(Dispatch(ParseAll(Fresh(limit), pieces), room), calls)
    ensures HandedOver(ParseAll(Fresh(limit), pieces))
    ensures var s := AfterInRun(Dispatch(ParseAll(Fresh(limit), pieces), room), calls);
            && s.log.accepted == Concat(k.chunks)
            && (!s.log.broken && !s.log.ended && BlankLine(s.log.received).Closed? ==> s.open && !s.eof)
  {
    hide Run, Step, Sound, ParseAll, FieldMap, HeadRead, PrintHead, PrintCoding, Concat, Dispatch, IsInRun, AfterInRun, BlankLine;
    var r := ParseAll(Fresh(limit), pieces);
    assert PrintCoding(k) + "" == PrintCoding(k);
    ChunkedRoundTrip(h, k, "", limit, pieces);
    ChunkedHeadRead(h, limit, "", "");
    FragmentationInvariance(Fresh(limit), pieces);
    StreamSound(limit, Join(pieces));
    CompleteDispatchEnds(r, room, calls);
    var s := AfterInRun(Dispatch(r, room), calls);
    assert "" + s.log.received == s.log.received;
  }

  // --------------------------------------------------------- lost order

  /** Three bytes announced, "a" read with the head and "b" after it: the CGI is given "b" first. */
  lemma OrderLostOnAStream()
    ensures var r := Parse(Fresh(0), PrintHead(THREE_BYTES) + "a");
            var calls := [ClientReadable([FromClient("b", 1)])];
            var s := AfterInRun(Dispatch(r, 0), calls);
            HandedOver(r) && IsInRun(Dispatch(r, 0), calls)
            && s.log.accepted == "ab" && s.log.written == "b" && s.pending == "a"
  {
    hide Run, Step, PrintHead, Sound, AfterInRun, IsInRun, Dispatch, HeadRead, ValidHead, AnnouncesLength;
    ThreeBytesIsValid();
    HeadParses(THREE_BYTES, 0, "a");
    ThreeBytesRead("a");
    OneByteTaken(HeadRead(THREE_BYTES, 0, "a"));
    StreamSound(0, PrintHead(THREE_BYTES) + "a");
    OrderCanBeLost(Parse(Fresh(0), PrintHead(THREE_BYTES) + "a"));
  }

  lemma ThreeBytesRead(rest: string)
    ensures var r := HeadRead(THREE_BYTES, 0, rest);
            && r.state.Body? && !r.chunked && r.buffer == rest && r.body == "" && r.maxBodySize == 0
            && Header(r.headers, "content-length") == "3"
  {
    hide ValidHead, FieldMap;
    ThreeBytesIsValid();
    assert DecOf(3) == "3";
  }

  lemma OneByteTaken(r: Request)
    requires r.state.Body? && !r.chunked && r.buffer == "a" && r.body == "" && r.maxBodySize == 0
    requires Header(r.headers, "content-length") == "3"
    ensures Run(r) == r.(body := "a", buffer := "")
  {
    assert DecOf(3) == "3";
    AtolOfDec(3);
    assert "a"[..1] == "a" && "a"[1..] == "";
    RunStep(r, r.Take(1));
  }

  // ------------------------------------------------- bytes past the body

  /** "bc" ends the body; "GET", read later while the pipe is full, is given to the CGI as well. */
  lemma ExtraOnAStream()
    ensures var r := Parse(Fresh(0), PrintHead(THREE_BYTES) + "a");
            var calls := [ClientReadable([FromClient("bc", 0)]), ClientReadable([FromClient("GET", 0)])];
            var s := AfterInRun(Dispatch(r, 0), calls);
            HandedOver(r) && IsInRun(Dispatch(r, 0), calls)
            && HandleIn(Dispatch(r, 0), calls[0]).eof && s.open && s.log.accepted == "abcGET" && s.pending == "abcGET"
  {
    hide Run, Step, PrintHead, Sound, Dispatch, HeadRead, ValidHead, AnnouncesLength;
    ThreeBytesIsValid();
    HeadParses(THREE_BYTES, 0, "a");
    ThreeBytesRead("a");
    OneByteTaken(HeadRead(THREE_BYTES, 0, "a"));
    StreamSound(0, PrintHead(THREE_BYTES) + "a");
    var r := Parse(Fresh(0), PrintHead(THREE_BYTES) + "a");
    DispatchOfOne(r);
    ExtraAccepted(Dispatch(r, 0));
  }

  lemma DispatchOfOne(r: Request)
    requires HandedOver(r) && r.state.Body? && !r.chunked && r.body == "a" && Header(r.headers, "content-length") == "3"
    ensures var s := Dispatch(r, 0);
            && s.open && !s.eof && !s.chunked && s.clientIn && s.pending == "a" && s.log.accepted == "a"
            && s.forwarded == 1 && s.contentLength == 3
  {
    hide Run, Step;
    assert DecOf(3) == "3";
    AtolOfDec(3);
  }

  lemma ExtraAccepted(s: In)
    requires s.open && !s.eof && !s.chunked && s.clientIn && s.pending == "a" && s.log.accepted == "a"
    requires s.forwarded == 1 && s.contentLength == 3
    ensures var calls := [ClientReadable([FromClient("bc", 0)]), ClientReadable([FromClient("GET", 0)])];
            var e := AfterInRun(s, calls);
            IsInRun(s, calls) && HandleIn(s, calls[0]).eof && e.open && e.log.accepted == "abcGET" && e.pending == "abcGET"
  {
    var a, b := ClientReadable([FromClient("bc", 0)]), ClientReadable([FromClient("GET", 0)]);
    var n := Accept(s, "bc", 0);
    assert "bc"[0..] == "bc" && "GET"[0..] == "GET";
    assert "a" + "bc" == "abc" && "abc" + "GET" == "abcGET";
    assert HandleIn(s, a) == n && n.pending == "abc" && n.eof && n.open;
    var e := Accept(n, "GET", 0);
    assert HandleIn(n, b) == e && e.pending == "abcGET";
    assert [a, b][1..] == [b] && [b][1..] == [];
    assert AfterInRun(e, []) == e;
  }

  // ------------------------------------------------- failure and the cut

  /** One chunk and a bad size line, as the decoder sees them in one call and in two. */
  lemma ChunkThenBadSize()
    ensures var d := Decoder(DecSize, 0, "");
            && Decode(d, "1\r\na\r\n") == Waiting(d, "a") && Decode(d, "zz\r\n") == Failed(d)
            && !Decode(d, "1\r\na\r\nzz\r\n").ok
  {
    hide Drain;
    var d := Decoder(DecSize, 0, "");
    OneByteDecodes(d);
    DecodeSplit(d, "1\r\na", "\r\n");
    assert "1\r\na" + "\r\n" == "1\r\na\r\n";
    var e := Decoder(DecDataCrlf, 0, "").Feed("\r\n");
    assert e.buf == CRLF && CRLF[..2] == CRLF && CRLF[2..] == "";
    DrainUnfold(e);
    DrainUnfold(d);
    BadSizeFails("");
    assert d.Feed("zz\r\n").buf == "zz" + CRLF + "";
    DecodeSplit(d, "1\r\na\r\n", "zz\r\n");
    assert "1\r\na\r\n" + "zz\r\n" == "1\r\na\r\nzz\r\n";
  }

  /**
   * The same bytes, cut differently: in one read the CGI is given nothing, in two it is given "a".
   */
  lemma CutDecidesOnFailure(h: Head, limit: nat, room: nat)
    requires ValidHead(h) && ChunkedCoding(FieldMap(h.fields, map[]))
    ensures var s := Dispatch(Parse(Fresh(limit), PrintHead(h)), room);
            var once := ClientReadable([FromClient("1\r\na\r\nzz\r\n", room)]);
            var twice := ClientReadable([FromClient("1\r\na\r\n", room), FromClient("zz\r\n", room)]);
            && CanHappen(s, once) && CanHappen(s, twice)
            && HandleIn(s, once).log.received == HandleIn(s, twice).log.received
            && HandleIn(s, once).log.accepted == "" && HandleIn(s, twice).log.accepted == "a"
  {
    hide Decode, HeadRead, PrintHead, FieldMap, Parse, Dispatch, ValidHead;
    ChunkedStart(h, limit, room);
    CutDecides(Dispatch(Parse(Fresh(limit), PrintHead(h)), room), room);
  }

  lemma CutDecides(s: In, room: nat)
    requires s.open && s.clientIn && s.chunked && s.pending == "" && s.log.accepted == ""
    requires s.dec == Decoder(DecSize, 0, "")
    ensures var once := ClientReadable([FromClient("1\r\na\r\nzz\r\n", room)]);
            var twice := ClientReadable([FromClient("1\r\na\r\n", room), FromClient("zz\r\n", room)]);
            && CanHappen(s, once) && CanHappen(s, twice)
            && HandleIn(s, once).log.received == HandleIn(s, twice).log.received
            && HandleIn(s, once).log.accepted == "" && HandleIn(s, twice).log.accepted == "a"
  {
    hide Decode;
    ChunkThenBadSize();
    var a, b := FromClient("1\r\na\r\n", room), FromClient("zz\r\n", room);
    AcceptChunkedEffect(s, "1\r\na\r\nzz\r\n", room);
    AcceptChunkedEffect(s, a.bytes, room);
    var n := Accept(s, a.bytes, room);
    AcceptChunkedEffect(n, b.bytes, room);
    assert [a, b][1..] == [b];
    assert n.open && |n.pending| <= 1;
    assert "" + "a" == "a" && "a" + "" == "a" && "" + "" == "";
    assert "1\r\na\r\n" + "zz\r\n" == "1\r\na\r\nzz\r\n";
    assert ClientLoop(n, [b], 6) == Accept(n, b.bytes, room);
    assert HandleIn(s, ClientReadable([a, b])) == ClientLoop(n, [b], 6);
  }

  // ------------------------------------------------ past the input bound

  function Repeat(n: nat): string {
    seq(n, _ => 'a')
  }

  const FULL: string := Repeat(READ_BUFFER_SIZE)

  /** A read of a whole buffer while the pipe takes nothing. */
  const FILL: InCall := ClientReadable([FromClient(FULL, 0)])

  function Fills(n: nat): seq<InCall> {
    if n == 0 then [] else [FILL] + Fills(n - 1)
  }

  /** In the middle of a chunk with `left` bytes to come, `have` bytes pending and a pipe that is full. */
  predicate Filling(s: In, have: nat, left: nat) {
    && s.open && !s.eof && s.chunked && s.clientIn && !s.log.Failed()
    && |s.pending| == have && s.dec == Decoder(DecData, left, "")
  }

  lemma PartDecodes(left: nat, data: string)
    requires 0 < |data| < left
    ensures Decode(Decoder(DecData, left, ""), data) == Waiting(Decoder(DecData, left - |data|, ""), data)
  {
    assert "" + data == data && data[..|data|] == data;
    DrainUnfold(Decoder(DecData, left, data));
  }

  /** One read that the decoder takes in full and the pipe does not take at all. */
  lemma ReadIsKept(s: In, data: string)
    requires s.open && s.chunked && |s.pending| <= CGI_BACKPRESSURE_LIMIT && 0 < |data| < FAIR_IO_LIMIT
    requires Decode(s.dec, data).ok && !Decode(s.dec, data).eof && Decode(s.dec, data).out != ""
    ensures var n, o := HandleIn(s, ClientReadable([FromClient(data, 0)])), Decode(s.dec, data);
            && n.open && n.chunked && n.eof == s.eof && n.dec == o.dec && n.log.failure == s.log.failure
            && |n.pending| == |s.pending| + |o.out|
            && (|n.pending| <= CGI_BACKPRESSURE_LIMIT ==> n.clientIn == s.clientIn)
  {
    hide Decode;
    var o, call := Decode(s.dec, data), [FromClient(data, 0)];
    assert call[1..] == [];
    assert o.out[0..] == o.out;
    var n := Accept(s, data, 0);
    assert ClientLoop(n, [], |data|) == (if |n.pending| > CGI_BACKPRESSURE_LIMIT then n.(clientIn := false) else n);
  }

  lemma FillOnce(s: In, have: nat, left: nat)
    requires Filling(s, have, left) && have + READ_BUFFER_SIZE <= CGI_BACKPRESSURE_LIMIT && READ_BUFFER_SIZE < left
    ensures CanHappen(s, FILL)
    ensures Filling(HandleIn(s, FILL), have + READ_BUFFER_SIZE, left - READ_BUFFER_SIZE)
  {
    hide Decode, HandleIn;
    PartDecodes(left, FULL);
    ReadIsKept(s, FULL);
  }

  lemma {:induction false} FillUp(s: In, have: nat, left: nat, n: nat)
    requires Filling(s, have, left)
    requires have + n * READ_BUFFER_SIZE <= CGI_BACKPRESSURE_LIMIT && n * READ_BUFFER_SIZE < left
    ensures IsInRun(s, Fills(n))
    ensures Filling(AfterInRun(s, Fills(n)), have + n * READ_BUFFER_SIZE, left - n * READ_BUFFER_SIZE)
    decreases n
  {
    hide HandleIn, CanHappen, Filling;
    if n > 0 {
      FillOnce(s, have, left);
      FillUp(HandleIn(s, FILL), have + READ_BUFFER_SIZE, left - READ_BUFFER_SIZE, n - 1);
      assert Fills(n)[1..] == Fills(n - 1);
    }
  }

  lemma {:induction false} RunsJoin(s: In, a: seq<InCall>, b: seq<InCall>)
    requires IsInRun(s, a) && IsInRun(AfterInRun(s, a), b)
    ensures IsInRun(s, a + b) && AfterInRun(s, a + b) == AfterInRun(AfterInRun(s, a), b)
    decreases |a|
  {
    hide HandleIn, CanHappen;
    if a == [] {
      assert a + b == b;
    } else {
      assert (a + b)[1..] == a[1..] + b;
      RunsJoin(HandleIn(s, a[0]), a[1..], b);
    }
  }

  function Pow16(k: nat): nat {
    if k == 0 then 1 else 16 * Pow16(k - 1)
  }

  lemma {:induction false} HexIsShort(n: nat, k: nat)
    requires n < Pow16(k + 1)
    ensures |HexOf(n, false)| <= k + 1
    decreases k
  {
    if n >= 16 {
      HexIsShort(n / 16, k - 1);
    }
  }

  function SizeLine(n: nat): string {
    HexOf(n, false) + CRLF
  }

  lemma SizeLineDecodes(n: nat, rest: string)
    requires 0 < n < MOD64
    ensures DecStep(Decoder(DecSize, 0, SizeLine(n) + rest)) == Continue(Decoder(DecData, n, rest), "")
  {
    hide HexOf;
    var size := HexOf(n, false);
    HexIsCrlfFree(size);
    SizeFieldParses(size, "");
    assert size + "" == size;
    CutLineOf(size, rest);
  }

  const BIG: nat := 0x400001
  const LARGE: nat := 0x20000
  const SPILL: nat := 60000

  /** The last byte of the chunk, a bad size line, and the beginning of another chunk. */
  const BAD: string := "a" + CRLF + ("zz" + CRLF + (SizeLine(LARGE) + Repeat(SPILL)))

  lemma BadIsOneRead()
    ensures 0 < |BAD| <= READ_BUFFER_SIZE
  {
    assert Pow16(5) == 16 * Pow16(4) == 256 * Pow16(3) == 4096 * Pow16(2) == 65536 * Pow16(1) == 1048576 * Pow16(0);
    HexIsShort(LARGE, 4);
  }

  lemma BadFails()
    ensures Decode(Decoder(DecData, 1, ""), BAD) == Outcome(Decoder(DecSize, 0, SizeLine(LARGE) + Repeat(SPILL)), "a", false, false)
  {
    hide Decode, HexOf, SizeLine, Repeat;
    LastByteThenBad(SizeLine(LARGE) + Repeat(SPILL));
  }

  lemma LastByteThenBad(rest: string)
    ensures Decode(Decoder(DecData, 1, ""), "a" + CRLF + ("zz" + CRLF + rest)) == Outcome(Decoder(DecSize, 0, rest), "a", false, false)
  {
    hide Drain;
    var tail := "zz" + CRLF + rest;
    var all := "a" + (CRLF + tail);
    assert "a" + CRLF + tail == all && "" + all == all;
    var e, g := Decoder(DecDataCrlf, 0, CRLF + tail), Decoder(DecSize, 0, tail);
    CutSecond("a", CRLF + tail, 0);
    assert DecStep(Decoder(DecData, 1, all)) == Continue(e, "a");
    CutSecond(CRLF, tail, 0);
    assert DecStep(e) == Continue(g, "");
    DrainUnfold(Decoder(DecData, 1, all));
    DrainUnfold(e);
    BadSizeFails(rest);
  }

  lemma SpillDecodes()
    ensures Decode(Decoder(DecSize, 0, SizeLine(LARGE) + Repeat(SPILL)), FULL)
         == Waiting(Decoder(DecData, LARGE - SPILL - READ_BUFFER_SIZE, ""), Repeat(SPILL) + FULL)
  {
    hide Drain, HexOf;
    var data := Repeat(SPILL) + FULL;
    Assoc(SizeLine(LARGE), Repeat(SPILL), FULL);
    SizeLineDecodes(LARGE, data);
    assert data[..|data|] == data && data[|data|..] == "";
    DrainUnfold(Decoder(DecSize, 0, SizeLine(LARGE) + data));
    DrainUnfold(Decoder(DecData, LARGE, data));
    assert "" + data == data;
  }

  /** A failed read while bytes are pending leaves stdin open and the client polled. */
  lemma BadIsRead(s: In)
    requires Filling(s, CGI_BACKPRESSURE_LIMIT, 1)
    ensures var call := ClientReadable([FromClient(BAD, 0)]);
            var n := HandleIn(s, call);
            && CanHappen(s, call) && n.open && n.clientIn && n.chunked && n.pending == s.pending
            && n.log.Failed() && !n.log.failure.atCrlf
            && n.dec == Decoder(DecSize, 0, SizeLine(LARGE) + Repeat(SPILL))
  {
    hide Decode;
    BadFails();
    BadIsOneRead();
    assert [FromClient(BAD, 0)][1..] == [];
    assert Ends(s, BAD);
  }

  /** And the next read empties the decoder's buffer into the pending bytes. */
  lemma SpillIsRead(s: In)
    requires s.open && s.clientIn && s.chunked && s.log.Failed() && |s.pending| == CGI_BACKPRESSURE_LIMIT
    requires s.dec == Decoder(DecSize, 0, SizeLine(LARGE) + Repeat(SPILL))
    ensures CanHappen(s, FILL) && HandleIn(s, FILL).log.failure == s.log.failure
    ensures |HandleIn(s, FILL).pending| == CGI_BACKPRESSURE_LIMIT + SPILL + READ_BUFFER_SIZE
  {
    hide Decode, HandleIn;
    SpillDecodes();
    ReadIsKept(s, FULL);
  }

  lemma FirstSizeRead(s: In)
    requires s.open && s.clientIn && s.chunked && !s.eof && s.pending == "" && !s.log.Failed()
    requires s.dec == Decoder(DecSize, 0, "")
    ensures var call := ClientReadable([FromClient(SizeLine(BIG), 0)]);
            CanHappen(s, call) && Filling(HandleIn(s, call), 0, BIG)
  {
    hide Decode, HexOf;
    assert Pow16(6) == 16 * Pow16(5) == 256 * Pow16(4) == 4096 * Pow16(3) == 65536 * Pow16(2) == 1048576 * Pow16(1) == 16777216 * Pow16(0);
    HexIsShort(BIG, 5);
    BigDecodes();
    assert [FromClient(SizeLine(BIG), 0)][1..] == [];
    var n := Accept(s, SizeLine(BIG), 0);
    assert ClientLoop(n, [], |SizeLine(BIG)|) == n;
  }

  lemma BigDecodes()
    ensures Decode(Decoder(DecSize, 0, ""), SizeLine(BIG)) == Waiting(Decoder(DecData, BIG, ""), "")
  {
    hide Drain, HexOf;
    SizeLineDecodes(BIG, "");
    assert SizeLine(BIG) + "" == SizeLine(BIG) == "" + SizeLine(BIG);
    DrainUnfold(Decoder(DecSize, 0, SizeLine(BIG)));
    DrainUnfold(Decoder(DecData, BIG, ""));
  }

  /**
   * A run past the input bound, from a stream: a chunk fills what may be pending, a bad size line
   * fails with the beginning of another chunk behind it, and the next read emits that beginning
   * together with its own bytes.
   */
  lemma BoundIsBroken(h: Head, limit: nat) returns (calls: seq<InCall>)
    requires ValidHead(h) && ChunkedCoding(FieldMap(h.fields, map[]))
    ensures HandedOver(Parse(Fresh(limit), PrintHead(h)))
    ensures var s := Dispatch(Parse(Fresh(limit), PrintHead(h)), 0);
            var e := AfterInRun(s, calls);
            && IsInRun(s, calls) && s.log.initial == 0 && e.log.Failed() && !e.log.failure.atCrlf
            && |e.pending| == CGI_BACKPRESSURE_LIMIT + SPILL + READ_BUFFER_SIZE
  {
    hide Decode, HeadRead, PrintHead, FieldMap, Parse, Dispatch, ValidHead, ChunkedCoding, HandleIn, CanHappen, HandedOver;
    hide Fills, IsInRun, AfterInRun, Filling, SizeLine, Repeat;
    ChunkedStart(h, limit, 0);
    var s := Dispatch(Parse(Fresh(limit), PrintHead(h)), 0);
    var size, bad := ClientReadable([FromClient(SizeLine(BIG), 0)]), ClientReadable([FromClient(BAD, 0)]);
    FirstSizeRead(s);
    var s1 := HandleIn(s, size);
    FillUp(s1, 0, BIG, 64);
    var s2 := AfterInRun(s1, Fills(64));
    FilledIs(s2, CGI_BACKPRESSURE_LIMIT, 1);
    BadIsRead(s2);
    var s3 := HandleIn(s2, bad);
    SpillIsRead(s3);
    OneCall(s, size);
    OneCall(s2, bad);
    OneCall(s3, FILL);
    RunsJoin(s2, [bad], [FILL]);
    RunsJoin(s1, Fills(64), [bad] + [FILL]);
    RunsJoin(s, [size], Fills(64) + ([bad] + [FILL]));
    calls := [size] + (Fills(64) + ([bad] + [FILL]));
  }

  lemma FilledIs(s: In, have: nat, left: nat)
    requires Filling(s, have, left)
    ensures |s.pending| == have
  {
  }

  lemma OneCall(s: In, c: InCall)
    requires CanHappen(s, c)
    ensures IsInRun(s, [c]) && AfterInRun(s, [c]) == HandleIn(s, c)
  {
    hide HandleIn, CanHappen;
    assert [c][1..] == [];
    assert AfterInRun(HandleIn(s, c), []) == HandleIn(s, c);
  }

  // ----------------------------------------------- past the output bound

  /** A whole buffer read on hang-up. */
  const HANGUP: Call := CgiHangup([Got(FULL)])

  function Hangups(n: nat): seq<Call> {
    if n == 0 then [] else [HANGUP] + Hangups(n - 1)
  }

  /** The header is out and the CGI still writes. */
  predicate StreamingOn(s: Out) {
    !s.gone && s.active && s.headersSent && !s.log.aborted
  }

  lemma HangupAdds(s: Out, page: string)
    requires StreamingOn(s)
    ensures Possible(s, HANGUP)
    ensures var n := Handle(s, HANGUP, page);
            StreamingOn(n) && |n.pending| == |s.pending| + READ_BUFFER_SIZE && n.log.atHeader == s.log.atHeader
  {
    hide HttpHeader, LateReply;
    assert |FULL| == READ_BUFFER_SIZE;
    OneRead(s, FULL, page);
  }

  lemma OneRead(s: Out, data: string, page: string)
    ensures ReadLoop(s, [Got(data)], 0, page) == Throttle(Receive(s, data))
  {
    hide Receive, Throttle;
    var script := [Got(data)];
    var n := Throttle(Receive(s, data));
    assert script[1..] == [];
    assert ReadLoop(n, [], |data|, page) == n;
    assert ReadLoop(s, script, 0, page) == if |n.pending| > CGI_BACKPRESSURE_LIMIT then n else ReadLoop(n, script[1..], |data|, page);
  }

  lemma {:induction false} HangupsAdd(s: Out, n: nat, page: string)
    requires StreamingOn(s)
    ensures IsRun(s, Hangups(n), page)
    ensures var e := AfterRun(s, Hangups(n), page);
            StreamingOn(e) && |e.pending| == |s.pending| + n * READ_BUFFER_SIZE && e.log.atHeader == s.log.atHeader
    decreases n
  {
    hide Handle, Possible;
    if n > 0 {
      HangupAdds(s, page);
      HangupsAdd(Handle(s, HANGUP, page), n - 1, page);
      assert Hangups(n)[1..] == Hangups(n - 1);
    }
  }

  /**
   * However much more than the bound is asked for, there is a run with that much pending: a CGI that
   * sends its header, hangs up and still has output, and a client that takes none.
   */
  lemma HangupsBreakBound(more: nat, page: string) returns (calls: seq<Call>)
    ensures IsRun(STARTED, calls, page)
    ensures var e := AfterRun(STARTED, calls, page);
            !e.log.aborted && |e.pending| > Most(e.log.atHeader, CGI_BACKPRESSURE_LIMIT + READ_BUFFER_SIZE) + more
  {
    hide HttpHeader, LateReply;
    var first := CgiReadable([Got(CRLFCRLF)]);
    FindIs(CRLFCRLF, CRLFCRLF, 0);
    assert "" + CRLFCRLF == CRLFCRLF;
    var s := Handle(STARTED, first, page);
    OneRead(STARTED, CRLFCRLF, page);
    var n := CGI_BACKPRESSURE_LIMIT + READ_BUFFER_SIZE + |s.pending| + more + 1;
    HangupsAdd(s, n, page);
    calls := [first] + Hangups(n);
    assert calls[1..] == Hangups(n);
  }
}
