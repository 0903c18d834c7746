/** The request parser as a state machine on values: one step per line or per piece of body. */
module RequestSpec {
  import opened Bytes
  import opened Numbers

  datatype ParseState = RequestLine | Headers | Body | Complete | Error

  datatype ChunkState = Size | Data | DataCrlf | Trailers

  /** Every field of an HTTPRequest. */
  datatype Request = Request(
    buffer: string,
    state: ParseState,
    chunk: ChunkState,
    remaining: nat,
    chunked: bool,
    verb: string,
    target: string,
    protocol: string,
    headers: map<string, string>,
    body: string,
    maxBodySize: nat,
    bodyTooLarge: bool)
  {
    predicate Terminal() {
      state.Complete? || state.Error?
    }

    function Feed(data: string): Request {
      this.(buffer := buffer + data)
    }

    /** Move the first `n` buffered bytes to the body. */
    function Take(n: nat): Request
      requires n <= |buffer|
    {
      this.(body := body + buffer[..n], buffer := buffer[n..])
    }
  }

  /** A newly constructed (or reset) request with its body limit set. */
  function Fresh(limit: nat): Request {
    Request("", RequestLine, Size, 0, false, "", "", "", map[], "", limit, false)
  }

  // -------------------------------------------------- lines of the head

  function WithRequestLine(r: Request, verb: string, target: string, protocol: string): (n: Request)
    ensures n.buffer == r.buffer && (n.state.Error? || n.state.Headers?)
  {
    var ok := verb != "" && target != "" && protocol != "";
    r.(verb := verb, target := target, protocol := protocol, state := if ok then Headers else Error)
  }

  function ReadRequestLine(r: Request, line: string): (n: Request)
    ensures n.buffer == r.buffer && (n.state.Error? || n.state.Headers?)
  {
    var a := FindChar(line, ' ', 0);
    if a < 0 then r.(state := Error)
    else
      var b := FindChar(line, ' ', a + 1);
      if b < 0 then r.(state := Error)
      else
        WithRequestLine(r, line[..a], line[a + 1..b], line[b + 1..])
  }

  function ReadHeaderLine(r: Request, line: string): (n: Request)
    ensures n.buffer == r.buffer && (n.state == r.state || n.state.Error?)
  {
    var c := FindChar(line, ':', 0);
    if c < 0 then r.(state := Error)
    else r.(headers := r.headers[Lower(line[..c]) := Trim(line[c + 1..])])
  }

  type HeaderMap = map<string, string>

  /** get_header_value, for a key already in lower case. */
  function Header(headers: HeaderMap, key: string): string {
    if key in headers then headers[key] else ""
  }

  predicate ChunkedCoding(headers: HeaderMap) {
    Contains(Lower(Header(headers, "transfer-encoding")), "chunked")
  }

  predicate HasBody(headers: HeaderMap) {
    ChunkedCoding(headers) || "content-length" in headers
  }

  /** What follows the blank line that ends the head. */
  function AfterHeaders(r: Request): (n: Request)
    ensures n.buffer == r.buffer && (n.state.Body? || n.state.Complete?)
  {
    if HasBody(r.headers) then r.(chunked := ChunkedCoding(r.headers), state := Body) else r.(state := Complete)
  }

  // -------------------------------------------------------------- bodies

  datatype Move = Blocked | Goto(next: Request)

  function TooLarge(r: Request): Request {
    r.(bodyTooLarge := true, state := Error)
  }

  /** The rest of a Content-Length body, as far as it has arrived. */
  function FixedBody(r: Request): Move {
    var cl := Header(r.headers, "content-length");
    if cl == "" then Goto(r.(state := Complete))
    else
      var len := AtolSize(cl);
      if r.maxBodySize > 0 && len > r.maxBodySize then Goto(TooLarge(r))
      else if len > |r.body| then
        if |r.buffer| >= len - |r.body| then Goto(r.Take(len - |r.body|).(state := Complete))
        else if r.buffer == "" then Blocked
        else Goto(r.Take(|r.buffer|))
      else Goto(r.(state := Complete))
  }

  /** A chunk-size line without its extensions. */
  function SizeField(line: string): string {
    var i := FindChar(line, ';', 0);
    if i < 0 then line else line[..i]
  }

  function WithChunkSize(r: Request, size: nat): (n: Request)
    ensures n.buffer == r.buffer && n.state == r.state
  {
    r.(remaining := size, chunk := if size == 0 then Trailers else Data)
  }

  function ReadSizeLine(r: Request, line: string): (n: Request)
    ensures n.buffer == r.buffer && (n.state == r.state || n.state.Error?)
  {
    var field := Trim(SizeField(line));
    if field == "" || !IsHex(field) then r.(state := Error)
    else WithChunkSize(r, HexValue(field) % MOD64)
  }

  function ChunkData(r: Request): Move {
    if |r.buffer| >= r.remaining then
      var n := r.Take(r.remaining).(remaining := 0, chunk := DataCrlf);
      Goto(if r.maxBodySize > 0 && |n.body| > r.maxBodySize then TooLarge(n) else n)
    else if r.buffer == "" then Blocked
    else Goto(r.Take(|r.buffer|).(remaining := r.remaining - |r.buffer|))
  }

  function ChunkDataCrlf(r: Request): Move {
    if |r.buffer| < 2 then Blocked
    else if r.buffer[..2] != CRLF then Goto(r.(state := Error))
    else Goto(r.(buffer := r.buffer[2..], chunk := Size))
  }

  function ChunkedBody(r: Request): Move {
    match r.chunk
    case Data => ChunkData(r)
    case DataCrlf => ChunkDataCrlf(r)
    case Size =>
      (match CutLine(r.buffer)
       case NoLine => Blocked
       case Line(line, rest) => Goto(ReadSizeLine(r.(buffer := rest), line)))
    case Trailers =>
      (match CutLine(r.buffer)
       case NoLine => Blocked
       case Line(line, rest) =>
         Goto(if line == "" then r.(buffer := rest, state := Complete) else r.(buffer := rest)))
  }

  /** What a step inside a body leaves alone, and how body and buffer change. */
  predicate BodyFrame(r: Request, n: Request) {
    && n.verb == r.verb && n.target == r.target && n.protocol == r.protocol && n.headers == r.headers
    && n.maxBodySize == r.maxBodySize && n.chunked == r.chunked
    && (n.state.Body? || n.Terminal())
    && |r.body| <= |n.body|
    && |n.body| + |n.buffer| <= |r.body| + |r.buffer|
  }

  lemma FixedFrame(r: Request)
    requires r.state.Body? && FixedBody(r).Goto?
    ensures BodyFrame(r, FixedBody(r).next)
  {
  }

  lemma ChunkDataFrame(r: Request)
    requires r.state.Body? && ChunkData(r).Goto?
    ensures BodyFrame(r, ChunkData(r).next)
    ensures r.remaining > 0 ==> |ChunkData(r).next.body| > |r.body|
  {
  }

  lemma ChunkedFrame(r: Request)
    requires r.state.Body? && ChunkedBody(r).Goto?
    ensures BodyFrame(r, ChunkedBody(r).next)
    ensures r.chunk.Data? && r.remaining > 0 ==> |ChunkedBody(r).next.body| > |r.body|
  {
    hide ChunkData, ReadSizeLine;
    if r.chunk.Data? {
      ChunkDataFrame(r);
    } else if r.chunk.Size? {
      var cut := CutLine(r.buffer);
      SizeLineFrame(r.(buffer := cut.rest), cut.line);
    }
  }

  lemma SizeLineFrame(r: Request, line: string)
    requires r.state.Body?
    ensures BodyFrame(r, ReadSizeLine(r, line)) && ReadSizeLine(r, line).body == r.body
  {
  }

  // ------------------------------------------------------------- machine

  function Step(r: Request): Move
    requires !r.Terminal()
  {
    match r.state
    case RequestLine =>
      (match CutLine(r.buffer)
       case NoLine => Blocked
       case Line(line, rest) => Goto(ReadRequestLine(r.(buffer := rest), line)))
    case Headers =>
      (match CutLine(r.buffer)
       case NoLine => Blocked
       case Line(line, rest) =>
         var n := r.(buffer := rest);
         Goto(if line == "" then AfterHeaders(n) else ReadHeaderLine(n, line)))
    case Body => if r.chunked then ChunkedBody(r) else FixedBody(r)
    case _ => Blocked
  }

  /** With an unchanged buffer a step can only finish a chunk or the request. */
  function Rank(r: Request): nat {
    if r.Terminal() then 0 else if r.state.Body? && r.chunk.Data? then 2 else 1
  }

  lemma StepShrinks(r: Request)
    requires !r.Terminal() && Step(r).Goto?
    ensures Shrinks(r, Step(r).next)
  {
    if r.state.Body? {
      if r.chunked {
        ChunkedBodyShrinks(r);
      } else {
        FixedBodyShrinks(r);
      }
    }
  }

  predicate Shrinks(r: Request, n: Request) {
    |n.buffer| < |r.buffer| || (|n.buffer| == |r.buffer| && Rank(n) < Rank(r))
  }

  lemma FixedBodyShrinks(r: Request)
    requires r.state.Body? && FixedBody(r).Goto?
    ensures Shrinks(r, FixedBody(r).next)
  {
  }

  lemma ChunkedBodyShrinks(r: Request)
    requires r.state.Body? && ChunkedBody(r).Goto?
    ensures Shrinks(r, ChunkedBody(r).next)
  {
    hide ReadSizeLine, ChunkData;
    if r.chunk.Size? {
      var cut := CutLine(r.buffer);
      assert cut.Line?;
      SizeLineFrame(r.(buffer := cut.rest), cut.line);
    } else if r.chunk.Data? {
      ChunkDataShrinks(r);
    }
  }

  lemma ChunkDataShrinks(r: Request)
    requires r.state.Body? && r.chunk.Data? && ChunkData(r).Goto?
    ensures Shrinks(r, ChunkData(r).next)
  {
  }

  /** Step until the request is finished or needs more bytes. */
  function Run(r: Request): Request
    decreases |r.buffer|, Rank(r)
  {
    if r.Terminal() then r
    else
      match Step(r)
      case Blocked => r
      case Goto(n) => StepShrinks(r); Run(n)
  }

  lemma RunStep(r: Request, n: Request)
    requires !r.Terminal() && Step(r) == Goto(n)
    ensures Run(r) == Run(n)
    ensures n.Terminal() ==> Run(r) == n
  {
    StepShrinks(r);
  }

  /** HTTPRequest::parse on one more piece of the stream. */
  function Parse(r: Request, data: string): Request {
    Run(r.Feed(data))
  }

  /** Nothing more can be done with the bytes at hand. */
  predicate Settled(r: Request) {
    r.Terminal() || Step(r).Blocked?
  }

  lemma SettledRuns(r: Request)
    requires Settled(r)
    ensures Run(r) == r
  {
  }

  /** Parse a stream that arrives in pieces. */
  function ParseAll(r: Request, pieces: seq<string>): Request
    decreases |pieces|
  {
    if pieces == [] then r else ParseAll(Parse(r, pieces[0]), pieces[1..])
  }

  function Join(pieces: seq<string>): string {
    if pieces == [] then "" else pieces[0] + Join(pieces[1..])
  }
}
