/** Reading a CGI's header section, while it streams or once it is whole (section 6 of RFC 3875). */
module CgiResponse {
  import opened Bytes
  import opened Numbers

  /** std::map<std::string, std::string>, in key order. */
  type Headers = seq<(string, string)>

  predicate Less(a: string, b: string) {
    if b == "" then false
    else if a == "" then true
    else a[0] < b[0] || (a[0] == b[0] && Less(a[1..], b[1..]))
  }

  /** headers_[key] = value. */
  function Set(h: Headers, key: string, value: string): Headers {
    if h == [] then [(key, value)]
    else if h[0].0 == key then [(key, value)] + h[1..]
    else if Less(key, h[0].0) then [(key, value)] + h
    else [h[0]] + Set(h[1..], key, value)
  }

  datatype Response = Response(statusLine: string, headers: Headers, body: string)

  function IntOf(n: int): string {
    if n < 0 then "-" + DecOf(-n) else DecOf(n)
  }

  function WithStatus(r: Response, code: int, reason: string): Response {
    r.(statusLine := "HTTP/1.1 " + IntOf(code) + " " + reason)
  }

  /** set_body, which also sets the length header. */
  function WithBody(r: Response, body: string): Response {
    r.(body := body, headers := Set(r.headers, "Content-Length", DecOf(|body|)))
  }

  function PrintHeaders(h: Headers): string {
    if h == [] then "" else h[0].0 + ": " + h[0].1 + CRLF + PrintHeaders(h[1..])
  }

  function HeaderToString(r: Response): (s: string)
    ensures s != ""
  {
    r.statusLine + CRLF + PrintHeaders(r.headers) + CRLF
  }

  function ToString(r: Response): (s: string)
    ensures s != ""
  {
    HeaderToString(r) + r.body
  }

  // ------------------------------------------------------- header lines

  /** atoi: the low 32 bits of atol, as a signed number. */
  function Atoi(s: string): int {
    var n := Atol(s) % 0x1_0000_0000;
    if n >= 0x8000_0000 then n - 0x1_0000_0000 else n
  }

  function DropTrailingCr(line: string): string {
    if line != "" && line[|line| - 1] == '\r' then line[..|line| - 1] else line
  }

  function TrimLeft(s: string): string {
    var i := FirstNotBlank(s, 0);
    if i < 0 then "" else s[i..]
  }

  /** The response being built, with the status reason, which a bare code leaves unchanged. */
  datatype Draft = Draft(response: Response, reason: string)

  const START := Draft(WithStatus(Response("", [], ""), 200, "OK"), "OK")

  function ReadLine(d: Draft, rawLine: string): Draft {
    var line := DropTrailingCr(rawLine);
    var colon := FindChar(line, ':', 0);
    if line == "" || colon < 0 then d
    else
      var key, value := line[..colon], TrimLeft(line[colon + 1..]);
      if key == "Status" then
        var sp := FindChar(value, ' ', 0);
        if sp >= 0 then Draft(WithStatus(d.response, Atoi(value[..sp]), value[sp + 1..]), value[sp + 1..])
        else d.(response := WithStatus(d.response, Atoi(value), d.reason))
      else d.(response := d.response.(headers := Set(d.response.headers, key, value)))
  }

  function ReadLines(d: Draft, section: string): Draft
    decreases |section|
  {
    if section == "" then d
    else
      var eol := FindChar(section, '\n', 0);
      if eol < 0 then ReadLine(d, section) else ReadLines(ReadLine(d, section[..eol]), section[eol + 1..])
  }

  function ReadSection(section: string): Response {
    ReadLines(START, section).response
  }

  lemma NextLine(section: string, pos: nat, eol: int)
    requires pos < |section| && eol == FindChar(section, '\n', pos)
    ensures FindChar(section[pos..], '\n', 0) == if eol < 0 then -1 else eol - pos
  {
    var rest := section[pos..];
    assert forall j :: 0 <= j < |rest| ==> rest[j] == section[pos + j];
    var e := FindChar(rest, '\n', 0);
    if e >= 0 {
      assert section[pos + e] == '\n';
    }
    if eol >= 0 {
      assert rest[eol - pos] == '\n';
    }
  }

  lemma TurnOfLines(d: Draft, section: string, pos: nat)
    requires pos < |section|
    ensures var eol := FindChar(section, '\n', pos);
            if eol < 0 then ReadLines(d, section[pos..]) == ReadLine(d, section[pos..])
            else ReadLines(d, section[pos..]) == ReadLines(ReadLine(d, section[pos..eol]), section[eol + 1..])
  {
    hide ReadLine;
    var eol := FindChar(section, '\n', pos);
    NextLine(section, pos, eol);
    if eol >= 0 {
      assert section[pos..][..eol - pos] == section[pos..eol];
      assert section[pos..][eol - pos + 1..] == section[eol + 1..];
    }
  }

  function Remaining(section: string, pos: nat): string {
    if pos <= |section| then section[pos..] else ""
  }

  lemma NoLines(d: Draft)
    ensures ReadLines(d, "") == d
  {
  }

  /** Where the line that starts at `pos` ends. */
  function LineEnd(section: string, pos: nat): (eol: nat)
    requires pos < |section|
    ensures pos <= eol <= |section|
  {
    var eol := FindChar(section, '\n', pos);
    if eol < 0 then |section| else eol
  }

  /** One turn of a loop over the section: take the line at `pos`, go on after its end. */
  lemma TurnOfLoop(d: Draft, section: string, pos: nat)
    requires pos < |section|
    ensures var eol := LineEnd(section, pos);
            ReadLines(d, Remaining(section, pos))
            == ReadLines(ReadLine(d, section[pos..eol]), Remaining(section, eol + 1))
  {
    hide ReadLine;
    TurnOfLines(d, section, pos);
    var eol := LineEnd(section, pos);
    if FindChar(section, '\n', pos) < 0 {
      assert section[pos..eol] == section[pos..];
      NoLines(ReadLine(d, section[pos..eol]));
    }
  }

  // ------------------------------------------- streaming and batch agree

  /** The part of the streaming loop that takes one line apart. */
  method ReadStreamedLine(draft: Response, reason: string, rawLine: string) returns (response: Response, statusReason: string)
    ensures Draft(response, statusReason) == ReadLine(Draft(draft, reason), rawLine)
  {
    hide Set, Atoi, WithStatus;
    response, statusReason := draft, reason;
    var line := rawLine;
    if line != "" && line[|line| - 1] == '\r' {
      line := line[..|line| - 1];
    }
    if line == "" {
      return;
    }
    var colon := FindChar(line, ':', 0);
    if colon < 0 {
      return;
    }
    var key, value := line[..colon], line[colon + 1..];
    var start := FirstNotBlank(value, 0);
    value := if start >= 0 then value[start..] else "";
    if key == "Status" {
      var space := FindChar(value, ' ', 0);
      var code;
      if space >= 0 {
        code, statusReason := Atoi(value[..space]), value[space + 1..];
      } else {
        code := Atoi(value);
      }
      response := WithStatus(response, code, statusReason);
    } else {
      response := response.(headers := Set(response.headers, key, value));
    }
  }

  /** parse_cgi_headers, used while the output streams. */
  method ParseCgiHeaders(section: string) returns (response: Response)
    ensures response == ReadSection(section)
  {
    hide ReadLine, ReadLines;
    var statusReason := "OK";
    response := WithStatus(Response("", [], ""), 200, statusReason);
    var pos := 0;
    assert section[0..] == section;
    while pos < |section|
      invariant ReadLines(Draft(response, statusReason), Remaining(section, pos)) == ReadLines(START, section)
      decreases |section| + 1 - pos
    {
      TurnOfLoop(Draft(response, statusReason), section, pos);
      var eol := FindChar(section, '\n', pos);
      if eol < 0 {
        eol := |section|;
      }
      response, statusReason := ReadStreamedLine(response, statusReason, section[pos..eol]);
      pos := eol + 1;
    }
    assert Remaining(section, pos) == "";
    NoLines(Draft(response, statusReason));
  }

  datatype Option<T> = None | Some(value: T)

  /** What the whole output means; None stands for the 500 page. */
  function ReadWhole(raw: string): Option<Response> {
    var i := Find(raw, CRLFCRLF);
    if i >= 0 then Some(WithBody(ReadSection(raw[..i]), raw[i + 4..]))
    else
      var j := Find(raw, "\n\n");
      if j >= 0 then Some(WithBody(ReadSection(raw[..j]), raw[j + 2..])) else None
  }

  /** The part of the batch loop that takes one line apart, a second text in the source too. */
  method ReadBatchLine(draft: Response, reason: string, rawLine: string) returns (response: Response, statusReason: string)
    ensures Draft(response, statusReason) == ReadLine(Draft(draft, reason), rawLine)
  {
    hide Set, Atoi, WithStatus;
    response, statusReason := draft, reason;
    var line := if rawLine != "" && rawLine[|rawLine| - 1] == '\r' then rawLine[..|rawLine| - 1] else rawLine;
    var colon := FindChar(line, ':', 0);
    if line != "" && colon >= 0 {
      var value := line[colon + 1..];
      var valueStart := FirstNotBlank(value, 0);
      if valueStart >= 0 {
        value := value[valueStart..];
      } else {
        value := "";
      }
      if line[..colon] == "Status" {
        var space := FindChar(value, ' ', 0);
        if space < 0 {
          response := WithStatus(response, Atoi(value), statusReason);
        } else {
          statusReason := value[space + 1..];
          response := WithStatus(response, Atoi(value[..space]), statusReason);
        }
      } else {
        response := response.(headers := Set(response.headers, line[..colon], value));
      }
    }
  }

  /** parse_cgi_response, used on the whole output. */
  method ParseCgiResponse(raw: string) returns (response: Option<Response>)
    ensures response == ReadWhole(raw)
  {
    hide ReadLine, ReadLines;
    var section, body := "", "";
    var split := Find(raw, CRLFCRLF);
    if split >= 0 {
      section := raw[..split];
      body := raw[split + 4..];
    } else {
      split := Find(raw, "\n\n");
      if split < 0 {
        return None;
      }
      section := raw[..split];
      body := raw[split + 2..];
    }
    var statusReason := "OK";
    var parsed := WithStatus(Response("", [], ""), 200, statusReason);
    var pos := 0;
    assert section[0..] == section;
    while pos < |section|
      invariant ReadLines(Draft(parsed, statusReason), Remaining(section, pos)) == ReadLines(START, section)
      decreases |section| + 1 - pos
    {
      TurnOfLoop(Draft(parsed, statusReason), section, pos);
      var eol := FindChar(section, '\n', pos);
      if eol < 0 {
        eol := |section|;
      }
      parsed, statusReason := ReadBatchLine(parsed, statusReason, section[pos..eol]);
      pos := eol + 1;
    }
    assert Remaining(section, pos) == "";
    NoLines(Draft(parsed, statusReason));
    response := Some(WithBody(parsed, body));
  }

  /** The value a header has, if it has one. */
  function Get(h: Headers, key: string): Option<string> {
    if h == [] then None else if h[0].0 == key then Some(h[0].1) else Get(h[1..], key)
  }

  lemma {:induction false} SetKeepsOthers(h: Headers, key: string, value: string, other: string)
    requires other != key
    ensures Get(Set(h, key, value), other) == Get(h, other)
    decreases |h|
  {
    if h != [] && h[0].0 != key && !Less(key, h[0].0) {
      SetKeepsOthers(h[1..], key, value, other);
      assert Set(h, key, value)[1..] == Set(h[1..], key, value);
    } else {
      assert Set(h, key, value)[1..] == if h == [] then [] else if h[0].0 == key then h[1..] else h;
    }
  }

  lemma {:induction false} SetGets(h: Headers, key: string, value: string)
    ensures Get(Set(h, key, value), key) == Some(value)
    decreases |h|
  {
    if h != [] && h[0].0 != key && !Less(key, h[0].0) {
      SetGets(h[1..], key, value);
      assert Set(h, key, value)[1..] == Set(h[1..], key, value);
    }
  }

  /**
   * Streaming and batch reading agree on output with a CRLFCRLF: same status line, same body, and
   * the same value for every header but Content-Length, which only the batch reader sets.
   */
  lemma {:induction false} StreamingAgreesWithBatch(raw: string)
    requires Contains(raw, CRLFCRLF)
    ensures var i := Find(raw, CRLFCRLF);
            var streamed, whole := ReadSection(raw[..i]), ReadWhole(raw);
            && whole.Some?
            && whole.value.statusLine == streamed.statusLine
            && whole.value.body == raw[i + 4..]
            && (forall k :: k != "Content-Length" ==> Get(whole.value.headers, k) == Get(streamed.headers, k))
            && Get(whole.value.headers, "Content-Length") == Some(DecOf(|raw| - i - 4))
  {
    hide ReadSection, Set, Get, DecOf;
    var i := Find(raw, CRLFCRLF);
    LengthHeaderOnly(ReadSection(raw[..i]).headers, DecOf(|raw| - i - 4));
    assert |raw[i + 4..]| == |raw| - i - 4;
  }

  lemma LengthHeaderOnly(h: Headers, v: string)
    ensures forall k :: k != "Content-Length" ==> Get(Set(h, "Content-Length", v), k) == Get(h, k)
    ensures Get(Set(h, "Content-Length", v), "Content-Length") == Some(v)
  {
    hide Set, Get;
    forall k | k != "Content-Length"
      ensures Get(Set(h, "Content-Length", v), k) == Get(h, k)
    {
      SetKeepsOthers(h, "Content-Length", v, k);
    }
    SetGets(h, "Content-Length", v);
  }
}
