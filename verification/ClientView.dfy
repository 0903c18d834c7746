/** What a client reads off its connection, stated without the server's own response code. */
module ClientView {
  import opened Bytes
  import opened Numbers
  import opened CgiResponse
  import opened CgiRoundTrip
  import opened OutputSpec
  import opened OutputLaws

  /** A response as a client sees it: its first line, its header fields, and all the rest. */
  datatype View = View(status: string, fields: map<string, string>, body: string)

  datatype Seen = Seen(fields: map<string, string>, body: string)

  /** Read header fields, one a line, up to the blank line. */
  function SeeFields(text: string, have: map<string, string>): Seen
    decreases |text|
  {
    match CutLine(text)
    case NoLine => Seen(have, text)
    case Line(line, rest) =>
      if line == "" then Seen(have, rest)
      else
        var c := FindChar(line, ':', 0);
        if 0 <= c && c + 2 <= |line| && line[c + 1] == ' ' then SeeFields(rest, have[line[..c] := line[c + 2..]])
        else SeeFields(rest, have)
  }

  function See(text: string): View {
    match CutLine(text)
    case NoLine => View(text, map[], "")
    case Line(line, rest) =>
      var seen := SeeFields(rest, map[]);
      View(line, seen.fields, seen.body)
  }

  // ------------------------------------------------- what a CGI means

  /** The fields the lines set; a name that comes again has its last value. */
  function MeantFields(lines: seq<CgiLine>, have: map<string, string>): map<string, string>
    decreases |lines|
  {
    if lines == [] then have
    else MeantFields(lines[1..], if lines[0].Plain? then have[lines[0].name := lines[0].value] else have)
  }

  /** The status line: the last code given, with the last reason given. */
  function MeantStatus(lines: seq<CgiLine>, code: nat, reason: string): string
    decreases |lines|
  {
    if lines == [] then "HTTP/1.1 " + DecOf(code) + " " + reason
    else
      match lines[0]
      case Status(_, c, r) => MeantStatus(lines[1..], c, r)
      case BareStatus(_, c) => MeantStatus(lines[1..], c, reason)
      case _ => MeantStatus(lines[1..], code, reason)
  }

  // -------------------------------------------------------- the order

  lemma {:induction false} LessIrreflexive(a: string)
    ensures !Less(a, a)
    decreases |a|
  {
    if a != "" {
      LessIrreflexive(a[1..]);
    }
  }

  lemma {:induction false} LessTransitive(a: string, b: string, c: string)
    requires Less(a, b) && Less(b, c)
    ensures Less(a, c)
    decreases |a|
  {
    if a != "" && a[0] == b[0] == c[0] {
      LessTransitive(a[1..], b[1..], c[1..]);
    }
  }

  lemma {:induction false} LessTotal(a: string, b: string)
    ensures a == b || Less(a, b) || Less(b, a)
    decreases |a|
  {
    if a != "" && b != "" && a[0] == b[0] {
      LessTotal(a[1..], b[1..]);
      assert a[1..] == b[1..] ==> a == [a[0]] + a[1..] == b;
    }
  }

  /** In key order, so that no key comes twice. */
  predicate Sorted(h: Headers) {
    h == [] || (Below(h[0].0, h[1..]) && Sorted(h[1..]))
  }

  predicate Below(key: string, h: Headers) {
    forall i :: 0 <= i < |h| ==> Less(key, h[i].0)
  }

  /** The list as a map. */
  function MapOf(h: Headers, have: map<string, string>): map<string, string>
    decreases |h|
  {
    if h == [] then have else MapOf(h[1..], have[h[0].0 := h[0].1])
  }

  lemma {:induction false} MapOfOther(h: Headers, have: map<string, string>, key: string, value: string)
    requires Below(key, h)
    ensures MapOf(h, have[key := value]) == MapOf(h, have)[key := value]
    decreases |h|
  {
    if h != [] {
      LessIrreflexive(key);
      assert Less(key, h[0].0);
      assert have[key := value][h[0].0 := h[0].1] == have[h[0].0 := h[0].1][key := value];
      MapOfOther(h[1..], have[h[0].0 := h[0].1], key, value);
    }
  }

  lemma BelowFirst(key: string, h: Headers)
    requires h != [] && Sorted(h) && Less(key, h[0].0)
    ensures Below(key, h)
  {
    forall i | 0 <= i < |h|
      ensures Less(key, h[i].0)
    {
      if i > 0 {
        assert h[i] == h[1..][i - 1];
        LessTransitive(key, h[0].0, h[i].0);
      }
    }
  }

  lemma {:induction false} SetBelow(low: string, h: Headers, key: string, value: string)
    requires Below(low, h) && Less(low, key)
    ensures Below(low, Set(h, key, value))
    decreases |h|
  {
    if h != [] && h[0].0 != key && !Less(key, h[0].0) {
      SetBelow(low, h[1..], key, value);
    }
  }

  /** Setting a header keeps the order and sets it in the map. */
  lemma {:induction false} SetIsUpdate(h: Headers, key: string, value: string, have: map<string, string>)
    requires Sorted(h)
    ensures Sorted(Set(h, key, value)) && MapOf(Set(h, key, value), have) == MapOf(h, have)[key := value]
    decreases |h|
  {
    if h == [] {
    } else if h[0].0 == key {
      MapOfOther(h[1..], have[key := h[0].1], key, value);
      assert have[key := h[0].1][key := value] == have[key := value];
      assert Set(h, key, value)[1..] == h[1..];
    } else if Less(key, h[0].0) {
      BelowFirst(key, h);
      MapOfOther(h, have, key, value);
      assert Set(h, key, value)[1..] == h;
    } else {
      LessTotal(key, h[0].0);
      SetBelow(h[0].0, h[1..], key, value);
      SetIsUpdate(h[1..], key, value, have[h[0].0 := h[0].1]);
      assert Set(h, key, value)[1..] == Set(h[1..], key, value);
    }
  }

  // --------------------------------------------------- printed headers

  predicate Printable(key: string, value: string) {
    !HasChar(key, ':') && OneLine(key) && OneLine(value)
  }

  predicate AllPrintable(h: Headers) {
    forall i :: 0 <= i < |h| ==> Printable(h[i].0, h[i].1)
  }

  lemma {:induction false} SetPrintable(h: Headers, key: string, value: string)
    requires AllPrintable(h) && Printable(key, value)
    ensures AllPrintable(Set(h, key, value))
    decreases |h|
  {
    if h != [] && h[0].0 != key && !Less(key, h[0].0) {
      SetPrintable(h[1..], key, value);
    }
  }

  lemma OneLineFree(s: string)
    requires OneLine(s)
    ensures !Contains(s, CRLF)
  {
    forall j | 0 <= j
      ensures !At(s, CRLF, j)
    {
      if j + 2 <= |s| {
        assert s[j..j + 2][0] == s[j];
      }
    }
    FindAbsent(s, CRLF);
  }

  lemma OneLineCuts(line: string, rest: string)
    requires OneLine(line)
    ensures CutLine(line + CRLF + rest) == Line(line, rest)
  {
    OneLineFree(line);
    CutLineOf(line, rest);
  }

  lemma FieldSeen(key: string, value: string)
    requires Printable(key, value)
    ensures var line := key + ": " + value;
            var c := FindChar(line, ':', 0);
            && OneLine(line) && c == |key| && c + 2 <= |line| && line[c + 1] == ' '
            && line[..c] == key && line[c + 2..] == value
  {
    var line := key + ": " + value;
    ColonIsOneLine();
    LacksJoined(key, ": ", value, '\n');
    LacksJoined(key, ": ", value, '\r');
    assert line == key + [':'] + (" " + value);
    FirstChar(key, ':', " " + value);
  }

  lemma ColonIsOneLine()
    ensures OneLine(": ") && OneLine("")
  {
  }

  lemma {:induction false} HeadersSeen(h: Headers, body: string, have: map<string, string>)
    requires AllPrintable(h)
    ensures SeeFields(PrintHeaders(h) + (CRLF + body), have) == Seen(MapOf(h, have), body)
    decreases |h|
  {
    hide FindChar, OneLine, CutLine;
    if h == [] {
      ColonIsOneLine();
      OneLineCuts("", body);
      assert PrintHeaders(h) + (CRLF + body) == "" + CRLF + body;
    } else {
      var key, value := h[0].0, h[0].1;
      var line, more := key + ": " + value, PrintHeaders(h[1..]) + (CRLF + body);
      assert PrintHeaders(h) + (CRLF + body) == line + CRLF + more;
      FieldSeen(key, value);
      OneLineCuts(line, more);
      HeadersSeen(h[1..], body, have[key := value]);
    }
  }

  /** The text of a response, read back. */
  lemma ResponseSeen(r: Response, body: string)
    requires OneLine(r.statusLine) && AllPrintable(r.headers)
    ensures See(HeaderToString(r) + body) == View(r.statusLine, MapOf(r.headers, map[]), body)
  {
    hide SeeFields, OneLine, CutLine, PrintHeaders;
    var rest := PrintHeaders(r.headers) + (CRLF + body);
    assert HeaderToString(r) + body == r.statusLine + CRLF + rest;
    OneLineCuts(r.statusLine, rest);
    HeadersSeen(r.headers, body, map[]);
  }

  // ----------------------------------------------------------- replies

  /** A response under construction, with the status and fields it stands for. */
  predicate Stands(r: Response, status: string, fields: map<string, string>) {
    && r.statusLine == status && OneLine(status)
    && Sorted(r.headers) && AllPrintable(r.headers) && MapOf(r.headers, map[]) == fields
  }

  lemma SetStands(r: Response, status: string, fields: map<string, string>, key: string, value: string)
    requires Stands(r, status, fields) && Printable(key, value)
    ensures Stands(r.(headers := Set(r.headers, key, value)), status, fields[key := value])
  {
    SetIsUpdate(r.headers, key, value, map[]);
    SetPrintable(r.headers, key, value);
  }

  lemma StatusIsOneLine(code: nat, reason: string)
    requires OneLine(reason)
    ensures OneLine("HTTP/1.1 " + DecOf(code) + " " + reason)
    ensures IntOf(code) == DecOf(code)
  {
    hide DecOf;
    DigitsOneLine(code);
    VersionIsOneLine();
    LacksJoined("HTTP/1.1 ", DecOf(code), " ", '\n');
    LacksJoined("HTTP/1.1 ", DecOf(code), " ", '\r');
    LacksJoined("HTTP/1.1 " + DecOf(code) + " ", reason, "", '\n');
    LacksJoined("HTTP/1.1 " + DecOf(code) + " ", reason, "", '\r');
    assert ("HTTP/1.1 " + DecOf(code) + " ") + reason + "" == "HTTP/1.1 " + DecOf(code) + " " + reason;
  }

  lemma VersionIsOneLine()
    ensures OneLine("HTTP/1.1 ") && OneLine(" ") && OneLine("")
  {
  }

  lemma DigitsOneLine(n: nat)
    ensures OneLine(DecOf(n))
  {
    DigitsAre(DecOf(n));
  }

  lemma {:induction false} LinesStand(d: Draft, lines: seq<CgiLine>, code: nat, reason: string, fields: map<string, string>)
    requires ValidLines(lines) && OneLine(reason) && d.reason == reason
    requires Stands(d.response, "HTTP/1.1 " + DecOf(code) + " " + reason, fields)
    ensures Stands(ApplyAll(d, lines).response, MeantStatus(lines, code, reason), MeantFields(lines, fields))
    decreases |lines|
  {
    hide Stands, DecOf, ValidLine;
    if lines != [] {
      LineStands(d, lines[0], code, reason, fields);
      match lines[0]
      case Plain(name, pad, value) => LinesStand(Apply(d, lines[0]), lines[1..], code, reason, fields[name := value]);
      case Status(pad, c, r) => LinesStand(Apply(d, lines[0]), lines[1..], c, r, fields);
      case BareStatus(pad, c) => LinesStand(Apply(d, lines[0]), lines[1..], c, reason, fields);
      case Other(text) => LinesStand(d, lines[1..], code, reason, fields);
    }
  }

  lemma LineStands(d: Draft, l: CgiLine, code: nat, reason: string, fields: map<string, string>)
    requires ValidLine(l) && OneLine(reason) && d.reason == reason
    requires Stands(d.response, "HTTP/1.1 " + DecOf(code) + " " + reason, fields)
    ensures match l
            case Plain(name, _, value) =>
              Apply(d, l).reason == reason
              && Stands(Apply(d, l).response, "HTTP/1.1 " + DecOf(code) + " " + reason, fields[name := value])
            case Status(_, c, r) =>
              Apply(d, l).reason == r && OneLine(r) && Stands(Apply(d, l).response, "HTTP/1.1 " + DecOf(c) + " " + r, fields)
            case BareStatus(_, c) =>
              Apply(d, l).reason == reason && Stands(Apply(d, l).response, "HTTP/1.1 " + DecOf(c) + " " + reason, fields)
            case Other(_) => Apply(d, l) == d
  {
    hide DecOf, IntOf, OneLine, Sorted, AllPrintable, MapOf;
    match l
    case Plain(name, pad, value) =>
      PlainIsPrintable(l);
      SetStands(d.response, "HTTP/1.1 " + DecOf(code) + " " + reason, fields, name, value);
    case Status(pad, c, r) => StatusIsOneLine(c, r);
    case BareStatus(pad, c) => StatusIsOneLine(c, reason);
    case Other(text) =>
  }

  lemma PlainIsPrintable(l: CgiLine)
    requires ValidLine(l) && l.Plain?
    ensures Printable(l.name, l.value)
  {
  }

  lemma StartStands()
    ensures Stands(START.response, "HTTP/1.1 " + DecOf(200) + " OK", map[]) && OneLine("OK")
  {
    CodesPrinted();
    assert OneLine("OK");
    StatusIsOneLine(200, "OK");
  }

  lemma LengthIsPrintable(n: nat)
    ensures Printable("Content-Length", DecOf(n)) && Printable("Connection", "close") && Printable("Content-Type", "text/html")
  {
    hide DecOf;
    DigitsOneLine(n);
  }

  /**
   * What a client sees of a CGI that prints `lines` and `body`, whose header streams: the status and
   * the fields that the lines mean, and Connection: close, and the body byte for byte.
   */
  lemma StreamedResponse(lines: seq<CgiLine>, body: string, page: string)
    requires ValidLines(lines) && lines != []
    ensures See(Expected(PrintOutput(lines, body), page))
         == View(MeantStatus(lines, 200, "OK"), MeantFields(lines, map[])["Connection" := "close"], body)
  {
    hide ApplyAll, MeantStatus, MeantFields, Expected, HeaderToString, See, DecOf, Printable, PrintOutput, ValidLines;
    var meant := ApplyAll(START, lines).response;
    CgiOutputRoundTrip(lines, body, page);
    StartStands();
    LinesStand(START, lines, 200, "OK", map[]);
    LengthIsPrintable(0);
    SetStands(meant, MeantStatus(lines, 200, "OK"), MeantFields(lines, map[]), "Connection", "close");
    ResponseSeen(Close(meant), body);
  }

  /** Of one that prints line feeds only and no CRLFCRLF: the same, with the length of the body besides. */
  lemma CollectedResponse(lines: seq<CgiLine>, body: string, page: string)
    requires ValidLines(lines) && lines != [] && !Contains(PrintLfOutput(lines, body), CRLFCRLF)
    ensures See(Expected(PrintLfOutput(lines, body), page))
         == View(MeantStatus(lines, 200, "OK"),
                 MeantFields(lines, map[])["Content-Length" := DecOf(|body|)]["Connection" := "close"], body)
  {
    hide ApplyAll, MeantStatus, MeantFields, Expected, HeaderToString, See, DecOf, Printable, PrintLfOutput, ValidLines;
    var meant := ApplyAll(START, lines).response;
    var status, fields := MeantStatus(lines, 200, "OK"), MeantFields(lines, map[]);
    LfOutputRoundTrip(lines, body, page);
    StartStands();
    LinesStand(START, lines, 200, "OK", map[]);
    LengthIsPrintable(|body|);
    SetStands(meant, status, fields, "Content-Length", DecOf(|body|));
    BodyOnly(meant.(headers := Set(meant.headers, "Content-Length", DecOf(|body|))), body, status,
             fields["Content-Length" := DecOf(|body|)]);
    SetStands(WithBody(meant, body), status, fields["Content-Length" := DecOf(|body|)], "Connection", "close");
    ResponseSeen(Close(WithBody(meant, body)), body);
  }

  lemma BodyOnly(r: Response, body: string, status: string, fields: map<string, string>)
    requires Stands(r, status, fields)
    ensures Stands(r.(body := body), status, fields)
  {
  }

  /** Of one that prints no header section at all: a 500 with the server's page. */
  lemma NoResponse(raw: string, page: string)
    requires !Contains(raw, CRLFCRLF) && !Contains(raw, "\n\n")
    ensures See(Expected(raw, page))
         == View("HTTP/1.1 500 Internal Server Error",
                 map["Connection" := "close", "Content-Length" := DecOf(|page|), "Content-Type" := "text/html"], page)
  {
    hide HeaderToString, See, DecOf, Contains, Find, Error500, Close, Sorted, AllPrintable, MapOf, OneLine;
    ErrorStands(page);
    ResponseSeen(Close(Error500(page)), page);
    ErrorExpected(raw, page);
  }

  lemma ErrorStands(page: string)
    ensures Stands(Close(Error500(page)), "HTTP/1.1 500 Internal Server Error",
                   map["Connection" := "close", "Content-Length" := DecOf(|page|), "Content-Type" := "text/html"])
  {
    hide DecOf, Printable, Stands, WithStatus;
    var status := "HTTP/1.1 500 Internal Server Error";
    var n := DecOf(|page|);
    ErrorStatus();
    LengthIsPrintable(|page|);
    var a := WithStatus(Response("", [], ""), 500, "Internal Server Error");
    SetStands(a, status, map[], "Content-Length", n);
    BodyOnly(a.(headers := Set(a.headers, "Content-Length", n)), page, status, map["Content-Length" := n]);
    SetStands(WithBody(a, page), status, map["Content-Length" := n], "Content-Type", "text/html");
    SetStands(Error500(page), status, map["Content-Length" := n]["Content-Type" := "text/html"], "Connection", "close");
    MapOrder(n);
  }

  lemma MapOrder(n: string)
    ensures map["Content-Length" := n]["Content-Type" := "text/html"]["Connection" := "close"]
         == map["Connection" := "close", "Content-Length" := n, "Content-Type" := "text/html"]
    ensures map[]["Content-Length" := n] == map["Content-Length" := n]
  {
  }

  lemma ErrorStatus()
    ensures Stands(WithStatus(Response("", [], ""), 500, "Internal Server Error"), "HTTP/1.1 500 Internal Server Error", map[])
  {
    hide OneLine;
    ErrorIsOneLine();
    StatusIsOneLine(500, "Internal Server Error");
    CodesPrinted();
    ErrorStatusText();
  }

  lemma ErrorStatusText()
    ensures "HTTP/1.1 " + "500" + " " + "Internal Server Error" == "HTTP/1.1 500 Internal Server Error"
  {
  }

  lemma CodesPrinted()
    ensures DecOf(200) == "200" && DecOf(500) == "500"
  {
  }

  lemma ErrorIsOneLine()
    ensures OneLine("Internal Server Error")
  {
  }

  lemma ErrorExpected(raw: string, page: string)
    requires !Contains(raw, CRLFCRLF) && !Contains(raw, "\n\n")
    ensures Expected(raw, page) == HeaderToString(Close(Error500(page))) + page
  {
    hide HeaderToString, ReadSection;
  }

  /** So that is what a client has received when the exchange ends, under every scheduler. */
  lemma StreamedIsSeen(lines: seq<CgiLine>, body: string, pick: World -> Tick, page: string)
    requires ValidLines(lines) && lines != [] && Picks(pick, page)
    ensures OutInv(STARTED, page)
    ensures var e := Drive(World(STARTED, PrintOutput(lines, body)), pick, page).out;
            e.gone && !e.log.aborted
            && See(e.log.sent)
               == View(MeantStatus(lines, 200, "OK"), MeantFields(lines, map[])["Connection" := "close"], body)
  {
    hide OutInv, Expected, See, Drive, Picks, PrintOutput, MeantStatus, MeantFields;
    StreamedResponse(lines, body, page);
    OutputSplits(lines, body);
    EveryScheduleDelivers(PrintOutput(lines, body), pick, page);
  }

  /** And of a response built at the end, unless a full socket dropped the client. */
  lemma CollectedIsSeen(lines: seq<CgiLine>, body: string, pick: World -> Tick, page: string)
    requires ValidLines(lines) && lines != [] && !Contains(PrintLfOutput(lines, body), CRLFCRLF) && Picks(pick, page)
    ensures OutInv(STARTED, page)
    ensures var e := Drive(World(STARTED, PrintLfOutput(lines, body)), pick, page).out;
            e.gone
            && (!e.log.aborted ==>
                  See(e.log.sent)
                  == View(MeantStatus(lines, 200, "OK"),
                          MeantFields(lines, map[])["Content-Length" := DecOf(|body|)]["Connection" := "close"], body))
  {
    hide OutInv, Expected, See, Drive, Picks, PrintLfOutput, MeantStatus, MeantFields, DecOf;
    CollectedResponse(lines, body, page);
    EveryScheduleDelivers(PrintLfOutput(lines, body), pick, page);
  }
}
