/** A CGI that prints a document response (section 6 of RFC 3875) is understood as it meant it. */
module CgiRoundTrip {
  import opened Bytes
  import opened Numbers
  import opened HeadLaws
  import opened CgiResponse
  import opened OutputSpec
  import opened OutputLaws

  /**
   * A line a CGI prints: a header field; the status with a reason or without; or text without a
   * colon, which means nothing. Any padding may stand before a value.
   */
  datatype CgiLine =
    | Plain(name: string, pad: string, value: string)
    | Status(pad: string, code: nat, reason: string)
    | BareStatus(pad: string, code: nat)
    | Other(text: string)

  /** Text without a line end. */
  predicate OneLine(s: string) {
    !HasChar(s, '\n') && !HasChar(s, '\r')
  }

  /** One line of text that does not begin with padding. */
  predicate Simple(s: string) {
    OneLine(s) && (s == "" || (s[0] != ' ' && s[0] != '\t'))
  }

  predicate ValidLine(l: CgiLine) {
    match l
    case Plain(name, pad, value) => name != "Status" && !HasChar(name, ':') && OneLine(name) && Padding(pad) && Simple(value)
    case Status(pad, code, reason) => code < 0x8000_0000 && OneLine(reason) && Padding(pad)
    case BareStatus(pad, code) => code < 0x8000_0000 && Padding(pad)
    case Other(text) => text != "" && !HasChar(text, ':') && OneLine(text)
  }

  predicate ValidLines(lines: seq<CgiLine>) {
    forall i :: 0 <= i < |lines| ==> ValidLine(lines[i])
  }

  function Name(l: CgiLine): string
    requires !l.Other?
  {
    if l.Plain? then l.name else "Status"
  }

  function Value(l: CgiLine): string
    requires !l.Other?
  {
    match l
    case Plain(name, pad, value) => value
    case Status(pad, code, reason) => DecOf(code) + " " + reason
    case BareStatus(pad, code) => DecOf(code)
  }

  function PrintLine(l: CgiLine): string {
    if l.Other? then l.text else Name(l) + ":" + (l.pad + Value(l))
  }

  /** The header section, its lines ended by CRLF or by LF. */
  function PrintSection(lines: seq<CgiLine>, eol: string): string {
    if lines == [] then ""
    else if |lines| == 1 then PrintLine(lines[0])
    else PrintLine(lines[0]) + eol + PrintSection(lines[1..], eol)
  }

  /** What a line means for the response. */
  function Apply(d: Draft, l: CgiLine): Draft {
    match l
    case Plain(name, pad, value) => d.(response := d.response.(headers := Set(d.response.headers, name, value)))
    case Status(pad, code, reason) => Draft(WithStatus(d.response, code, reason), reason)
    case BareStatus(pad, code) => d.(response := WithStatus(d.response, code, d.reason))
    case Other(text) => d
  }

  function ApplyAll(d: Draft, lines: seq<CgiLine>): Draft
    decreases |lines|
  {
    if lines == [] then d else ApplyAll(Apply(d, lines[0]), lines[1..])
  }

  lemma AtoiOfDec(n: nat)
    requires n < 0x8000_0000
    ensures Atoi(DecOf(n)) == n
  {
    DigitsOfDec(n);
    assert IsDigit(DecOf(n)[0]);
    assert SkipSpaces(DecOf(n)) == DecOf(n);
  }

  /** atoi keeps the low 32 bits, as a signed number. */
  lemma AtoiWraps(n: nat)
    requires n <= LONG_MAX
    ensures -0x8000_0000 <= Atoi(DecOf(n)) < 0x8000_0000
    ensures Atoi(DecOf(n)) % 0x1_0000_0000 == n % 0x1_0000_0000
  {
    hide DecOf, Atol;
    AtolReads("", n, "");
    assert "" + (DecOf(n) + "") == DecOf(n);
  }

  /** A status code is printed so that reading it gives it back, be it negative. */
  lemma AtoiOfInt(n: int)
    requires -0x8000_0000 <= n < 0x8000_0000
    ensures Atoi(IntOf(n)) == n
  {
    hide DecOf;
    if n >= 0 {
      AtoiOfDec(n);
    } else {
      AtolReads("", -n, "");
      assert "" + ("-" + (DecOf(-n) + "")) == IntOf(n);
    }
  }

  lemma DigitsAre(s: string)
    requires s != "" && forall i :: 0 <= i < |s| ==> IsDigit(s[i])
    ensures Simple(s) && !HasChar(s, ' ')
  {
  }

  lemma LineShape(l: CgiLine)
    requires ValidLine(l) && !l.Other?
    ensures var line := PrintLine(l);
            && OneLine(line) && FindChar(line, ':', 0) == |Name(l)|
            && line[..|Name(l)|] == Name(l) && line[|Name(l)| + 1..] == l.pad + Value(l)
            && Simple(Value(l)) && Padding(l.pad)
  {
    hide HasChar, Value, Name, FindChar, Padding, Simple;
    var line := PrintLine(l);
    PartsShape(l);
    SimpleIsOneLine(Value(l));
    LacksJoined(l.pad, Value(l), "", '\n');
    LacksJoined(l.pad, Value(l), "", '\r');
    assert l.pad + Value(l) + "" == l.pad + Value(l);
    LacksJoined(Name(l), ":", l.pad + Value(l), '\n');
    LacksJoined(Name(l), ":", l.pad + Value(l), '\r');
    assert line == Name(l) + [':'] + (l.pad + Value(l));
    FirstChar(Name(l), ':', l.pad + Value(l));
  }

  lemma SimpleIsOneLine(s: string)
    requires Simple(s)
    ensures OneLine(s)
  {
  }

  lemma PartsShape(l: CgiLine)
    requires ValidLine(l) && !l.Other?
    ensures !HasChar(Name(l), ':') && OneLine(Name(l)) && Simple(Value(l)) && OneLine(":") && OneLine("")
    ensures Padding(l.pad) && OneLine(l.pad)
  {
    if !l.Plain? {
      DigitsAre(DecOf(l.code));
    }
    if l.Status? {
      LacksJoined(DecOf(l.code), " ", l.reason, '\n');
      LacksJoined(DecOf(l.code), " ", l.reason, '\r');
    }
  }

  lemma LacksJoined(a: string, b: string, c: string, x: char)
    requires !HasChar(a, x) && !HasChar(b, x) && !HasChar(c, x)
    ensures !HasChar(a + b + c, x)
  {
  }

  lemma TrimPad(pad: string, v: string)
    requires Padding(pad) && Simple(v)
    ensures TrimLeft(pad + v) == v
  {
    var s := pad + v;
    assert forall j :: 0 <= j < |pad| ==> s[j] == pad[j];
    if v != "" {
      assert s[|pad|] == v[0];
      assert FirstNotBlank(s, 0) == |pad|;
    } else {
      assert FirstNotBlank(s, 0) == -1;
    }
  }

  lemma LineTakenApart(d: Draft, l: CgiLine, raw: string)
    requires ValidLine(l) && DropTrailingCr(raw) == PrintLine(l)
    ensures ReadLine(d, raw) == Apply(d, l)
  {
    hide DecOf, Atoi, TrimLeft, WithStatus, Set, DropTrailingCr, PrintLine, FindChar;
    if l.Other? {
      NoColon(l);
    } else {
      LineShape(l);
      TrimPad(l.pad, Value(l));
      if l.Status? {
        StatusValue(l.code, l.reason);
      } else if l.BareStatus? {
        BareValue(l.code);
      }
    }
  }

  lemma NoColon(l: CgiLine)
    requires ValidLine(l) && l.Other?
    ensures FindChar(PrintLine(l), ':', 0) == -1
  {
  }

  lemma BareValue(code: nat)
    requires code < 0x8000_0000
    ensures FindChar(DecOf(code), ' ', 0) == -1 && Atoi(DecOf(code)) == code
  {
    DigitsAre(DecOf(code));
    AtoiOfDec(code);
  }

  lemma PrintedIsOneLine(l: CgiLine)
    requires ValidLine(l)
    ensures OneLine(PrintLine(l)) && PrintLine(l) != ""
  {
    if !l.Other? {
      LineShape(l);
    }
  }

  /** A line means the same with its carriage return and without. */
  lemma LineReads(d: Draft, l: CgiLine)
    requires ValidLine(l)
    ensures ReadLine(d, PrintLine(l)) == ReadLine(d, PrintLine(l) + "\r") == Apply(d, l)
  {
    hide ReadLine, Apply, PrintLine;
    var line := PrintLine(l);
    PrintedIsOneLine(l);
    assert (line + "\r")[..|line|] == line;
    LineTakenApart(d, l, line);
    LineTakenApart(d, l, line + "\r");
  }

  lemma StatusValue(code: nat, reason: string)
    requires code < 0x8000_0000
    ensures var v := DecOf(code) + " " + reason;
            var sp := FindChar(v, ' ', 0);
            sp == |DecOf(code)| && Atoi(v[..sp]) == code && v[sp + 1..] == reason
  {
    var v := DecOf(code) + " " + reason;
    DigitsAre(DecOf(code));
    AtoiOfDec(code);
    assert v == DecOf(code) + [' '] + reason;
    FirstChar(DecOf(code), ' ', reason);
    assert v[..|DecOf(code)|] == DecOf(code);
  }

  /** Reading a printed section does what its lines say, in order, with either line end. */
  lemma {:induction false} SectionReads(d: Draft, lines: seq<CgiLine>, cr: string)
    requires ValidLines(lines) && (cr == "" || cr == "\r")
    ensures ReadLines(d, PrintSection(lines, cr + "\n")) == ApplyAll(d, lines)
    decreases |lines|
  {
    hide ReadLine, Apply, PrintLine, ValidLine;
    if lines != [] {
      var line, section := PrintLine(lines[0]), PrintSection(lines, cr + "\n");
      LineReads(d, lines[0]);
      PrintedIsOneLine(lines[0]);
      if |lines| == 1 {
        assert ApplyAll(Apply(d, lines[0]), lines[1..]) == Apply(d, lines[0]);
      } else {
        var rest := PrintSection(lines[1..], cr + "\n");
        assert section == (line + cr) + ['\n'] + rest;
        FirstChar(line + cr, '\n', rest);
        assert section[..|line + cr|] == line + cr && section[|line + cr| + 1..] == rest;
        assert cr == "" ==> line + cr == line;
        SectionReads(Apply(d, lines[0]), lines[1..], cr);
      }
    }
  }

  lemma LineIsLine(l: CgiLine)
    requires ValidLine(l)
    ensures PrintLine(l) != "" && !Contains(PrintLine(l), CRLF)
  {
    var line := PrintLine(l);
    PrintedIsOneLine(l);
    forall j | 0 <= j
      ensures !At(line, CRLF, j)
    {
      if j + 2 <= |line| {
        assert line[j..j + 2][0] == line[j];
      }
    }
    FindAbsent(line, CRLF);
  }

  lemma {:induction false} SectionEnds(lines: seq<CgiLine>, body: string)
    requires ValidLines(lines) && lines != []
    ensures BlankLine(PrintSection(lines, CRLF) + (CRLF + (CRLF + body))) == Open(body)
    decreases |lines|
  {
    hide BlankLine, PrintLine, ValidLine;
    var line, end := PrintLine(lines[0]), CRLF + body;
    LineIsLine(lines[0]);
    if |lines| == 1 {
      BlankLineAfter(line, end);
      BlankLineAtFront(body);
      Assoc(line, CRLF, end);
    } else {
      var rest := PrintSection(lines[1..], CRLF);
      BlankLineAfter(line, rest + (CRLF + end));
      SectionEnds(lines[1..], body);
      Assoc(line + CRLF, rest, CRLF + end);
    }
  }

  /** What a CGI prints. */
  function PrintOutput(lines: seq<CgiLine>, body: string): string {
    PrintSection(lines, CRLF) + (CRLF + (CRLF + body))
  }

  lemma OutputSplits(lines: seq<CgiLine>, body: string)
    requires ValidLines(lines) && lines != []
    ensures var raw := PrintOutput(lines, body);
            var i := Find(raw, CRLFCRLF);
            i >= 0 && raw[..i] == PrintSection(lines, CRLF) && raw[i + 4..] == body
  {
    hide BlankLine, HeaderGate, PrintLine, ValidLine;
    var raw, line := PrintOutput(lines, body), PrintLine(lines[0]);
    LineIsLine(lines[0]);
    if |lines| == 1 {
      GateAfterLine(line, CRLF + body);
      BlankLineAtFront(body);
      Assoc(line, CRLF, CRLF + body);
    } else {
      var rest := PrintOutput(lines[1..], body);
      GateAfterLine(line, rest);
      SectionEnds(lines[1..], body);
      Assoc(line + CRLF, PrintSection(lines[1..], CRLF), CRLF + (CRLF + body));
    }
    OpensAtEnd(PrintSection(lines, CRLF), body);
  }

  lemma OpensAtEnd(section: string, body: string)
    requires HeaderGate(section + (CRLF + (CRLF + body))) == Open(body)
    ensures Find(section + (CRLF + (CRLF + body)), CRLFCRLF) == |section|
  {
    var raw := section + (CRLF + (CRLF + body));
    assert |raw[Find(raw, CRLFCRLF) + 4..]| == |body|;
  }

  /**
   * Whatever status, header fields and body a CGI prints, both readers find exactly those: the
   * client of a streaming exchange is owed the header built from these lines and then the body.
   */
  lemma CgiOutputRoundTrip(lines: seq<CgiLine>, body: string, page: string)
    requires ValidLines(lines) && lines != []
    ensures var raw, meant := PrintOutput(lines, body), ApplyAll(START, lines).response;
            && ReadWhole(raw) == Some(WithBody(meant, body))
            && Expected(raw, page) == HeaderToString(Close(meant)) + body
  {
    hide ReadLines, PrintSection, ApplyAll, Find, HeaderToString, Close, WithBody;
    SectionReads(START, lines, "\r");
    assert "\r" + "\n" == CRLF;
    OutputSplits(lines, body);
  }

  // ---------------------------------------------------- line feeds only

  /** The same printed with line feeds only. */
  function PrintLfOutput(lines: seq<CgiLine>, body: string): string {
    PrintSection(lines, "\n") + ("\n\n" + body)
  }

  /** No empty line inside the section. */
  lemma {:induction false} NoLfLfBefore(lines: seq<CgiLine>, more: string, j: nat)
    requires ValidLines(lines) && lines != [] && j < |PrintSection(lines, "\n")|
    ensures !At(PrintSection(lines, "\n") + more, "\n\n", j)
    decreases |lines|
  {
    hide PrintLine, ValidLine;
    var line, s := PrintLine(lines[0]), PrintSection(lines, "\n");
    var raw := s + more;
    PrintedIsOneLine(lines[0]);
    if j + 2 <= |raw| {
      assert raw[j..j + 2][0] == raw[j] && raw[j..j + 2][1] == raw[j + 1];
      if j < |line| {
        assert raw[j] == line[j];
      } else {
        var rest := PrintSection(lines[1..], "\n");
        SectionStarts(lines[1..]);
        assert s == line + "\n" + rest;
        if j == |line| {
          assert raw[j + 1] == rest[0];
        } else {
          var k := j - |line| - 1;
          NoLfLfBefore(lines[1..], more, k);
          assert raw[j..j + 2] == (rest + more)[k..k + 2];
        }
      }
    }
  }

  lemma SectionStarts(lines: seq<CgiLine>)
    requires ValidLines(lines) && lines != []
    ensures var s := PrintSection(lines, "\n"); s != "" && s[0] != '\n'
  {
    hide PrintLine, ValidLine;
    PrintedIsOneLine(lines[0]);
  }

  lemma LfOutputSplits(lines: seq<CgiLine>, body: string)
    requires ValidLines(lines) && lines != []
    ensures var raw := PrintLfOutput(lines, body);
            var j := Find(raw, "\n\n");
            j == |PrintSection(lines, "\n")| && raw[..j] == PrintSection(lines, "\n") && raw[j + 2..] == body
  {
    hide PrintSection, ValidLine;
    var s := PrintSection(lines, "\n");
    var raw := s + ("\n\n" + body);
    forall j | 0 <= j < |s|
      ensures !At(raw, "\n\n", j)
    {
      NoLfLfBefore(lines, "\n\n" + body, j);
    }
    assert raw[|s|..|s| + 2] == "\n\n";
    FindIs(raw, "\n\n", |s|);
  }

  /** Output with line feeds only, and no CRLFCRLF in it, is read when it has ended, and read right. */
  lemma LfOutputRoundTrip(lines: seq<CgiLine>, body: string, page: string)
    requires ValidLines(lines) && lines != [] && !Contains(PrintLfOutput(lines, body), CRLFCRLF)
    ensures var raw, meant := PrintLfOutput(lines, body), ApplyAll(START, lines).response;
            && ReadWhole(raw) == Some(WithBody(meant, body))
            && Expected(raw, page) == ToString(Close(WithBody(meant, body)))
  {
    hide ReadLines, PrintSection, ApplyAll, Find, ToString, Close, WithBody;
    SectionReads(START, lines, "");
    assert "" + "\n" == "\n";
    LfOutputSplits(lines, body);
    assert PrintLfOutput(lines, body) != "";
  }

  /** So that is what the client has received when the exchange ends, whatever order things happen in. */
  lemma ResponseReachesClient(lines: seq<CgiLine>, body: string, pick: World -> Tick, page: string)
    requires ValidLines(lines) && lines != [] && Picks(pick, page)
    ensures OutInv(STARTED, page)
    ensures var e := Drive(World(STARTED, PrintOutput(lines, body)), pick, page).out;
            e.gone && !e.log.aborted
            && e.log.sent == HeaderToString(Close(ApplyAll(START, lines).response)) + body
  {
    hide OutInv, Expected, HeaderToString, Close, ApplyAll, PrintOutput, Drive, Picks;
    CgiOutputRoundTrip(lines, body, page);
    OutputSplits(lines, body);
    EveryScheduleDelivers(PrintOutput(lines, body), pick, page);
  }
}
