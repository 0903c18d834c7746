/** What a printed head decides about its connection: the body limit, a CGI, or an answer. */
module HeadDecides {
  import opened Bytes
  import opened RequestSpec
  import opened HeadLaws
  import opened RoundTrip
  import opened Routing
  import opened HeaderGating
  import opened Pipelining

  /** A target that asks for `path`, with a query or without. */
  predicate AsksFor(target: string, path: string) {
    !HasChar(path, '?') && (target == path || path + "?" <= target)
  }

  lemma QueryIsCut(target: string, path: string)
    requires AsksFor(target, path)
    ensures StripQuery(target) == path
  {
    if target != path {
      assert target == path + ['?'] + target[|path| + 1..];
      FirstChar(path, '?', target[|path| + 1..]);
    }
  }

  /** The route's own limit, or the server's. */
  function LimitOf(conf: Config, b: int): nat
    requires -1 <= b < |conf.routes|
  {
    if b >= 0 && conf.routes[b].hasLimit then conf.routes[b].limit else conf.limit
  }

  /** The route has a CGI extension that the path ends with, and allows the method. */
  ghost predicate RunsCgi(route: Route, verb: string, path: string) {
    && route.cgiExtension != "" && (exists stem :: path == stem + route.cgiExtension)
    && (route.methods == [] || exists i :: 0 <= i < |route.methods| && route.methods[i] == verb)
  }

  lemma BestDecides(conf: Config, verb: string, path: string, b: int)
    requires NonEmptyPaths(conf.routes) && IsBest(path, conf.routes, b)
    ensures LimitFor(conf, path) == LimitOf(conf, b)
    ensures ForCgi(conf, verb, path) <==> b >= 0 && RunsCgi(conf.routes[b], verb, path)
  {
    BestIsUnique(path, conf.routes, b, Select(path, conf.routes));
    if b >= 0 {
      var end := conf.routes[b].cgiExtension;
      if EndsWith(path, end) {
        assert path == path[..|path| - |end|] + end;
      }
      if stem :| path == stem + end {
        assert path[|path| - |end|..] == end;
      }
    }
  }

  /** Where the blank line of a printed head is. */
  lemma {:induction false} FieldsEnd(fields: seq<Field>, rest: string)
    requires forall i :: 0 <= i < |fields| ==> ValidField(fields[i])
    ensures BlankLine(PrintFields(fields) + rest) == Open(rest)
    decreases |fields|
  {
    hide BlankLine, ValidField, PrintField, CrlfFree;
    if fields == [] {
      BlankLineAtFront(rest);
    } else {
      var line, more := PrintField(fields[0]), PrintFields(fields[1..]) + rest;
      FieldParses(fields[0], Fresh(0));
      assert PrintFields(fields) + rest == line + CRLF + more;
      BlankAfterFree(line, more);
      FieldsEnd(fields[1..], rest);
    }
  }

  lemma BlankAfterFree(line: string, rest: string)
    requires CrlfFree(line) && line != ""
    ensures BlankLine(line + CRLF + rest) == BlankLine(rest)
  {
    BlankLineAfter(line, rest);
  }

  lemma GateAfterFree(line: string, rest: string)
    requires CrlfFree(line)
    ensures HeaderGate(line + CRLF + rest) == BlankLine(rest)
  {
    GateAfterLine(line, rest);
  }

  /** The gate opens just behind a printed head. */
  lemma PrintedGate(h: Head, rest: string)
    requires ValidHead(h)
    ensures HeaderGate(PrintHead(h) + rest) == Open(rest)
  {
    hide BlankLine, HeaderGate, RequestLineOf, CrlfFree;
    RequestLineIsLine(h);
    assert PrintHead(h) + rest == RequestLineOf(h) + CRLF + (PrintFields(h.fields) + rest);
    GateAfterFree(RequestLineOf(h), PrintFields(h.fields) + rest);
    FieldsEnd(h.fields, rest);
  }

  lemma OpenHolds(s: string)
    requires HeaderGate(s).Open?
    ensures Contains(s, CRLFCRLF)
  {
  }

  lemma PrintedFacts(h: Head, limit: nat, rest: string)
    requires ValidHead(h)
    ensures var r := Parse(Fresh(limit), PrintHead(h) + rest);
            r.verb == h.verb && r.target == h.target && !InHead(r)
  {
    hide Run, FieldMap, PrintHead;
    HeadParses(h, limit, rest);
    TargetStays(HeadRead(h, limit, rest));
    NeverBack(HeadRead(h, limit, rest));
  }

  /**
   * A printed head decides, whatever came in which read before it was whole. Let `b` be the best
   * route for the path its target asks for, with a query or without. The request is parsed under
   * that route's limit or else the server's. A bad one is refused; one that the route runs a CGI
   * for is handed over; a complete one is answered; and of any other the rest is read.
   */
  lemma PrintedHeadDecides(conf: Config, before: string, data: string, answers: seq<Answered>,
                           h: Head, path: string, b: int, rest: string)
    requires NonEmptyPaths(conf.routes) && ValidHead(h) && AsksFor(h.target, path) && IsBest(path, conf.routes, b)
    requires before + data == PrintHead(h) + rest && !Contains(before, CRLFCRLF)
    ensures var n := OnData(Conn(before, false, Fresh(0), Reading, before, answers), data, conf);
            var s := PrintHead(h) + rest;
            var r := Parse(Fresh(LimitOf(conf, b)), s);
            if r.state.Error? then n == Conn("", false, Fresh(0), Refused, "", answers + [Answered(s, r)])
            else if b >= 0 && RunsCgi(conf.routes[b], h.verb, path) then n == Conn("", true, r, Relaying, s, answers)
            else if r.state.Complete? then n == Conn("", false, Fresh(0), Reading, "", answers + [Answered(s, r)])
            else n == Conn("", true, r, Reading, s, answers)
  {
    hide Run, PeekLimit, LimitFor, ForCgi, StripQuery, PrintHead, ValidHead, IsBest, RunsCgi, LimitOf, HeaderGate, Contains;
    var s := PrintHead(h) + rest;
    PrintedGate(h, rest);
    OpenHolds(s);
    PrintedLimit(conf, h, rest);
    QueryIsCut(h.target, path);
    BestDecides(conf, h.verb, path, b);
    BestInRange(conf, path, b);
    PrintedFacts(h, LimitOf(conf, b), rest);
  }

  lemma BestInRange(conf: Config, path: string, b: int)
    requires NonEmptyPaths(conf.routes) && IsBest(path, conf.routes, b)
    ensures -1 <= b < |conf.routes|
  {
  }
}
