/** Several requests on one connection: what an answer throws away, and when none is lost. */
module Pipelining {
  import opened Bytes
  import opened Numbers
  import opened RequestSpec
  import opened RequestLaws
  import opened RoundTrip
  import opened Routing
  import opened HeaderGating

  /** The bytes of one request, parsed on their own under the limit that they select. */
  function Alone(conf: Config, m: string): Request
    requires NonEmptyPaths(conf.routes)
  {
    Parse(Fresh(PeekLimit(conf, m)), m)
  }

  /** A request that is complete, with nothing behind it, and is not for a CGI. */
  predicate Whole(conf: Config, m: string)
    requires NonEmptyPaths(conf.routes)
  {
    var q := Alone(conf, m);
    q.state.Complete? && q.buffer == "" && !ToCgi(conf, q)
  }

  // --------------------------------------------------------- its limit

  lemma GoodLine(limit: nat, s: string)
    requires CutLine(s).Line? && !Parse(Fresh(limit), s).state.Error?
    ensures var line := CutLine(s).line;
            FindChar(line, ' ', 0) >= 0 && FindChar(line, ' ', FindChar(line, ' ', 0) + 1) >= 0
  {
    hide Run, CutLine, FindChar;
    var f := Fresh(limit).Feed(s);
    assert f.buffer == s;
    ParsedTarget(f);
  }

  /** A good first line leaves no choice of the limit. */
  lemma OneLimit(conf: Config, limit: nat, other: nat, s: string, rest: string)
    requires NonEmptyPaths(conf.routes) && CutLine(s).Line? && CutLine(s + rest).Line?
    requires LimitRight(conf, limit, s) && LimitRight(conf, other, s + rest)
    requires !Parse(Fresh(limit), s).state.Error? || !Parse(Fresh(other), s + rest).state.Error?
    ensures limit == other
  {
    hide Run, LimitFor, StripQuery;
    CutLineExtends(s, rest);
    if !Parse(Fresh(limit), s).state.Error? {
      GoodLine(limit, s);
    } else {
      GoodLine(other, s + rest);
    }
  }

  lemma WholeHasLine(conf: Config, m: string)
    requires NonEmptyPaths(conf.routes) && Whole(conf, m)
    ensures Contains(m, CRLFCRLF) && CutLine(m).Line? && LimitRight(conf, PeekLimit(conf, m), m)
    ensures m != ""
  {
    hide Run, PeekLimit, ToCgi, LimitRight;
    CompleteIsPastGate(PeekLimit(conf, m), m);
    DoubleHasCrlf(m);
    PeekIsRight(conf, m);
  }

  // ----------------------------------------------------- one at a time

  /** A connection between two requests. */
  function Between(answers: seq<Answered>): Conn {
    Conn("", false, Fresh(0), Reading, "", answers)
  }

  /** A beginning of a whole request that holds its head: not bad, not for a CGI, complete only if it is all. */
  lemma BeginningReads(conf: Config, r: Request, s: string, rest: string)
    requires NonEmptyPaths(conf.routes) && Whole(conf, s + rest) && ReadFrom(conf, r, s)
    ensures !r.state.Error? && !ToCgi(conf, r) && (r.state.Complete? <==> rest == "")
    ensures rest == "" ==> r == Alone(conf, s + rest)
  {
    hide Run, PeekLimit, ForCgi, StripQuery, LimitRight;
    var m := s + rest;
    WholeHasLine(conf, m);
    OneLimit(conf, r.maxBodySize, PeekLimit(conf, m), s, rest);
    SplitInvariance(Fresh(r.maxBodySize), s, rest);
    TargetStays(r.Feed(rest));
    if r.Terminal() {
      FinishedStays(r, rest);
    }
    if rest == "" {
      assert s + rest == s;
    }
  }

  lemma {:induction false} NothingMore(conf: Config, answers: seq<Answered>, pieces: seq<string>)
    requires NonEmptyPaths(conf.routes) && Join(pieces) == ""
    ensures OnAll(Between(answers), pieces, conf) == Between(answers)
    decreases |pieces|
  {
    if pieces != [] {
      assert |pieces[0]| + |Join(pieces[1..])| == 0;
      FindAbsent("", CRLFCRLF);
      assert OnData(Between(answers), "", conf) == Between(answers);
      NothingMore(conf, answers, pieces[1..]);
    }
  }

  /** However it is cut, a whole request is answered when its last byte is read. */
  lemma {:induction false} RequestAnswered(conf: Config, c: Conn, pieces: seq<string>, m: string)
    requires NonEmptyPaths(conf.routes) && Whole(conf, m)
    requires CurrentInv(conf, c) && c.mode.Reading? && c.stream != m && c.stream + Join(pieces) == m
    ensures OnAll(c, pieces, conf) == Between(c.answers + [Answered(m, Alone(conf, m))])
    decreases |pieces|
  {
    hide Gated, ReadFrom, Alone, Whole, ForCgi, StripQuery, Contains;
    if pieces != [] {
      var n, rest := Gated(c, pieces[0], conf), Join(pieces[1..]);
      Assoc(c.stream, pieces[0], rest);
      GatedKeeps(conf, c, pieces[0]);
      if n.started {
        BeginningReads(conf, n.request, n.stream, rest);
        NotInHead(conf, n.request, n.stream);
      } else {
        NotWholeYet(conf, n, m);
      }
      if n.started && rest == "" {
        assert n.stream + "" == n.stream;
        NothingMore(conf, c.answers + [Answered(m, Alone(conf, m))], pieces[1..]);
      } else {
        assert rest == "" ==> n.stream + rest == n.stream;
        RequestAnswered(conf, n, pieces[1..], m);
      }
    }
  }

  lemma NotWholeYet(conf: Config, c: Conn, m: string)
    requires NonEmptyPaths(conf.routes) && Whole(conf, m) && CurrentInv(conf, c) && !c.started
    ensures c.stream != m
  {
    hide ReadFrom, Whole;
    WholeHasLine(conf, m);
  }

  lemma BetweenInv(conf: Config, answers: seq<Answered>)
    requires NonEmptyPaths(conf.routes)
    ensures CurrentInv(conf, Between(answers))
  {
    FindAbsent("", CRLFCRLF);
  }

  // ------------------------------------------------- what is discarded

  /**
   * The stretch of an answered request is that request, whole, and behind it the bytes its buffer
   * still held: just those are thrown away with it.
   */
  lemma DiscardedExactly(conf: Config, pieces: seq<string>, i: nat)
    requires NonEmptyPaths(conf.routes) && i < |OnAll(NEW_CONN, pieces, conf).answers|
    requires OnAll(NEW_CONN, pieces, conf).answers[i].request.state.Complete?
    ensures var a := OnAll(NEW_CONN, pieces, conf).answers[i];
            |a.request.buffer| <= |a.stream|
            && var m := a.stream[..|a.stream| - |a.request.buffer|];
               a.stream == m + a.request.buffer
               && Whole(conf, m) && Alone(conf, m) == a.request.(buffer := "")
  {
    hide OnAll, Run, ReadFrom, PeekLimit, ForCgi, StripQuery;
    var answers := OnAll(NEW_CONN, pieces, conf).answers;
    GatedConnection(conf, pieces);
    assert AnswerInv(conf, answers[i], i == |answers| - 1);
    WithoutRest(conf, answers[i].request, answers[i].stream);
  }

  lemma WithoutRest(conf: Config, q: Request, s: string)
    requires NonEmptyPaths(conf.routes) && ReadFrom(conf, q, s) && q.state.Complete? && !ToCgi(conf, q)
    ensures |q.buffer| <= |s|
    ensures var m := s[..|s| - |q.buffer|];
            s == m + q.buffer && Whole(conf, m) && Alone(conf, m) == q.(buffer := "")
  {
    hide Run, PeekLimit, LimitRight, ForCgi, StripQuery;
    var f := Fresh(q.maxBodySize).Feed(s);
    assert f.buffer == s && "" + q.buffer == q.buffer;
    RunWithout(f, "", q.buffer);
    var m := s[..|s| - |q.buffer|];
    assert Fresh(q.maxBodySize).Feed(m) == f.(buffer := m);
    CompleteIsPastGate(q.maxBodySize, m);
    DoubleHasCrlf(m);
    PeekIsRight(conf, m);
    LimitOfBeginning(conf, q.maxBodySize, m, q.buffer);
    OneLimit(conf, q.maxBodySize, PeekLimit(conf, m), m, "");
  }

  lemma LimitOfBeginning(conf: Config, limit: nat, m: string, rest: string)
    requires NonEmptyPaths(conf.routes) && CutLine(m).Line? && CutLine(m + rest).Line? && LimitRight(conf, limit, m + rest)
    ensures LimitRight(conf, limit, m) && m + "" == m
  {
    hide LimitFor, StripQuery;
    CutLineExtends(m, rest);
  }

  /** What follows a request in the read that ends it is thrown away, be it a request itself. */
  lemma SecondInSameRead(conf: Config, m: string, more: string)
    requires NonEmptyPaths(conf.routes) && Whole(conf, m)
    ensures OnAll(NEW_CONN, [m + more], conf) == Between([Answered(m + more, Alone(conf, m).Feed(more))])
  {
    hide Run, ForCgi, StripQuery, PeekLimit, LimitRight;
    var s := m + more;
    WholeHasLine(conf, m);
    FindExtends(m, more, CRLFCRLF);
    CutLineExtends(m, more);
    PeekIsRight(conf, s);
    OneLimit(conf, PeekLimit(conf, m), PeekLimit(conf, s), m, more);
    SplitInvariance(Fresh(PeekLimit(conf, m)), m, more);
    FinishedStays(Alone(conf, m), more);
    assert "" + s == s && [s][1..] == [];
    assert OnData(NEW_CONN, s, conf) == Between([Answered(s, Alone(conf, m).Feed(more))]);
  }

  /** So the cut decides: two requests in one read have one answer, in two reads they have two. */
  lemma CutDecidesOnAnswers(conf: Config, m: string)
    requires NonEmptyPaths(conf.routes) && Whole(conf, m)
    ensures |OnAll(NEW_CONN, [m + m], conf).answers| == 1 && |OnAll(NEW_CONN, [m, m], conf).answers| == 2
  {
    hide OnAll, Whole, Alone;
    SecondInSameRead(conf, m, m);
    Singles(conf, [m, m]);
  }

  // ------------------------------------------------------ none is lost

  predicate AllWhole(conf: Config, requests: seq<string>)
    requires NonEmptyPaths(conf.routes)
  {
    forall i :: 0 <= i < |requests| ==> Whole(conf, requests[i])
  }

  /** Each request answered for itself. */
  function Each(conf: Config, requests: seq<string>): (r: seq<Answered>)
    requires NonEmptyPaths(conf.routes)
    ensures |r| == |requests|
    ensures forall i :: 0 <= i < |r| ==> r[i] == Answered(requests[i], Alone(conf, requests[i]))
  {
    seq(|requests|, i requires 0 <= i < |requests| => Answered(requests[i], Alone(conf, requests[i])))
  }

  /** A read ends where `s` ends. */
  predicate ReadEnds(pieces: seq<string>, s: string) {
    exists j :: 0 <= j <= |pieces| && Join(pieces[..j]) == s
  }

  /** Every request ends where a read ends. */
  predicate Aligned(requests: seq<string>, pieces: seq<string>) {
    forall i :: 0 <= i <= |requests| ==> ReadEnds(pieces, Join(requests[..i]))
  }

  lemma {:induction false} JoinAppend(a: seq<string>, b: seq<string>)
    ensures Join(a + b) == Join(a) + Join(b)
    decreases |a|
  {
    if a == [] {
      assert a + b == b && "" + Join(b) == Join(b);
    } else {
      assert (a + b)[1..] == a[1..] + b;
      JoinAppend(a[1..], b);
      Assoc(a[0], Join(a[1..]), Join(b));
    }
  }

  lemma {:induction false} OnAllAppend(conf: Config, c: Conn, a: seq<string>, b: seq<string>)
    requires NonEmptyPaths(conf.routes)
    ensures OnAll(c, a + b, conf) == OnAll(OnAll(c, a, conf), b, conf)
    decreases |a|
  {
    hide OnData;
    if a == [] {
      assert a + b == b;
    } else {
      assert (a + b)[1..] == a[1..] + b;
      OnAllAppend(conf, OnData(c, a[0], conf), a[1..], b);
    }
  }

  /** After the first request, the rest are still aligned. */
  lemma AlignedAfterFirst(requests: seq<string>, pieces: seq<string>, j: nat)
    requires requests != [] && Aligned(requests, pieces)
    requires j <= |pieces| && Join(pieces[..j]) == requests[0]
    ensures Aligned(requests[1..], pieces[j..])
  {
    hide ReadEnds, Join;
    forall i | 0 <= i <= |requests| - 1
      ensures ReadEnds(pieces[j..], Join(requests[1..][..i]))
    {
      JoinFirst(requests, i + 1);
      assert ReadEnds(pieces, Join(requests[..i + 1]));
      EndsAfterFirst(pieces, j, requests[0], Join(requests[1..][..i]));
    }
  }

  lemma JoinFirst(requests: seq<string>, i: nat)
    requires 0 < i <= |requests|
    ensures Join(requests[..i]) == requests[0] + Join(requests[1..][..i - 1])
  {
    assert requests[..i][1..] == requests[1..][..i - 1];
  }

  lemma EndsAfterFirst(pieces: seq<string>, j: nat, first: string, s: string)
    requires j <= |pieces| && Join(pieces[..j]) == first && ReadEnds(pieces, first + s)
    ensures ReadEnds(pieces[j..], s)
  {
    hide Join;
    var k :| 0 <= k <= |pieces| && Join(pieces[..k]) == first + s;
    if k >= j {
      assert pieces[..k] == pieces[..j] + pieces[j..][..k - j];
      JoinAppend(pieces[..j], pieces[j..][..k - j]);
      CancelFirst(first, Join(pieces[j..][..k - j]), s);
    } else {
      assert pieces[..j] == pieces[..k] + pieces[k..j];
      JoinAppend(pieces[..k], pieces[k..j]);
      assert |first + s| <= |first|;
      NoPieces(pieces[j..]);
    }
  }

  lemma NoPieces(pieces: seq<string>)
    ensures Join(pieces[..0]) == ""
  {
  }

  lemma CancelFirst(p: string, a: string, b: string)
    requires p + a == p + b
    ensures a == b
  {
    assert (p + a)[|p|..] == a && (p + b)[|p|..] == b;
  }

  lemma {:induction false} AlignedAnswered(conf: Config, answers: seq<Answered>, requests: seq<string>, pieces: seq<string>)
    requires NonEmptyPaths(conf.routes) && AllWhole(conf, requests)
    requires Join(pieces) == Join(requests) && Aligned(requests, pieces)
    ensures OnAll(Between(answers), pieces, conf) == Between(answers + Each(conf, requests))
    decreases |requests|
  {
    hide OnAll, Whole, Alone, Aligned, Join, Each, Between;
    if requests == [] {
      NoneRequested(conf, answers, pieces);
    } else {
      var j := FirstEnds(requests, pieces);
      var a, b := pieces[..j], pieces[j..];
      var done := answers + [Answered(requests[0], Alone(conf, requests[0]))];
      RestJoins(requests, pieces, j);
      assert a + b == pieces;
      OnAllAppend(conf, Between(answers), a, b);
      FirstAnswered(conf, answers, a, requests[0]);
      AlignedAfterFirst(requests, pieces, j);
      assert forall i :: 0 <= i < |requests[1..]| ==> Whole(conf, requests[1..][i]);
      AlignedAnswered(conf, done, requests[1..], b);
      EachUnfolds(conf, answers, requests);
    }
  }

  lemma NoneRequested(conf: Config, answers: seq<Answered>, pieces: seq<string>)
    requires NonEmptyPaths(conf.routes) && Join(pieces) == Join([])
    ensures OnAll(Between(answers), pieces, conf) == Between(answers + Each(conf, []))
  {
    hide OnAll, Between;
    NothingMore(conf, answers, pieces);
    assert answers + Each(conf, []) == answers;
  }

  lemma RestJoins(requests: seq<string>, pieces: seq<string>, j: nat)
    requires requests != [] && Join(pieces) == Join(requests)
    requires j <= |pieces| && Join(pieces[..j]) == requests[0]
    ensures Join(pieces[j..]) == Join(requests[1..])
  {
    assert pieces[..j] + pieces[j..] == pieces;
    JoinAppend(pieces[..j], pieces[j..]);
    CancelFirst(requests[0], Join(pieces[j..]), Join(requests[1..]));
  }

  lemma FirstAnswered(conf: Config, answers: seq<Answered>, pieces: seq<string>, m: string)
    requires NonEmptyPaths(conf.routes) && Whole(conf, m) && Join(pieces) == m
    ensures OnAll(Between(answers), pieces, conf) == Between(answers + [Answered(m, Alone(conf, m))])
  {
    hide OnAll, Whole, Alone, CurrentInv;
    BetweenInv(conf, answers);
    WholeHasLine(conf, m);
    assert "" + Join(pieces) == m;
    RequestAnswered(conf, Between(answers), pieces, m);
  }

  lemma EachUnfolds(conf: Config, answers: seq<Answered>, requests: seq<string>)
    requires NonEmptyPaths(conf.routes) && requests != []
    ensures (answers + [Answered(requests[0], Alone(conf, requests[0]))]) + Each(conf, requests[1..])
         == answers + Each(conf, requests)
  {
    hide Alone;
  }

  lemma FirstEnds(requests: seq<string>, pieces: seq<string>) returns (j: nat)
    requires requests != [] && Aligned(requests, pieces)
    ensures j <= |pieces| && Join(pieces[..j]) == requests[0]
  {
    assert ReadEnds(pieces, Join(requests[..1]));
    assert requests[..1][1..] == [] && requests[0] + "" == requests[0];
    j :| 0 <= j <= |pieces| && Join(pieces[..j]) == requests[0];
  }

  lemma Singles(conf: Config, requests: seq<string>)
    requires NonEmptyPaths(conf.routes) && AllWhole(conf, requests)
    ensures OnAll(NEW_CONN, requests, conf) == Between(Each(conf, requests))
  {
    hide OnAll, Whole;
    forall i | 0 <= i <= |requests|
      ensures ReadEnds(requests, Join(requests[..i]))
    {
    }
    AlignedAnswered(conf, [], requests, requests);
    assert [] + Each(conf, requests) == Each(conf, requests);
  }

  /** Every answer is given at the end of a read. */
  lemma {:induction false} AnswersEndReads(conf: Config, c: Conn, pieces: seq<string>, k: nat) returns (j: nat)
    requires NonEmptyPaths(conf.routes) && GateInv(conf, c)
    requires |c.answers| < k <= |OnAll(c, pieces, conf).answers|
    ensures j <= |pieces| && Stretches(OnAll(c, pieces, conf).answers[..k]) == Consumed(c) + Join(pieces[..j])
    decreases |pieces|
  {
    hide GateInv, OnData, Consumed, Stretches;
    var n, e := OnData(c, pieces[0], conf), OnAll(c, pieces, conf);
    GateStep(conf, c, pieces[0]);
    OnDataOnlyReading(conf, c, pieces[0]);
    StoppedStays(conf, c, pieces);
    OnDataAnswers(conf, c, pieces[0]);
    AnswersStay(conf, n, pieces[1..]);
    if |n.answers| == k {
      j := 1;
      assert e.answers[..k] == n.answers;
      AnsweredConsumed(n);
      assert pieces[..1][1..] == [] && pieces[0] + "" == pieces[0];
    } else {
      var i := AnswersEndReads(conf, n, pieces[1..], k);
      j := i + 1;
      assert pieces[..j][1..] == pieces[1..][..i];
      Assoc(Consumed(c), pieces[0], Join(pieces[1..][..i]));
    }
  }

  lemma AnsweredConsumed(c: Conn)
    requires c.stream == ""
    ensures Consumed(c) == Stretches(c.answers)
  {
  }

  lemma OnDataAnswers(conf: Config, c: Conn, data: string)
    requires NonEmptyPaths(conf.routes)
    ensures var n := OnData(c, data, conf);
            n.answers == c.answers || (|n.answers| == |c.answers| + 1 && n.answers[..|c.answers|] == c.answers && n.stream == "")
  {
    hide Run, PeekLimit, ForCgi;
  }

  lemma {:induction false} AnswersStay(conf: Config, c: Conn, pieces: seq<string>)
    requires NonEmptyPaths(conf.routes)
    ensures c.answers <= OnAll(c, pieces, conf).answers
    decreases |pieces|
  {
    hide OnData;
    if pieces != [] {
      OnDataAnswers(conf, c, pieces[0]);
      AnswersStay(conf, OnData(c, pieces[0], conf), pieces[1..]);
    }
  }

  lemma {:induction false} StoppedStays(conf: Config, c: Conn, pieces: seq<string>)
    requires NonEmptyPaths(conf.routes)
    ensures !c.mode.Reading? ==> OnAll(c, pieces, conf) == c
    decreases |pieces|
  {
    hide OnData;
    if pieces != [] {
      OnDataOnlyReading(conf, c, pieces[0]);
      StoppedStays(conf, c, pieces[1..]);
    }
  }

  lemma {:induction false} StretchesOfEach(conf: Config, requests: seq<string>, i: nat)
    requires NonEmptyPaths(conf.routes) && i <= |requests|
    ensures Stretches(Each(conf, requests)[..i]) == Join(requests[..i])
    decreases i
  {
    hide Alone;
    if i > 0 {
      StretchesOfEach(conf, requests, i - 1);
      var e := Each(conf, requests);
      assert e[..i][..i - 1] == e[..i - 1];
      assert requests[..i] == requests[..i - 1] + [requests[i - 1]];
      JoinAppend(requests[..i - 1], [requests[i - 1]]);
      assert [requests[i - 1]][1..] == [];
    }
  }

  /**
   * A stream of whole requests, cut into reads in any way: each is answered, from its own bytes, if
   * and only if each ends where a read ends.
   */
  lemma AllAnsweredExactly(conf: Config, requests: seq<string>, pieces: seq<string>)
    requires NonEmptyPaths(conf.routes) && AllWhole(conf, requests) && Join(pieces) == Join(requests)
    ensures OnAll(NEW_CONN, pieces, conf).answers == Each(conf, requests) <==> Aligned(requests, pieces)
  {
    hide OnAll, Whole, Each;
    var e := OnAll(NEW_CONN, pieces, conf);
    if Aligned(requests, pieces) {
      AlignedAnswered(conf, [], requests, pieces);
      assert [] + Each(conf, requests) == Each(conf, requests);
    }
    if e.answers == Each(conf, requests) {
      NewConnection(conf);
      forall i | 0 <= i <= |requests|
        ensures ReadEnds(pieces, Join(requests[..i]))
      {
        StretchesOfEach(conf, requests, i);
        if i == 0 {
          assert Join(pieces[..0]) == "" == Join(requests[..0]);
        } else {
          var j := AnswersEndReads(conf, NEW_CONN, pieces, i);
          assert "" + Join(pieces[..j]) == Join(pieces[..j]);
        }
      }
    }
  }

  // --------------------------------------------------- printed requests

  lemma PrintedFirstLine(h: Head, more: string)
    requires ValidHead(h)
    ensures CutLine(PrintHead(h) + more) == Line(RequestLineOf(h), PrintFields(h.fields) + more)
  {
    RequestLineIsLine(h);
    assert PrintHead(h) + more == RequestLineOf(h) + CRLF + (PrintFields(h.fields) + more);
    CutLineOf(RequestLineOf(h), PrintFields(h.fields) + more);
  }

  lemma RequestLineSpaces(h: Head)
    requires ValidHead(h)
    ensures var line := RequestLineOf(h);
            var a := FindChar(line, ' ', 0);
            var b := FindChar(line, ' ', a + 1);
            0 <= a < b <= |line| && line[a + 1..b] == h.target
  {
    SpacesOf(h.verb, h.target, h.protocol);
  }

  /** A printed request is read under the limit of its target. */
  lemma PrintedLimit(conf: Config, h: Head, more: string)
    requires NonEmptyPaths(conf.routes) && ValidHead(h)
    ensures PeekLimit(conf, PrintHead(h) + more) == LimitFor(conf, StripQuery(h.target))
  {
    hide LimitFor, StripQuery, PrintHead, PeekLimit, CutLine, FindChar, RequestLineOf;
    PrintedFirstLine(h, more);
    RequestLineSpaces(h);
    PeekIsRight(conf, PrintHead(h) + more);
  }

  lemma OnePiece(s: string)
    ensures Join([s]) == s && s + "" == s
  {
    assert [s][1..] == [];
  }

  /** Printed requests are whole ones: without a body, */
  lemma BodylessIsWhole(conf: Config, h: Head)
    requires NonEmptyPaths(conf.routes) && ValidHead(h) && !HasBody(FieldMap(h.fields, map[]))
    requires !ForCgi(conf, h.verb, StripQuery(h.target))
    ensures Whole(conf, PrintHead(h))
    ensures Alone(conf, PrintHead(h)) == HeadRead(h, LimitFor(conf, StripQuery(h.target)), "")
  {
    hide Run, ParseAll, PrintHead, FieldMap, LimitFor, StripQuery, PeekLimit, ForCgi, ValidHead, HasBody;
    var limit := LimitFor(conf, StripQuery(h.target));
    OnePiece(PrintHead(h));
    PrintedLimit(conf, h, "");
    FragmentationInvariance(Fresh(limit), [PrintHead(h)]);
    BodylessRoundTrip(h, "", limit, [PrintHead(h)]);
  }

  /** with a Content-Length body within the limit, */
  lemma FixedIsWhole(conf: Config, h: Head, body: string)
    requires NonEmptyPaths(conf.routes) && ValidHead(h) && |body| <= LONG_MAX && AnnouncesLength(h, |body|)
    requires !ForCgi(conf, h.verb, StripQuery(h.target))
    requires var limit := LimitFor(conf, StripQuery(h.target)); limit == 0 || |body| <= limit
    ensures Whole(conf, PrintHead(h) + body)
    ensures Alone(conf, PrintHead(h) + body)
         == HeadRead(h, LimitFor(conf, StripQuery(h.target)), "").(body := body, state := Complete)
  {
    hide Run, ParseAll, PrintHead, FieldMap, LimitFor, StripQuery, PeekLimit, ForCgi, ValidHead, AnnouncesLength;
    var limit, s := LimitFor(conf, StripQuery(h.target)), PrintHead(h) + body;
    OnePiece(s);
    OnePiece(body);
    PrintedLimit(conf, h, body);
    FragmentationInvariance(Fresh(limit), [s]);
    ContentLengthRoundTrip(h, body, "", limit, [s]);
  }

  /** and with a chunked body within it. */
  lemma ChunkedIsWhole(conf: Config, h: Head, k: Coding)
    requires NonEmptyPaths(conf.routes) && ValidHead(h) && ValidCoding(k) && ChunkedCoding(FieldMap(h.fields, map[]))
    requires !ForCgi(conf, h.verb, StripQuery(h.target))
    requires var limit := LimitFor(conf, StripQuery(h.target)); limit == 0 || |Concat(k.chunks)| <= limit
    ensures Whole(conf, PrintHead(h) + PrintCoding(k))
    ensures Alone(conf, PrintHead(h) + PrintCoding(k))
         == HeadRead(h, LimitFor(conf, StripQuery(h.target)), "").(body := Concat(k.chunks), chunk := Trailers, state := Complete)
  {
    hide Run, ParseAll, PrintHead, PrintCoding, Concat, FieldMap, LimitFor, StripQuery, PeekLimit, ForCgi, ValidHead;
    var limit, s := LimitFor(conf, StripQuery(h.target)), PrintHead(h) + PrintCoding(k);
    OnePiece(s);
    OnePiece(PrintCoding(k));
    PrintedLimit(conf, h, PrintCoding(k));
    FragmentationInvariance(Fresh(limit), [s]);
    ChunkedRoundTrip(h, k, "", limit, [s]);
  }
}
