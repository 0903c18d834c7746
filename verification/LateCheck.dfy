/** The checks before a complete request is served, and the second test of its Content-Length. */
module LateCheck {
  import opened Numbers
  import opened RequestSpec
  import opened RoundTrip
  import opened Routing
  import opened HeaderGating
  import opened Pipelining
  import opened HeadDecides

  datatype Reply = SlashRedirected | NotFound | RouteRedirected | MethodNotAllowed | PayloadTooLarge | Served

  /** The Content-Length test of handle_request, on the route the request selects. */
  predicate OverLimit(r: Request, conf: Config)
    requires NonEmptyPaths(conf.routes)
  {
    var limit := LimitFor(conf, StripQuery(r.target));
    var cl := Header(r.headers, "content-length");
    cl != "" && limit > 0 && AtolSize(cl) > limit
  }

  /** What a complete request is answered with, in the order of the checks. */
  function ReplyTo(r: Request, conf: Config): Reply
    requires NonEmptyPaths(conf.routes)
  {
    var uri := StripQuery(r.target);
    var b := Select(uri, conf.routes);
    if SlashRedirect(uri, conf.routes).RedirectTo? then SlashRedirected
    else if b < 0 then NotFound
    else if conf.routes[b].redirectCode == 301 || conf.routes[b].redirectCode == 302 then RouteRedirected
    else if conf.routes[b].methods != [] && r.verb !in conf.routes[b].methods then MethodNotAllowed
    else if OverLimit(r, conf) then PayloadTooLarge
    else Served
  }

  /**
   * The answer in full, for a request that asks for `path`, with a query or without, and whose best
   * route is `b`: redirected to the directory if some route is the path with a slash; else 404
   * without a route, the route's own redirect, 405 for a method it does not allow, 413 for a
   * Content-Length above its limit or else the server's, and otherwise served.
   */
  lemma ReplyExactly(conf: Config, r: Request, path: string, b: int)
    requires NonEmptyPaths(conf.routes) && AsksFor(r.target, path) && IsBest(path, conf.routes, b)
    ensures ReplyTo(r, conf) ==
            if path != "" && path[|path| - 1] != '/' && (exists i :: 0 <= i < |conf.routes| && conf.routes[i].path == path + "/")
            then SlashRedirected
            else if b < 0 then NotFound
            else if conf.routes[b].redirectCode in {301, 302} then RouteRedirected
            else if conf.routes[b].methods != [] && r.verb !in conf.routes[b].methods then MethodNotAllowed
            else if "content-length" in r.headers && r.headers["content-length"] != ""
                    && 0 < LimitOf(conf, b) < AtolSize(r.headers["content-length"]) then PayloadTooLarge
            else Served
  {
    hide SlashRedirect, StripQuery, LimitFor, AtolSize, IsBest;
    QueryIsCut(r.target, path);
    BestDecides(conf, r.verb, path, b);
    SelectIs(conf, path, b);
    if path != "" && path[|path| - 1] != '/' {
      RedirectExactly(path, conf.routes);
    } else {
      SlashIsEnough(path, conf.routes);
    }
  }

  lemma SelectIs(conf: Config, path: string, b: int)
    requires NonEmptyPaths(conf.routes) && IsBest(path, conf.routes, b)
    ensures Select(path, conf.routes) == b && -1 <= b < |conf.routes|
  {
    BestIsUnique(path, conf.routes, b, Select(path, conf.routes));
  }

  /** A request that gets as far as the test: a route serves its URI and its method itself. */
  predicate Reaches(conf: Config, verb: string, uri: string)
    requires NonEmptyPaths(conf.routes)
  {
    && SlashRedirect(uri, conf.routes).NoRedirect?
    && exists b :: 0 <= b < |conf.routes| && IsBest(uri, conf.routes, b)
         && conf.routes[b].redirectCode != 301 && conf.routes[b].redirectCode != 302
         && (conf.routes[b].methods == [] || verb in conf.routes[b].methods)
  }

  lemma RefusedExactly(conf: Config, r: Request)
    requires NonEmptyPaths(conf.routes)
    ensures ReplyTo(r, conf).PayloadTooLarge? <==> Reaches(conf, r.verb, StripQuery(r.target)) && OverLimit(r, conf)
  {
    hide SlashRedirect, StripQuery, OverLimit;
    var uri := StripQuery(r.target);
    var b := Select(uri, conf.routes);
    forall c | 0 <= c < |conf.routes| && IsBest(uri, conf.routes, c)
      ensures c == b
    {
      BestIsUnique(uri, conf.routes, b, c);
    }
  }

  /**
   * The late 413 is dead code for requests that are not chunked: the parser has already applied
   * the same limit. It can only meet a chunked request that also carries a Content-Length.
   */
  lemma LateCheckNeedsChunked(conf: Config, pieces: seq<string>)
    requires NonEmptyPaths(conf.routes)
    ensures var answers := OnAll(NEW_CONN, pieces, conf).answers;
            forall i :: 0 <= i < |answers| && answers[i].request.state.Complete? && ReplyTo(answers[i].request, conf).PayloadTooLarge?
              ==> answers[i].request.chunked
  {
    hide OnAll, ReadFrom, LimitFor, ReplyTo, ToCgi;
    var answers := OnAll(NEW_CONN, pieces, conf).answers;
    GatedConnection(conf, pieces);
    forall i | 0 <= i < |answers| && answers[i].request.state.Complete? && ReplyTo(answers[i].request, conf).PayloadTooLarge?
      ensures answers[i].request.chunked
    {
      assert AnswerInv(conf, answers[i], i == |answers| - 1);
      RefusedExactly(conf, answers[i].request);
      LimitIsOwn(conf, answers[i].request, answers[i].stream);
    }
  }

  /**
   * And there it is alive. However it is cut, a chunked request within the limit of its route is
   * read in full and answered, and the answer is 413 exactly if a route serves it and it carries a
   * Content-Length above that limit.
   */
  lemma LateCheckFiresOnChunked(conf: Config, h: Head, k: Coding, pieces: seq<string>)
    requires NonEmptyPaths(conf.routes) && ValidHead(h) && ValidCoding(k) && ChunkedCoding(FieldMap(h.fields, map[]))
    requires !ForCgi(conf, h.verb, StripQuery(h.target))
    requires var limit := LimitFor(conf, StripQuery(h.target)); limit == 0 || |Concat(k.chunks)| <= limit
    requires Join(pieces) == PrintHead(h) + PrintCoding(k)
    ensures var c := OnAll(NEW_CONN, pieces, conf);
            var cl := Header(FieldMap(h.fields, map[]), "content-length");
            var limit := LimitFor(conf, StripQuery(h.target));
            && |c.answers| == 1 && c.answers[0].stream == Join(pieces)
            && c.answers[0].request.state.Complete? && c.answers[0].request.body == Concat(k.chunks)
            && (ReplyTo(c.answers[0].request, conf).PayloadTooLarge? <==>
                  Reaches(conf, h.verb, StripQuery(h.target)) && cl != "" && limit > 0 && AtolSize(cl) > limit)
  {
    hide OnAll, LimitFor, StripQuery, ForCgi, PrintHead, PrintCoding, FieldMap, Concat, Run, Whole, Alone, ReplyTo, Reaches, ValidHead;
    ChunkedIsWhole(conf, h, k);
    BetweenInv(conf, []);
    WholeHasLine(conf, Join(pieces));
    assert "" + Join(pieces) == Join(pieces);
    RequestAnswered(conf, NEW_CONN, pieces, Join(pieces));
    RefusedExactly(conf, Alone(conf, Join(pieces)));
  }
}
