/** Longest-prefix routing and the trailing-slash redirect. */
module Routing {

  /** The fields of a RouteConfig that take part here. */
  datatype Route = Route(path: string, hasLimit: bool, limit: nat, cgiExtension: string, methods: seq<string>,
                         redirectCode: int)

  /** The route's path is a prefix of the URI that ends at a segment boundary. */
  predicate Matches(uri: string, path: string)
    requires path != ""
  {
    path <= uri
    && (|uri| == |path| || uri[|path|] == '/' || path == "/" || path[|path| - 1] == '/')
  }

  /** The URI is the path, lies under it, or begins with it where it ends in a slash. */
  lemma MatchesExactly(uri: string, path: string)
    requires path != ""
    ensures Matches(uri, path) <==> uri == path || path + "/" <= uri || (path[|path| - 1] == '/' && path <= uri)
  {
    if path <= uri && |uri| > |path| {
      assert uri[..|path| + 1] == path + [uri[|path|]];
    }
  }

  predicate NonEmptyPaths(routes: seq<Route>) {
    forall i :: 0 <= i < |routes| ==> routes[i].path != ""
  }

  /** `b` is the first among the longest matching routes, or -1 when none matches. */
  predicate IsBest(uri: string, routes: seq<Route>, b: int)
    requires NonEmptyPaths(routes)
  {
    -1 <= b < |routes|
    && (b == -1 ==> forall j :: 0 <= j < |routes| ==> !Matches(uri, routes[j].path))
    && (b >= 0 ==>
          Matches(uri, routes[b].path)
          && forall j :: 0 <= j < |routes| && Matches(uri, routes[j].path) ==>
               |routes[j].path| <= |routes[b].path| && (|routes[j].path| == |routes[b].path| ==> b <= j))
  }

  /** Server::match_route: an index into the routes, or -1 for NULL. */
  method MatchRoute(uri: string, routes: seq<Route>) returns (best: int)
    requires NonEmptyPaths(routes)
    ensures IsBest(uri, routes, best)
    ensures best == Select(uri, routes)
  {
    best := -1;
    var bestLength := 0;
    for i := 0 to |routes|
      invariant IsBest(uri, routes[..i], best)
      invariant bestLength == if best < 0 then 0 else |routes[best].path|
    {
      var path := routes[i].path;
      if path <= uri {
        if |uri| == |path| || uri[|path|] == '/' || path == "/" || path[|path| - 1] == '/' {
          if |path| > bestLength {
            bestLength := |path|;
            best := i;
          }
        }
      }
    }
    assert routes[..|routes|] == routes;
    BestIsUnique(uri, routes, best, Select(uri, routes));
  }

  /** The same choice as a value. */
  function Select(uri: string, routes: seq<Route>): (b: int)
    requires NonEmptyPaths(routes)
    ensures IsBest(uri, routes, b)
  {
    if routes == [] then -1
    else
      var n := |routes| - 1;
      var b := Select(uri, routes[..n]);
      if Matches(uri, routes[n].path) && (b < 0 || |routes[n].path| > |routes[b].path|) then n else b
  }

  lemma BestIsUnique(uri: string, routes: seq<Route>, b: int, c: int)
    requires NonEmptyPaths(routes) && IsBest(uri, routes, b) && IsBest(uri, routes, c)
    ensures b == c
  {
  }

  predicate HasPath(routes: seq<Route>, path: string) {
    exists i :: 0 <= i < |routes| && routes[i].path == path
  }

  /** The selected path does not depend on the order, or the repetition, of the routes. */
  lemma OrderIndependent(uri: string, routes: seq<Route>, others: seq<Route>)
    requires NonEmptyPaths(routes) && NonEmptyPaths(others)
    requires forall p :: HasPath(routes, p) <==> HasPath(others, p)
    ensures var b, c := Select(uri, routes), Select(uri, others);
            (b < 0 <==> c < 0) && (b >= 0 ==> routes[b].path == others[c].path)
  {
    var b, c := Select(uri, routes), Select(uri, others);
    if b >= 0 {
      assert HasPath(routes, routes[b].path);
      var j :| 0 <= j < |others| && others[j].path == routes[b].path;
      assert c >= 0 && |others[j].path| <= |others[c].path|;
    }
    if c >= 0 {
      assert HasPath(others, others[c].path);
      var j :| 0 <= j < |routes| && routes[j].path == others[c].path;
      assert b >= 0 && |routes[j].path| <= |routes[b].path|;
    }
  }

  datatype Redirect = NoRedirect | RedirectTo(url: string)

  /** The directory redirect of handle_client_read. */
  function SlashRedirect(uri: string, routes: seq<Route>): Redirect
    requires NonEmptyPaths(routes)
  {
    if uri != "" && uri[|uri| - 1] != '/' then
      var slash, route := Select(uri + "/", routes), Select(uri, routes);
      if slash >= 0 && (route < 0 || |routes[slash].path| > |routes[route].path|) then RedirectTo(uri + "/")
      else NoRedirect
    else NoRedirect
  }

  /** The redirect is sent exactly when some route is the URI with a slash after it. */
  lemma RedirectExactly(uri: string, routes: seq<Route>)
    requires NonEmptyPaths(routes) && uri != "" && uri[|uri| - 1] != '/'
    ensures SlashRedirect(uri, routes) ==
            if exists i :: 0 <= i < |routes| && routes[i].path == uri + "/" then RedirectTo(uri + "/") else NoRedirect
  {
  }

  /** The empty URI and one that ends in a slash are never redirected. */
  lemma SlashIsEnough(uri: string, routes: seq<Route>)
    requires NonEmptyPaths(routes) && (uri == "" || uri[|uri| - 1] == '/')
    ensures SlashRedirect(uri, routes) == NoRedirect
  {
  }
}
