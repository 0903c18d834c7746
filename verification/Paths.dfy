/** Path normalisation: a request path can never climb above the root. */
module Paths {

  type Stack = seq<string>

  /** process_path_segment. */
  function Push(stack: Stack, segment: string): Stack {
    if segment == ".." then (if stack == [] then [] else stack[..|stack| - 1])
    else if segment == "." then stack
    else stack + [segment]
  }

  function PushUnlessEmpty(stack: Stack, segment: string): Stack {
    if segment == "" then stack else Push(stack, segment)
  }

  /** The segments in force after walking `path` from `stack`, with `open` already read of a segment. */
  function Walk(stack: Stack, open: string, path: string): Stack
    decreases |path|
  {
    if path == "" then PushUnlessEmpty(stack, open)
    else if path[0] == '/' then Walk(PushUnlessEmpty(stack, open), "", path[1..])
    else Walk(stack, open + [path[0]], path[1..])
  }

  function Normal(path: string): Stack {
    Walk([], "", path)
  }

  function JoinSegments(segments: Stack): string {
    if segments == [] then ""
    else if |segments| == 1 then segments[0]
    else JoinSegments(segments[..|segments| - 1]) + "/" + segments[|segments| - 1]
  }

  function Sanitize(path: string): string {
    "/" + JoinSegments(Normal(path))
  }

  method ProcessPathSegment(segments: Stack, segment: string) returns (r: Stack)
    ensures r == Push(segments, segment)
  {
    r := segments;
    if segment == ".." {
      if |r| > 0 {
        r := r[..|r| - 1];
      }
    } else if segment != "." {
      r := r + [segment];
    }
  }

  /** sanitize_path. */
  method SanitizePath(path: string) returns (result: string)
    ensures result == Sanitize(path)
  {
    var segments: Stack, segment := [], "";
    for i := 0 to |path|
      invariant Walk(segments, segment, path[i..]) == Normal(path)
    {
      assert path[i..][0] == path[i] && path[i..][1..] == path[i + 1..];
      if path[i] == '/' {
        if segment != "" {
          segments := ProcessPathSegment(segments, segment);
          segment := "";
        }
      } else {
        segment := segment + [path[i]];
      }
    }
    assert path[|path|..] == "";
    if segment != "" {
      segments := ProcessPathSegment(segments, segment);
    }
    result := "/";
    for i := 0 to |segments|
      invariant result == "/" + JoinSegments(segments[..i]) + (if 0 < i < |segments| then "/" else "")
    {
      assert segments[..i + 1][..i] == segments[..i];
      result := result + segments[i];
      if i + 1 < |segments| {
        result := result + "/";
      }
    }
    assert segments[..|segments|] == segments;
  }

  predicate CleanSegment(s: string) {
    s != "" && s != "." && s != ".." && forall i :: 0 <= i < |s| ==> s[i] != '/'
  }

  predicate Clean(stack: Stack) {
    forall i :: 0 <= i < |stack| ==> CleanSegment(stack[i])
  }

  /** Normalising leaves no empty, "." or ".." segment, and no slash inside one. */
  lemma {:induction false} WalkIsClean(stack: Stack, open: string, path: string)
    requires Clean(stack) && forall i :: 0 <= i < |open| ==> open[i] != '/'
    ensures Clean(Walk(stack, open, path))
    decreases |path|
  {
    if path != "" {
      if path[0] == '/' {
        WalkIsClean(PushUnlessEmpty(stack, open), "", path[1..]);
      } else {
        WalkIsClean(stack, open + [path[0]], path[1..]);
      }
    }
  }

  lemma {:induction false} WalkSlash(stack: Stack, open: string, p: string, q: string)
    ensures Walk(stack, open, p + "/" + q) == Walk(Walk(stack, open, p), "", q)
    decreases |p|
  {
    var whole := p + "/" + q;
    if p == "" {
      assert whole[0] == '/' && whole[1..] == q;
    } else {
      assert whole[0] == p[0] && whole[1..] == p[1..] + "/" + q;
      if p[0] == '/' {
        WalkSlash(PushUnlessEmpty(stack, open), "", p[1..], q);
      } else {
        WalkSlash(stack, open + [p[0]], p[1..], q);
      }
    }
  }

  lemma {:induction false} WalkSegment(stack: Stack, open: string, s: string)
    requires forall i :: 0 <= i < |s| ==> s[i] != '/'
    ensures Walk(stack, open, s) == PushUnlessEmpty(stack, open + s)
    decreases |s|
  {
    if s == "" {
      assert open + s == open;
    } else {
      WalkSegment(stack, open + [s[0]], s[1..]);
      assert open + [s[0]] + s[1..] == open + s;
    }
  }

  /** Normalising `p/q` continues the walk for `q` from where `p` led. */
  lemma Compositional(p: string, q: string)
    ensures Normal(p + "/" + q) == Walk(Normal(p), "", q)
  {
    WalkSlash([], "", p, q);
  }

  /** A clean stack is what its own rendering leads to. */
  lemma {:induction false} RenderedStack(segments: Stack)
    requires Clean(segments)
    ensures Normal(JoinSegments(segments)) == segments
    decreases |segments|
  {
    var n := |segments| - 1;
    if |segments| == 1 {
      WalkSegment([], "", segments[0]);
      assert "" + segments[0] == segments[0];
    } else if |segments| > 1 {
      RenderedStack(segments[..n]);
      Compositional(JoinSegments(segments[..n]), segments[n]);
      WalkSegment(segments[..n], "", segments[n]);
      assert "" + segments[n] == segments[n];
      assert segments[..n] + [segments[n]] == segments;
    }
  }

  /** The normalised path is rooted, has only clean segments, and is its own normal form. */
  lemma SanitizeIsCanonical(path: string)
    ensures var r := Sanitize(path);
            r[0] == '/' && Clean(Normal(r)) && Normal(r) == Normal(path) && Sanitize(r) == r
  {
    var segments := Normal(path);
    WalkIsClean([], "", path);
    RenderedStack(segments);
    assert ("/" + JoinSegments(segments))[1..] == JoinSegments(segments);
  }

  /** Stepping into a directory and out again, or staying put, leads nowhere new. */
  lemma DotDotUndoes(path: string, s: string)
    requires CleanSegment(s)
    ensures Sanitize(path + "/" + s + "/" + "..") == Sanitize(path)
    ensures Sanitize(path + "/" + ".") == Sanitize(path)
  {
    Compositional(path + "/" + s, "..");
    Compositional(path, s);
    Compositional(path, ".");
    WalkSegment(Normal(path), "", s);
    WalkSegment(Normal(path) + [s], "", "..");
    WalkSegment(Normal(path), "", ".");
    assert "" + s == s && "" + ".." == ".." && "" + "." == ".";
    assert (Normal(path) + [s])[..|Normal(path)|] == Normal(path);
  }

  // ------------------------------------------------ segment by segment

  predicate NoSlash(s: string) {
    forall i :: 0 <= i < |s| ==> s[i] != '/'
  }

  /** The directory a normal path is in; the root is in itself. */
  ghost predicate IsParent(parent: string, path: string) {
    if path == "/" then parent == "/"
    else exists name :: name != "" && NoSlash(name) && IsChild(path, parent, name)
  }

  predicate IsChild(path: string, parent: string, name: string) {
    path == (if parent == "/" then "" else parent) + "/" + name
  }

  lemma LastJoined(stack: Stack, s: string)
    ensures JoinSegments(stack + [s]) == if stack == [] then s else JoinSegments(stack) + "/" + s
  {
    var n := stack + [s];
    assert n[..|n| - 1] == stack;
  }

  lemma RootIsEmpty(stack: Stack)
    requires Clean(stack)
    ensures "/" + JoinSegments(stack) == "/" <==> stack == []
  {
    if stack != [] {
      var n := |stack| - 1;
      LastJoined(stack[..n], stack[n]);
      assert stack[..n] + [stack[n]] == stack;
    }
  }

  lemma ChildRendered(stack: Stack, s: string)
    requires Clean(stack) && s != ""
    ensures IsChild("/" + JoinSegments(stack + [s]), "/" + JoinSegments(stack), s)
  {
    LastJoined(stack, s);
    RootIsEmpty(stack);
  }

  lemma ParentRendered(stack: Stack)
    requires Clean(stack)
    ensures IsParent("/" + JoinSegments(Push(stack, "..")), "/" + JoinSegments(stack))
  {
    RootIsEmpty(stack);
    if stack != [] {
      var n := |stack| - 1;
      ChildRendered(stack[..n], stack[n]);
      assert stack[..n] + [stack[n]] == stack;
      assert CleanSegment(stack[n]);
    }
  }

  /** The empty path is the root, and a leading slash changes nothing. */
  lemma Rooted(path: string)
    ensures Sanitize("") == "/" && Sanitize("/" + path) == Sanitize(path)
  {
    assert ("/" + path)[1..] == path;
  }

  /**
   * One segment more, whatever came before: an empty one and "." change nothing, ".." leads to the
   * parent and never above the root, and any other is appended.
   */
  lemma BySegments(path: string, s: string)
    requires NoSlash(s)
    ensures var before, after := Sanitize(path), Sanitize(path + "/" + s);
            if s == "" || s == "." then after == before
            else if s == ".." then IsParent(after, before)
            else IsChild(after, before, s)
  {
    Compositional(path, s);
    WalkSegment(Normal(path), "", s);
    WalkIsClean([], "", path);
    assert "" + s == s;
    if s == ".." {
      ParentRendered(Normal(path));
    } else if s != "" && s != "." {
      ChildRendered(Normal(path), s);
    }
  }

  /** So doubled and trailing slashes mean nothing, and there is no way above the root. */
  lemma SlashesCollapse(p: string, q: string)
    ensures Sanitize(p + "/") == Sanitize(p)
    ensures Sanitize(p + "//" + q) == Sanitize(p + "/" + q)
    ensures Sanitize("/..") == "/" && Sanitize("/../" + q) == Sanitize(q)
  {
    BySegments(p, "");
    assert p + "/" + "" == p + "/";
    Compositional(p + "/", q);
    Compositional(p, q);
    Compositional(p, "");
    assert (p + "/") + "/" + q == p + "//" + q;
    Rooted("");
    BySegments("", "..");
    assert "" + "/" + ".." == "/..";
    Compositional("/..", q);
    assert "/.." + "/" + q == "/../" + q;
    Compositional("", "..");
    WalkSegment([], "", "..");
    assert "" + ".." == "..";
  }
}
