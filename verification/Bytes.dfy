/** The std::string operations the server relies on, with the laws that make incremental scanning sound. */
module Bytes {

  const CRLF: string := "\r\n"
  const CRLFCRLF: string := "\r\n\r\n"

  /** Pattern `p` occurs in `s` at offset `i`. */
  predicate At(s: string, p: string, i: int) {
    0 <= i && i + |p| <= |s| && s[i..i + |p|] == p
  }

  /** std::string::find(p, from): the first occurrence at or after `from`, or -1. */
  function FindFrom(s: string, p: string, from: nat): (i: int)
    ensures i == -1 || (from <= i && At(s, p, i))
    ensures forall j :: from <= j && (i == -1 || j < i) ==> !At(s, p, j)
    decreases |s| - from
  {
    if from + |p| > |s| then -1
    else if s[from..from + |p|] == p then from
    else FindFrom(s, p, from + 1)
  }

  function Find(s: string, p: string): int {
    FindFrom(s, p, 0)
  }

  lemma FindFits(s: string, p: string)
    ensures Find(s, p) == -1 || 0 <= Find(s, p) <= |s| - |p|
  {
  }

  predicate Contains(s: string, p: string) {
    Find(s, p) >= 0
  }

  /** std::string::find(c, from). */
  function FindChar(s: string, c: char, from: nat): (i: int)
    ensures i == -1 || (from <= i < |s| && s[i] == c)
    ensures forall j :: from <= j < (if i == -1 then |s| else i) ==> s[j] != c
    decreases |s| - from
  {
    if from >= |s| then -1 else if s[from] == c then from else FindChar(s, c, from + 1)
  }

  /** An occurrence with none before it is the one `Find` reports. */
  lemma FindIs(s: string, p: string, i: nat)
    requires At(s, p, i)
    requires forall j :: 0 <= j < i ==> !At(s, p, j)
    ensures Find(s, p) == i
  {
  }

  lemma FindAbsent(s: string, p: string)
    requires forall j :: 0 <= j ==> !At(s, p, j)
    ensures Find(s, p) == -1
  {
  }

  lemma AtExtends(s: string, t: string, p: string, j: int)
    requires j + |p| <= |s|
    ensures At(s + t, p, j) <==> At(s, p, j)
  {
    if 0 <= j {
      assert (s + t)[j..j + |p|] == s[j..j + |p|];
    }
  }

  /** A match already found is not disturbed by bytes that arrive later. */
  lemma FindExtends(s: string, t: string, p: string)
    requires Contains(s, p)
    ensures Find(s + t, p) == Find(s, p)
  {
    var i := Find(s, p);
    AtExtends(s, t, p, i);
    forall j | 0 <= j < i
      ensures !At(s + t, p, j)
    {
      AtExtends(s, t, p, j);
    }
    FindIs(s + t, p, i);
  }

  lemma FindCharExtends(s: string, t: string, c: char, from: nat)
    requires FindChar(s, c, from) >= 0
    ensures FindChar(s + t, c, from) == FindChar(s, c, from)
  {
    var i, k := FindChar(s, c, from), FindChar(s + t, c, from);
    assert forall j :: from <= j <= i ==> (s + t)[j] == s[j];
  }

  predicate HasChar(s: string, c: char) {
    exists i :: 0 <= i < |s| && s[i] == c
  }

  lemma FirstChar(a: string, c: char, b: string)
    requires !HasChar(a, c)
    ensures FindChar(a + [c] + b, c, 0) == |a|
  {
    var s := a + [c] + b;
    assert s[|a|] == c;
    assert forall i :: 0 <= i < |a| ==> s[i] == a[i];
  }

  lemma Assoc(a: string, b: string, c: string)
    ensures (a + b) + c == a + (b + c)
  {
  }

  /** Cutting a concatenation inside its second part. */
  lemma CutSecond(a: string, b: string, k: nat)
    requires k <= |b|
    ensures (a + b)[..|a| + k] == a + b[..k]
    ensures (a + b)[|a| + k..] == b[k..]
  {
  }

  /** Cutting a concatenation inside its first part. */
  lemma CutFirst(a: string, b: string, k: nat)
    requires k <= |a|
    ensures (a + b)[..k] == a[..k]
    ensures (a + b)[k..] == a[k..] + b
  {
  }

  // ---------------------------------------------------------------- lines

  /** The outcome of looking for a CRLF-terminated line at the front of a buffer. */
  datatype Cut = NoLine | Line(line: string, rest: string)

  function CutLine(s: string): (c: Cut)
    ensures c.Line? ==> s == c.line + CRLF + c.rest && !Contains(c.line, CRLF)
    ensures c.Line? ==> |c.rest| + 2 <= |s|
    ensures c.NoLine? <==> !Contains(s, CRLF)
  {
    var i := Find(s, CRLF);
    if i < 0 then NoLine
    else
      assert s == s[..i] + s[i..i + 2] + s[i + 2..];
      assert !Contains(s[..i], CRLF) by { PrefixHasNoMatch(s, i); }
      Line(s[..i], s[i + 2..])
  }

  lemma PrefixHasNoMatch(s: string, i: nat)
    requires Find(s, CRLF) == i
    ensures !Contains(s[..i], CRLF)
  {
    forall j | 0 <= j
      ensures !At(s[..i], CRLF, j)
    {
      if j + 2 <= i {
        assert s == s[..i] + s[i..];
        AtExtends(s[..i], s[i..], CRLF, j);
      }
    }
  }

  /** A line free of CRLF is recovered exactly, whatever follows it. */
  lemma CutLineOf(line: string, rest: string)
    requires !Contains(line, CRLF)
    ensures CutLine(line + CRLF + rest) == Line(line, rest)
  {
    var s := line + CRLF + rest;
    var i := |line|;
    assert s[i..i + 2] == CRLF;
    forall j | 0 <= j < i
      ensures !At(s, CRLF, j)
    {
      if j + 2 <= i {
        assert s == line + (CRLF + rest);
        AtExtends(line, CRLF + rest, CRLF, j);
      } else {
        assert s[j..j + 2][1] == s[j + 1] == '\r' != CRLF[1];
      }
    }
    FindIs(s, CRLF, i);
    assert s[..i] == line && s[i + 2..] == rest;
  }

  lemma CutLineExtends(s: string, t: string)
    requires CutLine(s).Line?
    ensures CutLine(s + t) == Line(CutLine(s).line, CutLine(s).rest + t)
  {
    var c := CutLine(s);
    assert s + t == c.line + CRLF + (c.rest + t);
    CutLineOf(c.line, c.rest + t);
  }

  // ------------------------------------------------------ case and blanks

  function LowerChar(c: char): char {
    if 'A' <= c <= 'Z' then ((c as int) + 32) as char else c
  }

  function Lower(s: string): (r: string)
    ensures |r| == |s|
    ensures forall i :: 0 <= i < |s| ==> r[i] == LowerChar(s[i])
  {
    seq(|s|, i requires 0 <= i < |s| => LowerChar(s[i]))
  }

  predicate IsLower(s: string) {
    forall i :: 0 <= i < |s| ==> !('A' <= s[i] <= 'Z')
  }

  /** The letters of `name`, each as it is or as a capital. */
  predicate SpelledAs(s: string, name: string) {
    |s| == |name|
    && forall i :: 0 <= i < |s| ==> s[i] == name[i] || ('a' <= name[i] <= 'z' && s[i] as int == name[i] as int - 32)
  }

  /** Any spelling has the lower-case one for its lower case, and no other name has. */
  lemma LowerIsSpelling(s: string, name: string)
    requires IsLower(name)
    ensures Lower(s) == name <==> SpelledAs(s, name)
  {
    if Lower(s) == name {
      forall i | 0 <= i < |s|
        ensures s[i] == name[i] || ('a' <= name[i] <= 'z' && s[i] as int == name[i] as int - 32)
      {
        assert name[i] == LowerChar(s[i]);
      }
    }
    if SpelledAs(s, name) {
      assert forall i :: 0 <= i < |s| ==> Lower(s)[i] == LowerChar(s[i]) == name[i];
    }
  }

  predicate Blank(c: char) {
    c == ' ' || c == '\t'
  }

  /** find_first_not_of(" \t"). */
  function FirstNotBlank(s: string, from: nat): (i: int)
    ensures i == -1 || (from <= i < |s| && !Blank(s[i]))
    ensures forall j :: from <= j < (if i == -1 then |s| else i) ==> Blank(s[j])
    decreases |s| - from
  {
    if from >= |s| then -1 else if !Blank(s[from]) then from else FirstNotBlank(s, from + 1)
  }

  /** find_last_not_of(" \t"), looking below `upto`. */
  function LastNotBlank(s: string, upto: nat): (i: int)
    requires upto <= |s|
    ensures i == -1 || (0 <= i < upto && !Blank(s[i]))
    ensures forall j :: i < j < upto ==> Blank(s[j])
  {
    if upto == 0 then -1 else if !Blank(s[upto - 1]) then upto - 1 else LastNotBlank(s, upto - 1)
  }

  function Trim(s: string): (r: string)
    ensures r == "" || (!Blank(r[0]) && !Blank(r[|r| - 1]))
    ensures |r| <= |s|
  {
    var a, b := FirstNotBlank(s, 0), LastNotBlank(s, |s|);
    if a < 0 then ""
    else
      assert !Blank(s[a]);
      s[a..b + 1]
  }

  /** Nothing to trim at either end. */
  predicate Trimmed(s: string) {
    s == "" || (!Blank(s[0]) && !Blank(s[|s| - 1]))
  }

  lemma TrimIdentity(s: string)
    ensures Trim(s) == s <==> Trimmed(s)
  {
    if Trimmed(s) && s != "" {
      assert FirstNotBlank(s, 0) == 0;
      assert LastNotBlank(s, |s|) == |s| - 1;
    }
  }

  /** Blanks and tabs only. */
  predicate Padding(s: string) {
    forall i :: 0 <= i < |s| ==> s[i] == ' ' || s[i] == '\t'
  }

  /** Padding on either side is what is trimmed. */
  lemma TrimPadded(before: string, s: string, after: string)
    requires Padding(before) && Padding(after) && Trimmed(s)
    ensures Trim(before + s + after) == s
  {
    var p := before + s + after;
    assert forall j :: 0 <= j < |before| ==> p[j] == before[j];
    assert forall j :: |before| + |s| <= j < |p| ==> p[j] == after[j - |before| - |s|];
    if s == "" {
      assert forall j :: 0 <= j < |p| ==> Blank(p[j]);
      assert FirstNotBlank(p, 0) == -1;
    } else {
      assert p[|before|] == s[0] && p[|before| + |s| - 1] == s[|s| - 1];
      assert FirstNotBlank(p, 0) == |before|;
      assert LastNotBlank(p, |p|) == |before| + |s| - 1;
      assert p[|before|..|before| + |s|] == s;
    }
  }
}
