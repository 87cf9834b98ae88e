/** validateOwnedPath: which directories may be baked into a fixture image. */
module OwnedPaths {
  import opened Text
  import opened Names
  import opened Paths

  const BINARY := "/fixture"
  const WHITEOUT := ".wh."

  predicate PathChar(c: char) { LetterOrDigit(c) || c in "/._@+-" }

  datatype PathError =
    | EmptyPath
    | NotAbsolute
    | RootDirectory
    | BadCharacter(c: char)
    | NotClean(want: string)
    | CollidesWithBinary
    | WhiteoutSegment

  /** The first byte outside the alphabet. */
  function FirstBadChar(p: string): (r: Option<char>)
    ensures r.None? <==> forall k :: 0 <= k < |p| ==> PathChar(p[k])
    ensures r.Some? ==> r.value in p && !PathChar(r.value)
  {
    if p == "" then None
    else if !PathChar(p[0]) then Some(p[0])
    else FirstBadChar(p[1..])
  }

  /** validateOwnedPath: None is acceptance. */
  function PathProblem(p: string): Option<PathError>
  {
    if p == "" then Some(EmptyPath)
    else if p[0] != '/' then Some(NotAbsolute)
    else if p == "/" then Some(RootDirectory)
    else if FirstBadChar(p).Some? then Some(BadCharacter(FirstBadChar(p).value))
    else if Clean(p) != p then Some(NotClean(Clean(p)))
    else if p == BINARY || HasPrefix(p, BINARY + "/") then Some(CollidesWithBinary)
    else if Contains(p, "/" + WHITEOUT) then Some(WhiteoutSegment)
    else None
  }

  predicate Acceptable(p: string) { PathProblem(p).None? }

  // The grammar

  predicate SegmentChar(c: char) { PathChar(c) && c != '/' }

  predicate GoodSegment(seg: string) {
    seg != "" && seg != "." && seg != ".." && !HasPrefix(seg, WHITEOUT)
    && forall k :: 0 <= k < |seg| ==> SegmentChar(seg[k])
  }

  /** One or more good segments, the first not the binary's name. */
  predicate GoodSegments(segs: seq<string>) {
    segs != [] && segs[0] != "fixture" && forall k :: 0 <= k < |segs| ==> GoodSegment(segs[k])
  }

  function PathOf(segs: seq<string>): string { "/" + Join(segs, '/') }

  function SegmentsOf(p: string): seq<string>
    requires p != ""
  {
    Split(p[1..], '/')
  }

  ghost predicate AllPathChars(s: string) { forall k :: 0 <= k < |s| ==> PathChar(s[k]) }

  lemma CharsAppend(a: string, b: string)
    ensures AllPathChars(a + b) <==> AllPathChars(a) && AllPathChars(b)
    ensures AllPathChars(['/'])
  {
    if AllPathChars(a + b) {
      forall k | 0 <= k < |a| ensures PathChar(a[k]) { assert (a + b)[k] == a[k]; }
      forall k | 0 <= k < |b| ensures PathChar(b[k]) { assert (a + b)[|a| + k] == b[k]; }
    }
  }

  lemma {:induction false} CharsOfJoin(segs: seq<string>)
    requires segs != []
    ensures AllPathChars(PathOf(segs)) <==> forall j :: 0 <= j < |segs| ==> AllPathChars(segs[j])
  {
    var p := PathOf(segs);
    if |segs| == 1 {
      assert p == ['/'] + segs[0];
      CharsAppend(['/'], segs[0]);
    } else {
      CharsOfJoin(segs[1..]);
      assert p == (['/'] + segs[0]) + PathOf(segs[1..]);
      CharsAppend(['/'] + segs[0], PathOf(segs[1..]));
      CharsAppend(['/'], segs[0]);
      assert forall j :: 1 <= j < |segs| ==> segs[j] == segs[1..][j - 1];
    }
  }

  /** The text up to the next slash decides a prefix that holds no slash. */
  lemma PrefixWithinSegment(pre: string, seg: string, rest: string)
    requires '/' !in pre && (rest == "" || rest[0] == '/')
    ensures pre <= seg + rest <==> pre <= seg
  {
    if |pre| > |seg| && rest != "" {
      assert (seg + rest)[|seg|] == '/';
      assert pre[|seg|] != '/';
    }
  }

  lemma WholeSegment(name: string, seg: string, rest: string)
    requires '/' !in name && '/' !in seg && (rest == "" || rest[0] == '/')
    ensures (seg + rest == name || name + ['/'] <= seg + rest) <==> seg == name
  {
    PrefixWithinSegment(name, seg, rest);
    if name < seg {
      assert (seg + rest)[|name|] == seg[|name|] != '/';
    }
    if seg == name && rest != "" {
      assert name + ['/'] <= seg + rest;
    }
  }

  ghost predicate OccursAt(s: string, sub: string, k: int) { 0 <= k <= |s| && sub <= s[k..] }

  lemma ContainsOccurs(s: string, sub: string)
    ensures Contains(s, sub) <==> exists k :: OccursAt(s, sub, k)
  {
    var i := Index(s, sub);
    assert i >= 0 ==> OccursAt(s, sub, i);
  }

  lemma OccursLater(s: string, sub: string, n: nat, k: int)
    requires n <= k && n <= |s|
    ensures OccursAt(s, sub, k) <==> OccursAt(s[n..], sub, k - n)
  {
    if k <= |s| { assert s[n..][k - n..] == s[k..]; }
  }

  /** If no position from 1 to n-1 can start sub, it is at 0 or from n on. */
  lemma ContainsPast(s: string, n: nat, sub: string)
    requires sub != "" && 0 < n <= |s| && forall k :: 0 < k < n ==> s[k] != sub[0]
    ensures Contains(s, sub) <==> sub <= s || Contains(s[n..], sub)
  {
    ContainsOccurs(s, sub);
    ContainsOccurs(s[n..], sub);
    if sub <= s { assert s[0..] == s && OccursAt(s, sub, 0); }
    if k :| OccursAt(s[n..], sub, k) {
      OccursLater(s, sub, n, n + k);
    }
    if k :| OccursAt(s, sub, k) {
      if k == 0 { assert s[0..] == s; }
      else if k >= n { OccursLater(s, sub, n, k); }
      else { assert s[k..][0] == s[k]; }
    }
  }

  predicate AnyStarts(segs: seq<string>, mark: string)
    ensures AnyStarts(segs, mark) <==> exists k :: 0 <= k < |segs| && HasPrefix(segs[k], mark)
  {
    segs != [] && (HasPrefix(segs[0], mark) || AnyStarts(segs[1..], mark))
  }

  /** strings.Contains(p, "/" + mark) finds exactly a segment that starts with mark. */
  lemma {:induction false} MarkFound(segs: seq<string>, mark: string)
    requires segs != [] && forall k :: 0 <= k < |segs| ==> '/' !in segs[k]
    requires mark != "" && '/' !in mark
    ensures Contains(PathOf(segs), ['/'] + mark) <==> AnyStarts(segs, mark)
  {
    var p, sub, seg := PathOf(segs), ['/'] + mark, segs[0];
    var rest := if |segs| == 1 then "" else PathOf(segs[1..]);
    assert p == ['/'] + (seg + rest);
    PrefixWithinSegment(mark, seg, rest);
    assert sub <= p <==> mark <= seg by {
      assert p[1..] == seg + rest && sub[1..] == mark;
    }
    assert p[1 + |seg|..] == rest;
    ContainsPast(p, 1 + |seg|, sub);
    if |segs| == 1 {
      assert !Contains(rest, sub);
    } else {
      MarkFound(segs[1..], mark);
    }
  }

  lemma CollisionFound(segs: seq<string>, name: string)
    requires segs != [] && forall k :: 0 <= k < |segs| ==> '/' !in segs[k]
    requires '/' !in name
    ensures (PathOf(segs) == ['/'] + name || HasPrefix(PathOf(segs), ['/'] + name + ['/'])) <==> segs[0] == name
  {
    var p, seg := PathOf(segs), segs[0];
    var rest := if |segs| == 1 then "" else PathOf(segs[1..]);
    assert p == ['/'] + (seg + rest);
    WholeSegment(name, seg, rest);
    assert p[1..] == seg + rest;
    assert (['/'] + name)[1..] == name && (['/'] + name + ['/'])[1..] == name + ['/'];
  }

  lemma GoodSegmentParts(seg: string)
    requires '/' !in seg
    ensures GoodSegment(seg) <==> AllPathChars(seg) && Plain(seg) && !HasPrefix(seg, WHITEOUT)
  {
  }

  lemma GoodSegmentsParts(segs: seq<string>)
    requires segs != [] && forall k :: 0 <= k < |segs| ==> '/' !in segs[k]
    ensures GoodSegments(segs) <==>
              && (forall j :: 0 <= j < |segs| ==> AllPathChars(segs[j]))
              && AllPlain(segs)
              && segs[0] != "fixture"
              && !AnyStarts(segs, WHITEOUT)
  {
    forall k | 0 <= k < |segs|
      ensures GoodSegment(segs[k]) <==> AllPathChars(segs[k]) && Plain(segs[k]) && !HasPrefix(segs[k], WHITEOUT)
    {
      GoodSegmentParts(segs[k]);
    }
  }

  lemma AbsoluteIsGrammar(p: string)
    requires p != "" && p[0] == '/' && p != "/"
    ensures Acceptable(p) <==> GoodSegments(SegmentsOf(p))
  {
    var segs := SegmentsOf(p);
    assert p == PathOf(segs);
    assert FirstBadChar(p).None? <==> forall j :: 0 <= j < |segs| ==> AllPathChars(segs[j]) by {
      CharsOfJoin(segs);
    }
    assert Clean(p) == p <==> AllPlain(segs) by {
      CleanFixedPoints(p);
    }
    assert Contains(p, "/" + WHITEOUT) <==> AnyStarts(segs, WHITEOUT) by {
      assert ['/'] + WHITEOUT == "/" + WHITEOUT;
      MarkFound(segs, WHITEOUT);
    }
    assert p == BINARY || HasPrefix(p, BINARY + "/") <==> segs[0] == "fixture" by {
      assert BINARY == ['/'] + "fixture" && BINARY + "/" == ['/'] + "fixture" + ['/'];
      CollisionFound(segs, "fixture");
    }
    GoodSegmentsParts(segs);
  }

  /** Acceptance is the grammar: "/" and "/"-joined segments from the allow-list,
      none empty, "." or "..", none starting ".wh.", the first not "fixture". */
  lemma AcceptableIsGrammar(p: string)
    ensures Acceptable(p) <==> p != "" && p[0] == '/' && GoodSegments(SegmentsOf(p))
    ensures Acceptable(p) ==> PathOf(SegmentsOf(p)) == p
  {
    if p == "/" {
      assert SegmentsOf(p) == [""];
      assert !GoodSegment("");
    } else if p != "" && p[0] == '/' {
      AbsoluteIsGrammar(p);
    }
  }

  /** The grammar generates exactly the accepted paths. */
  lemma GrammarIsAcceptable(segs: seq<string>)
    requires GoodSegments(segs)
    ensures Acceptable(PathOf(segs)) && SegmentsOf(PathOf(segs)) == segs
  {
    forall k | 0 <= k < |segs|
      ensures '/' !in segs[k]
    {
      assert GoodSegment(segs[k]);
    }
    SplitJoin(segs, '/');
    AcceptableIsGrammar(PathOf(segs));
  }

  /** An ancestor's path text sorts before its descendant's. */
  lemma AncestorSortsFirst(a: seq<string>, b: seq<string>)
    requires a != [] && a < b
    ensures Less(PathOf(a), PathOf(b))
  {
    var rest := b[|a|..];
    assert b == a + rest;
    JoinAppend(a, rest, '/');
    PrefixIsLess(PathOf(a), PathOf(b));
  }
}
