/** path.Clean, written out as the standard library's one-pass scan, and its
    meaning as a stack of path segments. */
module Paths {
  import opened Text

  predicate Rooted(p: string) { p != "" && p[0] == '/' }

  // The scan

  /** Length of the segment at the start of rest: up to the next slash. */
  function SegmentLength(rest: string): (n: nat)
    ensures n <= |rest|
    ensures n < |rest| ==> rest[n] == '/'
    ensures forall k :: 0 <= k < n ==> rest[k] != '/'
  {
    if rest == "" || rest[0] == '/' then 0 else 1 + SegmentLength(rest[1..])
  }

  /** Drops the last written byte, then more until a slash or the protected
      part (length dotdot) is reached. */
  function Unwind(out: string, w: nat, dotdot: nat): (r: string)
    requires dotdot <= w < |out|
    ensures dotdot <= |r|
  {
    if w > dotdot && out[w] != '/' then Unwind(out, w - 1, dotdot) else out[..w]
  }

  predicate IsDot(rest: string) { rest != "" && rest[0] == '.' && (|rest| == 1 || rest[1] == '/') }

  predicate IsDotDot(rest: string) {
    |rest| >= 2 && rest[0] == '.' && rest[1] == '.' && (|rest| == 2 || rest[2] == '/')
  }

  function Scan(rest: string, out: string, dotdot: nat, rooted: bool): string
    requires dotdot <= |out|
    decreases |rest|
  {
    if rest == "" then out
    else if rest[0] == '/' then Scan(rest[1..], out, dotdot, rooted)
    else if IsDot(rest) then Scan(rest[1..], out, dotdot, rooted)
    else if IsDotDot(rest) then
      if |out| > dotdot then Scan(rest[2..], Unwind(out, |out| - 1, dotdot), dotdot, rooted)
      else if !rooted then
        var up := (if out != "" then out + "/" else out) + "..";
        Scan(rest[2..], up, |up|, rooted)
      else Scan(rest[2..], out, dotdot, rooted)
    else
      var n := SegmentLength(rest);
      var sep := if (rooted && |out| != 1) || (!rooted && |out| != 0) then "/" else "";
      Scan(rest[n..], out + sep + rest[..n], dotdot, rooted)
  }

  function Clean(p: string): string
  {
    if p == "" then "."
    else
      var out := if p[0] == '/' then Scan(p[1..], "/", 1, true) else Scan(p, "", 0, false);
      if out == "" then "." else out
  }

  // The segment-stack view

  function Push(rooted: bool, st: seq<string>, seg: string): seq<string>
  {
    if seg == "" || seg == "." then st
    else if seg != ".." then st + [seg]
    else if st != [] && st[|st| - 1] != ".." then st[..|st| - 1]
    else if rooted then st
    else st + [".."]
  }

  function Resolve(rooted: bool, st: seq<string>, segs: seq<string>): seq<string>
    decreases segs
  {
    if segs == [] then st else Resolve(rooted, Push(rooted, st, segs[0]), segs[1..])
  }

  /** The segments a path lexically names, with "." and ".." worked out. */
  function Segments(p: string): seq<string> { Resolve(Rooted(p), [], Split(p, '/')) }

  function Written(rooted: bool, st: seq<string>): string
  {
    (if rooted then "/" else "") + Join(st, '/')
  }

  function Render(rooted: bool, st: seq<string>): string
  {
    if !rooted && st == [] then "." else Written(rooted, st)
  }

  /** How many ".." the stack starts with; only a relative path has any. */
  function Ups(st: seq<string>): (d: nat)
    ensures d <= |st|
    ensures forall k :: 0 <= k < d ==> st[k] == ".."
  {
    if st == [] || st[0] != ".." then 0 else 1 + Ups(st[1..])
  }

  ghost predicate Normal(rooted: bool, st: seq<string>)
  {
    && (forall k :: 0 <= k < |st| ==> st[k] != "" && st[k] != "." && '/' !in st[k])
    && (forall k :: Ups(st) <= k < |st| ==> st[k] != "..")
    && (rooted ==> Ups(st) == 0)
  }

  lemma {:induction false} UpsAppend(st: seq<string>, seg: string)
    ensures Ups(st + [seg]) == if seg == ".." && Ups(st) == |st| then |st| + 1 else Ups(st)
  {
    if st != [] {
      assert (st + [seg])[1..] == st[1..] + [seg];
      if st[0] == ".." { UpsAppend(st[1..], seg); }
    } else {
      assert [seg][1..] == [];
    }
  }

  lemma PushNormal(rooted: bool, st: seq<string>, seg: string)
    requires Normal(rooted, st) && '/' !in seg
    ensures Normal(rooted, Push(rooted, st, seg))
  {
    if seg != "" && seg != "." {
      UpsAppend(st, seg);
      if seg == ".." && st != [] && st[|st| - 1] != ".." {
        var top := st[..|st| - 1];
        assert st == top + [st[|st| - 1]];
        UpsAppend(top, st[|st| - 1]);
      }
    }
  }

  lemma {:induction false} ResolveNormal(rooted: bool, st: seq<string>, segs: seq<string>)
    requires Normal(rooted, st)
    requires forall k :: 0 <= k < |segs| ==> '/' !in segs[k]
    ensures Normal(rooted, Resolve(rooted, st, segs))
    decreases segs
  {
    if segs != [] {
      PushNormal(rooted, st, segs[0]);
      ResolveNormal(rooted, Push(rooted, st, segs[0]), segs[1..]);
    }
  }

  lemma WrittenAppend(rooted: bool, st: seq<string>, seg: string)
    ensures Written(rooted, st + [seg]) == Written(rooted, st) + (if st == [] then "" else "/") + seg
  {
    if st != [] { JoinAppend(st, [seg], '/'); }
    else { assert st + [seg] == [seg]; }
  }

  lemma {:induction false} UnwindTo(out: string, w: nat, dotdot: nat, stop: nat)
    requires dotdot <= stop <= w < |out|
    requires stop == dotdot || out[stop] == '/'
    requires forall k :: stop < k <= w ==> out[k] != '/'
    ensures Unwind(out, w, dotdot) == out[..stop]
  {
    if w > stop { UnwindTo(out, w - 1, dotdot, stop); }
  }

  /** Removing the last segment is what Unwind does to the written text. */
  lemma UnwindPops(rooted: bool, st: seq<string>, seg: string, dotdot: nat)
    requires seg != "" && '/' !in seg
    requires dotdot <= |Written(rooted, st)|
    requires dotdot == |Written(rooted, st)| || (st != [] && dotdot < |Written(rooted, st)|)
    ensures var out := Written(rooted, st + [seg]);
            dotdot < |out| && Unwind(out, |out| - 1, dotdot) == Written(rooted, st)
  {
    WrittenAppend(rooted, st, seg);
    var out, keep := Written(rooted, st + [seg]), Written(rooted, st);
    UnwindTo(out, |out| - 1, dotdot, |keep|);
  }

  lemma {:induction false} WrittenPrefix(rooted: bool, st: seq<string>, k: nat)
    requires k <= |st| && forall j :: 0 <= j < |st| ==> st[j] != ""
    ensures |Written(rooted, st[..k])| <= |Written(rooted, st)|
    ensures k < |st| ==> |Written(rooted, st[..k])| < |Written(rooted, st)|
    decreases |st| - k
  {
    if k < |st| {
      WrittenAppend(rooted, st[..k], st[k]);
      assert st[..k + 1] == st[..k] + [st[k]];
      WrittenPrefix(rooted, st, k + 1);
    } else {
      assert st[..k] == st;
    }
  }

  /** Splitting off the first segment of the text. */
  lemma ResolveHead(rooted: bool, st: seq<string>, rest: string)
    ensures var n := SegmentLength(rest);
            Resolve(rooted, st, Split(rest, '/'))
            == Resolve(rooted, Push(rooted, st, rest[..n]), Split(rest[n..], '/'))
  {
    var n := SegmentLength(rest);
    if n == |rest| {
      SplitWhole(rest, '/');
      assert rest[..n] == rest && rest[n..] == "";
    } else {
      SplitAt(rest[..n], rest[n + 1..], '/');
      assert rest == rest[..n] + ['/'] + rest[n + 1..];
      assert rest[n..][1..] == rest[n + 1..];
    }
  }

  function Protected(rooted: bool, st: seq<string>): nat { |Written(rooted, st[..Ups(st)])| }

  /** One step of the scan on segment seg is one Push. */
  lemma UpIsPush(rooted: bool, st: seq<string>)
    requires Normal(rooted, st)
    ensures Protected(rooted, st) <= |Written(rooted, st)|
    ensures |Written(rooted, st)| > Protected(rooted, st) <==> st != [] && st[|st| - 1] != ".."
    ensures st != [] && st[|st| - 1] != ".." ==>
              Unwind(Written(rooted, st), |Written(rooted, st)| - 1, Protected(rooted, st))
              == Written(rooted, st[..|st| - 1])
    ensures st != [] && st[|st| - 1] != ".." ==> Protected(rooted, st[..|st| - 1]) == Protected(rooted, st)
  {
    WrittenPrefix(rooted, st, Ups(st));
    if st != [] && st[|st| - 1] != ".." {
      var top, seg := st[..|st| - 1], st[|st| - 1];
      assert st == top + [seg];
      UpsAppend(top, seg);
      assert top[..Ups(top)] == st[..Ups(st)];
      WrittenPrefix(rooted, top, Ups(top));
      if Ups(top) == |top| { assert top[..Ups(top)] == top; }
      UnwindPops(rooted, top, seg, Protected(rooted, st));
    } else {
      assert st[..Ups(st)] == st;
    }
  }

  lemma ScanUp(rest: string, st: seq<string>, rooted: bool)
    requires Normal(rooted, st) && IsDotDot(rest)
    ensures var next := Push(rooted, st, "..");
            && Protected(rooted, st) <= |Written(rooted, st)|
            && Protected(rooted, next) <= |Written(rooted, next)|
            && Scan(rest, Written(rooted, st), Protected(rooted, st), rooted)
               == Scan(rest[2..], Written(rooted, next), Protected(rooted, next), rooted)
  {
    UpIsPush(rooted, st);
    var next := Push(rooted, st, "..");
    PushNormal(rooted, st, "..");
    UpIsPush(rooted, next);
    assert !IsDot(rest);
    if !(st != [] && st[|st| - 1] != "..") && !rooted {
      WrittenAppend(rooted, st, "..");
      WrittenPrefix(rooted, st, 0);
      UpsAppend(st, "..");
      assert st[..Ups(st)] == st;
      assert next[..Ups(next)] == next;
    }
  }

  lemma SegmentIsPlain(rest: string)
    requires rest != "" && rest[0] != '/' && !IsDot(rest) && !IsDotDot(rest)
    ensures var seg := rest[..SegmentLength(rest)];
            SegmentLength(rest) > 0 && seg != "" && seg != "." && seg != ".." && '/' !in seg
  {
    var n := SegmentLength(rest);
    var seg := rest[..n];
    assert seg[0] == rest[0];
    assert |seg| >= 2 ==> seg[1] == rest[1];
  }

  lemma ScanSegment(rest: string, st: seq<string>, rooted: bool)
    requires Normal(rooted, st)
    requires rest != "" && rest[0] != '/' && !IsDot(rest) && !IsDotDot(rest)
    ensures var n := SegmentLength(rest);
            && n > 0 && Push(rooted, st, rest[..n]) == st + [rest[..n]]
            && Protected(rooted, st) <= |Written(rooted, st)|
            && Protected(rooted, st + [rest[..n]]) <= |Written(rooted, st + [rest[..n]])|
            && Scan(rest, Written(rooted, st), Protected(rooted, st), rooted)
               == Scan(rest[n..], Written(rooted, st + [rest[..n]]), Protected(rooted, st + [rest[..n]]), rooted)
  {
    var seg := rest[..SegmentLength(rest)];
    SegmentIsPlain(rest);
    UpIsPush(rooted, st);
    WrittenAppend(rooted, st, seg);
    UpsAppend(st, seg);
    assert (st + [seg])[..Ups(st)] == st[..Ups(st)];
    WrittenPrefix(rooted, st, 0);
  }

  lemma DotDotLength(rest: string)
    requires IsDotDot(rest)
    ensures SegmentLength(rest) == 2 && rest[..2] == ".."
  {
    assert SegmentLength(rest[2..]) == 0 && rest[1..][1..] == rest[2..];
  }

  lemma {:induction false} ScanResolves(rest: string, st: seq<string>, rooted: bool)
    requires Normal(rooted, st)
    ensures Protected(rooted, st) <= |Written(rooted, st)|
    ensures Scan(rest, Written(rooted, st), Protected(rooted, st), rooted)
            == Written(rooted, Resolve(rooted, st, Split(rest, '/')))
    decreases |rest|
  {
    UpIsPush(rooted, st);
    ResolveHead(rooted, st, rest);
    var n := SegmentLength(rest);
    if rest == "" {
    } else if rest[0] == '/' {
      ScanResolves(rest[1..], st, rooted);
    } else if IsDot(rest) {
      assert n == 1 && rest[..n] == ".";
      ScanResolves(rest[1..], st, rooted);
    } else if IsDotDot(rest) {
      DotDotLength(rest);
      PushNormal(rooted, st, "..");
      ScanUp(rest, st, rooted);
      ScanResolves(rest[2..], Push(rooted, st, ".."), rooted);
    } else {
      PushNormal(rooted, st, rest[..n]);
      ScanSegment(rest, st, rooted);
      ScanResolves(rest[n..], st + [rest[..n]], rooted);
    }
  }

  /** path.Clean is segment-stack resolution, for every byte string. */
  lemma CleanIsResolution(p: string)
    ensures Normal(Rooted(p), Segments(p))
    ensures Clean(p) == Render(Rooted(p), Segments(p))
  {
    ResolveNormal(Rooted(p), [], Split(p, '/'));
    if Rooted(p) {
      assert Split(p, '/') == [""] + Split(p[1..], '/');
      assert Segments(p) == Resolve(true, [], Split(p[1..], '/'));
      ScanResolves(p[1..], [], true);
      assert Written(true, []) == "/";
    } else {
      ScanResolves(p, [], false);
      assert Written(false, []) == "";
      WrittenPrefix(false, Segments(p), 0);
      assert p != "" ==> Clean(p) == Render(false, Segments(p));
      SplitWhole("", '/');
    }
  }

  // What a cleaned path looks like

  lemma {:induction false} ResolveKeeps(rooted: bool, pre: seq<string>, segs: seq<string>)
    requires Normal(rooted, pre + segs)
    ensures Resolve(rooted, pre, segs) == pre + segs
    decreases segs
  {
    if segs == [] {
      assert pre + segs == pre;
    } else {
      var all := pre + segs;
      assert all[|pre|] == segs[0];
      if segs[0] == ".." && pre != [] {
        assert all[|pre| - 1] == pre[|pre| - 1];
        assert |pre| < Ups(all);
      }
      assert pre + [segs[0]] + segs[1..] == all;
      ResolveKeeps(rooted, pre + [segs[0]], segs[1..]);
    }
  }

  lemma JoinStart(st: seq<string>)
    requires st != [] && st[0] != ""
    ensures Join(st, '/') != "" && Join(st, '/')[0] == st[0][0]
  {
  }

  /** Rendering a normal stack and resolving the text gives the stack back. */
  lemma SegmentsOfRender(rooted: bool, st: seq<string>)
    requires Normal(rooted, st)
    ensures Rooted(Render(rooted, st)) == rooted
    ensures Segments(Render(rooted, st)) == st
  {
    var p := Render(rooted, st);
    ResolveKeeps(rooted, [], st);
    assert [] + st == st;
    if st == [] {
      SplitWhole("", '/');
      SplitWhole(".", '/');
      if rooted {
        assert p == "/" && p[1..] == "";
        assert Resolve(true, [], ["", ""]) == Resolve(true, [], [""]);
      } else {
        assert Resolve(false, [], ["."]) == [];
      }
    } else {
      SplitJoin(st, '/');
      if rooted {
        assert p[1..] == Join(st, '/');
        assert Split(p, '/') == [""] + st;
        assert ([""] + st)[1..] == st;
      } else {
        assert p == Join(st, '/');
        WrittenPrefix(false, st, 0);
        JoinStart(st);
      }
    }
  }

  lemma CleanIdempotent(p: string)
    ensures Clean(Clean(p)) == Clean(p)
  {
    CleanIsResolution(p);
    SegmentsOfRender(Rooted(p), Segments(p));
    CleanIsResolution(Clean(p));
  }

  /** Two paths clean to the same text exactly when they name the same
      segments from the same starting point. */
  lemma CleanEqual(p: string, q: string)
    ensures Clean(p) == Clean(q) <==> Rooted(p) == Rooted(q) && Segments(p) == Segments(q)
  {
    CleanIsResolution(p);
    CleanIsResolution(q);
    SegmentsOfRender(Rooted(p), Segments(p));
    SegmentsOfRender(Rooted(q), Segments(q));
  }

  predicate Plain(seg: string) { seg != "" && seg != "." && seg != ".." && '/' !in seg }

  predicate AllPlain(segs: seq<string>) { forall k :: 0 <= k < |segs| ==> Plain(segs[k]) }

  lemma {:induction false} PlainHasNoUps(segs: seq<string>)
    requires AllPlain(segs)
    ensures Ups(segs) == 0 && Normal(true, segs)
  {
  }

  /** A path made of plain segments is what Clean leaves alone. */
  lemma CleanKeepsPlain(segs: seq<string>)
    requires AllPlain(segs)
    ensures Clean("/" + Join(segs, '/')) == "/" + Join(segs, '/')
    ensures Segments("/" + Join(segs, '/')) == segs
  {
    PlainHasNoUps(segs);
    SegmentsOfRender(true, segs);
    CleanIsResolution(Render(true, segs));
  }

  /** The absolute paths other than "/" that Clean leaves alone are exactly "/"
      followed by "/"-joined plain segments. */
  lemma CleanFixedPoints(p: string)
    requires Rooted(p) && p != "/"
    ensures Clean(p) == p <==> AllPlain(Split(p[1..], '/'))
    ensures Clean(p) == p ==> Segments(p) == Split(p[1..], '/')
  {
    var segs := Split(p[1..], '/');
    assert p == "/" + Join(segs, '/');
    if AllPlain(segs) {
      CleanKeepsPlain(segs);
    }
    if Clean(p) == p {
      CleanIsResolution(p);
      var st := Segments(p);
      assert st != [];
      SplitJoin(st, '/');
      assert p[1..] == Join(st, '/');
      forall k | 0 <= k < |st| ensures Plain(st[k]) { }
    }
  }
}
