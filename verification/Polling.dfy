/** Waiting for a probe line in output that is still growing. */
module Polling {
  import opened Text
  import opened Probeout

  /** The lines of out that have been read to their newline. */
  function Whole(out: string): seq<string> {
    var pieces := Split(out, '\n');
    pieces[..|pieces| - 1]
  }

  /** What follows the last newline: a line that may still grow. */
  function CutOff(out: string): string {
    var pieces := Split(out, '\n');
    pieces[|pieces| - 1]
  }

  lemma EmptyLastPiece(pieces: seq<string>)
    requires |pieces| > 1 && pieces[|pieces| - 1] == ""
    ensures HasSuffix(Join(pieces, '\n'), "\n")
  {
    var before := pieces[..|pieces| - 1];
    JoinAppend(before, [""], '\n');
    assert pieces == before + [""];
    assert Join(pieces, '\n') == Join(before, '\n') + ['\n'];
  }

  lemma CutOffEmpty(out: string)
    ensures CutOff(out) == "" <==> out == "" || HasSuffix(out, "\n")
    ensures HasSuffix(out, "\n") ==> Whole(out) == Split(TrimNewline(out), '\n')
  {
    var pieces := Split(out, '\n');
    if HasSuffix(out, "\n") {
      SuffixRest(out, '\n');
      assert out == TrimNewline(out) + ['\n'] + "";
      SplitAppend(TrimNewline(out), "", '\n');
    } else if |pieces| > 1 && CutOff(out) == "" {
      EmptyLastPiece(pieces);
    }
  }

  /** Parse reads the whole lines, then the cut-off one if there is one. */
  lemma ParsedInParts(out: string)
    ensures Parsed(out) == ParseLines(Whole(out)) + if CutOff(out) == "" then [] else [ParseLine(CutOff(out))]
  {
    CutOffEmpty(out);
    var pieces := Split(out, '\n');
    assert pieces == Whole(out) + [CutOff(out)];
  }

  lemma {:induction false} FoundFirst(a: seq<Line>, b: seq<Line>, name: string)
    ensures Found(a + b, name) == if Found(a, name).Some? then Found(a, name) else Found(b, name)
  {
    if a == [] {
      assert a + b == b;
    } else {
      assert (a + b)[1..] == a[1..] + b;
      FoundFirst(a[1..], b, name);
    }
  }

  /** More output only adds lines after the whole ones. */
  lemma WholeLinesStay(out: string, more: string)
    ensures Whole(out) <= Whole(out + more)
  {
    SplitConcat(out, more, '\n');
  }

  lemma FoundInPrefix(a: seq<Line>, b: seq<Line>, name: string)
    requires a <= b && Found(a, name).Some?
    ensures Found(b, name) == Found(a, name)
  {
    FoundFirst(a, b[|a|..], name);
    assert b == a + b[|a|..];
  }

  lemma WholeParsed(out: string, more: string)
    ensures ParseLines(Whole(out)) <= Parsed(out + more)
  {
    var whole, later := Whole(out), Whole(out + more);
    WholeLinesStay(out, more);
    assert ParseLines(whole) <= ParseLines(later);
    ParsedInParts(out + more);
  }

  /** A line found among the whole lines is found, unchanged, in every longer output. */
  lemma FoundStays(out: string, more: string, name: string)
    requires Found(ParseLines(Whole(out)), name).Some?
    ensures Found(Parsed(out + more), name) == Found(ParseLines(Whole(out)), name) == Found(Parsed(out), name)
  {
    WholeParsed(out, more);
    FoundInPrefix(ParseLines(Whole(out)), Parsed(out + more), name);
    WholeParsed(out, "");
    assert out + "" == out;
    FoundInPrefix(ParseLines(Whole(out)), Parsed(out), name);
  }

  /** Output read up to a newline: whatever Find returns is final. */
  lemma FoundAfterNewline(out: string, more: string, name: string)
    requires HasSuffix(out, "\n") && Found(Parsed(out), name).Some?
    ensures Found(Parsed(out + more), name) == Found(Parsed(out), name)
  {
    CutOffEmpty(out);
    ParsedInParts(out);
    assert Parsed(out) == ParseLines(Whole(out));
    FoundStays(out, more, name);
  }

  lemma LineEnds(out: string, more: string)
    requires '\n' !in more
    ensures Whole(out + (more + ['\n'])) == Whole(out) + [CutOff(out) + more]
    ensures CutOff(out + (more + ['\n'])) == ""
  {
    assert Split(more + ['\n'], '\n') == [more, ""] by {
      SplitAt(more, "", '\n');
      assert more + ['\n'] + "" == more + ['\n'];
    }
    SplitConcat(out, more + ['\n'], '\n');
  }

  lemma FoundLast(lines: seq<Line>, last: Line, name: string)
    requires Found(lines, name).None?
    ensures Found(lines + [last], name) == if Named(last, name) then Some(last) else None
  {
    FoundFirst(lines, [last], name);
  }

  lemma CutLineFound(out: string, name: string)
    requires Found(ParseLines(Whole(out)), name).None? && Found(Parsed(out), name).Some?
    ensures Found(Parsed(out), name) == Some(ParseLine(CutOff(out)))
  {
    ParsedInParts(out);
    FoundLast(ParseLines(Whole(out)), ParseLine(CutOff(out)), name);
  }

  lemma ParseLinesMore(raws: seq<string>, raw: string)
    ensures ParseLines(raws + [raw]) == ParseLines(raws) + [ParseLine(raw)]
  {
  }

  lemma EndedLineParsed(out: string, more: string)
    requires '\n' !in more
    ensures Parsed(out + (more + ['\n'])) == ParseLines(Whole(out)) + [ParseLine(CutOff(out) + more)]
  {
    LineEnds(out, more);
    ParsedInParts(out + (more + ['\n']));
    ParseLinesMore(Whole(out), CutOff(out) + more);
  }

  lemma EndedLineFound(out: string, more: string, name: string)
    requires Found(ParseLines(Whole(out)), name).None? && '\n' !in more
    ensures var last := ParseLine(CutOff(out) + more);
            Found(Parsed(out + (more + ['\n'])), name) == if Named(last, name) then Some(last) else None
  {
    EndedLineParsed(out, more);
    FoundLast(ParseLines(Whole(out)), ParseLine(CutOff(out) + more), name);
  }

  /** A line that is still growing: whatever it grows by, printable or not, is
      another answer once its newline has come. */
  lemma GrownLineDiffers(out: string, more: string, name: string)
    requires Found(ParseLines(Whole(out)), name).None? && Found(Parsed(out), name).Some?
    requires more != "" && '\n' !in more
    ensures Found(Parsed(out + (more + ['\n'])), name) != Found(Parsed(out), name)
  {
    CutLineFound(out, name);
    EndedLineFound(out, more, name);
    StringOfParse(CutOff(out));
    StringOfParse(CutOff(out) + more);
  }

  /** More output never changes the answer. */
  ghost predicate Final(out: string, name: string) {
    forall more :: Found(Parsed(out + more), name) == Found(Parsed(out), name)
  }

  lemma OneChange(out: string, more: string, name: string)
    requires Found(Parsed(out + more), name) != Found(Parsed(out), name)
    ensures !Final(out, name)
  {
  }

  lemma CutLineIsNotFinal(out: string, name: string)
    requires Found(ParseLines(Whole(out)), name).None? && Found(Parsed(out), name).Some?
    ensures !Final(out, name)
  {
    GrownLineDiffers(out, "x", name);
    OneChange(out, "x" + ['\n'], name);
  }

  lemma WholeLineIsFinal(out: string, name: string)
    requires Found(ParseLines(Whole(out)), name).Some?
    ensures Final(out, name)
  {
    forall more ensures Found(Parsed(out + more), name) == Found(Parsed(out), name) { FoundStays(out, more, name); }
  }

  /** What Find returns is final exactly when it found a line that had been read
      to its newline. A line cut off in the middle may still change. */
  lemma FoundIsFinalExactlyWhen(out: string, name: string)
    requires Found(Parsed(out), name).Some?
    ensures Final(out, name) <==> Found(ParseLines(Whole(out)), name).Some?
  {
    if Found(ParseLines(Whole(out)), name).Some? {
      WholeLineIsFinal(out, name);
    } else {
      CutLineIsNotFinal(out, name);
    }
  }

  lemma DetailGrows(name: string, detail: string, more: string)
    requires detail != ""
    ensures String(Good(name, true, detail + more)) == String(Good(name, true, detail)) + more
    ensures String(Good(name, true, detail)) != ""
  {
  }

  /** A detail read before its line was complete is a beginning of the one the
      probe wrote, and nothing about it looks wrong. */
  lemma CutDetail(name: string, detail: string, more: string)
    requires ValidName(name) && ValidDetail(detail) && ValidDetail(more) && detail != ""
    ensures var out := String(Good(name, true, detail));
            && Found(Parsed(out), name) == Some(Good(name, true, detail))
            && Found(Parsed(out + (more + ['\n'])), name) == Some(Good(name, true, detail + more))
  {
    var short, long := Good(name, true, detail), Good(name, true, detail + more);
    ParseOfString(short);
    ParseOfString(long);
    var out := String(short);
    DetailGrows(name, detail, more);
    SplitWhole(out, '\n');
    DetailIsOneLine(more);
    ParsedInParts(out);
    EndedLineFound(out, more, name);
  }

  /** "listen: OK /so", polled before "ck" and the newline have come, is a line. */
  lemma PathCutInTheMiddle()
    ensures var out := String(Good("listen", true, "/so"));
            && Found(Parsed(out), "listen") == Some(Good("listen", true, "/so"))
            && Found(Parsed(out + ("ck" + ['\n'])), "listen") == Some(Good("listen", true, "/so" + "ck"))
  {
    CutDetail("listen", "/so", "ck");
  }

  // WaitLine

  datatype Waited = LineRead(line: Line) | LogsFailed | TimedOut

  /** What the polls lead to; None is a poll whose logs could not be read. */
  function Awaited(polls: seq<Option<string>>, name: string): Waited
  {
    if polls == [] then TimedOut
    else if polls[0].None? then LogsFailed
    else if Found(Parsed(polls[0].value), name).Some? then LineRead(Found(Parsed(polls[0].value), name).value)
    else Awaited(polls[1..], name)
  }

  /** WaitLine: the polls that fit before the deadline are a parameter. */
  method WaitLine(polls: seq<Option<string>>, name: string) returns (r: Waited)
    ensures r == Awaited(polls, name)
  {
    var k := 0;
    while k < |polls|
      invariant 0 <= k <= |polls|
      invariant Awaited(polls, name) == Awaited(polls[k..], name)
    {
      if polls[k].None? { return LogsFailed; }
      var lines := Parse(polls[k].value);
      var line, ok := Find(lines, name);
      if ok { return LineRead(line); }
      assert polls[k..][1..] == polls[k + 1..];
      k := k + 1;
    }
    return TimedOut;
  }

  predicate EndsLine(out: string) { out == "" || HasSuffix(out, "\n") }

  predicate WholePrefix(out: string, final: string) { out <= final && EndsLine(out) }

  lemma FoundInFinal(out: string, final: string, name: string)
    requires WholePrefix(out, final) && Found(Parsed(out), name).Some?
    ensures Found(Parsed(final), name) == Found(Parsed(out), name)
  {
    var more := final[|out|..];
    assert out + more == final;
    FoundAfterNewline(out, more, name);
  }

  /** When every poll ends at a newline and is a prefix of the container's
      whole output, the line returned is the one in that output. */
  lemma {:induction false} WaitedLineIsFinal(polls: seq<Option<string>>, final: string, name: string)
    requires Awaited(polls, name).LineRead?
    requires forall k :: 0 <= k < |polls| && polls[k].Some? ==> WholePrefix(polls[k].value, final)
    ensures Found(Parsed(final), name) == Some(Awaited(polls, name).line)
  {
    var out := polls[0].value;
    if Found(Parsed(out), name).Some? {
      assert WholePrefix(out, final);
      FoundInFinal(out, final, name);
    } else {
      WaitedLineIsFinal(polls[1..], final, name);
    }
  }
}
