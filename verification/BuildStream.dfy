/** The build-output reader: JSON lines in, at most one error out. */
module BuildStream {
  import opened Text

  // One line

  /** What the JSON decoder makes of a text: not a JSON object (with its
      complaint), null, or an object with raw values. */
  datatype Decoded = NotObject(why: string) | Null | Object(fields: map<string, string>)

  /** The standard library's decoder, as far as the reader uses it. */
  datatype Decoder = Decoder(
    unmarshal: string -> Decoded,
    detailMessage: string -> Option<string>,
    text: string -> Option<string>)

  datatype Kind = Progress | Failure(message: string) | Malformed(why: string)

  predicate ReportsFailure(fields: map<string, string>) { "errorDetail" in fields || "error" in fields }

  /** errorDetail.message, else the error string, else the line itself. */
  function FailureMessage(lib: Decoder, fields: map<string, string>, line: string): string
  {
    var detail := if "errorDetail" in fields then lib.detailMessage(fields["errorDetail"]) else None;
    var error := if "error" in fields then lib.text(fields["error"]) else None;
    if detail.Some? && detail.value != "" then detail.value
    else if error.Some? && error.value != "" then error.value
    else line
  }

  /** buildFailure, after the decoding. */
  function Classify(lib: Decoder, line: string): Kind
  {
    match lib.unmarshal(line)
    case NotObject(why) => Malformed(why)
    case Null => Malformed("null")
    case Object(fields) =>
      if ReportsFailure(fields) then Failure(FailureMessage(lib, fields, line)) else Progress
  }

  predicate Space(c: char) { c == ' ' || c == '\t' || c == '\r' || c == '\n' }

  function TrimRight(s: string): string
  {
    if s != "" && Space(s[|s| - 1]) then TrimRight(s[..|s| - 1]) else s
  }

  function TrimLeft(s: string): string
  {
    if s != "" && Space(s[0]) then TrimLeft(s[1..]) else s
  }

  function Trim(s: string): string { TrimLeft(TrimRight(s)) }

  /** None for a blank line. */
  function KindOf(lib: Decoder, line: string): Option<Kind>
  {
    var text := Trim(line);
    if text == "" then None else Some(Classify(lib, text))
  }

  // The stream

  datatype End = Eof | ReadError(why: string)

  datatype Error =
    | BuildFailed(message: string)
    | LineMalformed(number: nat, why: string)
    | ReadingFailed(why: string)

  function Kinds(lib: Decoder, lines: seq<string>): (kinds: seq<Option<Kind>>)
    ensures |kinds| == |lines|
  {
    seq(|lines|, i requires 0 <= i < |lines| => KindOf(lib, lines[i]))
  }

  predicate Fails(k: Option<Kind>) { k.Some? && k.value.Failure? }

  predicate IsMalformed(k: Option<Kind>) { k.Some? && k.value.Malformed? }

  /** The first position where ok holds, |kinds| when there is none. */
  function First(ok: Option<Kind> -> bool, kinds: seq<Option<Kind>>): (i: nat)
    ensures i <= |kinds|
    ensures i < |kinds| ==> ok(kinds[i])
    ensures forall k :: 0 <= k < i ==> !ok(kinds[k])
  {
    if kinds == [] || ok(kinds[0]) then 0 else 1 + First(ok, kinds[1..])
  }

  function FirstFailure(kinds: seq<Option<Kind>>): Option<Error>
  {
    var i := First(Fails, kinds);
    if i < |kinds| then Some(BuildFailed(kinds[i].value.message)) else None
  }

  /** Lines are numbered from 1. */
  function FirstMalformed(kinds: seq<Option<Kind>>): Option<Error>
  {
    var i := First(IsMalformed, kinds);
    if i < |kinds| then Some(LineMalformed(i + 1, kinds[i].value.why)) else None
  }

  /** The first failure wins over everything; then the first malformed line;
      then a read error. */
  function Verdict(kinds: seq<Option<Kind>>, end: End): Option<Error>
  {
    if FirstFailure(kinds).Some? then FirstFailure(kinds)
    else if FirstMalformed(kinds).Some? then FirstMalformed(kinds)
    else if end.ReadError? then Some(ReadingFailed(end.why))
    else None
  }

  function Result(lib: Decoder, stream: string, end: End): Option<Error>
  {
    Verdict(Kinds(lib, Split(stream, '\n')), end)
  }

  // The loop

  /** bufio.Reader.ReadBytes('\n'): the line with its newline, or what is left
      and how the stream ended. */
  method ReadBytes(rest: string, end: End) returns (line: string, after: string, stop: Option<End>)
    ensures stop.Some? <==> '\n' !in rest
    ensures stop.Some? ==> stop.value == end && line == rest
    ensures stop.None? ==> rest == line + after && |line| > 0 && '\n' !in line[..|line| - 1] && line[|line| - 1] == '\n'
  {
    var n := 0;
    while n < |rest| && rest[n] != '\n'
      invariant 0 <= n <= |rest|
      invariant '\n' !in rest[..n]
    {
      assert rest[..n + 1] == rest[..n] + [rest[n]];
      n := n + 1;
    }
    if n == |rest| {
      assert rest[..n] == rest;
      return rest, "", Some(end);
    }
    line := rest[..n + 1];
    assert line[..n] == rest[..n];
    return line, rest[n + 1..], None;
  }

  lemma FirstMore(ok: Option<Kind> -> bool, kinds: seq<Option<Kind>>, k: Option<Kind>)
    ensures First(ok, kinds + [k]) == if First(ok, kinds) < |kinds| then First(ok, kinds)
                                      else if ok(k) then |kinds| else |kinds| + 1
  {
    var more := kinds + [k];
    var i := First(ok, more);
    assert more[|kinds|] == k && forall j :: 0 <= j < |kinds| ==> more[j] == kinds[j];
    assert i < |kinds| ==> ok(kinds[i]);
    assert First(ok, kinds) < |kinds| ==> ok(more[First(ok, kinds)]);
  }

  lemma VerdictMore(kinds: seq<Option<Kind>>, k: Option<Kind>)
    ensures FirstFailure(kinds + [k]) ==
              if FirstFailure(kinds).Some? then FirstFailure(kinds)
              else if Fails(k) then Some(BuildFailed(k.value.message)) else None
    ensures FirstMalformed(kinds + [k]) ==
              if FirstMalformed(kinds).Some? then FirstMalformed(kinds)
              else if IsMalformed(k) then Some(LineMalformed(|kinds| + 1, k.value.why)) else None
  {
    FirstMore(Fails, kinds, k);
    FirstMore(IsMalformed, kinds, k);
    var more := kinds + [k];
    assert more[|kinds|] == k && forall j :: 0 <= j < |kinds| ==> more[j] == kinds[j];
  }

  /** The newline ReadBytes leaves on a line is trimmed away. */
  lemma NewlineTrimmed(line: string)
    requires line != "" && Space(line[|line| - 1])
    ensures Trim(line) == Trim(line[..|line| - 1])
  {
  }

  /** The two accumulators after the lines so far. */
  ghost predicate Accumulated(failure: Option<Error>, malformed: Option<Error>, kinds: seq<Option<Kind>>) {
    failure == FirstFailure(kinds) && malformed == FirstMalformed(kinds)
  }

  /** The switch on one line. */
  method Note(lib: Decoder, n: nat, line: string, failure: Option<Error>, malformed: Option<Error>, ghost kinds: seq<Option<Kind>>)
    returns (failure': Option<Error>, malformed': Option<Error>)
    requires n == |kinds| + 1 && Accumulated(failure, malformed, kinds)
    ensures Accumulated(failure', malformed', kinds + [KindOf(lib, line)])
  {
    failure', malformed' := failure, malformed;
    var text := Trim(line);
    if text != "" {
      match Classify(lib, text) {
        case Malformed(why) => if malformed == None { malformed' := Some(LineMalformed(n, why)); }
        case Failure(message) => if failure == None { failure' := Some(BuildFailed(message)); }
        case Progress =>
      }
    }
    VerdictMore(kinds, KindOf(lib, line));
  }

  lemma KindsMore(lib: Decoder, done: seq<string>, line: string)
    ensures Kinds(lib, done + [line]) == Kinds(lib, done) + [KindOf(lib, line)]
  {
  }

  lemma SplitLine(done: seq<string>, rest: string, line: string, after: string)
    requires rest == line + after && |line| > 0 && '\n' !in line[..|line| - 1] && line[|line| - 1] == '\n'
    ensures done + Split(rest, '\n') == done + [line[..|line| - 1]] + Split(after, '\n')
  {
    var part := line[..|line| - 1];
    assert line == part + ['\n'];
    SplitAt(part, after, '\n');
  }

  lemma SameKind(lib: Decoder, line: string)
    requires line != "" && Space(line[|line| - 1])
    ensures KindOf(lib, line) == KindOf(lib, line[..|line| - 1])
  {
    NewlineTrimmed(line);
  }

  /** parseBuildStream. */
  method ParseBuildStream(lib: Decoder, stream: string, end: End) returns (error: Option<Error>)
    ensures error == Result(lib, stream, end)
  {
    var rest, n := stream, 1;
    var failure: Option<Error>, malformed: Option<Error> := None, None;
    ghost var done: seq<string> := [];
    ghost var lines := Split(stream, '\n');
    while true
      invariant n == |done| + 1
      invariant lines == done + Split(rest, '\n')
      invariant Accumulated(failure, malformed, Kinds(lib, done))
      decreases |rest|
    {
      var line, after, stop := ReadBytes(rest, end);
      failure, malformed := Note(lib, n, line, failure, malformed, Kinds(lib, done));
      ghost var part := if stop.Some? then line else line[..|line| - 1];
      assert Accumulated(failure, malformed, Kinds(lib, done + [part])) by {
        if stop.None? { SameKind(lib, line); }
        KindsMore(lib, done, part);
      }
      if stop.Some? {
        SplitWhole(rest, '\n');
        assert lines == done + [part];
        if stop.value.ReadError? && malformed == None { malformed := Some(ReadingFailed(stop.value.why)); }
        return if failure.Some? then failure else malformed;
      }
      SplitLine(done, rest, line, after);
      done := done + [part];
      rest, n := after, n + 1;
    }
  }

  // What the verdict means

  /** An error exactly when some line fails, some line is malformed, or reading
      fails; a read error is reported only when no line was at fault. */
  lemma ErrorExactlyWhen(kinds: seq<Option<Kind>>, end: End)
    ensures Verdict(kinds, end).Some? <==>
              end.ReadError? || exists k :: 0 <= k < |kinds| && (Fails(kinds[k]) || IsMalformed(kinds[k]))
    ensures Verdict(kinds, end).Some? && Verdict(kinds, end).value.ReadingFailed? <==>
              end.ReadError? && forall k :: 0 <= k < |kinds| ==> !Fails(kinds[k]) && !IsMalformed(kinds[k])
  {
    var f, m := First(Fails, kinds), First(IsMalformed, kinds);
    assert f < |kinds| ==> Fails(kinds[f]);
    assert m < |kinds| ==> IsMalformed(kinds[m]);
    assert forall k :: 0 <= k < f ==> !Fails(kinds[k]);
    assert forall k :: 0 <= k < m ==> !IsMalformed(kinds[k]);
  }

  /** The first failure is the error, whatever malformed lines come before or
      after it and however the stream ends. */
  lemma FirstFailureWins(kinds: seq<Option<Kind>>, end: End, k: nat)
    requires k < |kinds| && Fails(kinds[k]) && forall j :: 0 <= j < k ==> !Fails(kinds[j])
    ensures Verdict(kinds, end) == Some(BuildFailed(kinds[k].value.message))
  {
    assert First(Fails, kinds) == k;
  }

  /** Without a failure, the first malformed line is the error, by its number. */
  lemma FirstMalformedReported(kinds: seq<Option<Kind>>, end: End, k: nat)
    requires forall j :: 0 <= j < |kinds| ==> !Fails(kinds[j])
    requires k < |kinds| && IsMalformed(kinds[k]) && forall j :: 0 <= j < k ==> !IsMalformed(kinds[j])
    ensures Verdict(kinds, end) == Some(LineMalformed(k + 1, kinds[k].value.why))
  {
    assert First(Fails, kinds) == |kinds|;
    assert First(IsMalformed, kinds) == k;
  }

  // What does not change it

  /** What the non-blank lines say, in order. */
  function Said(lib: Decoder, stream: string): seq<Kind> { Collect(Kinds(lib, Split(stream, '\n'))) }

  /** An error without its line number. */
  function Unnumbered(e: Option<Error>): Option<Error>
  {
    if e.Some? && e.value.LineMalformed? then Some(e.value.(number := 0)) else e
  }

  function FailureIn(kinds: seq<Kind>): Option<Error>
  {
    if kinds == [] then None
    else
      var before, last := FailureIn(kinds[..|kinds| - 1]), kinds[|kinds| - 1];
      if before.Some? then before else if last.Failure? then Some(BuildFailed(last.message)) else None
  }

  function MalformedIn(kinds: seq<Kind>): Option<Error>
  {
    if kinds == [] then None
    else
      var before, last := MalformedIn(kinds[..|kinds| - 1]), kinds[|kinds| - 1];
      if before.Some? then before else if last.Malformed? then Some(LineMalformed(0, last.why)) else None
  }

  lemma {:induction false} BlankLinesIgnored(kinds: seq<Option<Kind>>)
    ensures FirstFailure(kinds) == FailureIn(Collect(kinds))
    ensures Unnumbered(FirstMalformed(kinds)) == MalformedIn(Collect(kinds))
  {
    if kinds != [] {
      var before, last := kinds[..|kinds| - 1], kinds[|kinds| - 1];
      BlankLinesIgnored(before);
      VerdictMore(before, last);
      assert kinds == before + [last];
      CollectMore(before, last);
      assert last.None? ==> Collect(kinds) == Collect(before);
      assert last.Some? ==> Collect(kinds)[..|Collect(before)|] == Collect(before);
    }
  }

  /** Two streams whose non-blank lines say the same get the same error, up to
      the line number of a malformed line. */
  lemma OnlyNonBlankLinesMatter(lib: Decoder, a: string, b: string, end: End)
    requires Said(lib, a) == Said(lib, b)
    ensures Unnumbered(Result(lib, a, end)) == Unnumbered(Result(lib, b, end))
  {
    BlankLinesIgnored(Kinds(lib, Split(a, '\n')));
    BlankLinesIgnored(Kinds(lib, Split(b, '\n')));
  }

  predicate Blank(line: string) { forall k :: 0 <= k < |line| ==> Space(line[k]) }

  lemma {:induction false} BlankTrims(line: string)
    requires Blank(line)
    ensures Trim(line) == ""
  {
    if line != "" { BlankTrims(line[..|line| - 1]); }
  }

  lemma KindsTogether(lib: Decoder, a: seq<string>, b: seq<string>)
    ensures Collect(Kinds(lib, a + b)) == Collect(Kinds(lib, a)) + Collect(Kinds(lib, b))
  {
    assert Kinds(lib, a + b) == Kinds(lib, a) + Kinds(lib, b);
    CollectAppend(Kinds(lib, a), Kinds(lib, b));
  }

  lemma SaidTogether(lib: Decoder, a: string, b: string)
    ensures Said(lib, a + ['\n'] + b) == Said(lib, a) + Said(lib, b)
  {
    SplitAppend(a, b, '\n');
    KindsTogether(lib, Split(a, '\n'), Split(b, '\n'));
  }

  lemma BlankSaysNothing(lib: Decoder, blank: string)
    requires Blank(blank) && '\n' !in blank
    ensures Said(lib, blank) == []
  {
    SplitWhole(blank, '\n');
    BlankTrims(blank);
    assert Kinds(lib, [blank]) == [None];
    CollectEmpty(Kinds(lib, [blank]));
  }

  /** A blank line between two others never changes whether there is an error
      or which failure it is. */
  lemma BlankLineInserted(lib: Decoder, before: string, blank: string, after: string, end: End)
    requires Blank(blank) && '\n' !in blank
    ensures Unnumbered(Result(lib, before + ['\n'] + (blank + ['\n'] + after), end))
            == Unnumbered(Result(lib, before + ['\n'] + after, end))
  {
    var more := blank + ['\n'] + after;
    assert Said(lib, more) == Said(lib, after) by {
      BlankSaysNothing(lib, blank);
      SaidTogether(lib, blank, after);
    }
    SaidTogether(lib, before, more);
    SaidTogether(lib, before, after);
    OnlyNonBlankLinesMatter(lib, before + ['\n'] + more, before + ['\n'] + after, end);
  }

  /** Nor does one before all the others. */
  lemma BlankFirstLine(lib: Decoder, blank: string, after: string, end: End)
    requires Blank(blank) && '\n' !in blank
    ensures Unnumbered(Result(lib, blank + ['\n'] + after, end)) == Unnumbered(Result(lib, after, end))
  {
    assert Said(lib, blank + ['\n'] + after) == Said(lib, after) by {
      BlankSaysNothing(lib, blank);
      SaidTogether(lib, blank, after);
    }
    OnlyNonBlankLinesMatter(lib, blank + ['\n'] + after, after, end);
  }

  /** Nor does a blank last line, so the final newline may be missing. */
  lemma BlankLastLine(lib: Decoder, before: string, blank: string, end: End)
    requires Blank(blank) && '\n' !in blank
    ensures Unnumbered(Result(lib, before + ['\n'] + blank, end)) == Unnumbered(Result(lib, before, end))
  {
    assert Said(lib, before + ['\n'] + blank) == Said(lib, before) by {
      BlankSaysNothing(lib, blank);
      SaidTogether(lib, before, blank);
    }
    OnlyNonBlankLinesMatter(lib, before + ['\n'] + blank, before, end);
  }

  /** Every newline as a carriage return and a newline. */
  function Crlf(s: string): string
  {
    if s == "" then "" else (if s[0] == '\n' then ['\r', '\n'] else [s[0]]) + Crlf(s[1..])
  }

  /** Each line but the last with a carriage return. */
  function Returned(lines: seq<string>): (r: seq<string>)
    ensures |r| == |lines|
    ensures forall k :: 0 <= k < |lines| ==> r[k] == lines[k] || r[k] == lines[k] + ['\r']
  {
    if |lines| <= 1 then lines else [lines[0] + ['\r']] + Returned(lines[1..])
  }

  lemma ReturnedPrepended(c: char, lines: seq<string>)
    requires lines != []
    ensures Returned(Prepended('\n', lines, '\n')) == [['\r']] + Returned(lines)
    ensures c != '\n' ==> Returned(Prepended(c, lines, '\n')) == Prepended(c, Returned(lines), '\n')
  {
    assert ([""] + lines)[1..] == lines && "" + ['\r'] == ['\r'];
    var more := [[c] + lines[0]] + lines[1..];
    assert more[1..] == lines[1..];
    assert [c] + (lines[0] + ['\r']) == more[0] + ['\r'];
  }

  lemma {:induction false} CrlfSplits(s: string)
    ensures Split(Crlf(s), '\n') == Returned(Split(s, '\n'))
  {
    if s != "" {
      var c, t := s[0], s[1..];
      assert s == [c] + t;
      CrlfSplits(t);
      assert Split(s, '\n') == Prepended(c, Split(t, '\n'), '\n') by { SplitCons(c, t, '\n'); }
      ReturnedPrepended(c, Split(t, '\n'));
      if c == '\n' {
        assert Crlf(s) == ['\r'] + ['\n'] + Crlf(t);
        SplitAt(['\r'], Crlf(t), '\n');
      } else {
        assert Crlf(s) == [c] + Crlf(t);
        assert Split(Crlf(s), '\n') == Prepended(c, Split(Crlf(t), '\n'), '\n') by { SplitCons(c, Crlf(t), '\n'); }
      }
    }
  }

  /** CRLF line ends change nothing, line numbers included. */
  lemma CrlfIsTheSame(lib: Decoder, s: string, end: End)
    ensures Result(lib, Crlf(s), end) == Result(lib, s, end)
  {
    CrlfSplits(s);
    var lines := Split(s, '\n');
    var crlf := Returned(lines);
    forall k | 0 <= k < |lines|
      ensures KindOf(lib, crlf[k]) == KindOf(lib, lines[k])
    {
      if crlf[k] != lines[k] { SameKind(lib, crlf[k]); }
    }
    assert Kinds(lib, crlf) == Kinds(lib, lines);
  }
}
