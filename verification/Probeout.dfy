/** The probe's line format: a byte-exact parser and printer. */
module Probeout {
  import opened Text

  datatype Why = EmptyLine | NoSeparator | InvalidName(name: string) | NoDetail | ControlCharacter | BadStatus

  /** A parsed or constructed line. A malformed one has err set and keeps its
      text in raw; its other fields mean nothing. */
  datatype Line = Line(name: string, ok: bool, detail: string, raw: string, err: Option<Why>)

  predicate Malformed(l: Line) { l.err.Some? }

  function Bad(raw: string, why: Why): Line { Line("", false, "", raw, Some(why)) }

  function Good(name: string, ok: bool, detail: string): Line { Line(name, ok, detail, "", None) }

  predicate Control(c: char) { c < ' ' || c as int == 0x7f }

  predicate ValidDetail(s: string) { forall k :: 0 <= k < |s| ==> !Control(s[k]) }

  predicate NameStart(c: char) { 'a' <= c <= 'z' || '0' <= c <= '9' }

  predicate NameChar(c: char) { NameStart(c) || c == '.' || c == '_' || c == '-' }

  predicate ValidName(s: string) {
    s != "" && NameStart(s[0]) && forall k :: 0 <= k < |s| ==> NameChar(s[k])
  }

  // Sanitize

  function Blanked(c: char): char { if Control(c) then ' ' else c }

  function Sanitized(s: string): (r: string)
    ensures |r| == |s|
  {
    seq(|s|, i requires 0 <= i < |s| => Blanked(s[i]))
  }

  /** Sanitize: a copy of the bytes, control characters overwritten in place. */
  method Sanitize(s: string) returns (r: string)
    ensures r == Sanitized(s)
  {
    if ValidDetail(s) {
      assert Sanitized(s) == s;
      return s;
    }
    var b := new char[|s|](i requires 0 <= i < |s| => s[i]);
    for i := 0 to |s|
      invariant forall k :: 0 <= k < i ==> b[k] == Blanked(s[k])
      invariant forall k :: i <= k < |s| ==> b[k] == s[k]
    {
      if Control(b[i]) { b[i] := ' '; }
    }
    assert b[..] == Sanitized(s);
    return b[..];
  }

  /** Sanitizing makes any text a detail and leaves a detail alone. */
  lemma SanitizedIsDetail(s: string)
    ensures ValidDetail(Sanitized(s))
    ensures ValidDetail(s) <==> Sanitized(s) == s
    ensures forall k :: 0 <= k < |s| ==> Sanitized(s)[k] == s[k] || (Control(s[k]) && Sanitized(s)[k] == ' ')
  {
    if Sanitized(s) == s {
      forall k | 0 <= k < |s| ensures !Control(s[k]) { assert Sanitized(s)[k] == Blanked(s[k]); }
    }
    if ValidDetail(s) { assert Sanitized(s) == s; }
  }

  function OK(name: string, detail: string): Line { Good(name, true, Sanitized(detail)) }

  function Denied(name: string, error: string): Line { Good(name, false, Sanitized(error)) }

  // One line

  const SEPARATOR := ": "
  const OK_WORD := "OK"
  const OK_SPACE := "OK "
  const DENIED_OPEN := "DENIED ("

  /** The part after the separator. */
  function StatusText(ok: bool, detail: string): string {
    if !ok then DENIED_OPEN + detail + ")"
    else if detail == "" then OK_WORD
    else OK_SPACE + detail
  }

  /** The canonical text of a line, without a newline. */
  function String(l: Line): string {
    if l.err.Some? then l.raw else l.name + SEPARATOR + StatusText(l.ok, l.detail)
  }

  /** What a status says: OK or DENIED with its detail, or why it is neither. */
  datatype Status = Status(ok: bool, detail: string) | NotStatus(why: Why)

  function Detailed(ok: bool, d: string): Status {
    if ValidDetail(d) then Status(ok, d) else NotStatus(ControlCharacter)
  }

  function ReadStatus(rest: string): Status {
    if rest == OK_WORD then Status(true, "")
    else if HasPrefix(rest, OK_SPACE) then
      if rest[|OK_SPACE|..] == "" then NotStatus(NoDetail) else Detailed(true, rest[|OK_SPACE|..])
    else if HasPrefix(rest, DENIED_OPEN) && HasSuffix(rest, ")") then
      assert rest[|DENIED_OPEN| - 1] == '(' && rest[|rest| - 1] == ')';
      Detailed(false, rest[|DENIED_OPEN|..|rest| - 1])
    else NotStatus(BadStatus)
  }

  /** parseLine */
  function ParseLine(raw: string): Line {
    var i := Index(raw, SEPARATOR);
    if raw == "" then Bad(raw, EmptyLine)
    else if i < 0 then Bad(raw, NoSeparator)
    else if !ValidName(raw[..i]) then Bad(raw, InvalidName(raw[..i]))
    else
      assert |SEPARATOR| == 2;
      var status := ReadStatus(raw[i + 2..]);
      if status.NotStatus? then Bad(raw, status.why) else Good(raw[..i], status.ok, status.detail)
  }

  // Whole output

  function ParseLines(raws: seq<string>): (lines: seq<Line>)
    ensures |lines| == |raws|
  {
    seq(|raws|, i requires 0 <= i < |raws| => ParseLine(raws[i]))
  }

  function TrimNewline(s: string): string { if HasSuffix(s, "\n") then s[..|s| - 1] else s }

  function Parsed(s: string): seq<Line> { if s == "" then [] else ParseLines(Split(TrimNewline(s), '\n')) }

  function Strings(lines: seq<Line>): (texts: seq<string>)
    ensures |texts| == |lines|
  {
    seq(|lines|, i requires 0 <= i < |lines| => String(lines[i]))
  }

  function Formatted(lines: seq<Line>): string { Terminated(Strings(lines)) }

  /** Parse */
  method Parse(s: string) returns (lines: seq<Line>)
    ensures lines == Parsed(s)
  {
    if s == "" { return []; }
    var parts := Split(TrimNewline(s), '\n');
    var a := new Line[|parts|](_ => Good("", false, ""));
    for i := 0 to |parts|
      invariant a[..i] == ParseLines(parts)[..i]
    {
      a[i] := ParseLine(parts[i]);
      assert a[..i + 1] == a[..i] + [a[i]];
      assert ParseLines(parts)[..i + 1] == ParseLines(parts)[..i] + [ParseLine(parts[i])];
    }
    assert a[..] == ParseLines(parts);
    return a[..];
  }

  /** Format */
  method Format(lines: seq<Line>) returns (b: string)
    ensures b == Formatted(lines)
  {
    ghost var texts := Strings(lines);
    b := "";
    for i := 0 to |lines|
      invariant b == Terminated(texts[..i])
    {
      b := b + String(lines[i]) + "\n";
      assert b == Terminated(texts[..i + 1]) by {
        TerminatedMore(texts[..i], texts[i]);
        assert texts[..i + 1] == texts[..i] + [texts[i]];
      }
    }
    assert texts[..|lines|] == texts;
  }

  predicate Named(l: Line, name: string) { !Malformed(l) && l.name == name }

  /** The first well-formed line called name. */
  function Found(lines: seq<Line>, name: string): (r: Option<Line>)
    ensures r.None? <==> forall k :: 0 <= k < |lines| ==> !Named(lines[k], name)
    ensures r.Some? ==> exists k :: 0 <= k < |lines| && lines[k] == r.value && Named(lines[k], name)
                                    && forall j :: 0 <= j < k ==> !Named(lines[j], name)
  {
    if lines == [] then None
    else if Named(lines[0], name) then Some(lines[0])
    else
      var r := Found(lines[1..], name);
      assert forall k :: 1 <= k < |lines| ==> lines[k] == lines[1..][k - 1];
      r
  }

  /** Find */
  method Find(lines: seq<Line>, name: string) returns (line: Line, ok: bool)
    ensures ok <==> Found(lines, name).Some?
    ensures line == if ok then Found(lines, name).value else Good("", false, "")
  {
    for i := 0 to |lines|
      invariant Found(lines, name) == Found(lines[i..], name)
    {
      if !Malformed(lines[i]) && lines[i].name == name { return lines[i], true; }
      assert lines[i..][1..] == lines[i + 1..];
    }
    return Good("", false, ""), false;
  }

  function Bads(lines: seq<Line>): seq<Line> {
    Collect(seq(|lines|, i requires 0 <= i < |lines| => if Malformed(lines[i]) then Some(lines[i]) else None))
  }

  /** Malformed */
  method MalformedLines(lines: seq<Line>) returns (bad: seq<Line>)
    ensures bad == Bads(lines)
  {
    ghost var marks := seq(|lines|, i requires 0 <= i < |lines| => if Malformed(lines[i]) then Some(lines[i]) else None);
    bad := [];
    for i := 0 to |lines|
      invariant bad == Collect(marks[..i])
    {
      assert marks[..i + 1] == marks[..i] + [marks[i]];
      CollectMore(marks[..i], marks[i]);
      if Malformed(lines[i]) { bad := bad + [lines[i]]; }
    }
    assert marks[..|lines|] == marks;
  }

  // Printing what was parsed

  lemma SuffixRest(rest: string, c: char)
    requires HasSuffix(rest, [c])
    ensures rest == rest[..|rest| - 1] + [c]
  {
  }

  lemma Between(rest: string, open: string, close: char)
    requires open < rest && HasSuffix(rest, [close])
    ensures rest == open + rest[|open|..|rest| - 1] + [close]
  {
  }

  lemma StatusPrints(rest: string)
    ensures var status := ReadStatus(rest); status.Status? ==> StatusText(status.ok, status.detail) == rest
  {
    if rest == OK_WORD {
    } else if HasPrefix(rest, OK_SPACE) {
      assert rest == OK_SPACE + rest[|OK_SPACE|..];
    } else if HasPrefix(rest, DENIED_OPEN) && HasSuffix(rest, ")") {
      assert rest[|DENIED_OPEN| - 1] == '(' && rest[|rest| - 1] == ')';
      Between(rest, DENIED_OPEN, ')');
    }
  }

  /** Printing a parsed line gives the line back, byte for byte. */
  lemma StringOfParse(raw: string)
    ensures String(ParseLine(raw)) == raw
  {
    var i := Index(raw, SEPARATOR);
    if raw != "" && i >= 0 {
      var rest := raw[i..];
      assert |SEPARATOR| == 2 && SEPARATOR <= rest;
      assert rest == SEPARATOR + rest[2..] && rest[2..] == raw[i + 2..];
      assert raw == raw[..i] + SEPARATOR + raw[i + 2..];
      StatusPrints(raw[i + 2..]);
    }
  }

  lemma TerminatedParts(parts: seq<string>)
    requires parts != []
    ensures Terminated(parts) == Join(parts, '\n') + "\n"
  {
    if |parts| == 1 {
      assert Terminated(parts[1..]) == "";
    } else {
      TerminatedParts(parts[1..]);
    }
  }

  lemma StringsOfParse(raws: seq<string>)
    ensures Strings(ParseLines(raws)) == raws
  {
    forall k | 0 <= k < |raws|
      ensures Strings(ParseLines(raws))[k] == raws[k]
    {
      StringOfParse(raws[k]);
    }
  }

  /** For all bytes, formatting what was parsed gives the text back, with a
      newline added when a non-empty text lacks its last one. */
  lemma FormatOfParse(s: string)
    ensures Formatted(Parsed(s)) == s + if s != "" && !HasSuffix(s, "\n") then "\n" else ""
  {
    if s != "" {
      var parts := Split(TrimNewline(s), '\n');
      StringsOfParse(parts);
      TerminatedParts(parts);
      if HasSuffix(s, "\n") { SuffixRest(s, '\n'); }
    }
  }

  /** One entry per line, in order, a malformed one with its text. */
  lemma EveryLineKept(s: string)
    requires s != ""
    ensures var raws := Split(TrimNewline(s), '\n');
            |Parsed(s)| == |raws| && forall k :: 0 <= k < |raws| ==>
              String(Parsed(s)[k]) == raws[k] && (Malformed(Parsed(s)[k]) ==> Parsed(s)[k].raw == raws[k])
  {
    var raws := Split(TrimNewline(s), '\n');
    forall k | 0 <= k < |raws|
      ensures String(Parsed(s)[k]) == raws[k]
    {
      StringOfParse(raws[k]);
    }
  }

  // Parsing what was printed

  lemma NameHasNoColon(name: string)
    requires ValidName(name)
    ensures ':' !in name && '\n' !in name
  {
  }

  lemma DetailIsOneLine(d: string)
    requires ValidDetail(d)
    ensures '\n' !in d
  {
  }

  lemma StatusReads(ok: bool, detail: string)
    requires ValidDetail(detail)
    ensures ReadStatus(StatusText(ok, detail)) == Status(ok, detail)
    ensures '\n' !in StatusText(ok, detail)
  {
    DetailIsOneLine(detail);
    var text := StatusText(ok, detail);
    if !ok {
      assert text[0] == 'D' && OK_WORD[0] == 'O' && OK_SPACE[0] == 'O';
      assert text[|DENIED_OPEN|..|text| - 1] == detail;
    } else if detail != "" {
      assert text[|OK_SPACE|..] == detail;
      assert |text| > 2;
    }
  }

  /** The lines the constructors make. */
  predicate WellBuilt(l: Line) {
    l == Good(l.name, l.ok, l.detail) && ValidName(l.name) && ValidDetail(l.detail)
  }

  lemma ConstructorsBuild(name: string, text: string)
    requires ValidName(name)
    ensures WellBuilt(OK(name, text)) && WellBuilt(Denied(name, text))
  {
    SanitizedIsDetail(text);
  }

  lemma NameSeparates(name: string, status: string)
    requires ValidName(name)
    ensures var raw := name + SEPARATOR + status;
            Index(raw, SEPARATOR) == |name| && raw[..|name|] == name && raw[|name| + |SEPARATOR|..] == status
  {
    var raw := name + SEPARATOR + status;
    NameHasNoColon(name);
    IndexAfter(name, SEPARATOR + status, SEPARATOR);
    assert raw == name + (SEPARATOR + status);
  }

  lemma ParseOfString(l: Line)
    requires WellBuilt(l)
    ensures ParseLine(String(l)) == l && '\n' !in String(l)
  {
    var status := StatusText(l.ok, l.detail);
    NameSeparates(l.name, status);
    NameHasNoColon(l.name);
    StatusReads(l.ok, l.detail);
    assert |SEPARATOR| == 2;
  }

  /** Any list the constructors built comes back from its printed form. */
  lemma ParseOfFormat(lines: seq<Line>)
    requires forall k :: 0 <= k < |lines| ==> WellBuilt(lines[k])
    ensures Parsed(Formatted(lines)) == lines
  {
    if lines != [] {
      var texts := Strings(lines);
      forall k | 0 <= k < |lines| ensures ParseLine(texts[k]) == lines[k] && '\n' !in texts[k] { ParseOfString(lines[k]); }
      TerminatedParts(texts);
      var body := Join(texts, '\n');
      assert Formatted(lines)[..|Formatted(lines)| - 1] == body;
      SplitJoin(texts, '\n');
    }
  }

  /** A parsed line is malformed or one the constructors could have built. */
  lemma ParsedIsWellBuilt(raw: string)
    ensures Malformed(ParseLine(raw)) <==> !WellBuilt(ParseLine(raw))
  {
  }
}
