/** fmt's %q for strings (strconv.Quote) and reading it back. */
module Quote {
  import opened Text
  import opened Utf8
  import opened Json

  /** n lower-case hexadecimal digits. */
  function HexText(v: nat, n: nat): (t: string)
    ensures |t| == n
  {
    if n == 0 then "" else HexText(v / 16, n - 1) + [HexDigit(v % 16)]
  }

  function HexNumber(t: string): nat
  {
    if t == "" then 0
    else
      var d := HexValue(t[|t| - 1]);
      16 * HexNumber(t[..|t| - 1]) + if d.Some? then d.value else 0
  }

  function Power16(n: nat): nat { if n == 0 then 1 else 16 * Power16(n - 1) }

  lemma {:induction false} HexReads(v: nat, n: nat)
    requires v < Power16(n)
    ensures HexNumber(HexText(v, n)) == v
    ensures forall k :: 0 <= k < n ==> HexText(v, n)[k] != '"' && HexText(v, n)[k] != '\\'
  {
    if n > 0 {
      HexReads(v / 16, n - 1);
      var t := HexText(v, n);
      assert t[..n - 1] == HexText(v / 16, n - 1);
      assert HexValue(HexDigit(v % 16)) == Some(v % 16);
    }
  }

  /** The letter of a two-character escape for a control character. */
  function Letter(c: char): Option<char>
  {
    if c as int == 7 then Some('a')
    else if c as int == 8 then Some('b')
    else if c as int == 12 then Some('f')
    else if c == '\n' then Some('n')
    else if c == '\r' then Some('r')
    else if c == '\t' then Some('t')
    else if c as int == 11 then Some('v')
    else None
  }

  function Unlettered(l: char): Option<char>
  {
    if l == 'a' then Some(7 as char)
    else if l == 'b' then Some(8 as char)
    else if l == 'f' then Some(12 as char)
    else if l == 'n' then Some('\n')
    else if l == 'r' then Some('\r')
    else if l == 't' then Some('\t')
    else if l == 'v' then Some(11 as char)
    else if l == '"' || l == '\\' then Some(l)
    else None
  }

  /** The text for one ASCII byte. */
  function Ascii(c: char): string
    requires c as int < 0x80
  {
    if c == '"' || c == '\\' then ['\\', c]
    else if 0x20 <= c as int < 0x7F then [c]
    else if Letter(c).Some? then ['\\', Letter(c).value]
    else ['\\', 'x'] + HexText(c as int, 2)
  }

  /** The text for the next unit. printable says which runes above ASCII are printable. */
  function Unit(printable: nat -> bool, s: string): string
    requires s != ""
  {
    if s[0] as int < 0x80 then Ascii(s[0])
    else if Width(s) == 0 then (if s[0] as int < 0x100 then ['\\', 'x'] + HexText(s[0] as int, 2) else [s[0]])
    else if printable(Rune(s)) then s[..Width(s)]
    else if Rune(s) < 0x10000 then ['\\', 'u'] + HexText(Rune(s), 4)
    else ['\\', 'U'] + HexText(Rune(s), 8)
  }

  function Body(printable: nat -> bool, s: string): string
    decreases |s|
  {
    if s == "" then "" else Unit(printable, s) + Body(printable, s[UnitLength(s)..])
  }

  /** %q */
  function Quoted(printable: nat -> bool, s: string): string { ['"'] + Body(printable, s) + ['"'] }

  // Reading back

  function Rune8(v: nat): string { if v < 0x110000 then Encode(v) else "" }

  function Unquote(t: string): string
    decreases |t|
  {
    if t == "" then ""
    else if t[0] != '\\' then [t[0]] + Unquote(t[1..])
    else if |t| >= 4 && t[1] == 'x' then [(HexNumber(t[2..4]) % 256) as char] + Unquote(t[4..])
    else if |t| >= 6 && t[1] == 'u' then Rune8(HexNumber(t[2..6])) + Unquote(t[6..])
    else if |t| >= 10 && t[1] == 'U' then Rune8(HexNumber(t[2..10])) + Unquote(t[10..])
    else if |t| >= 2 && Unlettered(t[1]).Some? then [Unlettered(t[1]).value] + Unquote(t[2..])
    else ""
  }

  lemma PlainChar(c: char, rest: string)
    requires c != '\\'
    ensures Unquote([c] + rest) == [c] + Unquote(rest)
  {
    assert ([c] + rest)[1..] == rest;
  }

  lemma {:induction false} PlainPasses(raw: string, rest: string)
    requires '\\' !in raw
    ensures Unquote(raw + rest) == raw + Unquote(rest)
  {
    if raw == "" {
      assert raw + rest == rest;
    } else {
      var c, more := raw[0], raw[1..];
      PlainPasses(more, rest);
      assert raw == [c] + more;
      assert raw + rest == [c] + (more + rest);
      PlainChar(c, more + rest);
      assert [c] + (more + Unquote(rest)) == raw + Unquote(rest);
    }
  }

  lemma Powers()
    ensures Power16(2) == 0x100 && Power16(4) == 0x10000 && Power16(8) == 0x1_0000_0000
  {
    assert Power16(2) == 16 * Power16(1) && Power16(3) == 16 * Power16(2) && Power16(4) == 16 * Power16(3);
    assert Power16(5) == 16 * Power16(4) && Power16(6) == 16 * Power16(5) && Power16(7) == 16 * Power16(6) && Power16(8) == 16 * Power16(7);
  }

  lemma ByteReads(v: nat, rest: string)
    requires v < 0x100
    ensures Unquote(['\\', 'x'] + HexText(v, 2) + rest) == [v as char] + Unquote(rest)
  {
    var t := ['\\', 'x'] + HexText(v, 2) + rest;
    Powers();
    HexReads(v, 2);
    assert t[2..4] == HexText(v, 2) && t[4..] == rest;
  }

  lemma ShortRuneReads(v: nat, rest: string)
    requires v < 0x10000
    ensures Unquote(['\\', 'u'] + HexText(v, 4) + rest) == Encode(v) + Unquote(rest)
  {
    var t := ['\\', 'u'] + HexText(v, 4) + rest;
    Powers();
    HexReads(v, 4);
    assert t[2..6] == HexText(v, 4) && t[6..] == rest;
  }

  lemma LongRuneReads(v: nat, rest: string)
    requires v < 0x110000
    ensures Unquote(['\\', 'U'] + HexText(v, 8) + rest) == Encode(v) + Unquote(rest)
  {
    var t := ['\\', 'U'] + HexText(v, 8) + rest;
    Powers();
    HexReads(v, 8);
    assert t[2..10] == HexText(v, 8) && t[10..] == rest;
  }

  lemma LetterReads(c: char, l: char, rest: string)
    requires Unlettered(l) == Some(c)
    ensures Unquote(['\\', l] + rest) == [c] + Unquote(rest)
  {
    var t := ['\\', l] + rest;
    assert t[2..] == rest;
  }

  lemma AsciiReads(c: char, rest: string)
    requires c as int < 0x80
    ensures Unquote(Ascii(c) + rest) == [c] + Unquote(rest)
  {
    if c == '"' || c == '\\' {
      LetterReads(c, c, rest);
    } else if 0x20 <= c as int < 0x7F {
      PlainPasses([c], rest);
    } else if Letter(c).Some? {
      LetterReads(c, Letter(c).value, rest);
    } else {
      ByteReads(c as int, rest);
    }
  }

  lemma UnitReads(printable: nat -> bool, s: string, rest: string)
    requires s != ""
    ensures Unquote(Unit(printable, s) + rest) == s[..UnitLength(s)] + Unquote(rest)
  {
    if s[0] as int < 0x80 {
      AsciiReads(s[0], rest);
    } else if Width(s) == 0 {
      if s[0] as int < 0x100 { ByteReads(s[0] as int, rest); } else { PlainPasses([s[0]], rest); }
    } else if printable(Rune(s)) {
      MultiByte(s);
      PlainPasses(s[..Width(s)], rest);
    } else {
      EncodeRune(s);
      if Rune(s) < 0x10000 { ShortRuneReads(Rune(s), rest); } else { LongRuneReads(Rune(s), rest); }
    }
  }

  lemma UnitAndRest(printable: nat -> bool, s: string, tail: string)
    requires s != "" && Unquote(tail) == s[UnitLength(s)..]
    ensures Unquote(Unit(printable, s) + tail) == s
  {
    UnitReads(printable, s, tail);
    assert s == s[..UnitLength(s)] + s[UnitLength(s)..];
  }

  /** Reading a quoted body back gives the string, for every byte string. */
  lemma {:induction false} BodyReads(printable: nat -> bool, s: string)
    ensures Unquote(Body(printable, s)) == s
    decreases |s|
  {
    if s != "" {
      var rest := s[UnitLength(s)..];
      BodyReads(printable, rest);
      UnitAndRest(printable, s, Body(printable, rest));
    }
  }

  lemma QuotedInjective(printable: nat -> bool, a: string, b: string)
    requires Quoted(printable, a) == Quoted(printable, b)
    ensures a == b
  {
    var x, y := Body(printable, a), Body(printable, b);
    assert Quoted(printable, a)[1..|x| + 1] == x && Quoted(printable, b)[1..|x| + 1] == y;
    BodyReads(printable, a);
    BodyReads(printable, b);
  }

  // Where a quoted string starts

  /** Every quote inside stands right after a backslash. */
  ghost predicate QuotesEscaped(t: string) {
    forall k :: 0 <= k < |t| && t[k] == '"' ==> k > 0 && t[k - 1] == '\\'
  }

  lemma HexEscapes(l: char, v: nat, n: nat)
    requires v < Power16(n) && l != '"'
    ensures QuotesEscaped(['\\', l] + HexText(v, n))
  {
    HexReads(v, n);
  }

  lemma AsciiEscapes(c: char)
    requires c as int < 0x80
    ensures QuotesEscaped(Ascii(c))
  {
    Powers();
    HexEscapes('x', c as int, 2);
  }

  lemma RuneEscapes(v: nat)
    requires v < 0x110000
    ensures v < 0x10000 ==> QuotesEscaped(['\\', 'u'] + HexText(v, 4))
    ensures QuotesEscaped(['\\', 'U'] + HexText(v, 8))
  {
    Powers();
    if v < 0x10000 { HexEscapes('u', v, 4); }
    HexEscapes('U', v, 8);
  }

  lemma UnitEscapes(printable: nat -> bool, s: string)
    requires s != ""
    ensures QuotesEscaped(Unit(printable, s))
  {
    if s[0] as int < 0x80 {
      AsciiEscapes(s[0]);
    } else if Width(s) > 0 {
      MultiByte(s);
      RuneEscapes(Rune(s));
    } else if s[0] as int < 0x100 {
      Powers();
      HexEscapes('x', s[0] as int, 2);
    }
  }

  lemma {:induction false} BodyEscapes(printable: nat -> bool, s: string)
    ensures QuotesEscaped(Body(printable, s))
    decreases |s|
  {
    if s != "" {
      UnitEscapes(printable, s);
      BodyEscapes(printable, s[UnitLength(s)..]);
    }
  }

  lemma LaterStart(printable: nat -> bool, x: string, a: string, y: string, b: string)
    requires |x| < |y| && y[|y| - 1] == ' '
    ensures x + Quoted(printable, a) != y + Quoted(printable, b)
  {
    var t, q := x + Quoted(printable, a), Quoted(printable, a);
    BodyEscapes(printable, a);
    if t == y + Quoted(printable, b) {
      var k := |y| - |x|;
      assert t[|y|] == '"' && t[|y| - 1] == ' ';
      assert q[k] == '"' && q[k - 1] == ' ';
      assert |q| - k == |Quoted(printable, b)| >= 2;
      assert Body(printable, a)[k - 1] == '"';
    }
  }

  /** A quoted string at the end of a text that has a space before it starts at
      only one place. */
  lemma QuotedAtEnd(printable: nat -> bool, x: string, a: string, y: string, b: string)
    requires x != "" && x[|x| - 1] == ' ' && y != "" && y[|y| - 1] == ' '
    requires x + Quoted(printable, a) == y + Quoted(printable, b)
    ensures x == y && a == b
  {
    if |x| < |y| {
      LaterStart(printable, x, a, y, b);
    } else if |y| < |x| {
      LaterStart(printable, y, b, x, a);
    } else {
      var t := x + Quoted(printable, a);
      assert x == t[..|x|] == y && Quoted(printable, a) == t[|x|..] == Quoted(printable, b);
      QuotedInjective(printable, a, b);
    }
  }
}
