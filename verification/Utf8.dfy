/** UTF-8 decoding of byte strings, as unicode/utf8 does it (RFC 3629, section 4). */
module Utf8 {

  predicate Within(s: string, k: nat, lo: int, hi: int) { k < |s| && lo <= s[k] as int <= hi }

  predicate Tail(s: string, k: nat) { Within(s, k, 0x80, 0xBF) }

  /** Length of the encoding at the start of s, 0 when there is none. */
  function Width(s: string): (w: nat)
    ensures w <= 4 && w <= |s|
  {
    if Within(s, 0, 0, 0x7F) then 1
    else if Within(s, 0, 0xC2, 0xDF) && Tail(s, 1) then 2
    else if Tail(s, 2) && (   (Within(s, 0, 0xE0, 0xE0) && Within(s, 1, 0xA0, 0xBF))
                           || (Within(s, 0, 0xE1, 0xEC) && Tail(s, 1))
                           || (Within(s, 0, 0xED, 0xED) && Within(s, 1, 0x80, 0x9F))
                           || (Within(s, 0, 0xEE, 0xEF) && Tail(s, 1))) then 3
    else if Tail(s, 2) && Tail(s, 3) && (   (Within(s, 0, 0xF0, 0xF0) && Within(s, 1, 0x90, 0xBF))
                                         || (Within(s, 0, 0xF1, 0xF3) && Tail(s, 1))
                                         || (Within(s, 0, 0xF4, 0xF4) && Within(s, 1, 0x80, 0x8F))) then 4
    else 0
  }

  /** How many bytes of s the next unit takes: one rune, or one stray byte. */
  function UnitLength(s: string): (n: nat)
    requires s != ""
    ensures 0 < n <= |s|
  {
    if Width(s) == 0 then 1 else Width(s)
  }

  /** utf8.ValidString. */
  predicate Valid(s: string)
  {
    s == "" || (Width(s) > 0 && Valid(s[Width(s)..]))
  }

  /** The rune encoded at the start of s. */
  function Rune(s: string): (r: nat)
    requires Width(s) > 0
    ensures r < 0x110000
  {
    var w := Width(s);
    if w == 1 then s[0] as int
    else if w == 2 then (s[0] as int - 0xC0) * 0x40 + (s[1] as int - 0x80)
    else if w == 3 then
      (s[0] as int - 0xE0) * 0x1000 + (s[1] as int - 0x80) * 0x40 + (s[2] as int - 0x80)
    else
      (s[0] as int - 0xF0) * 0x40000 + (s[1] as int - 0x80) * 0x1000 + (s[2] as int - 0x80) * 0x40 + (s[3] as int - 0x80)
  }

  function Encode(r: nat): string
    requires r < 0x110000
  {
    if r < 0x80 then [r as char]
    else if r < 0x800 then [(0xC0 + r / 0x40) as char, (0x80 + r % 0x40) as char]
    else if r < 0x10000 then
      [(0xE0 + r / 0x1000) as char, (0x80 + r / 0x40 % 0x40) as char, (0x80 + r % 0x40) as char]
    else
      [(0xF0 + r / 0x40000) as char, (0x80 + r / 0x1000 % 0x40) as char,
       (0x80 + r / 0x40 % 0x40) as char, (0x80 + r % 0x40) as char]
  }

  lemma ThreeBytes(a: nat, b: nat, c: nat)
    requires b < 0x40 && c < 0x40
    ensures var r := a * 0x1000 + b * 0x40 + c;
            r / 0x1000 == a && r / 0x40 % 0x40 == b && r % 0x40 == c
  {
    var r := a * 0x1000 + b * 0x40 + c;
    assert r / 0x40 == a * 0x40 + b;
  }

  lemma FourBytes(a: nat, b: nat, c: nat, d: nat)
    requires b < 0x40 && c < 0x40 && d < 0x40
    ensures var r := a * 0x40000 + b * 0x1000 + c * 0x40 + d;
            r / 0x40000 == a && r / 0x1000 % 0x40 == b && r / 0x40 % 0x40 == c && r % 0x40 == d
  {
    var r := a * 0x40000 + b * 0x1000 + c * 0x40 + d;
    assert r / 0x40 == a * 0x1000 + b * 0x40 + c;
    assert r / 0x1000 == a * 0x40 + b;
  }

  lemma EncodeShort(s: string)
    requires 0 < Width(s) <= 2
    ensures Encode(Rune(s)) == s[..Width(s)]
  {
    if Width(s) == 2 {
      var r := Rune(s);
      assert r / 0x40 == s[0] as int - 0xC0 && r % 0x40 == s[1] as int - 0x80;
    }
  }

  lemma EncodeThree(s: string)
    requires Width(s) == 3
    ensures Encode(Rune(s)) == s[..3]
  {
    ThreeBytes(s[0] as int - 0xE0, s[1] as int - 0x80, s[2] as int - 0x80);
  }

  lemma EncodeFour(s: string)
    requires Width(s) == 4
    ensures Encode(Rune(s)) == s[..4]
  {
    FourBytes(s[0] as int - 0xF0, s[1] as int - 0x80, s[2] as int - 0x80, s[3] as int - 0x80);
  }

  /** Encoding the rune read from s gives back the bytes read. */
  lemma EncodeRune(s: string)
    requires Width(s) > 0
    ensures Encode(Rune(s)) == s[..Width(s)]
  {
    if Width(s) == 3 {
      EncodeThree(s);
    } else if Width(s) == 4 {
      EncodeFour(s);
    } else {
      EncodeShort(s);
    }
  }

  lemma {:induction false} AsciiIsValid(s: string)
    requires forall k :: 0 <= k < |s| ==> s[k] as int < 0x80
    ensures Valid(s)
  {
    if s != "" { AsciiIsValid(s[1..]); }
  }

  lemma MultiByte(s: string)
    requires s != "" && s[0] as int >= 0x80 && Width(s) > 0
    ensures forall k :: 0 <= k < Width(s) ==> s[k] as int >= 0x80
  {
  }
}
