/** JSON strings and arrays of strings: the encoder the Dockerfile generator
    uses and a reader written from RFC 8259, sections 5 and 7. */
module Json {
  import opened Text
  import opened Utf8

  // Encoding

  function HexDigit(d: nat): char
    requires d < 16
  {
    if d < 10 then '0' + d as char else 'a' + (d - 10) as char
  }

  /** encoding/json with HTML escaping off, for one byte. */
  function EncodeChar(c: char): string
  {
    if c == '"' || c == '\\' then ['\\', c]
    else if c >= ' ' then [c]
    else if c == '\n' then "\\n"
    else if c == '\r' then "\\r"
    else if c == '\t' then "\\t"
    else if c as int == 8 then "\\b"
    else if c as int == 12 then "\\f"
    else ['\\', 'u', '0', '0', HexDigit(c as int / 16), HexDigit(c as int % 16)]
  }

  /** encoding/json for the next rune or stray byte: an invalid byte becomes
      U+FFFD, the two line separators are escaped, other runes stay. */
  function EncodeUnit(s: string): string
    requires s != ""
  {
    if s[0] as int < 0x80 then EncodeChar(s[0])
    else if Width(s) == 0 then (if s[0] as int < 0x100 then "\\ufffd" else [s[0]])
    else if Rune(s) == 0x2028 then "\\u2028"
    else if Rune(s) == 0x2029 then "\\u2029"
    else s[..Width(s)]
  }

  function EncodeChars(s: string): string
    decreases |s|
  {
    if s == "" then "" else EncodeUnit(s) + EncodeChars(s[UnitLength(s)..])
  }

  /** The rune or stray byte a reader gets for it. */
  function MendedUnit(s: string): string
    requires s != ""
  {
    if Width(s) == 0 && s[0] as int < 0x100 then Encode(0xFFFD) else s[..UnitLength(s)]
  }

  /** s with every invalid byte replaced by U+FFFD. */
  function Mended(s: string): string
    decreases |s|
  {
    if s == "" then "" else MendedUnit(s) + Mended(s[UnitLength(s)..])
  }

  function JsonString(s: string): string { "\"" + EncodeChars(s) + "\"" }

  /** A non-empty exec-form array: [item, item]. */
  function ItemsText(items: seq<string>): string
    requires items != []
  {
    if |items| == 1 then JsonString(items[0]) else JsonString(items[0]) + ", " + ItemsText(items[1..])
  }

  function ArrayText(items: seq<string>): string
    requires items != []
  {
    "[" + ItemsText(items) + "]"
  }

  // Reading

  function HexValue(c: char): Option<nat>
  {
    if '0' <= c <= '9' then Some(c as int - '0' as int)
    else if 'a' <= c <= 'f' then Some(c as int - 'a' as int + 10)
    else if 'A' <= c <= 'F' then Some(c as int - 'A' as int + 10)
    else None
  }

  /** The character a two-character escape stands for. */
  function SimpleEscape(c: char): Option<char>
  {
    if c == '"' || c == '\\' || c == '/' then Some(c)
    else if c == 'n' then Some('\n')
    else if c == 'r' then Some('\r')
    else if c == 't' then Some('\t')
    else if c == 'b' then Some(8 as char)
    else if c == 'f' then Some(12 as char)
    else None
  }

  /** The UTF-8 text of \uXXXX; surrogates are not read. */
  function UnicodeEscape(s: string): Option<string>
    requires |s| == 4
  {
    var a, b, c, d := HexValue(s[0]), HexValue(s[1]), HexValue(s[2]), HexValue(s[3]);
    if a.None? || b.None? || c.None? || d.None? then None
    else
      var unit := 4096 * a.value + 256 * b.value + 16 * c.value + d.value;
      if 0xD800 <= unit < 0xE000 || unit >= 0x110000 then None else Some(Encode(unit))
  }

  function Before(text: string, r: Option<(string, string)>): (b: Option<(string, string)>)
    ensures b.Some? <==> r.Some?
    ensures r.Some? ==> b.value == (text + r.value.0, r.value.1)
  {
    if r.None? then None else Some((text + r.value.0, r.value.1))
  }

  /** Reads string characters up to the closing quote: the value and what follows. */
  function ReadChars(s: string): (r: Option<(string, string)>)
    ensures r.Some? ==> |r.value.1| < |s|
    decreases |s|
  {
    if s == "" || s[0] < ' ' then None
    else if s[0] == '"' then Some(("", s[1..]))
    else if s[0] != '\\' then Before([s[0]], ReadChars(s[1..]))
    else if |s| >= 6 && s[1] == 'u' then
      var u := UnicodeEscape(s[2..6]);
      if u.None? then None else Before(u.value, ReadChars(s[6..]))
    else if |s| >= 2 && SimpleEscape(s[1]).Some? then Before([SimpleEscape(s[1]).value], ReadChars(s[2..]))
    else None
  }

  predicate Space(c: char) { c == ' ' || c == '\t' || c == '\r' || c == '\n' }

  function SkipSpace(s: string): (r: string)
    ensures |r| <= |s|
  {
    if s != "" && Space(s[0]) then SkipSpace(s[1..]) else s
  }

  /** string *( "," string ) "]" : the strings and what follows the bracket. */
  function ReadItems(s: string): Option<(seq<string>, string)>
    decreases |s|
  {
    var t := SkipSpace(s);
    if t == "" || t[0] != '"' then None
    else
      var item := ReadChars(t[1..]);
      if item.None? then None
      else
        var after := SkipSpace(item.value.1);
        if after == "" then None
        else if after[0] == ']' then Some(([item.value.0], after[1..]))
        else if after[0] == ',' then
          var more := ReadItems(after[1..]);
          if more.None? then None else Some(([item.value.0] + more.value.0, more.value.1))
        else None
  }

  /** A whole text that is one non-empty array of strings. */
  function ReadArray(s: string): Option<seq<string>>
  {
    if s == "" || s[0] != '[' then None
    else
      var r := ReadItems(s[1..]);
      if r.Some? && r.value.1 == "" then Some(r.value.0) else None
  }

  // Round trip

  lemma ControlReads(c: char, tail: string)
    requires c < ' '
    ensures ReadChars(['\\', 'u', '0', '0', HexDigit(c as int / 16), HexDigit(c as int % 16)] + tail) == Before([c], ReadChars(tail))
  {
    var hi, lo := c as int / 16, c as int % 16;
    var text := ['\\', 'u', '0', '0', HexDigit(hi), HexDigit(lo)] + tail;
    assert text[2..6] == ['0', '0', HexDigit(hi), HexDigit(lo)];
    assert HexValue(HexDigit(hi)) == Some(hi) && HexValue(HexDigit(lo)) == Some(lo);
    assert UnicodeEscape(text[2..6]) == Some([c]);
    assert text[6..] == tail;
  }

  lemma EncodedCharReads(c: char, tail: string)
    requires c as int < 0x80
    ensures ReadChars(EncodeChar(c) + tail) == Before([c], ReadChars(tail))
  {
    var text := EncodeChar(c) + tail;
    if c == '"' || c == '\\' {
      assert text[2..] == tail;
    } else if c >= ' ' {
      assert text[1..] == tail;
    } else if c == '\n' || c == '\r' || c == '\t' || c as int == 8 || c as int == 12 {
      assert |EncodeChar(c)| == 2 && text[2..] == tail;
    } else {
      ControlReads(c, tail);
    }
  }

  lemma PlainCharReads(c: char, tail: string)
    requires c >= ' ' && c != '"' && c != '\\'
    ensures ReadChars([c] + tail) == Before([c], ReadChars(tail))
  {
    assert ([c] + tail)[1..] == tail;
  }

  lemma BeforeTwice(a: string, b: string, r: Option<(string, string)>)
    ensures Before(a, Before(b, r)) == Before(a + b, r)
  {
    if r.Some? { assert a + (b + r.value.0) == (a + b) + r.value.0; }
  }

  lemma {:induction false} RawReads(raw: string, tail: string)
    requires forall k :: 0 <= k < |raw| ==> raw[k] as int >= 0x80
    ensures ReadChars(raw + tail) == Before(raw, ReadChars(tail))
  {
    if raw == "" {
      assert raw + tail == tail;
      if ReadChars(tail).Some? { assert raw + ReadChars(tail).value.0 == ReadChars(tail).value.0; }
    } else {
      var c, more := raw[0], raw[1..];
      assert raw == [c] + more && raw + tail == [c] + (more + tail);
      PlainCharReads(c, more + tail);
      RawReads(more, tail);
      BeforeTwice([c], more, ReadChars(tail));
    }
  }

  /** An escaped code unit above ASCII. */
  lemma EscapeReads(hex: string, text: string, tail: string)
    requires |hex| == 4 && UnicodeEscape(hex) == Some(text)
    ensures ReadChars(['\\', 'u'] + hex + tail) == Before(text, ReadChars(tail))
  {
    var all := ['\\', 'u'] + hex + tail;
    assert all[2..6] == hex && all[6..] == tail;
  }

  lemma SeparatorReads(s: string, tail: string)
    requires Width(s) > 0 && (Rune(s) == 0x2028 || Rune(s) == 0x2029)
    ensures ReadChars(EncodeUnit(s) + tail) == Before(s[..Width(s)], ReadChars(tail))
  {
    EncodeRune(s);
    assert s[0] as int >= 0x80;
    if Rune(s) == 0x2028 {
      assert UnicodeEscape("2028") == Some(Encode(0x2028));
      EscapeReads("2028", Encode(0x2028), tail);
    } else {
      assert UnicodeEscape("2029") == Some(Encode(0x2029));
      EscapeReads("2029", Encode(0x2029), tail);
    }
  }

  lemma StrayReads(s: string, tail: string)
    requires s != "" && Width(s) == 0
    ensures ReadChars(EncodeUnit(s) + tail) == Before(MendedUnit(s), ReadChars(tail))
  {
    if s[0] as int < 0x100 {
      assert UnicodeEscape("fffd") == Some(Encode(0xFFFD));
      EscapeReads("fffd", Encode(0xFFFD), tail);
    } else {
      PlainCharReads(s[0], tail);
      assert s[..1] == [s[0]];
    }
  }

  lemma UnitReads(s: string, tail: string)
    requires s != ""
    ensures ReadChars(EncodeUnit(s) + tail) == Before(MendedUnit(s), ReadChars(tail))
  {
    if s[0] as int < 0x80 {
      EncodedCharReads(s[0], tail);
      assert s[..1] == [s[0]];
    } else if Width(s) == 0 {
      StrayReads(s, tail);
    } else if Rune(s) == 0x2028 || Rune(s) == 0x2029 {
      SeparatorReads(s, tail);
    } else {
      MultiByte(s);
      RawReads(s[..Width(s)], tail);
    }
  }

  /** Reading an encoded string gives the string with invalid bytes replaced. */
  lemma {:induction false} EncodedReads(s: string, rest: string)
    ensures ReadChars(EncodeChars(s) + "\"" + rest) == Some((Mended(s), rest))
    decreases |s|
  {
    if s == "" {
      assert EncodeChars(s) + "\"" + rest == ['"'] + rest;
    } else {
      var more := s[UnitLength(s)..];
      EncodedReads(more, rest);
      var tail := EncodeChars(more) + "\"" + rest;
      assert EncodeChars(s) + "\"" + rest == EncodeUnit(s) + tail;
      UnitReads(s, tail);
    }
  }

  lemma {:induction false} MendedGrows(s: string)
    requires forall k :: 0 <= k < |s| ==> s[k] as int < 0x100
    ensures |Mended(s)| >= |s| && (|Mended(s)| == |s| ==> Valid(s))
    ensures Valid(s) ==> Mended(s) == s
    decreases |s|
  {
    if s != "" {
      var n := UnitLength(s);
      MendedGrows(s[n..]);
      assert s == s[..n] + s[n..];
    }
  }

  /** A byte string survives exactly when it is valid UTF-8. */
  lemma MendedExactlyWhen(s: string)
    requires forall k :: 0 <= k < |s| ==> s[k] as int < 0x100
    ensures Mended(s) == s <==> Valid(s)
  {
    MendedGrows(s);
  }

  /** Valid text survives as it is. */
  lemma {:induction false} MendedValid(s: string)
    requires Valid(s)
    ensures Mended(s) == s
    decreases |s|
  {
    if s != "" {
      MendedValid(s[Width(s)..]);
      assert s == s[..Width(s)] + s[Width(s)..];
    }
  }

  function MendedAll(items: seq<string>): (r: seq<string>)
    ensures |r| == |items|
  {
    seq(|items|, i requires 0 <= i < |items| => Mended(items[i]))
  }

  /** One item and what follows it. */
  lemma ItemReads(item: string, tail: string)
    requires tail != "" && (tail[0] == ']' || tail[0] == ',')
    ensures ReadItems(JsonString(item) + tail) ==
              if tail[0] == ']' then Some(([Mended(item)], tail[1..]))
              else var more := ReadItems(tail[1..]);
                   if more.None? then None else Some(([Mended(item)] + more.value.0, more.value.1))
  {
    var text := JsonString(item) + tail;
    assert text[1..] == EncodeChars(item) + "\"" + tail;
    EncodedReads(item, tail);
    assert SkipSpace(text) == text && SkipSpace(tail) == tail;
  }

  lemma SpaceSkipped(s: string)
    ensures ReadItems([' '] + s) == ReadItems(s)
  {
    assert ([' '] + s)[1..] == s;
    assert SkipSpace([' '] + s) == SkipSpace(s);
  }

  lemma ItemsTextMore(item: string, items: seq<string>, rest: string)
    requires items != []
    ensures ItemsText([item] + items) + "]" + rest == JsonString(item) + ([','] + ([' '] + (ItemsText(items) + "]" + rest)))
  {
    assert ([item] + items)[1..] == items;
  }

  lemma MoreItemsRead(item: string, items: seq<string>, rest: string, read: seq<string>)
    requires items != [] && ReadItems(ItemsText(items) + "]" + rest) == Some((read, rest))
    ensures ReadItems(ItemsText([item] + items) + "]" + rest) == Some(([Mended(item)] + read, rest))
  {
    var more := ItemsText(items) + "]" + rest;
    var tail := [','] + ([' '] + more);
    assert tail[0] == ',' && tail[1..] == [' '] + more;
    ItemsTextMore(item, items, rest);
    SpaceSkipped(more);
    ItemReads(item, tail);
  }

  lemma LastItemRead(item: string, rest: string)
    ensures ReadItems(ItemsText([item]) + "]" + rest) == Some(([Mended(item)], rest))
  {
    var tail := [']'] + rest;
    assert tail[0] == ']' && tail[1..] == rest;
    assert ItemsText([item]) + "]" + rest == JsonString(item) + tail;
    ItemReads(item, tail);
  }

  lemma MendedMore(item: string, items: seq<string>)
    ensures MendedAll([item] + items) == [Mended(item)] + MendedAll(items)
  {
  }

  lemma {:induction false} ItemsRead(items: seq<string>, rest: string)
    requires items != []
    ensures ReadItems(ItemsText(items) + "]" + rest) == Some((MendedAll(items), rest))
  {
    var item, more := items[0], items[1..];
    assert items == [item] + more;
    MendedMore(item, more);
    if more == [] {
      LastItemRead(item, rest);
      assert items == [item] && MendedAll(items) == [Mended(item)];
    } else {
      ItemsRead(more, rest);
      MoreItemsRead(item, more, rest, MendedAll(more));
    }
  }

  /** Whatever bytes the strings hold, reading the array back gives exactly the
      strings with every invalid byte replaced... */
  lemma ArrayRoundTrip(items: seq<string>)
    requires items != []
    ensures ReadArray(ArrayText(items)) == Some(MendedAll(items))
  {
    ItemsRead(items, "");
    assert ArrayText(items)[1..] == ItemsText(items) + "]" + "";
  }

  /** ... so the strings themselves exactly when they are valid UTF-8. */
  lemma ArrayRoundTripExactlyWhen(items: seq<string>)
    requires items != []
    requires forall i, k :: 0 <= i < |items| && 0 <= k < |items[i]| ==> items[i][k] as int < 0x100
    ensures ReadArray(ArrayText(items)) == Some(items) <==> forall i :: 0 <= i < |items| ==> Valid(items[i])
  {
    ArrayRoundTrip(items);
    forall i | 0 <= i < |items| ensures Mended(items[i]) == items[i] <==> Valid(items[i]) { MendedExactlyWhen(items[i]); }
    assert MendedAll(items) == items <==> forall i :: 0 <= i < |items| ==> Mended(items[i]) == items[i];
  }

  lemma ValidArrayReads(items: seq<string>)
    requires items != [] && forall i :: 0 <= i < |items| ==> Valid(items[i])
    ensures ReadArray(ArrayText(items)) == Some(items)
  {
    ArrayRoundTrip(items);
    forall i | 0 <= i < |items| ensures Mended(items[i]) == items[i] { MendedValid(items[i]); }
    assert MendedAll(items) == items;
  }

  ghost predicate NoControl(s: string) { forall k :: 0 <= k < |s| ==> s[k] >= ' ' }

  lemma UnitHasNoControl(s: string)
    requires s != ""
    ensures NoControl(EncodeUnit(s))
  {
    if s[0] as int >= 0x80 && Width(s) > 0 { MultiByte(s); }
  }

  lemma {:induction false} EncodedHasNoControl(s: string)
    ensures NoControl(EncodeChars(s))
    decreases |s|
  {
    if s != "" {
      UnitHasNoControl(s);
      EncodedHasNoControl(s[UnitLength(s)..]);
    }
  }

  /** Nothing inside an array can end the line it stands on. */
  lemma {:induction false} ArrayHasNoControl(items: seq<string>)
    requires items != []
    ensures NoControl(ItemsText(items)) && NoControl(ArrayText(items))
  {
    EncodedHasNoControl(items[0]);
    if |items| > 1 { ArrayHasNoControl(items[1..]); }
  }
}
