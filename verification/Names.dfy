/** The regular expressions the harness checks names and ids with. */
module Names {
  import opened Text
  import Decimal

  predicate LowerOrDigit(c: char) { 'a' <= c <= 'z' || '0' <= c <= '9' }

  predicate LetterOrDigit(c: char) { LowerOrDigit(c) || 'A' <= c <= 'Z' }

  predicate AllLowerOrDigit(s: string) { forall k :: 0 <= k < |s| ==> LowerOrDigit(s[k]) }

  /** ^[a-z0-9]+(-[a-z0-9]+)*$ : hyphen-separated non-empty parts. */
  predicate Kebab(s: string) {
    var parts := Split(s, '-');
    forall k :: 0 <= k < |parts| ==> parts[k] != "" && AllLowerOrDigit(parts[k])
  }

  /** The largest uid or gid the engine starts a container with. */
  const MAX_ID := 0x7fff_ffff

  predicate ValidId(n: int) { 0 <= n <= MAX_ID }

  predicate Digits(s: string) { s != "" && forall k :: 0 <= k < |s| ==> Decimal.IsDigit(s[k]) }

  /** numericIDRE, strconv.ParseInt and validID together. */
  predicate ValidNumericId(s: string) { Digits(s) && ValidId(Decimal.Value(s)) }

  ghost predicate KebabText(s: string) { forall k :: 0 <= k < |s| ==> LowerOrDigit(s[k]) || s[k] == '-' }

  lemma {:induction false} JoinChars(parts: seq<string>)
    requires forall k :: 0 <= k < |parts| ==> AllLowerOrDigit(parts[k])
    ensures KebabText(Join(parts, '-'))
  {
    if |parts| > 1 {
      JoinChars(parts[1..]);
      var rest := Join(parts[1..], '-');
      assert Join(parts, '-') == (parts[0] + ['-']) + rest;
    }
  }

  lemma KebabChars(s: string)
    requires Kebab(s)
    ensures s != ""
    ensures forall k :: 0 <= k < |s| ==> LowerOrDigit(s[k]) || s[k] == '-'
  {
    JoinChars(Split(s, '-'));
  }
}
