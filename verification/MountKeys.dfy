/** mountKeys: the text a mount is compared by, and why equal text means equal mounts. */
module MountKeys {
  import opened EngineConfig
  import opened Quote
  import Decimal

  const ARROW := "-> "

  function BoolText(b: bool): string { if b then "true" else "false" }

  function SizeOf(m: EngineMount): int { if m.tmpfsSize.Some? then m.tmpfsSize.value else 0 }

  /** %s %q -> */
  function SourcePart(printable: nat -> bool, m: EngineMount): string {
    m.kind + [' '] + Quoted(printable, m.source) + ([' '] + ARROW)
  }

  function PathsPart(printable: nat -> bool, m: EngineMount): string {
    SourcePart(printable, m) + Quoted(printable, m.target)
  }

  /** %s %q -> %q ro=%t size=%d */
  function MountKey(printable: nat -> bool, m: EngineMount): string {
    PathsPart(printable, m) + (" ro" + ['='] + BoolText(m.readOnly)) + (" size" + ['='] + Decimal.Itoa(SizeOf(m)))
  }

  function Keys(printable: nat -> bool, ms: seq<EngineMount>): (keys: seq<string>)
    ensures |keys| == |ms|
  {
    seq(|ms|, i requires 0 <= i < |ms| => MountKey(printable, ms[i]))
  }

  /** mountKeys. */
  method ListKeys(printable: nat -> bool, ms: seq<EngineMount>) returns (out: seq<string>)
    ensures out == Keys(printable, ms)
  {
    out := [];
    for i := 0 to |ms|
      invariant out == Keys(printable, ms)[..i]
    {
      out := out + [MountKey(printable, ms[i])];
    }
  }

  /** The security-relevant fields agree. */
  predicate SameMount(a: EngineMount, b: EngineMount) {
    a.kind == b.kind && a.source == b.source && a.target == b.target
    && a.readOnly == b.readOnly && SizeOf(a) == SizeOf(b)
  }

  lemma NotLater(a: string, x: string, b: string, y: string, sep: char)
    requires |a| < |b| && sep !in x
    ensures a + [sep] + x != b + [sep] + y
  {
    var t, u := a + [sep] + x, b + [sep] + y;
    assert u[|b|] == sep;
    if |b| < |t| { assert t[|b|] == x[|b| - |a| - 1]; }
  }

  /** What follows the last separator is decided by the whole text. */
  lemma LastPart(a: string, x: string, b: string, y: string, sep: char)
    requires a + [sep] + x == b + [sep] + y && sep !in x && sep !in y
    ensures a == b && x == y
  {
    var t := a + [sep] + x;
    if |a| < |b| { NotLater(a, x, b, y, sep); }
    if |b| < |a| { NotLater(b, y, a, x, sep); }
    assert a == t[..|a|] && b == t[..|b|] && x == t[|a| + 1..] && y == t[|b| + 1..];
  }

  lemma Stripped(a: string, b: string, tail: string)
    requires a + tail == b + tail
    ensures a == b
  {
    assert a == (a + tail)[..|a|] && b == (b + tail)[..|b|];
  }

  lemma BoolTextParts(a: bool, b: bool)
    ensures '=' !in BoolText(a)
    ensures BoolText(a) == BoolText(b) ==> a == b
  {
    assert |BoolText(true)| == 4 && |BoolText(false)| == 5;
  }

  lemma PathsPartInjective(printable: nat -> bool, a: EngineMount, b: EngineMount)
    requires PathsPart(printable, a) == PathsPart(printable, b)
    ensures a.kind == b.kind && a.source == b.source && a.target == b.target
  {
    var tail := [' '] + ARROW;
    assert tail[|tail| - 1] == ' ';
    QuotedAtEnd(printable, SourcePart(printable, a), a.target, SourcePart(printable, b), b.target);
    var x, y := a.kind + [' '], b.kind + [' '];
    Stripped(x + Quoted(printable, a.source), y + Quoted(printable, b.source), tail);
    QuotedAtEnd(printable, x, a.source, y, b.source);
    Stripped(a.kind, b.kind, [' ']);
  }

  lemma TailAgrees(a: string, name: string, x: string, b: string, y: string)
    requires a + (name + ['='] + x) == b + (name + ['='] + y) && '=' !in x && '=' !in y
    ensures a == b && x == y
  {
    assert a + (name + ['='] + x) == (a + name) + ['='] + x;
    assert b + (name + ['='] + y) == (b + name) + ['='] + y;
    LastPart(a + name, x, b + name, y, '=');
    Stripped(a, b, name);
  }

  /** Equal keys mean equal type, source, target, flag and size, whatever
      characters the fields hold. */
  lemma KeyDecidesMount(printable: nat -> bool, a: EngineMount, b: EngineMount)
    ensures MountKey(printable, a) == MountKey(printable, b) <==> SameMount(a, b)
  {
    if MountKey(printable, a) == MountKey(printable, b) {
      var x, y := PathsPart(printable, a), PathsPart(printable, b);
      var ro, ro' := BoolText(a.readOnly), BoolText(b.readOnly);
      TailAgrees(x + (" ro" + ['='] + ro), " size", Decimal.Itoa(SizeOf(a)),
                 y + (" ro" + ['='] + ro'), Decimal.Itoa(SizeOf(b)));
      Decimal.ItoaInjective(SizeOf(a), SizeOf(b));
      BoolTextParts(a.readOnly, b.readOnly);
      BoolTextParts(b.readOnly, a.readOnly);
      TailAgrees(x, " ro", ro, y, ro');
      PathsPartInjective(printable, a, b);
    }
  }

  lemma KeysDecideMounts(printable: nat -> bool, ms: seq<EngineMount>, ns: seq<EngineMount>)
    ensures Keys(printable, ms) == Keys(printable, ns) <==>
              |ms| == |ns| && forall i :: 0 <= i < |ms| ==> SameMount(ms[i], ns[i])
  {
    var x, y := Keys(printable, ms), Keys(printable, ns);
    if |ms| == |ns| {
      forall i | 0 <= i < |ms|
        ensures x[i] == y[i] <==> SameMount(ms[i], ns[i])
      {
        KeyDecidesMount(printable, ms[i], ns[i]);
      }
    }
  }
}
