/** Reading the generated Dockerfile back, as a builder does: one instruction a
    line, exec-form arrays as JSON (RFC 8259), numeric owners. */
module DockerfileReader {
  import opened Text
  import opened FixtureImage
  import opened Dockerfiles
  import opened Json
  import opened OwnedPaths
  import Decimal
  import Utf8
  import Names

  datatype Owner = Owner(uid: nat, gid: nat)

  datatype Instruction =
    | From(image: string)
    | Env(name: string, value: string)
    | Copy(chown: Option<Owner>, src: string, dest: string)
    | User(user: string)
    | Entrypoint(args: seq<string>)

  /** The builder expands "$" and "\" inside COPY arguments even in JSON form;
      an argument is read as itself only without them. */
  predicate Literal(arg: string) { '$' !in arg && '\\' !in arg }

  function ReadOwner(s: string): Option<Owner>
  {
    var c := Cut(s, ':');
    if c.2 && Names.Digits(c.0) && Names.Digits(c.1) then Some(Owner(Decimal.Value(c.0), Decimal.Value(c.1))) else None
  }

  function ReadArgs(chown: Option<Owner>, s: string): Option<Instruction>
  {
    var args := ReadArray(s);
    if args.Some? && |args.value| == 2 && Literal(args.value[0]) && Literal(args.value[1])
    then Some(Copy(chown, args.value[0], args.value[1])) else None
  }

  function ReadCopy(rest: string): Option<Instruction>
  {
    if HasPrefix(rest, CHOWN) then
      var c := Cut(rest[|CHOWN|..], ' ');
      var owner := ReadOwner(c.0);
      if owner.Some? then ReadArgs(owner, c.1) else None
    else ReadArgs(None, rest)
  }

  function ReadEnv(rest: string): Option<Instruction>
  {
    var c := Cut(rest, '=');
    if c.2 then Some(Env(c.0, c.1)) else None
  }

  function ReadEntrypoint(rest: string): Option<Instruction>
  {
    var args := ReadArray(rest);
    if args.Some? then Some(Entrypoint(args.value)) else None
  }

  /** What each keyword's arguments mean; None for another keyword. */
  function ReadWords(keyword: string, rest: string): Option<Instruction>
  {
    if keyword == "FROM" then Some(From(rest))
    else if keyword == "ENV" then ReadEnv(rest)
    else if keyword == "COPY" then ReadCopy(rest)
    else if keyword == "USER" then Some(User(rest))
    else if keyword == "ENTRYPOINT" then ReadEntrypoint(rest)
    else None
  }

  function ReadLine(line: string): Option<Instruction>
  {
    var c := Cut(line, ' ');
    ReadWords(c.0, c.1)
  }

  function ReadLines(read: string -> Option<Instruction>, lines: seq<string>): (r: Option<seq<Instruction>>)
    ensures r.Some? <==> forall k :: 0 <= k < |lines| ==> read(lines[k]).Some?
    ensures r.Some? ==> |r.value| == |lines| && forall k :: 0 <= k < |lines| ==> read(lines[k]) == Some(r.value[k])
  {
    if lines == [] then Some([])
    else
      var first, rest := read(lines[0]), ReadLines(read, lines[1..]);
      if first.Some? && rest.Some? then Some([first.value] + rest.value) else None
  }

  /** A whole file: every line ends in a newline and reads as one instruction. */
  function ReadDockerfile(text: string): Option<seq<Instruction>>
  {
    var lines := Split(text, '\n');
    if lines[|lines| - 1] != "" then None else ReadLines(ReadLine, lines[..|lines| - 1])
  }

  // What the image asks for

  function CopyOf(d: OwnedDir, i: nat): Instruction
    requires ValidDir(d)
  {
    Copy(Some(Owner(d.uid, d.gid)), OwnedSrc(i), d.path)
  }

  function CopiesOf(dirs: seq<OwnedDir>): (copies: seq<Instruction>)
    requires forall k :: 0 <= k < |dirs| ==> ValidDir(dirs[k])
    ensures |copies| == |dirs|
  {
    seq(|dirs|, i requires 0 <= i < |dirs| => CopyOf(dirs[i], i))
  }

  function HeadProgram(base: string, marker: string, src: string, binary: string): seq<Instruction> {
    [From(base), Env(marker, "1"), Copy(None, src, binary)]
  }

  function TailProgram(user: string, binary: string): seq<Instruction> { [User(user), Entrypoint([binary])] }

  function Intended(img: Image, sorted: seq<OwnedDir>): (program: seq<Instruction>)
    requires forall k :: 0 <= k < |sorted| ==> ValidDir(sorted[k])
    ensures |program| == 5 + |sorted|
  {
    HeadProgram(BASE, PROBE_MARKER, BINARY_SRC, BINARY) + CopiesOf(sorted) + TailProgram(UserOf(img), BINARY)
  }

  /** An argument that reads as itself in valid UTF-8. */
  ghost predicate Simple(arg: string) { Literal(arg) && Utf8.Valid(arg) }

  // Lines

  ghost predicate OneLine(s: string) { '\n' !in s }

  lemma OwnerReads(d: OwnedDir)
    requires ValidDir(d)
    ensures ReadOwner(OwnerText(d)) == Some(Owner(d.uid, d.gid))
    ensures ' ' !in OwnerText(d) && OneLine(OwnerText(d))
  {
    var u, g := Decimal.Itoa(d.uid), Decimal.Itoa(d.gid);
    Decimal.ValueOfDigits(d.uid);
    Decimal.ValueOfDigits(d.gid);
    CutAt(u, g, ':');
  }

  lemma PairReads(chown: Option<Owner>, src: string, dest: string)
    requires Simple(src) && Simple(dest)
    ensures ReadArgs(chown, ArrayText([src, dest])) == Some(Copy(chown, src, dest))
  {
    ValidArrayReads([src, dest]);
  }

  lemma CopyReads(text: string, owner: Owner, src: string, dest: string)
    requires ReadOwner(text) == Some(owner) && ' ' !in text
    requires Simple(src) && Simple(dest)
    ensures ReadCopy(CopyArgs(text, ArrayText([src, dest]))) == Some(Copy(Some(owner), src, dest))
  {
    var args := ArrayText([src, dest]);
    assert CopyArgs(text, args)[|CHOWN|..] == text + [' '] + args;
    CutAt(text, args, ' ');
    PairReads(Some(owner), src, dest);
  }

  lemma PathCharIsPlain(c: char)
    requires PathChar(c)
    ensures c != '$' && c != '\\' && c != '\n' && c as int < 0x80
  {
  }

  lemma GoodPathIsSimple(p: string)
    requires Acceptable(p)
    ensures Simple(p) && OneLine(p)
  {
    assert forall k :: 0 <= k < |p| ==> PathChar(p[k]);
    forall k | 0 <= k < |p|
      ensures p[k] != '$' && p[k] != '\\' && p[k] != '\n' && p[k] as int < 0x80
    {
      PathCharIsPlain(p[k]);
    }
    Utf8.AsciiIsValid(p);
  }

  lemma SrcIsSimple(i: nat)
    ensures Simple(OwnedSrc(i))
  {
    Utf8.AsciiIsValid(OwnedSrc(i));
  }

  lemma ArrayIsOneLine(items: seq<string>)
    requires items != []
    ensures OneLine(ArrayText(items))
  {
    ArrayHasNoControl(items);
    assert '\n' < ' ';
  }

  /** This line, and nothing more, reads as this instruction. */
  ghost predicate Reads(read: string -> Option<Instruction>, line: string, i: Instruction) {
    read(line) == Some(i) && '\n' !in line
  }

  ghost predicate AllRead(read: string -> Option<Instruction>, lines: seq<string>, program: seq<Instruction>) {
    |lines| == |program| && forall k :: 0 <= k < |lines| ==> Reads(read, lines[k], program[k])
  }

  lemma WordsRead(keyword: string, rest: string, i: Instruction)
    requires ' ' !in keyword && OneLine(keyword) && OneLine(rest)
    requires ReadWords(keyword, rest) == Some(i)
    ensures Reads(ReadLine, Words(keyword, rest), i)
  {
    CutAt(keyword, rest, ' ');
  }

  lemma CopyIsOneLine(owner: string, args: string)
    requires OneLine(owner) && OneLine(args)
    ensures OneLine(CopyArgs(owner, args))
  {
  }

  lemma OwnedCopyReads(text: string, args: string, i: Instruction)
    requires OneLine(text) && OneLine(args) && ReadCopy(CopyArgs(text, args)) == Some(i)
    ensures Reads(ReadLine, Words("COPY", CopyArgs(text, args)), i)
  {
    CopyIsOneLine(text, args);
    WordsRead("COPY", CopyArgs(text, args), i);
  }

  lemma CopyLineReads(d: OwnedDir, i: nat)
    requires ValidDir(d)
    ensures Reads(ReadLine, CopyLine(d, i), CopyOf(d, i))
  {
    var text, src := OwnerText(d), OwnedSrc(i);
    OwnerReads(d);
    GoodPathIsSimple(d.path);
    SrcIsSimple(i);
    CopyReads(text, Owner(d.uid, d.gid), src, d.path);
    ArrayIsOneLine([src, d.path]);
    OwnedCopyReads(text, ArrayText([src, d.path]), CopyOf(d, i));
  }

  lemma EnvReads(name: string, value: string)
    requires '=' !in name && OneLine(name) && OneLine(value)
    ensures Reads(ReadLine, Words("ENV", name + ['='] + value), Env(name, value))
  {
    CutAt(name, value, '=');
    WordsRead("ENV", name + ['='] + value, Env(name, value));
  }

  lemma PlainCopyReads(src: string, dest: string)
    requires Simple(src) && Simple(dest)
    ensures Reads(ReadLine, Words("COPY", ArrayText([src, dest])), Copy(None, src, dest))
  {
    var args := ArrayText([src, dest]);
    assert args[0] == '[';
    PairReads(None, src, dest);
    ArrayIsOneLine([src, dest]);
    WordsRead("COPY", args, Copy(None, src, dest));
  }

  lemma EntrypointReads(arg: string)
    requires Utf8.Valid(arg)
    ensures Reads(ReadLine, Words("ENTRYPOINT", ArrayText([arg])), Entrypoint([arg]))
  {
    var args := ArrayText([arg]);
    ValidArrayReads([arg]);
    ArrayIsOneLine([arg]);
    WordsRead("ENTRYPOINT", args, Entrypoint([arg]));
  }

  lemma FromReads(image: string)
    requires OneLine(image)
    ensures Reads(ReadLine, Words("FROM", image), From(image))
  {
    WordsRead("FROM", image, From(image));
  }

  lemma ThreeRead(read: string -> Option<Instruction>, lines: seq<string>, program: seq<Instruction>)
    requires |lines| == 3 && |program| == 3
    requires Reads(read, lines[0], program[0]) && Reads(read, lines[1], program[1]) && Reads(read, lines[2], program[2])
    ensures AllRead(read, lines, program)
  {
  }

  lemma HeadReads(base: string, marker: string, src: string, binary: string)
    requires OneLine(base) && '=' !in marker && OneLine(marker) && Simple(src) && Simple(binary)
    ensures AllRead(ReadLine, HeadLines(base, marker, src, binary), HeadProgram(base, marker, src, binary))
  {
    FromReads(base);
    EnvReads(marker, "1");
    PlainCopyReads(src, binary);
    ThreeRead(ReadLine, HeadLines(base, marker, src, binary), HeadProgram(base, marker, src, binary));
  }

  lemma TailReads(user: string, binary: string)
    requires OneLine(user) && Utf8.Valid(binary)
    ensures AllRead(ReadLine, TailLines(user, binary), TailProgram(user, binary))
  {
    WordsRead("USER", user, User(user));
    EntrypointReads(binary);
  }

  lemma CopiesRead(dirs: seq<OwnedDir>)
    requires forall k :: 0 <= k < |dirs| ==> ValidDir(dirs[k])
    ensures AllRead(ReadLine, CopyLines(dirs), CopiesOf(dirs))
  {
    forall k | 0 <= k < |dirs|
      ensures Reads(ReadLine, CopyLines(dirs)[k], CopiesOf(dirs)[k])
    {
      CopyLineReads(dirs[k], k);
    }
  }

  lemma ReadTogether(read: string -> Option<Instruction>, a: seq<string>, p: seq<Instruction>, b: seq<string>, q: seq<Instruction>)
    requires AllRead(read, a, p) && AllRead(read, b, q)
    ensures AllRead(read, a + b, p + q)
  {
  }

  /** A file of such lines reads as the whole program. */
  lemma FileReads(lines: seq<string>, program: seq<Instruction>)
    requires AllRead(ReadLine, lines, program)
    ensures ReadDockerfile(Terminated(lines)) == Some(program)
  {
    SplitTerminated(lines);
    assert (lines + [""])[..|lines|] == lines;
    assert ReadLines(ReadLine, lines).value == program;
  }

  lemma UserIsOneLine(u: string)
    requires UserShape(u)
    ensures OneLine(u)
  {
  }

  lemma AsciiIsSimple(s: string)
    requires forall k :: 0 <= k < |s| ==> s[k] as int < 0x80 && s[k] != '$' && s[k] != '\\'
    ensures Simple(s)
  {
    Utf8.AsciiIsValid(s);
  }

  lemma HeadConstantsRead()
    ensures OneLine(BASE) && '=' !in PROBE_MARKER && OneLine(PROBE_MARKER)
  {
  }

  lemma BinarySrcIsSimple()
    ensures Simple(BINARY_SRC)
  {
    AsciiIsSimple(BINARY_SRC);
  }

  lemma BinaryIsSimple()
    ensures Simple(BINARY)
  {
    AsciiIsSimple(BINARY);
  }

  /** The Dockerfile of a valid image says exactly what was asked: five fixed
      instructions and one COPY per owned directory, each with that directory's
      path and owner, and nothing injected. */
  lemma DockerfileReadsBack(img: Image)
    requires ValidImage(img)
    ensures forall k :: 0 <= k < |SortDirs(img.dirs)| ==> ValidDir(SortDirs(img.dirs)[k])
    ensures ReadDockerfile(Dockerfile(img)) == Some(Intended(img, SortDirs(img.dirs)))
    ensures |SortDirs(img.dirs)| == |img.dirs|
  {
    var sorted, user := SortDirs(img.dirs), UserOf(img);
    SortDirsSorts(img.dirs);
    assert |sorted| == |multiset(sorted)| == |multiset(img.dirs)|;
    SameDirsValid(img.dirs, sorted);
    UserIsOneLine(user);
    HeadConstantsRead();
    BinarySrcIsSimple();
    BinaryIsSimple();
    var head, headProgram := HeadLines(BASE, PROBE_MARKER, BINARY_SRC, BINARY), HeadProgram(BASE, PROBE_MARKER, BINARY_SRC, BINARY);
    HeadReads(BASE, PROBE_MARKER, BINARY_SRC, BINARY);
    CopiesRead(sorted);
    TailReads(user, BINARY);
    ReadTogether(ReadLine, head, headProgram, CopyLines(sorted), CopiesOf(sorted));
    ReadTogether(ReadLine, head + CopyLines(sorted), headProgram + CopiesOf(sorted),
                 TailLines(user, BINARY), TailProgram(user, BINARY));
    FileReads(DockerfileLines(img), Intended(img, sorted));
  }
}
