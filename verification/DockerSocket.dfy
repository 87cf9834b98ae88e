/** Which mount sources name the Docker socket. */
module DockerSocket {
  import opened Text
  import opened Paths

  const FIXED_A := "/var/run/docker.sock"
  const FIXED_B := "/run/docker.sock"

  /** socketPaths: the fixed paths and the resolved socket, each cleaned. */
  function SocketPaths(socket: string): seq<string> {
    [FIXED_A, FIXED_B] + if socket != "" then [Clean(socket)] else []
  }

  predicate IsDockerSocket(source: string, socket: string) {
    source != "" && Clean(source) in SocketPaths(socket)
  }

  /** Both spellings resolve to the same place, segment by segment. */
  predicate SamePlace(p: string, q: string) { Rooted(p) == Rooted(q) && Segments(p) == Segments(q) }

  lemma TwoSegmentsClean(p: string, a: string, b: string)
    requires Plain(a) && Plain(b) && p == "/" + a + ['/'] + b
    ensures Clean(p) == p
  {
    var segs := [a, b];
    assert segs[1..] == [b];
    assert p == "/" + Join(segs, '/');
    CleanKeepsPlain(segs);
  }

  lemma ThreeSegmentsClean(p: string, a: string, b: string, c: string)
    requires Plain(a) && Plain(b) && Plain(c) && p == "/" + a + ['/'] + b + ['/'] + c
    ensures Clean(p) == p
  {
    var segs := [a, b, c];
    assert segs[1..] == [b, c] && [b, c][1..] == [c] && Join([c], '/') == c;
    assert Join([b, c], '/') == b + ['/'] + c;
    assert Join(segs, '/') == a + ['/'] + (b + ['/'] + c);
    assert p == "/" + Join(segs, '/');
    CleanKeepsPlain(segs);
  }

  lemma FixedAClean()
    ensures Clean(FIXED_A) == FIXED_A
  {
    ThreeSegmentsClean(FIXED_A, "var", "run", "docker.sock");
  }

  lemma FixedBClean()
    ensures Clean(FIXED_B) == FIXED_B
  {
    TwoSegmentsClean(FIXED_B, "run", "docker.sock");
  }

  /** A source is refused exactly when, however it is spelled, it resolves to
      one of the socket paths. */
  lemma SocketByAnySpelling(source: string, socket: string)
    ensures IsDockerSocket(source, socket) <==>
              source != "" && (SamePlace(source, FIXED_A) || SamePlace(source, FIXED_B)
                               || (socket != "" && SamePlace(source, socket)))
  {
    FixedAClean();
    FixedBClean();
    CleanEqual(source, FIXED_A);
    CleanEqual(source, FIXED_B);
    CleanEqual(source, socket);
  }
}
