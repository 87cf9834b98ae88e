/** Peer credentials, carried as a reply line from the broker to the harness,
    and the two peer-identity invariants. */
module PeerCred {
  import opened Text
  import opened Probeout
  import opened Names
  import Decimal
  import Sets

  datatype Cred = Cred(uid: int, gid: int, pid: int)

  predicate Int64(n: int) { -0x8000_0000_0000_0000 <= n <= 0x7fff_ffff_ffff_ffff }

  predicate InRange(c: Cred) { Int64(c.uid) && Int64(c.gid) && Int64(c.pid) }

  /** fmt.Sprintf("uid=%d gid=%d pid=%d", ...) */
  function CredText(c: Cred): string {
    "uid=" + Decimal.Itoa(c.uid) + " gid=" + Decimal.Itoa(c.gid) + " pid=" + Decimal.Itoa(c.pid)
  }

  /** What fmt.Sscanf promises: it may read other texts loosely, but it reads
      three machine integers and reads a formatted text back. */
  ghost predicate Lawful(scan: string -> Option<Cred>) {
    && (forall s :: scan(s).Some? ==> InRange(scan(s).value))
    && forall c :: InRange(c) ==> scan(CredText(c)) == Some(c)
  }

  /** parsePeerCred */
  function ParsePeerCred(scan: string -> Option<Cred>, s: string): Option<Cred> {
    var c := scan(s);
    if c.None? || CredText(c.value) != s then None else c
  }

  /** However loose the scanner, exactly the formatted texts are accepted, each
      as the numbers it was formatted from. */
  lemma AcceptsOnlyCanonical(scan: string -> Option<Cred>, s: string, c: Cred)
    requires Lawful(scan)
    ensures ParsePeerCred(scan, s) == Some(c) <==> InRange(c) && CredText(c) == s
  {
  }

  lemma ItoaIsDetail(n: int)
    ensures ValidDetail(Decimal.Itoa(n))
  {
  }

  lemma DetailTogether(a: string, b: string)
    requires ValidDetail(a) && ValidDetail(b)
    ensures ValidDetail(a + b)
  {
  }

  lemma CredTextIsDetail(c: Cred)
    ensures ValidDetail(CredText(c))
  {
    var u, g, p := Decimal.Itoa(c.uid), Decimal.Itoa(c.gid), Decimal.Itoa(c.pid);
    ItoaIsDetail(c.uid);
    ItoaIsDetail(c.gid);
    ItoaIsDetail(c.pid);
    DetailTogether("uid=", u);
    DetailTogether("uid=" + u, " gid=");
    DetailTogether("uid=" + u + " gid=", g);
    DetailTogether("uid=" + u + " gid=" + g, " pid=");
    DetailTogether("uid=" + u + " gid=" + g + " pid=", p);
  }

  // The invariants

  datatype PeerDial = PeerDial(role: string, uid: int, gid: int, inGroup: bool, stdout: string)

  datatype Violation =
    | NoReply(role: string)
    | BadReply(role: string)
    | WrongUid(role: string, read: int, given: int)
    | NoDialLine(role: string)
    | Connected(role: string)
    | OtherRefusal(role: string)
    | TooFewDials(uids: nat, outside: nat)

  const PERMISSION_DENIED := "permission denied"

  /** peerUIDIsAssignedUID */
  function PeerUidIsAssigned(scan: string -> Option<Cred>, d: PeerDial): Option<Violation> {
    var l := Found(Parsed(d.stdout), "reply");
    if l.None? || !l.value.ok then Some(NoReply(d.role))
    else
      var c := ParsePeerCred(scan, l.value.detail);
      if c.None? then Some(BadReply(d.role))
      else if c.value.uid != d.uid then Some(WrongUid(d.role, c.value.uid, d.uid))
      else None
  }

  /** socketGroupGatesConnect */
  function GroupGatesConnect(d: PeerDial): Option<Violation> {
    var l := Found(Parsed(d.stdout), "dial");
    if l.None? then Some(NoDialLine(d.role))
    else if l.value.ok then Some(Connected(d.role))
    else if !Contains(l.value.detail, PERMISSION_DENIED) then Some(OtherRefusal(d.role))
    else None
  }

  function DialIssue(scan: string -> Option<Cred>, d: PeerDial): Option<Violation> {
    if d.inGroup then PeerUidIsAssigned(scan, d) else GroupGatesConnect(d)
  }

  function DialIssues(scan: string -> Option<Cred>, dials: seq<PeerDial>): (issues: seq<Option<Violation>>)
    ensures |issues| == |dials|
  {
    seq(|dials|, i requires 0 <= i < |dials| => DialIssue(scan, dials[i]))
  }

  /** The different UIDs of the dials in the group. */
  function GroupUids(dials: seq<PeerDial>): set<int> {
    set d | d in dials && d.inGroup :: d.uid
  }

  function Outsiders(dials: seq<PeerDial>): nat {
    if dials == [] then 0
    else Outsiders(dials[..|dials| - 1]) + if dials[|dials| - 1].inGroup then 0 else 1
  }

  function SizeIssue(dials: seq<PeerDial>): seq<Violation> {
    if |GroupUids(dials)| < 2 || Outsiders(dials) == 0
    then [TooFewDials(|GroupUids(dials)|, Outsiders(dials))] else []
  }

  function Violations(scan: string -> Option<Cred>, dials: seq<PeerDial>): seq<Violation> {
    Collect(DialIssues(scan, dials)) + SizeIssue(dials)
  }

  lemma OneMoreDial(dials: seq<PeerDial>, i: nat)
    requires i < |dials|
    ensures GroupUids(dials[..i + 1]) == GroupUids(dials[..i]) + if dials[i].inGroup then {dials[i].uid} else {}
    ensures Outsiders(dials[..i + 1]) == Outsiders(dials[..i]) + if dials[i].inGroup then 0 else 1
  {
    assert dials[..i + 1] == dials[..i] + [dials[i]];
    assert dials[..i + 1][..i] == dials[..i];
  }

  /** checkPeerIdentity */
  method CheckPeerIdentity(scan: string -> Option<Cred>, dials: seq<PeerDial>) returns (bad: seq<Violation>)
    ensures bad == Violations(scan, dials)
  {
    ghost var issues := DialIssues(scan, dials);
    bad := [];
    var uids: set<int>, outsiders := {}, 0;
    for i := 0 to |dials|
      invariant bad == Collect(issues[..i])
      invariant uids == GroupUids(dials[..i]) && outsiders == Outsiders(dials[..i])
    {
      var d := dials[i];
      var issue := DialIssue(scan, d);
      if d.inGroup { uids := uids + {d.uid}; } else { outsiders := outsiders + 1; }
      if issue.Some? { bad := bad + [issue.value]; }
      OneMoreDial(dials, i);
      assert bad == Collect(issues[..i + 1]) by { CollectStep(issues, i); }
    }
    assert issues[..|dials|] == issues && dials[..|dials|] == dials;
    if |uids| < 2 || outsiders == 0 { bad := bad + [TooFewDials(|uids|, outsiders)]; }
  }

  lemma {:induction false} OutsidersMean(dials: seq<PeerDial>)
    ensures Outsiders(dials) > 0 <==> exists k :: 0 <= k < |dials| && !dials[k].inGroup
  {
    if dials != [] { OutsidersMean(dials[..|dials| - 1]); }
  }

  lemma TwoUids(dials: seq<PeerDial>)
    ensures |GroupUids(dials)| >= 2 <==>
              exists j, k :: 0 <= j < k < |dials| && dials[j].inGroup && dials[k].inGroup && dials[j].uid != dials[k].uid
  {
    var uids := GroupUids(dials);
    if j, k :| 0 <= j < k < |dials| && dials[j].inGroup && dials[k].inGroup && dials[j].uid != dials[k].uid {
      Sets.SubsetSize({dials[j].uid, dials[k].uid}, uids);
    }
    if |uids| >= 2 {
      var x := Sets.AnyMember(uids);
      Sets.RemoveSize(uids, x);
      var y := Sets.AnyMember(uids - {x});
      var j :| 0 <= j < |dials| && dials[j].inGroup && dials[j].uid == x;
      var k :| 0 <= k < |dials| && dials[k].inGroup && dials[k].uid == y;
      assert j < k || k < j;
    }
  }

  /** The set of dials passes exactly when every worker in the group was
      answered with the UID it was given, every outsider was refused for
      permission, and there were two different UIDs inside and someone outside. */
  lemma IdentityTrustedExactlyWhen(scan: string -> Option<Cred>, dials: seq<PeerDial>)
    ensures Violations(scan, dials) == [] <==>
              && (forall k :: 0 <= k < |dials| ==> DialIssue(scan, dials[k]).None?)
              && (exists j, k :: 0 <= j < k < |dials| && dials[j].inGroup && dials[k].inGroup && dials[j].uid != dials[k].uid)
              && exists k :: 0 <= k < |dials| && !dials[k].inGroup
  {
    var issues := DialIssues(scan, dials);
    CollectEmpty(issues);
    assert forall k :: 0 <= k < |dials| ==> issues[k] == DialIssue(scan, dials[k]);
    OutsidersMean(dials);
    TwoUids(dials);
  }

  // End to end

  /** Every line was built by the constructors and none before is a reply. */
  ghost predicate Printed(before: seq<Line>, after: seq<Line>) {
    && (forall k :: 0 <= k < |before| ==> WellBuilt(before[k]) && before[k].name != "reply")
    && forall k :: 0 <= k < |after| ==> WellBuilt(after[k])
  }

  lemma {:induction false} FoundAfter(before: seq<Line>, l: Line, after: seq<Line>, name: string)
    requires Named(l, name) && forall k :: 0 <= k < |before| ==> !Named(before[k], name)
    ensures Found(before + [l] + after, name) == Some(l)
  {
    if before != [] {
      assert (before + [l] + after)[1..] == before[1..] + [l] + after;
      FoundAfter(before[1..], l, after, name);
    }
  }

  lemma ReplyIsValid()
    ensures ValidName("reply")
  {
  }

  /** For all credentials, printed by the broker as the worker's reply line and
      read back by the harness: the check passes exactly when the UID read is
      the UID assigned. */
  lemma CredentialsEndToEnd(scan: string -> Option<Cred>, c: Cred, before: seq<Line>, after: seq<Line>, d: PeerDial)
    requires Lawful(scan) && InRange(c) && Printed(before, after)
    requires d.stdout == Formatted(before + [OK("reply", CredText(c))] + after)
    ensures Found(Parsed(d.stdout), "reply") == Some(OK("reply", CredText(c)))
    ensures ParsePeerCred(scan, OK("reply", CredText(c)).detail) == Some(c)
    ensures PeerUidIsAssigned(scan, d).None? <==> c.uid == d.uid
  {
    var reply := OK("reply", CredText(c));
    ReplyIsValid();
    ConstructorsBuild("reply", CredText(c));
    ParseOfFormat(before + [reply] + after);
    FoundAfter(before, reply, after, "reply");
    CredTextIsDetail(c);
    SanitizedIsDetail(CredText(c));
    AcceptsOnlyCanonical(scan, CredText(c), c);
  }

  // PeerIdentities

  /** The five numbers, in the order they are checked. */
  datatype Identities = Identities(brokerUid: int, socketGid: int, worker1: int, worker2: int, outsider: int)

  function Ids(p: Identities): seq<int> { [p.brokerUid, p.socketGid, p.worker1, p.worker2, p.outsider] }

  predicate ValidIdentities(p: Identities) {
    var ids := Ids(p);
    (forall i :: 0 <= i < 5 ==> 0 < ids[i] <= MAX_ID) && forall i, j :: 0 <= i < j < 5 ==> ids[i] != ids[j]
  }

  /** validate */
  method Validate(p: Identities) returns (ok: bool)
    ensures ok <==> ValidIdentities(p)
  {
    var ids := Ids(p);
    var seen: set<int> := {};
    for k := 0 to 5
      invariant forall x :: x in seen <==> x in ids[..k]
      invariant forall i :: 0 <= i < k ==> 0 < ids[i] <= MAX_ID
      invariant forall i, j :: 0 <= i < j < k ==> ids[i] != ids[j]
    {
      var id := ids[k];
      if id == 0 || !ValidId(id) || id in seen { return false; }
      seen := seen + {id};
      assert ids[..k + 1] == ids[..k] + [id];
    }
    return true;
  }
}
