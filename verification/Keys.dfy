/** Store keys: joining a project name and a shoot UID, and splitting a key back. */
module Keys {
  import opened Wrappers
  import opened Cluster

  const SEPARATOR := "--"

  /** The key the HTTP handler looks up and the certificate reconciler writes. */
  function Join(project: string, uid: string): string {
    project + SEPARATOR + uid
  }

  /** `--` starts at position `i` of `s`. */
  predicate SeparatorAt(s: string, i: nat) {
    i + 1 < |s| && s[i] == '-' && s[i + 1] == '-'
  }

  ghost predicate HasSeparator(s: string) {
    exists i: nat :: SeparatorAt(s, i)
  }

  /** Position of the first `--` at or after `from`. */
  function IndexFrom(s: string, from: nat): (r: Option<nat>)
    ensures r.None? ==> forall i: nat | from <= i :: !SeparatorAt(s, i)
    ensures r.Some? ==> from <= r.value && SeparatorAt(s, r.value)
    ensures r.Some? ==> forall i: nat | from <= i < r.value :: !SeparatorAt(s, i)
    decreases |s| - from
  {
    if |s| <= from then None
    else if SeparatorAt(s, from) then Some(from)
    else IndexFrom(s, from + 1)
  }

  /** `strings.Split(s, "--")`: cut at the leftmost separator, then go on after it. */
  function SplitAll(s: string): seq<string>
    decreases |s|
  {
    match IndexFrom(s, 0)
    case None => [s]
    case Some(i) => [s[..i]] + SplitAll(s[i + 2..])
  }

  /** `unicode.IsSpace`, the characters `strings.TrimSpace` cuts. */
  predicate IsSpace(c: char) {
    || '\t' <= c <= '\r' || c == ' ' || c == '\U{85}' || c == '\U{A0}' || c == '\U{1680}'
    || '\U{2000}' <= c <= '\U{200A}' || c == '\U{2028}' || c == '\U{2029}' || c == '\U{202F}'
    || c == '\U{205F}' || c == '\U{3000}'
  }

  /** The characters with Unicode's White_Space property, one by one. */
  lemma SpacesListed(c: char)
    ensures IsSpace(c) <==>
              c as int in {0x9, 0xA, 0xB, 0xC, 0xD, 0x20, 0x85, 0xA0, 0x1680, 0x2000, 0x2001, 0x2002, 0x2003, 0x2004,
                  0x2005,
                           0x2006, 0x2007, 0x2008, 0x2009, 0x200A, 0x2028, 0x2029, 0x202F, 0x205F, 0x3000}
  {
  }

  function TrimLeft(s: string): string {
    if s != [] && IsSpace(s[0]) then TrimLeft(s[1..]) else s
  }

  function TrimRight(s: string): string {
    if s != [] && IsSpace(s[|s| - 1]) then TrimRight(s[..|s| - 1]) else s
  }

  function TrimSpace(s: string): string {
    TrimRight(TrimLeft(s))
  }

  ghost predicate Blank(s: string) {
    forall i | 0 <= i < |s| :: IsSpace(s[i])
  }

  /** `SplitProjectNameAndShootUID`; None is ErrProjShootUIDInvalidFormat. */
  function Split(key: string): Option<(string, string)> {
    var split := SplitAll(key);
    if |split| != 2 || TrimSpace(split[0]) == "" || TrimSpace(split[1]) == "" then None
    else Some((split[0], split[1]))
  }

  lemma {:induction false} TrimLeftEmptiesBlank(s: string)
    ensures TrimLeft(s) == "" <==> Blank(s)
    ensures Blank(TrimLeft(s)) ==> TrimLeft(s) == ""
    ensures TrimLeft(s) != "" ==> !IsSpace(TrimLeft(s)[0])
  {
    if s != [] && IsSpace(s[0]) {
      TrimLeftEmptiesBlank(s[1..]);
      assert forall i | 0 < i < |s| :: s[i] == s[1..][i - 1];
    }
  }

  lemma {:induction false} TrimRightKeepsFirst(s: string)
    requires s != "" && !IsSpace(s[0])
    ensures TrimRight(s) != ""
  {
    if IsSpace(s[|s| - 1]) { TrimRightKeepsFirst(s[..|s| - 1]); }
  }

  lemma TrimSpaceEmptiesBlank(s: string)
    ensures TrimSpace(s) == "" <==> Blank(s)
  {
    TrimLeftEmptiesBlank(s);
    if TrimLeft(s) != "" { TrimRightKeepsFirst(TrimLeft(s)); }
  }

  /** What a project part of a splittable key looks like. */
  ghost predicate GoodProject(p: string) {
    !HasSeparator(p) && !Blank(p) && (p != "" ==> p[|p| - 1] != '-')
  }

  ghost predicate GoodUID(u: string) {
    !HasSeparator(u) && !Blank(u)
  }

  lemma SplitAllUnsplit(s: string)
    ensures |SplitAll(s)| == 1 <==> !HasSeparator(s)
    ensures !HasSeparator(s) ==> SplitAll(s) == [s]
  {
  }

  /** The leftmost separator of `p--u` is the joining one when `p` has none and does not end in a dash. */
  lemma JoinSplitsAtSeam(p: string, u: string)
    requires !HasSeparator(p) && (p != "" ==> p[|p| - 1] != '-')
    ensures IndexFrom(Join(p, u), 0) == Some(|p|)
  {
    var key := Join(p, u);
    assert SeparatorAt(key, |p|);
    forall i: nat | i < |p| ensures !SeparatorAt(key, i) { assert !SeparatorAt(p, i); }
  }

  /** Split accepts exactly the keys that are good parts joined, and returns those parts. */
  lemma SplitIffJoined(key: string, p: string, u: string)
    ensures Split(key) == Some((p, u)) <==> key == Join(p, u) && GoodProject(p) && GoodUID(u)
  {
    TrimSpaceEmptiesBlank(p);
    TrimSpaceEmptiesBlank(u);
    if key == Join(p, u) && GoodProject(p) && GoodUID(u) {
      JoinSplitsAtSeam(p, u);
      assert key[..|p|] == p && key[|p| + 2..] == u;
      SplitAllUnsplit(u);
    }
    if Split(key) == Some((p, u)) {
      var i := IndexFrom(key, 0).value;
      SplitAllUnsplit(key[i + 2..]);
      assert p == key[..i] && u == key[i + 2..];
      assert key == Join(p, u);
      forall j: nat ensures !SeparatorAt(p, j) { assert SeparatorAt(p, j) ==> SeparatorAt(key, j); }
      assert p != "" && p[|p| - 1] == '-' ==> SeparatorAt(key, |p| - 1);
    }
  }

  /** Both ways round, split and join undo each other on the keys split accepts. */
  lemma SplitJoinInverse(p: string, u: string, key: string)
    ensures GoodProject(p) && GoodUID(u) ==> Split(Join(p, u)) == Some((p, u))
    ensures Split(key).Some? ==> Join(Split(key).value.0, Split(key).value.1) == key
  {
    SplitIffJoined(Join(p, u), p, u);
    if Split(key).Some? { SplitIffJoined(key, Split(key).value.0, Split(key).value.1); }
  }

  /** A project name ending in a dash is the one way a joined pair can split into another pair. */
  lemma SplitFindsJoinedPair(p: string, u: string)
    requires Split(Join(p, u)).Some?
    ensures var (p', u') := Split(Join(p, u)).value;
            if p != "" && p[|p| - 1] == '-' then p == p' + "-" && u' == "-" + u else p == p' && u == u'
  {
    var key := Join(p, u);
    var (p', u') := Split(key).value;
    SplitIffJoined(key, p', u');
    assert SeparatorAt(key, |p|) && IndexFrom(key, 0) == Some(|p'|) by { JoinSplitsAtSeam(p', u'); }
    assert key[|p'| + 2..] == u' && key[..|p'|] == p';
    NoSeparatorAfterSeam(p', u');
    if |p| == |p'| + 1 {
      assert p == key[..|p|] && key[|p'|] == '-';
      assert u' == key[|p'| + 2..] && u == key[|p| + 2..];
      assert u' == "-" + u;
    } else {
      assert p == key[..|p|] && u == key[|p| + 2..];
    }
  }

  /** The trailing-dash condition is needed: these parts are fine otherwise, yet split differently. */
  lemma TrailingDashSplitsElsewhere()
    ensures Split(Join("a-", "b")) == Some(("a", "-b")) && !HasSeparator("a-") && GoodUID("b")
  {
    SplitJoinInverse("a", "-b", "");
    assert Join("a-", "b") == Join("a", "-b");
    assert forall i: nat :: !SeparatorAt("-b", i) && !SeparatorAt("a-", i) && !SeparatorAt("b", i);
    assert !IsSpace("a"[0]) && !IsSpace("-b"[0]) && !IsSpace("b"[0]);
  }

  ghost predicate PlainUID(u: string) {
    !HasSeparator(u) && (u != "" ==> u[0] != '-')
  }

  /** Keys are unambiguous for project names of any shape, as long as UIDs are plain. */
  lemma JoinInjective(p1: string, u1: string, p2: string, u2: string)
    requires PlainUID(u1) && PlainUID(u2) && Join(p1, u1) == Join(p2, u2)
    ensures p1 == p2 && u1 == u2
  {
    if |p1| < |p2| {
      SeamIsLast(p1, u1, p2, u2);
    } else if |p2| < |p1| {
      SeamIsLast(p2, u2, p1, u1);
    } else {
      assert p1 == Join(p1, u1)[..|p1|] && u1 == Join(p1, u1)[|p1| + 2..];
      assert p2 == Join(p2, u2)[..|p2|] && u2 == Join(p2, u2)[|p2| + 2..];
    }
  }

  /** Past its seam a key has no separator of which the UID part has none. */
  lemma NoSeparatorAfterSeam(p: string, u: string)
    requires !HasSeparator(u)
    ensures forall j: nat | |p| + 2 <= j :: !SeparatorAt(Join(p, u), j)
  {
    forall j: nat | |p| + 2 <= j ensures !SeparatorAt(Join(p, u), j) {
      var i: nat := j - |p| - 2;
      assert !SeparatorAt(u, i);
    }
  }

  lemma SeamIsLast(p1: string, u1: string, p2: string, u2: string)
    requires PlainUID(u1) && Join(p1, u1) == Join(p2, u2)
    ensures |p2| <= |p1|
  {
    NoSeparatorAfterSeam(p1, u1);
    assert SeparatorAt(Join(p2, u2), |p2|);
    assert !SeparatorAt(Join(p1, u1), |p1| + 1);
  }

  predicate IsHex(c: char) {
    '0' <= c <= '9' || 'a' <= c <= 'f' || 'A' <= c <= 'F'
  }

  /** The textual form of section 4 of RFC 9562. */
  predicate CanonicalUUID(u: string) {
    |u| == 36 && forall i | 0 <= i < 36 :: if i in [8, 13, 18, 23] then u[i] == '-' else IsHex(u[i])
  }

  /** Every canonical UUID is plain and survives a split. */
  lemma CanonicalUUIDIsPlain(u: string)
    requires CanonicalUUID(u)
    ensures PlainUID(u) && GoodUID(u)
  {
  }

  const URN_PREFIX := "urn:uuid:"

  /**
   * The texts `uuid.Parse` accepts: canonical, as a URN in any letter case, between two characters it does
   * not look at (meant to be braces), or as 32 digits.
   */
  predicate UUIDShape(u: string) {
    || CanonicalUUID(u)
    || (|u| == 45 && (forall i | 0 <= i < 9 :: u[i] == URN_PREFIX[i] || u[i] as int + 32 == URN_PREFIX[i] as int)
        && CanonicalUUID(u[9..]))
    || (|u| == 38 && CanonicalUUID(u[1..37]))
    || (|u| == 32 && forall i | 0 <= i < 32 :: IsHex(u[i]))
  }

  lemma UUIDShapeHasNoSeparator(u: string)
    requires UUIDShape(u)
    ensures !HasSeparator(u)
  {
  }

  /**
   * A shoot's key is found under no other project and UID. An accepted UID may start with a dash, but what
   * follows that dash is never as long as a canonical one.
   */
  lemma LookupFindsOnlyItsShoot(p: string, u: string, project: string, uid: string)
    requires CanonicalUUID(u) && UUIDShape(uid) && Join(p, u) == Join(project, uid)
    ensures p == project && u == uid
  {
    var key := Join(p, u);
    CanonicalUUIDIsPlain(u);
    UUIDShapeHasNoSeparator(uid);
    SeamIsLast(p, u, project, uid);
    NoSeparatorAfterSeam(project, uid);
    assert SeparatorAt(key, |p|) && |key| == |p| + 2 + 36 == |project| + 2 + |uid|;
    assert |p| == |project|;
    assert p == key[..|p|] && project == key[..|p|] && u == key[|p| + 2..] && uid == key[|p| + 2..];
  }

  /** A data key is never the empty string that reading an absent map entry yields. */
  lemma JoinedKeyHasSeparator(p: string, u: string)
    ensures HasSeparator(Join(p, u)) && Join(p, u) != ""
  {
    assert SeparatorAt(Join(p, u), |p|);
  }

  /** `req.String()`: namespace, slash, name. */
  function MappingKey(req: Request): string {
    req.namespace + "/" + req.name
  }

  /** Mapping keys tell requests apart, since namespaces contain no slash. */
  lemma MappingKeyInjective(a: Request, b: Request)
    requires MappingKey(a) == MappingKey(b)
    ensures a == b
  {
    var key := MappingKey(a);
    assert key[|a.namespace|] == '/' && key[|b.namespace|] == '/';
    assert a.namespace == key[..|a.namespace|] && b.namespace == key[..|b.namespace|];
    assert |a.namespace| == |b.namespace|;
    assert a.name == key[|a.namespace| + 1..] && b.name == key[|b.namespace| + 1..];
  }
}
