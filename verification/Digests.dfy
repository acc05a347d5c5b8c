/** The assumption about digests can be met: an encoding of contents as hex texts without collisions. */
module Digests {
  import opened FileSystem
  import opened Lab

  function Unary(n: nat): (s: string)
    ensures |s| > n
  {
    if n == 0 then "0" else "1" + Unary(n - 1)
  }

  function Code(ns: seq<nat>): string {
    if ns == [] then "" else Unary(ns[0]) + Code(ns[1..])
  }

  lemma {:induction false} UnarySplits(m: nat, n: nat, x: string, y: string)
    requires Unary(m) + x == Unary(n) + y
    ensures m == n && x == y
  {
    assert (Unary(m) + x)[0] == Unary(m)[0] && (Unary(n) + y)[0] == Unary(n)[0];
    assert (Unary(m) + x)[1..] == Unary(m)[1..] + x && (Unary(n) + y)[1..] == Unary(n)[1..] + y;
    if m > 0 && n > 0 {
      UnarySplits(m - 1, n - 1, x, y);
    } else {
      assert Unary(0)[1..] + x == x && Unary(0)[1..] + y == y;
    }
  }

  lemma {:induction false} CodeIsInjective(ms: seq<nat>, ns: seq<nat>)
    requires Code(ms) == Code(ns)
    ensures ms == ns
  {
    if ms != [] && ns != [] {
      UnarySplits(ms[0], ns[0], Code(ms[1..]), Code(ns[1..]));
      CodeIsInjective(ms[1..], ns[1..]);
      assert ms == [ms[0]] + ms[1..] && ns == [ns[0]] + ns[1..];
    }
  }

  lemma {:induction false} CodeIsHex(ns: seq<nat>)
    ensures forall i :: 0 <= i < |Code(ns)| ==> IsHexDigit(Code(ns)[i])
  {
    if ns != [] {
      UnaryIsHex(ns[0]);
      CodeIsHex(ns[1..]);
    }
  }

  lemma {:induction false} UnaryIsHex(n: nat)
    ensures forall i :: 0 <= i < |Unary(n)| ==> IsHexDigit(Unary(n)[i])
  {
    if n > 0 {
      UnaryIsHex(n - 1);
    }
  }

  function Chars(s: string): (ns: seq<nat>)
    ensures |ns| == |s| + 1 && ns[0] == |s|
    ensures forall i :: 0 <= i < |s| ==> ns[i + 1] == s[i] as nat
  {
    [|s|] + seq(|s|, i requires 0 <= i < |s| => s[i] as nat)
  }

  lemma CharsSplit(s: string, t: string, x: seq<nat>, y: seq<nat>)
    requires Chars(s) + x == Chars(t) + y
    ensures s == t && x == y
  {
    assert (Chars(s) + x)[0] == |s| && (Chars(t) + y)[0] == |t|;
    forall i | 0 <= i < |s| ensures s[i] == t[i] {
      assert (Chars(s) + x)[i + 1] == s[i] as nat && (Chars(t) + y)[i + 1] == t[i] as nat;
    }
    assert x == (Chars(s) + x)[|s| + 1..] && y == (Chars(t) + y)[|t| + 1..];
  }

  function EntriesCode(es: seq<TreeEntry>): seq<nat> {
    if es == [] then []
    else Chars(es[0].path) + (Chars(es[0].sha256) + ([es[0].mode] + EntriesCode(es[1..])))
  }

  lemma {:induction false} EntriesCodeIsInjective(es: seq<TreeEntry>, fs: seq<TreeEntry>)
    requires EntriesCode(es) == EntriesCode(fs)
    ensures es == fs
  {
    if es != [] && fs != [] {
      var restE, restF := [es[0].mode] + EntriesCode(es[1..]), [fs[0].mode] + EntriesCode(fs[1..]);
      CharsSplit(es[0].path, fs[0].path, Chars(es[0].sha256) + restE, Chars(fs[0].sha256) + restF);
      CharsSplit(es[0].sha256, fs[0].sha256, restE, restF);
      assert restE[0] == es[0].mode && restF[0] == fs[0].mode;
      assert restE[1..] == EntriesCode(es[1..]) && restF[1..] == EntriesCode(fs[1..]);
      EntriesCodeIsInjective(es[1..], fs[1..]);
      assert es == [es[0]] + es[1..] && fs == [fs[0]] + fs[1..];
    }
  }

  function PathCode(p: Path): seq<nat> {
    if p == [] then [0] else [1] + (Chars(p[0]) + PathCode(p[1..]))
  }

  lemma PathCodeBegins(p: Path, x: seq<nat>)
    ensures PathCode(p) + x == if p == [] then [0] + x else [1] + (Chars(p[0]) + (PathCode(p[1..]) + x))
  {
    hide Chars;
  }

  lemma {:induction false} PathsSplit(p: Path, q: Path, x: seq<nat>, y: seq<nat>)
    requires PathCode(p) + x == PathCode(q) + y
    ensures p == q && x == y
  {
    hide PathCode, Chars;
    PathCodeBegins(p, x);
    PathCodeBegins(q, y);
    var codeP, codeQ := PathCode(p) + x, PathCode(q) + y;
    assert codeP[0] == codeQ[0] && codeP[1..] == codeQ[1..];
    if p == [] {
      assert codeP[1..] == x && codeQ[1..] == y;
    } else {
      var restP, restQ := PathCode(p[1..]) + x, PathCode(q[1..]) + y;
      assert codeP[1..] == Chars(p[0]) + restP && codeQ[1..] == Chars(q[0]) + restQ;
      CharsSplit(p[0], q[0], restP, restQ);
      PathsSplit(p[1..], q[1..], x, y);
      assert p == [p[0]] + p[1..] && q == [q[0]] + q[1..];
    }
  }

  /** The texts of a manifest, in order. */
  function Texts(m: Manifest): Path {
    [m.reference.kind, m.reference.name, m.reference.version, m.sha256, if m.alias.Some? then m.alias.value else ""]
  }

  function ManifestCode(m: Manifest): seq<nat> {
    [if m.storage.FileStorage? then 0 else 1, if m.alias.Some? then 1 else 0, m.createdAt]
    + (PathCode(Texts(m)) + (PathCode(m.objectPath) + (PathCode(m.sourcePath) + [])))
  }

  lemma ManifestCodeIsInjective(m: Manifest, n: Manifest)
    requires ManifestCode(m) == ManifestCode(n)
    ensures m == n
  {
    hide PathCode;
    var restM := PathCode(m.objectPath) + (PathCode(m.sourcePath) + []);
    var restN := PathCode(n.objectPath) + (PathCode(n.sourcePath) + []);
    assert ManifestCode(m)[3..] == PathCode(Texts(m)) + restM && ManifestCode(n)[3..] == PathCode(Texts(n)) + restN;
    PathsSplit(Texts(m), Texts(n), restM, restN);
    PathsSplit(m.objectPath, n.objectPath, PathCode(m.sourcePath) + [], PathCode(n.sourcePath) + []);
    PathsSplit(m.sourcePath, n.sourcePath, [], []);
    assert ManifestCode(m)[0] == ManifestCode(n)[0] && ManifestCode(m)[1] == ManifestCode(n)[1];
    assert ManifestCode(m)[2] == ManifestCode(n)[2];
    assert forall i :: 0 <= i < 5 ==> Texts(m)[i] == Texts(n)[i];
    assert Texts(m)[0] == Texts(n)[0] && Texts(m)[1] == Texts(n)[1] && Texts(m)[2] == Texts(n)[2];
    assert Texts(m)[3] == Texts(n)[3] && Texts(m)[4] == Texts(n)[4];
  }

  function ContentCode(c: Content): seq<nat> {
    match c
    case Raw(bytes) => [0] + seq(|bytes|, i requires 0 <= i < |bytes| => bytes[i] as nat)
    case TreeDoc(entries) => [1] + EntriesCode(entries)
    case ManifestDoc(m) => [2] + ManifestCode(m)
    case AliasDoc(version, None) => [3] + (Chars(version) + [])
    case AliasDoc(version, Some(entries)) => [4] + (Chars(version) + EntriesCode(entries))
  }

  lemma ContentCodeIsInjective(c: Content, d: Content)
    requires ContentCode(c) == ContentCode(d)
    ensures c == d
  {
    assert ContentCode(c)[0] == ContentCode(d)[0];
    match c
    case Raw(bytes) =>
      forall i | 0 <= i < |bytes| ensures bytes[i] == d.bytes[i] {
        assert ContentCode(c)[i + 1] == bytes[i] as nat && ContentCode(d)[i + 1] == d.bytes[i] as nat;
      }
      assert |ContentCode(c)| == |bytes| + 1 && |ContentCode(d)| == |d.bytes| + 1;
      assert bytes == d.bytes;
    case TreeDoc(entries) =>
      assert ContentCode(c)[1..] == EntriesCode(entries) && ContentCode(d)[1..] == EntriesCode(d.entries);
      EntriesCodeIsInjective(entries, d.entries);
    case ManifestDoc(m) =>
      assert ContentCode(c)[1..] == ManifestCode(m) && ContentCode(d)[1..] == ManifestCode(d.manifest);
      ManifestCodeIsInjective(m, d.manifest);
    case AliasDoc(version, reading) =>
      var tailC := if reading.None? then [] else EntriesCode(reading.value);
      var tailD := if d.reading.None? then [] else EntriesCode(d.reading.value);
      assert ContentCode(c)[1..] == Chars(version) + tailC && ContentCode(d)[1..] == Chars(d.version) + tailD;
      CharsSplit(version, d.version, tailC, tailD);
      if reading.Some? {
        EntriesCodeIsInjective(reading.value, d.reading.value);
      }
  }

  function HexOf(ns: seq<nat>): string { "000" + Code(ns) }

  lemma HexIsDigest(ns: seq<nat>)
    ensures IsDigest(HexOf(ns))
  {
    CodeIsHex(ns);
  }

  lemma HexIsInjective(ms: seq<nat>, ns: seq<nat>)
    requires HexOf(ms) == HexOf(ns)
    ensures ms == ns
  {
    assert HexOf(ms)[3..] == Code(ms) && HexOf(ns)[3..] == Code(ns);
    CodeIsInjective(ms, ns);
  }

  const SAMPLE: Hash := Hash(c => HexOf(ContentCode(c)), es => HexOf(EntriesCode(es)))

  /** There is a way to digest contents that satisfies everything asked of digests. */
  lemma LawfulHashExists()
    ensures Lawful(SAMPLE)
  {
    hide HexOf, ContentCode, EntriesCode, IsDigest;
    forall c ensures IsDigest(SAMPLE.file(c)) { HexIsDigest(ContentCode(c)); }
    forall es ensures IsDigest(SAMPLE.tree(es)) { HexIsDigest(EntriesCode(es)); }
    forall c1, c2 | SAMPLE.file(c1) == SAMPLE.file(c2) ensures c1 == c2 {
      HexIsInjective(ContentCode(c1), ContentCode(c2));
      ContentCodeIsInjective(c1, c2);
    }
    forall e1, e2 | SAMPLE.tree(e1) == SAMPLE.tree(e2) ensures e1 == e2 {
      HexIsInjective(EntriesCode(e1), EntriesCode(e2));
      EntriesCodeIsInjective(e1, e2);
    }
  }
}
