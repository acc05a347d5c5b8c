/** Where the texts of a promotion lead: joined paths as the file system walks them, the file placed at the
    end of one, and which of them stay away from the object store, the cache and the index. */
module Routes {
  import opened Wrappers
  import opened Order
  import opened Text
  import opened FileSystem
  import opened Lab
  import opened Ingest

  /** A joined path: where it starts, the parts it is walked by, and whether it ends in a file name. */
  datatype Route = Route(start: Path, parts: seq<string>, named: bool)

  const STORE_ROOT: Route := Route(ARTIFACTS, [], false)

  predicate IsAbsolute(text: string) { text != "" && text[0] == '/' }

  function LastPiece(text: string): string {
    var pieces := Split(text, '/');
    pieces[|pieces| - 1]
  }

  /** `Path::join` */
  function Joined(r: Route, text: string): Route {
    Route(if IsAbsolute(text) then [] else r.start,
          (if IsAbsolute(text) then [] else r.parts) + Components(text), ValidName(LastPiece(text)))
  }

  function ManifestName(r: Reference): string {
    r.name + "@" + r.version + ".json"
  }

  /** `manifest_path` */
  function ManifestRoute(r: Reference): Route {
    Joined(Joined(STORE_ROOT, r.kind), ManifestName(r))
  }

  /** `alias_path` */
  function AliasRoute(r: Reference, alias: string): Route {
    Joined(Joined(Joined(STORE_ROOT, r.kind), r.name), alias)
  }

  // ---------------------------------------------------------------- walking

  function Move(at: Path, part: string): Path {
    if part == ".." then Parent(at) else at + [part]
  }

  function Walked(at: Path, parts: seq<string>): Path
    decreases |parts|
  {
    if parts == [] then at else Walked(Move(at, parts[0]), parts[1..])
  }

  /** Every place the walk comes through, its start and its end included. */
  function Waypoints(at: Path, parts: seq<string>): seq<Path>
    decreases |parts|
  {
    [at] + if parts == [] then [] else Waypoints(Move(at, parts[0]), parts[1..])
  }

  /** At or above a place the walk comes through. */
  ghost predicate OnTheWay(at: Path, parts: seq<string>, q: Path) {
    exists v :: v in Waypoints(at, parts) && q <= v
  }

  function End(r: Route): Path {
    Walked(r.start, r.parts)
  }

  function ManifestPath(r: Reference): Path { End(ManifestRoute(r)) }

  function AliasPath(r: Reference, alias: string): Path { End(AliasRoute(r, alias)) }

  predicate Passable(d: Disk, at: Path, parts: seq<string>)
    decreases |parts|
  {
    at in d.dirs && (parts == [] || Passable(d, Move(at, parts[0]), parts[1..]))
  }

  predicate EndsInName(r: Route) {
    r.named && r.parts != [] && r.parts[|r.parts| - 1] != ".."
  }

  /** `is_file`: directories all along the way and a file at its end. */
  predicate Found(d: Disk, r: Route) {
    EndsInName(r) && Passable(d, r.start, r.parts[..|r.parts| - 1]) && End(r) in d.names
  }

  predicate Blocked(d: Disk, p: Path) {
    exists k :: 0 <= k <= |p| && p[..k] in d.names
  }

  /** `create_dir_all`: every directory on the way, up to the first one that a file stands in for. */
  function Enter(d: Disk, at: Path, parts: seq<string>): (Disk, bool)
    decreases |parts|
  {
    if Blocked(d, at) then (d, false)
    else
      var d1 := MakeDir(d, at);
      if parts == [] then (d1, true) else Enter(d1, Move(at, parts[0]), parts[1..])
  }

  /** `write_text_atomic`: make the parents, then rename a finished file over the name. */
  function Deposit(d: Disk, r: Route, data: Data): (Disk, Result<()>) {
    if r.parts == [] then (d, Err(Io))
    else
      var n := |r.parts| - 1;
      var (d1, entered) := Enter(d, r.start, r.parts[..n]);
      if !entered then (d1, Err(Io))
      else if r.parts[n] == ".." then (d1, Err(Validation))
      else if !r.named || End(r) in d1.dirs then (d1, Err(Io))
      else (Replace(d1, End(r), data), Ok(()))
  }

  lemma {:induction false} WalkedLast(at: Path, parts: seq<string>)
    requires parts != []
    ensures Walked(at, parts) == Move(Walked(at, parts[..|parts| - 1]), parts[|parts| - 1])
    decreases |parts|
  {
    if |parts| > 1 {
      WalkedLast(Move(at, parts[0]), parts[1..]);
      assert parts[1..][..|parts| - 2] == parts[..|parts| - 1][1..];
    }
  }

  lemma {:induction false} WalkedToEnd(at: Path, parts: seq<string>)
    ensures Walked(at, parts) in Waypoints(at, parts)
    decreases |parts|
  {
    if parts != [] {
      WalkedToEnd(Move(at, parts[0]), parts[1..]);
    }
  }

  lemma {:induction false} WalkedOn(at: Path, a: seq<string>, b: seq<string>)
    ensures Walked(at, a + b) == Walked(Walked(at, a), b)
    decreases |a|
  {
    if a == [] {
      assert a + b == b;
    } else {
      WalkedOn(Move(at, a[0]), a[1..], b);
      assert (a + b)[1..] == a[1..] + b;
    }
  }

  /** Without `..` a walk only goes down. */
  lemma {:induction false} WalkedDown(at: Path, parts: seq<string>)
    requires ".." !in parts
    ensures Walked(at, parts) == at + parts
    decreases |parts|
  {
    if parts == [] {
      assert at + parts == at;
    } else {
      assert parts[0] in parts;
      WalkedDown(at + [parts[0]], parts[1..]);
      assert at + parts == at + [parts[0]] + parts[1..];
    }
  }

  // ---------------------------------------------------------------- what placing a file does to the disk

  lemma ReplaceKeepsShape(d: Disk, p: Path, data: Data)
    requires d.WellFormed() && d.CanWrite(p)
    ensures Replace(d, p, data).WellFormed()
  {
    var bare := Unlink(d, {p});
    UnlinkKeepsShape(d, {p});
    forall q | q < p ensures q !in bare.names { CanWriteElim(d, p, q); }
    CanWriteIntro(bare, p);
    WriteKeepsShape(bare, p, data);
    assert Replace(d, p, data).names == Write(bare, p, data).names;
    assert Replace(d, p, data) == Write(bare, p, data);
  }

  lemma FreeOfFiles(d: Disk, p: Path)
    requires !Blocked(d, p)
    ensures forall q :: q <= p ==> q !in d.names
  {
    forall q | q <= p ensures q !in d.names {
      assert q == p[..|q|];
    }
  }

  /** Entering only adds directories, each at or above a place on the way. */
  lemma {:induction false} Entered(d: Disk, at: Path, parts: seq<string>)
    requires d.WellFormed()
    ensures var (d', ok) := Enter(d, at, parts);
      && d'.WellFormed() && d'.names == d.names && d'.inodes == d.inodes && d'.next == d.next && d.dirs <= d'.dirs
      && (forall q :: q in d'.dirs && q !in d.dirs ==> OnTheWay(at, parts, q))
      && (ok ==> Passable(d', at, parts) && !Blocked(d, Walked(at, parts)))
    decreases |parts|
  {
    hide FileSystem.Disk.WellFormed, OnTheWay;
    if !Blocked(d, at) {
      var d1 := MakeDir(d, at);
      FreeOfFiles(d, at);
      MakeDirKeepsShape(d, at);
      forall q | q in d1.dirs && q !in d.dirs ensures OnTheWay(at, parts, q) {
        AncestorMember(q, at);
        WayStarts(at, parts, q);
      }
      if parts != [] {
        var next := Move(at, parts[0]);
        Entered(d1, next, parts[1..]);
        forall q | OnTheWay(next, parts[1..], q) ensures OnTheWay(at, parts, q) { WayGoesOn(at, parts, q); }
      }
    }
  }

  lemma WayStarts(at: Path, parts: seq<string>, q: Path)
    requires q <= at
    ensures OnTheWay(at, parts, q)
  {
    assert at in Waypoints(at, parts) by { assert Waypoints(at, parts)[0] == at; }
  }

  lemma WayGoesOn(at: Path, parts: seq<string>, q: Path)
    requires parts != [] && OnTheWay(Move(at, parts[0]), parts[1..], q)
    ensures OnTheWay(at, parts, q)
  {
    var next := Move(at, parts[0]);
    var v :| v in Waypoints(next, parts[1..]) && q <= v;
    assert Waypoints(at, parts) == [at] + Waypoints(next, parts[1..]);
    assert v in Waypoints(at, parts);
  }

  /** A placed file has a fresh inode and is found again; every other name keeps its inode. */
  lemma Deposited(d: Disk, r: Route, data: Data)
    requires d.WellFormed()
    ensures var (d', res) := Deposit(d, r, data);
      && d'.WellFormed() && d.dirs <= d'.dirs && d.next <= d'.next
      && (forall q :: q in d'.dirs && q !in d.dirs ==> OnTheWay(r.start, r.parts, q))
      && (forall i :: i in d.inodes ==> i in d'.inodes && d'.inodes[i] == d.inodes[i])
      && (if res.Ok? then
            EndsInName(r) && d'.names == d.names[End(r) := d.next] && Found(d', r) && d'.At(End(r)) == data
          else d'.names == d.names)
  {
    hide Enter, Blocked, Passable, Waypoints, Walked, FileSystem.Disk.WellFormed;
    if r.parts != [] {
      var n := |r.parts| - 1;
      var (d1, entered) := Enter(d, r.start, r.parts[..n]);
      Entered(d, r.start, r.parts[..n]);
      WaypointsPrefix(r.start, r.parts, n);
      WalkedLast(r.start, r.parts);
      WalkedToEnd(r.start, r.parts);
      if entered && r.parts[n] != ".." && r.named && End(r) !in d1.dirs {
        var before := Walked(r.start, r.parts[..n]);
        assert End(r) == before + [r.parts[n]];
        FreeOfFiles(d, before);
        CanWriteIntro(d1, End(r));
        NextIsFresh(d);
        ReplaceKeepsShape(d1, End(r), data);
        forall q | q in Ancestors(End(r)) ensures q <= End(r) { AncestorMember(q, End(r)); }
        MorePassable(d1, Replace(d1, End(r), data), r.start, r.parts[..n]);
      }
    }
  }

  lemma DirIsClear(d: Disk, at: Path)
    requires d.WellFormed() && at in d.dirs
    ensures !Blocked(d, at) && MakeDir(d, at) == d
  {
    forall q | q <= at ensures q in d.dirs && q !in d.names {
      AncestorIsDir(d, q, at);
      if q in d.names { FileIsNoDir(d, q); }
    }
    assert forall k :: 0 <= k <= |at| ==> at[..k] <= at;
    assert MakeDir(d, at).dirs == d.dirs;
  }

  /** Where every directory on the way exists, entering changes nothing. */
  lemma {:induction false} PassableEnters(d: Disk, at: Path, parts: seq<string>)
    requires d.WellFormed() && Passable(d, at, parts)
    ensures Enter(d, at, parts) == (d, true)
    decreases |parts|
  {
    hide FileSystem.Disk.WellFormed, Blocked;
    DirIsClear(d, at);
    if parts != [] {
      PassableEnters(d, Move(at, parts[0]), parts[1..]);
    }
  }

  /** A file that was placed once can be placed again. */
  lemma DepositAgain(d: Disk, r: Route, data: Data)
    requires d.WellFormed() && EndsInName(r) && Passable(d, r.start, r.parts[..|r.parts| - 1]) && End(r) in d.names
    ensures Deposit(d, r, data).1.Ok?
  {
    hide FileSystem.Disk.WellFormed, Enter, Passable;
    PassableEnters(d, r.start, r.parts[..|r.parts| - 1]);
    FileIsNoDir(d, End(r));
  }

  lemma BlockedBelow(d: Disk, a: Path, b: Path)
    requires Blocked(d, a) && a <= b
    ensures Blocked(d, b)
  {
    var k :| 0 <= k <= |a| && a[..k] in d.names;
    assert b[..k] == a[..k];
  }

  /** A walk without `..` can be entered when no file stands in for a directory on it. */
  lemma {:induction false} EnterDown(d: Disk, at: Path, parts: seq<string>)
    requires ".." !in parts
    ensures Enter(d, at, parts).1 <==> !Blocked(d, at + parts)
    decreases |parts|
  {
    hide Blocked;
    if parts == [] {
      assert at + parts == at;
    } else {
      assert parts[0] in parts;
      var next := at + [parts[0]];
      assert next + parts[1..] == at + parts;
      if Blocked(d, at) {
        BlockedBelow(d, at, at + parts);
      } else {
        EnterDown(MakeDir(d, at), next, parts[1..]);
        BlockedByNames(d, MakeDir(d, at), at + parts);
      }
    }
  }

  lemma BlockedByNames(d: Disk, d': Disk, p: Path)
    requires d'.names == d.names
    ensures Blocked(d', p) <==> Blocked(d, p)
  {
  }

  /** Where a walk without `..` ends a file can be placed exactly when nothing is in the way. */
  lemma DepositDown(d: Disk, r: Route, data: Data)
    requires d.WellFormed() && ".." !in r.parts && r.parts != [] && r.named
    ensures Deposit(d, r, data).1.Ok? <==> d.CanWrite(End(r))
  {
    hide Enter, FileSystem.Disk.WellFormed, Waypoints;
    var n := |r.parts| - 1;
    var front := r.parts[..n];
    assert r.parts[n] in r.parts;
    WalkedDown(r.start, r.parts);
    WalkedLast(r.start, r.parts);
    WalkedDown(r.start, front);
    EnterDown(d, r.start, front);
    Entered(d, r.start, front);
    var before := r.start + front;
    assert End(r) == before + [r.parts[n]];
    if d.CanWrite(End(r)) {
      forall k | 0 <= k <= |before| ensures before[..k] !in d.names {
        assert before[..k] == End(r)[..k];
      }
      EndIsNew(d, r, front);
    } else if !Blocked(d, before) && End(r) !in d.dirs {
      forall q | q < End(r) ensures q !in d.names {
        assert q <= before;
        FreeOfFiles(d, before);
      }
      CanWriteIntro(d, End(r));
    }
  }

  lemma EndIsNew(d: Disk, r: Route, front: seq<string>)
    requires d.WellFormed() && ".." !in front && End(r) !in d.dirs && |End(r)| > |r.start + front|
    ensures End(r) !in Enter(d, r.start, front).0.dirs
  {
    hide Enter, FileSystem.Disk.WellFormed, End;
    Entered(d, r.start, front);
    if OnTheWay(r.start, front, End(r)) {
      var v :| v in Waypoints(r.start, front) && End(r) <= v;
      WaypointsDown(r.start, front, v);
    }
  }

  lemma {:induction false} WaypointsDown(at: Path, parts: seq<string>, v: Path)
    requires ".." !in parts && v in Waypoints(at, parts)
    ensures |v| <= |at + parts|
    decreases |parts|
  {
    if parts != [] && v != at {
      assert parts[0] in parts;
      assert Waypoints(at, parts) == [at] + Waypoints(at + [parts[0]], parts[1..]);
      WaypointsDown(at + [parts[0]], parts[1..], v);
    }
  }

  lemma NextIsFresh(d: Disk)
    requires d.WellFormed()
    ensures d.next !in d.inodes
  {
  }

  lemma {:induction false} WaypointsPrefix(at: Path, parts: seq<string>, n: nat)
    requires n <= |parts|
    ensures forall v :: v in Waypoints(at, parts[..n]) ==> v in Waypoints(at, parts)
    decreases |parts|
  {
    if n > 0 {
      WaypointsPrefix(Move(at, parts[0]), parts[1..], n - 1);
      assert parts[..n][1..] == parts[1..][..n - 1];
    }
  }

  lemma {:induction false} MorePassable(d: Disk, d': Disk, at: Path, parts: seq<string>)
    requires d.dirs <= d'.dirs && Passable(d, at, parts)
    ensures Passable(d', at, parts)
    decreases |parts|
  {
    if parts != [] {
      MorePassable(d, d', Move(at, parts[0]), parts[1..]);
    }
  }

  // ---------------------------------------------------------------- staying away from the store

  /** Names directly below the artifact root that are not for manifests and aliases. */
  predicate IsReserved(part: string) {
    part == "objects" || part == "materialized" || part == "index.jsonl"
  }

  /** Where manifests and aliases belong. */
  predicate InCatalog(p: Path) {
    ARTIFACTS <= p && (|p| > 1 ==> !IsReserved(p[1]))
  }

  /** Read off the parts alone: `..` never leaves the artifact root, and no part directly below it is reserved. */
  predicate StaysInside(parts: seq<string>, depth: nat) {
    parts == [] ||
    if parts[0] == ".." then depth > 0 && StaysInside(parts[1..], depth - 1)
    else (depth > 0 || !IsReserved(parts[0])) && StaysInside(parts[1..], depth + 1)
  }

  predicate IsSeparate(r: Route) {
    r.start == ARTIFACTS && StaysInside(r.parts, 0)
  }

  lemma {:induction false} InsideExactlyWhen(at: Path, parts: seq<string>)
    requires InCatalog(at)
    ensures StaysInside(parts, |at| - 1) <==> forall v :: v in Waypoints(at, parts) ==> InCatalog(v)
    decreases |parts|
  {
    if parts != [] {
      var next := Move(at, parts[0]);
      WaypointsStart(next, parts[1..]);
      assert Waypoints(at, parts) == [at] + Waypoints(next, parts[1..]);
      if parts[0] == ".." {
        if |at| > 1 {
          assert InCatalog(next);
          InsideExactlyWhen(next, parts[1..]);
        } else {
          assert at == ARTIFACTS && next == [];
        }
      } else if |at| > 1 || !IsReserved(parts[0]) {
        assert InCatalog(next);
        InsideExactlyWhen(next, parts[1..]);
      } else {
        assert at == ARTIFACTS && next[1] == parts[0];
        assert next in Waypoints(at, parts) && !InCatalog(next);
      }
    }
  }

  lemma WaypointsStart(at: Path, parts: seq<string>)
    ensures at in Waypoints(at, parts)
  {
  }

  /** Everything a joined path comes through is outside the store, the cache and the index, and below the
      artifact root, exactly when its parts say so. */
  lemma SeparateExactlyWhen(r: Route)
    requires r.start == ARTIFACTS || r.start == []
    ensures IsSeparate(r) <==> forall v :: v in Waypoints(r.start, r.parts) ==> InCatalog(v)
  {
    WaypointsStart(r.start, r.parts);
    if r.start == ARTIFACTS {
      InsideExactlyWhen(ARTIFACTS, r.parts);
    }
  }

  lemma {:induction false} InsideUpToLast(parts: seq<string>, a: string, b: string, depth: nat)
    requires a != ".." && !IsReserved(a) && b != ".." && !IsReserved(b)
    ensures StaysInside(parts + [a], depth) <==> StaysInside(parts + [b], depth)
    decreases |parts|
  {
    if parts == [] {
      assert parts + [a] == [a] && parts + [b] == [b];
    } else {
      assert (parts + [a])[1..] == parts[1..] + [a] && (parts + [b])[1..] == parts[1..] + [b];
      InsideUpToLast(parts[1..], a, b, depth + 1);
      if depth > 0 {
        InsideUpToLast(parts[1..], a, b, depth - 1);
      }
    }
  }

  // ---------------------------------------------------------------- texts and parts

  lemma {:induction false} SplitAppend(a: string, s: string)
    requires '/' !in s
    ensures var pieces := Split(a, '/');
      Split(a + s, '/') == pieces[..|pieces| - 1] + [pieces[|pieces| - 1] + s]
    decreases |a|
  {
    hide IndexOf;
    var i := IndexOf(a, '/');
    if i == |a| {
      assert a[..i] == a;
      IndexOfAbsent(a + s, '/');
    } else {
      var rest := a[i + 1..];
      assert a == a[..i] + ['/'] + rest && a + s == a[..i] + ['/'] + (rest + s);
      IndexOfFirst(a[..i], '/', rest + s);
      assert (a + s)[i + 1..] == rest + s && (a + s)[..i] == a[..i];
      SplitAppend(rest, s);
    }
  }

  /** The parts before the last piece. */
  function Front(text: string): seq<string> {
    var pieces := Split(text, '/');
    Filter(pieces[..|pieces| - 1], n => n != "" && n != ".")
  }

  lemma ComponentsSplit(text: string)
    ensures Components(text)
         == Front(text) + if LastPiece(text) != "" && LastPiece(text) != "." then [LastPiece(text)] else []
  {
    var pieces := Split(text, '/');
    var n := |pieces| - 1;
    var keep := (n: string) => n != "" && n != ".";
    assert pieces == pieces[..n] + [pieces[n]];
    FilterAppends(pieces[..n], [pieces[n]], keep);
    assert Filter([pieces[n]], keep) == if keep(pieces[n]) then [pieces[n]] else [];
  }

  /** Appending a text without '/' only lengthens the last piece. */
  lemma Lengthened(a: string, s: string)
    requires '/' !in s
    ensures Front(a + s) == Front(a) && LastPiece(a + s) == LastPiece(a) + s
  {
    SplitAppend(a, s);
    var pieces := Split(a, '/');
    assert Split(a + s, '/')[..|pieces| - 1] == pieces[..|pieces| - 1];
  }

  /** A joined path that ends in a file name has it as its last part. */
  lemma JoinedEnds(r: Route, text: string)
    ensures Joined(r, text).named ==> EndsInName(Joined(r, text))
  {
    ComponentsSplit(text);
  }

  lemma SimpleText(text: string)
    requires ValidName(text)
    ensures Components(text) == [text] && LastPiece(text) == text && !IsAbsolute(text)
  {
    IndexOfAbsent(text, '/');
    assert Split(text, '/') == [text];
    assert text[0] in text;
    ComponentsSplit(text);
    assert Front(text) == [];
  }

  /** The manifest's file name always ends in one. */
  lemma ManifestNameEnds(r: Reference)
    ensures ManifestRoute(r).named && EndsInName(ManifestRoute(r))
    ensures var last := LastPiece(ManifestName(r));
      && |last| >= 5 && last[|last| - 5..] == ".json"
      && Components(ManifestName(r)) == Front(ManifestName(r)) + [last]
  {
    var stem := r.name + "@" + r.version;
    assert ManifestName(r) == stem + ".json";
    Lengthened(stem, ".json");
    var last := LastPiece(ManifestName(r));
    assert last == LastPiece(stem) + ".json";
    assert |last| > 2;
    SplitPieces(ManifestName(r), '/');
    ComponentsSplit(ManifestName(r));
    JoinedEnds(Joined(STORE_ROOT, r.kind), ManifestName(r));
  }

  lemma JsonIsNotReserved(s: string)
    requires |s| >= 5 && s[|s| - 5..] == ".json"
    ensures s != ".." && !IsReserved(s)
  {
    assert s[|s| - 1] == 'n';
  }

  /** Which version without '/' is used does not matter for separation. */
  lemma AnyVersionSeparates(kind: string, name: string, v: string, v': string)
    requires '/' !in v && '/' !in v'
    ensures IsSeparate(ManifestRoute(Reference(kind, name, v))) <==>
            IsSeparate(ManifestRoute(Reference(kind, name, v')))
  {
    hide Split, Filter, Components, StaysInside, IsReserved;
    var r, r' := Reference(kind, name, v), Reference(kind, name, v');
    ManifestNameEnds(r);
    ManifestNameEnds(r');
    assert ManifestName(r) == name + ("@" + v + ".json") && ManifestName(r') == name + ("@" + v' + ".json");
    Lengthened(name, "@" + v + ".json");
    Lengthened(name, "@" + v' + ".json");
    var a, b := LastPiece(ManifestName(r)), LastPiece(ManifestName(r'));
    JsonIsNotReserved(a);
    JsonIsNotReserved(b);
    SameStart(name, "@" + v + ".json", "@" + v' + ".json");
    var base := Joined(STORE_ROOT, kind);
    var front := (if IsAbsolute(ManifestName(r)) then [] else base.parts) + Front(name);
    assert ManifestRoute(r).parts == front + [a] && ManifestRoute(r').parts == front + [b];
    InsideUpToLast(front, a, b, 0);
  }

  lemma SameStart(name: string, a: string, b: string)
    requires a != "" && b != "" && a[0] == b[0]
    ensures IsAbsolute(name + a) <==> IsAbsolute(name + b)
  {
    assert (name + a)[0] == (name + b)[0];
  }

  // ---------------------------------------------------------------- a disk that objects and catalog files are added to

  /** Objects appear; files of the catalog appear or are replaced; each has a fresh inode. Nothing else changes. */
  ghost predicate Extends(d: Disk, d': Disk) {
    && d.next <= d'.next
    && d.dirs <= d'.dirs
    && (forall q :: q in d'.dirs && q !in d.dirs ==> q <= OBJECTS || OBJECTS <= q || InCatalog(q))
    && (forall p :: p in d.names ==> p in d'.names)
    && (forall p :: p in d.names && !InCatalog(p) ==> d'.names[p] == d.names[p])
    && (forall i :: i in d.inodes ==> i in d'.inodes && d'.inodes[i] == d.inodes[i])
    && (forall p :: p in d'.names && !(p in d.names && d'.names[p] == d.names[p]) ==>
          (OBJECTS < p || InCatalog(p)) && d.next <= d'.names[p])
  }

  lemma GrowsExtends(d: Disk, d': Disk)
    requires Grows(d, d')
    ensures Extends(d, d')
  {
  }

  lemma ExtendsSame(d: Disk)
    ensures Extends(d, d)
  {
  }

  lemma ExtendsChains(d0: Disk, d1: Disk, d2: Disk)
    requires Extends(d0, d1) && Extends(d1, d2)
    ensures Extends(d0, d2)
  {
  }

  lemma CatalogIsApart(p: Path)
    requires InCatalog(p)
    ensures !(OBJECTS <= p) && !(MATERIALIZED <= p)
  {
    if |p| > 1 {
      assert p[1] != OBJECTS[1] && p[1] != MATERIALIZED[1];
    }
  }

  lemma DepositExtends(d: Disk, r: Route, data: Data)
    requires d.WellFormed() && IsSeparate(r)
    ensures var d' := Deposit(d, r, data).0; d'.WellFormed() && Extends(d, d')
  {
    hide Deposit, Waypoints, FileSystem.Disk.WellFormed, StaysInside;
    Deposited(d, r, data);
    SeparateExactlyWhen(r);
    WalkedToEnd(r.start, r.parts);
    var d' := Deposit(d, r, data).0;
    forall q | q in d'.dirs && q !in d.dirs ensures q <= OBJECTS || InCatalog(q) {
      var v :| v in Waypoints(r.start, r.parts) && q <= v;
      PrefixOfCatalog(q, v);
    }
    forall p | p in d'.names && !(p in d.names && d'.names[p] == d.names[p])
      ensures InCatalog(p) && d.next <= d'.names[p]
    {
      assert p == End(r);
    }
  }

  /** Outside the catalog a separate file changes nothing but directories above the store. */
  lemma DepositSpares(d: Disk, r: Route, data: Data)
    requires d.WellFormed() && IsSeparate(r)
    ensures var d' := Deposit(d, r, data).0;
      && (forall p :: !InCatalog(p) ==> (p in d'.names <==> p in d.names))
      && (forall p :: !InCatalog(p) && p in d.names ==> d'.names[p] == d.names[p] && d'.At(p) == d.At(p))
      && (forall q :: !InCatalog(q) && !(q <= OBJECTS) ==> (q in d'.dirs <==> q in d.dirs))
      && (forall p :: p in d'.names ==> d'.names[p] == d.next || (p in d.names && d'.names[p] == d.names[p]))
      && (forall p, q :: p in d'.names && q in d'.names && d'.names[p] == d.next && d'.names[q] == d.next ==> p == q)
  {
    hide Deposit, Waypoints, StaysInside;
    Deposited(d, r, data);
    DepositExtends(d, r, data);
    SeparateExactlyWhen(r);
    WalkedToEnd(r.start, r.parts);
    var d' := Deposit(d, r, data).0;
    forall q | OBJECTS <= q ensures !InCatalog(q) { CatalogIsApartFrom(q); }
    assert forall p :: p in d.names ==> d.names[p] in d.inodes && d.names[p] < d.next;
  }

  lemma PrefixOfCatalog(q: Path, v: Path)
    requires InCatalog(v) && q <= v
    ensures q <= OBJECTS || InCatalog(q)
  {
    if |q| > 0 {
      assert q[0] == v[0] && ARTIFACTS <= q;
      assert |q| > 1 ==> q[1] == v[1];
      assert |q| == 1 ==> q == ARTIFACTS;
    }
  }

  lemma CatalogIsApartFrom(p: Path)
    requires OBJECTS <= p || MATERIALIZED <= p || !(ARTIFACTS <= p)
    ensures !InCatalog(p)
  {
    if InCatalog(p) {
      CatalogIsApart(p);
    }
  }

  // ---------------------------------------------------------------- the operation

  /** `create_dir_all`, part by part; stops where a file stands in for a directory. */
  method EnterDirectories(lab: Project, start: Path, parts: seq<string>) returns (entered: bool)
    modifies lab
    ensures lab.View() == old(lab.View()).(disk := Enter(old(lab.OnDisk()), start, parts).0)
    ensures entered == Enter(old(lab.OnDisk()), start, parts).1
  {
    hide MakeDir, Move;
    var at := start;
    var i := 0;
    while true
      invariant 0 <= i <= |parts|
      invariant lab.View() == old(lab.View()).(disk := lab.OnDisk())
      invariant Enter(lab.OnDisk(), at, parts[i..]) == Enter(old(lab.OnDisk()), start, parts)
      decreases |parts| - i
    {
      if exists k :: 0 <= k <= |at| && at[..k] in lab.names {
        return false;
      }
      lab.MakeDirectory(at);
      if i == |parts| {
        return true;
      }
      assert parts[i..][1..] == parts[i + 1..];
      at := Move(at, parts[i]);
      i := i + 1;
    }
  }

  method DepositFile(lab: Project, r: Route, data: Data) returns (res: Result<()>)
    modifies lab
    ensures lab.View() == old(lab.View()).(disk := Deposit(old(lab.OnDisk()), r, data).0)
    ensures res == Deposit(old(lab.OnDisk()), r, data).1
  {
    hide Enter, Walked, Replace;
    if r.parts == [] {
      return Err(Io);
    }
    var n := |r.parts| - 1;
    var entered := EnterDirectories(lab, r.start, r.parts[..n]);
    if !entered {
      return Err(Io);
    }
    if r.parts[n] == ".." {
      return Err(Validation);
    }
    var target := End(r);
    if !r.named || target in lab.dirs {
      return Err(Io);
    }
    lab.ReplaceFile(target, data);
    res := Ok(());
  }
}
