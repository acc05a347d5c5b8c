/** Garbage-collection safety as an invariant of every run of the system: whatever the latest index
    rows and the completed runs name exists, with every blob it lists. */
module Safety {
  import opened Wrappers
  import opened Order
  import opened Text
  import opened FileSystem
  import opened Lab
  import opened Ingest
  import opened Routes
  import opened Materialize
  import opened Relink
  import opened Catalog
  import opened Gc
  import opened Glob
  import opened Retention
  import opened Lifecycle

  // ---------------------------------------------------------------- the invariant

  ghost predicate IsObject(p: Path) {
    exists sha :: IsDigest(sha) && (p == BlobPath(sha) || p == TreePath(sha))
  }

  predicate IsTreeFile(p: Path) { |p| >= 2 && p[|p| - 2] == "trees" }

  ghost predicate FullDigests(entries: seq<TreeEntry>) {
    forall i :: 0 <= i < |entries| ==> IsDigest(entries[i].sha256)
  }

  /** The object exists and, if it is a tree, so does every blob it lists. */
  ghost predicate Live(d: Disk, p: Path) {
    && p in d.names
    && (IsTreeFile(p) ==>
          && d.At(p).content.TreeDoc? && BlobsLive(d, d.At(p).content.entries)
          && FullDigests(d.At(p).content.entries))
  }

  /** A directory's event names its tree by digest and by path alike. */
  predicate Recorded(e: Event) {
    e.storage == Some(DirectoryStorage) && e.sha256.Some? ==> e.objectPath == Some(TreePath(e.sha256.value))
  }

  ghost predicate LineOk(d: Disk, line: Line) {
    line.Entry? && Recorded(line.event) && (line.event.objectPath.Some? ==>
      IsObject(line.event.objectPath.value) && Live(d, line.event.objectPath.value))
  }

  ghost predicate IndexOk(w: World) {
    && (forall i :: 0 <= i < |w.index| ==> IsObject(w.index[i].objectPath))
    && (forall k :: k in Latest(w.index) ==> Live(w.disk, Latest(w.index)[k].objectPath))
  }

  /** The lines of runs that are roots, or may still become roots, name live objects. */
  ghost predicate RunsOk(w: World) {
    forall id, i | id in w.runs && (w.runs[id].IsRoot() || w.runs[id].IsPending()) && 0 <= i < |w.runs[id].lines| ::
      LineOk(w.disk, w.runs[id].lines[i])
  }

  /** An output file of a run that is over; its inode may be a blob's. */
  predicate Frozen(w: World, p: Path) {
    |p| >= 3 && p[..3] == OutputsDir(p[1]) && p[1] in w.runs && !w.runs[p[1]].status.Pending()
  }

  predicate Free(w: World, p: Path) { !(OBJECTS <= p) && !Frozen(w, p) }

  /** No free path shares its inode with an object. */
  ghost predicate Isolated(w: World) {
    forall p, q :: p in w.disk.names && q in w.disk.names && OBJECTS <= p && Free(w, q) ==>
      w.disk.names[p] != w.disk.names[q]
  }

  /** Below the artifact root only objects share their inodes. */
  ghost predicate Unshared(d: Disk) {
    forall p, q :: p in d.names && q in d.names && ARTIFACTS <= p && !(OBJECTS <= p) && p != q ==>
      d.names[p] != d.names[q]
  }

  ghost predicate AllSeparate(filings: seq<Filing>) {
    forall i :: 0 <= i < |filings| ==> SeparateRow(filings[i].row)
  }

  /** The index is the row list of a history of promotions that kept away from the store, and the disk
      holds the files of that history. */
  ghost predicate FiledAs(w: World, filings: seq<Filing>) {
    Rows(filings) == w.index && Catalogued(w.disk, filings) && AllSeparate(filings)
  }

  ghost predicate CatalogOk(w: World) {
    exists filings :: FiledAs(w, filings)
  }

  /** Promoting a staged line again will keep away from the store. */
  ghost predicate LinesSeparate(lines: seq<Line>) {
    forall i :: 0 <= i < |lines| && lines[i].Entry? ==> SeparateEvent(lines[i].event)
  }

  ghost predicate RunsSeparate(runs: map<string, Run>) {
    forall id :: id in runs ==> LinesSeparate(runs[id].lines)
  }

  ghost predicate Inv(w: World) {
    && StoreOk(w.hash, w.disk)
    && IndexOk(w) && RunsOk(w) && Isolated(w)
    && CatalogOk(w) && RunsSeparate(w.runs)
    && NamedTreesComplete(w.hash, w.disk)
    && Unshared(w.disk)
  }

  /** What the collector must never break. */
  ghost predicate Safe(w: World) {
    && (forall k :: k in Latest(w.index) ==> Live(w.disk, Latest(w.index)[k].objectPath))
    && (forall id, p :: id in w.runs && w.runs[id].IsRoot() && p in LinePaths(w.runs[id].lines) ==> Live(w.disk, p))
  }

  lemma InvIsSafe(w: World)
    requires Inv(w)
    ensures Safe(w) && Readable(w)
  {
    hide StoreOk, Isolated, NamedTreesComplete, Unshared, CatalogOk, RunsSeparate;
    forall id, p | id in w.runs && w.runs[id].IsRoot() && p in LinePaths(w.runs[id].lines) ensures Live(w.disk, p) {
      var lines := w.runs[id].lines;
      var i :| 0 <= i < |lines| && lines[i].Entry? && lines[i].event.objectPath == Some(p);
      assert LineOk(w.disk, w.runs[id].lines[i]);
    }
    forall p | p in Roots(w) ensures Live(w.disk, p) {
      if p in IndexRoots(w.index) {
        var m :| m in Latest(w.index).Values && m.objectPath == p;
        var k :| k in Latest(w.index) && Latest(w.index)[k] == m;
      }
    }
    forall p | p in Roots(w) ensures InsertObject(w.disk, p).Ok? {
      LiveReads(w, p);
    }
    forall id, i | id in w.runs && w.runs[id].IsRoot() && 0 <= i < |w.runs[id].lines|
      ensures w.runs[id].lines[i].Entry?
    {
      assert LineOk(w.disk, w.runs[id].lines[i]);
    }
  }

  lemma LiveReads(w: World, p: Path)
    requires Live(w.disk, p) && StoreOk(w.hash, w.disk)
    ensures InsertObject(w.disk, p).Ok?
  {
    hide Honest;
  }

  // ---------------------------------------------------------------- objects are live once stored

  lemma ObjectShapes(sha: string)
    requires IsDigest(sha)
    ensures IsObject(BlobPath(sha)) && IsObject(TreePath(sha))
    ensures !IsTreeFile(BlobPath(sha)) && IsTreeFile(TreePath(sha))
    ensures OBJECTS < BlobPath(sha) && OBJECTS < TreePath(sha)
  {
    LayoutIsSeparate(sha, sha);
    assert BlobPath(sha)[3] == sha[..2] && |BlobPath(sha)| == 5;
    assert TreePath(sha)[2] == "trees" && |TreePath(sha)| == 4;
  }

  lemma ObjectIsBelow(p: Path)
    requires IsObject(p)
    ensures OBJECTS < p
  {
    var sha :| IsDigest(sha) && (p == BlobPath(sha) || p == TreePath(sha));
    ObjectShapes(sha);
  }

  lemma TreeHasFullDigests(h: Hash, files: map<Path, Data>)
    requires Lawful(h)
    ensures FullDigests(TreeOf(h, files))
  {
    hide TreeOf;
    TreeDescribes(h, files);
    var es := TreeOf(h, files);
    forall i | 0 <= i < |es| ensures IsDigest(es[i].sha256) {
      assert IsEntry(h, files, es[i]);
    }
  }

  lemma IngestPathStores(h: Hash, d: Disk, source: Path)
    requires StoreOk(h, d)
    ensures var (d', r) := IngestPath(h, d, source);
      && StoreOk(h, d') && Grows(d, d')
      && (r.Ok? ==> IsObject(r.value.objectPath) && Live(d', r.value.objectPath))
      && (r.Ok? && r.value.storage == DirectoryStorage ==> r.value.objectPath == TreePath(r.value.sha256))
  {
    hide Honest, FileSystem.Disk.WellFormed, TreeOf, Files, Grows;
    var (d', r) := IngestPath(h, d, source);
    if source in d.names {
      IngestFileStores(h, d, source);
      if r.Ok? {
        ObjectShapes(r.value.sha256);
      }
    } else if source in d.dirs {
      IngestDirectoryStores(h, d, source);
      TreeHasFullDigests(h, Files(d, source));
      if r.Ok? {
        ObjectShapes(r.value.sha256);
      }
    } else {
      GrowsSame(d);
    }
  }

  lemma GrowsSame(d: Disk)
    ensures Grows(d, d)
  {
  }

  // ---------------------------------------------------------------- when storing succeeds

  /** Above and below the object directory there are no files but objects. */
  ghost predicate StoreClear(d: Disk) {
    forall p :: p in d.names && (OBJECTS <= p || p <= OBJECTS) ==> IsObject(p)
  }

  lemma ObjectCanBeWritten(h: Hash, d: Disk, sha: string)
    requires StoreOk(h, d) && StoreClear(d)
    ensures d.CanWrite(BlobPath(sha)) && d.CanWrite(TreePath(sha))
  {
    LayoutIsSeparate(sha, sha);
    forall p | p == BlobPath(sha) || p == TreePath(sha) ensures d.CanWrite(p) {
      forall q | q < p ensures q !in d.names {
        PrefixesCompare(q, OBJECTS, p);
        AncestorMember(q, p);
        if IsObject(q) {
          var x :| IsDigest(x) && (q == BlobPath(x) || q == TreePath(x));
          LayoutIsSeparate(x, sha);
        }
      }
      CanWriteIntro(d, p);
    }
  }

  lemma ObjectKeepsClear(d: Disk, p: Path, data: Data)
    requires StoreClear(d) && IsObject(p)
    ensures StoreClear(Write(d, p, data))
  {
    hide IsObject;
  }

  lemma IngestFileSucceeds(h: Hash, d: Disk, source: Path)
    requires StoreOk(h, d) && StoreClear(d) && source in d.names
    ensures IngestFile(h, d, source).1.Ok? && StoreClear(IngestFile(h, d, source).0)
  {
    hide BlobPath, IsObject, StoreClear;
    var sha := h.file(d.At(source).content);
    assert IsDigest(sha);
    ObjectCanBeWritten(h, d, sha);
    ObjectShapes(sha);
    ObjectKeepsClear(d, BlobPath(sha), d.At(source));
  }

  lemma {:induction false} IngestFromSucceeds(h: Hash, d: Disk, dir: Path, entries: seq<TreeEntry>, rels: seq<Path>)
    requires StoreOk(h, d) && StoreClear(d) && forall rel :: rel in rels ==> dir + rel in d.names
    ensures IngestFrom(h, d, dir, entries, rels).1.Ok? && StoreClear(IngestFrom(h, d, dir, entries, rels).0)
    decreases |rels|
  {
    hide Honest, Lawful, IngestFile, EntryPath, StoreClear;
    if rels != [] {
      var source := dir + rels[0];
      var (d1, r) := IngestFile(h, d, source);
      assert rels[0] in rels;
      IngestFileStores(h, d, source);
      IngestFileSucceeds(h, d, source);
      IngestFromSucceeds(h, d1, dir, entries + [TreeEntry(EntryPath(rels[0]), r.value, d1.At(source).mode)], rels[1..]);
    }
  }

  lemma StoreTreeSucceeds(h: Hash, d: Disk, entries: seq<TreeEntry>)
    requires StoreOk(h, d) && StoreClear(d)
    ensures StoreTree(h, d, entries).1.Ok? && StoreClear(StoreTree(h, d, entries).0)
  {
    hide TreePath, IsObject, StoreClear;
    var sha := h.tree(entries);
    assert IsDigest(sha);
    ObjectCanBeWritten(h, d, sha);
    ObjectShapes(sha);
    ObjectKeepsClear(d, TreePath(sha), Data(TreeDoc(entries), FILE_MODE));
  }

  /** With no file but objects in the store's directories, any directory can be stored. */
  lemma IngestDirectorySucceeds(h: Hash, d: Disk, dir: Path)
    requires StoreOk(h, d) && StoreClear(d)
    ensures IngestDirectory(h, d, dir).1.Ok? && StoreClear(IngestDirectory(h, d, dir).0)
  {
    hide Honest, Lawful, IngestFrom, StoreTree, StoreClear, FileSystem.Disk.WellFormed;
    var rels := Walk(d, dir);
    forall rel | rel in rels ensures dir + rel in d.names && rel in Files(d, dir) {
      assert rel in RelFiles(d, dir);
      RelFilesMember(d, dir, rel);
      FilesMember(d, dir, rel);
    }
    IngestFromSucceeds(h, d, dir, [], rels);
    IngestFromStores(h, d, dir, [], rels);
    var (d1, r) := IngestFrom(h, d, dir, [], rels);
    StoreTreeSucceeds(h, d1, SortEntries(r.value));
  }

  // ---------------------------------------------------------------- changes that spare the objects

  ghost predicate ObjectsStay(d: Disk, d': Disk) {
    forall p :: OBJECTS <= p && p in d.names ==> p in d'.names && d'.At(p).content == d.At(p).content
  }

  lemma LiveStays(d: Disk, d': Disk, p: Path)
    requires ObjectsStay(d, d') && IsObject(p) && Live(d, p)
    ensures Live(d', p)
  {
    ObjectIsBelow(p);
    if IsTreeFile(p) {
      var es := d.At(p).content.entries;
      forall i | 0 <= i < |es| ensures BlobPath(es[i].sha256) in d'.names {
        LayoutIsSeparate(es[i].sha256, "");
      }
    }
  }

  lemma IndexStays(w: World, w': World)
    requires IndexOk(w) && w'.index == w.index && ObjectsStay(w.disk, w'.disk)
    ensures IndexOk(w')
  {
    hide Live, IsObject, ObjectsStay;
    forall k | k in Latest(w.index) ensures Live(w'.disk, Latest(w.index)[k].objectPath) {
      LatestRow(w.index, k);
      LiveStays(w.disk, w'.disk, Latest(w.index)[k].objectPath);
    }
  }

  lemma LineStays(d: Disk, d': Disk, line: Line)
    requires LineOk(d, line) && ObjectsStay(d, d')
    ensures LineOk(d', line)
  {
    hide Live, IsObject, ObjectsStay;
    if line.event.objectPath.Some? {
      LiveStays(d, d', line.event.objectPath.value);
    }
  }

  lemma RunsStay(w: World, w': World)
    requires RunsOk(w) && w'.runs == w.runs && ObjectsStay(w.disk, w'.disk)
    ensures RunsOk(w')
  {
    hide LineOk, ObjectsStay;
    forall id, i | id in w.runs && (w.runs[id].IsRoot() || w.runs[id].IsPending()) && 0 <= i < |w.runs[id].lines|
      ensures LineOk(w'.disk, w.runs[id].lines[i])
    {
      LineStays(w.disk, w'.disk, w.runs[id].lines[i]);
    }
  }

  lemma ElsewhereKeepsNamedTrees(h: Hash, d: Disk, d': Disk, root: Path)
    requires d.WellFormed() && d'.WellFormed() && Elsewhere(d, d', root) && NamedTreesComplete(h, d)
    requires Apart(root, MATERIALIZED)
    ensures NamedTreesComplete(h, d')
  {
    hide FileSystem.Disk.WellFormed;
    forall x | IsDigest(x) && Target(x) in d'.dirs ensures CompleteTree(h, d', x) {
      assert MATERIALIZED <= Target(x) && MATERIALIZED <= Target(x) + [MARKER];
      ApartBelow(MATERIALIZED, root, Target(x));
      ApartBelow(MATERIALIZED, root, Target(x) + [MARKER]);
      FilesElsewhere(d, d', root, Target(x));
      assert CompleteTree(h, d, x);
    }
  }

  lemma LayoutApart()
    ensures Apart(OBJECTS, MATERIALIZED) && Apart(MATERIALIZED, OBJECTS)
    ensures Apart(RUNS, ARTIFACTS) && Apart(RUNS, OBJECTS) && Apart(RUNS, MATERIALIZED)
  {
    assert |OBJECTS[1]| != |MATERIALIZED[1]|;
    assert |RUNS[0]| != |ARTIFACTS[0]|;
  }

  // ---------------------------------------------------------------- the catalog's files stay

  /** Every catalog file shows what it showed, and every catalog directory is there. */
  ghost predicate CatalogStays(d: Disk, d': Disk) {
    forall p :: InCatalog(p) ==>
      && (p in d.names ==> p in d'.names && d'.At(p).content == d.At(p).content)
      && (p in d.dirs && |p| > 1 ==> p in d'.dirs)
  }

  lemma SeparateEnd(r: Route)
    requires IsSeparate(r) && EndsInName(r)
    ensures InCatalog(End(r)) && |End(r)| > 1
  {
    hide StaysInside, Waypoints;
    SeparateExactlyWhen(r);
    WalkedToEnd(r.start, r.parts);
    WalkedLast(r.start, r.parts);
    var n := |r.parts| - 1;
    WalkedToEnd(r.start, r.parts[..n]);
    WaypointsPrefix(r.start, r.parts, n);
    assert InCatalog(Walked(r.start, r.parts[..n]));
  }

  lemma {:induction false} PassageStays(d: Disk, d': Disk, at: Path, parts: seq<string>)
    requires CatalogStays(d, d') && ARTIFACTS in d'.dirs && Passable(d, at, parts)
    requires forall v :: v in Waypoints(at, parts) ==> InCatalog(v)
    ensures Passable(d', at, parts)
    decreases |parts|
  {
    assert Waypoints(at, parts)[0] == at && at in Waypoints(at, parts);
    assert |at| == 1 ==> at == ARTIFACTS;
    if parts != [] {
      var rest := Waypoints(Move(at, parts[0]), parts[1..]);
      assert forall v :: v in rest ==> v in [at] + rest;
      PassageStays(d, d', Move(at, parts[0]), parts[1..]);
    }
  }

  lemma ManifestWayStays(d: Disk, d': Disk, r: Reference)
    requires CatalogStays(d, d') && d'.WellFormed() && IsSeparate(ManifestRoute(r)) && ManifestWay(d, r)
    requires ManifestPath(r) in d'.names
    ensures ManifestWay(d', r)
  {
    hide ManifestRoute, StaysInside, Passable, CatalogStays, FileSystem.Disk.WellFormed, Waypoints;
    var route := ManifestRoute(r);
    ManifestNameEnds(r);
    SeparateEnd(route);
    assert ARTIFACTS < ManifestPath(r);
    ParentsAreDirs(d', ARTIFACTS, ManifestPath(r));
    SeparateExactlyWhen(route);
    WaypointsPrefix(route.start, route.parts, |route.parts| - 1);
    PassageStays(d, d', route.start, route.parts[..|route.parts| - 1]);
  }

  lemma RouteEndsInCatalog(r: Route)
    requires IsSeparate(r)
    ensures InCatalog(End(r))
  {
    hide StaysInside, Waypoints;
    SeparateExactlyWhen(r);
    WalkedToEnd(r.start, r.parts);
  }

  /** The files of a separate history are catalog files. */
  lemma {:induction false} SheetsInCatalog(filings: seq<Filing>)
    requires AllSeparate(filings)
    ensures forall p :: p in SheetsOf(filings) ==> InCatalog(p)
  {
    hide IsSeparate, InCatalog, End;
    if filings != [] {
      var n := |filings| - 1;
      var m := filings[n].row;
      SheetsInCatalog(filings[..n]);
      assert SeparateRow(m);
      RouteEndsInCatalog(ManifestRoute(m.reference));
      if m.alias.Some? {
        RouteEndsInCatalog(AliasRoute(m.reference, m.alias.value));
      }
    }
  }

  lemma FilesStay(w: World, w': World, filings: seq<Filing>)
    requires FiledAs(w, filings) && w'.index == w.index && w'.disk.WellFormed() && CatalogStays(w.disk, w'.disk)
    ensures FiledAs(w', filings)
  {
    hide FileSystem.Disk.WellFormed, ManifestWay, SheetsOf, ManifestPath, IsSeparate, CatalogStays, Shows;
    var d, d' := w.disk, w'.disk;
    SheetsInCatalog(filings);
    forall p | p in SheetsOf(filings) ensures p in d'.names && Shows(d'.At(p).content, SheetsOf(filings)[p]) {
      SheetStays(d, d', p);
    }
    forall i | 0 <= i < |filings| ensures ManifestWay(d', Rows(filings)[i].reference) {
      ManifestStays(filings, i);
      assert SeparateRow(filings[i].row);
      assert ManifestWay(d, Rows(filings)[i].reference);
      ManifestWayStays(d, d', filings[i].row.reference);
    }
  }

  lemma SheetStays(d: Disk, d': Disk, p: Path)
    requires CatalogStays(d, d') && InCatalog(p) && p in d.names
    ensures p in d'.names && d'.At(p).content == d.At(p).content
  {
  }

  lemma CatalogOkStays(w: World, w': World)
    requires CatalogOk(w) && w'.index == w.index && w'.disk.WellFormed() && CatalogStays(w.disk, w'.disk)
    ensures CatalogOk(w')
  {
    hide FiledAs, FileSystem.Disk.WellFormed, CatalogStays;
    var filings: seq<Filing> :| FiledAs(w, filings);
    FilesStay(w, w', filings);
  }

  /** Below the artifact root, but not in the catalog, or outside of it altogether. */
  predicate OffCatalog(root: Path) { |root| >= 2 && !InCatalog(root[..2]) }

  lemma ElsewhereKeepsCatalog(d: Disk, d': Disk, root: Path)
    requires Elsewhere(d, d', root) && OffCatalog(root)
    ensures CatalogStays(d, d')
  {
    forall p | InCatalog(p) ensures !(root <= p) && (|p| > 1 ==> !(p < root)) {
      if |p| > 1 {
        assert InCatalog(p[..2]);
      }
    }
  }

  lemma StoreIsOffCatalog(sha: string, pid: string, name: string)
    ensures OffCatalog(OBJECTS) && OffCatalog(Staging(sha, pid)) && OffCatalog(Target(sha))
    ensures OffCatalog(MATERIALIZED + [name])
  {
  }

  lemma OutputsOffCatalog(id: string)
    ensures OffCatalog(OutputsDir(id))
  {
    assert OutputsDir(id)[0] == "runs" && |OutputsDir(id)[..2][0]| == 4 && |ARTIFACTS[0]| == 9;
  }

  // ---------------------------------------------------------------- adding objects

  /** Adding objects keeps the invariant. */
  lemma GrowsKeepsInv(w: World, d': Disk)
    requires Inv(w) && StoreOk(w.hash, d') && Grows(w.disk, d')
    ensures Inv(w.(disk := d'))
  {
    hide Honest, FileSystem.Disk.WellFormed, NamedTreesComplete, CatalogOk, RunsSeparate, Lawful, Elsewhere;
    var w' := w.(disk := d');
    var d := w.disk;
    GrowsSpares(d, d');
    IndexStays(w, w');
    RunsStay(w, w');
    LayoutApart();
    ElsewhereKeepsNamedTrees(w.hash, d, d', OBJECTS);
    GrowsIsolates(w, w');
    StoreIsOffCatalog("", "", "");
    ElsewhereKeepsCatalog(d, d', OBJECTS);
    CatalogOkStays(w, w');
  }

  lemma GrowsSpares(d: Disk, d': Disk)
    requires d.WellFormed() && d'.WellFormed() && Grows(d, d')
    ensures ObjectsStay(d, d') && Elsewhere(d, d', OBJECTS)
  {
  }

  lemma GrowsIsolates(w: World, w': World)
    requires w.disk.WellFormed() && Grows(w.disk, w'.disk) && w'.runs == w.runs
    requires Isolated(w) && Unshared(w.disk)
    ensures Isolated(w') && Unshared(w'.disk)
  {
    hide Frozen;
    forall p, q | p in w'.disk.names && q in w'.disk.names && OBJECTS <= p && Free(w', q)
      ensures w'.disk.names[p] != w'.disk.names[q]
    {
      SameFree(w, w', q);
      assert q in w.disk.names && Free(w, q);
    }
  }

  lemma SameFree(w: World, w': World, q: Path)
    requires w'.runs == w.runs
    ensures Free(w', q) <==> Free(w, q)
  {
  }

  // ---------------------------------------------------------------- placing a catalog file

  /** Blobs and trees are outside the catalog. */
  lemma ObjectsOffCatalog(x: string)
    ensures !InCatalog(BlobPath(x)) && !InCatalog(TreePath(x))
    ensures !(BlobPath(x) <= OBJECTS) && !(TreePath(x) <= OBJECTS)
  {
    LayoutIsSeparate(x, x);
    CatalogIsApartFrom(BlobPath(x));
    CatalogIsApartFrom(TreePath(x));
  }

  lemma DepositKeepsStore(h: Hash, d: Disk, r: Route, data: Data)
    requires StoreOk(h, d) && IsSeparate(r)
    ensures var d' := Deposit(d, r, data).0; StoreOk(h, d') && Extends(d, d') && ObjectsStay(d, d')
  {
    hide Deposit, FileSystem.Disk.WellFormed, Lawful, IsSeparate, InCatalog, BlobPath, TreePath;
    DepositExtends(d, r, data);
    DepositSpares(d, r, data);
    forall x ensures !InCatalog(BlobPath(x)) && !InCatalog(TreePath(x))
                  && !(BlobPath(x) <= OBJECTS) && !(TreePath(x) <= OBJECTS) {
      ObjectsOffCatalog(x);
    }
    forall p | OBJECTS <= p ensures !InCatalog(p) { CatalogIsApartFrom(p); }
  }

  /** When nothing below the cache changes, its directories stay complete. */
  lemma SameCache(h: Hash, d: Disk, d': Disk)
    requires d.WellFormed() && d'.WellFormed() && NamedTreesComplete(h, d)
    requires forall r :: MATERIALIZED <= r ==> (r in d'.names <==> r in d.names) && (r in d'.dirs ==> r in d.dirs)
    requires forall r :: MATERIALIZED <= r && r in d.names ==> d'.At(r) == d.At(r)
    ensures NamedTreesComplete(h, d')
  {
    hide FileSystem.Disk.WellFormed;
    forall x | IsDigest(x) && Target(x) in d'.dirs ensures CompleteTree(h, d', x) {
      assert MATERIALIZED <= Target(x) && MATERIALIZED <= Target(x) + [MARKER];
      assert CompleteTree(h, d, x);
      forall r | Target(x) <= r
        ensures (r in d'.names <==> r in d.names) && (r in d.names ==> d'.At(r) == d.At(r))
      {
        assert MATERIALIZED <= r;
      }
      SameFilesBelow(d, d', Target(x));
    }
  }

  lemma ExtendsKeepsNamedTrees(h: Hash, d: Disk, d': Disk)
    requires d.WellFormed() && d'.WellFormed() && Extends(d, d') && NamedTreesComplete(h, d)
    ensures NamedTreesComplete(h, d')
  {
    hide FileSystem.Disk.WellFormed, InCatalog, NamedTreesComplete;
    forall p | MATERIALIZED <= p ensures !InCatalog(p) && !(p <= OBJECTS) && !(OBJECTS <= p) {
      CatalogIsApartFrom(p);
      LayoutApart();
      PrefixesCompare(MATERIALIZED, OBJECTS, p);
    }
    SameAt(d, d');
    SameCache(h, d, d');
  }

  lemma DepositIsolates(w: World, r: Route, data: Data)
    requires StoreOk(w.hash, w.disk) && IsSeparate(r) && Isolated(w) && Unshared(w.disk)
    ensures var w' := w.(disk := Deposit(w.disk, r, data).0); Isolated(w') && Unshared(w'.disk)
  {
    hide Deposit, IsSeparate, Frozen, Honest, Lawful;
    DepositSpares(w.disk, r, data);
    var d, d' := w.disk, Deposit(w.disk, r, data).0;
    assert forall p :: p in d.names ==> d.names[p] in d.inodes && d.names[p] < d.next;
    var w' := w.(disk := d');
    forall p, q | p in d'.names && q in d'.names && OBJECTS <= p && Free(w', q) ensures d'.names[p] != d'.names[q] {
      CatalogIsApartFrom(p);
      SameFree(w, w', q);
    }
    forall p, q | p in d'.names && q in d'.names && ARTIFACTS <= p && !(OBJECTS <= p) && p != q
      ensures d'.names[p] != d'.names[q]
    {
      if d'.names[p] != d.next && d'.names[q] != d.next {
        assert d.names[p] != d.names[q];
      }
    }
  }

  /** What an operation on the store keeps besides the index and the catalog. */
  ghost predicate Sound(w: World) {
    && StoreOk(w.hash, w.disk) && RunsOk(w) && Isolated(w) && RunsSeparate(w.runs)
    && NamedTreesComplete(w.hash, w.disk) && Unshared(w.disk)
  }

  lemma DepositKeepsSound(w: World, r: Route, data: Data)
    requires Sound(w) && IsSeparate(r)
    ensures var w' := w.(disk := Deposit(w.disk, r, data).0);
      Sound(w') && Extends(w.disk, w'.disk) && ObjectsStay(w.disk, w'.disk)
  {
    hide Deposit, IsSeparate, Honest, Lawful, RunsSeparate, Isolated, Unshared, NamedTreesComplete, RunsOk,
         FileSystem.Disk.WellFormed, Extends, ObjectsStay;
    DepositKeepsStore(w.hash, w.disk, r, data);
    DepositIsolates(w, r, data);
    ExtendsKeepsNamedTrees(w.hash, w.disk, Deposit(w.disk, r, data).0);
    RunsStay(w, w.(disk := Deposit(w.disk, r, data).0));
  }

  lemma SameButRecords(w: World, w': World)
    requires Sound(w) && w'.hash == w.hash && w'.disk == w.disk && w'.runs == w.runs
    ensures Sound(w')
  {
    hide StoreOk, NamedTreesComplete, Unshared, RunsSeparate, LineOk;
  }

  // ---------------------------------------------------------------- promotion and staging

  lemma LatestAdds(index: seq<Manifest>, m: Manifest)
    ensures Latest(index + [m]) == Latest(index)[m.reference := m]
  {
    assert (index + [m])[..|index|] == index;
  }

  lemma IndexAdds(w: World, w': World, m: Manifest)
    requires IndexOk(w) && ObjectsStay(w.disk, w'.disk) && w'.index == w.index + [m]
    requires IsObject(m.objectPath) && Live(w'.disk, m.objectPath)
    ensures IndexOk(w')
  {
    hide Live, IsObject, ObjectsStay;
    LatestAdds(w.index, m);
    var before := w'.(index := w.index);
    IndexStays(w, before);
    forall k | k in Latest(w'.index) ensures Live(w'.disk, Latest(w'.index)[k].objectPath) {
      assert k != m.reference ==> k in Latest(before.index);
    }
  }

  /** The disk and the index of a promotion that has stored its source and goes on to file `m`. */
  lemma FilingKeepsSound(w: World, m: Manifest)
    requires Sound(w) && SeparateRow(m)
    ensures var (d1, written) := Deposit(w.disk, ManifestRoute(m.reference), ManifestData(m));
      var w1 := w.(disk := d1, index := w.index + [m], clock := w.clock + 1);
      && Sound(w.(disk := d1, clock := w.clock + 1))
      && Extends(w.disk, d1) && ObjectsStay(w.disk, d1)
      && Sound(LinkAlias(w1, m).0)
      && Extends(w.disk, LinkAlias(w1, m).0.disk) && ObjectsStay(w.disk, LinkAlias(w1, m).0.disk)
  {
    hide Deposit, IsSeparate, Sound, Extends, ObjectsStay, ManifestRoute, AliasRoute;
    var d1 := Deposit(w.disk, ManifestRoute(m.reference), ManifestData(m)).0;
    var w1 := w.(disk := d1, index := w.index + [m], clock := w.clock + 1);
    DepositKeepsSound(w, ManifestRoute(m.reference), ManifestData(m));
    SameButRecords(w.(disk := d1), w.(disk := d1, clock := w.clock + 1));
    SameButRecords(w.(disk := d1), w1);
    if m.alias.Some? {
      var route, data := AliasRoute(m.reference, m.alias.value), AliasData(w1, m.reference.version);
      DepositKeepsSound(w1, route, data);
      ExtendsChains(w.disk, d1, Deposit(d1, route, data).0);
      ObjectsStayChains(w.disk, d1, Deposit(d1, route, data).0);
    }
  }

  lemma SoundOf(w: World)
    requires Inv(w)
    ensures Sound(w)
  {
  }

  /** An invariant's parts, put together again. */
  lemma InvFrom(w: World)
    requires Sound(w) && IndexOk(w) && CatalogOk(w)
    ensures Inv(w)
  {
  }

  lemma StoredHexes(w: World, source: Path)
    requires StoreOk(w.hash, w.disk) && IngestPath(w.hash, w.disk, source).1.Ok?
    ensures IsDigest(IngestPath(w.hash, w.disk, source).1.value.sha256)
  {
    hide Honest, FileSystem.Disk.WellFormed, TreeOf, Files, Grows, IngestFile, IngestDirectory, IsDigest;
    var h, d := w.hash, w.disk;
    if source in d.names {
      IngestFileStores(h, d, source);
      assert IngestFile(h, d, source).1.value == h.file(d.At(source).content);
      assert IsDigest(h.file(d.At(source).content));
    } else {
      IngestDirectoryStores(h, d, source);
      assert IngestDirectory(h, d, source).1.value == h.tree(TreeOf(h, Files(d, source)));
      assert IsDigest(h.tree(TreeOf(h, Files(d, source))));
    }
  }

  lemma DigestHasNoSlash(sha: string)
    requires IsDigest(sha)
    ensures '/' !in sha
  {
    assert !IsHexDigit('/');
  }

  lemma PromoteOutcome(w: World, req: Request)
    requires Inv(w) && SeparateRequest(req)
    ensures var w' := Promote(w, req).0;
      && Sound(w') && IndexOk(w') && Extends(w.disk, w'.disk) && ObjectsStay(w.disk, w'.disk)
      && forall i :: 0 <= i < |FiledBy(w, req)| ==> SeparateRow(FiledBy(w, req)[i].row)
  {
    hide Inv, Sound, IngestPath, IsBlank, StoreOk, Live, IsObject, Deposit, Extends, ObjectsStay, ManifestRoute, RowFor,
         SeparateRow, SeparateRequest, Grows, LinkAlias, IndexOk;
    StoreOf(w);
    IngestPathStores(w.hash, w.disk, req.source);
    var (d, stored) := IngestPath(w.hash, w.disk, req.source);
    var w0 := w.(disk := d);
    GrowsKeepsInv(w, d);
    SoundOf(w0);
    ShapesOf(w.hash, w.disk, d);
    GrowsSpares(w.disk, d);
    GrowsExtends(w.disk, d);
    ExtendsSame(w.disk);
    ObjectsStaySame(w.disk);
    SoundOf(w);
    IndexPart(w0);
    IndexPart(w);
    if !IsBlank(req.kind) && !IsBlank(req.name) && stored.Ok? {
      var m := RowFor(w, req, stored.value);
      StoredHexes(w, req.source);
      DigestHasNoSlash(stored.value.sha256);
      RowIsSeparate(w, req, stored.value);
      FilingKeepsSound(w0, m);
      var (d1, written) := Deposit(d, ManifestRoute(m.reference), ManifestData(m));
      var w1 := w0.(disk := d1, index := w.index + [m], clock := w.clock + 1);
      var w' := if written.Ok? then LinkAlias(w1, m).0 else w0.(disk := d1, clock := w.clock + 1);
      ExtendsChains(w.disk, d, w'.disk);
      ObjectsStayChains(w.disk, d, w'.disk);
      LinkKeepsIndex(w1, m);
      RowObject(w, req, stored.value);
      LiveStays(d, w'.disk, m.objectPath);
      if written.Ok? {
        IndexAdds(w0, w', m);
      } else {
        IndexStays(w0, w');
      }
    }
  }

  lemma LinkKeepsIndex(w: World, m: Manifest)
    ensures var (w', r) := LinkAlias(w, m); w'.index == w.index && w'.clock == w.clock && (r.Ok? ==> r.value == m)
  {
  }

  lemma RowObject(w: World, req: Request, stored: Stored)
    ensures RowFor(w, req, stored).objectPath == stored.objectPath
  {
  }

  lemma IndexPart(w: World)
    requires Inv(w)
    ensures IndexOk(w)
  {
  }

  lemma PromoteKeepsInv(w: World, req: Request)
    requires Inv(w) && SeparateRequest(req)
    ensures Inv(Promote(w, req).0)
  {
    hide Inv, Sound, IndexOk, StoreOk, Promote, FiledBy, Extends, ObjectsStay, SeparateRequest, SeparateRow, Catalogued,
         FileSystem.Disk.WellFormed;
    PromoteOutcome(w, req);
    StoreOf(w);
    ShapesOf(w.hash, w.disk, w.disk);
    CatalogOf(w);
    var filings: seq<Filing> :| FiledAs(w, filings);
    PromoteFiles(w, req, filings);
    var w' := Promote(w, req).0;
    FilesJoin(filings, FiledBy(w, req));
    assert FiledAs(w', filings + FiledBy(w, req));
    InvFrom(w');
  }

  lemma FilesJoin(a: seq<Filing>, b: seq<Filing>)
    requires AllSeparate(a) && AllSeparate(b)
    ensures AllSeparate(a + b) && Rows(a + b) == Rows(a) + Rows(b)
  {
    hide SeparateRow;
  }

  lemma CatalogOf(w: World)
    requires Inv(w)
    ensures CatalogOk(w)
  {
  }

  lemma StoreOf(w: World)
    requires Inv(w)
    ensures StoreOk(w.hash, w.disk)
  {
  }

  lemma StageKeepsInv(w: World, e: Event)
    requires Inv(w) && SeparateEvent(e)
    ensures var (w', r) := StageInto(w, e);
      Inv(w') && (r.Ok? ==> LineOk(w'.disk, Entry(r.value)) && SeparateEvent(r.value))
  {
    hide Inv, IngestPath, IsBlank, StoreOk, Live, IsObject, Promote, SemanticRequest, Grows, ObjectsStay,
         SeparateRequest,
         SeparateEvent;
    if e.path.Some? {
      StoreOf(w);
      IngestPathStores(w.hash, w.disk, e.path.value);
      var (d, stored) := IngestPath(w.hash, w.disk, e.path.value);
      GrowsKeepsInv(w, d);
      var w1 := w.(disk := d);
      var semantic := SemanticRequest(e, e.path.value);
      if semantic.Ok? && semantic.value.Some? {
        var request := semantic.value.value;
        AnySourceSeparates(e, e.path.value);
        PromoteKeepsInv(w1, request);
        if stored.Ok? {
          PromoteSparesObjects(w1, request);
          LiveStays(d, Promote(w1, request).0.disk, stored.value.objectPath);
          var m := Promote(w1, request).1;
          StagedIsSeparate(e, stored.value, if m.Ok? then Some(m.value.reference) else None);
        }
      } else if stored.Ok? {
        StagedIsSeparate(e, stored.value, None);
      }
    }
  }

  lemma PromoteSparesObjects(w: World, req: Request)
    requires Inv(w) && SeparateRequest(req)
    ensures ObjectsStay(w.disk, Promote(w, req).0.disk) && Extends(w.disk, Promote(w, req).0.disk)
  {
    hide Inv, Sound, IndexOk, Promote, FiledBy, Extends, ObjectsStay, SeparateRequest, SeparateRow;
    PromoteOutcome(w, req);
  }

  lemma ShapesOf(h: Hash, d: Disk, d': Disk)
    requires StoreOk(h, d) && StoreOk(h, d')
    ensures d.WellFormed() && d'.WellFormed()
  {
  }

  lemma ObjectsStaySame(d: Disk)
    ensures ObjectsStay(d, d)
  {
  }

  lemma StageSparesObjects(w: World, e: Event)
    requires Inv(w) && SeparateEvent(e)
    ensures ObjectsStay(w.disk, StageInto(w, e).0.disk) && Extends(w.disk, StageInto(w, e).0.disk)
  {
    hide Inv, IngestPath, IsBlank, StoreOk, Grows, ObjectsStay, Promote, SemanticRequest, Extends, SeparateRequest,
         SeparateEvent;
    ObjectsStaySame(w.disk);
    ExtendsSame(w.disk);
    if e.path.Some? {
      StoreOf(w);
      var source := e.path.value;
      IngestPathStores(w.hash, w.disk, source);
      var d1 := IngestPath(w.hash, w.disk, source).0;
      ShapesOf(w.hash, w.disk, d1);
      GrowsSpares(w.disk, d1);
      GrowsExtends(w.disk, d1);
      GrowsKeepsInv(w, d1);
      var semantic := SemanticRequest(e, source);
      if semantic.Ok? && semantic.value.Some? {
        var w1 := w.(disk := d1);
        AnySourceSeparates(e, source);
        PromoteSparesObjects(w1, semantic.value.value);
        ObjectsStayChains(w.disk, d1, Promote(w1, semantic.value.value).0.disk);
        ExtendsChains(w.disk, d1, Promote(w1, semantic.value.value).0.disk);
      }
    }
  }

  lemma ObjectsStayChains(d0: Disk, d1: Disk, d2: Disk)
    requires ObjectsStay(d0, d1) && ObjectsStay(d1, d2)
    ensures ObjectsStay(d0, d2)
  {
  }

  ghost predicate AllLinesOk(d: Disk, lines: seq<Line>) {
    forall i :: 0 <= i < |lines| ==> LineOk(d, lines[i])
  }

  /** Rewriting one run's lines keeps the invariant when the new lines are sound. */
  lemma LinesKeepInv(w: World, id: string, lines: seq<Line>)
    requires Inv(w) && id in w.runs && LinesSeparate(lines)
    requires w.runs[id].IsRoot() || w.runs[id].IsPending() ==> AllLinesOk(w.disk, lines)
    ensures Inv(SetLines(w, id, lines))
  {
    hide StoreOk, IndexOk, NamedTreesComplete, Unshared, LineOk, CatalogOk, LinesSeparate;
    var w' := SetLines(w, id, lines);
    IndexSame(w, w');
    CatalogSame(w, w');
    forall q ensures Free(w', q) <==> Free(w, q) {
    }
  }

  lemma IndexSame(w: World, w': World)
    requires IndexOk(w) && w'.index == w.index && w'.disk == w.disk
    ensures IndexOk(w')
  {
  }

  lemma CatalogSame(w: World, w': World)
    requires CatalogOk(w) && w'.index == w.index && w'.disk == w.disk
    ensures CatalogOk(w')
  {
    hide Catalogued, AllSeparate;
    var filings: seq<Filing> :| FiledAs(w, filings);
    assert FiledAs(w', filings);
  }

  lemma LinesStayOk(d: Disk, d': Disk, lines: seq<Line>)
    requires AllLinesOk(d, lines) && ObjectsStay(d, d')
    ensures AllLinesOk(d', lines)
  {
    hide LineOk, ObjectsStay;
    forall i | 0 <= i < |lines| ensures LineOk(d', lines[i]) { LineStays(d, d', lines[i]); }
  }

  lemma {:induction false} RestageKeepsInv(w: World, done: seq<Line>, rest: seq<Line>, changed: set<Path>)
    requires Inv(w) && LinesSeparate(done) && LinesSeparate(rest)
    ensures var (w', r) := RestageFrom(w, done, rest, changed);
      && Inv(w')
      && (r.Ok? ==> LinesSeparate(r.value))
      && (r.Ok? && AllLinesOk(w.disk, done) && AllLinesOk(w.disk, rest) ==> AllLinesOk(w'.disk, r.value))
    decreases |rest|
  {
    hide Inv, LineOk, StageInto, ObjectsStay, Extends, SeparateEvent;
    if rest != [] && rest[0].Entry? {
      if IsChanged(rest[0], changed) {
        var (w1, r) := StageInto(w, rest[0].event);
        StageKeepsInv(w, rest[0].event);
        StageSparesObjects(w, rest[0].event);
        if AllLinesOk(w.disk, done) { LinesStayOk(w.disk, w1.disk, done); }
        if AllLinesOk(w.disk, rest) { LinesStayOk(w.disk, w1.disk, rest); }
        if r.Ok? {
          RestageKeepsInv(w1, done + [Entry(r.value)], rest[1..], changed);
        }
      } else {
        RestageKeepsInv(w, done + [rest[0]], rest[1..], changed);
      }
    }
  }

  // ---------------------------------------------------------------- single changes

  /** A path that neither the store nor a finished run owns: where a running experiment may write. */
  predicate Writable(w: World, p: Path) { !(ARTIFACTS <= p) && !Frozen(w, p) }

  lemma NoLinesSeparate()
    ensures LinesSeparate([])
  {
  }

  lemma CreateRunKeepsInv(w: World, id: string, locked: bool, identity: Option<(string, string)>)
    requires Inv(w) && id !in w.runs
    ensures Inv(w.(runs := w.runs[id := Run(Created, locked, [], identity)]))
  {
    hide StoreOk, NamedTreesComplete, Unshared, LineOk, CatalogOk, LinesSeparate, Live;
    var w' := w.(runs := w.runs[id := Run(Created, locked, [], identity)]);
    NoLinesSeparate();
    IndexSame(w, w');
    CatalogSame(w, w');
    forall q ensures Free(w', q) ==> Free(w, q) {
    }
  }

  lemma ChangeStatusKeepsInv(w: World, id: string, next: Status)
    requires Inv(w) && id in w.runs && w.runs[id].status.CanBecome(next)
    ensures Inv(w.(runs := w.runs[id := w.runs[id].(status := next)]))
  {
    hide StoreOk, NamedTreesComplete, Unshared, LineOk, CatalogOk, LinesSeparate, Live;
    var w' := w.(runs := w.runs[id := w.runs[id].(status := next)]);
    IndexSame(w, w');
    CatalogSame(w, w');
    forall q ensures Free(w', q) ==> Free(w, q) {
    }
  }

  /** Removing names outside the store and the cache keeps the invariant. */
  lemma FewerFilesKeepInv(w: World, d': Disk)
    requires Inv(w) && d'.WellFormed()
    requires d'.names.Keys <= w.disk.names.Keys && d'.inodes == w.disk.inodes
    requires forall p :: p in d'.names ==> d'.names[p] == w.disk.names[p]
    requires forall p :: p in w.disk.names && ARTIFACTS <= p ==> p in d'.names
    requires d'.dirs <= w.disk.dirs && forall q :: q in w.disk.dirs && ARTIFACTS <= q ==> q in d'.dirs
    ensures Inv(w.(disk := d'))
  {
    hide CatalogOk, RunsSeparate, Honest, FileSystem.Disk.WellFormed, NamedTreesComplete, IndexOk, RunsOk, Isolated,
         Unshared,
         Lawful;
    var w' := w.(disk := d');
    FewerFilesKeepStore(w.hash, w.disk, d');
    FewerFilesSpare(w.disk, d');
    IndexStays(w, w');
    RunsStay(w, w');
    FewerFilesKeepTrees(w.hash, w.disk, d');
    CatalogOkStays(w, w');
    FewerFilesIsolate(w, w');
  }

  lemma FewerFilesSpare(d: Disk, d': Disk)
    requires d'.names.Keys <= d.names.Keys && d'.inodes == d.inodes
    requires forall p :: p in d'.names ==> d'.names[p] == d.names[p]
    requires forall p :: p in d.names && ARTIFACTS <= p ==> p in d'.names
    requires forall q :: q in d.dirs && ARTIFACTS <= q ==> q in d'.dirs
    ensures ObjectsStay(d, d') && CatalogStays(d, d')
  {
    assert OBJECTS[..1] == ARTIFACTS;
  }

  lemma FewerFilesIsolate(w: World, w': World)
    requires Isolated(w) && Unshared(w.disk) && w'.disk.names.Keys <= w.disk.names.Keys
    requires forall p :: p in w'.disk.names ==> w'.disk.names[p] == w.disk.names[p]
    requires forall q :: q in w'.disk.names && Free(w', q) ==> Free(w, q)
    ensures Isolated(w') && Unshared(w'.disk)
  {
  }

  lemma FewerFilesKeepStore(h: Hash, d: Disk, d': Disk)
    requires StoreOk(h, d) && d'.WellFormed()
    requires d'.names.Keys <= d.names.Keys && d'.inodes == d.inodes
    requires forall p :: p in d'.names ==> d'.names[p] == d.names[p]
    requires d'.dirs <= d.dirs
    ensures StoreOk(h, d')
  {
    forall p | p in d'.names ensures d'.At(p) == d.At(p) {
    }
  }

  lemma FewerFilesKeepTrees(h: Hash, d: Disk, d': Disk)
    requires d.WellFormed() && d'.WellFormed() && NamedTreesComplete(h, d)
    requires d'.names.Keys <= d.names.Keys && d'.inodes == d.inodes
    requires forall p :: p in d'.names ==> d'.names[p] == d.names[p]
    requires forall p :: p in d.names && ARTIFACTS <= p ==> p in d'.names
    requires d'.dirs <= d.dirs
    ensures NamedTreesComplete(h, d')
  {
    assert MATERIALIZED[..1] == ARTIFACTS;
    SameCache(h, d, d');
  }

  lemma SameFilesBelow(d: Disk, d': Disk, dir: Path)
    requires d.WellFormed() && d'.WellFormed()
    requires forall p :: dir <= p ==> (p in d'.names <==> p in d.names)
    requires forall p :: dir <= p && p in d.names ==> d'.At(p) == d.At(p)
    ensures Files(d', dir) == Files(d, dir)
  {
    hide RelFiles, FileSystem.Disk.WellFormed;
    forall rel ensures (rel in Files(d', dir) <==> rel in Files(d, dir))
                    && (rel in Files(d, dir) ==> Files(d', dir)[rel] == Files(d, dir)[rel]) {
      FilesMember(d, dir, rel);
      FilesMember(d', dir, rel);
      assert dir <= dir + rel;
    }
  }

  // ---------------------------------------------------------------- each step keeps the invariant

  lemma UserWriteSpares(w: World, p: Path, data: Data, r: Path)
    requires Inv(w) && Writable(w, p) && w.disk.CanWrite(p) && ARTIFACTS <= r
    ensures var d' := Write(w.disk, p, data);
      && (r in d'.names <==> r in w.disk.names)
      && (r in w.disk.names ==> d'.names[r] == w.disk.names[r] && d'.At(r) == w.disk.At(r))
      && (r in d'.dirs <==> r in w.disk.dirs)
  {
    hide StoreOk, IndexOk, RunsOk, NamedTreesComplete, Frozen, CatalogOk, RunsSeparate;
    assert w.disk.WellFormed() by { StoreOf(w); ShapesOf(w.hash, w.disk, w.disk); }
    assert OBJECTS[..1] == ARTIFACTS;
    AncestorMember(r, p);
    if p in w.disk.names && r in w.disk.names {
      assert w.disk.names[r] != w.disk.names[p];
    }
  }

  lemma UserWriteKeepsInv(w: World, p: Path, data: Data)
    requires Inv(w) && Writable(w, p) && w.disk.CanWrite(p)
    ensures Inv(w.(disk := Write(w.disk, p, data)))
  {
    hide Frozen, IndexOk, RunsOk, CatalogOk, RunsSeparate, NamedTreesComplete, Honest, Isolated, Unshared,
         FileSystem.Disk.WellFormed, Write;
    var d, d' := w.disk, Write(w.disk, p, data);
    var w' := w.(disk := d');
    WriteKeepsShape(d, p, data);
    UserWriteKeepsStore(w, p, data);
    forall r | ARTIFACTS <= r
      ensures (r in d.names ==> r in d'.names && d'.At(r) == d.At(r)) && (r in d.dirs ==> r in d'.dirs)
    {
      UserWriteSpares(w, p, data, r);
    }
    assert OBJECTS[..1] == ARTIFACTS;
    assert ObjectsStay(d, d') && CatalogStays(d, d');
    IndexStays(w, w');
    RunsStay(w, w');
    CatalogOkStays(w, w');
    UserWriteIsolates(w, p, data);
    UserWriteKeepsTrees(w, p, data);
  }

  lemma UserWriteKeepsStore(w: World, p: Path, data: Data)
    requires Inv(w) && Writable(w, p) && w.disk.CanWrite(p)
    ensures StoreOk(w.hash, Write(w.disk, p, data))
  {
    hide Frozen, IndexOk, RunsOk, CatalogOk, RunsSeparate, NamedTreesComplete, Isolated, Unshared, Lawful, Write,
         BlobPath, TreePath;
    var d, d' := w.disk, Write(w.disk, p, data);
    WriteKeepsShape(d, p, data);
    assert OBJECTS[..1] == ARTIFACTS;
    forall x ensures (BlobPath(x) in d'.names ==> BlobPath(x) in d.names && d'.At(BlobPath(x)) == d.At(BlobPath(x)))
                  && BlobPath(x) !in d'.dirs {
      LayoutIsSeparate(x, x);
      UserWriteSpares(w, p, data, BlobPath(x));
    }
    forall x ensures (TreePath(x) in d'.names ==> TreePath(x) in d.names && d'.At(TreePath(x)) == d.At(TreePath(x)))
                  && TreePath(x) !in d'.dirs {
      LayoutIsSeparate(x, x);
      UserWriteSpares(w, p, data, TreePath(x));
    }
  }

  lemma UserWriteIsolates(w: World, p: Path, data: Data)
    requires Inv(w) && Writable(w, p) && w.disk.CanWrite(p)
    ensures Isolated(w.(disk := Write(w.disk, p, data)))
    ensures Unshared(Write(w.disk, p, data))
  {
    hide IndexOk, RunsOk, NamedTreesComplete, Honest, CatalogOk, RunsSeparate, Lawful;
    assert OBJECTS[..1] == ARTIFACTS;
    assert !(OBJECTS <= p);
    var d' := Write(w.disk, p, data);
    forall a, b | a in d'.names && b in d'.names && OBJECTS <= a && Free(w.(disk := d'), b)
      ensures d'.names[a] != d'.names[b]
    {
      assert a in w.disk.names && Free(w, b);
    }
  }

  lemma UserWriteKeepsTrees(w: World, p: Path, data: Data)
    requires Inv(w) && Writable(w, p) && w.disk.CanWrite(p) && Write(w.disk, p, data).WellFormed()
    ensures NamedTreesComplete(w.hash, Write(w.disk, p, data))
  {
    hide IndexOk, RunsOk, Isolated, Honest, FileSystem.Disk.WellFormed, Frozen, CatalogOk, RunsSeparate, Unshared,
         Write,
         NamedTreesComplete;
    assert MATERIALIZED[..1] == ARTIFACTS;
    forall r | MATERIALIZED <= r
      ensures var d' := Write(w.disk, p, data);
        && (r in d'.names <==> r in w.disk.names) && (r in d'.dirs <==> r in w.disk.dirs)
        && (r in w.disk.names ==> d'.At(r) == w.disk.At(r))
    {
      assert ARTIFACTS <= r;
      UserWriteSpares(w, p, data, r);
    }
    SameCache(w.hash, w.disk, Write(w.disk, p, data));
  }

  lemma UnlinkKeepsInv(w: World, ps: set<Path>)
    requires Inv(w) && forall p :: p in ps && p in w.disk.names ==> !(ARTIFACTS <= p)
    ensures Inv(w.(disk := Unlink(w.disk, ps)))
  {
    hide IndexOk, RunsOk, Isolated, Honest, NamedTreesComplete, Unshared, CatalogOk, RunsSeparate;
    UnlinkKeepsShape(w.disk, ps);
    FewerFilesKeepInv(w, Unlink(w.disk, ps));
  }

  lemma RetentionKeepsInv(w: World, id: string, policy: Policy, clues: Clues)
    requires Inv(w)
    ensures Inv(w.(disk := Retain(w.disk, OutputsDir(id), policy, clues)))
  {
    hide Inv, MatchesAny;
    var changed := ChangedDirs(w.disk, OutputsDir(id), policy, clues);
    var gone := Stripped(w.disk, policy.globs, changed);
    forall p | p in gone ensures !(ARTIFACTS <= p) {
      ChangedIsOutput(w.disk, OutputsDir(id), policy, clues, Parent(p));
      assert OutputsDir(id) <= p;
      LayoutApart();
      assert p[0] == "runs";
    }
    UnlinkKeepsInv(w, gone);
  }

  lemma ChangedIsOutput(d: Disk, outputs: Path, policy: Policy, clues: Clues, q: Path)
    requires q in ChangedDirs(d, outputs, policy, clues)
    ensures q in d.dirs && q != [] && Parent(q) == outputs
  {
    hide ResumeOnlyFiles;
    var dirs := SortedResumeDirs(d, policy.globs, outputs);
    FilterMember(dirs, (x: Path) => Some(x) != Spared(dirs, policy.keep, clues), q);
    assert q in ResumeDirs(d, policy.globs, outputs);
  }

  lemma SaveKeepsInv(w: World, id: string, e: Event)
    requires Inv(w) && id in w.runs && SeparateEvent(e)
    ensures Inv(Save(w, id, e))
  {
    hide Inv, StageInto, LineOk, ObjectsStay, RunsOk, SeparateEvent;
    var (w1, r) := StageInto(w, e);
    StageKeepsInv(w, e);
    StageKeepsRuns(w, e);
    if r.Ok? {
      var run := w1.runs[id];
      if run.IsRoot() || run.IsPending() {
        LinesOf(w1, id);
      }
      LinesOfRunSeparate(w1, id);
      LinesKeepInv(w1, id, run.lines + [Entry(r.value)]);
    }
  }

  lemma LinesOf(w: World, id: string)
    requires Inv(w) && id in w.runs && (w.runs[id].IsRoot() || w.runs[id].IsPending())
    ensures AllLinesOk(w.disk, w.runs[id].lines)
  {
    hide StoreOk, IndexOk, Isolated, NamedTreesComplete, Unshared, LineOk, CatalogOk, RunsSeparate;
  }

  lemma LinesOfRunSeparate(w: World, id: string)
    requires Inv(w) && id in w.runs
    ensures LinesSeparate(w.runs[id].lines)
  {
    hide StoreOk, IndexOk, Isolated, NamedTreesComplete, Unshared, LineOk, CatalogOk, RunsOk, LinesSeparate;
  }

  lemma RestageRunKeepsInv(w: World, id: string, changed: set<Path>)
    requires Inv(w) && id in w.runs
    ensures Inv(Restage(w, id, changed).0)
  {
    hide Inv, StageInto, LineOk, ObjectsStay, RunsOk, RestageFrom, AllLinesOk, LinesSeparate;
    var lines := w.runs[id].lines;
    var (w1, r) := RestageFrom(w, [], lines, changed);
    NoLinesSeparate();
    LinesOfRunSeparate(w, id);
    RestageKeepsInv(w, [], lines, changed);
    RestageFromKeepsRuns(w, [], lines, changed);
    if r.Ok? {
      if w.runs[id].IsRoot() || w.runs[id].IsPending() {
        LinesOf(w, id);
        NoLinesOk(w.disk);
      }
      LinesKeepInv(w1, id, r.value);
    }
  }

  lemma NoLinesOk(d: Disk)
    ensures AllLinesOk(d, [])
  {
  }
}
