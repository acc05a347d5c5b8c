/** Why the state machine asks promotions to stay in the catalog: artifact kinds are not checked against the
    store's own directories, and a kind named `objects` puts manifests and aliases among the objects. */
module Separation {
  import opened Wrappers
  import opened Text
  import opened FileSystem
  import opened Lab
  import opened Ingest
  import opened Routes
  import opened Materialize
  import opened Catalog
  import opened Gc
  import opened Safety
  import opened System

  lemma ObjectsIsAPart()
    ensures Joined(STORE_ROOT, "objects") == Route(ARTIFACTS, ["objects"], true)
  {
    SimpleText("objects");
  }

  /** No artifact of kind `objects` is separate. */
  lemma ObjectsIsNotSeparate(r: Reference)
    requires r.kind == "objects"
    ensures !IsSeparate(ManifestRoute(r))
  {
    hide Components, Split, LastPiece;
    ObjectsIsAPart();
    var parts := ManifestRoute(r).parts;
    assert !IsAbsolute(ManifestName(r)) ==> parts[0] == "objects";
  }

  lemma AliasMeetsTree(version: string, sha: string)
    requires '/' !in sha
    ensures AliasPath(Reference("objects", "trees", version), sha + ".json") == TreePath(sha)
  {
    hide Components, Split;
    ObjectsIsAPart();
    SimpleText("trees");
    var file := sha + ".json";
    assert file[|file| - 1] == 'n';
    SimpleText(file);
    assert AliasRoute(Reference("objects", "trees", version), file).parts == ["objects", "trees", file];
    assert file != "..";
    WalkedDown(ARTIFACTS, ["objects", "trees", file]);
  }

  lemma ObjectsManifestPath(name: string, version: string)
    requires ValidName(name) && '/' !in version
    ensures ManifestPath(Reference("objects", name, version)) == OBJECTS + [name + "@" + version + ".json"]
  {
    hide Components, Split;
    ObjectsIsAPart();
    var file := name + "@" + (version + ".json");
    assert ManifestName(Reference("objects", name, version)) == file;
    OnePart(name, version + ".json");
    assert file[|name|] == '@';
    assert ManifestRoute(Reference("objects", name, version)).parts == ["objects", file];
    WalkedDown(ARTIFACTS, ["objects", file]);
  }

  lemma ObjectIsDeeper(p: Path)
    requires IsObject(p)
    ensures |p| >= 4 && OBJECTS < p
  {
    ObjectIsBelow(p);
  }

  /** What a promotion below `objects/` leaves intact. */
  lemma ObjectsPromotion(w: World, req: Request) returns (d: Disk)
    requires Inv(w) && req.kind == "objects" && ValidName(req.name) && '/' !in req.version && !IsBlank(req.version)
    requires Promote(w, req).1.Ok?
    ensures var (w', r) := Promote(w, req);
      && Inv(w.(disk := d)) && w'.disk.WellFormed() && w'.runs == w.runs && w'.index == w.index + [r.value]
      && r.value.reference == Reference("objects", req.name, req.version) && r.value.alias == req.alias
      && IsObject(r.value.objectPath) && Live(d, r.value.objectPath)
      && (forall p :: p in w.disk.names && OBJECTS <= p ==> p in d.names && d.At(p).content == w.disk.At(p).content)
      && ManifestPath(r.value.reference) in w'.disk.names
      && (r.value.alias.Some? ==> w'.disk.At(LinkPath(r.value).value) == AliasData(w, req.version))
      && (forall p :: |p| >= 4 && Some(p) != LinkPath(r.value) ==>
            (p in w'.disk.names <==> p in d.names) && (p in d.names ==> w'.disk.At(p) == d.At(p)))
  {
    hide Inv, Promote, IsBlank, StoreOk, IngestPath, IsObject, Live, ManifestPath, AliasPath, Grows,
         FileSystem.Disk.WellFormed, RowFor;
    StoreOf(w);
    ShapesOf(w.hash, w.disk, w.disk);
    PromoteTouches(w, req);
    PromotedReference(w, req);
    IngestPathStores(w.hash, w.disk, req.source);
    d := IngestPath(w.hash, w.disk, req.source).0;
    GrowsKeepsInv(w, d);
    ShapesOf(w.hash, w.disk, d);
    GrowsSpares(w.disk, d);
    RowObject(w, req, IngestPath(w.hash, w.disk, req.source).1.value);
    ObjectsManifestPath(req.name, req.version);
  }

  /** Promoting kind `objects`, name `trees`, with a tree's file name as the alias: the alias file takes the
      place of the tree manifest, and whatever needed the tree has lost it. */
  lemma AliasReplacesTree(w: World, source: Path, version: string, sha: string)
    requires Inv(w) && TreePath(sha) in w.disk.names && IsDigest(sha) && '/' !in version && !IsBlank(version)
    requires Promote(w, Request(source, "objects", "trees", version, Some(sha + ".json"))).1.Ok?
    ensures var req := Request(source, "objects", "trees", version, Some(sha + ".json"));
      var w' := Promote(w, req).0;
      && !SeparateRequest(req)
      && w'.disk.At(TreePath(sha)).content == AliasDoc(version, w.json(version))
      && !Live(w'.disk, TreePath(sha))
      && (TreePath(sha) in Roots(w) ==> !Safe(w'))
  {
    hide Inv, Promote, IsBlank, StoreOk, IngestPath, Grows, FileSystem.Disk.WellFormed, ManifestPath, AliasPath,
         IsSeparate,
         BlobsLive, FullDigests, LinePaths, Latest;
    var req := Request(source, "objects", "trees", version, Some(sha + ".json"));
    var w' := Promote(w, req).0;
    var d := ObjectsPromotion(w, req);
    DigestHasNoSlash(sha);
    AliasMeetsTree(version, sha);
    ObjectsIsNotSeparate(Reference("objects", "trees", StandIn(version)));
    ObjectShapes(sha);
    if TreePath(sha) in Roots(w) {
      TreeStaysARoot(w, w', Promote(w, req).1.value, TreePath(sha));
      UnsafeRoot(w', TreePath(sha));
    }
  }

  lemma UnsafeRoot(w: World, p: Path)
    requires p in Roots(w) && !Live(w.disk, p)
    ensures !Safe(w)
  {
    hide Live, LinePaths, Latest;
    if p in IndexRoots(w.index) {
      var m :| m in Latest(w.index).Values && m.objectPath == p;
      var k :| k in Latest(w.index) && Latest(w.index)[k] == m;
    }
  }

  /** A row of kind `objects` replaces no row of a state with the invariant. */
  lemma TreeStaysARoot(w: World, w': World, m: Manifest, p: Path)
    requires Inv(w) && w'.index == w.index + [m] && w'.runs == w.runs && m.reference.kind == "objects" && p in Roots(w)
    ensures p in Roots(w')
  {
    hide StoreOk, RunsOk, IndexOk, Isolated, NamedTreesComplete, Unshared, RunsSeparate, Catalogued, IsSeparate,
         LinePaths,
         Latest;
    LatestAdds(w.index, m);
    if p in IndexRoots(w.index) {
      var row :| row in Latest(w.index).Values && row.objectPath == p;
      var k :| k in Latest(w.index) && Latest(w.index)[k] == row;
      var filings: seq<Filing> :| FiledAs(w, filings);
      LatestRow(w.index, k);
      var i :| 0 <= i < |w.index| && w.index[i] == Latest(w.index)[k] && w.index[i].reference == k;
      assert SeparateRow(filings[i].row) && filings[i].row == w.index[i];
      if k == m.reference {
        ObjectsIsNotSeparate(k);
      }
      assert Latest(w'.index)[k] == row && row in Latest(w'.index).Values;
    }
  }

  /** Every other root is read as before. */
  lemma OthersAreRead(w: World, req: Request, d: Disk, p: Path)
    requires Inv(w.(disk := d)) && Promote(w, req).1.Ok?
    requires var (w', r) := Promote(w, req);
      && w'.runs == w.runs && w'.index == w.index + [r.value]
      && IsObject(r.value.objectPath) && Live(d, r.value.objectPath)
      && (forall q :: |q| >= 4 && Some(q) != LinkPath(r.value) ==>
            (q in w'.disk.names <==> q in d.names) && (q in d.names ==> w'.disk.At(q) == d.At(q)))
      && w'.disk.WellFormed() && p in Roots(w') && Some(p) != LinkPath(r.value)
    ensures IsObject(p) && Live(d, p) && InsertObject(Promote(w, req).0.disk, p) == InsertObject(d, p)
    ensures InsertObject(d, p).Ok?
  {
    hide Inv, Promote, StoreOk, IsObject, Live, LinePaths, Latest, LinkPath, FileSystem.Disk.WellFormed, InsertObject;
    var (w', r) := Promote(w, req);
    RootOfEither(w.(disk := d), w', r.value, p);
    ObjectIsDeeper(p);
    StoreOf(w.(disk := d));
    ShapesOf(w.hash, d, d);
    LiveReads(w.(disk := d), p);
    LiveIsThere(d, p);
    SameReading(d, w'.disk, p);
  }

  lemma LiveIsThere(d: Disk, p: Path)
    requires Live(d, p)
    ensures p in d.names
  {
  }

  lemma SameReading(d: Disk, d': Disk, p: Path)
    requires d.WellFormed() && d'.WellFormed() && p in d.names && p in d'.names && d'.At(p) == d.At(p)
    ensures InsertObject(d', p) == InsertObject(d, p)
  {
  }

  lemma RootOfEither(w: World, w': World, m: Manifest, p: Path)
    requires Inv(w) && w'.index == w.index + [m] && w'.runs == w.runs && p in Roots(w')
    requires IsObject(m.objectPath) && Live(w.disk, m.objectPath)
    ensures IsObject(p) && Live(w.disk, p)
  {
    hide StoreOk, Isolated, NamedTreesComplete, Unshared, RunsSeparate, CatalogOk, LinePaths, Latest, Live, IsObject;
    LatestAdds(w.index, m);
    if p in RunRoots(w.runs) {
      var id :| id in w.runs && w.runs[id].IsRoot() && p in LinePaths(w.runs[id].lines);
      LinePathIsLive(w, id, p);
    } else {
      var row :| row in Latest(w'.index).Values && row.objectPath == p;
      var k :| k in Latest(w'.index) && Latest(w'.index)[k] == row;
      if k != m.reference {
        LatestRow(w.index, k);
        assert k in Latest(w.index) && Latest(w.index)[k] == row;
      }
    }
  }

  /** No root but `tree` is or lists `b`. */
  ghost predicate NoOtherNeeds(w: World, tree: Path, b: Path) {
    forall p :: p in Roots(w) && p != tree && InsertObject(w.disk, p).Ok? ==> b !in InsertObject(w.disk, p).value
  }

  /** If the version's text is no JSON, every later sweep fails; if it is JSON without entries, the next sweep
      succeeds and takes the blobs that only this tree listed. */
  lemma ReplacedTreeLosesBlobs(w: World, source: Path, version: string, sha: string)
    requires Inv(w) && TreePath(sha) in Roots(w) && IsDigest(sha) && '/' !in version && !IsBlank(version)
    requires Promote(w, Request(source, "objects", "trees", version, Some(sha + ".json"))).1.Ok?
    ensures var w' := Promote(w, Request(source, "objects", "trees", version, Some(sha + ".json"))).0;
      && (w.json(version) == None ==> !Readable(w') && Sweep(w') == w')
      && (w.json(version) == Some([]) ==>
            && Readable(w')
            && (forall b :: OBJECTS <= b && b != TreePath(sha) && NoOtherNeeds(w', TreePath(sha), b) ==>
                  b !in Sweep(w').disk.names))
  {
    hide Inv, Promote, IsBlank, StoreOk, IsObject, Live, LinePaths, Latest, FileSystem.Disk.WellFormed, Roots,
         AliasPath,
         ManifestPath, Sweep, SweepFiles;
    var req := Request(source, "objects", "trees", version, Some(sha + ".json"));
    var (w', r) := Promote(w, req);
    var d := ObjectsPromotion(w, req);
    DigestHasNoSlash(sha);
    AliasMeetsTree(version, sha);
    ObjectShapes(sha);
    TreeStaysARoot(w, w', r.value, TreePath(sha));
    ReplacedTreeReads(w'.disk, sha, version, w.json(version));
    if w.json(version) == None {
      UnreadableStays(w');
    }
    if w.json(version) == Some([]) {
      forall p | p in Roots(w') && p != TreePath(sha) ensures InsertObject(w'.disk, p).Ok? {
        OthersAreRead(w, req, d, p);
      }
      LinesStayReadable(w, w');
      forall b | OBJECTS <= b && b != TreePath(sha) && NoOtherNeeds(w', TreePath(sha), b)
        ensures b !in Sweep(w').disk.names
      {
        SweepIsExact(w');
      }
    }
  }

  lemma ReplacedTreeReads(d: Disk, sha: string, version: string, reading: Option<seq<TreeEntry>>)
    requires d.WellFormed() && TreePath(sha) in d.names
    requires d.At(TreePath(sha)).content == AliasDoc(version, reading)
    ensures reading == None ==> InsertObject(d, TreePath(sha)) == Err(Serialization)
    ensures reading == Some([]) ==> InsertObject(d, TreePath(sha)) == Ok({TreePath(sha)})
  {
    var p := TreePath(sha);
    assert d.names[p] in d.inodes;
    assert p[|p| - 2] == "trees";
    if reading == Some([]) {
      var got := InsertObject(d, p).value;
      assert forall q :: q in got <==> q == p;
      assert got == {p};
    }
  }

  lemma UnreadableStays(w: World)
    requires !Readable(w)
    ensures Sweep(w) == w
  {
  }

  lemma LinesStayReadable(w: World, w': World)
    requires Inv(w) && w'.runs == w.runs
    ensures forall id :: id in w'.runs && w'.runs[id].IsRoot() ==> WellFormedLines(w'.runs[id].lines)
  {
    hide StoreOk, IndexOk, Isolated, NamedTreesComplete, Unshared, RunsSeparate, CatalogOk;
    forall id, i | id in w.runs && w.runs[id].IsRoot() && 0 <= i < |w.runs[id].lines|
      ensures w.runs[id].lines[i].Entry?
    {
      assert LineOk(w.disk, w.runs[id].lines[i]);
    }
  }

  /** A tree manifest, or something as deep as a blob. */
  predicate LooksLikeObject(p: Path) {
    |p| == 5 || (|p| == 4 && p[2] == "trees")
  }

  lemma NeedsLookLikeObjects(h: Hash, d: Disk, p: Path, q: Path)
    requires StoreOk(h, d) && IsObject(p) && Live(d, p)
    requires InsertObject(d, p).Ok? && q in InsertObject(d, p).value
    ensures LooksLikeObject(q)
  {
    hide BlobsLive, FullDigests, InsertObject, StoreOk;
    NeededObjects(h, d, p);
    if q != p {
      var es := d.At(p).content.entries;
      assert q in ListedBlobs(es);
    }
  }

  lemma ReachedFrom(d: Disk, roots: set<Path>, q: Path) returns (p: Path)
    requires q in Reached(d, roots)
    ensures p in roots && InsertObject(d, p).Ok? && q in InsertObject(d, p).value
  {
    hide InsertObject;
    p :| p in roots && InsertObject(d, p).Ok? && q in InsertObject(d, p).value;
  }

  lemma NotDescribed(d: Disk, name: string, version: string)
    requires ValidName(name) && name != "trees" && '/' !in version
    requires forall q :: q in d.names && OBJECTS <= q ==> LooksLikeObject(q)
    ensures Describe(d, "objects", name, version) == Err(Io)
  {
    hide Components, Split, LastPiece, Passable;
    var r := Reference("objects", name, version);
    ObjectsManifestPath(name, version);
    assert OBJECTS <= ManifestPath(r);
    ObjectsIsAPart();
    SimpleText(name);
    if ValidName(version) {
      SimpleText(version);
      assert AliasRoute(r, version).parts == ["objects", name, version];
      WalkedDown(ARTIFACTS, ["objects", name, version]);
      assert OBJECTS <= AliasPath(r, version);
    } else {
      NoNamedPart(version);
    }
  }

  lemma NoNamedPart(version: string)
    requires '/' !in version && !ValidName(version)
    ensures !ValidName(LastPiece(version))
  {
    IndexOfAbsent(version, '/');
    assert Split(version, '/') == [version];
  }

  /** Promoting under kind `objects`: the manifest is among the objects, where no root needs it, so the next sweep
      takes it although the index still has the row. */
  lemma SweepTakesManifest(w: World, req: Request)
    requires Inv(w) && req.kind == "objects" && ValidName(req.name) && req.name != "trees"
    requires '/' !in req.version && !IsBlank(req.version) && req.alias == None
    requires Promote(w, req).1.Ok?
    ensures var (w', r) := Promote(w, req);
      && !SeparateRequest(req)
      && r.value.reference in Latest(Sweep(w').index)
      && Found(w'.disk, ManifestRoute(r.value.reference))
      && Describe(Sweep(w').disk, "objects", req.name, req.version) == Err(Io)
  {
    hide Inv, Promote, IsBlank, StoreOk, IsObject, Live, LinePaths, Latest, FileSystem.Disk.WellFormed, Roots,
         AliasPath,
         ManifestPath, Sweep, SweepFiles, Describe, IsSeparate, Reached, InsertObject, LooksLikeObject, Catalogued,
         ManifestRoute, FiledBy;
    var (w', r) := Promote(w, req);
    var d := ObjectsPromotion(w, req);
    ObjectsIsNotSeparate(Reference("objects", req.name, StandIn(req.version)));
    LatestAdds(w.index, r.value);
    SweepKeepsRecords(w');
    StoreOf(w);
    ShapesOf(w.hash, w.disk, w.disk);
    NothingFiled(w.disk);
    PromoteFiles(w, req, []);
    assert [] + [Filing(r.value, true)] == [Filing(r.value, true)];
    SheetIsRead(w'.disk, [Filing(r.value, true)], 0);
    forall p | p in Roots(w')
      ensures IsObject(p) && Live(d, p) && InsertObject(w'.disk, p) == InsertObject(d, p) && InsertObject(d, p).Ok?
    {
      OthersAreRead(w, req, d, p);
    }
    LinesStayReadable(w, w');
    AllReadableHere(w');
    SweepIsExact(w');
    StoreOf(w.(disk := d));
    forall q | q in Sweep(w').disk.names && OBJECTS <= q ensures LooksLikeObject(q) {
      var p := ReachedFrom(w'.disk, Roots(w'), q);
      NeedsLookLikeObjects(w.hash, d, p, q);
    }
    NotDescribed(Sweep(w').disk, req.name, req.version);
  }

  lemma AllReadableHere(w: World)
    requires forall p :: p in Roots(w) ==> InsertObject(w.disk, p).Ok?
    requires forall id :: id in w.runs && w.runs[id].IsRoot() ==> WellFormedLines(w.runs[id].lines)
    ensures Readable(w)
  {
  }
}
