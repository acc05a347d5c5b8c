/** Promotion under (kind, name, version): the append-only index, the manifest and alias files on the disk,
    and the textual references that name them. */
module Catalog {
  import opened Wrappers
  import opened Order
  import opened Text
  import opened FileSystem
  import opened Lab
  import opened Ingest
  import opened Routes

  datatype Request = Request(source: Path, kind: string, name: string, version: string, alias: Option<string>)

  function ManifestData(m: Manifest): Data { Data(ManifestDoc(m), FILE_MODE) }

  function AliasData(w: World, version: string): Data { Data(AliasDoc(version, w.json(version)), FILE_MODE) }

  function RowFor(w: World, req: Request, stored: Stored): Manifest {
    Manifest(Reference(req.kind, req.name, if IsBlank(req.version) then stored.sha256 else req.version),
             stored.sha256, stored.storage, stored.objectPath, req.source, req.alias, w.clock)
  }

  /** The manifest file is written first, the alias file last; in between the row is appended to the index. */
  function Promote(w: World, req: Request): (World, Result<Manifest>) {
    if IsBlank(req.kind) || IsBlank(req.name) then (w, Err(Artifact))
    else
      var (d, stored) := IngestPath(w.hash, w.disk, req.source);
      if stored.Err? then (w.(disk := d), Err(stored.error))
      else
        var m := RowFor(w, req, stored.value);
        var (d1, written) := Deposit(d, ManifestRoute(m.reference), ManifestData(m));
        if written.Err? then (w.(disk := d1, clock := w.clock + 1), Err(written.error))
        else LinkAlias(w.(disk := d1, index := w.index + [m], clock := w.clock + 1), m)
  }

  /** `write_alias` */
  function LinkAlias(w: World, m: Manifest): (World, Result<Manifest>) {
    if m.alias.None? then (w, Ok(m))
    else
      var (d, linked) := Deposit(w.disk, AliasRoute(m.reference, m.alias.value), AliasData(w, m.reference.version));
      (w.(disk := d), if linked.Err? then Err(linked.error) else Ok(m))
  }

  function ReadManifest(d: Disk, r: Reference): Result<Manifest> {
    if !Found(d, ManifestRoute(r)) then Err(Io)
    else
      match d.At(ManifestPath(r)).content
      case ManifestDoc(m) => Ok(m)
      case _ => Err(Serialization)
  }

  /** `describe_parts`: a version with a manifest is taken as it is, else it is read as an alias. */
  function Describe(d: Disk, kind: string, name: string, versionOrAlias: string): Result<Manifest> {
    var r := Reference(kind, name, versionOrAlias);
    if Found(d, ManifestRoute(r)) then ReadManifest(d, r)
    else if !Found(d, AliasRoute(r, versionOrAlias)) then Err(Io)
    else
      match d.At(AliasPath(r, versionOrAlias)).content
      case AliasDoc(version, _) =>
        if IsBlank(version) then Err(Artifact) else ReadManifest(d, Reference(kind, name, Trim(version)))
      case _ => Err(Io)
  }

  method PromoteArtifact(lab: Project, req: Request) returns (r: Result<Manifest>)
    modifies lab
    ensures lab.View() == Promote(old(lab.View()), req).0
    ensures r == Promote(old(lab.View()), req).1
  {
    hide Deposit, IngestPath, IsBlank, ManifestRoute, AliasRoute;
    if IsBlank(req.kind) || IsBlank(req.name) {
      return Err(Artifact);
    }
    var stored := StorePath(lab, req.source);
    if stored.Err? {
      return Err(stored.error);
    }
    var version := if IsBlank(req.version) then stored.value.sha256 else req.version;
    var m := Manifest(Reference(req.kind, req.name, version), stored.value.sha256, stored.value.storage,
                      stored.value.objectPath, req.source, req.alias, lab.clock);
    lab.clock := lab.clock + 1;
    var written := DepositFile(lab, ManifestRoute(m.reference), Data(ManifestDoc(m), FILE_MODE));
    if written.Err? {
      return Err(written.error);
    }
    lab.index := lab.index + [m];
    if m.alias.Some? {
      var data := Data(AliasDoc(version, lab.json(version)), FILE_MODE);
      var linked := DepositFile(lab, AliasRoute(m.reference, m.alias.value), data);
      if linked.Err? {
        return Err(linked.error);
      }
    }
    r := Ok(m);
  }

  // ---------------------------------------------------------------- index rows, sorted and reduced to the latest

  predicate RowLe(a: Manifest, b: Manifest) {
    if a.reference.kind != b.reference.kind then StrLe(a.reference.kind, b.reference.kind)
    else if a.reference.name != b.reference.name then StrLe(a.reference.name, b.reference.name)
    else StrLe(a.reference.version, b.reference.version)
  }

  lemma RowLeClass(a: Manifest, b: Manifest)
    ensures RowLe(a, b) || RowLe(b, a)
    ensures a.reference == b.reference ==> RowLe(a, b)
  {
    StrLeCompares(a.reference.kind, b.reference.kind);
    StrLeCompares(a.reference.name, b.reference.name);
    StrLeCompares(a.reference.version, b.reference.version);
  }

  lemma {:induction false} LatestIsLastOfClass(index: seq<Manifest>, k: Reference)
    ensures k in Latest(index) <==> Filter(index, (m: Manifest) => m.reference == k) != []
    ensures k in Latest(index) ==>
      var rows := Filter(index, (m: Manifest) => m.reference == k); Latest(index)[k] == rows[|rows| - 1]
  {
    var keep := (m: Manifest) => m.reference == k;
    if index != [] {
      var n := |index| - 1;
      LatestIsLastOfClass(index[..n], k);
      assert index == index[..n] + [index[n]];
      FilterAppends(index[..n], [index[n]], keep);
      assert Filter([index[n]], keep) == if keep(index[n]) then [index[n]] else [];
    }
  }

  /** Sorting the rows by reference first, as `list` does, leaves the same latest row of each. */
  lemma SortingKeepsLatest(index: seq<Manifest>)
    ensures Latest(StableSort(index, RowLe)) == Latest(index)
  {
    forall k ensures (k in Latest(StableSort(index, RowLe)) <==> k in Latest(index))
                  && (k in Latest(index) ==> Latest(StableSort(index, RowLe))[k] == Latest(index)[k]) {
      var keep := (m: Manifest) => m.reference == k;
      forall a, b | keep(a) && keep(b) ensures RowLe(a, b) { RowLeClass(a, b); }
      StableSortKeepsClass(index, RowLe, keep);
      LatestIsLastOfClass(index, k);
      LatestIsLastOfClass(StableSort(index, RowLe), k);
    }
  }

  predicate Wanted(m: Manifest, kind: Option<string>, name: Option<string>, alias: Option<string>) {
    && (kind.None? || kind.value == m.reference.kind)
    && (name.None? || name.value == m.reference.name)
    && (alias.None? || m.alias == alias)
  }

  method List(lab: Project, kind: Option<string>, name: Option<string>, alias: Option<string>)
    returns (rows: seq<Manifest>)
    ensures rows == StableSort(Filter(lab.index, (m: Manifest) => Wanted(m, kind, name, alias)), RowLe)
    ensures IsListing(lab.index, kind, name, alias, rows)
  {
    hide IsListing;
    ListedRows(lab.index, kind, name, alias);
    var keep := (m: Manifest) => Wanted(m, kind, name, alias);
    rows := [];
    var i := 0;
    while i < |lab.index|
      invariant 0 <= i <= |lab.index|
      invariant rows == Filter(lab.index[..i], keep)
    {
      var m := lab.index[i];
      assert lab.index[..i + 1] == lab.index[..i] + [m];
      FilterAppends(lab.index[..i], [m], keep);
      assert Filter([m], keep) == if keep(m) then [m] else [];
      if Wanted(m, kind, name, alias) {
        rows := rows + [m];
      }
      i := i + 1;
    }
    assert lab.index[..i] == lab.index;
    rows := StableSort(rows, RowLe);
  }

  lemma {:induction false} FilterCounts<T>(xs: seq<T>, keep: T -> bool, x: T)
    ensures multiset(Filter(xs, keep))[x] == if keep(x) then multiset(xs)[x] else 0
  {
    if xs != [] {
      FilterCounts(xs[1..], keep, x);
      assert xs == [xs[0]] + xs[1..];
    }
  }

  lemma RowLeIsPreorder()
    ensures IsPreorder(RowLe)
  {
    hide StrLe;
    StrLeIsTotal();
  }

  /** `rows` are the rows of the index with this kind, name and alias, as far as they are given, each as often as it is
      there, in the order of kind, then name, then version. */
  ghost predicate IsListing(index: seq<Manifest>, kind: Option<string>, name: Option<string>, alias: Option<string>,
                            rows: seq<Manifest>) {
    && (forall m :: multiset(rows)[m] ==
          if (kind.Some? ==> m.reference.kind == kind.value) && (name.Some? ==> m.reference.name == name.value)
             && (alias.Some? ==> m.alias.Some? && m.alias.value == alias.value)
          then multiset(index)[m] else 0)
    && (forall i, j :: 0 <= i < j < |rows| ==>
          var a, b := rows[i].reference, rows[j].reference;
          if a.kind != b.kind then StrLe(a.kind, b.kind)
          else if a.name != b.name then StrLe(a.name, b.name)
          else StrLe(a.version, b.version))
  }

  lemma ListedRows(index: seq<Manifest>, kind: Option<string>, name: Option<string>, alias: Option<string>)
    ensures var keep := (m: Manifest) => Wanted(m, kind, name, alias);
      IsListing(index, kind, name, alias, StableSort(Filter(index, keep), RowLe))
  {
    hide StableSort, StrLe, Sorted, Filter;
    var keep := (m: Manifest) => Wanted(m, kind, name, alias);
    var rows := StableSort(Filter(index, keep), RowLe);
    FilteredAndSorted(index, keep);
    forall m ensures multiset(rows)[m] == if Wanted(m, kind, name, alias) then multiset(index)[m] else 0 {
    }
    forall i, j | 0 <= i < j < |rows| ensures RowLe(rows[i], rows[j]) {
      InOrder(rows, i, j);
    }
  }

  lemma InOrder(rows: seq<Manifest>, i: nat, j: nat)
    requires Sorted(rows, RowLe) && i < j < |rows|
    ensures RowLe(rows[i], rows[j])
  {
  }

  lemma FilteredAndSorted(index: seq<Manifest>, keep: Manifest -> bool)
    ensures var rows := StableSort(Filter(index, keep), RowLe);
      Sorted(rows, RowLe) && forall m :: multiset(rows)[m] == if keep(m) then multiset(index)[m] else 0
  {
    hide StableSort, RowLe;
    RowLeIsPreorder();
    StableSortSorts(Filter(index, keep), RowLe);
    forall m ensures multiset(Filter(index, keep))[m] == if keep(m) then multiset(index)[m] else 0 {
      FilterCounts(index, keep, m);
    }
  }

  /** The collector's map: every listed row inserted in turn. */
  method LatestRows(lab: Project) returns (latest: map<Reference, Manifest>)
    ensures latest == Latest(lab.index)
  {
    hide IsListing, StableSort;
    var rows := List(lab, None, None, None);
    FilterKeepsAll(lab.index, (m: Manifest) => Wanted(m, None, None, None));
    latest := map[];
    var i := 0;
    while i < |rows|
      invariant 0 <= i <= |rows|
      invariant latest == Latest(rows[..i])
    {
      assert rows[..i + 1][..i] == rows[..i];
      latest := latest[rows[i].reference := rows[i]];
      i := i + 1;
    }
    assert rows[..i] == rows;
    SortingKeepsLatest(lab.index);
  }

  lemma {:induction false} FilterKeepsAll<T>(xs: seq<T>, keep: T -> bool)
    requires forall i :: 0 <= i < |xs| ==> keep(xs[i])
    ensures Filter(xs, keep) == xs
  {
    if xs != [] {
      FilterKeepsAll(xs[1..], keep);
      assert xs == [xs[0]] + xs[1..];
    }
  }

  // ---------------------------------------------------------------- does the index agree with the manifest files?

  /** What a catalog file says. */
  datatype Sheet = ManifestSheet(manifest: Manifest) | AliasSheet(version: string)

  /** One promotion that appended its row; `linked` tells whether it got as far as its alias file. */
  datatype Filing = Filing(row: Manifest, linked: bool) {
    predicate Links() { linked && row.alias.Some? }
  }

  function Rows(filings: seq<Filing>): (rows: seq<Manifest>)
    ensures |rows| == |filings| && forall i :: 0 <= i < |rows| ==> rows[i] == filings[i].row
  {
    seq(|filings|, i requires 0 <= i < |filings| => filings[i].row)
  }

  function WriteSheets(sheets: map<Path, Sheet>, f: Filing): map<Path, Sheet> {
    var written := sheets[ManifestPath(f.row.reference) := ManifestSheet(f.row)];
    if !f.Links() then written
    else written[AliasPath(f.row.reference, f.row.alias.value) := AliasSheet(f.row.reference.version)]
  }

  /** The files that a promotion history leaves behind. */
  function SheetsOf(filings: seq<Filing>): map<Path, Sheet> {
    if filings == [] then map[]
    else WriteSheets(SheetsOf(filings[..|filings| - 1]), filings[|filings| - 1])
  }

  predicate Shows(c: Content, s: Sheet) {
    match s
    case ManifestSheet(m) => c == ManifestDoc(m)
    case AliasSheet(version) => c.AliasDoc? && c.version == version
  }

  predicate ManifestWay(d: Disk, r: Reference) {
    var route := ManifestRoute(r);
    route.parts != [] && Passable(d, route.start, route.parts[..|route.parts| - 1])
  }

  ghost predicate SheetsHold(d: Disk, sheets: map<Path, Sheet>) {
    forall p :: p in sheets ==> p in d.names && Shows(d.At(p).content, sheets[p])
  }

  ghost predicate WaysHold(d: Disk, rows: seq<Manifest>) {
    forall i :: 0 <= i < |rows| ==> ManifestWay(d, rows[i].reference)
  }

  /** The disk holds the files of this history, and the directories on the way to its manifests. */
  ghost predicate Catalogued(d: Disk, filings: seq<Filing>) {
    SheetsHold(d, SheetsOf(filings)) && WaysHold(d, Rows(filings))
  }

  /** Every reference of the index is described by its latest row. */
  ghost predicate Agrees(d: Disk, index: seq<Manifest>) {
    forall k :: k in Latest(index) ==> Describe(d, k.kind, k.name, k.version) == Ok(Latest(index)[k])
  }

  ghost predicate IsLatest(index: seq<Manifest>, i: nat)
    requires i < |index|
  {
    forall j :: i < j < |index| ==> index[j].reference != index[i].reference
  }

  /** A later promotion, or its own or a later alias, goes to the file of row `i`. */
  ghost predicate Overwritten(filings: seq<Filing>, i: nat)
    requires i < |filings|
  {
    || (exists j :: i < j < |filings| &&
          ManifestPath(filings[j].row.reference) == ManifestPath(filings[i].row.reference))
    || (exists j :: i <= j < |filings| && filings[j].Links() &&
          AliasPath(filings[j].row.reference, filings[j].row.alias.value) == ManifestPath(filings[i].row.reference))
  }

  /** No row that is still the latest of its reference has lost its file. */
  ghost predicate NoneOverwritten(filings: seq<Filing>) {
    forall i :: 0 <= i < |filings| && IsLatest(Rows(filings), i) ==> !Overwritten(filings, i)
  }

  lemma {:induction false} UntouchedManifest(filings: seq<Filing>, i: nat)
    requires i < |filings| && !Overwritten(filings, i)
    ensures var p := ManifestPath(filings[i].row.reference);
      p in SheetsOf(filings) && SheetsOf(filings)[p] == ManifestSheet(filings[i].row)
  {
    hide ManifestPath, AliasPath;
    var n := |filings| - 1;
    if i < n {
      assert !Overwritten(filings[..n], i);
      UntouchedManifest(filings[..n], i);
    }
  }

  /** A manifest that stands at a path was written there by some row, and nothing went there since. */
  lemma {:induction false} ManifestOrigin(filings: seq<Filing>, p: Path) returns (i: nat)
    requires p in SheetsOf(filings) && SheetsOf(filings)[p].ManifestSheet?
    ensures i < |filings| && SheetsOf(filings)[p] == ManifestSheet(filings[i].row)
    ensures ManifestPath(filings[i].row.reference) == p && !Overwritten(filings, i)
  {
    hide ManifestPath, AliasPath;
    var n := |filings| - 1;
    if ManifestPath(filings[n].row.reference) == p {
      i := n;
    } else {
      i := ManifestOrigin(filings[..n], p);
      assert filings[..n][i] == filings[i];
    }
  }

  lemma {:induction false} ManifestStays(filings: seq<Filing>, i: nat)
    requires i < |filings|
    ensures ManifestPath(filings[i].row.reference) in SheetsOf(filings)
  {
    hide ManifestPath, AliasPath;
    var n := |filings| - 1;
    if i < n {
      ManifestStays(filings[..n], i);
    }
  }

  /** A promoted reference is described by what stands at its manifest's path. */
  lemma SheetIsRead(d: Disk, filings: seq<Filing>, i: nat)
    requires Catalogued(d, filings) && i < |filings|
    ensures var r := filings[i].row.reference;
      && ManifestPath(r) in SheetsOf(filings)
      && Found(d, ManifestRoute(r))
      && Describe(d, r.kind, r.name, r.version) ==
           match SheetsOf(filings)[ManifestPath(r)]
           case ManifestSheet(m) => Ok(m)
           case AliasSheet(_) => Err(Serialization)
  {
    hide ManifestRoute, Passable, SheetsOf;
    var r := filings[i].row.reference;
    ManifestStays(filings, i);
    ManifestNameEnds(r);
    assert Rows(filings)[i].reference == r;
    assert ManifestWay(d, r);
    assert Shows(d.At(ManifestPath(r)).content, SheetsOf(filings)[ManifestPath(r)]);
  }

  /** Index and manifest files agree exactly when no row that is still the latest of its reference
      has had its file overwritten. */
  lemma IndexAgreesExactlyWhen(d: Disk, filings: seq<Filing>)
    requires Catalogued(d, filings)
    ensures Agrees(d, Rows(filings)) <==> NoneOverwritten(filings)
  {
    hide Overwritten, Catalogued, Describe, ManifestPath, SheetsOf;
    var index := Rows(filings);
    if Agrees(d, index) {
      forall i | 0 <= i < |filings| && IsLatest(index, i) ensures !Overwritten(filings, i) {
        LatestOfRow(index, i);
        SheetIsRead(d, filings, i);
        var j := ManifestOrigin(filings, ManifestPath(filings[i].row.reference));
        assert filings[j].row == filings[i].row;
        assert j <= i by { assert index[j] == filings[j].row; }
        NotOverwrittenLater(filings, j, i);
      }
    }
    if NoneOverwritten(filings) {
      forall k | k in Latest(index) ensures Describe(d, k.kind, k.name, k.version) == Ok(Latest(index)[k]) {
        LatestRow(index, k);
        var i :| 0 <= i < |index| && index[i] == Latest(index)[k] && index[i].reference == k
          && forall j :: i < j < |index| ==> index[j].reference != k;
        assert IsLatest(index, i);
        UntouchedManifest(filings, i);
        SheetIsRead(d, filings, i);
      }
    }
  }

  lemma NotOverwrittenLater(filings: seq<Filing>, j: nat, i: nat)
    requires j <= i < |filings| && filings[j].row.reference == filings[i].row.reference && !Overwritten(filings, j)
    ensures !Overwritten(filings, i)
  {
    hide ManifestPath, AliasPath;
  }

  lemma LatestOfRow(index: seq<Manifest>, i: nat)
    requires i < |index| && IsLatest(index, i)
    ensures index[i].reference in Latest(index) && Latest(index)[index[i].reference] == index[i]
  {
    LatestRow(index, index[i].reference);
    var j :| 0 <= j < |index| && index[j] == Latest(index)[index[i].reference]
      && index[j].reference == index[i].reference
      && forall l :: j < l < |index| ==> index[l].reference != index[i].reference;
    assert j == i;
  }

  // ---------------------------------------------------------------- promotions leave exactly these files

  /** Every name keeps its inode and every inode its data. */
  ghost predicate KeepsFiles(d: Disk, d': Disk) {
    && d.dirs <= d'.dirs
    && (forall p :: p in d.names ==> p in d'.names && d'.names[p] == d.names[p])
    && (forall i :: i in d.inodes ==> i in d'.inodes && d'.inodes[i] == d.inodes[i])
  }

  lemma WriteNewKeeps(d: Disk, p: Path, data: Data)
    requires d.WellFormed() && p !in d.names && d.CanWrite(p)
    ensures Write(d, p, data).WellFormed() && KeepsFiles(d, Write(d, p, data))
  {
    WriteKeepsShape(d, p, data);
  }

  lemma KeepsSame(d: Disk)
    ensures KeepsFiles(d, d)
  {
  }

  lemma KeepsChains(d0: Disk, d1: Disk, d2: Disk)
    requires KeepsFiles(d0, d1) && KeepsFiles(d1, d2)
    ensures KeepsFiles(d0, d2)
  {
  }

  lemma IngestFileKeeps(h: Hash, d: Disk, source: Path)
    requires d.WellFormed()
    ensures var d' := IngestFile(h, d, source).0; d'.WellFormed() && KeepsFiles(d, d')
  {
    hide FileSystem.Disk.WellFormed, KeepsFiles, Write, BlobPath, FileSystem.Disk.CanWrite;
    KeepsSame(d);
    if source in d.names {
      var blob := BlobPath(h.file(d.At(source).content));
      if !d.Exists(blob) && d.CanWrite(blob) {
        WriteNewKeeps(d, blob, d.At(source));
      }
    }
  }

  lemma {:induction false} IngestFromKeeps(h: Hash, d: Disk, dir: Path, entries: seq<TreeEntry>, rels: seq<Path>)
    requires d.WellFormed()
    ensures var d' := IngestFrom(h, d, dir, entries, rels).0; d'.WellFormed() && KeepsFiles(d, d')
    decreases |rels|
  {
    hide FileSystem.Disk.WellFormed, KeepsFiles, IngestFile;
    KeepsSame(d);
    if rels != [] {
      var (d1, r) := IngestFile(h, d, dir + rels[0]);
      IngestFileKeeps(h, d, dir + rels[0]);
      if r.Ok? {
        var entry := TreeEntry(EntryPath(rels[0]), r.value, d1.At(dir + rels[0]).mode);
        IngestFromKeeps(h, d1, dir, entries + [entry], rels[1..]);
        KeepsChains(d, d1, IngestFrom(h, d1, dir, entries + [entry], rels[1..]).0);
      }
    }
  }

  /** Ingesting only adds files, on any disk. */
  lemma IngestPathKeeps(h: Hash, d: Disk, source: Path)
    requires d.WellFormed()
    ensures var d' := IngestPath(h, d, source).0; d'.WellFormed() && KeepsFiles(d, d')
  {
    hide FileSystem.Disk.WellFormed, KeepsFiles, IngestFile, IngestFrom, Write, TreePath, FileSystem.Disk.CanWrite;
    KeepsSame(d);
    if source in d.names {
      IngestFileKeeps(h, d, source);
    } else if source in d.dirs {
      var (d1, r) := IngestFrom(h, d, source, [], Walk(d, source));
      IngestFromKeeps(h, d, source, [], Walk(d, source));
      if r.Ok? {
        var entries := SortEntries(r.value);
        var path := TreePath(h.tree(entries));
        KeepsSame(d1);
        if !d1.Exists(path) && d1.CanWrite(path) {
          WriteNewKeeps(d1, path, Data(TreeDoc(entries), FILE_MODE));
        }
        KeepsChains(d, d1, StoreTree(h, d1, entries).0);
      }
    }
  }

  lemma CataloguedStays(d: Disk, d': Disk, filings: seq<Filing>)
    requires Catalogued(d, filings) && d.WellFormed() && KeepsFiles(d, d')
    ensures Catalogued(d', filings)
  {
    hide SheetsOf, Shows, ManifestWay, FileSystem.Disk.WellFormed;
    WaysStay(d, d', Rows(filings));
    SameAt(d, d');
  }

  lemma WaysStay(d: Disk, d': Disk, rows: seq<Manifest>)
    requires WaysHold(d, rows) && d.dirs <= d'.dirs
    ensures WaysHold(d', rows)
  {
    hide ManifestWay;
    forall i | 0 <= i < |rows| ensures ManifestWay(d', rows[i].reference) {
      WayStays(d, d', rows[i].reference);
    }
  }

  lemma WayStays(d: Disk, d': Disk, r: Reference)
    requires ManifestWay(d, r) && d.dirs <= d'.dirs
    ensures ManifestWay(d', r)
  {
    var route := ManifestRoute(r);
    MorePassable(d, d', route.start, route.parts[..|route.parts| - 1]);
  }

  lemma FilingAdds(filings: seq<Filing>, f: Filing)
    ensures SheetsOf(filings + [f]) == WriteSheets(SheetsOf(filings), f)
    ensures Rows(filings + [f]) == Rows(filings) + [f.row]
  {
    hide WriteSheets;
    assert (filings + [f])[..|filings|] == filings;
  }

  /** Wherever a name keeps its inode it shows the same data. */
  lemma SameAt(d: Disk, d': Disk)
    requires d.WellFormed() && forall i :: i in d.inodes ==> i in d'.inodes && d'.inodes[i] == d.inodes[i]
    ensures forall p :: p in d.names && p in d'.names && d'.names[p] == d.names[p] ==> d'.At(p) == d.At(p)
  {
  }

  /** One more file is placed on a disk that holds `sheets`. */
  lemma SheetDeposited(d: Disk, r: Route, data: Data, sheets: map<Path, Sheet>, sheet: Sheet)
    requires d.WellFormed() && SheetsHold(d, sheets) && Shows(data.content, sheet)
    ensures var (d', res) := Deposit(d, r, data);
      && d'.WellFormed() && d.dirs <= d'.dirs
      && SheetsHold(d', if res.Ok? then sheets[End(r) := sheet] else sheets)
      && (res.Ok? ==> EndsInName(r) && Found(d', r))
  {
    hide Deposit, FileSystem.Disk.WellFormed, Shows, Found, End, Waypoints;
    Deposited(d, r, data);
    SameAt(d, Deposit(d, r, data).0);
  }

  lemma FileManifest(d: Disk, filings: seq<Filing>, m: Manifest)
    requires d.WellFormed() && Catalogued(d, filings)
    ensures var (d', written) := Deposit(d, ManifestRoute(m.reference), ManifestData(m));
      && d'.WellFormed() && Catalogued(d', if written.Ok? then filings + [Filing(m, false)] else filings)
  {
    hide SheetsOf, ManifestRoute, Passable, Deposit, FileSystem.Disk.WellFormed, SheetsHold, ManifestWay, WaysHold;
    var (d', written) := Deposit(d, ManifestRoute(m.reference), ManifestData(m));
    SheetDeposited(d, ManifestRoute(m.reference), ManifestData(m), SheetsOf(filings), ManifestSheet(m));
    WaysStay(d, d', Rows(filings));
    if written.Ok? {
      FilingAdds(filings, Filing(m, false));
      OneMoreWay(d', Rows(filings), m);
    }
  }

  lemma OneMoreWay(d: Disk, rows: seq<Manifest>, m: Manifest)
    requires WaysHold(d, rows) && Found(d, ManifestRoute(m.reference))
    ensures WaysHold(d, rows + [m])
  {
    hide ManifestRoute, Passable;
  }

  lemma FileAlias(w: World, filings: seq<Filing>, m: Manifest)
    requires w.disk.WellFormed() && Catalogued(w.disk, filings + [Filing(m, false)])
    ensures var (w', r) := LinkAlias(w, m);
      w'.disk.WellFormed() && Catalogued(w'.disk, filings + [Filing(m, r.Ok?)])
  {
    hide SheetsOf, ManifestRoute, AliasRoute, Passable, Deposit, FileSystem.Disk.WellFormed, SheetsHold, WaysHold, End;
    var (w', r) := LinkAlias(w, m);
    FilingAdds(filings, Filing(m, false));
    FilingAdds(filings, Filing(m, r.Ok?));
    if m.alias.Some? {
      var sheets := SheetsOf(filings + [Filing(m, false)]);
      var version := m.reference.version;
      var route := AliasRoute(m.reference, m.alias.value);
      SheetDeposited(w.disk, route, AliasData(w, version), sheets, AliasSheet(version));
      WaysStay(w.disk, w'.disk, Rows(filings) + [m]);
      var at := AliasPath(m.reference, m.alias.value);
      assert WriteSheets(SheetsOf(filings), Filing(m, true)) == sheets[at := AliasSheet(version)];
      assert SheetsOf(filings + [Filing(m, r.Ok?)]) == if r.Ok? then sheets[at := AliasSheet(version)] else sheets;
      assert w'.disk == Deposit(w.disk, AliasRoute(m.reference, m.alias.value), AliasData(w, version)).0;
      assert WaysHold(w'.disk, Rows(filings + [Filing(m, r.Ok?)]));
      assert SheetsHold(w'.disk, SheetsOf(filings + [Filing(m, r.Ok?)]));
    }
  }

  /** The filing of a promotion, if it got as far as its row. */
  function FiledBy(w: World, req: Request): seq<Filing> {
    var (w', r) := Promote(w, req);
    if |w'.index| > |w.index| then [Filing(w'.index[|w.index|], r.Ok?)] else []
  }

  /** A promotion leaves exactly the files of its filing, whatever it is asked for. */
  lemma PromoteFiles(w: World, req: Request, filings: seq<Filing>)
    requires w.disk.WellFormed() && Catalogued(w.disk, filings)
    ensures var (w', r) := Promote(w, req);
      && w'.disk.WellFormed() && Catalogued(w'.disk, filings + FiledBy(w, req))
      && w'.index == w.index + Rows(FiledBy(w, req))
      && (r.Ok? ==> FiledBy(w, req) == [Filing(r.value, true)])
  {
    hide Deposit, IngestPath, IsBlank, Catalogued, FileSystem.Disk.WellFormed, ManifestRoute, RowFor, KeepsFiles;
    assert filings + [] == filings;
    var (d, stored) := IngestPath(w.hash, w.disk, req.source);
    IngestPathKeeps(w.hash, w.disk, req.source);
    CataloguedStays(w.disk, d, filings);
    if !IsBlank(req.kind) && !IsBlank(req.name) && stored.Ok? {
      var m := RowFor(w, req, stored.value);
      var (d1, written) := Deposit(d, ManifestRoute(m.reference), ManifestData(m));
      FileManifest(d, filings, m);
      if written.Ok? {
        FileAlias(w.(disk := d1, index := w.index + [m], clock := w.clock + 1), filings, m);
      }
    }
  }

  // ---------------------------------------------------------------- histories of promotions

  function PromoteAll(w: World, reqs: seq<Request>): World {
    if reqs == [] then w else Promote(PromoteAll(w, reqs[..|reqs| - 1]), reqs[|reqs| - 1]).0
  }

  function FilingsOf(w: World, reqs: seq<Request>): seq<Filing> {
    if reqs == [] then []
    else FilingsOf(w, reqs[..|reqs| - 1]) + FiledBy(PromoteAll(w, reqs[..|reqs| - 1]), reqs[|reqs| - 1])
  }

  const INDEX: Path := ["artifacts", "index.jsonl"]

  /** The version that separation is decided with; a blank one stands for a digest. */
  function StandIn(version: string): string { if IsBlank(version) then "0" else version }

  /** Neither file goes to or through the index file. */
  predicate MissesIndex(req: Request) {
    var r := Reference(req.kind, req.name, StandIn(req.version));
    && INDEX !in Waypoints(ManifestRoute(r).start, ManifestRoute(r).parts)
    && (req.alias.Some? ==>
          INDEX !in Waypoints(AliasRoute(r, req.alias.value).start, AliasRoute(r, req.alias.value).parts))
  }

  /** Neither file touches the store, the cache or the index, and both stay below the artifact root. */
  predicate SeparateRequest(req: Request) {
    var r := Reference(req.kind, req.name, StandIn(req.version));
    IsSeparate(ManifestRoute(r)) && (req.alias.Some? ==> IsSeparate(AliasRoute(r, req.alias.value)))
  }

  /** The same for a row as it is filed. */
  predicate SeparateRow(m: Manifest) {
    IsSeparate(ManifestRoute(m.reference)) && (m.alias.Some? ==> IsSeparate(AliasRoute(m.reference, m.alias.value)))
  }

  /** What is decided with the stand-in holds for every digest. */
  lemma RowIsSeparate(w: World, req: Request, stored: Stored)
    requires '/' !in stored.sha256
    ensures SeparateRow(RowFor(w, req, stored)) <==> SeparateRequest(req)
  {
    hide IsSeparate, IsBlank, Joined, ManifestRoute;
    AnyVersionSeparates(req.kind, req.name, stored.sha256, "0");
  }

  lemma RoutesStart(r: Reference, alias: string)
    ensures ManifestRoute(r).start == ARTIFACTS || ManifestRoute(r).start == []
    ensures AliasRoute(r, alias).start == ARTIFACTS || AliasRoute(r, alias).start == []
  {
  }

  ghost predicate OnlyInCatalog(r: Route) {
    forall v :: v in Waypoints(r.start, r.parts) ==> InCatalog(v)
  }

  /** All that the two files of a promotion go to and through lies in the catalog, away from the object store, the
      cache and the index, exactly when the request is separate; with a blank version, for every digest. */
  lemma SeparateRequestExactlyWhen(req: Request, version: string)
    requires if IsBlank(req.version) then '/' !in version else version == req.version
    ensures var r := Reference(req.kind, req.name, version);
      SeparateRequest(req) <==>
      OnlyInCatalog(ManifestRoute(r)) && (req.alias.Some? ==> OnlyInCatalog(AliasRoute(r, req.alias.value)))
  {
    hide IsSeparate, IsBlank, Joined, ManifestRoute, AliasRoute, Waypoints, InCatalog;
    var r := Reference(req.kind, req.name, version);
    AnyVersionSeparates(req.kind, req.name, if IsBlank(req.version) then version else "0", "0");
    var alias := if req.alias.Some? then req.alias.value else "";
    RoutesStart(r, alias);
    SeparateExactlyWhen(ManifestRoute(r));
    SeparateExactlyWhen(AliasRoute(r, alias));
    AliasAnyVersion(r, Reference(req.kind, req.name, StandIn(req.version)), alias);
  }

  lemma AliasAnyVersion(r: Reference, r': Reference, alias: string)
    requires r'.kind == r.kind && r'.name == r.name
    ensures AliasRoute(r', alias) == AliasRoute(r, alias)
  {
  }

  /** Where the alias file of a row is. */
  function LinkPath(m: Manifest): Option<Path> {
    if m.alias.Some? then Some(AliasPath(m.reference, m.alias.value)) else None
  }

  /** What a promotion that succeeds does to the disk: its two files, whatever stood there, and stored objects. */
  lemma PromoteTouches(w: World, req: Request)
    requires w.disk.WellFormed() && Promote(w, req).1.Ok?
    ensures var (w', r) := Promote(w, req);
      var (d, stored) := IngestPath(w.hash, w.disk, req.source);
      var m := r.value;
      && stored.Ok? && m == RowFor(w, req, stored.value) && w'.index == w.index + [m] && w'.runs == w.runs
      && w'.disk.WellFormed()
      && ManifestPath(m.reference) in w'.disk.names
      && (m.alias.Some? ==>
            && AliasPath(m.reference, m.alias.value) in w'.disk.names
            && w'.disk.At(AliasPath(m.reference, m.alias.value)) == AliasData(w, m.reference.version))
      && (forall p :: p != ManifestPath(m.reference) && Some(p) != LinkPath(m) ==>
            (p in w'.disk.names <==> p in d.names) && (p in d.names ==> w'.disk.At(p) == d.At(p)))
  {
    hide Deposit, IngestPath, IsBlank, FileSystem.Disk.WellFormed, ManifestRoute, AliasRoute, RowFor, Found, End,
         Waypoints;
    var (d, stored) := IngestPath(w.hash, w.disk, req.source);
    IngestPathKeeps(w.hash, w.disk, req.source);
    var m := RowFor(w, req, stored.value);
    var d1 := Deposit(d, ManifestRoute(m.reference), ManifestData(m)).0;
    Deposited(d, ManifestRoute(m.reference), ManifestData(m));
    SameAt(d, d1);
    if m.alias.Some? {
      var d2 := Deposit(d1, AliasRoute(m.reference, m.alias.value), AliasData(w, m.reference.version)).0;
      Deposited(d1, AliasRoute(m.reference, m.alias.value), AliasData(w, m.reference.version));
      SameAt(d1, d2);
    }
  }

  lemma {:induction false} HistoryIsFiled(w: World, reqs: seq<Request>)
    requires w.disk.WellFormed() && w.index == []
    ensures var w' := PromoteAll(w, reqs);
      w'.disk.WellFormed() && Catalogued(w'.disk, FilingsOf(w, reqs)) && w'.index == Rows(FilingsOf(w, reqs))
  {
    hide Promote, FiledBy, FileSystem.Disk.WellFormed, Catalogued;
    if reqs == [] {
      NothingFiled(w.disk);
    } else {
      var before := reqs[..|reqs| - 1];
      HistoryIsFiled(w, before);
      PromoteFiles(PromoteAll(w, before), reqs[|reqs| - 1], FilingsOf(w, before));
    }
  }

  lemma NothingFiled(d: Disk)
    ensures Catalogued(d, [])
  {
    assert SheetsOf([]) == map[];
  }

  /** From any store without artifacts: after any promotions, failed ones included, every reference is described
      by its latest row exactly when no still-latest row's manifest was overwritten. */
  lemma PromotionsAgreeExactlyWhen(w: World, reqs: seq<Request>)
    requires w.disk.WellFormed() && w.index == []
    requires forall i :: 0 <= i < |reqs| ==> MissesIndex(reqs[i])
    ensures var w' := PromoteAll(w, reqs);
      Agrees(w'.disk, w'.index) <==> NoneOverwritten(FilingsOf(w, reqs))
  {
    hide Catalogued, PromoteAll, FilingsOf, FileSystem.Disk.WellFormed, Agrees, NoneOverwritten;
    HistoryIsFiled(w, reqs);
    IndexAgreesExactlyWhen(PromoteAll(w, reqs).disk, FilingsOf(w, reqs));
  }

  /** A fresh promotion is found under its version exactly when its alias goes to another file. */
  lemma PromotedIsDescribed(w: World, req: Request)
    requires w.disk.WellFormed() && MissesIndex(req) && Promote(w, req).1.Ok?
    ensures var (w', r) := Promote(w, req);
      var m := r.value;
      && Found(w'.disk, ManifestRoute(m.reference))
      && ((Describe(w'.disk, m.reference.kind, m.reference.name, m.reference.version) == Ok(m)) <==>
          (m.alias.None? || AliasPath(m.reference, m.alias.value) != ManifestPath(m.reference)))
  {
    hide Promote, FiledBy, FileSystem.Disk.WellFormed, Catalogued, Describe, ManifestPath, AliasPath, MissesIndex;
    var (w', r) := Promote(w, req);
    NothingFiled(w.disk);
    PromoteFiles(w, req, []);
    var f := Filing(r.value, true);
    assert [] + [f] == [f];
    FilingAdds([], f);
    SheetIsRead(w'.disk, [f], 0);
  }

  // ---------------------------------------------------------------- names that cannot run together

  /** One part for the kind, one for the name and the version, with a single '@' between those two at most in
      the version. */
  predicate PlainName(r: Reference) {
    ValidName(r.kind) && ValidName(r.name) && '@' !in r.name && '/' !in r.version
  }

  /** An alias that stays below the name it belongs to. */
  predicate PlainAlias(alias: Option<string>) {
    alias.None? || (!IsAbsolute(alias.value) && ".." !in Components(alias.value))
  }

  /** A request all of whose rows are plain, whatever digest a blank version stands for. */
  predicate PlainRequest(req: Request) {
    PlainName(Reference(req.kind, req.name, StandIn(req.version))) && PlainAlias(req.alias)
  }

  lemma SeparatorFixesPrefix(a: string, b: string, c: char, x: string, y: string)
    requires c !in a && c !in b && a + [c] + x == b + [c] + y
    ensures a == b && x == y
  {
    IndexOfFirst(a, c, x);
    IndexOfFirst(b, c, y);
    assert a == (a + [c] + x)[..|a|] && b == (b + [c] + y)[..|b|];
    assert x == (a + [c] + x)[|a| + 1..] && y == (b + [c] + y)[|b| + 1..];
  }

  /** A plain reference's manifest is one file directly below the kind. */
  lemma PlainManifestPath(r: Reference)
    requires PlainName(r)
    ensures ManifestPath(r) == ARTIFACTS + [r.kind, ManifestName(r)]
    ensures Joined(STORE_ROOT, r.kind) == Route(ARTIFACTS, [r.kind], true)
  {
    hide Components, Split;
    SimpleText(r.kind);
    var file := ManifestName(r);
    assert file == r.name + ["@"[0]] + r.version + ".json";
    assert file[|r.name|] == '@' && |file| > |r.name| + 5;
    assert ValidName(file);
    SimpleText(file);
    assert ManifestRoute(r).parts == [r.kind, file];
    WalkedDown(ARTIFACTS, [r.kind, file]);
  }

  lemma PlainAliasPath(r: Reference, alias: string)
    requires PlainName(r) && PlainAlias(Some(alias))
    ensures AliasPath(r, alias) == ARTIFACTS + [r.kind, r.name] + Components(alias)
  {
    hide Components, Split;
    PlainManifestPath(r);
    SimpleText(r.name);
    assert Joined(Joined(STORE_ROOT, r.kind), r.name).parts == [r.kind, r.name];
    assert AliasRoute(r, alias).parts == [r.kind, r.name] + Components(alias);
    WalkedDown(ARTIFACTS, [r.kind, r.name] + Components(alias));
    assert ARTIFACTS + ([r.kind, r.name] + Components(alias)) == ARTIFACTS + [r.kind, r.name] + Components(alias);
  }

  lemma PlainFilesDiffer(a: Reference, b: Reference, alias: string)
    requires PlainName(a) && PlainName(b)
    ensures ManifestPath(a) == ManifestPath(b) ==> a == b
    ensures PlainAlias(Some(alias)) ==> AliasPath(a, alias) != ManifestPath(b)
  {
    hide Components, ManifestPath, AliasPath, PlainAlias;
    PlainManifestPath(a);
    PlainManifestPath(b);
    var restA, restB := a.version + ".json", b.version + ".json";
    assert ManifestName(a) == a.name + "@" + restA && ManifestName(b) == b.name + "@" + restB;
    if ManifestPath(a) == ManifestPath(b) {
      assert ManifestPath(a)[1] == a.kind && ManifestPath(b)[1] == b.kind;
      assert ManifestPath(a)[2] == ManifestName(a) && ManifestPath(b)[2] == ManifestName(b);
      SeparatorFixesPrefix(a.name, b.name, '@', restA, restB);
      assert a.version == restA[..|a.version|] && b.version == restB[..|b.version|];
    }
    if PlainAlias(Some(alias)) {
      PlainAliasPath(a, alias);
      assert AliasPath(a, alias)[2] == a.name && ManifestPath(b)[2] == ManifestName(b);
      assert ManifestName(b)[|b.name|] == '@';
    }
  }

  lemma PlainRoutes(r: Reference, alias: string)
    requires PlainName(r)
    ensures ManifestRoute(r) == Route(ARTIFACTS, [r.kind, ManifestName(r)], true)
    ensures '@' in ManifestName(r) && |ManifestName(r)| > 2
    ensures ValidName(alias) ==> AliasRoute(r, alias) == Route(ARTIFACTS, [r.kind, r.name, alias], true)
  {
    hide Components, Split;
    PlainManifestPath(r);
    ManifestNameEnds(r);
    var file := r.name + "@" + (r.version + ".json");
    assert file == ManifestName(r) && file[|r.name|] == '@';
    OnePart(r.name, r.version + ".json");
    SimpleText(r.name);
    if ValidName(alias) {
      SimpleText(alias);
    }
  }

  /** A plain promotion whose source could be stored succeeds exactly when nothing stands in the way of its
      two files. */
  lemma PlainPromotionSucceeds(w: World, req: Request)
    requires w.disk.WellFormed() && PlainRequest(req) && (req.alias.None? || ValidName(req.alias.value))
    requires !IsBlank(req.kind) && !IsBlank(req.name) && MissesIndex(req)
    requires var stored := IngestPath(w.hash, w.disk, req.source).1; stored.Ok? && '/' !in stored.value.sha256
    ensures var (d, stored) := IngestPath(w.hash, w.disk, req.source);
      var m := RowFor(w, req, stored.value);
      Promote(w, req).1.Ok? <==>
      d.CanWrite(ManifestPath(m.reference)) && (LinkPath(m).Some? ==> d.CanWrite(LinkPath(m).value))
  {
    hide Deposit, IngestPath, IsBlank, FileSystem.Disk.WellFormed, ManifestRoute, AliasRoute, End, MissesIndex,
         Waypoints,
         FileSystem.Disk.CanWrite;
    var (d, stored) := IngestPath(w.hash, w.disk, req.source);
    IngestPathKeeps(w.hash, w.disk, req.source);
    var m := RowFor(w, req, stored.value);
    var r := m.reference;
    var alias := if m.alias.Some? then m.alias.value else "";
    PlainRoutes(r, alias);
    DepositDown(d, ManifestRoute(r), ManifestData(m));
    Deposited(d, ManifestRoute(r), ManifestData(m));
    var (d1, written) := Deposit(d, ManifestRoute(r), ManifestData(m));
    if written.Ok? && m.alias.Some? {
      DepositDown(d1, AliasRoute(r, alias), AliasData(w, r.version));
      ManifestSparesAlias(d, d1, r, alias);
    }
  }

  /** A plain manifest is never in the way of its own alias. */
  lemma ManifestSparesAlias(d: Disk, d': Disk, r: Reference, alias: string)
    requires PlainName(r) && ValidName(alias) && d.dirs <= d'.dirs
    requires d'.names == d.names[ManifestPath(r) := d.next]
    requires forall q :: q in d'.dirs && q !in d.dirs ==> OnTheWay(ManifestRoute(r).start, ManifestRoute(r).parts, q)
    ensures d'.CanWrite(AliasPath(r, alias)) <==> d.CanWrite(AliasPath(r, alias))
  {
    hide ManifestRoute, AliasRoute, Waypoints;
    PlainRoutes(r, alias);
    WalkedDown(ARTIFACTS, [r.kind, ManifestName(r)]);
    WalkedDown(ARTIFACTS, [r.kind, r.name, alias]);
    var p, file := AliasPath(r, alias), ManifestName(r);
    assert p == ["artifacts", r.kind, r.name, alias] && ManifestPath(r) == ["artifacts", r.kind, file];
    if p in d'.dirs && p !in d.dirs {
      var v :| v in Waypoints(ARTIFACTS, [r.kind, file]) && p <= v;
      assert r.kind != ".." && file != "..";
      WaypointsDown(ARTIFACTS, [r.kind, file], v);
    }
    forall k | 0 <= k < |p| ensures p[..k] in d'.names <==> p[..k] in d.names {
      if k == 3 {
        assert p[..k][2] == r.name && ManifestPath(r)[2] == file;
      }
    }
  }

  lemma PlainAliasFound(d: Disk, r: Reference, alias: string)
    requires d.WellFormed() && PlainName(r) && ValidName(alias) && AliasPath(r, alias) in d.names
    ensures Found(d, AliasRoute(r, alias))
  {
    hide FileSystem.Disk.WellFormed, Split, Components;
    SimpleText(alias);
    PlainManifestPath(r);
    SimpleText(r.name);
    var route := AliasRoute(r, alias);
    assert route == Route(ARTIFACTS, [r.kind, r.name, alias], true);
    var front := route.parts[..2];
    assert front == [r.kind, r.name] && front[1..] == [r.name] && [r.name][1..] == [];
    WalkedDown(ARTIFACTS, route.parts);
    var p := AliasPath(r, alias);
    assert p == ARTIFACTS + [r.kind, r.name, alias];
    ParentsAreDirs(d, ARTIFACTS, p);
    ParentsAreDirs(d, ARTIFACTS + [r.kind], p);
    ParentsAreDirs(d, ARTIFACTS + [r.kind] + [r.name], p);
    assert Passable(d, ARTIFACTS + [r.kind] + [r.name], []);
    assert Passable(d, ARTIFACTS + [r.kind], [r.name]);
    assert Passable(d, ARTIFACTS, front);
  }

  /** A plain alias is read when no version of its text has a manifest. */
  lemma AliasIsRead(d: Disk, r: Reference, alias: string)
    requires d.WellFormed() && PlainName(r) && ValidName(alias) && AliasPath(r, alias) in d.names
    requires d.At(AliasPath(r, alias)).content.AliasDoc? && ManifestPath(r.(version := alias)) !in d.names
    ensures var version := d.At(AliasPath(r, alias)).content.version;
      Describe(d, r.kind, r.name, alias) ==
        if IsBlank(version) then Err(Artifact) else ReadManifest(d, Reference(r.kind, r.name, Trim(version)))
  {
    hide FileSystem.Disk.WellFormed, IsBlank, Trim, ManifestRoute, AliasRoute, ReadManifest, PlainName;
    PlainAliasFound(d, r, alias);
    AliasAnyVersion(r, r.(version := alias), alias);
  }

  ghost predicate AllPlain(filings: seq<Filing>) {
    forall i :: 0 <= i < |filings| ==> PlainName(filings[i].row.reference) && PlainAlias(filings[i].row.alias)
  }

  /** With plain names no manifest is ever overwritten by another artifact's files: every history agrees. */
  lemma PlainNamesAgree(d: Disk, filings: seq<Filing>)
    requires Catalogued(d, filings) && AllPlain(filings)
    ensures Agrees(d, Rows(filings))
  {
    hide Catalogued, AllPlain, NoneOverwritten, Agrees;
    PlainOverwritesNothing(filings);
    IndexAgreesExactlyWhen(d, filings);
  }

  lemma PlainOverwritesNothing(filings: seq<Filing>)
    requires AllPlain(filings)
    ensures NoneOverwritten(filings)
  {
    hide PlainName, PlainAlias, ManifestPath, AliasPath;
    forall i | 0 <= i < |filings| && IsLatest(Rows(filings), i) ensures !Overwritten(filings, i) {
      forall j | i <= j < |filings|
        ensures (i < j ==> ManifestPath(filings[j].row.reference) != ManifestPath(filings[i].row.reference))
             && (filings[j].row.alias.Some? ==>
                   AliasPath(filings[j].row.reference, filings[j].row.alias.value)
                   != ManifestPath(filings[i].row.reference))
      {
        var alias := if filings[j].row.alias.Some? then filings[j].row.alias.value else "";
        PlainFilesDiffer(filings[j].row.reference, filings[i].row.reference, alias);
        assert Rows(filings)[j] == filings[j].row;
      }
    }
  }

  // ---------------------------------------------------------------- names that do run together

  lemma PromotedReference(w: World, req: Request)
    requires Promote(w, req).1.Ok? && !IsBlank(req.version)
    ensures Promote(w, req).1.value.reference == Reference(req.kind, req.name, req.version)
    ensures Promote(w, req).1.value.alias == req.alias
  {
    hide Deposit, IngestPath, IsBlank;
  }

  ghost predicate BothPromoted(w: World, first: Request, second: Request) {
    && w.disk.WellFormed() && w.index == [] && MissesIndex(first) && MissesIndex(second)
    && Promote(w, first).1.Ok? && Promote(Promote(w, first).0, second).1.Ok?
  }

  lemma TwoPromoted(w: World, first: Request, second: Request)
    ensures PromoteAll(w, [first, second]) == Promote(Promote(w, first).0, second).0
  {
    hide Promote;
    assert [first, second][..1] == [first] && [first][..0] == [];
    assert PromoteAll(w, []) == w;
    assert PromoteAll(w, [first]) == Promote(w, first).0;
  }

  /** What two promotions leave behind. */
  lemma TwoFiled(w: World, first: Request, second: Request)
    requires BothPromoted(w, first, second)
    ensures var m := Promote(w, first).1.value;
      var (w', r) := Promote(Promote(w, first).0, second);
      var filings := [Filing(m, true), Filing(r.value, true)];
      Catalogued(w'.disk, filings) && w'.index == Rows(filings)
  {
    hide Promote, FiledBy, FileSystem.Disk.WellFormed, Catalogued, MissesIndex;
    var f, g := Filing(Promote(w, first).1.value, true), Filing(Promote(Promote(w, first).0, second).1.value, true);
    NothingFiled(w.disk);
    PromoteFiles(w, first, []);
    assert [] + [f] == [f];
    PromoteFiles(Promote(w, first).0, second, [f]);
    assert [f] + [g] == [f, g];
    FilingAdds([], f);
    FilingAdds([f], g);
    assert Rows([g]) == [g.row] && Rows([f]) == [f.row];
  }

  lemma FirstIsOverwritten(f: Filing, g: Filing)
    requires g.linked && f.row.reference != g.row.reference
    requires ManifestPath(g.row.reference) == ManifestPath(f.row.reference)
          || LinkPath(g.row) == Some(ManifestPath(f.row.reference))
    ensures !NoneOverwritten([f, g])
  {
    hide ManifestPath, AliasPath;
    assert IsLatest(Rows([f, g]), 0);
    assert [f, g][1].Links() == g.row.alias.Some?;
    assert Overwritten([f, g], 0);
  }

  /** The second of two promotions goes to the manifest of the first one's other reference. */
  lemma SecondTakesOver(w: World, first: Request, second: Request)
    requires BothPromoted(w, first, second) && !IsBlank(first.version) && !IsBlank(second.version)
    requires var a := Reference(first.kind, first.name, first.version);
      var b := Reference(second.kind, second.name, second.version);
      && a != b
      && (|| ManifestPath(b) == ManifestPath(a)
          || (second.alias.Some? && AliasPath(b, second.alias.value) == ManifestPath(a)))
    ensures var w' := PromoteAll(w, [first, second]); !Agrees(w'.disk, w'.index)
  {
    hide Promote, FileSystem.Disk.WellFormed, Catalogued, ManifestPath, AliasPath, IsBlank, Agrees, PromoteAll,
         NoneOverwritten,
         MissesIndex, Rows;
    var (w1, m1) := Promote(w, first);
    var (w2, m2) := Promote(w1, second);
    PromotedReference(w, first);
    PromotedReference(w1, second);
    TwoPromoted(w, first, second);
    TwoFiled(w, first, second);
    FirstIsOverwritten(Filing(m1.value, true), Filing(m2.value, true));
    IndexAgreesExactlyWhen(w2.disk, [Filing(m1.value, true), Filing(m2.value, true)]);
  }

  /** Cutting at the first separator. */
  lemma SplitAt(head: string, rest: string)
    requires '/' !in head
    ensures Split(head + "/" + rest, '/') == [head] + Split(rest, '/')
  {
    hide IndexOf;
    var whole := head + "/" + rest;
    IndexOfFirst(head, '/', rest);
    assert whole == head + ['/'] + rest;
    assert whole[..|head|] == head && whole[|head| + 1..] == rest;
  }

  lemma {:induction false} SplitJoined(a: string, b: string)
    ensures Split(a + "/" + b, '/') == Split(a, '/') + Split(b, '/')
    decreases |a|
  {
    hide IndexOf;
    var i := IndexOf(a, '/');
    if i == |a| {
      assert a[..i] == a;
      SplitAt(a, b);
    } else {
      var head, rest := a[..i], a[i + 1..];
      calc {
        Split(a + "/" + b, '/');
        { assert a + "/" + b == head + "/" + (rest + "/" + b); }
        Split(head + "/" + (rest + "/" + b), '/');
        { SplitAt(head, rest + "/" + b); }
        [head] + Split(rest + "/" + b, '/');
        { SplitJoined(rest, b); }
        [head] + (Split(rest, '/') + Split(b, '/'));
        [head] + Split(rest, '/') + Split(b, '/');
        Split(a, '/') + Split(b, '/');
      }
    }
  }

  /** A '/' only separates parts. */
  lemma PartsJoin(a: string, b: string)
    ensures Components(a + "/" + b) == Components(a) + Components(b)
  {
    SplitJoined(a, b);
    FilterAppends(Split(a, '/'), Split(b, '/'), n => n != "" && n != ".");
  }

  lemma NoParts()
    ensures Components("") == [] && Components(".") == []
  {
    IndexOfAbsent("", '/');
    IndexOfAbsent(".", '/');
    assert Split("", '/') == [""] && Split(".", '/') == ["."];
  }

  lemma ManifestNameSlash(r: Reference, x: string, y: string)
    requires r.version == x + "/" + y
    ensures Components(ManifestName(r)) == Components(r.name + "@" + x) + Components(y + ".json")
    ensures IsAbsolute(ManifestName(r)) <==> IsAbsolute(r.name + "@" + x)
  {
    hide Components;
    assert ManifestName(r) == r.name + "@" + x + "/" + (y + ".json");
    PartsJoin(r.name + "@" + x, y + ".json");
    assert ManifestName(r)[0] == (r.name + "@" + x)[0];
  }

  /** Versions that differ by one more '/' only have one manifest file. */
  lemma TwoSlashesMeet(kind: string, name: string, x: string, y: string)
    ensures ManifestPath(Reference(kind, name, x + "/" + y)) == ManifestPath(Reference(kind, name, x + "/" + ("/" + y)))
  {
    hide Components, Walked;
    ManifestNameSlash(Reference(kind, name, x + "/" + y), x, y);
    ManifestNameSlash(Reference(kind, name, x + "/" + ("/" + y)), x, "/" + y);
    PartsJoin("", y + ".json");
    NoParts();
    assert "/" + y + ".json" == "" + "/" + (y + ".json");
    assert [] + Components(y + ".json") == Components(y + ".json");
  }

  /** A version that climbs out of its own directory meets another version's manifest. */
  lemma ClimbingVersionMeets(r: Reference, x: string)
    requires PlainName(r) && '/' !in x
    ensures ManifestPath(r.(version := x + "/" + ("../" + r.name + "@" + r.version))) == ManifestPath(r)
  {
    hide Components, Walked;
    var file := ManifestName(r);
    var y := "../" + r.name + "@" + r.version;
    var b := r.(version := x + "/" + y);
    PlainManifestPath(r);
    PlainManifestPath(r.(version := x));
    ManifestNameSlash(b, x, y);
    assert y + ".json" == ".." + "/" + file;
    PartsJoin("..", file);
    var down := r.name + "@" + x;
    assert file == r.name + "@" + (r.version + ".json");
    OnePart(r.name, x);
    OnePart(r.name, r.version + ".json");
    DotsAreOnePart();
    assert ManifestRoute(b).parts == [r.kind] + ([down] + ([".."] + [file]));
    assert [r.kind] + ([down] + ([".."] + [file])) == [r.kind, down] + ["..", file];
    WalkedOn(ARTIFACTS, [r.kind, down], ["..", file]);
    assert [r.kind, down] == [r.kind] + [down];
    assert down[|r.name|] == '@' && file[|r.name|] == '@';
    WalkedDown(ARTIFACTS, [r.kind, down]);
    ClimbOnce(ARTIFACTS + [r.kind], down, file);
    assert ARTIFACTS + [r.kind, down] == ARTIFACTS + [r.kind] + [down];
  }

  lemma OnePart(name: string, x: string)
    requires ValidName(name) && '/' !in x
    ensures Components(name + "@" + x) == [name + "@" + x] && !IsAbsolute(name + "@" + x)
  {
    var text := name + "@" + x;
    assert text[|name|] == '@';
    SimpleText(text);
  }

  lemma DotsAreOnePart()
    ensures Components("..") == [".."]
  {
    IndexOfAbsent("..", '/');
    assert Split("..", '/') == [".."];
  }

  lemma ClimbOnce(at: Path, down: string, name: string)
    requires name != ".."
    ensures Walked(at + [down], ["..", name]) == at + [name]
  {
    assert Parent(at + [down]) == at;
    assert ["..", name][1..] == [name];
    assert Walked(at, [name]) == at + [name];
  }

  lemma NameIsOnePart(r: Reference)
    requires PlainName(r)
    ensures Components(ManifestName(r)) == [ManifestName(r)] && !IsAbsolute(ManifestName(r)) && ManifestName(r) != ".."
  {
    hide Components;
    var file := r.name + "@" + (r.version + ".json");
    assert ManifestName(r) == file && file[|r.name|] == '@';
    OnePart(r.name, r.version + ".json");
  }

  /** A kind that is the artifact root itself makes a name into another kind. */
  lemma DotKindMeets(r: Reference, version: string)
    requires PlainName(r)
    ensures AliasPath(Reference(".", r.kind, version), ManifestName(r)) == ManifestPath(r)
  {
    hide Components, Walked, LastPiece, Split, ManifestPath;
    var file := ManifestName(r);
    PlainManifestPath(r);
    NoParts();
    SimpleText(r.kind);
    NameIsOnePart(r);
    assert AliasRoute(Reference(".", r.kind, version), file).parts == [] + [] + [r.kind] + [file] == [r.kind, file];
    WalkedDown(ARTIFACTS, [r.kind, file]);
  }

  /** A '/' in a name lets the alias of a shorter name replace its manifest. */
  lemma SlashInNameMeets(kind: string, a: string, b: string, version: string, other: string)
    requires a != "" && !IsAbsolute(b)
    ensures AliasPath(Reference(kind, a, other), b + "@" + version + ".json")
         == ManifestPath(Reference(kind, a + "/" + b, version))
  {
    hide Components, Walked, Joined;
    var alias := b + "@" + version + ".json";
    assert ManifestName(Reference(kind, a + "/" + b, version)) == a + "/" + alias;
    assert alias == b + ("@" + version + ".json");
    JoinedTwice(Joined(STORE_ROOT, kind), a, alias);
  }

  /** Joining two texts in turn leads where their '/'-joined text leads. */
  lemma JoinedTwice(r: Route, a: string, b: string)
    requires a != "" && !IsAbsolute(b)
    ensures End(Joined(Joined(r, a), b)) == End(Joined(r, a + "/" + b))
  {
    hide Components, Walked, LastPiece;
    PartsJoin(a, b);
    assert (a + "/" + b)[0] == a[0];
    var base := if IsAbsolute(a) then [] else r.parts;
    assert base + (Components(a) + Components(b)) == base + Components(a) + Components(b);
  }

  ghost predicate Disagree(w: World, first: Request, second: Request) {
    var w' := PromoteAll(w, [first, second]); !Agrees(w'.disk, w'.index)
  }

  lemma TwoSlashesDisagree(w: World, first: Request, second: Request, x: string, y: string)
    requires BothPromoted(w, first, second) && !IsBlank(first.version) && !IsBlank(second.version)
    requires second.kind == first.kind && second.name == first.name
    requires first.version == x + "/" + y && second.version == x + "/" + ("/" + y)
    ensures Disagree(w, first, second)
  {
    hide BothPromoted, PromoteAll, Agrees, IsBlank, ManifestPath;
    TwoSlashesMeet(first.kind, first.name, x, y);
    assert |first.version| != |second.version|;
    SecondTakesOver(w, first, second);
  }

  lemma ClimbingVersionDisagrees(w: World, first: Request, second: Request, x: string)
    requires BothPromoted(w, first, second) && !IsBlank(first.version) && !IsBlank(second.version)
    requires second.kind == first.kind && second.name == first.name && '/' !in x
    requires PlainName(Reference(first.kind, first.name, first.version))
    requires second.version == x + "/" + ("../" + first.name + "@" + first.version)
    ensures Disagree(w, first, second)
  {
    hide BothPromoted, PromoteAll, Agrees, IsBlank, ManifestPath;
    ClimbingVersionMeets(Reference(first.kind, first.name, first.version), x);
    assert |first.version| < |second.version|;
    SecondTakesOver(w, first, second);
  }

  lemma DotKindDisagrees(w: World, first: Request, second: Request)
    requires BothPromoted(w, first, second) && !IsBlank(first.version) && !IsBlank(second.version)
    requires PlainName(Reference(first.kind, first.name, first.version))
    requires second.kind == "." && second.name == first.kind
    requires second.alias == Some(ManifestName(Reference(first.kind, first.name, first.version)))
    ensures Disagree(w, first, second)
  {
    hide BothPromoted, PromoteAll, Agrees, IsBlank, ManifestPath, AliasPath;
    DotKindMeets(Reference(first.kind, first.name, first.version), second.version);
    SecondTakesOver(w, first, second);
  }

  lemma SlashInNameDisagrees(w: World, first: Request, second: Request, a: string, b: string)
    requires BothPromoted(w, first, second) && !IsBlank(first.version) && !IsBlank(second.version)
    requires a != "" && !IsAbsolute(b) && second.kind == first.kind
    requires first.name == a + "/" + b && second.name == a
    requires second.alias == Some(b + "@" + first.version + ".json")
    ensures Disagree(w, first, second)
  {
    hide BothPromoted, PromoteAll, Agrees, IsBlank, ManifestPath, AliasPath;
    SlashInNameMeets(first.kind, a, b, first.version, second.version);
    assert |first.name| > |second.name|;
    SecondTakesOver(w, first, second);
  }

  // ---------------------------------------------------------------- textual references

  function FormatReference(r: Reference): string {
    "artifact:" + r.kind + "/" + r.name + "@" + r.version
  }

  function WithoutScheme(text: string): string {
    if "artifact:" <= text then text[9..] else text
  }

  /** `parse_artifact_path_reference`, with the suffix below the artifact. */
  function ParseReference(text: string): Result<(Reference, Option<string>)> {
    ParseBody(WithoutScheme(text))
  }

  function ParseBody(body: string): Result<(Reference, Option<string>)> {
    var at := IndexOf(body, '@');
    ParseParts(body[..at], if at < |body| then body[at + 1..] else "1")
  }

  function ParseParts(left: string, tail: string): Result<(Reference, Option<string>)> {
    if IsBlank(left) then Err(Validation)
    else
      var cut := IndexOf(tail, '/');
      var version := tail[..cut];
      if cut < |tail| && (IsBlank(version) || IsBlank(tail[cut + 1..])) then Err(Validation)
      else if IsBlank(version) then Err(Validation)
      else
        var slash := IndexOf(left, '/');
        var kind := left[..slash];
        if IsBlank(kind) || slash == |left| || IsBlank(left[slash + 1..]) then Err(Validation)
        else Ok((Reference(kind, left[slash + 1..], version), if cut < |tail| then Some(tail[cut + 1..]) else None))
  }

  predicate Referable(r: Reference) {
    && '/' !in r.kind && '@' !in r.kind && '@' !in r.name && '/' !in r.version
    && !IsBlank(r.kind) && !IsBlank(r.name) && !IsBlank(r.version)
  }

  lemma SchemeGoes(body: string)
    ensures WithoutScheme("artifact:" + body) == body
  {
    assert ("artifact:" + body)[..9] == "artifact:";
    assert ("artifact:" + body)[9..] == body;
  }

  lemma ReadsBackIf(r: Reference)
    requires Referable(r)
    ensures ParseReference(FormatReference(r)) == Ok((r, None))
  {
    hide IsBlank, IndexOf, ParseParts;
    var left := r.kind + "/" + r.name;
    var body := left + "@" + r.version;
    SchemeGoes(body);
    assert FormatReference(r) == "artifact:" + body;
    IndexOfFirst(left, '@', r.version);
    assert body[..|left|] == left && body[|left| + 1..] == r.version;
    PartsReadBack(r);
  }

  lemma PartsReadBack(r: Reference)
    requires Referable(r)
    ensures ParseParts(r.kind + "/" + r.name, r.version) == Ok((r, None))
  {
    hide IsBlank, IndexOf;
    var left := r.kind + "/" + r.name;
    IndexOfAbsent(r.version, '/');
    IndexOfFirst(r.kind, '/', r.name);
    assert left[..|r.kind|] == r.kind && left[|r.kind| + 1..] == r.name;
    assert left == r.kind + ("/" + r.name);
    BlankParts(r.kind, "/" + r.name);
    assert r.version[..|r.version|] == r.version;
  }

  /** A suffix below the artifact reads back as well. */
  lemma SuffixReadsBack(r: Reference, suffix: string)
    requires Referable(r) && !IsBlank(suffix)
    ensures ParseReference("artifact:" + (r.kind + "/" + r.name + "@" + (r.version + "/" + suffix))) ==
            Ok((r, Some(suffix)))
  {
    hide IsBlank, IndexOf, ParseParts;
    var left, tail := r.kind + "/" + r.name, r.version + "/" + suffix;
    SchemeGoes(left + "@" + tail);
    IndexOfFirst(left, '@', tail);
    assert (left + "@" + tail)[..|left|] == left && (left + "@" + tail)[|left| + 1..] == tail;
    SuffixPartsReadBack(r, suffix);
  }

  lemma SuffixPartsReadBack(r: Reference, suffix: string)
    requires Referable(r) && !IsBlank(suffix)
    ensures ParseParts(r.kind + "/" + r.name, r.version + "/" + suffix) == Ok((r, Some(suffix)))
  {
    hide IsBlank, IndexOf;
    var left, tail := r.kind + "/" + r.name, r.version + "/" + suffix;
    IndexOfFirst(r.version, '/', suffix);
    IndexOfFirst(r.kind, '/', r.name);
    assert left[..|r.kind|] == r.kind && left[|r.kind| + 1..] == r.name;
    assert tail[..|r.version|] == r.version && tail[|r.version| + 1..] == suffix;
    assert left == r.kind + ("/" + r.name);
    BlankParts(r.kind, "/" + r.name);
  }

  /** Without a version the reference is to version 1. */
  lemma NoVersionIsFirst(kind: string, name: string)
    requires Referable(Reference(kind, name, "1"))
    ensures ParseReference("artifact:" + (kind + "/" + name)) == Ok((Reference(kind, name, "1"), None))
  {
    hide IsBlank, IndexOf, ParseParts;
    var left := kind + "/" + name;
    SchemeGoes(left);
    IndexOfAbsent(left, '@');
    assert left[..|left|] == left;
    PartsReadBack(Reference(kind, name, "1"));
  }

  lemma ReadsBackOnlyIf(text: string, r: Reference)
    requires ParseReference(text) == Ok((r, None))
    ensures Referable(r)
  {
    var body := WithoutScheme(text);
    var left := body[..IndexOf(body, '@')];
    var slash := IndexOf(left, '/');
    assert forall i :: 0 <= i < |r.kind| ==> r.kind[i] == left[i];
    assert forall i :: 0 <= i < |r.name| ==> r.name[i] == left[slash + 1 + i];
  }

  /** A formatted reference reads back as itself exactly when its parts avoid the separators. */
  lemma ReferenceReadsBack(r: Reference)
    ensures ParseReference(FormatReference(r)) == Ok((r, None)) <==> Referable(r)
  {
    hide ParseReference, FormatReference;
    if Referable(r) {
      ReadsBackIf(r);
    }
    if ParseReference(FormatReference(r)) == Ok((r, None)) {
      ReadsBackOnlyIf(FormatReference(r), r);
    }
  }

  lemma BlankParts(a: string, b: string)
    ensures IsBlank(a + b) ==> IsBlank(a)
  {
    if IsBlank(a + b) {
      forall i | 0 <= i < |a| ensures IsWhitespace(a[i]) {
        assert (a + b)[i] == a[i];
      }
    }
  }
}
