/** `ArtifactStore::ingest_path`: files become blobs, directories become trees of blobs. */
module Ingest {
  import opened Wrappers
  import opened Order
  import opened FileSystem
  import opened Lab

  // ---------------------------------------------------------------- what ingesting does to the disk

  /** `ingest_file`: copy to the blob path unless something is already there. */
  function IngestFile(h: Hash, d: Disk, source: Path): (Disk, Result<string>) {
    if source !in d.names || d.names[source] !in d.inodes then (d, Err(Io))
    else
      var data := d.At(source);
      var sha := h.file(data.content);
      if |sha| <= 2 then (d, Err(Artifact))
      else if d.Exists(BlobPath(sha)) then (d, Ok(sha))
      else if !d.CanWrite(BlobPath(sha)) then (d, Err(Io))
      else (Write(d, BlobPath(sha), data), Ok(sha))
  }

  /** The directory loop with `entries` already pushed and `rels` still to visit. */
  function IngestFrom(h: Hash, d: Disk, dir: Path, entries: seq<TreeEntry>, rels: seq<Path>)
    : (Disk, Result<seq<TreeEntry>>)
    decreases |rels|
  {
    if rels == [] then (d, Ok(entries))
    else
      var source := dir + rels[0];
      var (d1, r) := IngestFile(h, d, source);
      if r.Err? then (d1, Err(r.error))
      else if source !in d1.names || d1.names[source] !in d1.inodes then (d1, Err(Io))
      else
        var entry := TreeEntry(EntryPath(rels[0]), r.value, d1.At(source).mode);
        IngestFrom(h, d1, dir, entries + [entry], rels[1..])
  }

  function RelFiles(d: Disk, dir: Path): set<Path> {
    set p | p in d.names && dir < p :: p[|dir|..]
  }

  /** `WalkDir::sort_by_file_name`, files only. */
  function Walk(d: Disk, dir: Path): seq<Path> {
    PathLeIsTotal();
    Ascending(RelFiles(d, dir), PathLe)
  }

  predicate EntryLe(a: TreeEntry, b: TreeEntry) { StrLe(a.path, b.path) }

  function SortEntries(entries: seq<TreeEntry>): seq<TreeEntry> {
    StableSort(entries, EntryLe)
  }

  function StoreTree(h: Hash, d: Disk, entries: seq<TreeEntry>): (Disk, Result<string>) {
    var sha := h.tree(entries);
    if d.Exists(TreePath(sha)) then (d, Ok(sha))
    else if !d.CanWrite(TreePath(sha)) then (d, Err(Io))
    else (Write(d, TreePath(sha), Data(TreeDoc(entries), FILE_MODE)), Ok(sha))
  }

  function IngestDirectory(h: Hash, d: Disk, dir: Path): (Disk, Result<string>) {
    var (d1, r) := IngestFrom(h, d, dir, [], Walk(d, dir));
    if r.Err? then (d1, Err(r.error)) else StoreTree(h, d1, SortEntries(r.value))
  }

  function IngestPath(h: Hash, d: Disk, source: Path): (Disk, Result<Stored>) {
    if d.IsFile(source) then
      var (d1, r) := IngestFile(h, d, source);
      if r.Err? then (d1, Err(r.error)) else (d1, Ok(Stored(r.value, FileStorage, BlobPath(r.value))))
    else if source in d.dirs then
      var (d1, r) := IngestDirectory(h, d, source);
      if r.Err? then (d1, Err(r.error)) else (d1, Ok(Stored(r.value, DirectoryStorage, TreePath(r.value))))
    else (d, Err(Artifact))
  }

  // ---------------------------------------------------------------- the store's standing invariant

  /** Every file at a blob or tree path holds the content its name digests. */
  ghost predicate Honest(h: Hash, d: Disk) {
    && (forall sha {:trigger BlobPath(sha)} :: BlobPath(sha) in d.names ==>
          h.file(d.At(BlobPath(sha)).content) == sha)
    && (forall sha {:trigger TreePath(sha)} :: TreePath(sha) in d.names ==>
          d.At(TreePath(sha)).content.TreeDoc? && h.tree(d.At(TreePath(sha)).content.entries) == sha)
    && (forall sha {:trigger BlobPath(sha)} :: BlobPath(sha) !in d.dirs)
    && (forall sha {:trigger TreePath(sha)} :: TreePath(sha) !in d.dirs)
  }

  ghost predicate StoreOk(h: Hash, d: Disk) {
    Lawful(h) && d.WellFormed() && Honest(h, d)
  }

  /** New objects appear, each under a fresh inode; no other path or inode changes. */
  ghost predicate Grows(d: Disk, d': Disk) {
    && d.next <= d'.next
    && d.dirs <= d'.dirs
    && (forall q :: q in d'.dirs && q !in d.dirs ==> q <= OBJECTS || OBJECTS <= q)
    && (forall p :: p in d.names ==> p in d'.names && d'.names[p] == d.names[p])
    && (forall i :: i in d.inodes ==> i in d'.inodes && d'.inodes[i] == d.inodes[i])
    && (forall p :: p in d'.names && p !in d.names ==> OBJECTS < p && d.next <= d'.names[p])
  }

  lemma LayoutIsSeparate(a: string, b: string)
    ensures BlobPath(a) == BlobPath(b) ==> a == b
    ensures TreePath(a) == TreePath(b) ==> a == b
    ensures BlobPath(a) != TreePath(b)
    ensures OBJECTS < BlobPath(a) && OBJECTS < TreePath(a)
    ensures BlobPath(a) !in Ancestors(BlobPath(b)) && BlobPath(a) !in Ancestors(TreePath(b))
    ensures TreePath(a) !in Ancestors(BlobPath(b)) && TreePath(a) !in Ancestors(TreePath(b))
  {
    assert BlobPath(a)[4] == a && BlobPath(b)[4] == b;
    assert TreePath(a)[3][..|a|] == a && TreePath(b)[3][..|b|] == b;
    assert TreePath(a)[2][0] == 't' && BlobPath(b)[2][0] == 'b';
    assert |BlobPath(a)| == |BlobPath(b)| == 5 && |TreePath(a)| == |TreePath(b)| == 4;
    assert OBJECTS == BlobPath(a)[..2] == TreePath(a)[..2];
    AncestorMember(TreePath(a), BlobPath(b));
  }

  lemma NewObjectGrows(d: Disk, p: Path, data: Data)
    requires d.WellFormed() && d.CanWrite(p) && p !in d.names && OBJECTS < p
    ensures Write(d, p, data).WellFormed() && Grows(d, Write(d, p, data))
    ensures Write(d, p, data).At(p) == data
    ensures forall q :: q in d.names ==> Write(d, p, data).At(q) == d.At(q)
  {
    WriteKeepsShape(d, p, data);
    forall q | q in Write(d, p, data).dirs && q !in d.dirs ensures q <= OBJECTS || OBJECTS <= q {
      AncestorMember(q, p);
      PrefixesCompare(OBJECTS, q, p);
    }
  }

  lemma NewBlobIsHonest(h: Hash, d: Disk, data: Data)
    requires StoreOk(h, d) && d.CanWrite(BlobPath(h.file(data.content)))
    requires BlobPath(h.file(data.content)) !in d.names
    ensures StoreOk(h, Write(d, BlobPath(h.file(data.content)), data))
    ensures Grows(d, Write(d, BlobPath(h.file(data.content)), data))
  {
    var sha := h.file(data.content);
    LayoutIsSeparate(sha, sha);
    NewObjectGrows(d, BlobPath(sha), data);
    var d' := Write(d, BlobPath(sha), data);
    forall x ensures BlobPath(x) in d'.names ==> h.file(d'.At(BlobPath(x)).content) == x { LayoutIsSeparate(x, sha); }
    forall x ensures BlobPath(x) !in d'.dirs { LayoutIsSeparate(x, sha); }
    forall x ensures TreePath(x) !in d'.dirs { LayoutIsSeparate(x, sha); }
    forall x | TreePath(x) in d'.names
      ensures d'.At(TreePath(x)).content.TreeDoc? && h.tree(d'.At(TreePath(x)).content.entries) == x
    {
      LayoutIsSeparate(sha, x);
      assert d'.At(TreePath(x)) == d.At(TreePath(x));
    }
  }

  lemma NewTreeIsHonest(h: Hash, d: Disk, entries: seq<TreeEntry>)
    requires StoreOk(h, d) && d.CanWrite(TreePath(h.tree(entries)))
    requires TreePath(h.tree(entries)) !in d.names
    ensures StoreOk(h, Write(d, TreePath(h.tree(entries)), Data(TreeDoc(entries), FILE_MODE)))
    ensures Grows(d, Write(d, TreePath(h.tree(entries)), Data(TreeDoc(entries), FILE_MODE)))
  {
    var sha := h.tree(entries);
    var data := Data(TreeDoc(entries), FILE_MODE);
    LayoutIsSeparate(sha, sha);
    NewObjectGrows(d, TreePath(sha), data);
    var d' := Write(d, TreePath(sha), data);
    forall x | BlobPath(x) in d'.names ensures h.file(d'.At(BlobPath(x)).content) == x {
      LayoutIsSeparate(x, sha);
      assert d'.At(BlobPath(x)) == d.At(BlobPath(x));
    }
    forall x ensures BlobPath(x) !in d'.dirs { LayoutIsSeparate(x, sha); }
    forall x ensures TreePath(x) !in d'.dirs { LayoutIsSeparate(x, sha); }
    forall x | TreePath(x) in d'.names
      ensures d'.At(TreePath(x)).content.TreeDoc? && h.tree(d'.At(TreePath(x)).content.entries) == x
    {
      LayoutIsSeparate(x, sha);
    }
  }

  lemma IngestFileStores(h: Hash, d: Disk, source: Path)
    requires StoreOk(h, d)
    ensures var (d', r) := IngestFile(h, d, source);
      && StoreOk(h, d') && Grows(d, d')
      && (r.Ok? ==>
            && source in d.names
            && r.value == h.file(d.At(source).content)
            && BlobPath(r.value) in d'.names
            && d'.At(BlobPath(r.value)).content == d.At(source).content)
  {
    if source in d.names {
      var data := d.At(source);
      var blob := BlobPath(h.file(data.content));
      if !d.Exists(blob) && d.CanWrite(blob) {
        NewBlobIsHonest(h, d, data);
      }
    }
  }

  lemma StoreTreeStores(h: Hash, d: Disk, entries: seq<TreeEntry>)
    requires StoreOk(h, d)
    ensures var (d', r) := StoreTree(h, d, entries);
      && StoreOk(h, d') && Grows(d, d')
      && (r.Ok? ==>
            && r.value == h.tree(entries)
            && TreePath(r.value) in d'.names
            && d'.At(TreePath(r.value)).content == TreeDoc(entries))
  {
    var path := TreePath(h.tree(entries));
    if !d.Exists(path) && d.CanWrite(path) {
      NewTreeIsHonest(h, d, entries);
    }
  }

  lemma GrowsChains(d0: Disk, d1: Disk, d2: Disk)
    requires Grows(d0, d1) && Grows(d1, d2)
    ensures Grows(d0, d2)
  {
  }

  // ---------------------------------------------------------------- the tree of a directory

  /** The relative files below `dir` with their data. */
  function Files(d: Disk, dir: Path): map<Path, Data> {
    map rel | rel in RelFiles(d, dir) && dir + rel in d.names && d.names[dir + rel] in d.inodes
      :: d.At(dir + rel)
  }

  function EntryOf(h: Hash, rel: Path, data: Data): TreeEntry {
    TreeEntry(EntryPath(rel), h.file(data.content), data.mode)
  }

  function EntriesOf(h: Hash, files: map<Path, Data>, rels: seq<Path>): (es: seq<TreeEntry>)
    requires forall rel :: rel in rels ==> rel in files
    ensures |es| == |rels|
    ensures forall i :: 0 <= i < |rels| ==> es[i] == EntryOf(h, rels[i], files[rels[i]])
  {
    seq(|rels|, i requires 0 <= i < |rels| => EntryOf(h, rels[i], files[rels[i]]))
  }

  /** The entries of the tree a directory with these files is ingested as. */
  function TreeOf(h: Hash, files: map<Path, Data>): seq<TreeEntry> {
    PathLeIsTotal();
    SortEntries(EntriesOf(h, files, Ascending(files.Keys, PathLe)))
  }

  lemma RelFilesMember(d: Disk, dir: Path, rel: Path)
    ensures rel in RelFiles(d, dir) <==> rel != [] && dir + rel in d.names
  {
    if rel != [] && dir + rel in d.names {
      assert dir < dir + rel && (dir + rel)[|dir|..] == rel;
    }
    if rel in RelFiles(d, dir) {
      var p :| p in d.names && dir < p && p[|dir|..] == rel;
      assert p == dir + rel;
    }
  }

  lemma FilesMember(d: Disk, dir: Path, rel: Path)
    requires d.WellFormed()
    ensures rel in Files(d, dir) <==> rel != [] && dir + rel in d.names
    ensures rel in Files(d, dir) ==> Files(d, dir)[rel] == d.At(dir + rel)
  {
    RelFilesMember(d, dir, rel);
  }

  lemma FilesKeys(d: Disk, dir: Path)
    requires d.WellFormed()
    ensures Files(d, dir).Keys == RelFiles(d, dir)
  {
    forall rel ensures rel in Files(d, dir).Keys <==> rel in RelFiles(d, dir) {
      FilesMember(d, dir, rel);
      RelFilesMember(d, dir, rel);
    }
  }

  ghost predicate BlobsLive(d: Disk, entries: seq<TreeEntry>) {
    forall i :: 0 <= i < |entries| ==> BlobPath(entries[i].sha256) in d.names
  }

  lemma {:induction false} IngestFromStores(h: Hash, d: Disk, dir: Path, entries: seq<TreeEntry>, rels: seq<Path>)
    requires StoreOk(h, d) && BlobsLive(d, entries)
    requires forall rel :: rel in rels ==> rel in Files(d, dir)
    ensures var (d', r) := IngestFrom(h, d, dir, entries, rels);
      && StoreOk(h, d') && Grows(d, d')
      && (r.Ok? ==> r.value == entries + EntriesOf(h, Files(d, dir), rels) && BlobsLive(d', r.value))
    decreases |rels|
  {
    hide RelFiles, Honest, EntryPath;
    if rels == [] {
      assert entries + EntriesOf(h, Files(d, dir), rels) == entries;
    } else {
      var rel := rels[0];
      var (d1, r1) := IngestFile(h, d, dir + rel);
      IngestFileStores(h, d, dir + rel);
      assert rel in rels;
      FilesMember(d, dir, rel);
      if r1.Ok? {
        var entry := TreeEntry(EntryPath(rel), r1.value, d1.At(dir + rel).mode);
        assert entry == EntryOf(h, rel, Files(d, dir)[rel]);
        StillListed(d, d1, dir, rels[1..]);
        IngestFromStores(h, d1, dir, entries + [entry], rels[1..]);
        GrowsChains(d, d1, IngestFrom(h, d1, dir, entries + [entry], rels[1..]).0);
        EntriesStep(h, d, d1, dir, rels, entries, entry);
      }
    }
  }

  lemma StillListed(d: Disk, d1: Disk, dir: Path, rels: seq<Path>)
    requires d.WellFormed() && d1.WellFormed() && Grows(d, d1)
    requires forall rel :: rel in rels ==> rel in Files(d, dir)
    ensures forall rel :: rel in rels ==> rel in Files(d1, dir) && Files(d1, dir)[rel] == Files(d, dir)[rel]
  {
    forall rel | rel in rels ensures rel in Files(d1, dir) && Files(d1, dir)[rel] == Files(d, dir)[rel] {
      FilesMember(d, dir, rel);
      FilesMember(d1, dir, rel);
    }
  }

  lemma EntriesStep(h: Hash, d: Disk, d1: Disk, dir: Path, rels: seq<Path>, entries: seq<TreeEntry>, entry: TreeEntry)
    requires rels != [] && forall rel :: rel in rels ==> rel in Files(d, dir)
    requires forall rel :: rel in rels[1..] ==> rel in Files(d1, dir) && Files(d1, dir)[rel] == Files(d, dir)[rel]
    requires entry == EntryOf(h, rels[0], Files(d, dir)[rels[0]])
    ensures entries + [entry] + EntriesOf(h, Files(d1, dir), rels[1..]) == entries + EntriesOf(h, Files(d, dir), rels)
  {
    hide Files, EntryOf;
    var all := EntriesOf(h, Files(d, dir), rels);
    assert EntriesOf(h, Files(d1, dir), rels[1..]) == all[1..];
    assert all == [all[0]] + all[1..];
  }

  lemma EntryLeIsPreorder()
    ensures IsPreorder(EntryLe)
  {
    forall a, b ensures EntryLe(a, b) || EntryLe(b, a) { StrLeCompares(a.path, b.path); }
    forall a, b, c | EntryLe(a, b) && EntryLe(b, c) ensures EntryLe(a, c) {
      StrLeChains(a.path, b.path, c.path);
    }
  }

  lemma SortKeepsBlobs(d: Disk, entries: seq<TreeEntry>)
    requires BlobsLive(d, entries)
    ensures BlobsLive(d, SortEntries(entries))
  {
    EntryLeIsPreorder();
    StableSortSorts(entries, EntryLe);
    var s := SortEntries(entries);
    forall i | 0 <= i < |s| ensures BlobPath(s[i].sha256) in d.names {
      assert s[i] in s;
      assert s[i] in entries;
    }
  }

  /** Ingesting a directory stores exactly the tree of its files, with every blob present. */
  lemma IngestDirectoryStores(h: Hash, d: Disk, dir: Path)
    requires StoreOk(h, d)
    ensures var (d', r) := IngestDirectory(h, d, dir);
      && StoreOk(h, d') && Grows(d, d')
      && (r.Ok? ==>
            && r.value == h.tree(TreeOf(h, Files(d, dir)))
            && TreePath(r.value) in d'.names
            && d'.At(TreePath(r.value)).content == TreeDoc(TreeOf(h, Files(d, dir)))
            && BlobsLive(d', TreeOf(h, Files(d, dir))))
  {
    FilesKeys(d, dir);
    var rels := Walk(d, dir);
    forall rel | rel in rels ensures rel in Files(d, dir) {
      assert rel in RelFiles(d, dir);
    }
    IngestFromStores(h, d, dir, [], rels);
    var (d1, r1) := IngestFrom(h, d, dir, [], rels);
    if r1.Ok? {
      assert [] + EntriesOf(h, Files(d, dir), rels) == EntriesOf(h, Files(d, dir), rels);
      var sorted := SortEntries(r1.value);
      SortKeepsBlobs(d1, r1.value);
      StoreTreeStores(h, d1, sorted);
      GrowsChains(d, d1, StoreTree(h, d1, sorted).0);
    }
  }

  // ---------------------------------------------------------------- independence of the walk order

  lemma EntriesFollowKeys(h: Hash, files: map<Path, Data>, xs: seq<Path>, ys: seq<Path>)
    requires forall rel :: rel in xs ==> rel in files && rel in ys
    requires forall rel :: rel in ys ==> rel in files
    ensures forall e :: e in EntriesOf(h, files, xs) ==> e in EntriesOf(h, files, ys)
  {
    forall e | e in EntriesOf(h, files, xs) ensures e in EntriesOf(h, files, ys) {
      var i :| 0 <= i < |xs| && EntriesOf(h, files, xs)[i] == e;
      assert xs[i] in xs;
      var j :| 0 <= j < |ys| && ys[j] == xs[i];
      assert EntriesOf(h, files, ys)[j] == e;
    }
  }

  /** Whatever order the files are visited in, the stored entries, hence the digest, are those
      of the directory's file map. */
  lemma TreeIgnoresWalkOrder(h: Hash, files: map<Path, Data>, rels: seq<Path>)
    requires Distinct(rels) && forall rel :: rel in rels <==> rel in files
    requires forall a, b :: a in files && b in files && EntryPath(a) == EntryPath(b) ==> a == b
    ensures SortEntries(EntriesOf(h, files, rels)) == TreeOf(h, files)
    ensures h.tree(SortEntries(EntriesOf(h, files, rels))) == h.tree(TreeOf(h, files))
  {
    PathLeIsTotal();
    EntryLeIsPreorder();
    var walk := Ascending(files.Keys, PathLe);
    var xs, ys := EntriesOf(h, files, rels), EntriesOf(h, files, walk);
    hide EntryLe, EntriesOf, EntryPath;
    StableSortSorts(xs, EntryLe);
    StableSortSorts(ys, EntryLe);
    EntriesAreDistinct(h, files, rels);
    EntriesAreDistinct(h, files, walk);
    EntriesFollowKeys(h, files, rels, walk);
    EntriesFollowKeys(h, files, walk, rels);
    forall a, b | a in SortEntries(xs) && b in SortEntries(xs) && EntryLe(a, b) && EntryLe(b, a)
      ensures a == b
    {
      StrLeCompares(a.path, b.path);
    }
    SortedIsUnique(SortEntries(xs), SortEntries(ys), EntryLe);
  }

  /** Files with different entry paths give entries that differ, before and after sorting. */
  lemma EntriesAreDistinct(h: Hash, files: map<Path, Data>, rels: seq<Path>)
    requires Distinct(rels) && forall rel :: rel in rels ==> rel in files
    requires forall a, b :: a in files && b in files && EntryPath(a) == EntryPath(b) ==> a == b
    ensures var es := EntriesOf(h, files, rels);
      && Distinct(SortEntries(es))
      && forall a, b :: a in es && b in es && a.path == b.path ==> a == b
  {
    hide EntryPath;
    var es := EntriesOf(h, files, rels);
    forall i, j | 0 <= i < |es| && 0 <= j < |es| && es[i].path == es[j].path ensures i == j {
      assert rels[i] in rels && rels[j] in rels;
    }
    EntryLeIsPreorder();
    StableSortSorts(es, EntryLe);
    SortStaysDistinct(es, SortEntries(es));
  }

  lemma SortStaysDistinct<T>(xs: seq<T>, s: seq<T>)
    requires Distinct(xs) && multiset(s) == multiset(xs)
    ensures Distinct(s)
  {
    forall i, j | 0 <= i < j < |s| ensures s[i] != s[j] {
      DistinctCount(xs, s[i]);
      RepeatCounts(s, i, j);
    }
  }

  lemma {:induction false} DistinctCount<T>(xs: seq<T>, x: T)
    requires Distinct(xs)
    ensures multiset(xs)[x] <= 1
  {
    if xs != [] {
      assert xs == [xs[0]] + xs[1..];
      DistinctCount(xs[1..], x);
      assert x == xs[0] ==> x !in xs[1..];
    }
  }

  lemma RepeatCounts<T>(s: seq<T>, i: nat, j: nat)
    requires i < j < |s|
    ensures s[i] == s[j] ==> multiset(s)[s[i]] >= 2
  {
    assert s == s[..j] + [s[j]] + s[j + 1..];
    assert s[i] in s[..j];
  }

  // ---------------------------------------------------------------- the operations

  method StoreFile(lab: Project, source: Path) returns (r: Result<string>)
    modifies lab
    ensures lab.View() == old(lab.View()).(disk := IngestFile(lab.hash, old(lab.OnDisk()), source).0)
    ensures r == IngestFile(lab.hash, old(lab.OnDisk()), source).1
  {
    if source !in lab.names || lab.names[source] !in lab.inodes {
      return Err(Io);
    }
    var data := lab.inodes[lab.names[source]];
    var sha := lab.hash.file(data.content);
    if |sha| <= 2 {
      return Err(Artifact);
    }
    var blob := BlobPath(sha);
    if !(blob in lab.names || blob in lab.dirs) {
      if !(blob != [] && blob !in lab.dirs && forall k :: 0 <= k < |blob| ==> blob[..k] !in lab.names) {
        return Err(Io);
      }
      lab.WriteFile(blob, data);
    }
    r := Ok(sha);
  }

  method StoreDirectory(lab: Project, dir: Path) returns (r: Result<string>)
    modifies lab
    ensures lab.View() == old(lab.View()).(disk := IngestDirectory(lab.hash, old(lab.OnDisk()), dir).0)
    ensures r == IngestDirectory(lab.hash, old(lab.OnDisk()), dir).1
  {
    hide IngestFile, EntryPath, BlobPath, StableSort, Ascending;
    PathLeIsTotal();
    var walk := Ascending(set p | p in lab.names && dir < p :: p[|dir|..], PathLe);
    assert walk == Walk(lab.OnDisk(), dir);
    var entries: seq<TreeEntry> := [];
    var i := 0;
    while i < |walk|
      invariant 0 <= i <= |walk|
      invariant lab.View() == old(lab.View()).(disk := lab.OnDisk())
      invariant IngestFrom(lab.hash, lab.OnDisk(), dir, entries, walk[i..])
             == IngestFrom(lab.hash, old(lab.OnDisk()), dir, [], walk)
    {
      var source := dir + walk[i];
      var stored := StoreFile(lab, source);
      if stored.Err? {
        return Err(stored.error);
      }
      if source !in lab.names || lab.names[source] !in lab.inodes {
        return Err(Io);
      }
      var mode := lab.inodes[lab.names[source]].mode;
      entries := entries + [TreeEntry(EntryPath(walk[i]), stored.value, mode)];
      assert walk[i..][1..] == walk[i + 1..];
      i := i + 1;
    }
    entries := SortEntries(entries);
    var sha := lab.hash.tree(entries);
    var path := TreePath(sha);
    if !(path in lab.names || path in lab.dirs) {
      if !(path != [] && path !in lab.dirs && forall k :: 0 <= k < |path| ==> path[..k] !in lab.names) {
        return Err(Io);
      }
      lab.WriteFile(path, Data(TreeDoc(entries), FILE_MODE));
    }
    r := Ok(sha);
  }

  method StorePath(lab: Project, source: Path) returns (r: Result<Stored>)
    modifies lab
    ensures lab.View() == old(lab.View()).(disk := IngestPath(lab.hash, old(lab.OnDisk()), source).0)
    ensures r == IngestPath(lab.hash, old(lab.OnDisk()), source).1
  {
    if source in lab.names {
      var sha := StoreFile(lab, source);
      r := if sha.Err? then Err(sha.error) else Ok(Stored(sha.value, FileStorage, BlobPath(sha.value)));
    } else if source in lab.dirs {
      var sha := StoreDirectory(lab, source);
      r := if sha.Err? then Err(sha.error) else Ok(Stored(sha.value, DirectoryStorage, TreePath(sha.value)));
    } else {
      r := Err(Artifact);
    }
  }
}
