/** What completing a run does to the bytes of the run's own outputs: after retention, re-staging and the sweep every
    saved directory is linked to the tree that its first line records. */
module Outputs {
  import opened Wrappers
  import opened FileSystem
  import opened Lab
  import opened Ingest
  import opened Routes
  import opened Materialize
  import opened Relink
  import opened Gc
  import opened Retention
  import opened Lifecycle
  import opened Prune
  import opened Safety
  import opened System
  import opened Completion

  // ---------------------------------------------------------------- what completion does to the run's own bytes

  /** What relinking links once the run is re-staged, told from the lines and the stripped disk: a directory that
      retention changed to the tree of the files it still has, any other to the tree its first line recorded. */
  function StagedLinks(h: Hash, d: Disk, changed: set<Path>, outputs: Path, seen: set<Path>, lines: seq<Line>)
    : seq<Link>
    decreases |lines|
  {
    if lines == [] || lines[0].Malformed? then []
    else if !NamesDir(d, outputs, NewLine(h, d, changed, lines[0])) || LineDir(lines[0]) in seen
    then StagedLinks(h, d, changed, outputs, seen, lines[1..])
    else
      var dir := LineDir(lines[0]);
      var entries := if IsChanged(lines[0], changed) then Some(TreeOf(h, Files(d, dir)))
                     else TreeEntries(d, lines[0].event.sha256.value);
      if entries.None? then []
      else LinksOf(dir, entries.value) + StagedLinks(h, d, changed, outputs, seen + {dir}, lines[1..])
  }

  /** No other file has the temporary name of a file that is there. */
  ghost predicate NoTmpInUse(d: Disk, links: seq<Link>) {
    forall i :: 0 <= i < |links| && Stands(d, links[i]) ==> TmpFree(d, links[i].dir, links[i].entry)
  }

  ghost predicate OutputsKept(d: Disk, d': Disk, outputs: Path) {
    forall p :: p in d.names && outputs <= p ==> p in d'.names && d'.At(p).content == d.At(p).content
  }

  /** Below `outputs` the two disks are one. */
  ghost predicate SameBelow(d: Disk, d': Disk, outputs: Path) {
    && (forall p :: outputs <= p && (p in d.names || p in d'.names) ==>
          p in d.names && p in d'.names && d'.names[p] == d.names[p] && d'.At(p) == d.At(p))
    && (forall q :: outputs <= q ==> (q in d.dirs <==> q in d'.dirs))
  }

  /** No file below `outputs` shares its inode with an object. */
  ghost predicate Unlinked(d: Disk, outputs: Path) {
    forall p, q :: p in d.names && q in d.names && OBJECTS <= p && outputs <= q ==> d.names[p] != d.names[q]
  }

  lemma RunningIsUnlinked(w: World, id: string)
    requires Inv(w) && id in w.runs && w.runs[id].status.Running?
    ensures Unlinked(w.disk, OutputsDir(id))
  {
    hide StoreOk, IndexOk, RunsOk, CatalogOk, RunsSeparate, NamedTreesComplete, Unshared;
    OutputsApart(id);
    forall q | OutputsDir(id) <= q ensures Free(w, q) {
      assert q[1] == OutputsDir(id)[1] == id && q[0] == OutputsDir(id)[0];
    }
  }

  lemma StrippedIsUnlinked(d: Disk, outputs: Path, policy: Policy, clues: Clues)
    requires Unlinked(d, outputs)
    ensures Unlinked(Retain(d, outputs, policy, clues), outputs)
  {
    hide ChangedDirs, Stripped;
  }

  /** Re-staging leaves the outputs alone, and no file there gets an object's inode. */
  lemma ExtendsSparesOutputs(d: Disk, d': Disk, id: string)
    requires d.WellFormed() && Extends(d, d')
    ensures SameBelow(d, d', OutputsDir(id))
    ensures Unlinked(d, OutputsDir(id)) ==> Unlinked(d', OutputsDir(id))
  {
    assert forall p :: p in d.names ==> d.names[p] in d.inodes && d.names[p] < d.next;
    forall p | OutputsDir(id) <= p && (p in d.names || p in d'.names)
      ensures p in d.names && p in d'.names && d'.names[p] == d.names[p] && d'.At(p) == d.At(p)
    {
      OutputsOutside(id, p);
    }
    forall q | OutputsDir(id) <= q ensures q in d.dirs <==> q in d'.dirs { OutputsOutside(id, q); }
    forall p | OBJECTS <= p ensures !InCatalog(p) { CatalogIsApartFrom(p); }
  }

  lemma RestageExtends(w: World, id: string, changed: set<Path>)
    requires Inv(w) && id in w.runs && ChangedAreOutputs(w.disk, changed) && Restage(w, id, changed).1.Ok?
    ensures Extends(w.disk, Restage(w, id, changed).0.disk)
  {
    hide Inv, RestageFrom, ObjectsStay, Extends, NewLine, RowsOf, TreeStored, ChangedAreOutputs;
    LinesOfRunSeparate(w, id);
    RestageShape(w, id, changed);
    RestageRewrites(w, [], w.runs[id].lines, changed);
  }

  lemma SweepSparesOutputs(w: World, id: string)
    requires Inv(w)
    ensures SameBelow(w.disk, Sweep(w).disk, OutputsDir(id))
    ensures Unlinked(w.disk, OutputsDir(id)) ==> Unlinked(Sweep(w).disk, OutputsDir(id))
  {
    hide Inv, Sweep, Readable, Reached, Roots, FileSystem.Disk.WellFormed;
    InvIsSafe(w);
    StoreOf(w);
    ShapeOf(w.hash, w.disk);
    SweepIsExact(w);
    SweptElsewhere(w);
    var d, d' := w.disk, Sweep(w).disk;
    forall p | OutputsDir(id) <= p && (p in d.names || p in d'.names)
      ensures p in d.names && p in d'.names && d'.names[p] == d.names[p] && d'.At(p) == d.At(p)
    {
      OutputsOutside(id, p);
    }
    forall q | OutputsDir(id) <= q ensures q in d.dirs <==> q in d'.dirs { OutputsOutside(id, q); }
  }

  lemma SameBelowChains(d0: Disk, d1: Disk, d2: Disk, outputs: Path)
    requires SameBelow(d0, d1, outputs) && SameBelow(d1, d2, outputs)
    ensures SameBelow(d0, d2, outputs)
  {
  }

  /** Strip, re-stage and sweep leave the stripped outputs, with every recorded tree in the store. */
  lemma ReclaimedOutputs(w: World, id: string, policy: Policy, clues: Clues)
    requires Inv(w) && id in w.runs && w.runs[id].IsRoot() && Reclaim(w, id, policy, clues).1
    ensures var w3 := Reclaim(w, id, policy, clues).0;
      var d1 := Retain(w.disk, OutputsDir(id), policy, clues);
      && w3.hash == w.hash && StoreOk(w.hash, w3.disk) && id in w3.runs
      && SameBelow(d1, w3.disk, OutputsDir(id)) && (Unlinked(d1, OutputsDir(id)) ==> Unlinked(w3.disk, OutputsDir(id)))
      && AllLinesOk(w3.disk, w3.runs[id].lines)
  {
    hide Inv, Reclaim, Retain, ChangedDirs, Sweep, Restage, SameBelow, Unlinked, LineOk, ChangedAreOutputs, StoreOk;
    var changed := AsSet(ChangedDirs(w.disk, OutputsDir(id), policy, clues));
    if ChangedDirs(w.disk, OutputsDir(id), policy, clues) == [] {
      NothingReclaimed(w, id, policy, clues);
      RetentionKeepsInv(w, id, policy, clues);
      var w1 := w.(disk := Retain(w.disk, OutputsDir(id), policy, clues));
      StoreOf(w1);
      RootLinesOk(w1, id);
      SameBelowItself(w1.disk, OutputsDir(id));
    } else {
      var w1, w2 := ReclaimStates(w, id, policy, clues);
      ChangedAreApart(w, id, policy, clues);
      RestageExtends(w1, id, changed);
      StoreOf(w1);
      ShapeOf(w1.hash, w1.disk);
      ExtendsSparesOutputs(w1.disk, w2.disk, id);
      SweepSparesOutputs(w2, id);
      SameBelowChains(w1.disk, w2.disk, Sweep(w2).disk, OutputsDir(id));
      SweepKeepsRecords(w2);
      RestageKeepsOthers(w1, id, changed);
      RestageKeepsHash(w1, id, changed);
      StoreOf(w2);
      SweepKeepsStore(w2);
      forall i | 0 <= i < |w2.runs[id].lines| ensures LineOk(Sweep(w2).disk, w2.runs[id].lines[i]) {
        RunLineSurvives(w2, id, i);
      }
    }
  }

  lemma SameBelowItself(d: Disk, outputs: Path)
    ensures SameBelow(d, d, outputs)
  {
  }

  lemma RestageKeepsHash(w: World, id: string, changed: set<Path>)
    requires id in w.runs
    ensures Restage(w, id, changed).0.hash == w.hash
  {
    hide RestageFrom;
    RestageFromKeepsRuns(w, [], w.runs[id].lines, changed);
  }

  /** Every entry that sound lines link has its blob. */
  lemma LinkedBlobsThere(d: Disk, outputs: Path, lines: seq<Line>)
    requires AllLinesOk(d, lines)
    ensures BlobsThere(d, RunLinks(d, outputs, {}, lines))
  {
    hide RunLinks, IsObject, BlobPath, TreeEntries;
    var links := RunLinks(d, outputs, {}, lines);
    forall k | 0 <= k < |links| ensures BlobOf(links[k]) in d.names {
      RunLinksList(d, outputs, {}, lines, links[k]);
      var i :| FirstLineLists(d, outputs, lines, i, links[k]);
      FirstLineIsLive(d, outputs, lines, i);
      var es := TreeEntries(d, lines[i].event.sha256.value).value;
      var j :| 0 <= j < |es| && es[j] == links[k].entry;
    }
  }

  lemma FirstLineIsLive(d: Disk, outputs: Path, lines: seq<Line>, i: int)
    requires AllLinesOk(d, lines) && IsFirstLine(d, outputs, lines, i)
    ensures var es := TreeEntries(d, lines[i].event.sha256.value); es.Some? ==> BlobsLive(d, es.value)
  {
    var sha := lines[i].event.sha256.value;
    assert LineOk(d, lines[i]);
    assert lines[i].event.objectPath == Some(TreePath(sha));
    assert IsTreeFile(TreePath(sha)) by { assert TreePath(sha)[2] == "trees"; }
  }

  /** Told from either disk, a re-staged run links the same. */
  lemma {:induction false} StagedLinksAre(h: Hash, d: Disk, d': Disk, changed: set<Path>, outputs: Path,
                                          seen: set<Path>, lines: seq<Line>)
    requires SameBelow(d, d', outputs)
    requires forall i :: 0 <= i < |lines| ==> SameLineTree(h, d, d', changed, lines[i])
    ensures RunLinks(d', outputs, seen, NewLines(h, d, changed, lines))
         == StagedLinks(h, d, changed, outputs, seen, lines)
    decreases |lines|
  {
    hide NewLine, TreeEntries, DirDigest, Files, TreeOf, SameLineTree;
    var now := NewLines(h, d, changed, lines);
    if lines != [] {
      var rest := lines[1..];
      assert now[1..] == NewLines(h, d, changed, rest);
      forall i | 0 <= i < |rest| ensures SameLineTree(h, d, d', changed, rest[i]) { assert rest[i] == lines[i + 1]; }
      NewLineDir(h, d, changed, lines[0]);
      StagedLinksAre(h, d, d', changed, outputs, seen, rest);
      assert NamesDir(d', outputs, now[0]) <==> NamesDir(d, outputs, now[0]);
      if now[0].Entry? && NamesDir(d', outputs, now[0]) && LineDir(lines[0]) !in seen {
        StagedLinksAre(h, d, d', changed, outputs, seen + {LineDir(lines[0])}, rest);
        LineTreeOf(h, d, d', changed, lines[0]);
        if !IsChanged(lines[0], changed) { UnchangedLine(h, d, changed, lines[0], 0); }
        assert now[0].event.path.value == LineDir(lines[0]);
      }
    }
  }

  /** On disk `d'` the new line's tree is, for a changed directory, that of its files, and otherwise what it was. */
  ghost predicate SameLineTree(h: Hash, d: Disk, d': Disk, changed: set<Path>, line: Line) {
    if IsChanged(line, changed)
    then TreeEntries(d', DirDigest(h, d, line.event.path.value)) == Some(TreeOf(h, Files(d, line.event.path.value)))
    else line.Entry? && line.event.storage == Some(DirectoryStorage) && line.event.sha256.Some? ==>
           TreeEntries(d', line.event.sha256.value) == TreeEntries(d, line.event.sha256.value)
  }

  lemma NewLineDir(h: Hash, d: Disk, changed: set<Path>, line: Line)
    ensures LineDir(NewLine(h, d, changed, line)) == LineDir(line)
    ensures NewLine(h, d, changed, line).Malformed? <==> line.Malformed?
  {
    hide DirDigest, RequestOf, TreePath;
  }

  lemma LineTreeOf(h: Hash, d: Disk, d': Disk, changed: set<Path>, line: Line)
    requires SameLineTree(h, d, d', changed, line) && line.Entry?
    requires var e := NewLine(h, d, changed, line).event; e.storage == Some(DirectoryStorage) && e.sha256.Some?
    ensures TreeEntries(d', NewLine(h, d, changed, line).event.sha256.value)
         == if IsChanged(line, changed) then Some(TreeOf(h, Files(d, LineDir(line))))
            else if line.event.sha256.Some? then TreeEntries(d, line.event.sha256.value) else None
  {
    hide DirDigest, RequestOf, TreePath, TreeEntries, Files, TreeOf;
    if IsChanged(line, changed) { NewLineOf(h, d, changed, line); }
  }

  lemma HonestTreesAgree(h: Hash, d: Disk, d': Disk, sha: string)
    requires StoreOk(h, d) && StoreOk(h, d') && TreePath(sha) in d.names && TreePath(sha) in d'.names
    ensures TreeEntries(d', sha) == TreeEntries(d, sha)
  {
    hide TreePath;
  }

  lemma StoredTreeReads(h: Hash, d: Disk, d': Disk, dir: Path)
    requires StoreOk(h, d') && TreeStored(h, d', dir) && Files(d', dir) == Files(d, dir)
    ensures TreeEntries(d', DirDigest(h, d, dir)) == Some(TreeOf(h, Files(d, dir)))
  {
    hide TreePath, Files, TreeOf;
  }

  lemma ReclaimedTrees(w: World, id: string, policy: Policy, clues: Clues)
    requires Inv(w) && id in w.runs && w.runs[id].IsRoot() && Reclaim(w, id, policy, clues).1
    ensures var d1 := Retain(w.disk, OutputsDir(id), policy, clues);
      var changed := AsSet(ChangedDirs(w.disk, OutputsDir(id), policy, clues));
      forall i :: 0 <= i < |w.runs[id].lines| ==>
        SameLineTree(w.hash, d1, Reclaim(w, id, policy, clues).0.disk, changed, w.runs[id].lines[i])
  {
    hide Inv, Reclaim, Retain, ChangedDirs, NewLine, SameBelow, StoreOk, Files, TreeOf, TreePath, TreeEntries,
         TreeStored, Live, IsObject, DirDigest;
    var d1 := Retain(w.disk, OutputsDir(id), policy, clues);
    var changed := AsSet(ChangedDirs(w.disk, OutputsDir(id), policy, clues));
    var w1, w3 := w.(disk := d1), Reclaim(w, id, policy, clues).0;
    var lines := w.runs[id].lines;
    RetentionKeepsInv(w, id, policy, clues);
    StoreOf(w1);
    RootLinesOk(w1, id);
    CompletionRestages(w, id, policy, clues);
    ReclaimedOutputs(w, id, policy, clues);
    forall i | 0 <= i < |lines| ensures SameLineTree(w.hash, d1, w3.disk, changed, lines[i]) {
      if IsChanged(lines[i], changed) {
        StoredTreeReads(w.hash, d1, w3.disk, lines[i].event.path.value);
      } else {
        UnchangedLine(w.hash, d1, changed, lines[i], 0);
        assert LineOk(w3.disk, w3.runs[id].lines[i]) && LineOk(d1, lines[i]);
        if lines[i].event.storage == Some(DirectoryStorage) && lines[i].event.sha256.Some? {
          LineIsLive(d1, lines[i]);
          LineIsLive(w3.disk, lines[i]);
          HonestTreesAgree(w.hash, d1, w3.disk, lines[i].event.sha256.value);
        }
      }
    }
  }

  /** The links of the run `id` when it completes, told from what there is before. */
  ghost function OutputLinks(w: World, id: string, policy: Policy, clues: Clues): seq<Link>
    requires id in w.runs
  {
    StagedLinks(w.hash, Retain(w.disk, OutputsDir(id), policy, clues),
                AsSet(ChangedDirs(w.disk, OutputsDir(id), policy, clues)), OutputsDir(id), {}, w.runs[id].lines)
  }

  lemma OutputLinksAre(w: World, id: string, policy: Policy, clues: Clues)
    requires Inv(w) && id in w.runs && w.runs[id].IsRoot() && Reclaim(w, id, policy, clues).1
    ensures var w3 := Reclaim(w, id, policy, clues).0;
      && id in w3.runs
      && RunLinks(w3.disk, OutputsDir(id), {}, w3.runs[id].lines) == OutputLinks(w, id, policy, clues)
      && BlobsThere(w3.disk, OutputLinks(w, id, policy, clues))
      && Below(w3.disk, OutputsDir(id), OutputLinks(w, id, policy, clues))
  {
    hide Inv, Reclaim, Retain, ChangedDirs, SameBelow, StoreOk, Files, TreeOf, TreePath, TreesStored, NewLines,
         SameLineTree, StagedLinks, RunLinks, AllLinesOk, BlobsThere, Below;
    ReclaimedTrees(w, id, policy, clues);
    CompletionRestages(w, id, policy, clues);
    ReclaimedOutputs(w, id, policy, clues);
    OutputsApart(id);
    var w3 := Reclaim(w, id, policy, clues).0;
    StagedLinksAre(w.hash, Retain(w.disk, OutputsDir(id), policy, clues), w3.disk,
                   AsSet(ChangedDirs(w.disk, OutputsDir(id), policy, clues)), OutputsDir(id), {}, w.runs[id].lines);
    LinkedBlobsThere(w3.disk, OutputsDir(id), w3.runs[id].lines);
    RunLinksBelow(w3.disk, OutputsDir(id), {}, w3.runs[id].lines);
  }

  lemma PlaceIsInside(dir: Path, e: TreeEntry)
    requires EnsureChild(dir, e.path).Ok?
    ensures dir <= Place(dir, e)
  {
  }

  /** A link's file and temporary name, if it has them, are the same on both disks. */
  lemma SameStanding(d: Disk, d': Disk, outputs: Path, links: seq<Link>, i: nat)
    requires SameBelow(d, d', outputs) && d'.WellFormed() && Below(d', outputs, links) && i < |links|
    ensures Stands(d, links[i]) <==> Stands(d', links[i])
    ensures Stands(d, links[i]) ==>
              && outputs <= PlaceOf(links[i]) && d'.At(PlaceOf(links[i])) == d.At(PlaceOf(links[i]))
              && (TmpFree(d, links[i].dir, links[i].entry) <==> TmpFree(d', links[i].dir, links[i].entry))
  {
    hide EnsureChild, Place, TmpPath, FileSystem.Disk.WellFormed, FileSystem.Disk.At;
    var l := links[i];
    if EnsureChild(l.dir, l.entry.path).Ok? {
      PlaceIsInside(l.dir, l.entry);
      if PlaceOf(l) in d'.names { PlaceIsBelow(d', l.dir, l.entry); }
    }
  }

  lemma SameConditions(h: Hash, d: Disk, d': Disk, outputs: Path, links: seq<Link>)
    requires SameBelow(d, d', outputs) && StoreOk(h, d') && Below(d', outputs, links)
    ensures NoTmpInUse(d', links) <==> NoTmpInUse(d, links)
    ensures AsListed(h, d', links) <==> AsListed(h, d, links)
    ensures forall i :: IsLastStanding(d', links, i) <==> IsLastStanding(d, links, i)
  {
    hide StoreOk, SameBelow, Stands, TmpFree, Below, FileSystem.Disk.At, Place;
    ShapeOf(h, d');
    forall i | 0 <= i < |links|
      ensures Stands(d, links[i]) <==> Stands(d', links[i])
      ensures Stands(d, links[i]) ==> d'.At(PlaceOf(links[i])) == d.At(PlaceOf(links[i]))
      ensures Stands(d, links[i]) ==>
                (TmpFree(d, links[i].dir, links[i].entry) <==> TmpFree(d', links[i].dir, links[i].entry))
    {
      SameStanding(d, d', outputs, links, i);
    }
    forall i ensures IsLastStanding(d', links, i) <==> IsLastStanding(d, links, i) {
    }
  }

  /** In outputs that share nothing with the store, every file with a blob is to be replaced. */
  lemma QuietWhenUnlinked(d: Disk, outputs: Path, links: seq<Link>)
    requires Unlinked(d, outputs) && BlobsThere(d, links) && Below(d, outputs, links)
    ensures Quiet(d, links) <==> NoTmpInUse(d, links)
  {
    hide EnsureChild, Place, TmpFree, BlobPath;
    forall i | 0 <= i < |links| ensures Linkable(d, links[i].dir, links[i].entry) <==> Stands(d, links[i]) {
      LayoutIsSeparate(links[i].entry.sha256, "");
      if EnsureChild(links[i].dir, links[i].entry.path).Ok? {
        PlaceIsInside(links[i].dir, links[i].entry);
      }
    }
  }

  lemma KeptIsSameBytes(d: Disk, d': Disk, linked: Disk, outputs: Path)
    requires SameBelow(d, d', outputs) && RelinkFrame(d', linked, outputs)
    ensures SameBytes(d', linked) <==> OutputsKept(d, linked, outputs)
  {
    if OutputsKept(d, linked, outputs) {
      forall p | p in d'.names ensures p in linked.names && linked.At(p).content == d'.At(p).content {
        if outputs <= p { assert p in d.names; }
      }
    }
  }

  /** Completing a run, retention, re-staging, sweep and relinking included, keeps the bytes of every file that
      retention leaves in its outputs exactly when no other file has a temporary name that is used, and each file
      has the digest that the last link to it lists. For a directory that retention changed these are the digests
      of the files it has, for any other directory those of the first time it was saved. */
  lemma CompletedOutputsKept(w: World, id: string, policy: Policy, clues: Clues)
    requires Inv(w) && id in w.runs && w.runs[id].IsRoot() && Unlinked(w.disk, OutputsDir(id))
    requires Reclaim(w, id, policy, clues).1
    requires var w3 := Reclaim(w, id, policy, clues).0;
      id in w3.runs && RelinkLines(w3.disk, OutputsDir(id), {}, 0, w3.runs[id].lines).1.Ok?
    ensures var w3 := Reclaim(w, id, policy, clues).0;
      var d1 := Retain(w.disk, OutputsDir(id), policy, clues);
      var linked := RelinkLines(w3.disk, OutputsDir(id), {}, 0, w3.runs[id].lines).0;
      var links := OutputLinks(w, id, policy, clues);
      && (OutputsKept(d1, linked, OutputsDir(id)) <==> NoTmpInUse(d1, links) && AsListed(w.hash, d1, links))
      && (NoTmpInUse(d1, links) ==> forall i :: IsLastStanding(d1, links, i) ==>
           w.hash.file(linked.At(PlaceOf(links[i])).content) == links[i].entry.sha256)
  {
    hide Inv, Reclaim, Retain, ChangedDirs, SameBelow, StoreOk, RelinkLines, RunLinks, AllLinesOk, BlobsThere, Below,
         OutputLinks, Unlinked, Quiet, NoTmpInUse, AsListed, SameBytes, OutputsKept, RelinkFrame, TakesObjects,
         Harmless, Stands, FileSystem.Disk.At, Place, BlobPath;
    var w3 := Reclaim(w, id, policy, clues).0;
    var d1 := Retain(w.disk, OutputsDir(id), policy, clues);
    var outputs, lines3 := OutputsDir(id), w3.runs[id].lines;
    var links := OutputLinks(w, id, policy, clues);
    StrippedIsUnlinked(w.disk, outputs, policy, clues);
    ReclaimedOutputs(w, id, policy, clues);
    OutputLinksAre(w, id, policy, clues);
    OutputsApart(id);
    RunKeepsBytesExactlyWhen(w.hash, w3.disk, outputs, lines3);
    HarmlessByDigests(w.hash, w3.disk, links);
    QuietWhenUnlinked(w3.disk, outputs, links);
    SameConditions(w.hash, d1, w3.disk, outputs, links);
    RelinkLinesKeepStore(w.hash, w3.disk, outputs, lines3);
    KeptIsSameBytes(d1, w3.disk, RelinkLines(w3.disk, outputs, {}, 0, lines3).0, outputs);
    if NoTmpInUse(d1, links) {
      forall i | IsLastStanding(d1, links, i)
        ensures w.hash.file(RelinkLines(w3.disk, outputs, {}, 0, lines3).0.At(PlaceOf(links[i])).content)
             == links[i].entry.sha256
      {
        StandingIsMet(w3.disk, links, i);
        RunTakesFirstTrees(w.hash, w3.disk, outputs, lines3, i);
        BlobIsNamed(w.hash, w3.disk, w3.disk.At(BlobOf(links[i])).content, links[i].entry.sha256);
      }
    }
  }

  lemma StandingIsMet(d: Disk, links: seq<Link>, i: int)
    requires BlobsThere(d, links) && IsLastStanding(d, links, i)
    ensures IsLastAt(d, links, i) && BlobOf(links[i]) in d.names
  {
    hide EnsureChild, Place, BlobPath;
  }

  ghost predicate CacheEntries(evicted: set<Path>) {
    forall q :: q in evicted ==> q != [] && Parent(q) == MATERIALIZED
  }

  /** Pruning other runs and evicting cache entries touch no output of the run. */
  lemma BoundsSpareOutputs(w: World, id: string, pruned: set<string>, evicted: set<Path>)
    requires id in w.runs && id !in pruned && CacheEntries(evicted)
    ensures SameBelow(RelinkLines(w.disk, OutputsDir(id), {}, 0, w.runs[id].lines).0,
                      Bounded(w, id, pruned, evicted).disk, OutputsDir(id))
  {
    hide RelinkLines;
    forall p | OutputsDir(id) <= p ensures !InRuns(pruned, p) && !Under(evicted, p) {
      OutputsUnbounded(id, pruned, evicted, p);
    }
  }

  lemma OutputsUnbounded(id: string, pruned: set<string>, evicted: set<Path>, p: Path)
    requires OutputsDir(id) <= p && id !in pruned && CacheEntries(evicted)
    ensures !InRuns(pruned, p) && !Under(evicted, p)
  {
    assert p[1] == OutputsDir(id)[1] && p[0] == OutputsDir(id)[0];
    assert Parent(p[..3])[0] == p[0] && |p[0]| != |MATERIALIZED[0]|;
  }

  lemma KeptEither(d: Disk, d': Disk, d'': Disk, outputs: Path)
    requires SameBelow(d', d'', outputs)
    ensures OutputsKept(d, d', outputs) <==> OutputsKept(d, d'', outputs)
  {
  }

  lemma SameRunLinks(w: World, id: string, policy: Policy, clues: Clues)
    requires id in w.runs
    ensures OutputLinks(Complete(w, id), id, policy, clues) == OutputLinks(w, id, policy, clues)
  {
    hide Retain, ChangedDirs, StagedLinks;
  }

  /** A run that completes: wherever its storage steps prune and evict, unless they prune the run itself, the bytes of
      every file that retention leaves in its outputs are kept exactly when no other file has a temporary name that
      relinking uses and each file has the digest that the last link to it lists; and with the names free that is the
      digest each linked file ends up with, whatever was in it. */
  lemma CompletionKeepsOutputsExactlyWhen(w: World, id: string, policy: Policy, clues: Clues, pruned: set<string>,
                                          evicted: set<Path>)
    requires Inv(w) && id in w.runs && w.runs[id].status.CanBecome(Completed) && !w.runs[id].locked
    requires Reclaim(Complete(w, id), id, policy, clues).1 && id !in pruned && CacheEntries(evicted)
    requires var w3 := Reclaim(Complete(w, id), id, policy, clues).0;
      id in w3.runs && RelinkLines(w3.disk, OutputsDir(id), {}, 0, w3.runs[id].lines).1.Ok?
    ensures var after := Bounded(Reclaim(Complete(w, id), id, policy, clues).0, id, pruned, evicted).disk;
      var stripped := Retain(w.disk, OutputsDir(id), policy, clues);
      var links := OutputLinks(w, id, policy, clues);
      && (OutputsKept(stripped, after, OutputsDir(id)) <==>
          NoTmpInUse(stripped, links) && AsListed(w.hash, stripped, links))
      && (NoTmpInUse(stripped, links) ==> forall i :: IsLastStanding(stripped, links, i) ==>
           w.hash.file(after.At(PlaceOf(links[i])).content) == links[i].entry.sha256)
  {
    hide Inv, Reclaim, Retain, RelinkLines, OutputLinks, Unlinked, NoTmpInUse, AsListed, OutputsKept, Bounded,
         SameBelow, FileSystem.Disk.At, Place, EnsureChild;
    var w' := Complete(w, id);
    var w3 := Reclaim(w', id, policy, clues).0;
    var linked := RelinkLines(w3.disk, OutputsDir(id), {}, 0, w3.runs[id].lines).0;
    ChangeStatusKeepsInv(w, id, Completed);
    RunningIsUnlinked(w, id);
    SameRunLinks(w, id, policy, clues);
    CompletedOutputsKept(w', id, policy, clues);
    BoundsSpareOutputs(w3, id, pruned, evicted);
    var stripped, after := Retain(w.disk, OutputsDir(id), policy, clues), Bounded(w3, id, pruned, evicted).disk;
    KeptEither(stripped, linked, after, OutputsDir(id));
    var links := OutputLinks(w, id, policy, clues);
    if NoTmpInUse(stripped, links) {
      forall i | IsLastStanding(stripped, links, i)
        ensures w.hash.file(after.At(PlaceOf(links[i])).content) == links[i].entry.sha256
      {
        StandsBelow(w', id, policy, clues, links[i], i);
        SameFileBelow(linked, after, OutputsDir(id), PlaceOf(links[i]));
      }
    }
  }

  lemma StandsBelow(w: World, id: string, policy: Policy, clues: Clues, l: Link, i: int)
    requires Inv(w) && id in w.runs && w.runs[id].IsRoot() && Reclaim(w, id, policy, clues).1
    requires 0 <= i < |OutputLinks(w, id, policy, clues)| && l == OutputLinks(w, id, policy, clues)[i]
    requires EnsureChild(l.dir, l.entry.path).Ok?
    ensures OutputsDir(id) <= PlaceOf(l)
  {
    hide Inv, Reclaim, OutputLinks, EnsureChild, Place;
    OutputLinksAre(w, id, policy, clues);
    PlaceIsInside(l.dir, l.entry);
  }

  lemma SameFileBelow(d: Disk, d': Disk, outputs: Path, p: Path)
    requires SameBelow(d, d', outputs) && outputs <= p
    ensures d'.At(p) == d.At(p)
  {
  }

  /** When every file that a link is to has the listed digest and its temporary name is free, the outputs are kept also
      if relinking stops half way. */
  lemma UnhurtCompletionKeepsOutputs(w: World, id: string, policy: Policy, clues: Clues, pruned: set<string>,
                                     evicted: set<Path>)
    requires Inv(w) && id in w.runs && w.runs[id].status.CanBecome(Completed) && !w.runs[id].locked
    requires Reclaim(Complete(w, id), id, policy, clues).1 && id !in pruned && CacheEntries(evicted)
    requires id in Reclaim(Complete(w, id), id, policy, clues).0.runs
    requires var stripped, links := Retain(w.disk, OutputsDir(id), policy, clues), OutputLinks(w, id, policy, clues);
      && NoTmpInUse(stripped, links)
      && forall i :: 0 <= i < |links| && Stands(stripped, links[i]) ==>
           w.hash.file(stripped.At(PlaceOf(links[i])).content) == links[i].entry.sha256
    ensures OutputsKept(Retain(w.disk, OutputsDir(id), policy, clues),
                        Bounded(Reclaim(Complete(w, id), id, policy, clues).0, id, pruned, evicted).disk,
                        OutputsDir(id))
  {
    hide Inv, Reclaim, Retain, RelinkLines, RelinkAll, RunLinks, OutputLinks, OutputsKept, Bounded, SameBelow, StoreOk,
         Stands, FileSystem.Disk.At, Place, RelinkFrame, TakesObjects, Below, BlobPath, SameBytes, Hurts;
    var w' := Complete(w, id);
    var w3 := Reclaim(w', id, policy, clues).0;
    var outputs, lines3 := OutputsDir(id), w3.runs[id].lines;
    var stripped, links := Retain(w.disk, outputs, policy, clues), OutputLinks(w, id, policy, clues);
    ChangeStatusKeepsInv(w, id, Completed);
    SameRunLinks(w, id, policy, clues);
    ReclaimedOutputs(w', id, policy, clues);
    OutputLinksAre(w', id, policy, clues);
    OutputsApart(id);
    ShapeOf(w.hash, w3.disk);
    forall i | 0 <= i < |links| ensures !Hurts(w3.disk, links[i].dir, links[i].entry) {
      SameStanding(stripped, w3.disk, outputs, links, i);
      ListedIsUnhurt(w.hash, w3.disk, links[i]);
    }
    LinesAreLinks(w.hash, w3.disk, outputs, {}, 0, lines3);
    HarmlessPass(w.hash, w3.disk, outputs, links);
    RelinkLinesKeepStore(w.hash, w3.disk, outputs, lines3);
    var linked := RelinkLines(w3.disk, outputs, {}, 0, lines3).0;
    KeptIsSameBytes(stripped, w3.disk, linked, outputs);
    BoundsSpareOutputs(w3, id, pruned, evicted);
    KeptEither(stripped, linked, Bounded(w3, id, pruned, evicted).disk, outputs);
  }

  lemma ListedIsUnhurt(h: Hash, d: Disk, l: Link)
    requires StoreOk(h, d) && BlobOf(l) in d.names
    requires Stands(d, l) ==> TmpFree(d, l.dir, l.entry) && h.file(d.At(PlaceOf(l)).content) == l.entry.sha256
    ensures !Hurts(d, l.dir, l.entry)
  {
    hide EnsureChild, Place, BlobPath, TmpFree, StoreOk, FileSystem.Disk.At;
    BlobIsNamed(h, d, d.At(PlaceOf(l)).content, l.entry.sha256);
  }

  /** The first line that names its directory, outside `seen`. */
  ghost predicate IsFirstNamed(h: Hash, d: Disk, changed: set<Path>, outputs: Path, seen: set<Path>, lines: seq<Line>,
                               i: int)
  {
    && 0 <= i < |lines| && NamesDir(d, outputs, NewLine(h, d, changed, lines[i])) && LineDir(lines[i]) !in seen
    && forall j :: 0 <= j < i && NamesDir(d, outputs, NewLine(h, d, changed, lines[j])) ==>
         LineDir(lines[j]) != LineDir(lines[i])
  }

  /** The line's directory has clean file names and, unless it is re-staged, still the files that the line records. */
  ghost predicate AsSaved(h: Hash, d: Disk, changed: set<Path>, line: Line) {
    && CleanNames(Files(d, LineDir(line)))
    && (IsChanged(line, changed)
        || (line.Entry? && line.event.sha256.Some?
            && TreeEntries(d, line.event.sha256.value) == Some(TreeOf(h, Files(d, LineDir(line))))))
  }

  ghost predicate AllListed(h: Hash, d: Disk, links: seq<Link>) {
    forall i :: 0 <= i < |links| && Stands(d, links[i]) ==>
      h.file(d.At(PlaceOf(links[i])).content) == links[i].entry.sha256
  }

  lemma AllListedJoin(h: Hash, d: Disk, a: seq<Link>, b: seq<Link>)
    requires AllListed(h, d, a) && AllListed(h, d, b)
    ensures AllListed(h, d, a + b)
  {
    hide Stands, Place, FileSystem.Disk.At;
  }

  lemma FirstNamedRest(h: Hash, d: Disk, changed: set<Path>, outputs: Path, seen: set<Path>, lines: seq<Line>, i: int)
    requires lines != []
    requires var named := NamesDir(d, outputs, NewLine(h, d, changed, lines[0]));
      IsFirstNamed(h, d, changed, outputs, if named then seen + {LineDir(lines[0])} else seen, lines[1..], i)
    ensures IsFirstNamed(h, d, changed, outputs, seen, lines, i + 1)
  {
    hide LineDir, NewLine;
    assert lines[i + 1] == lines[1..][i];
    forall j | 0 <= j < i + 1 && NamesDir(d, outputs, NewLine(h, d, changed, lines[j]))
      ensures LineDir(lines[j]) != LineDir(lines[i + 1])
    {
      assert j > 0 ==> lines[j] == lines[1..][j - 1];
    }
  }

  /** When each directory's first line is as saved, every linked file has the listed digest. */
  lemma {:induction false} SavedIsListed(h: Hash, d: Disk, changed: set<Path>, outputs: Path, seen: set<Path>,
                                         lines: seq<Line>)
    requires StoreOk(h, d)
    requires forall i :: 0 <= i < |lines| && IsFirstNamed(h, d, changed, outputs, seen, lines, i) ==>
               AsSaved(h, d, changed, lines[i])
    ensures AllListed(h, d, StagedLinks(h, d, changed, outputs, seen, lines))
    decreases |lines|
  {
    hide StoreOk, NewLine, Files, TreeOf, TreeEntries, CleanNames, IsFirstNamed, Stands;
    if lines != [] && lines[0].Entry? {
      var dir, rest := LineDir(lines[0]), lines[1..];
      var named := NamesDir(d, outputs, NewLine(h, d, changed, lines[0]));
      var newer := if named then seen + {dir} else seen;
      forall i | 0 <= i < |rest| && IsFirstNamed(h, d, changed, outputs, newer, rest, i)
        ensures AsSaved(h, d, changed, rest[i])
      {
        FirstNamedRest(h, d, changed, outputs, seen, lines, i);
        assert rest[i] == lines[i + 1];
      }
      SavedIsListed(h, d, changed, outputs, newer, rest);
      if named && dir !in seen {
        assert IsFirstNamed(h, d, changed, outputs, seen, lines, 0) by {
          FirstIsFirst(h, d, changed, outputs, seen, lines);
        }
        CleanIsAllListed(h, d, dir);
        AllListedJoin(h, d, LinksOf(dir, TreeOf(h, Files(d, dir))),
                      StagedLinks(h, d, changed, outputs, newer, rest));
      } else {
        assert newer == seen;
      }
    }
  }

  lemma FirstIsFirst(h: Hash, d: Disk, changed: set<Path>, outputs: Path, seen: set<Path>, lines: seq<Line>)
    requires lines != [] && NamesDir(d, outputs, NewLine(h, d, changed, lines[0])) && LineDir(lines[0]) !in seen
    ensures IsFirstNamed(h, d, changed, outputs, seen, lines, 0)
  {
  }

  lemma CleanIsAllListed(h: Hash, d: Disk, dir: Path)
    requires StoreOk(h, d) && CleanNames(Files(d, dir))
    ensures AllListed(h, d, LinksOf(dir, TreeOf(h, Files(d, dir))))
  {
    hide TreeOf, Files, StoreOk, CleanNames;
    var links := LinksOf(dir, TreeOf(h, Files(d, dir)));
    forall i | 0 <= i < |links| && Stands(d, links[i])
      ensures h.file(d.At(PlaceOf(links[i])).content) == links[i].entry.sha256
    {
      CleanEntryIsListed(h, d, dir, i);
    }
  }

  /** A run that saves no directory again after changing it, with plain file names and no temporary name in use, ends
      with the bytes it wrote. */
  lemma SavedOnceIsKept(w: World, id: string, policy: Policy, clues: Clues, pruned: set<string>, evicted: set<Path>)
    requires Inv(w) && id in w.runs && w.runs[id].status.CanBecome(Completed) && !w.runs[id].locked
    requires Reclaim(Complete(w, id), id, policy, clues).1 && id !in pruned && CacheEntries(evicted)
    requires id in Reclaim(Complete(w, id), id, policy, clues).0.runs
    requires var stripped := Retain(w.disk, OutputsDir(id), policy, clues);
      var changed := AsSet(ChangedDirs(w.disk, OutputsDir(id), policy, clues));
      var lines := w.runs[id].lines;
      && NoTmpInUse(stripped, OutputLinks(w, id, policy, clues))
      && forall i :: 0 <= i < |lines| && IsFirstNamed(w.hash, stripped, changed, OutputsDir(id), {}, lines, i) ==>
           AsSaved(w.hash, stripped, changed, lines[i])
    ensures OutputsKept(Retain(w.disk, OutputsDir(id), policy, clues),
                        Bounded(Reclaim(Complete(w, id), id, policy, clues).0, id, pruned, evicted).disk,
                        OutputsDir(id))
  {
    hide Inv, Reclaim, Retain, ChangedDirs, StagedLinks, OutputsKept, Bounded, NoTmpInUse, IsFirstNamed, AsSaved,
         StoreOk, Stands, Place, FileSystem.Disk.At;
    RetentionKeepsInv(w, id, policy, clues);
    StoreOf(w.(disk := Retain(w.disk, OutputsDir(id), policy, clues)));
    SavedIsListed(w.hash, Retain(w.disk, OutputsDir(id), policy, clues),
                  AsSet(ChangedDirs(w.disk, OutputsDir(id), policy, clues)), OutputsDir(id), {}, w.runs[id].lines);
    UnhurtCompletionKeepsOutputs(w, id, policy, clues, pruned, evicted);
  }
}
