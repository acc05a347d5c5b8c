/** `apply_output_retention`: resume-only files are stripped from every output directory but the
    one a run would resume from. */
module Retention {
  import opened Wrappers
  import opened Order
  import opened FileSystem
  import opened Lab
  import opened Glob

  datatype Keep = KeepLast | KeepAll | KeepNone

  datatype Policy = Policy(keep: Keep, globs: seq<string>)

  /** What retention reads besides the names: the checkpoint path in the pointer file, if it can be
      read, and the modification time of each directory. */
  datatype Clues = Clues(pointer: Option<Path>, modified: Path -> int)

  ghost predicate IsResumeOnly(d: Disk, globs: seq<string>, p: Path) {
    p in d.names && p != [] && MatchesAny(globs, p[|p| - 1])
  }

  ghost function ResumeOnlyFiles(d: Disk, globs: seq<string>, dir: Path): set<Path> {
    set p | p in d.names && IsResumeOnly(d, globs, p) && Parent(p) == dir
  }

  /** Immediate subdirectories of `outputs` with a resume-only file directly inside. */
  ghost function ResumeDirs(d: Disk, globs: seq<string>, outputs: Path): set<Path> {
    set q | q in d.dirs && q != [] && Parent(q) == outputs && ResumeOnlyFiles(d, globs, q) != {}
  }

  /** `max_by_key`: the last of the most recently modified ones. */
  function Newest(dirs: seq<Path>, modified: Path -> int): (q: Path)
    requires dirs != []
    ensures q in dirs && forall r :: r in dirs ==> modified(r) <= modified(q)
  {
    if |dirs| == 1 then dirs[0]
    else
      var best := Newest(dirs[..|dirs| - 1], modified);
      var last := dirs[|dirs| - 1];
      if modified(best) <= modified(last) then last else best
  }

  function ResumeDir(dirs: seq<Path>, clues: Clues): Path
    requires dirs != []
  {
    if clues.pointer.Some? && clues.pointer.value in dirs then clues.pointer.value
    else Newest(dirs, clues.modified)
  }

  /** The directory that keeps its files, if any. */
  function Spared(dirs: seq<Path>, keep: Keep, clues: Clues): Option<Path> {
    if dirs == [] || keep != KeepLast then None else Some(ResumeDir(dirs, clues))
  }

  ghost function SortedResumeDirs(d: Disk, globs: seq<string>, outputs: Path): seq<Path> {
    PathLeIsTotal();
    Ascending(ResumeDirs(d, globs, outputs), PathLe)
  }

  /** The directories that lose files, in order. */
  ghost function ChangedDirs(d: Disk, outputs: Path, policy: Policy, clues: Clues): seq<Path> {
    if policy.globs == [] || policy.keep == KeepAll || outputs !in d.dirs then []
    else
      var dirs := SortedResumeDirs(d, policy.globs, outputs);
      Filter(dirs, (q: Path) => Some(q) != Spared(dirs, policy.keep, clues))
  }

  ghost function Stripped(d: Disk, globs: seq<string>, dirs: seq<Path>): set<Path> {
    set p | p in d.names && IsResumeOnly(d, globs, p) && Parent(p) in dirs
  }

  ghost function Retain(d: Disk, outputs: Path, policy: Policy, clues: Clues): Disk {
    Unlink(d, Stripped(d, policy.globs, ChangedDirs(d, outputs, policy, clues)))
  }

  // ---------------------------------------------------------------- exactness and idempotence

  lemma ResumeDirsMember(d: Disk, globs: seq<string>, outputs: Path, p: Path)
    requires d.WellFormed() && IsResumeOnly(d, globs, p) && Parent(p) != [] && Parent(Parent(p)) == outputs
    ensures Parent(p) in ResumeDirs(d, globs, outputs)
  {
    assert p in ResumeOnlyFiles(d, globs, Parent(p));
    assert d.CanWrite(p);
  }

  /** Exactly the matching direct files of the output directories go, except those of the one
      directory that is spared; without patterns, when everything is kept or without outputs none goes.
      Whatever stays keeps its inode and its content. */
  lemma RetentionIsExact(d: Disk, outputs: Path, policy: Policy, clues: Clues, p: Path)
    requires d.WellFormed() && p in d.names
    ensures p !in Retain(d, outputs, policy, clues).names <==>
            (&& policy.globs != [] && policy.keep != KeepAll && outputs in d.dirs
             && IsResumeOnly(d, policy.globs, p) && Parent(p) != [] && Parent(Parent(p)) == outputs
             && Some(Parent(p)) != Spared(SortedResumeDirs(d, policy.globs, outputs), policy.keep, clues))
    ensures p in Retain(d, outputs, policy, clues).names ==>
              Retain(d, outputs, policy, clues).names[p] == d.names[p]
              && Retain(d, outputs, policy, clues).At(p) == d.At(p)
  {
    hide MatchesAny;
    var dirs := SortedResumeDirs(d, policy.globs, outputs);
    FilterMember(dirs, (q: Path) => Some(q) != Spared(dirs, policy.keep, clues), Parent(p));
    if IsResumeOnly(d, policy.globs, p) && Parent(p) != [] && Parent(Parent(p)) == outputs {
      ResumeDirsMember(d, policy.globs, outputs, p);
    }
  }

  /** After one pass only the spared directory still holds resume-only files. */
  lemma OnlySparedRemains(d: Disk, outputs: Path, policy: Policy, clues: Clues, q: Path)
    requires d.WellFormed()
    requires policy.globs != [] && policy.keep != KeepAll && outputs in d.dirs
    ensures q in ResumeDirs(Retain(d, outputs, policy, clues), policy.globs, outputs)
      <==> Some(q) == Spared(SortedResumeDirs(d, policy.globs, outputs), policy.keep, clues)
  {
    hide MatchesAny;
    var d' := Retain(d, outputs, policy, clues);
    var dirs := SortedResumeDirs(d, policy.globs, outputs);
    var spared := Spared(dirs, policy.keep, clues);
    if q in ResumeDirs(d', policy.globs, outputs) {
      var p :| p in ResumeOnlyFiles(d', policy.globs, q);
      RetentionIsExact(d, outputs, policy, clues, p);
    }
    if Some(q) == spared {
      assert q in dirs;
      var p :| p in ResumeOnlyFiles(d, policy.globs, q);
      RetentionIsExact(d, outputs, policy, clues, p);
      assert p in ResumeOnlyFiles(d', policy.globs, q);
    }
  }

  /** A second pass finds nothing to strip, whatever the modification times have become. */
  lemma SecondRetentionIsEmpty(d: Disk, outputs: Path, policy: Policy, clues: Clues, later: Clues)
    requires d.WellFormed()
    ensures ChangedDirs(Retain(d, outputs, policy, clues), outputs, policy, later) == []
  {
    hide MatchesAny, ResumeOnlyFiles, Stripped, ResumeDirs, FileSystem.Disk.WellFormed;
    var d' := Retain(d, outputs, policy, clues);
    if policy.globs != [] && policy.keep != KeepAll && outputs in d.dirs {
      var spared := Spared(SortedResumeDirs(d, policy.globs, outputs), policy.keep, clues);
      var dirs := SortedResumeDirs(d', policy.globs, outputs);
      forall q ensures q in dirs <==> Some(q) == spared {
        OnlySparedRemains(d, outputs, policy, clues, q);
      }
      forall i | 0 <= i < |dirs| ensures Some(dirs[i]) == Spared(dirs, policy.keep, later) {
        assert dirs[i] in dirs;
        assert ResumeDir(dirs, later) in dirs;
      }
      FilterNothing(dirs, (q: Path) => Some(q) != Spared(dirs, policy.keep, later));
    }
  }

  /** The only directory with resume-only files is the one that is spared. */
  lemma OnlyOneIsSpared(d: Disk, outputs: Path, policy: Policy, clues: Clues, q: Path)
    requires policy.keep == KeepLast && forall r :: r in ResumeDirs(d, policy.globs, outputs) ==> r == q
    ensures ChangedDirs(d, outputs, policy, clues) == []
  {
    hide ResumeDirs;
    var dirs := SortedResumeDirs(d, policy.globs, outputs);
    forall i | 0 <= i < |dirs| ensures Some(dirs[i]) == Spared(dirs, policy.keep, clues) {
      assert dirs[i] in dirs;
      assert ResumeDir(dirs, clues) in dirs;
    }
    FilterNothing(dirs, (r: Path) => Some(r) != Spared(dirs, policy.keep, clues));
  }

  // ---------------------------------------------------------------- where a run resumes from

  /** An output directory with a resume-only file directly inside. */
  ghost predicate CanResume(d: Disk, globs: seq<string>, outputs: Path, q: Path) {
    q != [] && Parent(q) == outputs && exists p :: IsResumeOnly(d, globs, p) && Parent(p) == q
  }

  ghost predicate PointerResumes(d: Disk, globs: seq<string>, outputs: Path, clues: Clues) {
    clues.pointer.Some? && CanResume(d, globs, outputs, clues.pointer.value)
  }

  /** The run would resume from `q`: the directory its resume pointer leads to or, if it leads to none that can be
      resumed from, the one modified last, of several at the same time the last by path. */
  ghost predicate ResumesFrom(d: Disk, globs: seq<string>, outputs: Path, clues: Clues, q: Path) {
    && CanResume(d, globs, outputs, q)
    && if PointerResumes(d, globs, outputs, clues) then q == clues.pointer.value
       else forall r :: CanResume(d, globs, outputs, r) && r != q ==>
              clues.modified(r) < clues.modified(q) || (clues.modified(r) == clues.modified(q) && PathLe(r, q))
  }

  lemma ResumeDirsCanResume(d: Disk, globs: seq<string>, outputs: Path, q: Path)
    requires d.WellFormed()
    ensures q in ResumeDirs(d, globs, outputs) <==> CanResume(d, globs, outputs, q)
    ensures CanResume(d, globs, outputs, q) ==> outputs in d.dirs
  {
    hide MatchesAny;
    if q in ResumeDirs(d, globs, outputs) {
      var p :| p in ResumeOnlyFiles(d, globs, q);
    }
    if CanResume(d, globs, outputs, q) {
      var p :| IsResumeOnly(d, globs, p) && Parent(p) == q;
      ResumeDirsMember(d, globs, outputs, p);
    }
  }

  /** None is newer than number `i`, and none after it is as new. */
  ghost predicate IsLastNewest(dirs: seq<Path>, modified: Path -> int, i: nat) {
    && i < |dirs|
    && (forall j :: 0 <= j < |dirs| ==> modified(dirs[j]) <= modified(dirs[i]))
    && (forall j :: i < j < |dirs| ==> modified(dirs[j]) < modified(dirs[i]))
  }

  lemma {:induction false} NewestIsLast(dirs: seq<Path>, modified: Path -> int) returns (i: nat)
    requires dirs != []
    ensures IsLastNewest(dirs, modified, i) && Newest(dirs, modified) == dirs[i]
    decreases |dirs|
  {
    hide Newest;
    var n := |dirs| - 1;
    if n == 0 {
      i := 0;
      NewestOfOne(dirs, modified);
      assert dirs[..1] == dirs;
    } else {
      var front := dirs[..n];
      i := NewestIsLast(front, modified);
      NewestNext(dirs, modified, n);
      assert dirs[..n + 1] == dirs;
      if modified(front[i]) <= modified(dirs[n]) {
        i := n;
      }
    }
  }

  /** In path order, the last of the newest directories comes after all that are as new. */
  lemma LastNewestWins(dirs: seq<Path>, modified: Path -> int, i: nat, r: Path)
    requires IsLastNewest(dirs, modified, i) && Sorted(dirs, PathLe) && r in dirs && r != dirs[i]
    ensures modified(r) < modified(dirs[i]) || (modified(r) == modified(dirs[i]) && PathLe(r, dirs[i]))
  {
    hide PathLe;
    var j :| 0 <= j < |dirs| && dirs[j] == r;
    if j < i {
      assert PathLe(dirs[j], dirs[i]);
    }
  }

  lemma OneResumes(d: Disk, globs: seq<string>, outputs: Path, clues: Clues, a: Path, b: Path)
    requires ResumesFrom(d, globs, outputs, clues, a) && ResumesFrom(d, globs, outputs, clues, b)
    ensures a == b
  {
    hide PathLe, CanResume, PointerResumes;
    PathLeIsTotal();
  }

  lemma SortedMembers(d: Disk, globs: seq<string>, outputs: Path)
    requires d.WellFormed()
    ensures var dirs := SortedResumeDirs(d, globs, outputs);
      Sorted(dirs, PathLe) && forall r :: r in dirs <==> CanResume(d, globs, outputs, r)
  {
    hide CanResume, ResumeDirs, FileSystem.Disk.WellFormed, PathLe;
    PathLeIsTotal();
    forall r ensures r in SortedResumeDirs(d, globs, outputs) <==> CanResume(d, globs, outputs, r) {
      ResumeDirsCanResume(d, globs, outputs, r);
    }
  }

  /** The directory that is spared is the one that the run would resume from. */
  lemma SparedResumes(d: Disk, globs: seq<string>, outputs: Path, clues: Clues, q: Path)
    requires d.WellFormed() && CanResume(d, globs, outputs, q)
    ensures var dirs := SortedResumeDirs(d, globs, outputs);
      dirs != [] && ResumesFrom(d, globs, outputs, clues, ResumeDir(dirs, clues))
  {
    hide CanResume, ResumeDirs, FileSystem.Disk.WellFormed, Newest, SortedResumeDirs, PathLe, IsLastNewest, Sorted;
    var dirs := SortedResumeDirs(d, globs, outputs);
    SortedMembers(d, globs, outputs);
    assert q in dirs;
    if !PointerResumes(d, globs, outputs, clues) {
      var i := NewestIsLast(dirs, clues.modified);
      InRange(dirs, clues.modified, i);
      forall r | CanResume(d, globs, outputs, r) && r != dirs[i]
        ensures clues.modified(r) < clues.modified(dirs[i])
             || (clues.modified(r) == clues.modified(dirs[i]) && PathLe(r, dirs[i]))
      {
        LastNewestWins(dirs, clues.modified, i, r);
      }
    }
  }

  lemma InRange(dirs: seq<Path>, modified: Path -> int, i: nat)
    requires IsLastNewest(dirs, modified, i)
    ensures i < |dirs|
  {
  }

  /** A file goes exactly when there are patterns, it is a resume-only file directly in an output directory, and
      nothing is to be kept, or only the last and the run would resume from another directory. */
  lemma ResumeFileGoesExactlyWhen(d: Disk, outputs: Path, policy: Policy, clues: Clues, p: Path)
    requires d.WellFormed() && p in d.names
    ensures p !in Retain(d, outputs, policy, clues).names <==>
            && policy.globs != []
            && IsResumeOnly(d, policy.globs, p) && Parent(p) != [] && Parent(Parent(p)) == outputs
            && match policy.keep
               case KeepAll => false
               case KeepNone => true
               case KeepLast => !ResumesFrom(d, policy.globs, outputs, clues, Parent(p))
  {
    hide IsResumeOnly, ResumesFrom, FileSystem.Disk.WellFormed, Retain, SortedResumeDirs, ResumeDir;
    RetentionIsExact(d, outputs, policy, clues, p);
    if IsResumeOnly(d, policy.globs, p) && Parent(p) != [] && Parent(Parent(p)) == outputs {
      assert CanResume(d, policy.globs, outputs, Parent(p));
      ResumeDirsCanResume(d, policy.globs, outputs, Parent(p));
      SparedResumes(d, policy.globs, outputs, clues, Parent(p));
      var dirs := SortedResumeDirs(d, policy.globs, outputs);
      if ResumesFrom(d, policy.globs, outputs, clues, Parent(p)) {
        OneResumes(d, policy.globs, outputs, clues, Parent(p), ResumeDir(dirs, clues));
      }
    }
  }

  /** As long as some output directory can be resumed from, there is one that stays so, and only one. */
  lemma OneDirectoryStays(d: Disk, outputs: Path, policy: Policy, clues: Clues, r: Path) returns (q: Path)
    requires d.WellFormed() && policy.globs != [] && policy.keep == KeepLast
    requires CanResume(d, policy.globs, outputs, r)
    ensures ResumesFrom(d, policy.globs, outputs, clues, q)
    ensures forall s :: CanResume(Retain(d, outputs, policy, clues), policy.globs, outputs, s) <==> s == q
    ensures forall p :: p in d.names && Parent(p) == q ==> p in Retain(d, outputs, policy, clues).names
  {
    hide IsResumeOnly, ResumesFrom, FileSystem.Disk.WellFormed, SortedResumeDirs, ResumeDir, Retain, CanResume,
         ResumeDirs;
    SparedResumes(d, policy.globs, outputs, clues, r);
    ResumeDirsCanResume(d, policy.globs, outputs, r);
    var dirs := SortedResumeDirs(d, policy.globs, outputs);
    q := ResumeDir(dirs, clues);
    forall s ensures CanResume(Retain(d, outputs, policy, clues), policy.globs, outputs, s) <==> s == q {
      OnlySparedRemains(d, outputs, policy, clues, s);
      RetainedIsWellFormed(d, outputs, policy, clues);
      ResumeDirsCanResume(Retain(d, outputs, policy, clues), policy.globs, outputs, s);
    }
    forall p | p in d.names && Parent(p) == q ensures p in Retain(d, outputs, policy, clues).names {
      ResumeFileGoesExactlyWhen(d, outputs, policy, clues, p);
    }
  }

  lemma RetainedIsWellFormed(d: Disk, outputs: Path, policy: Policy, clues: Clues)
    requires d.WellFormed()
    ensures Retain(d, outputs, policy, clues).WellFormed()
  {
    hide Stripped, ChangedDirs;
    UnlinkKeepsShape(d, Stripped(d, policy.globs, ChangedDirs(d, outputs, policy, clues)));
  }

  // ---------------------------------------------------------------- the operations

  /** `read_dir`, files only. */
  method DirectFiles(lab: Project, dir: Path) returns (files: set<Path>)
    ensures forall p :: p in files <==> p in lab.names && p != [] && Parent(p) == dir
  {
    files := set p | p in lab.names && p != [] && Parent(p) == dir;
  }

  method HasResumeOnlyFile(lab: Project, dir: Path, globs: seq<string>) returns (found: bool)
    ensures found <==> ResumeOnlyFiles(lab.OnDisk(), globs, dir) != {}
  {
    hide MatchesAny;
    var rest := DirectFiles(lab, dir);
    while rest != {}
      invariant forall p :: p in rest ==> p in lab.names && p != [] && Parent(p) == dir
      invariant forall p :: p in ResumeOnlyFiles(lab.OnDisk(), globs, dir) ==> p in rest
    {
      var p :| p in rest;
      var matched := FileNameMatchesAny(globs, p[|p| - 1]);
      if matched {
        assert p in ResumeOnlyFiles(lab.OnDisk(), globs, dir);
        return true;
      }
      rest := rest - {p};
    }
    found := false;
  }

  method FindResumeStateDirs(lab: Project, outputs: Path, globs: seq<string>) returns (dirs: seq<Path>)
    ensures dirs == SortedResumeDirs(lab.OnDisk(), globs, outputs)
  {
    hide ResumeOnlyFiles;
    var found: set<Path> := {};
    var rest := set q | q in lab.dirs && q != [] && Parent(q) == outputs;
    while rest != {}
      invariant forall q :: q in rest ==> q in lab.dirs && q != [] && Parent(q) == outputs
      invariant forall q :: q in ResumeDirs(lab.OnDisk(), globs, outputs) <==>
                  q in found || (q in rest && ResumeOnlyFiles(lab.OnDisk(), globs, q) != {})
    {
      var q :| q in rest;
      var has := HasResumeOnlyFile(lab, q, globs);
      if has {
        found := found + {q};
      }
      rest := rest - {q};
    }
    assert found == ResumeDirs(lab.OnDisk(), globs, outputs);
    PathLeIsTotal();
    dirs := Ascending(found, PathLe);
  }

  lemma NewestOfOne(dirs: seq<Path>, modified: Path -> int)
    requires dirs != []
    ensures Newest(dirs[..1], modified) == dirs[0]
  {
    assert dirs[..1] == [dirs[0]];
  }

  lemma NewestNext(dirs: seq<Path>, modified: Path -> int, i: nat)
    requires 0 < i < |dirs|
    ensures var best := Newest(dirs[..i], modified);
      Newest(dirs[..i + 1], modified) == if modified(best) <= modified(dirs[i]) then dirs[i] else best
  {
    assert dirs[..i + 1][..i] == dirs[..i];
  }

  method ResolveResumeDir(dirs: seq<Path>, clues: Clues) returns (q: Path)
    requires dirs != []
    ensures q == ResumeDir(dirs, clues)
    ensures if clues.pointer.Some? && clues.pointer.value in dirs then q == clues.pointer.value
            else exists i: nat :: IsLastNewest(dirs, clues.modified, i) && q == dirs[i]
  {
    if clues.pointer.Some? && clues.pointer.value in dirs {
      return clues.pointer.value;
    }
    hide Newest;
    q := dirs[0];
    var i := 1;
    NewestOfOne(dirs, clues.modified);
    while i < |dirs|
      invariant 1 <= i <= |dirs|
      invariant q == Newest(dirs[..i], clues.modified)
    {
      NewestNext(dirs, clues.modified, i);
      if clues.modified(q) <= clues.modified(dirs[i]) {
        q := dirs[i];
      }
      i := i + 1;
    }
    assert dirs[..i] == dirs;
    ghost var last := NewestIsLast(dirs, clues.modified);
  }

  /** Remove the file when its name matches. */
  method StripOne(lab: Project, p: Path, globs: seq<string>) returns (gone: bool)
    requires p != []
    modifies lab
    ensures gone <==> MatchesAny(globs, p[|p| - 1])
    ensures lab.View() == old(lab.View()).(disk := old(lab.OnDisk()).(names := lab.names))
    ensures lab.names == if gone then old(lab.names) - {p} else old(lab.names)
  {
    hide MatchesAny;
    gone := FileNameMatchesAny(globs, p[|p| - 1]);
    if gone {
      lab.names := lab.names - {p};
    }
  }

  /** Remove the resume-only files directly in `dir`; returns how many there were. */
  method StripResumeOnlyFiles(lab: Project, dir: Path, globs: seq<string>) returns (removed: nat)
    modifies lab
    ensures lab.View() == old(lab.View()).(disk :=
      Unlink(old(lab.OnDisk()), ResumeOnlyFiles(old(lab.OnDisk()), globs, dir)))
    ensures removed == |ResumeOnlyFiles(old(lab.OnDisk()), globs, dir)|
    ensures removed + |lab.names| == |old(lab.names)|
  {
    hide MatchesAny, ResumeOnlyFiles, Parent, Unstripped, Left;
    ghost var before := lab.OnDisk();
    ghost var doomed := ResumeOnlyFiles(before, globs, dir);
    var rest := DirectFiles(lab, dir);
    var count := 0;
    ResumeOnlyMembers(before, globs, dir);
    NothingStripped(before.names, doomed, rest);
    while rest != {}
      invariant forall p :: p in rest ==> p in before.names && p != [] && Parent(p) == dir
      invariant lab.names == Unstripped(before.names, doomed, rest)
      invariant lab.View() == old(lab.View()).(disk := before.(names := lab.names))
      invariant 0 <= count && count + Left(doomed, rest) == |doomed|
    {
      var p :| p in rest;
      var gone := StripOne(lab, p, globs);
      StripStep(before.names, doomed, rest, p);
      if gone {
        count := count + 1;
      }
      rest := rest - {p};
    }
    AllStripped(before.names, doomed);
    NamesLeft(before, globs, dir);
    removed := count;
  }

  /** The names when only those in `rest` are still to be looked at. */
  ghost function Unstripped(names: map<Path, nat>, doomed: set<Path>, rest: set<Path>): map<Path, nat> {
    names - (doomed - rest)
  }

  ghost function Left(doomed: set<Path>, rest: set<Path>): nat {
    |doomed * rest|
  }

  lemma NothingStripped(names: map<Path, nat>, doomed: set<Path>, rest: set<Path>)
    requires doomed <= rest
    ensures Unstripped(names, doomed, rest) == names && Left(doomed, rest) == |doomed|
  {
    assert doomed - rest == {} && doomed * rest == doomed;
  }

  lemma AllStripped(names: map<Path, nat>, doomed: set<Path>)
    ensures Unstripped(names, doomed, {}) == names - doomed && Left(doomed, {}) == 0
  {
    assert doomed - {} == doomed && doomed * {} == {};
  }

  lemma ResumeOnlyMembers(d: Disk, globs: seq<string>, dir: Path)
    ensures forall p :: p in ResumeOnlyFiles(d, globs, dir) ==> p in d.names && p != [] && Parent(p) == dir
    ensures forall p :: p in d.names && p != [] && Parent(p) == dir ==>
              (p in ResumeOnlyFiles(d, globs, dir) <==> MatchesAny(globs, p[|p| - 1]))
  {
  }

  lemma StripStep(names: map<Path, nat>, doomed: set<Path>, rest: set<Path>, p: Path)
    requires p in rest
    ensures Unstripped(names, doomed, rest - {p}) == Unstripped(names, doomed, rest) - if p in doomed then {p} else {}
    ensures Left(doomed, rest - {p}) == Left(doomed, rest) - if p in doomed then 1 else 0
  {
    if p in doomed {
      assert doomed * (rest - {p}) == doomed * rest - {p};
      assert doomed - (rest - {p}) == (doomed - rest) + {p};
    } else {
      assert doomed * (rest - {p}) == doomed * rest;
      assert doomed - (rest - {p}) == doomed - rest;
    }
  }

  method ApplyOutputRetention(lab: Project, outputs: Path, policy: Policy, clues: Clues)
    returns (changed: seq<Path>, removed: nat)
    requires lab.OnDisk().WellFormed()
    modifies lab
    ensures lab.View() == old(lab.View()).(disk := Retain(old(lab.OnDisk()), outputs, policy, clues))
    ensures changed == ChangedDirs(old(lab.OnDisk()), outputs, policy, clues)
    ensures forall p :: p in old(lab.names) ==>
      (p !in lab.names <==>
         && policy.globs != [] && IsResumeOnly(old(lab.OnDisk()), policy.globs, p)
         && Parent(p) != [] && Parent(Parent(p)) == outputs && policy.keep != KeepAll
         && (policy.keep == KeepLast ==> !ResumesFrom(old(lab.OnDisk()), policy.globs, outputs, clues, Parent(p))))
    ensures removed + |lab.names| == |old(lab.names)|
  {
    hide IsResumeOnly, ResumesFrom, FileSystem.Disk.WellFormed, Stripped, Parent;
    ghost var before := lab.OnDisk();
    forall p | p in before.names {
      ResumeFileGoesExactlyWhen(before, outputs, policy, clues, p);
    }
    changed, removed := [], 0;
    StripNothing(before, policy.globs);
    if policy.globs == [] || policy.keep == KeepAll || outputs !in lab.dirs {
      return;
    }
    var dirs := FindResumeStateDirs(lab, outputs, policy.globs);
    var spared: Option<Path> := None;
    if dirs != [] && policy.keep == KeepLast {
      var q := ResolveResumeDir(dirs, clues);
      spared := Some(q);
    }
    changed, removed := StripAllBut(lab, policy.globs, dirs, spared);
  }

  /** The loop over the directories found. */
  method StripAllBut(lab: Project, globs: seq<string>, dirs: seq<Path>, spared: Option<Path>)
    returns (changed: seq<Path>, removed: nat)
    requires Distinct(dirs) && forall q :: q in dirs ==> ResumeOnlyFiles(lab.OnDisk(), globs, q) != {}
    modifies lab
    ensures changed == Filter(dirs, (q: Path) => Some(q) != spared)
    ensures lab.View() ==
            old(lab.View()).(disk := Unlink(old(lab.OnDisk()), Stripped(old(lab.OnDisk()), globs, changed)))
    ensures removed + |lab.names| == |old(lab.names)|
  {
    hide ResumeOnlyFiles, Stripped, Unlink, Distinct;
    ghost var before := lab.OnDisk();
    ghost var keep := (q: Path) => Some(q) != spared;
    changed, removed := [], 0;
    StripNothing(before, globs);
    var i := 0;
    while i < |dirs|
      invariant 0 <= i <= |dirs|
      invariant changed == Filter(dirs[..i], keep)
      invariant lab.View() == old(lab.View()).(disk := Unlink(before, Stripped(before, globs, changed)))
      invariant removed + |lab.names| == |before.names|
    {
      FilterNext(dirs, i, keep);
      if spared != Some(dirs[i]) {
        StripMore(before, globs, dirs, i, changed);
        assert dirs[i] in dirs;
        var files := StripResumeOnlyFiles(lab, dirs[i], globs);
        if files > 0 {
          removed := removed + files;
          changed := changed + [dirs[i]];
        }
      }
      i := i + 1;
    }
    assert dirs[..i] == dirs;
  }

  lemma NamesLeft(d: Disk, globs: seq<string>, dir: Path)
    ensures var gone := ResumeOnlyFiles(d, globs, dir); |Unlink(d, gone).names| + |gone| == |d.names|
  {
    hide IsResumeOnly;
    var gone := ResumeOnlyFiles(d, globs, dir);
    assert gone <= d.names.Keys;
    assert Unlink(d, gone).names.Keys == d.names.Keys - gone;
  }

  lemma StripNothing(d: Disk, globs: seq<string>)
    ensures Unlink(d, Stripped(d, globs, [])) == d
  {
    assert Stripped(d, globs, []) == {};
  }

  lemma FilterNext(dirs: seq<Path>, i: nat, keep: Path -> bool)
    requires i < |dirs| && Distinct(dirs)
    ensures Filter(dirs[..i + 1], keep) == Filter(dirs[..i], keep) + if keep(dirs[i]) then [dirs[i]] else []
    ensures dirs[i] !in Filter(dirs[..i], keep)
  {
    assert dirs[..i + 1] == dirs[..i] + [dirs[i]];
    FilterAppends(dirs[..i], [dirs[i]], keep);
    assert Filter([dirs[i]], keep) == if keep(dirs[i]) then [dirs[i]] else [];
    FilterMember(dirs[..i], keep, dirs[i]);
  }

  /** Stripping one more directory, after those in `changed`. */
  lemma StripMore(before: Disk, globs: seq<string>, dirs: seq<Path>, i: nat, changed: seq<Path>)
    requires i < |dirs|
    ensures var now := Unlink(before, Stripped(before, globs, changed));
      && Unlink(now, ResumeOnlyFiles(now, globs, dirs[i]))
           == Unlink(before, Stripped(before, globs, changed + [dirs[i]]))
      && (dirs[i] !in changed ==> ResumeOnlyFiles(now, globs, dirs[i]) == ResumeOnlyFiles(before, globs, dirs[i]))
  {
    hide MatchesAny;
    var now := Unlink(before, Stripped(before, globs, changed));
    var a := now.names - ResumeOnlyFiles(now, globs, dirs[i]);
    var b := before.names - Stripped(before, globs, changed + [dirs[i]]);
    forall p ensures p in a <==> p in b {
      assert Parent(p) in changed + [dirs[i]] <==> Parent(p) in changed || Parent(p) == dirs[i];
    }
    assert a == b;
  }
}
