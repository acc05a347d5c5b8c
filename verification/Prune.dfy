/** Bounding what is kept: the newest runs of each experiment, and the newest materialized trees
    under a size limit. */
module Prune {
  import opened Wrappers
  import opened Order
  import opened FileSystem
  import opened Lab
  import opened Ingest
  import opened Materialize
  import opened Gc

  // ---------------------------------------------------------------- removing run directories

  predicate InRuns(ids: set<string>, p: Path) { |p| >= 2 && p[0] == "runs" && p[1] in ids }

  function RemoveRuns(w: World, ids: set<string>): World {
    w.(runs := w.runs - ids,
       disk := w.disk.(names := map p | p in w.disk.names && !InRuns(ids, p) :: w.disk.names[p],
                       dirs := set q | q in w.disk.dirs && !InRuns(ids, q)))
  }

  lemma RemoveRunsKeepsShape(w: World, ids: set<string>)
    requires w.disk.WellFormed()
    ensures RemoveRuns(w, ids).disk.WellFormed()
  {
    var d' := RemoveRuns(w, ids).disk;
    forall p | p in d'.names ensures d'.CanWrite(p) && Parent(p) in d'.dirs {
      assert w.disk.CanWrite(p);
      assert InRuns(ids, Parent(p)) ==> InRuns(ids, p);
    }
    forall q | q in d'.dirs && q != [] ensures Parent(q) in d'.dirs {
      assert InRuns(ids, Parent(q)) ==> InRuns(ids, q);
    }
  }

  lemma InRunsIsBelow(id: string, p: Path)
    ensures InRuns({id}, p) <==> RunDir(id) <= p
  {
    assert RunDir(id) == ["runs", id];
    if InRuns({id}, p) {
      assert p == [p[0], p[1]] + p[2..];
    }
  }

  lemma RemoveOneRun(w: World, ids: set<string>, id: string)
    ensures var w1 := RemoveRuns(w, ids);
      w1.(runs := w1.runs - {id}, disk := RemoveAll(w1.disk, RunDir(id))) == RemoveRuns(w, ids + {id})
  {
    forall p ensures InRuns(ids + {id}, p) <==> InRuns(ids, p) || RunDir(id) <= p {
      InRunsIsBelow(id, p);
    }
    var w1, w2 := RemoveRuns(w, ids), RemoveRuns(w, ids + {id});
    assert RemoveAll(w1.disk, RunDir(id)).names == w2.disk.names;
    assert RemoveAll(w1.disk, RunDir(id)).dirs == w2.disk.dirs;
    assert w1.runs - {id} == w2.runs;
  }

  lemma RemoveNoRuns(w: World)
    ensures RemoveRuns(w, {}) == w
  {
    assert RemoveRuns(w, {}).disk.names == w.disk.names;
    assert RemoveRuns(w, {}).disk.dirs == w.disk.dirs;
  }

  // ---------------------------------------------------------------- the newest runs of each experiment

  const U32: nat := 0x1_0000_0000

  /** A run directory as grouped: its creation time text and its id. */
  datatype Dated = Dated(created: string, id: string)

  /** `run_has_promoted_artifact`: lines that do not parse are passed over. */
  predicate HasPromotedArtifact(lines: seq<Line>) {
    exists i :: 0 <= i < |lines| && lines[i].Entry?
             && lines[i].event.artifactKind.Some? && lines[i].event.objectPath.Some?
  }

  predicate Prunable(run: Run) {
    !run.locked && HasPromotedArtifact(run.lines) && run.identity.Some?
  }

  function Group(runs: map<string, Run>, name: string): (ids: set<string>)
    ensures forall id :: id in ids ==> id in runs && runs[id].identity.Some?
  {
    set id | id in runs && Prunable(runs[id]) && runs[id].identity.value.0 == name
  }

  function Members(xs: seq<Dated>): set<string> {
    set i | 0 <= i < |xs| :: xs[i].id
  }

  ghost predicate DistinctIds(xs: seq<Dated>) {
    forall i, j :: 0 <= i < j < |xs| ==> xs[i].id != xs[j].id
  }

  /** `xs` lists the runs of `group`, each once, with its creation time. */
  ghost predicate Lists(runs: map<string, Run>, group: set<string>, xs: seq<Dated>) {
    && DistinctIds(xs) && Members(xs) == group
    && forall i :: 0 <= i < |xs| ==>
         xs[i].id in runs && runs[xs[i].id].identity.Some? && runs[xs[i].id].identity.value.1 == xs[i].created
  }

  predicate NewerFirst(a: Dated, b: Dated) { StrLe(b.created, a.created) }

  /** Of the runs of one group, `removed` leaves the `keep` newest; the group's size is compared as
      a 32-bit number. */
  ghost predicate KeepsNewest(runs: map<string, Run>, group: set<string>, removed: set<string>, keep: nat)
    requires forall id :: id in group ==> id in runs && runs[id].identity.Some?
  {
    if |group| % U32 <= keep then group * removed == {}
    else
      && |group - removed| == keep
      && forall a, b :: a in group - removed && b in group * removed ==>
           StrLe(runs[b].identity.value.1, runs[a].identity.value.1)
  }

  lemma NewerFirstIsPreorder()
    ensures IsPreorder(NewerFirst)
  {
    forall a, b ensures NewerFirst(a, b) || NewerFirst(b, a) { StrLeCompares(a.created, b.created); }
    forall a, b, c | NewerFirst(a, b) && NewerFirst(b, c) ensures NewerFirst(a, c) {
      StrLeChains(c.created, b.created, a.created);
    }
  }

  lemma {:induction false} MembersCount(xs: seq<Dated>)
    requires DistinctIds(xs)
    ensures |Members(xs)| == |xs|
  {
    if xs != [] {
      var front, last := xs[..|xs| - 1], xs[|xs| - 1];
      MembersCount(front);
      forall x ensures x in Members(xs) <==> x in Members(front) || x == last.id {
        if x in Members(front) {
          var i :| 0 <= i < |front| && front[i].id == x;
          assert xs[i].id == x;
        }
        if x in Members(xs) {
          var i :| 0 <= i < |xs| && xs[i].id == x;
          assert i < |front| ==> front[i].id == x;
        }
      }
      assert Members(xs) == Members(front) + {last.id};
      forall i | 0 <= i < |front| ensures front[i].id != last.id {
        assert front[i] == xs[i];
      }
    }
  }

  lemma SortedGroup(xs: seq<Dated>)
    requires DistinctIds(xs)
    ensures var s := StableSort(xs, NewerFirst);
      Sorted(s, NewerFirst) && DistinctIds(s) && Members(s) == Members(xs) && (forall x :: x in s <==> x in xs)
  {
    NewerFirstIsPreorder();
    StableSortSorts(xs, NewerFirst);
    var s := StableSort(xs, NewerFirst);
    forall x ensures x in s <==> x in xs {
      assert x in s <==> x in multiset(s);
      assert x in xs <==> x in multiset(xs);
    }
    SortStaysDistinct(xs, s);
    forall i, j | 0 <= i < j < |s| ensures s[i].id != s[j].id {
      assert s[i] in xs && s[j] in xs;
    }
    forall x ensures x in Members(s) <==> x in Members(xs) {
      if x in Members(s) {
        var i :| 0 <= i < |s| && s[i].id == x;
        assert s[i] in xs;
      }
      if x in Members(xs) {
        var i :| 0 <= i < |xs| && xs[i].id == x;
        assert xs[i] in s;
      }
    }
  }

  lemma MembersOfSlice(s: seq<Dated>, from: nat, to: nat, x: string)
    requires from <= to <= |s|
    ensures x in Members(s[from..to]) <==> exists i :: from <= i < to && s[i].id == x
  {
    if i :| from <= i < to && s[i].id == x {
      assert s[from..to][i - from].id == x;
    }
  }

  lemma MembersSplit(s: seq<Dated>, keep: nat)
    requires DistinctIds(s) && keep <= |s|
    ensures Members(s[..keep]) == Members(s) - Members(s[keep..])
    ensures DistinctIds(s[..keep])
  {
    assert s[..keep] == s[0..keep] && s[keep..] == s[keep..|s|] && s == s[0..|s|];
    forall x ensures x in Members(s[..keep]) <==> x in Members(s) && x !in Members(s[keep..]) {
      MembersOfSlice(s, 0, keep, x);
      MembersOfSlice(s, keep, |s|, x);
      MembersOfSlice(s, 0, |s|, x);
    }
  }

  lemma ListsKnown(runs: map<string, Run>, group: set<string>, xs: seq<Dated>)
    requires Lists(runs, group, xs)
    ensures forall id :: id in group ==> id in runs && runs[id].identity.Some?
  {
    forall id | id in group ensures id in runs && runs[id].identity.Some? {
      var i :| 0 <= i < |xs| && xs[i].id == id;
    }
  }

  lemma DropKeepsNewest(runs: map<string, Run>, group: set<string>, s: seq<Dated>, removed: set<string>, keep: nat)
    requires Lists(runs, group, s) && Sorted(s, NewerFirst) && keep < |s| % U32
    requires group * removed == Members(s[keep..])
    ensures KeepsNewest(runs, group, removed, keep)
  {
    hide StrLe, Members;
    ListsKnown(runs, group, s);
    MembersCount(s);
    MembersSplit(s, keep);
    MembersCount(s[..keep]);
    assert Members(s[..keep]) == group - removed;
    forall a, b | a in group - removed && b in group * removed
      ensures StrLe(runs[b].identity.value.1, runs[a].identity.value.1)
    {
      assert s[..keep] == s[0..keep] && s[keep..] == s[keep..|s|];
      MembersOfSlice(s, 0, keep, a);
      MembersOfSlice(s, keep, |s|, b);
      var i :| 0 <= i < keep && s[i].id == a;
      var j :| keep <= j < |s| && s[j].id == b;
      assert NewerFirst(s[i], s[j]);
    }
  }

  method PruneGroup(lab: Project, xs: seq<Dated>, keep: nat, dryRun: bool,
                    ghost runs: map<string, Run>, ghost group: set<string>)
    returns (gone: set<string>)
    requires Lists(runs, group, xs) && forall id :: id in group ==> id in runs && runs[id].identity.Some?
    modifies lab
    ensures lab.View() == if dryRun then old(lab.View()) else RemoveRuns(old(lab.View()), gone)
    ensures gone <= group && KeepsNewest(runs, group, gone, keep)
  {
    hide RemoveRuns, KeepsNewest, Lists, Sorted, StableSort;
    gone := {};
    RemoveNoRuns(lab.View());
    if |xs| % U32 <= keep {
      SmallGroup(runs, group, xs, keep);
      return;
    }
    var sorted := StableSort(xs, NewerFirst);
    SortedGroupLists(runs, group, xs);
    assert sorted[keep..keep] == [];
    var i := keep;
    while i < |sorted|
      invariant keep <= i <= |sorted|
      invariant gone == Members(sorted[keep..i])
      invariant lab.View() == if dryRun then old(lab.View()) else RemoveRuns(old(lab.View()), gone)
    {
      var id := sorted[i].id;
      MembersStep(sorted, keep, i);
      RemoveOneRun(old(lab.View()), gone, id);
      if !dryRun {
        lab.RemoveTree(RunDir(id));
        lab.runs := lab.runs - {id};
      }
      gone := gone + {id};
      i := i + 1;
    }
    assert sorted[keep..i] == sorted[keep..];
    forall x | x in gone ensures x in group {
      MembersOfSlice(sorted, keep, |sorted|, x);
    }
    assert group * gone == gone;
    DropKeepsNewest(runs, group, sorted, gone, keep);
  }

  lemma SmallGroup(runs: map<string, Run>, group: set<string>, xs: seq<Dated>, keep: nat)
    requires Lists(runs, group, xs) && forall id :: id in group ==> id in runs && runs[id].identity.Some?
    requires |xs| % U32 <= keep
    ensures KeepsNewest(runs, group, {}, keep)
  {
    MembersCount(xs);
  }

  lemma SortedGroupLists(runs: map<string, Run>, group: set<string>, xs: seq<Dated>)
    requires Lists(runs, group, xs)
    ensures var s := StableSort(xs, NewerFirst);
      Sorted(s, NewerFirst) && Lists(runs, group, s) && |s| == |xs| && Members(s) == group
  {
    hide StableSort, NewerFirst;
    SortedGroup(xs);
    var s := StableSort(xs, NewerFirst);
    MembersCount(s);
    MembersCount(xs);
    forall i | 0 <= i < |s|
      ensures s[i].id in runs && runs[s[i].id].identity.Some? && runs[s[i].id].identity.value.1 == s[i].created
    {
      assert s[i] in xs;
    }
  }

  lemma MembersStep(s: seq<Dated>, from: nat, i: nat)
    requires from <= i < |s|
    ensures Members(s[from..i + 1]) == Members(s[from..i]) + {s[i].id}
  {
    forall x ensures x in Members(s[from..i + 1]) <==> x in Members(s[from..i]) || x == s[i].id {
      MembersOfSlice(s, from, i, x);
      MembersOfSlice(s, from, i + 1, x);
    }
  }

  method RunHasPromotedArtifact(lines: seq<Line>) returns (found: bool)
    ensures found == HasPromotedArtifact(lines)
    ensures found <==>
            exists e: Event, k, p :: Entry(e) in lines && e.artifactKind == Some(k) && e.objectPath == Some(p)
  {
    PromotedExactlyWhen(lines);
    found := false;
    var i := 0;
    while i < |lines|
      invariant 0 <= i <= |lines|
      invariant forall j :: 0 <= j < i ==>
        !(lines[j].Entry? && lines[j].event.artifactKind.Some? && lines[j].event.objectPath.Some?)
    {
      if lines[i].Entry? && lines[i].event.artifactKind.Some? && lines[i].event.objectPath.Some? {
        return true;
      }
      i := i + 1;
    }
  }

  lemma PromotedExactlyWhen(lines: seq<Line>)
    ensures HasPromotedArtifact(lines) <==>
            exists e: Event, k, p :: Entry(e) in lines && e.artifactKind == Some(k) && e.objectPath == Some(p)
  {
    if HasPromotedArtifact(lines) {
      var i :| 0 <= i < |lines| && lines[i].Entry?
        && lines[i].event.artifactKind.Some? && lines[i].event.objectPath.Some?;
      var e := lines[i].event;
      assert Entry(e) in lines && e.artifactKind == Some(e.artifactKind.value)
        && e.objectPath == Some(e.objectPath.value);
    }
    if e: Event, k, p :| Entry(e) in lines && e.artifactKind == Some(k) && e.objectPath == Some(p) {
      var i :| 0 <= i < |lines| && lines[i] == Entry(e);
    }
  }

  /** The run has no lock, its name is known, and one of its lines has both an artifact kind and an object. */
  ghost predicate IsSpare(run: Run) {
    && !run.locked && run.identity.Some?
    && exists e: Event, k, p :: Entry(e) in run.lines && e.artifactKind == Some(k) && e.objectPath == Some(p)
  }

  lemma SpareExactlyWhen(run: Run)
    ensures Prunable(run) <==> IsSpare(run)
  {
    hide HasPromotedArtifact;
    PromotedExactlyWhen(run.lines);
  }

  /** The group of an experiment: the runs of that name that can be spared. */
  lemma GroupExactlyWhen(runs: map<string, Run>, name: string, id: string)
    ensures id in Group(runs, name) <==> id in runs && IsSpare(runs[id]) && runs[id].identity.value.0 == name
  {
    hide HasPromotedArtifact, IsSpare;
    if id in runs {
      SpareExactlyWhen(runs[id]);
      assert IsSpare(runs[id]) ==> runs[id].identity.Some?;
    }
  }

  /** The groups after the directories outside `rest` have been read. */
  ghost predicate Grouped(runs: map<string, Run>, rest: set<string>, groups: map<string, seq<Dated>>) {
    && (forall name :: name in groups ==> Lists(runs, Group(runs, name) - rest, groups[name]))
    && (forall name :: name !in groups ==> Group(runs, name) - rest == {})
  }

  lemma ListsAppend(runs: map<string, Run>, group: set<string>, xs: seq<Dated>, id: string)
    requires Lists(runs, group, xs) && id !in group && id in runs && runs[id].identity.Some?
    ensures Lists(runs, group + {id}, xs + [Dated(runs[id].identity.value.1, id)])
  {
    var after := xs + [Dated(runs[id].identity.value.1, id)];
    MembersStep(after, 0, |xs|);
    assert after[0..|xs|] == xs && after[0..|xs| + 1] == after;
    forall i | 0 <= i < |xs| ensures xs[i].id != id {
      assert xs[i].id in Members(xs);
    }
  }

  lemma NothingListed(runs: map<string, Run>)
    ensures Lists(runs, {}, [])
  {
  }

  lemma GroupedAdds(runs: map<string, Run>, rest: set<string>, groups: map<string, seq<Dated>>, id: string)
    requires Grouped(runs, rest, groups) && id in rest && id in runs && Prunable(runs[id])
    ensures var (name, created) := runs[id].identity.value;
      var before := if name in groups then groups[name] else [];
      Grouped(runs, rest - {id}, groups[name := before + [Dated(created, id)]])
  {
    hide HasPromotedArtifact, Lists;
    var (name, created) := runs[id].identity.value;
    var before := if name in groups then groups[name] else [];
    NothingListed(runs);
    ListsAppend(runs, Group(runs, name) - rest, before, id);
    assert id in Group(runs, name);
    assert Group(runs, name) - (rest - {id}) == Group(runs, name) - rest + {id};
    OtherGroups(runs, rest, id);
  }

  lemma OtherGroups(runs: map<string, Run>, rest: set<string>, id: string)
    requires id in runs
    ensures forall name :: runs[id].identity.None? || !Prunable(runs[id]) || name != runs[id].identity.value.0 ==>
              Group(runs, name) - (rest - {id}) == Group(runs, name) - rest
  {
    hide HasPromotedArtifact;
  }

  lemma GroupedSkips(runs: map<string, Run>, rest: set<string>, groups: map<string, seq<Dated>>, id: string)
    requires Grouped(runs, rest, groups) && id in runs && !Prunable(runs[id])
    ensures Grouped(runs, rest - {id}, groups)
  {
    hide Lists;
    OtherGroups(runs, rest, id);
  }

  /** The runs directory is read in an arbitrary order. */
  method CollectGroups(lab: Project) returns (groups: map<string, seq<Dated>>)
    ensures Grouped(lab.runs, {}, groups)
  {
    hide Grouped, HasPromotedArtifact, Group;
    groups := map[];
    var rest := lab.runs.Keys;
    NothingGrouped(lab.runs);
    while rest != {}
      invariant rest <= lab.runs.Keys && Grouped(lab.runs, rest, groups)
    {
      var id :| id in rest;
      var run := lab.runs[id];
      var promoted := RunHasPromotedArtifact(run.lines);
      if run.locked || !promoted || run.identity.None? {
        GroupedSkips(lab.runs, rest, groups, id);
      } else {
        GroupedAdds(lab.runs, rest, groups, id);
        var (name, created) := run.identity.value;
        groups := groups[name := (if name in groups then groups[name] else []) + [Dated(created, id)]];
      }
      rest := rest - {id};
    }
  }

  lemma NothingGrouped(runs: map<string, Run>)
    ensures Grouped(runs, runs.Keys, map[])
  {
    hide HasPromotedArtifact;
  }

  /** Every group with a name outside `rest` keeps its newest runs, and nothing else has been removed. */
  ghost predicate PrunedOutside(runs: map<string, Run>, rest: set<string>, removed: set<string>, keep: nat) {
    && (forall name :: name !in rest ==> KeepsNewest(runs, Group(runs, name), removed, keep))
    && (forall id :: id in removed ==> id in runs && Prunable(runs[id]) && runs[id].identity.value.0 !in rest)
  }

  lemma SameRemoved(runs: map<string, Run>, group: set<string>, removed: set<string>, other: set<string>, keep: nat)
    requires forall id :: id in group ==> id in runs && runs[id].identity.Some?
    requires group * removed == group * other && KeepsNewest(runs, group, removed, keep)
    ensures KeepsNewest(runs, group, other, keep)
  {
    hide StrLe;
    forall id | id in group ensures id in removed <==> id in other {
      assert id in group * removed <==> id in group * other;
    }
    assert group - removed == group - other;
  }

  lemma GroupsAreDisjoint(runs: map<string, Run>, a: string, b: string)
    requires a != b
    ensures Group(runs, a) * Group(runs, b) == {}
  {
    hide HasPromotedArtifact;
  }

  lemma PrunedMore(runs: map<string, Run>, rest: set<string>, removed: set<string>, keep: nat, name: string,
                   gone: set<string>)
    requires PrunedOutside(runs, rest, removed, keep) && name in rest
    requires gone <= Group(runs, name) && KeepsNewest(runs, Group(runs, name), gone, keep)
    ensures PrunedOutside(runs, rest - {name}, removed + gone, keep)
  {
    hide Prunable, StrLe, KeepsNewest;
    forall n | n !in rest - {name} ensures KeepsNewest(runs, Group(runs, n), removed + gone, keep) {
      var group := Group(runs, n);
      if n == name {
        assert group * (removed + gone) == group * gone;
        SameRemoved(runs, group, gone, removed + gone, keep);
      } else {
        GroupsAreDisjoint(runs, n, name);
        assert group * (removed + gone) == group * removed;
        SameRemoved(runs, group, removed, removed + gone, keep);
      }
    }
  }

  /** Exactly the newest `keep` runs of every experiment stay, as far as runs are prunable at all. */
  method PruneRunsKeepPerExperiment(lab: Project, keep: nat, dryRun: bool) returns (removed: set<string>)
    requires keep < U32
    modifies lab
    ensures lab.View() == if dryRun then old(lab.View()) else RemoveRuns(old(lab.View()), removed)
    ensures keep == 0 ==> removed == {}
    ensures keep != 0 ==> PrunedOutside(old(lab.runs), {}, removed, keep)
    ensures forall id :: id in removed ==> id in old(lab.runs) && IsSpare(old(lab.runs)[id])
  {
    hide Grouped, RemoveRuns, PrunedOutside, Lists, KeepsNewest, Group, IsSpare;
    removed := {};
    RemoveNoRuns(lab.View());
    if keep == 0 {
      return;
    }
    ghost var runs := lab.runs;
    var groups := CollectGroups(lab);
    NothingPruned(runs, groups, keep);
    var rest := groups.Keys;
    while rest != {}
      invariant rest <= groups.Keys
      invariant PrunedOutside(runs, rest, removed, keep)
      invariant lab.View() == if dryRun then old(lab.View()) else RemoveRuns(old(lab.View()), removed)
    {
      var name :| name in rest;
      GroupIsListed(runs, groups, name);
      var gone := PruneGroup(lab, groups[name], keep, dryRun, runs, Group(runs, name));
      PrunedMore(runs, rest, removed, keep, name, gone);
      RemoveRunsTwice(old(lab.View()), removed, gone);
      removed := removed + gone;
      rest := rest - {name};
    }
    PrunedAreSpare(runs, rest, removed, keep);
  }

  /** Only runs that can be spared go, and all their names are known. */
  lemma PrunedAreSpare(runs: map<string, Run>, rest: set<string>, removed: set<string>, keep: nat)
    requires PrunedOutside(runs, rest, removed, keep)
    ensures forall id :: id in removed ==> id in runs && IsSpare(runs[id])
  {
    hide HasPromotedArtifact, IsSpare, KeepsNewest;
    forall id | id in removed ensures id in runs && IsSpare(runs[id]) {
      SpareExactlyWhen(runs[id]);
    }
  }

  lemma GroupIsListed(runs: map<string, Run>, groups: map<string, seq<Dated>>, name: string)
    requires Grouped(runs, {}, groups) && name in groups
    ensures Lists(runs, Group(runs, name), groups[name])
  {
    hide Lists, Group;
    assert Group(runs, name) - {} == Group(runs, name);
  }

  lemma NothingPruned(runs: map<string, Run>, groups: map<string, seq<Dated>>, keep: nat)
    requires Grouped(runs, {}, groups)
    ensures PrunedOutside(runs, groups.Keys, {}, keep)
  {
    hide Lists, HasPromotedArtifact;
    forall name | name !in groups.Keys ensures KeepsNewest(runs, Group(runs, name), {}, keep) {
      assert Group(runs, name) - {} == Group(runs, name);
      assert Group(runs, name) == {};
    }
  }

  lemma RemoveRunsTwice(w: World, a: set<string>, b: set<string>)
    ensures RemoveRuns(RemoveRuns(w, a), b) == RemoveRuns(w, a + b)
  {
    var w1, w2 := RemoveRuns(RemoveRuns(w, a), b), RemoveRuns(w, a + b);
    assert w1.disk.names == w2.disk.names;
    assert w1.disk.dirs == w2.disk.dirs;
    assert w1.runs == w2.runs;
  }

  // ---------------------------------------------------------------- the materialized cache under its cap

  const GIGABYTE: nat := 1024 * 1024 * 1024

  /** An entry of the cache as collected: its modification time and the bytes below it. */
  datatype Cached = Cached(path: Path, modified: int, bytes: nat)

  predicate OlderFirst(a: Cached, b: Cached) { a.modified <= b.modified }

  predicate IsEntryPath(d: Disk, q: Path) {
    q != [] && Parent(q) == MATERIALIZED && d.Exists(q)
  }

  predicate Under(gone: set<Path>, p: Path) { |p| >= 3 && p[..3] in gone }

  function Evict(d: Disk, gone: set<Path>): Disk {
    d.(names := map p | p in d.names && !Under(gone, p) :: d.names[p],
       dirs := set q | q in d.dirs && !Under(gone, q))
  }

  ghost function SizeBelow(d: Disk, root: Path, sizeOf: Content -> nat): nat {
    TotalSize(d, (set p | p in d.names && root <= p), sizeOf)
  }

  ghost function SizeWithout(d: Disk, gone: set<Path>, sizeOf: Content -> nat): nat {
    TotalSize(d, (set p | p in d.names && MATERIALIZED <= p && !Under(gone, p)), sizeOf)
  }

  lemma {:induction false} TotalSizeAdds(d: Disk, a: set<Path>, b: set<Path>, sizeOf: Content -> nat)
    requires a !! b
    ensures TotalSize(d, a + b, sizeOf) == TotalSize(d, a, sizeOf) + TotalSize(d, b, sizeOf)
    decreases |a|
  {
    hide TotalSize;
    NothingHasNoSize(d, sizeOf);
    if a == {} {
      assert a + b == b;
    } else {
      var p :| p in a;
      TotalSizeSplits(d, a, sizeOf, p);
      TotalSizeSplits(d, a + b, sizeOf, p);
      assert a + b - {p} == (a - {p}) + b;
      TotalSizeAdds(d, a - {p}, b, sizeOf);
    }
  }

  lemma {:induction false} TotalSizeSame(d: Disk, d': Disk, ps: set<Path>, sizeOf: Content -> nat)
    requires forall p :: p in ps ==> d'.At(p) == d.At(p)
    ensures TotalSize(d', ps, sizeOf) == TotalSize(d, ps, sizeOf)
    decreases |ps|
  {
    hide TotalSize;
    NothingHasNoSize(d, sizeOf);
    NothingHasNoSize(d', sizeOf);
    if ps != {} {
      var p :| p in ps;
      TotalSizeSplits(d, ps, sizeOf, p);
      TotalSizeSplits(d', ps, sizeOf, p);
      TotalSizeSame(d, d', ps - {p}, sizeOf);
    }
  }

  lemma EntryBelow(q: Path, p: Path)
    requires q != [] && Parent(q) == MATERIALIZED
    ensures |q| == 3 && (q <= p <==> |p| >= 3 && p[..3] == q)
  {
  }

  lemma EvictionFrees(d: Disk, gone: set<Path>, q: Path, sizeOf: Content -> nat)
    requires q != [] && Parent(q) == MATERIALIZED && q !in gone
    ensures SizeWithout(d, gone, sizeOf) == SizeBelow(d, q, sizeOf) + SizeWithout(d, gone + {q}, sizeOf)
  {
    hide TotalSize;
    var a := set p | p in d.names && q <= p;
    var b := set p | p in d.names && MATERIALIZED <= p && !Under(gone + {q}, p);
    var c := set p | p in d.names && MATERIALIZED <= p && !Under(gone, p);
    forall p ensures p in c <==> p in a || p in b {
      EntryBelow(q, p);
      assert p[..if |p| >= 2 then 2 else 0] == MATERIALIZED || !(q <= p);
    }
    forall p ensures !(p in a && p in b) { EntryBelow(q, p); }
    assert c == a + b;
    TotalSizeAdds(d, a, b, sizeOf);
  }

  lemma AllEvicted(d: Disk, gone: set<Path>, sizeOf: Content -> nat)
    requires d.WellFormed() && MATERIALIZED in d.dirs
    requires forall q :: IsEntryPath(d, q) ==> q in gone
    ensures SizeWithout(d, gone, sizeOf) == 0
  {
    var left := set p | p in d.names && MATERIALIZED <= p && !Under(gone, p);
    forall p | p in d.names && MATERIALIZED <= p ensures Under(gone, p) {
      FileIsNoDir(d, p);
      assert |p| == 2 ==> p == MATERIALIZED;
      var q := p[..3];
      if q != p { ParentsAreDirs(d, q, p); }
      assert Parent(q) == MATERIALIZED;
      assert IsEntryPath(d, q);
    }
    assert left == {};
    NothingHasNoSize(d, sizeOf);
  }

  lemma EvictOne(d: Disk, gone: set<Path>, q: Path)
    requires q != [] && Parent(q) == MATERIALIZED
    ensures RemoveAll(Evict(d, gone), q) == Evict(d, gone + {q})
  {
    forall p ensures Under(gone + {q}, p) <==> Under(gone, p) || q <= p {
      EntryBelow(q, p);
    }
    assert RemoveAll(Evict(d, gone), q).names == Evict(d, gone + {q}).names;
    assert RemoveAll(Evict(d, gone), q).dirs == Evict(d, gone + {q}).dirs;
  }

  lemma EvictNothing(d: Disk)
    ensures Evict(d, {}) == d
  {
    assert Evict(d, {}).names == d.names && Evict(d, {}).dirs == d.dirs;
  }

  lemma SizeAfterEviction(d: Disk, gone: set<Path>, sizeOf: Content -> nat)
    ensures SizeWithout(Evict(d, gone), {}, sizeOf) == SizeWithout(d, gone, sizeOf)
  {
    var d' := Evict(d, gone);
    var ps := set p | p in d.names && MATERIALIZED <= p && !Under(gone, p);
    assert ps == set p | p in d'.names && MATERIALIZED <= p && !Under({}, p);
    TotalSizeSame(d, d', ps, sizeOf);
  }

  /** `read_dir`, in whatever order. */
  method ListEntries(lab: Project) returns (paths: seq<Path>)
    ensures Distinct(paths) && forall q :: q in paths <==> IsEntryPath(lab.OnDisk(), q)
  {
    var rest := (set q | q in lab.dirs && q != [] && Parent(q) == MATERIALIZED)
              + (set q | q in lab.names && q != [] && Parent(q) == MATERIALIZED);
    paths := [];
    while rest != {}
      invariant forall q :: q in rest || q in paths <==> IsEntryPath(lab.OnDisk(), q)
      invariant forall q :: q in paths ==> q !in rest
      invariant Distinct(paths)
    {
      var q :| q in rest;
      paths := paths + [q];
      rest := rest - {q};
    }
  }

  method InspectTree(lab: Project, root: Path, sizeOf: Content -> nat) returns (bytes: nat)
    ensures bytes == SizeBelow(lab.OnDisk(), root, sizeOf)
  {
    hide TotalSize;
    var files := set p | p in lab.names && root <= p;
    ghost var all := files;
    var total := 0;
    while files != {}
      invariant 0 <= total && total + TotalSize(lab.OnDisk(), files, sizeOf) == TotalSize(lab.OnDisk(), all, sizeOf)
    {
      var p :| p in files;
      var size := SizeOnDisk(lab, p, sizeOf);
      TotalSizeSplits(lab.OnDisk(), files, sizeOf, p);
      total := total + size;
      files := files - {p};
    }
    NothingHasNoSize(lab.OnDisk(), sizeOf);
    bytes := total;
  }

  ghost predicate Collected(d: Disk, modified: Path -> int, sizeOf: Content -> nat, entries: seq<Cached>) {
    && (forall i, j :: 0 <= i < j < |entries| ==> entries[i].path != entries[j].path)
    && (forall i :: 0 <= i < |entries| ==>
          && IsEntryPath(d, entries[i].path) && entries[i].modified == modified(entries[i].path)
          && entries[i].bytes == SizeBelow(d, entries[i].path, sizeOf))
    && (forall q :: IsEntryPath(d, q) ==> exists i :: 0 <= i < |entries| && entries[i].path == q)
  }

  function Paths(entries: seq<Cached>): set<Path> {
    set i | 0 <= i < |entries| :: entries[i].path
  }

  lemma PathsGrow(entries: seq<Cached>, i: nat)
    requires i < |entries|
    ensures Paths(entries[..i + 1]) == Paths(entries[..i]) + {entries[i].path}
    ensures (forall k :: 0 <= k < i ==> entries[k].path != entries[i].path) ==> entries[i].path !in Paths(entries[..i])
  {
    var a, b := Paths(entries[..i + 1]), Paths(entries[..i]);
    forall q ensures q in a <==> q in b || q == entries[i].path {
      if q in b {
        var k :| 0 <= k < i && entries[..i][k].path == q;
        assert entries[..i + 1][k].path == q;
      }
      if q in a {
        var k :| 0 <= k < i + 1 && entries[..i + 1][k].path == q;
        assert k < i ==> entries[..i][k].path == q;
      }
      assert entries[..i + 1][i].path == entries[i].path;
    }
  }

  method CollectCached(lab: Project, modified: Path -> int, sizeOf: Content -> nat)
    returns (entries: seq<Cached>, total: nat)
    requires lab.OnDisk().WellFormed() && MATERIALIZED in lab.dirs
    ensures Collected(lab.OnDisk(), modified, sizeOf, entries)
    ensures total == SizeWithout(lab.OnDisk(), {}, sizeOf)
  {
    hide SizeBelow, SizeWithout, FileSystem.Disk.WellFormed, IsEntryPath;
    var paths := ListEntries(lab);
    entries := [];
    assert Paths([]) == {};
    var sum := 0;
    var i := 0;
    while i < |paths|
      invariant 0 <= i == |entries| <= |paths| && 0 <= sum
      invariant forall k :: 0 <= k < i ==> entries[k].path == paths[k]
      invariant forall k :: 0 <= k < i ==>
        entries[k].modified == modified(paths[k]) && entries[k].bytes == SizeBelow(lab.OnDisk(), paths[k], sizeOf)
      invariant sum + SizeWithout(lab.OnDisk(), Paths(entries), sizeOf) == SizeWithout(lab.OnDisk(), {}, sizeOf)
    {
      assert paths[i] in paths;
      EntryHasParent(lab.OnDisk(), paths[i]);
      var bytes := InspectTree(lab, paths[i], sizeOf);
      ghost var before := entries;
      entries := entries + [Cached(paths[i], modified(paths[i]), bytes)];
      assert entries[..i] == before && entries[..i + 1] == entries;
      PathsGrow(entries, i);
      EvictionFrees(lab.OnDisk(), Paths(before), paths[i], sizeOf);
      sum := sum + bytes;
      i := i + 1;
    }
    forall q | IsEntryPath(lab.OnDisk(), q) ensures exists k :: 0 <= k < |entries| && entries[k].path == q {
      var k :| 0 <= k < |paths| && paths[k] == q;
      assert entries[k].path == q;
    }
    forall k | 0 <= k < |entries| ensures IsEntryPath(lab.OnDisk(), entries[k].path) {
      assert paths[k] in paths;
    }
    forall q | IsEntryPath(lab.OnDisk(), q) ensures q in Paths(entries) {
    }
    AllEvicted(lab.OnDisk(), Paths(entries), sizeOf);
    total := sum;
  }

  lemma EntryHasParent(d: Disk, q: Path)
    requires IsEntryPath(d, q)
    ensures q != [] && Parent(q) == MATERIALIZED
  {
  }

  lemma SortedCache(d: Disk, modified: Path -> int, sizeOf: Content -> nat, entries: seq<Cached>)
    requires Collected(d, modified, sizeOf, entries)
    ensures var s := StableSort(entries, OlderFirst); Sorted(s, OlderFirst) && Collected(d, modified, sizeOf, s)
  {
    hide IsEntryPath, SizeBelow;
    StableSortSorts(entries, OlderFirst);
    var s := StableSort(entries, OlderFirst);
    forall x ensures x in s <==> x in entries {
      assert x in s <==> x in multiset(s);
      assert x in entries <==> x in multiset(entries);
    }
    SortStaysDistinct(entries, s);
    forall i, j | 0 <= i < j < |s| ensures s[i].path != s[j].path {
      assert s[i] in entries && s[j] in entries;
    }
    forall i | 0 <= i < |s| ensures s[i].modified == modified(s[i].path)
        && IsEntryPath(d, s[i].path) && s[i].bytes == SizeBelow(d, s[i].path, sizeOf)
    {
      assert s[i] in entries;
    }
    forall q | IsEntryPath(d, q) ensures exists i :: 0 <= i < |s| && s[i].path == q {
      var k :| 0 <= k < |entries| && entries[k].path == q;
      assert entries[k] in s;
    }
  }

  /** What is left fits under `cap`, only the oldest entries went, and no fewer would have done. */
  ghost predicate CapKept(d: Disk, gone: set<Path>, cap: nat, modified: Path -> int, sizeOf: Content -> nat) {
    && (forall q :: q in gone ==> IsEntryPath(d, q))
    && SizeWithout(d, gone, sizeOf) <= cap
    && (forall a, b :: IsEntryPath(d, a) && a !in gone && b in gone ==> modified(b) <= modified(a))
    && (gone != {} ==> exists last :: last in gone && SizeWithout(d, gone - {last}, sizeOf) > cap
                         && forall b :: b in gone ==> modified(b) <= modified(last))
  }

  /** The first `n` of the entries, oldest first, have been evicted and the cap was not met before the last. */
  ghost predicate Evicting(d: Disk, s: seq<Cached>, n: nat, cap: nat, sizeOf: Content -> nat)
    requires n <= |s|
  {
    0 < n ==> SizeWithout(d, Paths(s[..n - 1]), sizeOf) > cap
  }

  lemma InPrefix(s: seq<Cached>, n: nat, q: Path)
    requires n <= |s|
    ensures q in Paths(s[..n]) <==> exists j :: 0 <= j < n && s[j].path == q
  {
    if j :| 0 <= j < n && s[j].path == q {
      assert s[..n][j].path == q;
    }
  }

  lemma OldestWent(s: seq<Cached>, n: nat, i: nat, b: Path)
    requires n <= i < |s| && Sorted(s, OlderFirst) && b in Paths(s[..n])
    ensures exists j :: 0 <= j < n && s[j].path == b && s[j].modified <= s[i].modified
  {
    InPrefix(s, n, b);
    var j :| 0 <= j < n && s[j].path == b;
    assert OlderFirst(s[j], s[i]);
  }

  lemma LastIsNewest(d: Disk, s: seq<Cached>, n: nat, modified: Path -> int, sizeOf: Content -> nat)
    requires 0 < n <= |s| && Collected(d, modified, sizeOf, s) && Sorted(s, OlderFirst)
    ensures var last := s[n - 1].path;
      && last in Paths(s[..n]) && Paths(s[..n]) - {last} == Paths(s[..n - 1])
      && forall b :: b in Paths(s[..n]) ==> modified(b) <= modified(last)
  {
    hide SizeBelow, IsEntryPath;
    PathsGrow(s, n - 1);
    var last := s[n - 1].path;
    forall b | b in Paths(s[..n]) ensures modified(b) <= modified(last) {
      if b in Paths(s[..n - 1]) {
        OldestWent(s, n - 1, n - 1, b);
      }
    }
  }

  lemma EvictedEnough(d: Disk, s: seq<Cached>, n: nat, cap: nat, modified: Path -> int, sizeOf: Content -> nat)
    requires n <= |s| && Collected(d, modified, sizeOf, s) && Sorted(s, OlderFirst) && Evicting(d, s, n, cap, sizeOf)
    requires SizeWithout(d, Paths(s[..n]), sizeOf) <= cap
    ensures CapKept(d, Paths(s[..n]), cap, modified, sizeOf)
  {
    hide SizeWithout, SizeBelow, IsEntryPath, Paths, Sorted;
    var gone := Paths(s[..n]);
    forall b | b in gone ensures IsEntryPath(d, b) { InPrefix(s, n, b); }
    forall a, b | IsEntryPath(d, a) && a !in gone && b in gone ensures modified(b) <= modified(a) {
      var i :| 0 <= i < |s| && s[i].path == a;
      InPrefix(s, n, a);
      OldestWent(s, n, i, b);
    }
    if 0 < n {
      LastIsNewest(d, s, n, modified, sizeOf);
    } else {
      NoPaths(s);
    }
  }

  lemma NoPaths(s: seq<Cached>)
    ensures Paths(s[..0]) == {}
  {
  }

  method EvictOldest(lab: Project, s: seq<Cached>, size: nat, cap: nat, dryRun: bool,
                     ghost modified: Path -> int, ghost sizeOf: Content -> nat)
    returns (r: Result<()>, gone: set<Path>)
    requires lab.OnDisk().WellFormed() && MATERIALIZED in lab.dirs
    requires Collected(lab.OnDisk(), modified, sizeOf, s) && Sorted(s, OlderFirst)
    requires size == SizeWithout(lab.OnDisk(), {}, sizeOf)
    modifies lab
    ensures lab.View() == if dryRun then old(lab.View()) else old(lab.View()).(disk := Evict(old(lab.OnDisk()), gone))
    ensures forall q :: q in gone ==> IsEntryPath(old(lab.OnDisk()), q)
    ensures r.Ok? ==> CapKept(old(lab.OnDisk()), gone, cap, modified, sizeOf)
    ensures r.Err? ==> !dryRun && exists q :: q in old(lab.names) && IsEntryPath(old(lab.OnDisk()), q)
  {
    hide SizeWithout, SizeBelow, FileSystem.Disk.WellFormed, Evict;
    ghost var d := lab.OnDisk();
    var total := size;
    gone := {};
    EvictNothing(d);
    var i := 0;
    assert s[..0] == [];
    while i < |s| && total > cap
      invariant 0 <= i <= |s|
      invariant gone == Paths(s[..i]) && total == SizeWithout(d, gone, sizeOf)
      invariant Evicting(d, s, i, cap, sizeOf)
      invariant forall q :: q in gone ==> IsEntryPath(d, q)
      invariant lab.View() == if dryRun then old(lab.View()) else old(lab.View()).(disk := Evict(d, gone))
    {
      var q := s[i].path;
      PathsGrow(s, i);
      EntryHasParent(d, q);
      EvictionFrees(d, gone, q, sizeOf);
      EvictOne(d, gone, q);
      if !dryRun {
        if q !in lab.dirs {
          StillAnEntry(d, gone, q);
          return Err(Io), gone;
        }
        lab.RemoveTree(q);
      }
      total := if total < s[i].bytes then 0 else total - s[i].bytes;
      gone := gone + {q};
      i := i + 1;
    }
    if i == |s| {
      assert s[..i] == s;
      forall q | IsEntryPath(d, q) ensures q in gone {
        var k :| 0 <= k < |s| && s[k].path == q;
      }
      AllEvicted(d, gone, sizeOf);
    }
    EvictedEnough(d, s, i, cap, modified, sizeOf);
    r := Ok(());
  }

  lemma StillAnEntry(d: Disk, gone: set<Path>, q: Path)
    requires IsEntryPath(d, q) && q !in gone && q !in Evict(d, gone).dirs
    ensures q in d.names
  {
    assert |q| == 3 && q[..3] == q;
  }

  /** A cap of zero gigabytes is no cap. Only an entry that is no directory makes it fail. */
  method EnforceMaterializedCap(lab: Project, maxGb: nat, dryRun: bool, modified: Path -> int, sizeOf: Content -> nat)
    returns (r: Result<()>, gone: set<Path>)
    requires lab.OnDisk().WellFormed() && maxGb < U32
    modifies lab
    ensures lab.View() == if dryRun then old(lab.View()) else old(lab.View()).(disk := Evict(old(lab.OnDisk()), gone))
    ensures maxGb == 0 ==> r.Ok? && gone == {}
    ensures forall q :: q in gone ==> IsEntryPath(old(lab.OnDisk()), q)
    ensures r.Ok? && maxGb != 0 ==> CapKept(old(lab.OnDisk()), gone, maxGb * GIGABYTE, modified, sizeOf)
    ensures r.Err? ==> MATERIALIZED in old(lab.names) ||
                       (!dryRun && exists q :: q in old(lab.names) && IsEntryPath(old(lab.OnDisk()), q))
  {
    hide SizeWithout, FileSystem.Disk.WellFormed, Evict, StableSort;
    gone := {};
    EvictNothing(lab.OnDisk());
    if maxGb == 0 {
      return Ok(()), gone;
    }
    if MATERIALIZED !in lab.dirs {
      if MATERIALIZED in lab.names {
        return Err(Io), gone;
      }
      NoCache(lab.OnDisk(), sizeOf);
      return Ok(()), gone;
    }
    var cap := maxGb * GIGABYTE;
    var entries, total := CollectCached(lab, modified, sizeOf);
    SortedCache(lab.OnDisk(), modified, sizeOf, entries);
    r, gone := EvictOldest(lab, StableSort(entries, OlderFirst), total, cap, dryRun, modified, sizeOf);
  }

  lemma NoCache(d: Disk, sizeOf: Content -> nat)
    requires d.WellFormed() && MATERIALIZED !in d.dirs && MATERIALIZED !in d.names
    ensures SizeWithout(d, {}, sizeOf) == 0
  {
    var left := set p | p in d.names && MATERIALIZED <= p && !Under({}, p);
    forall p | MATERIALIZED <= p ensures p !in d.names {
      EmptyAround(d, MATERIALIZED, p);
    }
    assert left == {};
    NothingHasNoSize(d, sizeOf);
  }

  /** The cache measured after evicting is what the bookkeeping said would be left. */
  lemma EvictionMeetsCap(d: Disk, gone: set<Path>, cap: nat, modified: Path -> int, sizeOf: Content -> nat)
    requires CapKept(d, gone, cap, modified, sizeOf)
    ensures SizeBelow(Evict(d, gone), MATERIALIZED, sizeOf) <= cap
  {
    SizeAfterEviction(d, gone, sizeOf);
    var d' := Evict(d, gone);
    assert (set p | p in d'.names && MATERIALIZED <= p) == set p | p in d'.names && MATERIALIZED <= p && !Under({}, p);
  }
}
