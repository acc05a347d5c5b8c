/** `query_run_records`: runs whose target matches a pattern and whose seed is the one asked for. */
module Query {
  import opened Wrappers
  import opened Order
  import opened Documents
  import opened Glob

  datatype RunRecord = RunRecord(runId: string, manifest: map<string, Json>, params: map<string, Json>)

  /** `as_str().unwrap_or_default()` of a field. */
  function TextField(fields: map<string, Json>, key: string): string {
    if key in fields && fields[key].Str? then fields[key].chars else ""
  }

  function TargetName(r: RunRecord): string {
    if "target" !in r.manifest then TextField(r.manifest, "operation") + ":" + TextField(r.manifest, "name")
    else
      match r.manifest["target"]
      case Obj(target) => TextField(target, "kind") + ":" + TextField(target, "name")
      case Str(s) => s
      case _ => ""
  }

  /** The manifest's seed, if it has the key at all, else the parameters'; `asInt` reads a JSON number. */
  predicate SeedMatches(r: RunRecord, seed: Option<int>, asInt: string -> Option<int>) {
    seed.None? ||
    var value := if "seed" in r.manifest then r.manifest["seed"]
                 else if "seed" in r.params then r.params["seed"] else Null;
    value.Number? && asInt(value.text) == seed
  }

  ghost predicate Asked(r: RunRecord, target: Option<string>, seed: Option<int>, asInt: string -> Option<int>) {
    && (target.None? || Matches(Utf8(target.value), Utf8(TargetName(r))))
    && SeedMatches(r, seed, asInt)
  }

  predicate ById(a: RunRecord, b: RunRecord) { StrLe(a.runId, b.runId) }

  lemma ByIdIsPreorder()
    ensures IsPreorder(ById)
  {
    forall a, b ensures ById(a, b) || ById(b, a) { StrLeCompares(a.runId, b.runId); }
    forall a, b, c | ById(a, b) && ById(b, c) ensures ById(a, c) { StrLeChains(a.runId, b.runId, c.runId); }
  }

  /** `kept` are the asked records among `records`, in the same order. */
  ghost predicate IsSelection(records: seq<RunRecord>, kept: seq<RunRecord>, places: seq<nat>,
                              target: Option<string>, seed: Option<int>, asInt: string -> Option<int>) {
    && |places| == |kept|
    && (forall i, j :: 0 <= i < j < |places| ==> places[i] < places[j])
    && (forall i :: 0 <= i < |places| ==> places[i] < |records| && kept[i] == records[places[i]])
    && (forall k :: 0 <= k < |records| ==> (k in places <==> Asked(records[k], target, seed, asInt)))
  }

  /** Exactly the records that are asked for, each once, in the order of their ids. */
  method QueryRunRecords(found: seq<RunRecord>, target: Option<string>, seed: Option<int>, asInt: string -> Option<int>)
    returns (kept: seq<RunRecord>, ghost places: seq<nat>)
    ensures IsSelection(StableSort(found, ById), kept, places, target, seed, asInt)
    ensures Sorted(kept, ById)
  {
    hide Matches, Utf8, TargetName, SeedMatches, StableSort, Sorted, IsSelection;
    var records := StableSort(found, ById);
    ByIdIsPreorder();
    StableSortSorts(found, ById);
    kept, places := [], [];
    NothingSelected(target, seed, asInt);
    assert records[..0] == [];
    var i := 0;
    while i < |records|
      invariant 0 <= i <= |records|
      invariant IsSelection(records[..i], kept, places, target, seed, asInt)
    {
      var wanted := SeedMatches(records[i], seed, asInt);
      if target.Some? {
        var matched := GlobMatch(target.value, TargetName(records[i]));
        wanted := wanted && matched;
      }
      if wanted {
        SelectOne(records, i, kept, places, target, seed, asInt);
        kept := kept + [records[i]];
        places := places + [i];
      } else {
        SkipOne(records, i, kept, places, target, seed, asInt);
      }
      i := i + 1;
    }
    assert records[..i] == records;
    SelectionIsSorted(records, kept, places, target, seed, asInt);
  }

  lemma NothingSelected(target: Option<string>, seed: Option<int>, asInt: string -> Option<int>)
    ensures IsSelection([], [], [], target, seed, asInt)
  {
  }

  lemma SelectOne(records: seq<RunRecord>, i: nat, kept: seq<RunRecord>, places: seq<nat>,
                  target: Option<string>, seed: Option<int>, asInt: string -> Option<int>)
    requires i < |records| && IsSelection(records[..i], kept, places, target, seed, asInt)
    requires Asked(records[i], target, seed, asInt)
    ensures IsSelection(records[..i + 1], kept + [records[i]], places + [i], target, seed, asInt)
  {
    hide Asked;
    forall k | 0 <= k < i + 1 ensures k in places + [i] <==> Asked(records[..i + 1][k], target, seed, asInt) {
      if k < i {
        assert records[..i + 1][k] == records[..i][k];
      }
    }
  }

  lemma SkipOne(records: seq<RunRecord>, i: nat, kept: seq<RunRecord>, places: seq<nat>,
                target: Option<string>, seed: Option<int>, asInt: string -> Option<int>)
    requires i < |records| && IsSelection(records[..i], kept, places, target, seed, asInt)
    requires !Asked(records[i], target, seed, asInt)
    ensures IsSelection(records[..i + 1], kept, places, target, seed, asInt)
  {
    hide Asked;
    forall k | 0 <= k < i + 1 ensures k in places <==> Asked(records[..i + 1][k], target, seed, asInt) {
      if k < i {
        assert records[..i + 1][k] == records[..i][k];
      }
    }
  }

  lemma SelectionIsSorted(records: seq<RunRecord>, kept: seq<RunRecord>, places: seq<nat>,
                          target: Option<string>, seed: Option<int>, asInt: string -> Option<int>)
    requires IsSelection(records, kept, places, target, seed, asInt) && Sorted(records, ById)
    ensures Sorted(kept, ById)
  {
    hide Asked, StrLe;
  }

  /** A run's target is written `kind:name`; runs without a target have `operation:name`, and a target that is a text
      is taken as it is. */
  lemma TargetIsKindAndName(r: RunRecord, kind: string, name: string)
    ensures (&& Get(Obj(r.manifest), ["target", "kind"]) == Some(Str(kind))
             && Get(Obj(r.manifest), ["target", "name"]) == Some(Str(name))) ==> TargetName(r) == kind + ":" + name
    ensures (&& "target" !in r.manifest && Get(Obj(r.manifest), ["operation"]) == Some(Str(kind))
             && Get(Obj(r.manifest), ["name"]) == Some(Str(name))) ==> TargetName(r) == kind + ":" + name
    ensures Get(Obj(r.manifest), ["target"]) == Some(Str(name)) ==> TargetName(r) == name
  {
    var m := Obj(r.manifest);
    assert ["target", "kind"] == ["target"] + ["kind"] && ["target", "name"] == ["target"] + ["name"];
    GetStep(m, "target", ["kind"]);
    GetStep(m, "target", ["name"]);
    forall key ensures Get(m, [key]) == if key in r.manifest then Some(r.manifest[key]) else None {
      GetStep(m, key, []);
      assert [key] + [] == [key];
    }
    if "target" in r.manifest {
      GetStep(r.manifest["target"], "kind", []);
      GetStep(r.manifest["target"], "name", []);
      assert ["kind"] + [] == ["kind"] && ["name"] + [] == ["name"];
    }
  }

  /** With a target and a seed asked for, without wildcards in the target, a run is selected exactly when its target is
      that one and its manifest's seed is that number, or, when the manifest has no seed, its parameters' seed is. */
  lemma AskedExactlyWhen(r: RunRecord, target: string, seed: int, asInt: string -> Option<int>)
    requires STAR !in Utf8(target) && QUESTION !in Utf8(target)
    ensures Asked(r, Some(target), Some(seed), asInt) <==>
      (&& Utf8(TargetName(r)) == Utf8(target)
       && exists n ::
            && asInt(n) == Some(seed)
            && (Get(Obj(r.manifest), ["seed"]) == Some(Number(n))
                || (Get(Obj(r.manifest), ["seed"]) == None && Get(Obj(r.params), ["seed"]) == Some(Number(n)))))
  {
    hide TargetName, Utf8, Matches;
    LiteralMatchesItself(Utf8(target), Utf8(TargetName(r)));
    GetStep(Obj(r.manifest), "seed", []);
    GetStep(Obj(r.params), "seed", []);
    assert ["seed"] + [] == ["seed"];
    if SeedMatches(r, Some(seed), asInt) {
      var v := if "seed" in r.manifest then r.manifest["seed"] else r.params["seed"];
      assert v == Number(v.text) && asInt(v.text) == Some(seed);
    }
  }
}
