/** Deep merge of two documents, and their structural diff. */
module Merging {
  import opened Wrappers
  import opened Documents

  // ---------------------------------------------------------------- merge

  function Merge(base: Json, over: Json): Json
    decreases over
  {
    if !(base.Obj? && over.Obj?) then over
    else Obj(map k | k in base.fields.Keys + over.fields.Keys ::
               if k !in over.fields then base.fields[k]
               else Merge(if k in base.fields then base.fields[k] else Null, over.fields[k]))
  }

  function Field(fields: map<string, Json>, k: string): Json {
    if k in fields then fields[k] else Null
  }

  lemma MergeField(base: Json, over: Json, k: string)
    requires base.Obj? && over.Obj?
    ensures Merge(base, over).Obj?
    ensures k in Merge(base, over).fields <==> k in base.fields || k in over.fields
    ensures k in over.fields ==> Merge(base, over).fields[k] == Merge(Field(base.fields, k), over.fields[k])
    ensures k in base.fields && k !in over.fields ==> Merge(base, over).fields[k] == base.fields[k]
  {
  }

  /** The fields after the overrides outside `rest` have been merged in. */
  ghost predicate MergedSoFar(base: map<string, Json>, over: map<string, Json>, rest: set<string>, now: map<string,
                              Json>) {
    && now.Keys == base.Keys + (over.Keys - rest)
    && forall k :: k in now ==>
         now[k] == if k in over && k !in rest then Merge(Field(base, k), over[k]) else base[k]
  }

  method MergeDocuments(base: Json, over: Json) returns (merged: Json)
    ensures merged == Merge(base, over)
    decreases over
  {
    if !(base.Obj? && over.Obj?) {
      return over;
    }
    var fields := base.fields;
    var rest := over.fields.Keys;
    while rest != {}
      invariant rest <= over.fields.Keys
      invariant MergedSoFar(base.fields, over.fields, rest, fields)
    {
      var key :| key in rest;
      var previous := if key in fields then fields[key] else Null;
      fields := fields - {key};
      var value := MergeDocuments(previous, over.fields[key]);
      fields := fields[key := value];
      rest := rest - {key};
    }
    merged := Obj(fields);
    assert fields == Merge(base, over).fields;
  }

  /** Merging the same override again changes nothing. */
  lemma {:induction false} MergeAbsorbs(a: Json, b: Json)
    ensures Merge(Merge(a, b), b) == Merge(a, b)
    decreases b
  {
    if b.Obj? {
      var once := if a.Obj? then a else b;
      var m := Merge(a, b);
      forall k ensures (k in Merge(m, b).fields <==> k in m.fields)
                    && (k in m.fields ==> Merge(m, b).fields[k] == m.fields[k]) {
        MergeField(m, b, k);
        if a.Obj? {
          MergeField(a, b, k);
          if k in b.fields {
            MergeAbsorbs(Field(a.fields, k), b.fields[k]);
          }
        } else if k in b.fields {
          MergeWithItself(b.fields[k]);
        }
      }
      assert Merge(m, b).fields == m.fields;
    }
  }

  lemma {:induction false} MergeWithItself(b: Json)
    ensures Merge(b, b) == b
    decreases b
  {
    if b.Obj? {
      forall k | k in b.fields ensures Merge(b, b).fields[k] == b.fields[k] {
        MergeField(b, b, k);
        MergeWithItself(b.fields[k]);
      }
      assert Merge(b, b).fields == b.fields;
    }
  }

  /** An override's leaf, or list, wins at its path. */
  lemma {:induction false} OverrideLeafWins(a: Json, b: Json, p: Keys)
    requires Get(b, p).Some? && !Get(b, p).value.Obj?
    ensures Get(Merge(a, b), p) == Get(b, p)
    decreases |p|
  {
    if p != [] && a.Obj? {
      MergeField(a, b, p[0]);
      OverrideLeafWins(Field(a.fields, p[0]), b.fields[p[0]], p[1..]);
    }
  }

  /** The override says something at `p`, or has put something that is no mapping above it. */
  predicate Reaches(b: Json, p: Keys)
    decreases |p|
  {
    if p == [] || !b.Obj? then true
    else p[0] in b.fields && Reaches(b.fields[p[0]], p[1..])
  }

  /** What the override does not reach stays as in the base: the same value, or nothing. */
  lemma {:induction false} UnreachedBaseSurvives(a: Json, b: Json, p: Keys)
    requires !Reaches(b, p)
    ensures Get(Merge(a, b), p) == Get(a, p)
    decreases |p|
  {
    if a.Obj? {
      MergeField(a, b, p[0]);
      if p[0] in b.fields {
        UnreachedBaseSurvives(Field(a.fields, p[0]), b.fields[p[0]], p[1..]);
      }
    } else {
      NothingUnreached(b, p);
    }
  }

  lemma {:induction false} NothingUnreached(b: Json, p: Keys)
    requires !Reaches(b, p)
    ensures Get(b, p) == None
    decreases |p|
  {
    if p[0] in b.fields {
      NothingUnreached(b.fields[p[0]], p[1..]);
    }
  }

  /** Where both have a mapping, the result has a mapping with the keys of both. */
  lemma {:induction false} MappingsJoin(a: Json, b: Json, p: Keys)
    requires IsMapping(a, p) && IsMapping(b, p)
    ensures IsMapping(Merge(a, b), p)
    ensures Get(Merge(a, b), p).value.fields.Keys == Get(a, p).value.fields.Keys + Get(b, p).value.fields.Keys
    decreases |p|
  {
    if p != [] {
      MergeField(a, b, p[0]);
      MappingsJoin(a.fields[p[0]], b.fields[p[0]], p[1..]);
    }
  }

  // ---------------------------------------------------------------- diff

  function Changed(before: Json, after: Json): Json {
    Obj(map["before" := before, "after" := after])
  }

  function DiffField(left: Json, right: Json, k: string): Json
    requires left.Obj? && right.Obj?
    decreases left, right, 0
  {
    if k in left.fields && k in right.fields then Diff(left.fields[k], right.fields[k])
    else if k in left.fields then Changed(left.fields[k], Null)
    else if k in right.fields then Changed(Null, right.fields[k])
    else Null
  }

  function Diff(left: Json, right: Json): Json
    decreases left, right, 1
  {
    if left.Obj? && right.Obj? then
      var fields := map k | k in left.fields.Keys + right.fields.Keys && DiffField(left, right, k) != Null
                      :: DiffField(left, right, k);
      if fields == map[] then Null else Obj(fields)
    else if left == right then Null
    else Changed(left, right)
  }

  /** The fields whose keys lie outside `rest` have been compared. */
  ghost predicate DiffedSoFar(left: Json, right: Json, rest: set<string>, result: map<string, Json>)
    requires left.Obj? && right.Obj?
  {
    forall k ::
      && (k in result <==> k in left.fields.Keys + right.fields.Keys && k !in rest && DiffField(left, right, k) != Null)
      && (k in result ==> result[k] == DiffField(left, right, k))
  }

  method DiffDocuments(left: Json, right: Json) returns (d: Json)
    ensures d == Diff(left, right)
    decreases left, right
  {
    if !(left.Obj? && right.Obj?) {
      return if left == right then Null else Changed(left, right);
    }
    var result: map<string, Json> := map[];
    var rest := left.fields.Keys + right.fields.Keys;
    while rest != {}
      invariant rest <= left.fields.Keys + right.fields.Keys
      invariant DiffedSoFar(left, right, rest, result)
    {
      var k :| k in rest;
      var difference: Json;
      if k in left.fields && k in right.fields {
        difference := DiffDocuments(left.fields[k], right.fields[k]);
      } else if k in left.fields {
        difference := Changed(left.fields[k], Null);
      } else {
        difference := Changed(Null, right.fields[k]);
      }
      if difference != Null {
        result := result[k := difference];
      }
      rest := rest - {k};
    }
    ghost var fields := map k | k in left.fields.Keys + right.fields.Keys && DiffField(left, right, k) != Null
                          :: DiffField(left, right, k);
    assert result == fields;
    d := if result == map[] then Null else Obj(result);
  }

  lemma DiffHasField(left: Json, right: Json, k: string)
    requires left.Obj? && right.Obj?
    ensures Diff(left, right).Obj? || Diff(left, right).Null?
    ensures DiffField(left, right, k) != Null ==>
              Diff(left, right).Obj? && k in Diff(left, right).fields
              && Diff(left, right).fields[k] == DiffField(left, right, k)
    ensures DiffField(left, right, k) == Null ==> Diff(left, right).Obj? ==> k !in Diff(left, right).fields
  {
    var fields := map x | x in left.fields.Keys + right.fields.Keys && DiffField(left, right, x) != Null
                    :: DiffField(left, right, x);
    if DiffField(left, right, k) != Null {
      assert k in fields;
    }
  }

  /** Two documents have no difference exactly when they are equal. */
  lemma {:induction false} DiffIsNullExactlyWhenEqual(left: Json, right: Json)
    ensures Diff(left, right) == Null <==> left == right
    decreases left
  {
    if left.Obj? && right.Obj? {
      forall k ensures DiffField(left, right, k) == Null <==> Get(left, [k]) == Get(right, [k]) {
        GetStep(left, k, []);
        GetStep(right, k, []);
        if k in left.fields && k in right.fields {
          DiffIsNullExactlyWhenEqual(left.fields[k], right.fields[k]);
        }
      }
      if Diff(left, right) == Null {
        forall k ensures (k in left.fields <==> k in right.fields)
                      && (k in left.fields ==> left.fields[k] == right.fields[k]) {
          DiffHasField(left, right, k);
          GetStep(left, k, []);
          GetStep(right, k, []);
          assert [k] + [] == [k] && Get(left, [k]) == Get(right, [k]);
          assert k in left.fields ==> Get(left, [k]) == Some(left.fields[k]);
          assert k in right.fields ==> Get(right, [k]) == Some(right.fields[k]);
        }
        assert left.fields == right.fields;
      } else {
        var k :| k in Diff(left, right).fields;
        DiffHasField(left, right, k);
      }
    }
  }

  /** Below a mapping that both documents have, the diff has an entry for exactly the keys that differ. */
  lemma {:induction false} DiffPinpoints(left: Json, right: Json, p: Keys, k: string)
    requires IsMapping(left, p) && IsMapping(right, p)
    ensures Get(Diff(left, right), p + [k]).Some? <==> Get(left, p + [k]) != Get(right, p + [k])
    decreases |p|
  {
    if p == [] {
      assert p + [k] == [k] + [];
      GetStep(left, k, []);
      GetStep(right, k, []);
      GetStep(Diff(left, right), k, []);
      DiffHasField(left, right, k);
      if k in left.fields && k in right.fields {
        DiffIsNullExactlyWhenEqual(left.fields[k], right.fields[k]);
      }
    } else {
      assert p + [k] == [p[0]] + (p[1..] + [k]);
      GetStep(left, p[0], p[1..] + [k]);
      GetStep(right, p[0], p[1..] + [k]);
      GetStep(Diff(left, right), p[0], p[1..] + [k]);
      DiffHasField(left, right, p[0]);
      DiffIsNullExactlyWhenEqual(left.fields[p[0]], right.fields[p[0]]);
      DiffPinpoints(left.fields[p[0]], right.fields[p[0]], p[1..], k);
      NothingInNull(p[1..] + [k]);
    }
  }

  lemma NothingInNull(p: Keys)
    requires p != []
    ensures Get(Null, p) == None
  {
  }

  /** What a difference shows of one side: the value there, or null. */
  function Side(v: Option<Json>): Json { if v.Some? then v.value else Null }

  /** Where two documents that share the mapping above differ, and not both have a mapping, the diff holds the left
      one's value under `before` and the right one's under `after`. */
  lemma {:induction false} DiffReadsBack(left: Json, right: Json, p: Keys, k: string)
    requires IsMapping(left, p) && IsMapping(right, p) && Get(left, p + [k]) != Get(right, p + [k])
    requires !(IsMapping(left, p + [k]) && IsMapping(right, p + [k]))
    ensures Get(Diff(left, right), p + [k]) ==
            Some(Obj(map["before" := Side(Get(left, p + [k])), "after" := Side(Get(right, p + [k]))]))
    decreases |p|
  {
    if p == [] {
      assert p + [k] == [k] && [k] + [] == [k];
      OneDifference(left, right, k);
      DiffHasField(left, right, k);
      GetStep(Diff(left, right), k, []);
    } else {
      assert p + [k] == [p[0]] + (p[1..] + [k]);
      GetStep(left, p[0], p[1..] + [k]);
      GetStep(right, p[0], p[1..] + [k]);
      GetStep(Diff(left, right), p[0], p[1..] + [k]);
      DiffHasField(left, right, p[0]);
      DiffReadsBack(left.fields[p[0]], right.fields[p[0]], p[1..], k);
      DiffIsNullExactlyWhenEqual(left.fields[p[0]], right.fields[p[0]]);
    }
  }

  lemma OneDifference(left: Json, right: Json, k: string)
    requires left.Obj? && right.Obj? && Get(left, [k]) != Get(right, [k])
    requires !(IsMapping(left, [k]) && IsMapping(right, [k]))
    ensures DiffField(left, right, k) ==
            Obj(map["before" := Side(Get(left, [k])), "after" := Side(Get(right, [k]))])
  {
    GetStep(left, k, []);
    GetStep(right, k, []);
    assert [k] + [] == [k];
  }
}
