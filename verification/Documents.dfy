/** Config documents as JSON trees: updating one path, deep merge, structural diff. */
module Documents {
  import opened Wrappers
  import opened Order
  import opened Text

  /** A number is known by its JSON text. */
  datatype Json =
    | Null
    | Bool(truth: bool)
    | Number(text: string)
    | Str(chars: string)
    | Arr(items: seq<Json>)
    | Obj(fields: map<string, Json>)

  type Keys = seq<string>

  /** What stands at a path, going through mappings only. */
  function Get(v: Json, p: Keys): Option<Json> {
    if p == [] then Some(v)
    else if v.Obj? && p[0] in v.fields then Get(v.fields[p[0]], p[1..])
    else None
  }

  predicate IsMapping(v: Json, p: Keys) {
    Get(v, p).Some? && Get(v, p).value.Obj?
  }

  // ---------------------------------------------------------------- updating a path

  function SetKeys(v: Json, p: Keys, x: Json): (r: Result<Json>)
    ensures r.Err? ==> r.error == Config
    decreases |p|
  {
    if p == [] || p[0] == "" || !v.Obj? then Err(Config)
    else if |p| == 1 then Ok(Obj(v.fields[p[0] := x]))
    else if p[0] !in v.fields || !v.fields[p[0]].Obj? then Err(Config)
    else
      var inner := SetKeys(v.fields[p[0]], p[1..], x);
      if inner.Err? then inner else Ok(Obj(v.fields[p[0] := inner.value]))
  }

  /** `set_path` on a dotted path. */
  function SetPath(v: Json, path: string, x: Json): (r: Result<Json>)
    ensures r.Err? ==> r.error == Config
  {
    if path == "" then Err(Config) else SetKeys(v, Split(path, '.'), x)
  }

  lemma GetStep(v: Json, k: string, p: Keys)
    ensures Get(v, [k] + p) == if v.Obj? && k in v.fields then Get(v.fields[k], p) else None
  {
    assert ([k] + p)[1..] == p;
  }

  /** A path can be set exactly when no part of it is empty and all above it are mappings. */
  lemma {:induction false} SettableExactlyWhen(v: Json, p: Keys, x: Json)
    ensures SetKeys(v, p, x).Ok?
       <==> (p != [] && (forall i :: 0 <= i < |p| ==> p[i] != "")
             && forall k :: 0 <= k < |p| ==> IsMapping(v, p[..k]))
    decreases |p|
  {
    if p != [] {
      assert p[..0] == [];
      if v.Obj? && p[0] in v.fields {
        var inner := v.fields[p[0]];
        SettableExactlyWhen(inner, p[1..], x);
        forall k | 0 < k < |p| ensures IsMapping(v, p[..k]) <==> IsMapping(inner, p[1..][..k - 1]) {
          assert p[..k] == [p[0]] + p[1..][..k - 1];
          GetStep(v, p[0], p[1..][..k - 1]);
        }
        if forall k :: 0 <= k < |p| ==> IsMapping(v, p[..k]) {
          forall k | 0 <= k < |p| - 1 ensures IsMapping(inner, p[1..][..k]) {
            assert IsMapping(v, p[..k + 1]);
          }
        }
        if |p| > 1 { assert IsMapping(inner, p[1..][..0]) <==> IsMapping(v, p[..1]); }
      } else if |p| > 1 {
        assert p[..1] == [p[0]] + [];
        GetStep(v, p[0], []);
      }
    }
  }

  /** The path set reads back the value, and below it one reads the value's own paths. */
  lemma {:induction false} SetReadsBack(v: Json, p: Keys, x: Json, below: Keys)
    requires SetKeys(v, p, x).Ok?
    ensures Get(SetKeys(v, p, x).value, p + below) == Get(x, below)
    decreases |p|
  {
    var v' := SetKeys(v, p, x).value;
    assert p + below == [p[0]] + (p[1..] + below);
    GetStep(v', p[0], p[1..] + below);
    if |p| == 1 {
      assert p[1..] + below == below;
    } else {
      SetReadsBack(v.fields[p[0]], p[1..], x, below);
    }
  }

  /** Nothing changes at a path that is neither above nor below the one set. */
  lemma {:induction false} SetSparesOthers(v: Json, p: Keys, x: Json, q: Keys)
    requires SetKeys(v, p, x).Ok? && !(p <= q) && !(q <= p)
    ensures Get(SetKeys(v, p, x).value, q) == Get(v, q)
    decreases |p|
  {
    if q[0] == p[0] {
      if |p| > 1 {
        assert p == [p[0]] + p[1..] && q == [q[0]] + q[1..];
        SetSparesOthers(v.fields[p[0]], p[1..], x, q[1..]);
      }
    }
  }

  /** Above the path set, mappings stay mappings and gain at most the one key. */
  lemma {:induction false} SetAbove(v: Json, p: Keys, x: Json, k: nat)
    requires SetKeys(v, p, x).Ok? && k < |p|
    ensures IsMapping(v, p[..k]) && IsMapping(SetKeys(v, p, x).value, p[..k])
    ensures Get(SetKeys(v, p, x).value, p[..k]).value.fields.Keys == Get(v, p[..k]).value.fields.Keys + {p[k]}
    decreases |p|
  {
    var v' := SetKeys(v, p, x).value;
    if k == 0 {
      assert p[..0] == [];
    } else {
      assert p[..k] == [p[0]] + p[1..][..k - 1];
      GetStep(v, p[0], p[1..][..k - 1]);
      GetStep(v', p[0], p[1..][..k - 1]);
      SetAbove(v.fields[p[0]], p[1..], x, k - 1);
    }
  }

  /** The mappings above, from the innermost outwards, with the updated part put back. */
  function Rebuild(above: seq<map<string, Json>>, parts: Keys, n: nat, inner: Result<Json>): Result<Json>
    requires n <= |above| && n <= |parts|
  {
    if n == 0 || inner.Err? then inner
    else Rebuild(above, parts, n - 1, Ok(Obj(above[n - 1][parts[n - 1] := inner.value])))
  }

  lemma {:induction false} RebuildIgnoresRest(above: seq<map<string, Json>>, more: seq<map<string, Json>>,
                                              parts: Keys, n: nat, inner: Result<Json>)
    requires n <= |above| && n <= |parts|
    ensures Rebuild(above + more, parts, n, inner) == Rebuild(above, parts, n, inner)
  {
    if n > 0 && inner.Ok? {
      RebuildIgnoresRest(above, more, parts, n - 1, Ok(Obj(above[n - 1][parts[n - 1] := inner.value])));
    }
  }

  /** A document under edit. */
  class Document {
    var value: Json

    constructor (value: Json)
      ensures this.value == value
    {
      this.value := value;
    }

    /** Walks down while each part names a mapping, inserts at the end; a failure changes nothing. */
    method Set(path: string, x: Json) returns (r: Result<()>)
      modifies this
      ensures r == if SetPath(old(value), path, x).Ok? then Ok(()) else Err(Config)
      ensures value == if r.Ok? then SetPath(old(value), path, x).value else old(value)
    {
      hide Split, IndexOf;
      if path == "" {
        return Err(Config);
      }
      var parts := Split(path, '.');
      var target := value;
      var above: seq<map<string, Json>> := [];
      var i := 0;
      assert parts[0..] == parts;
      while i < |parts| - 1
        invariant 0 <= i == |above| < |parts|
        invariant value == old(value)
        invariant Rebuild(above, parts, i, SetKeys(target, parts[i..], x)) == SetKeys(value, parts, x)
      {
        assert parts[i..][1..] == parts[i + 1..] && parts[i..][0] == parts[i];
        if parts[i] == "" {
          return Err(Config);
        }
        if !(target.Obj? && parts[i] in target.fields && target.fields[parts[i]].Obj?) {
          return Err(Config);
        }
        RebuildIgnoresRest(above, [target.fields], parts, i, SetKeys(target, parts[i..], x));
        above := above + [target.fields];
        target := target.fields[parts[i]];
        i := i + 1;
      }
      assert parts[i..] == [parts[i]];
      if parts[i] == "" || !target.Obj? {
        return Err(Config);
      }
      var rebuilt := Obj(target.fields[parts[i] := x]);
      while i > 0
        invariant 0 <= i <= |above| && i < |parts|
        invariant value == old(value)
        invariant Rebuild(above, parts, i, Ok(rebuilt)) == SetKeys(value, parts, x)
      {
        i := i - 1;
        rebuilt := Obj(above[i][parts[i] := rebuilt]);
      }
      value := rebuilt;
      r := Ok(());
    }

    /** Overrides one by one in key order; those before a failing one stay applied. */
    method ApplyDotted(overrides: map<string, Json>, explicit: bool) returns (r: Result<()>)
      modifies this
      ensures (value, r) == Dotted(old(value), SortedKeys(overrides), overrides, explicit)
    {
      hide SetPath, SortedKeys;
      var keys := SortedKeys(overrides);
      var i := 0;
      while i < |keys|
        invariant 0 <= i <= |keys|
        invariant Dotted(value, keys[i..], overrides, explicit) == Dotted(old(value), keys, overrides, explicit)
      {
        var key := keys[i];
        assert key in keys && keys[i..][1..] == keys[i + 1..];
        if explicit && '.' !in key {
          return Err(Config);
        }
        var one := Set(key, overrides[key]);
        if one.Err? {
          return one;
        }
        i := i + 1;
      }
      r := Ok(());
    }

    /** Dotted keys are set one by one; the others are collected and inserted at the end. */
    method ApplyDeclared(overrides: map<string, Json>) returns (r: Result<()>)
      modifies this
      ensures r.Ok? <==> Declared(old(value), overrides).Ok?
      ensures r.Ok? ==> value == Declared(old(value), overrides).value
    {
      hide SetPath, SortedKeys;
      var keys := SortedKeys(overrides);
      var flat: map<string, Json> := map[];
      var i := 0;
      while i < |keys|
        invariant 0 <= i <= |keys|
        invariant DeclaredFrom(value, keys[i..], overrides, flat) == Declared(old(value), overrides)
      {
        var key := keys[i];
        assert key in keys && keys[i..][1..] == keys[i + 1..];
        if '.' in key {
          var one := Set(key, overrides[key]);
          if one.Err? {
            return one;
          }
        } else {
          flat := flat[key := overrides[key]];
        }
        i := i + 1;
      }
      if value.Obj? {
        value := Obj(value.fields + flat);
      }
      r := Ok(());
    }

    /** A dotted key that cannot be set becomes a literal top-level key. */
    method ApplyRuntime(overrides: map<string, Json>)
      modifies this
      ensures value == Runtime(old(value), SortedKeys(overrides), overrides)
    {
      hide SetPath, SortedKeys;
      var keys := SortedKeys(overrides);
      var i := 0;
      while i < |keys|
        invariant 0 <= i <= |keys|
        invariant Runtime(value, keys[i..], overrides) == Runtime(old(value), keys, overrides)
      {
        var key := keys[i];
        assert key in keys && keys[i..][1..] == keys[i + 1..];
        i := i + 1;
        if '.' in key {
          var patched := new Document(value);
          var one := patched.Set(key, overrides[key]);
          if one.Ok? {
            value := patched.value;
            continue;
          }
        }
        if value.Obj? {
          value := Obj(value.fields[key := overrides[key]]);
        }
      }
    }
  }

  // ---------------------------------------------------------------- overrides

  /** `BTreeMap` iteration. */
  function SortedKeys(overrides: map<string, Json>): (keys: seq<string>)
    ensures Distinct(keys) && |keys| == |overrides.Keys| && forall k :: k in keys <==> k in overrides
  {
    StrLeIsTotal();
    Ascending(overrides.Keys, StrLe)
  }

  function Dotted(v: Json, keys: seq<string>, overrides: map<string, Json>, explicit: bool): (Json, Result<()>)
    requires forall k :: k in keys ==> k in overrides
    decreases |keys|
  {
    if keys == [] then (v, Ok(()))
    else if explicit && '.' !in keys[0] then (v, Err(Config))
    else
      var one := SetPath(v, keys[0], overrides[keys[0]]);
      if one.Err? then (v, Err(one.error)) else Dotted(one.value, keys[1..], overrides, explicit)
  }

  function Extend(v: Json, more: map<string, Json>): Json {
    if v.Obj? then Obj(v.fields + more) else v
  }

  function DeclaredFrom(v: Json, keys: seq<string>, overrides: map<string, Json>, flat: map<string, Json>): Result<Json>
    requires forall k :: k in keys ==> k in overrides
    decreases |keys|
  {
    if keys == [] then Ok(Extend(v, flat))
    else if '.' !in keys[0] then DeclaredFrom(v, keys[1..], overrides, flat[keys[0] := overrides[keys[0]]])
    else
      var one := SetPath(v, keys[0], overrides[keys[0]]);
      if one.Err? then one else DeclaredFrom(one.value, keys[1..], overrides, flat)
  }

  function Declared(v: Json, overrides: map<string, Json>): Result<Json> {
    DeclaredFrom(v, SortedKeys(overrides), overrides, map[])
  }

  function RuntimeOne(v: Json, key: string, x: Json): Json {
    if '.' in key && SetPath(v, key, x).Ok? then SetPath(v, key, x).value
    else if v.Obj? then Obj(v.fields[key := x])
    else v
  }

  function Runtime(v: Json, keys: seq<string>, overrides: map<string, Json>): Json
    requires forall k :: k in keys ==> k in overrides
    decreases |keys|
  {
    if keys == [] then v else Runtime(RuntimeOne(v, keys[0], overrides[keys[0]]), keys[1..], overrides)
  }

  /** The value stands at the dotted path or under the literal top-level key. */
  predicate Visible(v: Json, key: string, x: Json) {
    Get(v, Split(key, '.')) == Some(x) || Get(v, [key]) == Some(x)
  }

  predicate Unrelated(a: string, b: string) {
    !(Split(a, '.') <= Split(b, '.')) && !(Split(b, '.') <= Split(a, '.'))
  }

  lemma SplitPlain(key: string)
    requires '.' !in key
    ensures Split(key, '.') == [key]
  {
    IndexOfAbsent(key, '.');
  }

  lemma RuntimeOneShows(v: Json, key: string, x: Json)
    requires v.Obj?
    ensures RuntimeOne(v, key, x).Obj? && Visible(RuntimeOne(v, key, x), key, x)
  {
    var p := Split(key, '.');
    if '.' in key && SetPath(v, key, x).Ok? {
      SetReadsBack(v, p, x, []);
      assert p + [] == p;
      SetAbove(v, p, x, 0);
      assert p[..0] == [];
    } else {
      GetStep(RuntimeOne(v, key, x), key, []);
    }
  }

  /** What a later override leaves alone: unrelated dotted paths and other literal keys. */
  lemma RuntimeOneSpares(v: Json, key: string, x: Json, q: Keys)
    requires v.Obj? && q != []
    requires !(Split(key, '.') <= q) && !(q <= Split(key, '.')) && q[0] != key
    ensures Get(RuntimeOne(v, key, x), q) == Get(v, q)
  {
    if '.' in key && SetPath(v, key, x).Ok? {
      SetSparesOthers(v, Split(key, '.'), x, q);
    }
  }

  lemma StaysVisible(v: Json, key: string, x: Json, other: string, y: Json)
    requires v.Obj? && Visible(v, key, x) && Unrelated(key, other)
    ensures Visible(RuntimeOne(v, other, y), key, x)
  {
    var p, q := Split(key, '.'), Split(other, '.');
    SplitPieces(key, '.');
    SplitPieces(other, '.');
    assert p[0] in p && q[0] in q;
    if '.' !in key { SplitPlain(key); }
    if '.' !in other { SplitPlain(other); }
    if Get(v, p) == Some(x) {
      RuntimeOneSpares(v, other, y, p);
    } else {
      RuntimeOneSpares(v, other, y, [key]);
    }
  }

  lemma {:induction false} RuntimeKeepsVisible(v: Json, keys: seq<string>, overrides: map<string, Json>, key: string,
                                               x: Json)
    requires forall k :: k in keys ==> k in overrides && Unrelated(key, k)
    requires v.Obj? && Visible(v, key, x)
    ensures Visible(Runtime(v, keys, overrides), key, x)
    decreases |keys|
  {
    if keys != [] {
      assert keys[0] in keys;
      StaysVisible(v, key, x, keys[0], overrides[keys[0]]);
      RuntimeOneShows(v, keys[0], overrides[keys[0]]);
      RuntimeKeepsVisible(RuntimeOne(v, keys[0], overrides[keys[0]]), keys[1..], overrides, key, x);
    }
  }

  lemma {:induction false} RuntimeShowsFrom(v: Json, keys: seq<string>, overrides: map<string, Json>, key: string)
    requires v.Obj? && Distinct(keys) && key in keys
    requires forall k :: k in keys ==> k in overrides && (k != key ==> Unrelated(key, k))
    ensures Visible(Runtime(v, keys, overrides), key, overrides[key])
    decreases |keys|
  {
    var v' := RuntimeOne(v, keys[0], overrides[keys[0]]);
    RuntimeOneShows(v, keys[0], overrides[keys[0]]);
    if keys[0] == key {
      forall k | k in keys[1..] ensures k != key {
        var i :| 0 < i < |keys| && keys[i] == k;
        assert keys[0] != keys[i];
      }
      RuntimeKeepsVisible(v', keys[1..], overrides, key, overrides[key]);
    } else {
      RuntimeShowsFrom(v', keys[1..], overrides, key);
    }
  }

  /** Every runtime override is visible in the end, when none is a dotted prefix of it or it of another. */
  lemma RuntimeOverridesShow(v: Json, overrides: map<string, Json>, key: string)
    requires v.Obj? && key in overrides
    requires forall k :: k in overrides && k != key ==> Unrelated(key, k)
    ensures Visible(Runtime(v, SortedKeys(overrides), overrides), key, overrides[key])
  {
    RuntimeShowsFrom(v, SortedKeys(overrides), overrides, key);
  }

  lemma {:induction false} RuntimeStaysMapping(v: Json, keys: seq<string>, overrides: map<string, Json>)
    requires v.Obj? && forall k :: k in keys ==> k in overrides
    ensures Runtime(v, keys, overrides).Obj?
    decreases |keys|
  {
    if keys != [] {
      RuntimeOneShows(v, keys[0], overrides[keys[0]]);
      RuntimeStaysMapping(RuntimeOne(v, keys[0], overrides[keys[0]]), keys[1..], overrides);
    }
  }

  lemma {:induction false} DottedStaysMapping(v: Json, keys: seq<string>, overrides: map<string, Json>, explicit: bool)
    requires v.Obj? && forall k :: k in keys ==> k in overrides
    ensures Dotted(v, keys, overrides, explicit).0.Obj?
    decreases |keys|
  {
    if keys != [] && SetPath(v, keys[0], overrides[keys[0]]).Ok? && !(explicit && '.' !in keys[0]) {
      DottedStaysMapping(SetPath(v, keys[0], overrides[keys[0]]).value, keys[1..], overrides, explicit);
    }
  }

  lemma {:induction false} DeclaredStaysMapping(v: Json, keys: seq<string>, overrides: map<string, Json>,
                                                flat: map<string, Json>)
    requires v.Obj? && forall k :: k in keys ==> k in overrides
    ensures DeclaredFrom(v, keys, overrides, flat).Ok? ==> DeclaredFrom(v, keys, overrides, flat).value.Obj?
    decreases |keys|
  {
    if keys != [] {
      if '.' !in keys[0] {
        DeclaredStaysMapping(v, keys[1..], overrides, flat[keys[0] := overrides[keys[0]]]);
      } else if SetPath(v, keys[0], overrides[keys[0]]).Ok? {
        DeclaredStaysMapping(SetPath(v, keys[0], overrides[keys[0]]).value, keys[1..], overrides, flat);
      }
    }
  }

  lemma {:induction false} DottedKeepsPath(v: Json, keys: seq<string>, overrides: map<string, Json>, explicit: bool,
                                           p: Keys)
    requires forall k :: k in keys ==> k in overrides && !(Split(k, '.') <= p) && !(p <= Split(k, '.'))
    ensures Get(Dotted(v, keys, overrides, explicit).0, p) == Get(v, p)
    decreases |keys|
  {
    if keys != [] && !(explicit && '.' !in keys[0]) && SetPath(v, keys[0], overrides[keys[0]]).Ok? {
      assert keys[0] in keys;
      SetSparesOthers(v, Split(keys[0], '.'), overrides[keys[0]], p);
      DottedKeepsPath(SetPath(v, keys[0], overrides[keys[0]]).value, keys[1..], overrides, explicit, p);
    }
  }

  /** When all overrides apply, each reads back at its path, unless another one's path is above or below it. */
  lemma {:induction false} DottedOverridesShow(v: Json, keys: seq<string>, overrides: map<string, Json>,
                                               explicit: bool, key: string)
    requires Distinct(keys) && key in keys
    requires forall k :: k in keys ==> k in overrides && (k != key ==> Unrelated(key, k))
    requires Dotted(v, keys, overrides, explicit).1.Ok?
    ensures Get(Dotted(v, keys, overrides, explicit).0, Split(key, '.')) == Some(overrides[key])
    decreases |keys|
  {
    var v' := SetPath(v, keys[0], overrides[keys[0]]).value;
    if keys[0] == key {
      var p := Split(key, '.');
      SetReadsBack(v, p, overrides[key], []);
      assert p + [] == p;
      forall k | k in keys[1..] ensures k in overrides && !(Split(k, '.') <= p) && !(p <= Split(k, '.')) {
        var i :| 0 < i < |keys| && keys[i] == k;
        assert keys[0] != keys[i];
        assert k in keys;
        assert Unrelated(key, k);
      }
      DottedKeepsPath(v', keys[1..], overrides, explicit, p);
    } else {
      DottedOverridesShow(v', keys[1..], overrides, explicit, key);
    }
  }

  /** Of declared overrides, a key without dots wins at the top level. */
  lemma {:induction false} DeclaredPlainKeyWins(v: Json, keys: seq<string>, overrides: map<string, Json>,
                                                flat: map<string, Json>, key: string)
    requires v.Obj? && '.' !in key && forall k :: k in keys ==> k in overrides
    requires key in keys || key in flat
    requires DeclaredFrom(v, keys, overrides, flat).Ok?
    ensures Get(DeclaredFrom(v, keys, overrides, flat).value, [key]) ==
            Some(if key in keys then overrides[key] else flat[key])
    decreases |keys|
  {
    if keys == [] {
      GetStep(Extend(v, flat), key, []);
    } else if '.' !in keys[0] {
      DeclaredPlainKeyWins(v, keys[1..], overrides, flat[keys[0] := overrides[keys[0]]], key);
    } else {
      DeclaredPlainKeyWins(SetPath(v, keys[0], overrides[keys[0]]).value, keys[1..], overrides, flat, key);
    }
  }

  /** A top-level key that no declared override starts with keeps its value. */
  lemma {:induction false} DeclaredSpares(v: Json, keys: seq<string>, overrides: map<string, Json>,
                                          flat: map<string, Json>, key: string)
    requires v.Obj? && key !in flat && forall k :: k in keys ==> k in overrides && Split(k, '.')[0] != key
    requires DeclaredFrom(v, keys, overrides, flat).Ok?
    ensures Get(DeclaredFrom(v, keys, overrides, flat).value, [key]) == Get(v, [key])
    decreases |keys|
  {
    if keys == [] {
      GetStep(Extend(v, flat), key, []);
      GetStep(v, key, []);
    } else {
      assert keys[0] in keys;
      if '.' !in keys[0] {
        SplitPlain(keys[0]);
        DeclaredSpares(v, keys[1..], overrides, flat[keys[0] := overrides[keys[0]]], key);
      } else {
        SetSparesOthers(v, Split(keys[0], '.'), overrides[keys[0]], [key]);
        DeclaredSpares(SetPath(v, keys[0], overrides[keys[0]]).value, keys[1..], overrides, flat, key);
      }
    }
  }

  /** `p` leads neither to nor through the path of `key`, as a dotted path. */
  predicate Beside(p: Keys, key: string) {
    p != [] && !(Split(key, '.') <= p) && !(p <= Split(key, '.'))
  }

  lemma BesidePlain(p: Keys, key: string)
    requires Beside(p, key) && '.' !in key
    ensures p[0] != key
  {
    SplitPlain(key);
  }

  lemma {:induction false} DeclaredKeepsPath(v: Json, keys: seq<string>, overrides: map<string, Json>,
                                             flat: map<string, Json>, p: Keys)
    requires v.Obj? && p != [] && p[0] !in flat && forall k :: k in keys ==> k in overrides && Beside(p, k)
    requires DeclaredFrom(v, keys, overrides, flat).Ok?
    ensures Get(DeclaredFrom(v, keys, overrides, flat).value, p) == Get(v, p)
    decreases |keys|
  {
    if keys != [] {
      assert keys[0] in keys;
      if '.' !in keys[0] {
        BesidePlain(p, keys[0]);
        DeclaredKeepsPath(v, keys[1..], overrides, flat[keys[0] := overrides[keys[0]]], p);
      } else {
        SetSparesOthers(v, Split(keys[0], '.'), overrides[keys[0]], p);
        DeclaredKeepsPath(SetPath(v, keys[0], overrides[keys[0]]).value, keys[1..], overrides, flat, p);
      }
    }
  }

  lemma {:induction false} DeclaredDottedShows(v: Json, keys: seq<string>, overrides: map<string, Json>,
                                               flat: map<string, Json>, key: string)
    requires v.Obj? && Distinct(keys) && key in keys && '.' in key
    requires forall k :: k in keys ==> k in overrides && (k != key ==> Beside(Split(key, '.'), k))
    requires Split(key, '.') != [] && Split(key, '.')[0] !in flat
    requires DeclaredFrom(v, keys, overrides, flat).Ok?
    ensures Get(DeclaredFrom(v, keys, overrides, flat).value, Split(key, '.')) == Some(overrides[key])
    decreases |keys|
  {
    var p := Split(key, '.');
    if keys[0] == key {
      SetReadsBack(v, p, overrides[key], []);
      assert p + [] == p;
      forall k | k in keys[1..] ensures k in overrides && Beside(p, k) {
        var i :| 0 < i < |keys| && keys[i] == k;
        assert keys[0] != keys[i] && k in keys;
      }
      DeclaredKeepsPath(SetPath(v, key, overrides[key]).value, keys[1..], overrides, flat, p);
    } else if '.' !in keys[0] {
      BesidePlain(p, keys[0]);
      DeclaredDottedShows(v, keys[1..], overrides, flat[keys[0] := overrides[keys[0]]], key);
    } else {
      DeclaredDottedShows(SetPath(v, keys[0], overrides[keys[0]]).value, keys[1..], overrides, flat, key);
    }
  }

  lemma PathIsNotEmpty(key: string)
    ensures Split(key, '.') != []
  {
    SplitPieces(key, '.');
  }

  /** Every declared override reads back at its path, unless another one's path is above or below it. */
  lemma DeclaredOverridesShow(v: Json, overrides: map<string, Json>, key: string)
    requires v.Obj? && key in overrides && Declared(v, overrides).Ok?
    requires forall k :: k in overrides && k != key ==> Unrelated(key, k)
    ensures Get(Declared(v, overrides).value, Split(key, '.')) == Some(overrides[key])
  {
    PathIsNotEmpty(key);
    if '.' in key {
      DeclaredDottedShows(v, SortedKeys(overrides), overrides, map[], key);
    } else {
      SplitPlain(key);
      DeclaredPlainKeyWins(v, SortedKeys(overrides), overrides, map[], key);
    }
  }

  /** Overrides that must be dotted apply only when all of them are. */
  lemma {:induction false} ExplicitNeedsDots(v: Json, keys: seq<string>, overrides: map<string, Json>, key: string)
    requires (forall k :: k in keys ==> k in overrides) && Dotted(v, keys, overrides, true).1.Ok? && key in keys
    ensures '.' in key
    decreases |keys|
  {
    if key != keys[0] {
      ExplicitNeedsDots(SetPath(v, keys[0], overrides[keys[0]]).value, keys[1..], overrides, key);
    }
  }
}
