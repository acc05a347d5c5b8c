/** Byte-wise orders on names and paths, the stable sort behind `sort_by`, and the
    ascending enumeration behind `BTreeMap` iteration. */
module Order {

  ghost predicate IsPreorder<T(!new)>(le: (T, T) -> bool) {
    && (forall x, y :: le(x, y) || le(y, x))
    && (forall x, y, z :: le(x, y) && le(y, z) ==> le(x, z))
  }

  ghost predicate IsTotalOrder<T(!new)>(le: (T, T) -> bool) {
    && IsPreorder(le)
    && (forall x, y :: le(x, y) && le(y, x) ==> x == y)
  }

  ghost predicate Sorted<T>(xs: seq<T>, le: (T, T) -> bool) {
    forall i, j :: 0 <= i < j < |xs| ==> le(xs[i], xs[j])
  }

  ghost predicate Distinct<T>(xs: seq<T>) {
    forall i, j :: 0 <= i < j < |xs| ==> xs[i] != xs[j]
  }

  // ---------------------------------------------------------------- names and paths

  predicate StrLe(a: string, b: string) {
    a == [] || (b != [] && (a[0] < b[0] || (a[0] == b[0] && StrLe(a[1..], b[1..]))))
  }

  lemma {:induction false} StrLeCompares(a: string, b: string)
    ensures StrLe(a, b) || StrLe(b, a)
    ensures StrLe(a, b) && StrLe(b, a) ==> a == b
  {
    if a != [] && b != [] && a[0] == b[0] {
      StrLeCompares(a[1..], b[1..]);
      assert a == [a[0]] + a[1..] && b == [b[0]] + b[1..];
    }
  }

  lemma {:induction false} StrLeChains(a: string, b: string, c: string)
    requires StrLe(a, b) && StrLe(b, c)
    ensures StrLe(a, c)
  {
    if a != [] && b != [] && c != [] && a[0] == b[0] == c[0] {
      StrLeChains(a[1..], b[1..], c[1..]);
    }
  }

  lemma StrLeIsTotal()
    ensures IsTotalOrder(StrLe)
  {
    forall a, b ensures StrLe(a, b) || StrLe(b, a) { StrLeCompares(a, b); }
    forall a, b | StrLe(a, b) && StrLe(b, a) ensures a == b { StrLeCompares(a, b); }
    forall a, b, c | StrLe(a, b) && StrLe(b, c) ensures StrLe(a, c) { StrLeChains(a, b, c); }
  }

  /** Component-wise path order: `WalkDir::sort_by_file_name` and `PathBuf::cmp`. */
  predicate PathLe(a: seq<string>, b: seq<string>) {
    a == [] ||
    (b != [] && (if a[0] == b[0] then PathLe(a[1..], b[1..]) else StrLe(a[0], b[0])))
  }

  lemma {:induction false} PathLeCompares(a: seq<string>, b: seq<string>)
    ensures PathLe(a, b) || PathLe(b, a)
    ensures PathLe(a, b) && PathLe(b, a) ==> a == b
  {
    if a != [] && b != [] {
      StrLeCompares(a[0], b[0]);
      if a[0] == b[0] {
        PathLeCompares(a[1..], b[1..]);
        assert a == [a[0]] + a[1..] && b == [b[0]] + b[1..];
      }
    }
  }

  lemma {:induction false} PathLeChains(a: seq<string>, b: seq<string>, c: seq<string>)
    requires PathLe(a, b) && PathLe(b, c)
    ensures PathLe(a, c)
  {
    if a != [] && b != [] && c != [] {
      if a[0] == b[0] == c[0] {
        PathLeChains(a[1..], b[1..], c[1..]);
      } else if a[0] != b[0] && b[0] != c[0] {
        StrLeChains(a[0], b[0], c[0]);
        StrLeCompares(a[0], b[0]);
      }
    }
  }

  lemma PathLeIsTotal()
    ensures IsTotalOrder(PathLe)
  {
    forall a, b ensures PathLe(a, b) || PathLe(b, a) { PathLeCompares(a, b); }
    forall a, b | PathLe(a, b) && PathLe(b, a) ensures a == b { PathLeCompares(a, b); }
    forall a, b, c | PathLe(a, b) && PathLe(b, c) ensures PathLe(a, c) { PathLeChains(a, b, c); }
  }

  // ---------------------------------------------------------------- ascending enumeration

  lemma {:induction false} LeastExists<T(!new)>(s: set<T>, le: (T, T) -> bool)
    requires s != {} && IsTotalOrder(le)
    ensures exists x :: x in s && forall y :: y in s ==> le(x, y)
  {
    var x :| x in s;
    assert le(x, x);
    if s - {x} != {} {
      LeastExists(s - {x}, le);
      var m :| m in s - {x} && forall y :: y in s - {x} ==> le(m, y);
      var least := if le(x, m) then x else m;
      forall y | y in s ensures le(least, y) {
        if y != x {
          assert le(m, y);
        }
      }
      assert least in s;
    } else {
      assert s == {x};
    }
  }

  function Ascending<T(==, !new)>(s: set<T>, le: (T, T) -> bool): (r: seq<T>)
    requires IsTotalOrder(le)
    ensures Sorted(r, le) && Distinct(r)
    ensures forall x :: x in r <==> x in s
    ensures |r| == |s|
  {
    if s == {} then []
    else
      LeastExists(s, le);
      var x :| x in s && forall y :: y in s ==> le(x, y);
      [x] + Ascending(s - {x}, le)
  }

  /** One set of elements has one ascending order, when no two of them are equivalent. */
  lemma {:induction false} SortedIsUnique<T(!new)>(xs: seq<T>, ys: seq<T>, le: (T, T) -> bool)
    requires Sorted(xs, le) && Sorted(ys, le) && Distinct(xs) && Distinct(ys)
    requires forall x :: x in xs <==> x in ys
    requires forall x, y :: x in xs && y in xs && le(x, y) && le(y, x) ==> x == y
    ensures xs == ys
  {
    assert xs != [] ==> xs[0] in ys;
    assert ys != [] ==> ys[0] in xs;
    if xs != [] {
      var a, b := xs[0], ys[0];
      var i :| 0 <= i < |ys| && ys[i] == a;
      var j :| 0 <= j < |xs| && xs[j] == b;
      assert (i == 0 || le(b, a)) && (j == 0 || le(a, b));
      assert a == b;
      assert forall x :: x in xs[1..] <==> x in xs && x != a;
      assert forall y :: y in ys[1..] <==> y in ys && y != a;
      SortedIsUnique(xs[1..], ys[1..], le);
      assert xs == [a] + xs[1..] && ys == [a] + ys[1..];
    }
  }

  // ---------------------------------------------------------------- the stable sort

  function Insert<T>(x: T, xs: seq<T>, le: (T, T) -> bool): (r: seq<T>)
    ensures |r| == |xs| + 1
  {
    if xs == [] || le(x, xs[0]) then [x] + xs
    else [xs[0]] + Insert(x, xs[1..], le)
  }

  /** `slice::sort_by`: stable, hence equal elements keep their order. */
  function StableSort<T>(xs: seq<T>, le: (T, T) -> bool): (r: seq<T>)
    ensures |r| == |xs|
  {
    if xs == [] then [] else Insert(xs[0], StableSort(xs[1..], le), le)
  }

  function Filter<T>(xs: seq<T>, keep: T -> bool): seq<T> {
    if xs == [] then []
    else (if keep(xs[0]) then [xs[0]] else []) + Filter(xs[1..], keep)
  }

  lemma {:induction false} FilterMember<T>(xs: seq<T>, keep: T -> bool, x: T)
    ensures x in Filter(xs, keep) <==> x in xs && keep(x)
  {
    if xs != [] {
      FilterMember(xs[1..], keep, x);
      assert x in xs <==> x == xs[0] || x in xs[1..];
    }
  }

  lemma {:induction false} FilterNothing<T>(xs: seq<T>, keep: T -> bool)
    requires forall i :: 0 <= i < |xs| ==> !keep(xs[i])
    ensures Filter(xs, keep) == []
  {
    if xs != [] {
      FilterNothing(xs[1..], keep);
    }
  }

  lemma {:induction false} FilterAppends<T>(xs: seq<T>, ys: seq<T>, keep: T -> bool)
    ensures Filter(xs + ys, keep) == Filter(xs, keep) + Filter(ys, keep)
  {
    if xs == [] {
      assert xs + ys == ys;
    } else {
      var head := if keep(xs[0]) then [xs[0]] else [];
      calc {
        Filter(xs + ys, keep);
        { assert (xs + ys)[0] == xs[0] && (xs + ys)[1..] == xs[1..] + ys; }
        head + Filter(xs[1..] + ys, keep);
        { FilterAppends(xs[1..], ys, keep); }
        head + (Filter(xs[1..], keep) + Filter(ys, keep));
        Filter(xs, keep) + Filter(ys, keep);
      }
    }
  }

  lemma {:induction false} InsertHolds<T>(x: T, xs: seq<T>, le: (T, T) -> bool)
    ensures multiset(Insert(x, xs, le)) == multiset(xs) + multiset{x}
  {
    if xs != [] && !le(x, xs[0]) {
      InsertHolds(x, xs[1..], le);
      assert xs == [xs[0]] + xs[1..];
    }
  }

  lemma {:induction false} InsertSorts<T(!new)>(x: T, xs: seq<T>, le: (T, T) -> bool)
    requires IsPreorder(le) && Sorted(xs, le)
    ensures Sorted(Insert(x, xs, le), le)
  {
    if xs == [] {
    } else if le(x, xs[0]) {
      forall j | 0 < j < |xs| ensures le(x, xs[j]) {
        assert le(xs[0], xs[j]);
      }
    } else {
      InsertSorts(x, xs[1..], le);
      var rest := Insert(x, xs[1..], le);
      InsertHolds(x, xs[1..], le);
      forall j | 0 <= j < |rest| ensures le(xs[0], rest[j]) {
        assert rest[j] in multiset(rest);
        assert rest[j] == x || rest[j] in xs[1..];
        if rest[j] != x {
          var i :| 0 <= i < |xs[1..]| && xs[1..][i] == rest[j];
          assert le(xs[0], xs[i + 1]);
        }
      }
    }
  }

  lemma {:induction false} StableSortHolds<T>(xs: seq<T>, le: (T, T) -> bool)
    ensures multiset(StableSort(xs, le)) == multiset(xs)
  {
    if xs != [] {
      StableSortHolds(xs[1..], le);
      InsertHolds(xs[0], StableSort(xs[1..], le), le);
      assert xs == [xs[0]] + xs[1..];
    }
  }

  lemma {:induction false} StableSortOrders<T(!new)>(xs: seq<T>, le: (T, T) -> bool)
    requires IsPreorder(le)
    ensures Sorted(StableSort(xs, le), le)
  {
    hide IsPreorder, Sorted, Insert;
    if xs == [] {
      NothingIsSorted(le);
    } else {
      StableSortOrders(xs[1..], le);
      InsertSorts(xs[0], StableSort(xs[1..], le), le);
    }
  }

  lemma NothingIsSorted<T(!new)>(le: (T, T) -> bool)
    ensures Sorted([], le)
  {
  }

  lemma StableSortSorts<T(!new)>(xs: seq<T>, le: (T, T) -> bool)
    requires IsPreorder(le)
    ensures Sorted(StableSort(xs, le), le)
    ensures multiset(StableSort(xs, le)) == multiset(xs)
    ensures forall y :: y in StableSort(xs, le) <==> y in xs
  {
    hide IsPreorder, Sorted, StableSort;
    StableSortOrders(xs, le);
    StableSortHolds(xs, le);
    forall y ensures y in StableSort(xs, le) <==> y in xs {
      assert y in StableSort(xs, le) <==> y in multiset(StableSort(xs, le));
      assert y in xs <==> y in multiset(xs);
    }
  }

  lemma {:induction false} InsertKeepsClass<T(!new)>(x: T, xs: seq<T>, le: (T, T) -> bool, keep: T -> bool)
    requires forall y, z :: keep(y) && keep(z) ==> le(y, z)
    ensures Filter(Insert(x, xs, le), keep) == (if keep(x) then [x] else []) + Filter(xs, keep)
  {
    if xs == [] || le(x, xs[0]) {
      assert ([x] + xs)[1..] == xs;
    } else {
      var rest := Insert(x, xs[1..], le);
      var first := if keep(xs[0]) then [xs[0]] else [];
      var added := if keep(x) then [x] else [];
      assert first == [] || added == [];
      calc {
        Filter(Insert(x, xs, le), keep);
        Filter([xs[0]] + rest, keep);
        { assert ([xs[0]] + rest)[1..] == rest; }
        first + Filter(rest, keep);
        { InsertKeepsClass(x, xs[1..], le, keep); }
        first + (added + Filter(xs[1..], keep));
        added + (first + Filter(xs[1..], keep));
        added + Filter(xs, keep);
      }
    }
  }

  /** Stability: the elements of one equivalence class come out in their old order. */
  lemma {:induction false} StableSortKeepsClass<T(!new)>(xs: seq<T>, le: (T, T) -> bool, keep: T -> bool)
    requires forall y, z :: keep(y) && keep(z) ==> le(y, z)
    ensures Filter(StableSort(xs, le), keep) == Filter(xs, keep)
  {
    if xs != [] {
      StableSortKeepsClass(xs[1..], le, keep);
      InsertKeepsClass(xs[0], StableSort(xs[1..], le), le, keep);
    }
  }
}
