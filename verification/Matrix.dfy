/** Grid expansion: every choice of one value per axis, in mixed-radix order. */
module Matrix {
  import opened Wrappers
  import opened Order
  import opened Text
  import opened Documents

  type Params = map<string, Json>
  type Axes = map<string, seq<Json>>

  const USIZE: nat := 0x1_0000_0000_0000_0000

  // ---------------------------------------------------------------- mixed-radix numbers, last digit fastest

  function Product(lens: seq<nat>): nat {
    if lens == [] then 1 else Product(lens[..|lens| - 1]) * lens[|lens| - 1]
  }

  ghost predicate AreDigits(lens: seq<nat>, c: seq<nat>) {
    |c| == |lens| && forall i :: 0 <= i < |c| ==> c[i] < lens[i]
  }

  function Encode(lens: seq<nat>, c: seq<nat>): nat
    requires |c| == |lens|
  {
    if lens == [] then 0
    else var n := |lens| - 1; Encode(lens[..n], c[..n]) * lens[n] + c[n]
  }

  function Decode(lens: seq<nat>, x: nat): (c: seq<nat>)
    requires forall i :: 0 <= i < |lens| ==> lens[i] > 0
    ensures |c| == |lens|
  {
    if lens == [] then []
    else var n := |lens| - 1; Decode(lens[..n], x / lens[n]) + [x % lens[n]]
  }

  lemma Scaled(a: int, b: int, d: nat)
    ensures a <= b ==> a * d <= b * d
  {
  }

  lemma DivMod(q: nat, r: nat, d: nat)
    requires r < d
    ensures (q * d + r) / d == q && (q * d + r) % d == r
  {
    var x := q * d + r;
    assert x == (x / d) * d + x % d;
    Scaled(q + 1, x / d, d);
    Scaled(x / d, q - 1, d);
    assert (q + 1) * d == q * d + d && (q - 1) * d == q * d - d;
  }

  lemma ScaledBelow(q: nat, p: nat, r: nat, d: nat)
    requires q < p && r < d
    ensures q * d + r < p * d
  {
    Scaled(q + 1, p, d);
    assert (q + 1) * d == q * d + d;
  }

  lemma QuotientBelow(x: nat, p: nat, d: nat)
    requires x < p * d && d > 0
    ensures x / d < p
  {
    Scaled(p, x / d, d);
    assert x == (x / d) * d + x % d;
  }

  /** Every choice of digits has a number below the product, and gets its digits back. */
  lemma {:induction false} EncodeThenDecode(lens: seq<nat>, c: seq<nat>)
    requires AreDigits(lens, c)
    ensures forall i :: 0 <= i < |lens| ==> lens[i] > 0
    ensures Encode(lens, c) < Product(lens)
    ensures Decode(lens, Encode(lens, c)) == c
  {
    forall i | 0 <= i < |lens| ensures lens[i] > 0 {
      assert c[i] < lens[i];
    }
    if lens != [] {
      var n := |lens| - 1;
      EncodeThenDecode(lens[..n], c[..n]);
      ScaledBelow(Encode(lens[..n], c[..n]), Product(lens[..n]), c[n], lens[n]);
      DivMod(Encode(lens[..n], c[..n]), c[n], lens[n]);
      assert c == c[..n] + [c[n]];
    }
  }

  /** Every number below the product has proper digits, and comes back from them. */
  lemma {:induction false} DecodeThenEncode(lens: seq<nat>, x: nat)
    requires (forall i :: 0 <= i < |lens| ==> lens[i] > 0) && x < Product(lens)
    ensures AreDigits(lens, Decode(lens, x)) && Encode(lens, Decode(lens, x)) == x
  {
    if lens != [] {
      var n := |lens| - 1;
      QuotientBelow(x, Product(lens[..n]), lens[n]);
      DecodeThenEncode(lens[..n], x / lens[n]);
      var c := Decode(lens, x);
      assert c[..n] == Decode(lens[..n], x / lens[n]);
      assert x == (x / lens[n]) * lens[n] + x % lens[n];
    }
  }

  lemma {:induction false} PrefixProduct(lens: seq<nat>, i: nat)
    requires i <= |lens| && forall k :: 0 <= k < |lens| ==> lens[k] > 0
    ensures 0 < Product(lens[..i]) <= Product(lens)
    decreases |lens| - i, |lens|
  {
    if i == |lens| {
      assert lens[..i] == lens;
      ProductIsPositive(lens);
    } else {
      PrefixProduct(lens, i + 1);
      assert lens[..i + 1][..i] == lens[..i];
      ProductIsPositive(lens[..i]);
      ScaleUp(Product(lens[..i]), lens[i]);
    }
  }

  lemma ScaleUp(p: nat, d: nat)
    requires d > 0
    ensures p <= p * d
  {
    assert p * 1 <= p * d;
  }

  lemma {:induction false} ProductIsPositive(lens: seq<nat>)
    requires forall k :: 0 <= k < |lens| ==> lens[k] > 0
    ensures Product(lens) > 0
  {
    if lens != [] {
      ProductIsPositive(lens[..|lens| - 1]);
    }
  }

  lemma ProductStep(lens: seq<nat>, i: nat)
    requires i < |lens|
    ensures Product(lens[..i + 1]) == Product(lens[..i]) * lens[i]
  {
    assert lens[..i + 1][..i] == lens[..i];
  }

  lemma EncodeStep(lens: seq<nat>, c: seq<nat>, i: nat)
    requires |c| == |lens| && i < |lens|
    ensures Encode(lens[..i + 1], c[..i + 1]) == Encode(lens[..i], c[..i]) * lens[i] + c[i]
    ensures Encode(lens[..0], c[..0]) == 0 && Product(lens[..0]) == 1
  {
    assert lens[..i + 1][..i] == lens[..i] && c[..i + 1][..i] == c[..i];
  }

  lemma DecodeStep(lens: seq<nat>, i: nat, x: nat, v: nat)
    requires i < |lens| && v < lens[i] && forall k :: 0 <= k < |lens| ==> lens[k] > 0
    ensures Decode(lens[..i + 1], x * lens[i] + v) == Decode(lens[..i], x) + [v]
  {
    assert lens[..i + 1][..i] == lens[..i];
    DivMod(x, v, lens[i]);
  }

  // ---------------------------------------------------------------- axes and rows

  /** `validate_axes` */
  predicate ValidAxes(axes: Axes) {
    forall k :: k in axes ==> !IsBlank(k) && axes[k] != []
  }

  /** The axes in key order. */
  function AxisNames(axes: Axes): (names: seq<string>)
    ensures Distinct(names) && forall k :: k in names <==> k in axes
  {
    StrLeIsTotal();
    Ascending(axes.Keys, StrLe)
  }

  function Lengths(axes: Axes, names: seq<string>): (lens: seq<nat>)
    requires forall k :: k in names ==> k in axes
    ensures |lens| == |names|
    ensures forall i :: 0 <= i < |names| ==> lens[i] == |axes[names[i]]|
  {
    seq(|names|, i requires 0 <= i < |names| => |axes[names[i]]|)
  }

  ghost function GridLengths(axes: Axes): seq<nat> {
    Lengths(axes, AxisNames(axes))
  }

  /** The row with value number `c[i]` on axis number `i`. */
  ghost predicate IsRow(axes: Axes, names: seq<string>, c: seq<nat>, row: Params)
    requires |c| == |names| && forall k :: k in names ==> k in axes
  {
    && row.Keys == (set k | k in names)
    && forall i :: 0 <= i < |names| ==> c[i] < |axes[names[i]]| && row[names[i]] == axes[names[i]][c[i]]
  }

  /** Row number `x` holds the choice with number `x`. */
  ghost predicate AreRows(axes: Axes, names: seq<string>, rows: seq<Params>)
    requires forall k :: k in names ==> k in axes && axes[k] != []
  {
    var lens := Lengths(axes, names);
    && |rows| == Product(lens)
    && forall x {:trigger rows[x]} :: 0 <= x < |rows| ==> IsRow(axes, names, Decode(lens, x), rows[x])
  }

  function CheckedProduct(left: nat, right: nat): Result<nat> {
    if left * right < USIZE then Ok(left * right) else Err(Validation)
  }

  lemma LengthsPrefix(axes: Axes, names: seq<string>, i: nat)
    requires i < |names| && forall k :: k in names ==> k in axes
    ensures Lengths(axes, names)[..i] == Lengths(axes, names[..i])
    ensures Lengths(axes, names)[..i + 1] == Lengths(axes, names[..i]) + [|axes[names[i]]|]
    ensures names[..i + 1][..i] == names[..i]
  {
  }

  /** The size of the grid, or an error as soon as it does not fit the machine word. */
  method GridSize(axes: Axes) returns (r: Result<nat>)
    requires ValidAxes(axes)
    ensures r == if Product(GridLengths(axes)) < USIZE then Ok(Product(GridLengths(axes))) else Err(Validation)
  {
    hide Product, IsBlank, CheckedProduct, AxisNames;
    var names := AxisNames(axes);
    ghost var lens := Lengths(axes, names);
    var size := 1;
    var i := 0;
    NoDigits(lens);
    while i < |names|
      invariant 0 <= i <= |names| && 0 <= size
      invariant size == Product(lens[..i]) && size < USIZE
    {
      assert names[i] in names;
      ProductChecks(lens, i);
      var next := CheckedProduct(size, |axes[names[i]]|);
      if next.Err? {
        return Err(next.error);
      }
      size := next.value;
      i := i + 1;
    }
    assert lens[..i] == lens;
    r := Ok(size);
  }

  /** The next partial product is the checked one, and never exceeds the whole. */
  lemma ProductChecks(lens: seq<nat>, i: nat)
    requires i < |lens| && forall k :: 0 <= k < |lens| ==> lens[k] > 0
    ensures Product(lens[..i + 1]) <= Product(lens)
    ensures CheckedProduct(Product(lens[..i]), lens[i]).Ok? ==> Product(lens[..i + 1]) < USIZE
    ensures CheckedProduct(Product(lens[..i]), lens[i])
         == if Product(lens[..i + 1]) < USIZE then Ok(Product(lens[..i + 1])) else Err(Validation)
  {
    hide Product;
    ProductStep(lens, i);
    PrefixProduct(lens, i + 1);
  }

  lemma NoDigits(lens: seq<nat>)
    ensures Product(lens[..0]) == 1
  {
  }

  lemma NextRow(axes: Axes, names: seq<string>, i: nat, x: nat, row: Params, v: nat)
    requires i < |names| && Distinct(names) && forall k :: k in names ==> k in axes && axes[k] != []
    requires v < |axes[names[i]]|
    requires IsRow(axes, names[..i], Decode(Lengths(axes, names[..i]), x), row)
    ensures IsRow(axes, names[..i + 1], Decode(Lengths(axes, names[..i + 1]), x * |axes[names[i]]| + v),
                  row[names[i] := axes[names[i]][v]])
  {
    hide Decode;
    var axis := names[i];
    var lens := Lengths(axes, names);
    LengthsPrefix(axes, names, i);
    assert lens[..i + 1] == Lengths(axes, names[..i + 1]);
    DecodeStep(lens, i, x, v);
    RowGrows(axes, names, i, Decode(Lengths(axes, names[..i]), x), row, v);
  }

  lemma RowGrows(axes: Axes, names: seq<string>, i: nat, c: seq<nat>, row: Params, v: nat)
    requires i < |names| && Distinct(names) && forall k :: k in names ==> k in axes && axes[k] != []
    requires v < |axes[names[i]]| && |c| == i && IsRow(axes, names[..i], c, row)
    ensures IsRow(axes, names[..i + 1], c + [v], row[names[i] := axes[names[i]][v]])
  {
    var grown := row[names[i] := axes[names[i]][v]];
    var now, digits := names[..i + 1], c + [v];
    assert now == names[..i] + [names[i]];
    assert grown.Keys == set k | k in now;
    forall j | 0 <= j < |now| ensures digits[j] < |axes[now[j]]| && grown[now[j]] == axes[now[j]][digits[j]] {
      if j < i {
        assert names[..i][j] == names[j] != names[i];
      }
    }
  }

  function Variants(row: Params, axis: string, values: seq<Json>): seq<Params> {
    seq(|values|, v requires 0 <= v < |values| => row[axis := values[v]])
  }

  /** Every row with every value, the value running fastest. */
  function AllVariants(rows: seq<Params>, axis: string, values: seq<Json>): seq<Params> {
    if rows == [] then []
    else AllVariants(rows[..|rows| - 1], axis, values) + Variants(rows[|rows| - 1], axis, values)
  }

  method ExtendRows(rows: seq<Params>, axis: string, values: seq<Json>) returns (next: seq<Params>)
    ensures next == AllVariants(rows, axis, values)
  {
    next := [];
    var x := 0;
    while x < |rows|
      invariant 0 <= x <= |rows|
      invariant next == AllVariants(rows[..x], axis, values)
    {
      ghost var before, variants := next, Variants(rows[x], axis, values);
      var v := 0;
      while v < |values|
        invariant 0 <= v <= |values|
        invariant next == before + variants[..v]
      {
        next := next + [rows[x][axis := values[v]]];
        assert variants[..v + 1] == variants[..v] + [variants[v]];
        v := v + 1;
      }
      assert variants[..v] == variants && rows[..x + 1][..x] == rows[..x];
      x := x + 1;
    }
    assert rows[..x] == rows;
  }

  lemma {:induction false} VariantAt(rows: seq<Params>, axis: string, values: seq<Json>, x: nat, v: nat)
    requires x < |rows| && v < |values|
    ensures |AllVariants(rows, axis, values)| == |rows| * |values|
    ensures x * |values| + v < |rows| * |values|
    ensures AllVariants(rows, axis, values)[x * |values| + v] == rows[x][axis := values[v]]
  {
    VariantCount(rows, axis, values);
    ScaledBelow(x, |rows|, v, |values|);
    var n := |rows| - 1;
    VariantCount(rows[..n], axis, values);
    if x < n {
      VariantAt(rows[..n], axis, values, x, v);
    }
  }

  lemma {:induction false} VariantCount(rows: seq<Params>, axis: string, values: seq<Json>)
    ensures |AllVariants(rows, axis, values)| == |rows| * |values|
  {
    if rows != [] {
      VariantCount(rows[..|rows| - 1], axis, values);
      assert |rows| * |values| == (|rows| - 1) * |values| + |values|;
    }
  }

  lemma MoreRows(axes: Axes, names: seq<string>, i: nat, rows: seq<Params>)
    requires i < |names| && Distinct(names) && forall k :: k in names ==> k in axes && axes[k] != []
    requires AreRows(axes, names[..i], rows)
    ensures AreRows(axes, names[..i + 1], AllVariants(rows, names[i], axes[names[i]]))
  {
    hide Decode, Product, IsRow, AllVariants;
    var len := |axes[names[i]]|;
    var next := AllVariants(rows, names[i], axes[names[i]]);
    LengthsPrefix(axes, names, i);
    var lens := Lengths(axes, names);
    assert lens[..i + 1] == Lengths(axes, names[..i + 1]);
    ProductStep(lens, i);
    VariantCount(rows, names[i], axes[names[i]]);
    forall t {:trigger next[t]} | 0 <= t < |next|
      ensures IsRow(axes, names[..i + 1], Decode(lens[..i + 1], t), next[t])
    {
      QuotientBelow(t, |rows|, len);
      var x, v := t / len, t % len;
      assert t == x * len + v;
      VariantAt(rows, names[i], axes[names[i]], x, v);
      assert IsRow(axes, names[..i], Decode(Lengths(axes, names[..i]), x), rows[x]);
      NextRow(axes, names, i, x, rows[x], v);
    }
  }

  /** The rows of the first axes, built one axis at a time. */
  function RowsUpTo(axes: Axes, names: seq<string>): seq<Params>
    requires forall k :: k in names ==> k in axes
  {
    if names == [] then [map[]]
    else
      var n := |names| - 1;
      AllVariants(RowsUpTo(axes, names[..n]), names[n], axes[names[n]])
  }

  function GridRows(axes: Axes): seq<Params> {
    RowsUpTo(axes, AxisNames(axes))
  }

  lemma {:induction false} BuiltRowsAreRows(axes: Axes, names: seq<string>)
    requires Distinct(names) && forall k :: k in names ==> k in axes && axes[k] != []
    ensures AreRows(axes, names, RowsUpTo(axes, names))
  {
    hide AllVariants;
    if names != [] {
      var n := |names| - 1;
      BuiltRowsAreRows(axes, names[..n]);
      MoreRows(axes, names, n, RowsUpTo(axes, names[..n]));
      assert names[..n + 1] == names;
    }
  }

  /** Row number `x` of the grid holds the choice with number `x`. */
  lemma GridRowsAreRows(axes: Axes)
    requires ValidAxes(axes)
    ensures forall k :: k in AxisNames(axes) ==> k in axes && axes[k] != []
    ensures AreRows(axes, AxisNames(axes), GridRows(axes))
  {
    hide AreRows, RowsUpTo, IsBlank;
    BuiltRowsAreRows(axes, AxisNames(axes));
  }

  lemma RowsStep(axes: Axes, names: seq<string>, i: nat)
    requires i < |names| && forall k :: k in names ==> k in axes
    ensures RowsUpTo(axes, names[..i + 1]) == AllVariants(RowsUpTo(axes, names[..i]), names[i], axes[names[i]])
    ensures names[..0] == [] && RowsUpTo(axes, names[..0]) == [map[]]
  {
    assert names[..i + 1][..i] == names[..i];
  }

  lemma NoRowsYet(axes: Axes)
    ensures RowsUpTo(axes, []) == [map[]]
  {
  }

  method ValidateAxes(axes: Axes) returns (r: Result<()>)
    ensures r == if ValidAxes(axes) then Ok(()) else Err(Validation)
  {
    hide IsBlank, AxisNames;
    var names := AxisNames(axes);
    var i := 0;
    while i < |names|
      invariant 0 <= i <= |names|
      invariant forall k :: k in names[..i] ==> !IsBlank(k) && axes[k] != []
    {
      var k := names[i];
      assert k in names;
      if IsBlank(k) || axes[k] == [] {
        return Err(Validation);
      }
      assert names[..i + 1] == names[..i] + [k];
      i := i + 1;
    }
    assert names[..i] == names;
    r := Ok(());
  }

  /** Expansion succeeds exactly on valid axes whose product fits the machine word: once the size has
      been computed, the check inside the loop cannot fail. */
  method ExpandAxes(axes: Axes) returns (r: Result<seq<Params>>)
    ensures r.Ok? <==> ValidAxes(axes) && Product(GridLengths(axes)) < USIZE
    ensures r.Ok? ==> r.value == GridRows(axes) && AreRows(axes, AxisNames(axes), r.value)
    ensures r.Err? ==> r.error == Validation
    ensures r.Err? <==> HasBadAxis(axes) || Product(GridLengths(axes)) >= USIZE
    ensures r.Ok? ==> |r.value| > 0
  {
    hide Product, IsBlank, CheckedProduct, AxisNames, AreRows, ValidAxes, RowsUpTo, HasBadAxis;
    ValidExactlyWhen(axes);
    var valid := ValidateAxes(axes);
    if valid.Err? {
      return Err(Validation);
    }
    var size := GridSize(axes);
    if size.Err? {
      return Err(Validation);
    }
    var names := AxisNames(axes);
    ghost var lens := Lengths(axes, names);
    NamesAreValid(axes, names);
    var rows: seq<Params> := [map[]];
    var i := 0;
    NoRowsYet(axes);
    assert names[..0] == [];
    while i < |names|
      invariant 0 <= i <= |names|
      invariant rows == RowsUpTo(axes, names[..i])
    {
      assert names[i] in names;
      BuiltRowsAreRows(axes, names[..i]);
      RowCount(axes, names, i, rows);
      ProductChecks(lens, i);
      var capacity := CheckedProduct(|rows|, |axes[names[i]]|);
      if capacity.Err? {
        assert false;
        return Err(Validation);
      }
      RowsStep(axes, names, i);
      rows := ExtendRows(rows, names[i], axes[names[i]]);
      i := i + 1;
    }
    assert names[..i] == names;
    BuiltRowsAreRows(axes, names);
    SomeRow(axes, names, rows);
    r := Ok(rows);
  }

  /** Some axis has no value, or a blank name. */
  ghost predicate HasBadAxis(axes: Axes) {
    exists k :: k in axes && (axes[k] == [] || IsBlank(k))
  }

  lemma ValidExactlyWhen(axes: Axes)
    ensures ValidAxes(axes) <==> !HasBadAxis(axes)
  {
    hide IsBlank;
  }

  lemma SomeRow(axes: Axes, names: seq<string>, rows: seq<Params>)
    requires (forall k :: k in names ==> k in axes && axes[k] != []) && AreRows(axes, names, rows)
    ensures |rows| > 0
  {
    hide Product, IsRow;
    ProductIsPositive(Lengths(axes, names));
  }

  lemma NamesAreValid(axes: Axes, names: seq<string>)
    requires ValidAxes(axes) && names == AxisNames(axes)
    ensures forall k :: k in names ==> k in axes && axes[k] != []
    ensures forall i :: 0 <= i < |names| ==> Lengths(axes, names)[i] > 0
  {
    hide IsBlank;
    forall i | 0 <= i < |names| ensures Lengths(axes, names)[i] > 0 {
      assert names[i] in names;
    }
  }

  lemma RowCount(axes: Axes, names: seq<string>, i: nat, rows: seq<Params>)
    requires i < |names| && forall k :: k in names ==> k in axes && axes[k] != []
    requires AreRows(axes, names[..i], rows)
    ensures |rows| == Product(Lengths(axes, names)[..i])
  {
    LengthsPrefix(axes, names, i);
  }

  /** Every choice of one value number per axis is exactly one row, the last axis running fastest. */
  lemma EveryChoiceOnce(axes: Axes, names: seq<string>, rows: seq<Params>, c: seq<nat>)
    requires forall k :: k in names ==> k in axes && axes[k] != []
    requires AreRows(axes, names, rows) && AreDigits(Lengths(axes, names), c)
    ensures var x := Encode(Lengths(axes, names), c);
      && x < |rows| && IsRow(axes, names, c, rows[x])
      && forall y :: 0 <= y < |rows| && Decode(Lengths(axes, names), y) == c ==> y == x
  {
    hide IsRow, Encode, Decode, Product;
    var lens := Lengths(axes, names);
    EncodeThenDecode(lens, c);
    forall y | 0 <= y < |rows| && Decode(lens, y) == c ensures y == Encode(lens, c) {
      DecodeThenEncode(lens, y);
    }
  }

  /** Rows are in order: of two rows the earlier has, on the first axis in key order where they differ, the value
      that is listed earlier. */
  lemma {:induction false} DigitsInOrder(lens: seq<nat>, x: nat, y: nat) returns (i: nat)
    requires (forall k :: 0 <= k < |lens| ==> lens[k] > 0) && x < y < Product(lens)
    ensures i < |lens| && Decode(lens, x)[..i] == Decode(lens, y)[..i]
    ensures Decode(lens, x)[i] < Decode(lens, y)[i]
  {
    hide Decode, Product;
    SomeDigit(lens, y);
    var n := |lens| - 1;
    DecodeSplits(lens, x);
    DecodeSplits(lens, y);
    Quotients(x, y, lens[n]);
    var a, b := x / lens[n], y / lens[n];
    if a < b {
      i := DigitsInOrder(lens[..n], a, b);
      SamePrefix(Decode(lens, x), Decode(lens, y), n, i);
    } else {
      i := n;
    }
  }

  lemma SomeDigit(lens: seq<nat>, y: nat)
    requires (forall k :: 0 <= k < |lens| ==> lens[k] > 0) && 0 < y < Product(lens)
    ensures lens != [] && y / lens[|lens| - 1] < Product(lens[..|lens| - 1])
  {
    QuotientBelow(y, Product(lens[..|lens| - 1]), lens[|lens| - 1]);
  }

  /** Two numbers that differ first at `i` within a prefix do so as a whole. */
  lemma SamePrefix(a: seq<nat>, b: seq<nat>, n: nat, i: nat)
    requires i < n <= |a| && n <= |b| && a[..n][..i] == b[..n][..i] && a[..n][i] < b[..n][i]
    ensures a[..i] == b[..i] && a[i] < b[i]
  {
    assert a[..i] == a[..n][..i] && b[..i] == b[..n][..i];
  }

  lemma DecodeSplits(lens: seq<nat>, x: nat)
    requires lens != [] && forall k :: 0 <= k < |lens| ==> lens[k] > 0
    ensures var n := |lens| - 1;
      && |Decode(lens, x)| == |lens|
      && Decode(lens, x)[..n] == Decode(lens[..n], x / lens[n]) && Decode(lens, x)[n] == x % lens[n]
  {
  }

  lemma Quotients(x: nat, y: nat, d: nat)
    requires d > 0 && x < y
    ensures x / d <= y / d && (x / d == y / d ==> x % d < y % d)
  {
    assert x == (x / d) * d + x % d && y == (y / d) * d + y % d;
    Scaled(y / d + 1, x / d, d);
    assert (y / d + 1) * d == (y / d) * d + d;
  }
}
