/** The two-row edit distance behind the suggestion of a reference, and what it measures. */
module EditDistance {
  import opened Wrappers
  import opened Glob

  // ---------------------------------------------------------------- edit scripts

  datatype Op = Keep | Insert(c: char) | Delete | Replace(c: char)

  function Cost(script: seq<Op>): nat {
    if script == [] then 0
    else Cost(script[..|script| - 1]) + if script[|script| - 1].Keep? then 0 else 1
  }

  /** What the script makes of all of `a`, or nothing when it does not fit. */
  function Run(script: seq<Op>, a: string): Option<string>
    decreases |script|
  {
    if script == [] then if a == "" then Some("") else None
    else
      var rest, op := script[..|script| - 1], script[|script| - 1];
      if op.Insert? then
        var t := Run(rest, a);
        if t.Some? then Some(t.value + [op.c]) else None
      else if a == "" then None
      else
        var t := Run(rest, a[..|a| - 1]);
        if t.None? then None
        else match op
          case Keep => Some(t.value + [a[|a| - 1]])
          case Replace(c) => Some(t.value + [c])
          case Delete => t
  }

  ghost predicate Turns(script: seq<Op>, a: string, b: string) { Run(script, a) == Some(b) }

  function Min(x: nat, y: nat): nat { if x <= y then x else y }

  /** The distance by its recurrence, from the last characters. */
  function Lev(a: string, b: string): nat
    decreases |a| + |b|
  {
    if a == "" then |b|
    else if b == "" then |a|
    else
      var a', b' := a[..|a| - 1], b[..|b| - 1];
      Min(Min(Lev(a, b') + 1, Lev(a', b) + 1), Lev(a', b') + if a[|a| - 1] == b[|b| - 1] then 0 else 1)
  }

  lemma Grow(script: seq<Op>, op: Op)
    ensures (script + [op])[..|script|] == script && (script + [op])[|script|] == op
    ensures Cost(script + [op]) == Cost(script) + if op.Keep? then 0 else 1
  {
  }

  /** Some script has exactly this cost ... */
  lemma {:induction false} SomeScriptCostsLev(a: string, b: string) returns (script: seq<Op>)
    ensures Turns(script, a, b) && Cost(script) == Lev(a, b)
    decreases |a| + |b|
  {
    if a == "" && b == "" {
      script := [];
    } else {
      var rest: seq<Op>;
      var op: Op;
      if b != "" && (a == "" || Lev(a, b) == Lev(a, b[..|b| - 1]) + 1) {
        rest := SomeScriptCostsLev(a, b[..|b| - 1]);
        op := Insert(b[|b| - 1]);
      } else if a != "" && (b == "" || Lev(a, b) == Lev(a[..|a| - 1], b) + 1) {
        rest := SomeScriptCostsLev(a[..|a| - 1], b);
        op := Delete;
      } else {
        rest := SomeScriptCostsLev(a[..|a| - 1], b[..|b| - 1]);
        op := if a[|a| - 1] == b[|b| - 1] then Keep else Replace(b[|b| - 1]);
      }
      script := rest + [op];
      Grow(rest, op);
      assert b != "" ==> b == b[..|b| - 1] + [b[|b| - 1]];
    }
  }

  /** ... and none has less. */
  lemma {:induction false} NoScriptCostsLess(script: seq<Op>, a: string, b: string)
    requires Turns(script, a, b)
    ensures Lev(a, b) <= Cost(script)
    decreases |script|
  {
    if script != [] {
      var rest, op := script[..|script| - 1], script[|script| - 1];
      match op
      case Insert(c) =>
        NoScriptCostsLess(rest, a, b[..|b| - 1]);
      case Delete =>
        NoScriptCostsLess(rest, a[..|a| - 1], b);
      case Keep =>
        NoScriptCostsLess(rest, a[..|a| - 1], b[..|b| - 1]);
      case Replace(c) =>
        NoScriptCostsLess(rest, a[..|a| - 1], b[..|b| - 1]);
    }
  }

  lemma {:induction false} LevIsSymmetric(a: string, b: string)
    ensures Lev(a, b) == Lev(b, a)
    decreases |a| + |b|
  {
    if a != "" && b != "" {
      LevIsSymmetric(a, b[..|b| - 1]);
      LevIsSymmetric(a[..|a| - 1], b);
      LevIsSymmetric(a[..|a| - 1], b[..|b| - 1]);
    }
  }

  lemma {:induction false} LevIsZero(a: string, b: string)
    ensures Lev(a, b) == 0 <==> a == b
    decreases |a| + |b|
  {
    if a != "" && b != "" {
      LevIsZero(a[..|a| - 1], b[..|b| - 1]);
      assert a == a[..|a| - 1] + [a[|a| - 1]] && b == b[..|b| - 1] + [b[|b| - 1]];
    }
  }

  /** One script after another, as one script that costs no more. */
  lemma {:induction false} Composed(s: seq<Op>, t: seq<Op>, a: string, b: string, c: string) returns (u: seq<Op>)
    requires Turns(s, a, b) && Turns(t, b, c)
    ensures Turns(u, a, c) && Cost(u) <= Cost(s) + Cost(t)
    decreases |s| + |t|
  {
    if t != [] && t[|t| - 1].Insert? {
      var rest := Composed(s, t[..|t| - 1], a, b, c[..|c| - 1]);
      u := rest + [t[|t| - 1]];
      Grow(rest, t[|t| - 1]);
    } else if s != [] && s[|s| - 1].Delete? {
      var rest := Composed(s[..|s| - 1], t, a[..|a| - 1], b, c);
      u := rest + [Delete];
      Grow(rest, Delete);
    } else if s == [] {
      u := [];
    } else {
      u := ComposedLast(s, t, a, b, c);
    }
  }

  /** The last step of `s` makes a character that the last step of `t` takes. */
  lemma {:induction false} ComposedLast(s: seq<Op>, t: seq<Op>, a: string, b: string, c: string) returns (u: seq<Op>)
    requires Turns(s, a, b) && Turns(t, b, c)
    requires s != [] && !s[|s| - 1].Delete? && t != [] && !t[|t| - 1].Insert?
    ensures Turns(u, a, c) && Cost(u) <= Cost(s) + Cost(t)
    decreases |s| + |t|, 0
  {
    var s', t', first, second := s[..|s| - 1], t[..|t| - 1], s[|s| - 1], t[|t| - 1];
    var a' := if first.Insert? then a else a[..|a| - 1];
    var b' := b[..|b| - 1];
    var c' := if second.Delete? then c else c[..|c| - 1];
    assert Turns(s', a', b') && Turns(t', b', c');
    var rest := Composed(s', t', a', b', c');
    if first.Insert? && second.Delete? {
      u := rest;
    } else {
      var op := if first.Insert? then Insert(c[|c| - 1])
                else if second.Delete? then Delete
                else if first.Keep? && second.Keep? then Keep
                else Replace(c[|c| - 1]);
      u := rest + [op];
      Grow(rest, op);
      assert !second.Delete? ==> c == c' + [c[|c| - 1]];
    }
  }

  lemma TriangleInequality(a: string, b: string, c: string)
    ensures Lev(a, c) <= Lev(a, b) + Lev(b, c)
  {
    var s := SomeScriptCostsLev(a, b);
    var t := SomeScriptCostsLev(b, c);
    var u := Composed(s, t, a, b, c);
    NoScriptCostsLess(u, a, c);
  }

  // ---------------------------------------------------------------- the two-row computation

  predicate Ascii(s: string) { forall i :: 0 <= i < |s| ==> s[i] as int < 0x80 }

  lemma LevUnfolds(a: string, b: string)
    requires a != "" && b != ""
    ensures var a', b' := a[..|a| - 1], b[..|b| - 1];
      Lev(a, b) == Min(Min(Lev(a, b') + 1, Lev(a', b) + 1), Lev(a', b') + if a[|a| - 1] == b[|b| - 1] then 0 else 1)
  {
    hide Min;
  }

  lemma LevStep(a: string, b: string, i: nat, j: nat)
    requires i < |a| && j < |b|
    ensures Lev(a[..i + 1], b[..j + 1])
         == Min(Min(Lev(a[..i + 1], b[..j]) + 1, Lev(a[..i], b[..j + 1]) + 1),
                Lev(a[..i], b[..j]) + if a[i] == b[j] then 0 else 1)
  {
    hide Lev, Min;
    LevUnfolds(a[..i + 1], b[..j + 1]);
    assert a[..i + 1][..i] == a[..i] && b[..j + 1][..j] == b[..j];
  }

  lemma LevAtEdge(a: string, b: string)
    ensures Lev(a, b[..0]) == |a|
    ensures forall j :: 0 <= j <= |b| ==> Lev(a[..0], b[..j]) == j
  {
  }

  /** The first row is as long as the right text in bytes; every later one as long as it in characters. */
  method Distance(left: string, right: string) returns (d: nat)
    ensures left != "" ==> d == Lev(left, right)
    ensures left == "" ==> d == |Utf8(right)|
  {
    hide Utf8, Lev, Min;
    LevAtEdge(left, right);
    var previous := seq(|Utf8(right)| + 1, j requires 0 <= j => j);
    var i := 0;
    while i < |left|
      invariant 0 <= i <= |left|
      invariant |previous| == if i == 0 then |Utf8(right)| + 1 else |right| + 1
      invariant i == 0 ==> previous[|previous| - 1] == |Utf8(right)|
      invariant forall j :: 0 <= j <= |right| ==> j < |previous| && previous[j] == Lev(left[..i], right[..j])
    {
      var current := [i + 1];
      LevAtEdge(left[..i + 1], right);
      var j := 0;
      while j < |right|
        invariant 0 <= j <= |right| && |current| == j + 1
        invariant forall k :: 0 <= k <= j ==> current[k] == Lev(left[..i + 1], right[..k])
      {
        LevStep(left, right, i, j);
        var insert := current[j] + 1;
        var delete := previous[j + 1] + 1;
        var replace := previous[j] + if left[i] != right[j] then 1 else 0;
        current := current + [Min(Min(insert, delete), replace)];
        j := j + 1;
      }
      previous := current;
      i := i + 1;
    }
    assert left[..i] == left && right[..|right|] == right;
    d := previous[|previous| - 1];
  }

  /** The computed number. */
  ghost function Computed(left: string, right: string): nat {
    if left == "" then |Utf8(right)| else Lev(left, right)
  }

  /** It is the length of a shortest script exactly when the left text is not empty or the right one is
      plain ASCII. */
  lemma ComputedIsShortest(left: string, right: string)
    ensures Computed(left, right) == Lev(left, right) <==> left != "" || Ascii(right)
  {
  }

  /** An empty left text counts bytes: the letter e with an acute accent is one insertion but measures two. */
  lemma EmptyLeftCountsBytes()
    ensures Lev("", "\U{E9}") == 1 && Computed("", "\U{E9}") == 2
  {
    assert Utf8("\U{E9}"[1..]) == [];
    assert Utf8("\U{E9}") == Utf8Char('\U{E9}') + [];
  }

  // ---------------------------------------------------------------- the nearest reference

  datatype Record = Record(kind: string, name: string)

  function Threshold(name: string): nat {
    if |Utf8(name)| / 3 > 2 then |Utf8(name)| / 3 else 2
  }

  /** Record `i` is the first of the given kind at the least computed distance. */
  ghost predicate IsNearest(records: seq<Record>, kind: string, name: string, i: nat) {
    && i < |records| && records[i].kind == kind
    && (forall j :: 0 <= j < |records| && records[j].kind == kind ==>
          Computed(records[i].name, name) <= Computed(records[j].name, name))
    && (forall j :: 0 <= j < i && records[j].kind == kind ==>
          Computed(records[i].name, name) < Computed(records[j].name, name))
  }

  method NearestRef(records: seq<Record>, kind: string, name: string) returns (r: Option<string>)
    ensures r.None? <==> forall i: nat ::
              IsNearest(records, kind, name, i) ==>
                Computed(records[i].name, name) > 2 && 3 * Computed(records[i].name, name) > |Utf8(name)|
    ensures r.Some? ==> exists i: nat ::
              && IsNearest(records, kind, name, i) && r.value == kind + ":" + records[i].name
              && (Computed(records[i].name, name) <= 2 || 3 * Computed(records[i].name, name) <= |Utf8(name)|)
  {
    hide Computed, Lev, Utf8;
    forall d: nat ensures d <= Threshold(name) <==> d <= 2 || 3 * d <= |Utf8(name)| {
      WithinThreshold(name, d);
    }
    var best: Option<(nat, nat)> := None;
    var i := 0;
    while i < |records|
      invariant 0 <= i <= |records|
      invariant best.None? ==> forall j :: 0 <= j < i ==> records[j].kind != kind
      invariant best.Some? ==>
        best.value.0 < i && IsNearest(records[..i], kind, name, best.value.0)
        && best.value.1 == Computed(records[best.value.0].name, name)
    {
      assert records[..i + 1] == records[..i] + [records[i]];
      if records[i].kind == kind {
        var d := MeasuredDistance(records[i].name, name);
        if best.None? || d < best.value.1 {
          best := Some((i, d));
        }
      }
      i := i + 1;
    }
    assert records[..i] == records;
    if best.None? {
      return None;
    }
    OnlyNearest(records, kind, name, best.value.0);
    var nearest := records[best.value.0];
    r := if best.value.1 <= Threshold(name) then Some(nearest.kind + ":" + nearest.name) else None;
  }

  /** Two, or a third of the bytes, whichever is more. */
  lemma WithinThreshold(name: string, d: nat)
    ensures d <= Threshold(name) <==> d <= 2 || 3 * d <= |Utf8(name)|
  {
    hide Utf8;
  }

  method MeasuredDistance(left: string, right: string) returns (d: nat)
    ensures d == Computed(left, right)
  {
    d := Distance(left, right);
  }

  lemma OnlyNearest(records: seq<Record>, kind: string, name: string, i: nat)
    requires IsNearest(records, kind, name, i)
    ensures forall j: nat :: IsNearest(records, kind, name, j) ==> j == i
  {
  }
}
