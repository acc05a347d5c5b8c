/** `plan_experiment`: every grid row with every seed, numbered in order. */
module Planner {
  import opened Wrappers
  import opened Matrix

  datatype Job = Job(
    jobId: string, experiment: string, condition: Option<string>, variant: Option<string>,
    cell: Option<nat>, params: Params, seed: Option<nat>)

  // ---------------------------------------------------------------- zero-padded ids

  function DigitChar(d: nat): char
    requires d < 10
  {
    "0123456789"[d]
  }

  function Decimal(n: nat): (s: string)
    ensures |s| > 0
  {
    if n < 10 then [DigitChar(n)] else Decimal(n / 10) + [DigitChar(n % 10)]
  }

  /** `{:04}`: padded to four digits, longer when the number is. */
  function PaddedId(n: nat): string {
    var s := Decimal(n);
    if |s| >= 4 then s else seq(4 - |s|, _ => '0') + s
  }

  function DigitValue(c: char): nat {
    if '0' <= c <= '9' then c as nat - '0' as nat else 0
  }

  /** The number a digit text stands for. */
  function Reading(s: string): nat {
    if s == "" then 0 else Reading(s[..|s| - 1]) * 10 + DigitValue(s[|s| - 1])
  }

  lemma DigitReads(d: nat)
    requires d < 10
    ensures DigitValue(DigitChar(d)) == d
  {
  }

  lemma {:induction false} DecimalReads(n: nat)
    ensures Reading(Decimal(n)) == n
  {
    DigitReads(n % 10);
    if n < 10 {
      DigitReads(n);
      assert [DigitChar(n)][..0] == "";
    } else {
      DecimalReads(n / 10);
      var s := Decimal(n);
      assert s[..|s| - 1] == Decimal(n / 10);
    }
  }

  lemma {:induction false} ZerosReadAlong(k: nat, s: string)
    ensures Reading(seq(k, _ => '0') + s) == Reading(s)
    decreases |s|, k
  {
    var zeros := seq(k, _ => '0');
    if s != "" {
      ZerosReadAlong(k, s[..|s| - 1]);
      assert (zeros + s)[..|zeros + s| - 1] == zeros + s[..|s| - 1];
    } else if k > 0 {
      ZerosReadAlong(k - 1, "");
      assert zeros + s == zeros;
      assert zeros[..k - 1] == seq(k - 1, _ => '0') + "";
    } else {
      assert zeros + s == "";
    }
  }

  lemma {:induction false} DecimalIsDigits(n: nat)
    ensures forall i :: 0 <= i < |Decimal(n)| ==> '0' <= Decimal(n)[i] <= '9'
    ensures |Decimal(n)| > 1 ==> Decimal(n)[0] != '0'
  {
    if n >= 10 {
      DecimalIsDigits(n / 10);
    }
  }

  /** A padded id reads as its number in four digits, or in more without a leading zero. */
  lemma PaddedIdReads(n: nat)
    ensures Reading(PaddedId(n)) == n && |PaddedId(n)| >= 4
    ensures forall i :: 0 <= i < |PaddedId(n)| ==> '0' <= PaddedId(n)[i] <= '9'
    ensures |PaddedId(n)| > 4 ==> PaddedId(n)[0] != '0'
  {
    DecimalReads(n);
    DecimalIsDigits(n);
    if |Decimal(n)| < 4 {
      ZerosReadAlong(4 - |Decimal(n)|, Decimal(n));
    }
  }

  /** Padded ids of different numbers differ, also beyond four digits. */
  lemma PaddedIdsDiffer(a: nat, b: nat)
    requires PaddedId(a) == PaddedId(b)
    ensures a == b
  {
    hide PaddedId;
    PaddedIdReads(a);
    PaddedIdReads(b);
  }

  // ---------------------------------------------------------------- planning one experiment

  /** What planning reads of a validated experiment. */
  datatype Spec = Spec(name: string, params: Params, matrix: Axes, seeds: seq<nat>)

  function SeedSlots(seeds: seq<nat>): (slots: seq<Option<nat>>)
    ensures |slots| > 0
  {
    if seeds == [] then [None] else seq(|seeds|, i requires 0 <= i < |seeds| => Some(seeds[i]))
  }

  /** Job number `i`: row `i / K` under seed `i % K`, for `K` seed slots. */
  ghost function ExperimentJob(spec: Spec, rows: seq<Params>, i: nat): Job
    requires i < |rows| * |SeedSlots(spec.seeds)|
  {
    var slots := SeedSlots(spec.seeds);
    QuotientBelow(i, |rows|, |slots|);
    Job(PaddedId(i), spec.name, None, None, Some(i), spec.params + rows[i / |slots|], slots[i % |slots|])
  }

  ghost predicate IsPlan(spec: Spec, rows: seq<Params>, jobs: seq<Job>) {
    && |jobs| == |rows| * |SeedSlots(spec.seeds)|
    && forall i :: 0 <= i < |jobs| ==> jobs[i] == ExperimentJob(spec, rows, i)
  }

  lemma JobPlace(x: nat, k: nat, slots: nat)
    requires k < slots
    ensures (x * slots + k) / slots == x && (x * slots + k) % slots == k
  {
    DivMod(x, k, slots);
  }

  method PushJobs(spec: Spec, rows: seq<Params>) returns (jobs: seq<Job>)
    ensures IsPlan(spec, rows, jobs)
  {
    hide PaddedId;
    jobs := [];
    var slots := SeedSlots(spec.seeds);
    var index := 0;
    var x := 0;
    while x < |rows|
      invariant 0 <= x <= |rows|
      invariant index == |jobs| == x * |slots| <= |rows| * |slots|
      invariant forall i :: 0 <= i < |jobs| ==> jobs[i] == ExperimentJob(spec, rows, i)
    {
      var k := 0;
      Scaled(x + 1, |rows|, |slots|);
      assert (x + 1) * |slots| == x * |slots| + |slots|;
      while k < |slots|
        invariant 0 <= k <= |slots|
        invariant index == |jobs| == x * |slots| + k <= |rows| * |slots|
        invariant forall i :: 0 <= i < |jobs| ==> jobs[i] == ExperimentJob(spec, rows, i)
      {
        JobPlace(x, k, |slots|);
        jobs := jobs + [Job(PaddedId(index), spec.name, None, None, Some(index), spec.params + rows[x], slots[k])];
        index := index + 1;
        k := k + 1;
      }
      x := x + 1;
    }
  }

  /** The plan exists exactly when the axes are valid and the number of jobs fits the machine word. */
  method PlanExperiment(spec: Spec) returns (r: Result<seq<Job>>)
    ensures r.Ok? <==> ValidAxes(spec.matrix) && Product(GridLengths(spec.matrix)) * |SeedSlots(spec.seeds)| < USIZE
    ensures r.Ok? ==> IsPlan(spec, GridRows(spec.matrix), r.value)
  {
    hide PaddedId, Product, AxisNames, IsRow, Decode, ValidAxes, GridRows;
    var rows := ExpandAxes(spec.matrix);
    GridFits(spec);
    if rows.Err? {
      return Err(Validation);
    }
    GridCount(spec.matrix, rows.value);
    var count := CheckedProduct(|rows.value|, if |spec.seeds| == 0 then 1 else |spec.seeds|);
    if count.Err? {
      return Err(Validation);
    }
    var jobs := PushJobs(spec, rows.value);
    r := Ok(jobs);
  }

  /** Job `r * K + k` of a plan runs row `r` over the experiment's own parameters, with seed `k` of `K`; without
      seeds there is one job a row. */
  lemma JobRunsRow(spec: Spec, rows: seq<Params>, jobs: seq<Job>, r: nat, k: nat)
    requires IsPlan(spec, rows, jobs) && r < |rows| && (if spec.seeds == [] then k == 0 else k < |spec.seeds|)
    ensures var count := if spec.seeds == [] then 1 else |spec.seeds|;
      var j := r * count + k;
      && |jobs| == |rows| * count && j < |jobs|
      && jobs[j].experiment == spec.name && jobs[j].cell == Some(j)
      && Reading(jobs[j].jobId) == j
      && jobs[j].seed == (if spec.seeds == [] then None else Some(spec.seeds[k]))
      && jobs[j].params.Keys == rows[r].Keys + spec.params.Keys
      && (forall key :: key in rows[r] ==> jobs[j].params[key] == rows[r][key])
      && (forall key :: key in spec.params && key !in rows[r] ==> jobs[j].params[key] == spec.params[key])
  {
    hide PaddedId, Reading;
    var count := |SeedSlots(spec.seeds)|;
    JobPlace(r, k, count);
    ScaledBelow(r, |rows|, k, count);
    PaddedIdReads(r * count + k);
    assert jobs[r * count + k] == ExperimentJob(spec, rows, r * count + k);
  }

  lemma GridFits(spec: Spec)
    ensures Product(GridLengths(spec.matrix)) <= Product(GridLengths(spec.matrix)) * |SeedSlots(spec.seeds)|
  {
    hide Product, GridLengths, SeedSlots;
    var size, slots := Product(GridLengths(spec.matrix)), |SeedSlots(spec.seeds)|;
    Scaled(1, slots, size);
    assert slots * size == size * slots;
  }

  lemma GridCount(axes: Axes, rows: seq<Params>)
    requires ValidAxes(axes) && AreRows(axes, AxisNames(axes), rows)
    ensures |rows| == Product(GridLengths(axes))
  {
  }
}
