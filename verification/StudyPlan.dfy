/** `plan_registry_study`: experiments x study axes x variants x seeds, with layered parameters. */
module StudyPlan {
  import opened Wrappers
  import opened Order
  import opened Text
  import opened Documents
  import opened Matrix
  import opened Planner

  datatype Mode = Full | Qualification

  datatype Experiment = Experiment(name: string, params: Params, matrix: Axes, seeds: seq<nat>)

  datatype Study = Study(params: Params, axes: Axes, variants: map<string, Params>, seeds: seq<nat>)

  /** One experiment of the study, under a condition or on its own. */
  datatype Case = Case(condition: Option<string>, experiment: string, params: Params)

  datatype Qualify = Qualify(params: Params, seed: nat)

  /** What stays the same through one plan. */
  datatype Inputs = Inputs(study: Study, qualify: Qualify, defaults: Params, overrides: Params)

  // ---------------------------------------------------------------- parameters, layer by layer

  /** Defaults below the experiment's below the study's, then the condition's declared overrides. */
  function BaseParams(given: Inputs, e: Experiment, c: Case): Result<Json> {
    Declared(Extend(Extend(Extend(Obj(map[]), given.defaults), e.params), given.study.params), c.params)
  }

  /** The value a plain key has before the condition's overrides: the study's, else the experiment's,
      else the default. */
  function Layered(given: Inputs, x: Experiment, key: string): Option<Json> {
    if key in given.study.params then Some(given.study.params[key])
    else if key in x.params then Some(x.params[key])
    else if key in given.defaults then Some(given.defaults[key])
    else None
  }

  /** The condition wins over the study, the study over the experiment, the experiment over the defaults. */
  lemma LayersTakePrecedence(given: Inputs, x: Experiment, c: Case, key: string)
    requires '.' !in key && BaseParams(given, x, c).Ok?
    ensures key in c.params ==> Get(BaseParams(given, x, c).value, [key]) == Some(c.params[key])
    ensures (forall k :: k in c.params ==> Split(k, '.')[0] != key) ==>
              Get(BaseParams(given, x, c).value, [key]) == Layered(given, x, key)
  {
    hide DeclaredFrom, SortedKeys, Split;
    var layers := Extend(Extend(Extend(Obj(map[]), given.defaults), x.params), given.study.params);
    GetStep(layers, key, []);
    assert [key] + [] == [key];
    if key in c.params {
      DeclaredPlainKeyWins(layers, SortedKeys(c.params), c.params, map[], key);
    }
    if forall k :: k in c.params ==> Split(k, '.')[0] != key {
      DeclaredSpares(layers, SortedKeys(c.params), c.params, map[], key);
    }
  }

  type Variant = (Option<string>, Params)

  function VariantRows(variants: map<string, Params>): (rows: seq<Variant>)
    ensures |rows| > 0
  {
    if variants == map[] then [(None, map[])]
    else
      var names := VariantNames(variants);
      seq(|names|, i requires 0 <= i < |names| => (Some(names[i]), variants[names[i]]))
  }

  function VariantNames(variants: map<string, Params>): (names: seq<string>)
    requires variants != map[]
    ensures Distinct(names) && |names| > 0 && forall k :: k in names <==> k in variants
  {
    StrLeIsTotal();
    var names := Ascending(variants.Keys, StrLe);
    assert |names| == 0 ==> forall k :: k !in variants;
    names
  }

  /** The study's seeds replace the experiment's; without any, one job without a seed. */
  function FullSeeds(study: seq<nat>, experiment: seq<nat>): seq<Option<nat>> {
    SeedSlots(if study == [] then experiment else study)
  }

  function Seeds(given: Inputs, e: Experiment, mode: Mode): seq<Option<nat>> {
    if mode == Qualification then [Some(given.qualify.seed)] else FullSeeds(given.study.seeds, e.seeds)
  }

  /** The rows a case is planned over. */
  datatype Layout = Layout(experimentRows: seq<Params>, studyRows: seq<Params>, variants: seq<Variant>, base: Json)

  /** Grid rows and the variant on top of the base. */
  function CellParams(l: Layout, e: nat, s: nat, v: nat): Result<Json>
    requires e < |l.experimentRows| && s < |l.studyRows| && v < |l.variants|
  {
    var first := Dotted(l.base, SortedKeys(l.experimentRows[e]), l.experimentRows[e], false);
    if first.1.Err? then Err(first.1.error)
    else
      var second := Dotted(first.0, SortedKeys(l.studyRows[s]), l.studyRows[s], false);
      if second.1.Err? then Err(second.1.error) else Declared(second.0, l.variants[v].1)
  }

  /** Runtime overrides come last; a qualification's own go first. */
  function JobParams(given: Inputs, mode: Mode, cell: Json): Json {
    var own := given.qualify.params;
    var qualified := if mode == Qualification then Runtime(cell, SortedKeys(own), own) else cell;
    Runtime(qualified, SortedKeys(given.overrides), given.overrides)
  }

  // ---------------------------------------------------------------- the mixed-radix layout

  function Lens3(l: Layout): seq<nat> {
    [|l.experimentRows|, |l.studyRows|, |l.variants|]
  }

  function Lens4(l: Layout, seeds: nat): seq<nat> {
    [|l.experimentRows|, |l.studyRows|, |l.variants|, seeds]
  }

  ghost predicate Nonempty(l: Layout) {
    |l.experimentRows| > 0 && |l.studyRows| > 0 && |l.variants| > 0
  }

  function Cell(l: Layout, e: nat, s: nat, v: nat): nat {
    (e * |l.studyRows| + s) * |l.variants| + v
  }

  lemma CellIsEncode(l: Layout, e: nat, s: nat, v: nat)
    ensures Encode(Lens3(l), [e, s, v]) == Cell(l, e, s, v)
  {
    hide Encode;
    var lens, c := Lens3(l), [e, s, v];
    EncodeStep(lens, c, 0);
    EncodeStep(lens, c, 1);
    EncodeStep(lens, c, 2);
    assert lens[..3] == lens && c[..3] == c;
  }

  lemma JobIsEncode(l: Layout, seeds: nat, e: nat, s: nat, v: nat, k: nat)
    ensures Encode(Lens4(l, seeds), [e, s, v, k]) == Cell(l, e, s, v) * seeds + k
  {
    hide Encode;
    var lens, c := Lens4(l, seeds), [e, s, v, k];
    EncodeStep(lens, c, 3);
    assert lens[..4] == lens && c[..4] == c;
    assert lens[..3] == Lens3(l) && c[..3] == [e, s, v];
    CellIsEncode(l, e, s, v);
  }

  /** How many jobs a case has. */
  function JobCount(l: Layout, seeds: nat): nat {
    |l.experimentRows| * |l.studyRows| * |l.variants| * seeds
  }

  lemma CountIsProduct(l: Layout, seeds: nat)
    ensures Product(Lens4(l, seeds)) == JobCount(l, seeds)
  {
    hide Product;
    var lens := Lens4(l, seeds);
    EncodeStep(lens, lens, 0);
    ProductStep(lens, 0);
    ProductStep(lens, 1);
    ProductStep(lens, 2);
    ProductStep(lens, 3);
    assert lens[..4] == lens;
  }

  /** Job number `i` of a case whose jobs start at `start`. */
  ghost function JobNo(given: Inputs, x: Experiment, c: Case, mode: Mode, l: Layout, start: nat, i: nat): Job
    requires Nonempty(l) && i < JobCount(l, |Seeds(given, x, mode)|)
  {
    var seeds := Seeds(given, x, mode);
    CountIsProduct(l, |seeds|);
    ProductOfZero(l);
    DecodeThenEncode(Lens4(l, |seeds|), i);
    var d := Decode(Lens4(l, |seeds|), i);
    Numbered(given, x, c, mode, l, start, i, d[0], d[1], d[2], d[3])
  }

  lemma ProductOfZero(l: Layout)
    ensures JobCount(l, 0) == 0
  {
  }

  /** The job of experiment row `e`, study row `s`, variant `v` and seed `k`, as number `start + i`. */
  function Numbered(given: Inputs, x: Experiment, c: Case, mode: Mode, l: Layout, start: nat, i: nat,
                    e: nat, s: nat, v: nat, k: nat): Job
    requires e < |l.experimentRows| && s < |l.studyRows| && v < |l.variants| && k < |Seeds(given, x, mode)|
  {
    var cell := CellParams(l, e, s, v);
    var params := JobParams(given, mode, if cell.Ok? then cell.value else Null);
    Job(PaddedId(start + i), x.name, c.condition, l.variants[v].0, Some(Cell(l, e, s, v)),
        if params.Obj? then params.fields else map[], Seeds(given, x, mode)[k])
  }

  /** Job `((e * S + s) * V + v) * K + k` is the one for exactly these four, in cell `(e * S + s) * V + v`. */
  lemma JobAtPlace(given: Inputs, x: Experiment, c: Case, mode: Mode, l: Layout, start: nat, e: nat, s: nat, v: nat,
                   k: nat)
    requires e < |l.experimentRows| && s < |l.studyRows| && v < |l.variants| && k < |Seeds(given, x, mode)|
    ensures var i := Cell(l, e, s, v) * |Seeds(given, x, mode)| + k;
      && i < JobCount(l, |Seeds(given, x, mode)|)
      && JobNo(given, x, c, mode, l, start, i) == Numbered(given, x, c, mode, l, start, i, e, s, v, k)
  {
    hide CellParams, JobParams, PaddedId, Decode, Encode, Product;
    var lens, digits := Lens4(l, |Seeds(given, x, mode)|), [e, s, v, k];
    assert AreDigits(lens, digits);
    EncodeThenDecode(lens, digits);
    JobIsEncode(l, |Seeds(given, x, mode)|, e, s, v, k);
    CountIsProduct(l, |Seeds(given, x, mode)|);
  }

  // ---------------------------------------------------------------- planning one case

  ghost function LayoutOf(given: Inputs, x: Experiment, c: Case): Layout
    requires BaseParams(given, x, c).Ok?
  {
    Layout(GridRows(x.matrix), GridRows(given.study.axes), VariantRows(given.study.variants),
           BaseParams(given, x, c).value)
  }

  ghost predicate GridFitsWord(axes: Axes) {
    ValidAxes(axes) && Product(GridLengths(axes)) < USIZE
  }

  ghost predicate CellsOk(l: Layout, n: nat) {
    forall e, s, v ::
      0 <= e < |l.experimentRows| && 0 <= s < |l.studyRows| && 0 <= v < |l.variants| && Cell(l, e, s, v) < n ==>
        CellParams(l, e, s, v).Ok?
  }

  /** A case can be planned: the grids and the job count fit, and every layer of parameters applies. */
  ghost predicate CasePlans(given: Inputs, x: Experiment, c: Case, mode: Mode) {
    && GridFitsWord(x.matrix) && GridFitsWord(given.study.axes) && BaseParams(given, x, c).Ok?
    && var l := LayoutOf(given, x, c);
       JobCount(l, |Seeds(given, x, mode)|) < USIZE && CellsOk(l, JobCount(l, 1))
  }

  ghost predicate Progress(before: seq<Job>, now: seq<Job>, given: Inputs, x: Experiment, c: Case, mode: Mode,
                           l: Layout, n: nat)
    requires Nonempty(l)
  {
    && n <= JobCount(l, |Seeds(given, x, mode)|)
    && |now| == |before| + n && now[..|before|] == before
    && forall i {:trigger JobNo(given, x, c, mode, l, |before|, i)} :: 0 <= i < n ==>
         now[|before| + i] == JobNo(given, x, c, mode, l, |before|, i)
  }

  lemma CellOrder(l: Layout, e: nat, s: nat)
    ensures Cell(l, e, s, |l.variants|) == Cell(l, e, s + 1, 0)
    ensures Cell(l, e, |l.studyRows|, 0) == Cell(l, e + 1, 0, 0)
    ensures Cell(l, 0, 0, 0) == 0
    ensures Cell(l, |l.experimentRows|, 0, 0) == JobCount(l, 1)
  {
    assert (e * |l.studyRows| + (s + 1)) * |l.variants| == (e * |l.studyRows| + s) * |l.variants| + |l.variants|;
    assert (e + 1) * |l.studyRows| == e * |l.studyRows| + |l.studyRows|;
  }

  lemma CellBelow(l: Layout, e: nat, s: nat, v: nat)
    requires e < |l.experimentRows| && s < |l.studyRows| && v < |l.variants|
    ensures Cell(l, e, s, v) < JobCount(l, 1)
  {
    ScaledBelow(e, |l.experimentRows|, s, |l.studyRows|);
    ScaledBelow(e * |l.studyRows| + s, |l.experimentRows| * |l.studyRows|, v, |l.variants|);
  }

  lemma CellIsUnique(l: Layout, e: nat, s: nat, v: nat, e1: nat, s1: nat, v1: nat)
    requires e < |l.experimentRows| && s < |l.studyRows| && v < |l.variants|
    requires e1 < |l.experimentRows| && s1 < |l.studyRows| && v1 < |l.variants|
    requires Cell(l, e, s, v) == Cell(l, e1, s1, v1)
    ensures e == e1 && s == s1 && v == v1
  {
    hide Encode, Decode, Product;
    CellIsEncode(l, e, s, v);
    CellIsEncode(l, e1, s1, v1);
    assert AreDigits(Lens3(l), [e, s, v]) && AreDigits(Lens3(l), [e1, s1, v1]);
    EncodeThenDecode(Lens3(l), [e, s, v]);
    EncodeThenDecode(Lens3(l), [e1, s1, v1]);
    assert [e, s, v] == [e1, s1, v1];
    assert [e, s, v][0] == e && [e, s, v][1] == s && [e, s, v][2] == v;
    assert [e1, s1, v1][0] == e1 && [e1, s1, v1][1] == s1 && [e1, s1, v1][2] == v1;
  }

  lemma OneMoreCell(l: Layout, e: nat, s: nat, v: nat)
    requires e < |l.experimentRows| && s < |l.studyRows| && v < |l.variants|
    requires CellsOk(l, Cell(l, e, s, v)) && CellParams(l, e, s, v).Ok?
    ensures CellsOk(l, Cell(l, e, s, v) + 1)
  {
    hide CellParams, Cell;
    forall e1, s1, v1 | 0 <= e1 < |l.experimentRows| && 0 <= s1 < |l.studyRows| && 0 <= v1 < |l.variants|
                        && Cell(l, e1, s1, v1) < Cell(l, e, s, v) + 1
      ensures CellParams(l, e1, s1, v1).Ok?
    {
      if Cell(l, e1, s1, v1) == Cell(l, e, s, v) {
        CellIsUnique(l, e, s, v, e1, s1, v1);
      }
    }
  }

  method CellValue(l: Layout, e: nat, s: nat, v: nat) returns (r: Result<Json>)
    requires e < |l.experimentRows| && s < |l.studyRows| && v < |l.variants|
    ensures r.Ok? <==> CellParams(l, e, s, v).Ok?
    ensures r.Ok? ==> r.value == CellParams(l, e, s, v).value
  {
    hide Dotted, Declared, SortedKeys;
    var params := new Document(l.base);
    var first := params.ApplyDotted(l.experimentRows[e], false);
    if first.Err? {
      return Err(first.error);
    }
    var second := params.ApplyDotted(l.studyRows[s], false);
    if second.Err? {
      return Err(second.error);
    }
    var third := params.ApplyDeclared(l.variants[v].1);
    if third.Err? {
      return Err(third.error);
    }
    r := Ok(params.value);
  }

  method JobValue(given: Inputs, mode: Mode, cell: Json) returns (params: Json)
    ensures params == JobParams(given, mode, cell)
  {
    hide Runtime, SortedKeys;
    var seeded := new Document(cell);
    if mode == Qualification {
      seeded.ApplyRuntime(given.qualify.params);
    }
    seeded.ApplyRuntime(given.overrides);
    params := seeded.value;
  }

  /** How many jobs the first `cells` cells have. */
  function Jobs(cells: nat, seeds: nat): nat { cells * seeds }

  lemma NextCell(cells: nat, seeds: nat)
    ensures Jobs(cells + 1, seeds) == Jobs(cells, seeds) + seeds
  {
  }

  lemma JobPushed(before: seq<Job>, now: seq<Job>, given: Inputs, x: Experiment, c: Case, mode: Mode, l: Layout,
                  e: nat, s: nat, v: nat, k: nat, job: Job)
    requires Nonempty(l) && e < |l.experimentRows| && s < |l.studyRows| && v < |l.variants|
    requires k < |Seeds(given, x, mode)|
    requires Progress(before, now, given, x, c, mode, l, Jobs(Cell(l, e, s, v), |Seeds(given, x, mode)|) + k)
    requires var i := Jobs(Cell(l, e, s, v), |Seeds(given, x, mode)|) + k;
      job == Numbered(given, x, c, mode, l, |before|, i, e, s, v, k)
    ensures Progress(before, now + [job], given, x, c, mode, l, Jobs(Cell(l, e, s, v), |Seeds(given, x, mode)|) + k + 1)
  {
    hide Numbered, JobNo, Cell, Seeds, JobCount;
    JobAtPlace(given, x, c, mode, l, |before|, e, s, v, k);
    var n := Jobs(Cell(l, e, s, v), |Seeds(given, x, mode)|) + k;
    assert (now + [job])[|before| + n] == job;
  }

  predicate HoldsCell(l: Layout, e: nat, s: nat, v: nat, cell: Json)
    requires e < |l.experimentRows| && s < |l.studyRows| && v < |l.variants|
  {
    CellParams(l, e, s, v) == Ok(cell) && cell.Obj?
  }

  lemma CellHeld(l: Layout, e: nat, s: nat, v: nat, cell: Json)
    requires e < |l.experimentRows| && s < |l.studyRows| && v < |l.variants| && HoldsCell(l, e, s, v, cell)
    ensures CellParams(l, e, s, v) == Ok(cell) && cell.Obj?
  {
  }

  method AppendCell(before: seq<Job>, output: seq<Job>, given: Inputs, x: Experiment, c: Case, mode: Mode, l: Layout,
                    e: nat, s: nat, v: nat, cell: Json)
    returns (next: seq<Job>)
    requires Nonempty(l) && e < |l.experimentRows| && s < |l.studyRows| && v < |l.variants|
    requires HoldsCell(l, e, s, v, cell)
    requires Progress(before, output, given, x, c, mode, l, Jobs(Cell(l, e, s, v), |Seeds(given, x, mode)|))
    ensures Progress(before, next, given, x, c, mode, l, Jobs(Cell(l, e, s, v) + 1, |Seeds(given, x, mode)|))
  {
    hide HoldsCell, CellParams, Cell, JobNo, PaddedId, Progress, Seeds, JobParams, Jobs;
    CellHeld(l, e, s, v, cell);
    var seeds := Seeds(given, x, mode);
    next := output;
    var k := 0;
    while k < |seeds|
      invariant 0 <= k <= |seeds|
      invariant Progress(before, next, given, x, c, mode, l, Jobs(Cell(l, e, s, v), |seeds|) + k)
    {
      var params := JobValue(given, mode, cell);
      JobIsMapping(given, mode, cell);
      ProgressLength(before, next, given, x, c, mode, l, Jobs(Cell(l, e, s, v), |seeds|) + k);
      var job := Job(PaddedId(|next|), x.name, c.condition, l.variants[v].0, Some(Cell(l, e, s, v)), params.fields,
                     seeds[k]);
      JobPushed(before, next, given, x, c, mode, l, e, s, v, k, job);
      next := next + [job];
      k := k + 1;
    }
    NextCell(Cell(l, e, s, v), |seeds|);
  }

  lemma ProgressLength(before: seq<Job>, now: seq<Job>, given: Inputs, x: Experiment, c: Case, mode: Mode, l: Layout,
                       n: nat)
    requires Nonempty(l) && Progress(before, now, given, x, c, mode, l, n)
    ensures |now| == |before| + n
  {
  }

  lemma JobIsMapping(given: Inputs, mode: Mode, cell: Json)
    requires cell.Obj?
    ensures JobParams(given, mode, cell).Obj?
  {
    hide Runtime, SortedKeys;
    RuntimeStaysMapping(cell, SortedKeys(given.qualify.params), given.qualify.params);
    var own := given.qualify.params;
    var qualified := if mode == Qualification then Runtime(cell, SortedKeys(own), own) else cell;
    RuntimeStaysMapping(qualified, SortedKeys(given.overrides), given.overrides);
  }

  lemma CellIsMapping(l: Layout, e: nat, s: nat, v: nat)
    requires e < |l.experimentRows| && s < |l.studyRows| && v < |l.variants| && l.base.Obj?
    ensures CellParams(l, e, s, v).Ok? ==> CellParams(l, e, s, v).value.Obj?
  {
    hide Dotted, DeclaredFrom, SortedKeys;
    DottedStaysMapping(l.base, SortedKeys(l.experimentRows[e]), l.experimentRows[e], false);
    var first := Dotted(l.base, SortedKeys(l.experimentRows[e]), l.experimentRows[e], false).0;
    DottedStaysMapping(first, SortedKeys(l.studyRows[s]), l.studyRows[s], false);
    var second := Dotted(first, SortedKeys(l.studyRows[s]), l.studyRows[s], false).0;
    DeclaredStaysMapping(second, SortedKeys(l.variants[v].1), l.variants[v].1, map[]);
  }

  lemma BaseIsMapping(given: Inputs, x: Experiment, c: Case)
    ensures BaseParams(given, x, c).Ok? ==> BaseParams(given, x, c).value.Obj?
  {
    hide DeclaredFrom, SortedKeys;
    DeclaredStaysMapping(Extend(Extend(Extend(Obj(map[]), given.defaults), x.params), given.study.params),
                         SortedKeys(c.params), c.params, map[]);
  }

  /** `planned_job_count` */
  method PlannedJobCount(l: Layout, seeds: nat) returns (r: Result<nat>)
    requires Nonempty(l) && seeds > 0
    ensures r == if JobCount(l, seeds) < USIZE then Ok(JobCount(l, seeds)) else Err(Validation)
  {
    var a := |l.experimentRows| * |l.studyRows|;
    var b := a * |l.variants|;
    Scaled(1, |l.variants|, a);
    Scaled(1, seeds, b);
    assert 1 * a == a && 1 * b == b && |l.variants| * a == b && seeds * b == b * seeds;
    if a >= USIZE {
      return Err(Validation);
    }
    if b >= USIZE {
      return Err(Validation);
    }
    r := CheckedProduct(b, seeds);
  }

  lemma AxesGiveRows(axes: Axes)
    requires ValidAxes(axes)
    ensures |GridRows(axes)| > 0
  {
    hide IsBlank, RowsUpTo, Product;
    GridRowsAreRows(axes);
    NamesAreValid(axes, AxisNames(axes));
    ProductIsPositive(GridLengths(axes));
  }

  lemma LayoutIsNonempty(given: Inputs, x: Experiment, c: Case)
    requires ValidAxes(x.matrix) && ValidAxes(given.study.axes) && BaseParams(given, x, c).Ok?
    ensures Nonempty(LayoutOf(given, x, c))
  {
    hide GridRows, ValidAxes, BaseParams;
    AxesGiveRows(x.matrix);
    AxesGiveRows(given.study.axes);
  }

  lemma StartProgress(before: seq<Job>, given: Inputs, x: Experiment, c: Case, mode: Mode, l: Layout)
    requires Nonempty(l)
    ensures Progress(before, before, given, x, c, mode, l, Jobs(0, |Seeds(given, x, mode)|)) && CellsOk(l, 0)
  {
    hide JobNo, Cell, CellParams;
  }

  method BaseValue(given: Inputs, x: Experiment, c: Case) returns (r: Result<Json>)
    ensures r.Ok? <==> BaseParams(given, x, c).Ok?
    ensures r.Ok? ==> r.value == BaseParams(given, x, c).value
  {
    hide Declared;
    var value := new Document(Obj(map[]));
    value.value := Extend(value.value, given.defaults);
    value.value := Extend(value.value, x.params);
    value.value := Extend(value.value, given.study.params);
    var declared := value.ApplyDeclared(c.params);
    r := if declared.Err? then Err(declared.error) else Ok(value.value);
  }

  /** The loops of `append_study_jobs`, over rows and variants that are already expanded. */
  method AppendCells(before: seq<Job>, given: Inputs, x: Experiment, c: Case, mode: Mode, l: Layout)
    returns (r: Result<seq<Job>>)
    requires Nonempty(l) && l.base.Obj?
    ensures r.Ok? <==> CellsOk(l, JobCount(l, 1))
    ensures r.Ok? ==> Progress(before, r.value, given, x, c, mode, l, Jobs(JobCount(l, 1), |Seeds(given, x, mode)|))
  {
    hide CellParams, JobNo, Progress, Seeds, JobParams, Jobs, Cell, CellsOk, JobCount;
    var output := before;
    StartProgress(before, given, x, c, mode, l);
    CellOrder(l, 0, 0);
    var cell := 0;
    var e := 0;
    while e < |l.experimentRows|
      invariant 0 <= e <= |l.experimentRows| && cell == Cell(l, e, 0, 0)
      invariant CellsOk(l, cell) && Progress(before, output, given, x, c, mode, l, Jobs(cell, |Seeds(given, x, mode)|))
    {
      var s := 0;
      while s < |l.studyRows|
        invariant 0 <= s <= |l.studyRows| && cell == Cell(l, e, s, 0)
        invariant CellsOk(l, cell)
        invariant Progress(before, output, given, x, c, mode, l, Jobs(cell, |Seeds(given, x, mode)|))
      {
        var v := 0;
        while v < |l.variants|
          invariant 0 <= v <= |l.variants| && cell == Cell(l, e, s, v)
          invariant CellsOk(l, cell)
          invariant Progress(before, output, given, x, c, mode, l, Jobs(cell, |Seeds(given, x, mode)|))
        {
          var params := CellValue(l, e, s, v);
          CellBelow(l, e, s, v);
          if params.Err? {
            BadCell(l, e, s, v);
            return Err(params.error);
          }
          CellIsMapping(l, e, s, v);
          OneMoreCell(l, e, s, v);
          output := AppendCell(before, output, given, x, c, mode, l, e, s, v, params.value);
          NextVariant(l, e, s, v);
          cell := cell + 1;
          v := v + 1;
        }
        CellOrder(l, e, s);
        s := s + 1;
      }
      CellOrder(l, e, 0);
      e := e + 1;
    }
    CellOrder(l, e, 0);
    r := Ok(output);
  }

  lemma NextVariant(l: Layout, e: nat, s: nat, v: nat)
    ensures Cell(l, e, s, v + 1) == Cell(l, e, s, v) + 1
  {
  }

  lemma BadCell(l: Layout, e: nat, s: nat, v: nat)
    requires e < |l.experimentRows| && s < |l.studyRows| && v < |l.variants|
    requires CellParams(l, e, s, v).Err? && Cell(l, e, s, v) < JobCount(l, 1)
    ensures !CellsOk(l, JobCount(l, 1))
  {
    hide CellParams, Cell;
  }

  /** The jobs of one case, numbered on from `before`: planned exactly when the case can be. */
  method AppendStudyJobs(before: seq<Job>, given: Inputs, x: Experiment, c: Case, mode: Mode)
    returns (r: Result<seq<Job>>)
    ensures r.Ok? <==> CasePlans(given, x, c, mode)
    ensures r.Ok? ==> CaseJobs(before, r.value, given, x, c, mode)
  {
    hide CellParams, JobNo, Progress, Seeds, JobParams, Jobs, Cell, CellsOk, JobCount, BaseParams, GridRows,
         ValidAxes, AreRows, Product, HasBadAxis;
    var experimentRows := ExpandAxes(x.matrix);
    if experimentRows.Err? {
      return Err(Validation);
    }
    var studyRows := ExpandAxes(given.study.axes);
    if studyRows.Err? {
      return Err(Validation);
    }
    var variants := VariantRows(given.study.variants);
    var seeds := Seeds(given, x, mode);
    SomeSeed(given, x, mode);
    AxesGiveRows(x.matrix);
    AxesGiveRows(given.study.axes);
    var planned := PlannedJobCount(Layout(experimentRows.value, studyRows.value, variants, Null), |seeds|);
    CountIgnoresBase(Layout(experimentRows.value, studyRows.value, variants, Null), given, x, c, |seeds|);
    if planned.Err? {
      return Err(Validation);
    }
    var base := BaseValue(given, x, c);
    if base.Err? {
      return Err(base.error);
    }
    BaseIsMapping(given, x, c);
    var l := Layout(experimentRows.value, studyRows.value, variants, base.value);
    r := AppendCells(before, given, x, c, mode, l);
    AllCells(l, |seeds|);
  }

  lemma SomeSeed(given: Inputs, x: Experiment, mode: Mode)
    ensures |Seeds(given, x, mode)| > 0
  {
  }

  lemma CountIgnoresBase(l: Layout, given: Inputs, x: Experiment, c: Case, seeds: nat)
    requires l == Layout(GridRows(x.matrix), GridRows(given.study.axes), VariantRows(given.study.variants), Null)
    ensures BaseParams(given, x, c).Ok? ==> JobCount(l, seeds) == JobCount(LayoutOf(given, x, c), seeds)
  {
    hide BaseParams, GridRows, VariantRows;
  }

  lemma AllCells(l: Layout, seeds: nat)
    ensures Jobs(JobCount(l, 1), seeds) == JobCount(l, seeds)
  {
  }

  /** `now` is `before` followed by every job of the case. */
  ghost predicate CaseJobs(before: seq<Job>, now: seq<Job>, given: Inputs, x: Experiment, c: Case, mode: Mode) {
    CasePlans(given, x, c, mode) &&
    var l := LayoutOf(given, x, c);
    LayoutIsNonempty(given, x, c);
    Progress(before, now, given, x, c, mode, l, JobCount(l, |Seeds(given, x, mode)|))
  }

  // ---------------------------------------------------------------- planning a study

  /** The registry's experiments, as found and decoded. */
  type Experiments = map<string, Result<Experiment>>

  /** A qualification parameter must not be one the plan varies. */
  predicate Collides(given: Inputs, x: Experiment) {
    exists k :: k in given.qualify.params &&
      (k in x.matrix || k in given.study.axes
       || exists n :: n in given.study.variants && k in given.study.variants[n])
  }

  ghost predicate CaseReady(given: Inputs, experiments: Experiments, c: Case, mode: Mode) {
    && c.experiment in experiments && experiments[c.experiment].Ok?
    && !Collides(given, experiments[c.experiment].value)
    && CasePlans(given, experiments[c.experiment].value, c, mode)
  }

  ghost predicate ReadyUpTo(given: Inputs, experiments: Experiments, cases: seq<Case>, mode: Mode, n: nat)
    requires n <= |cases|
  {
    forall i :: 0 <= i < n ==> CaseReady(given, experiments, cases[i], mode)
  }

  ghost predicate AllReady(given: Inputs, experiments: Experiments, cases: seq<Case>, mode: Mode) {
    ReadyUpTo(given, experiments, cases, mode, |cases|)
  }

  /** How many jobs a case that can be planned has. */
  ghost function CaseCount(given: Inputs, experiments: Experiments, c: Case, mode: Mode): nat {
    if !CaseReady(given, experiments, c, mode) then 0
    else
      var x := experiments[c.experiment].value;
      JobCount(LayoutOf(given, x, c), |Seeds(given, x, mode)|)
  }

  /** The number of the first job of case number `n`: the sum of the counts before it. */
  ghost function Offset(given: Inputs, experiments: Experiments, cases: seq<Case>, mode: Mode, n: nat): nat
    requires n <= |cases|
  {
    if n == 0 then 0
    else Offset(given, experiments, cases, mode, n - 1) + CaseCount(given, experiments, cases[n - 1], mode)
  }

  ghost function CaseJob(given: Inputs, experiments: Experiments, c: Case, mode: Mode, start: nat, i: nat): Job
    requires i < CaseCount(given, experiments, c, mode)
  {
    var x := experiments[c.experiment].value;
    LayoutIsNonempty(given, x, c);
    JobNo(given, x, c, mode, LayoutOf(given, x, c), start, i)
  }

  /** `jobs` has the jobs of `c` from number `at` on. */
  ghost predicate HoldsCase(given: Inputs, experiments: Experiments, c: Case, mode: Mode, at: nat, jobs: seq<Job>) {
    && at + CaseCount(given, experiments, c, mode) <= |jobs|
    && forall i :: 0 <= i < CaseCount(given, experiments, c, mode) ==>
         jobs[at + i] == CaseJob(given, experiments, c, mode, at, i)
  }

  /** The first `n` cases have been planned, one after the other, and every job has its own number. */
  ghost predicate Planned(given: Inputs, experiments: Experiments, cases: seq<Case>, mode: Mode, n: nat, jobs: seq<Job>)
    requires n <= |cases|
  {
    && |jobs| == Offset(given, experiments, cases, mode, n)
    && (forall q :: 0 <= q < n ==>
          HoldsCase(given, experiments, cases[q], mode, Offset(given, experiments, cases, mode, q), jobs))
    && (forall j :: 0 <= j < |jobs| ==> jobs[j].jobId == PaddedId(j))
  }

  lemma CaseJobId(given: Inputs, experiments: Experiments, c: Case, mode: Mode, start: nat, i: nat)
    requires i < CaseCount(given, experiments, c, mode)
    ensures CaseJob(given, experiments, c, mode, start, i).jobId == PaddedId(start + i)
  {
    hide PaddedId, CellParams, JobParams, Decode;
  }

  lemma PlanHasLayout(given: Inputs, x: Experiment, c: Case, mode: Mode)
    requires CasePlans(given, x, c, mode)
    ensures ValidAxes(x.matrix) && ValidAxes(given.study.axes) && BaseParams(given, x, c).Ok?
  {
  }

  lemma CaseIsHeld(given: Inputs, experiments: Experiments, c: Case, mode: Mode, before: seq<Job>, now: seq<Job>)
    requires c.experiment in experiments && experiments[c.experiment].Ok?
    requires !Collides(given, experiments[c.experiment].value)
    requires CaseJobs(before, now, given, experiments[c.experiment].value, c, mode)
    ensures CaseReady(given, experiments, c, mode)
    ensures |now| == |before| + CaseCount(given, experiments, c, mode) && now[..|before|] == before
    ensures HoldsCase(given, experiments, c, mode, |before|, now)
  {
    hide CasePlans, JobNo, Collides, LayoutOf, JobCount, Seeds, ValidAxes, BaseParams;
    var x := experiments[c.experiment].value;
    PlanHasLayout(given, x, c, mode);
    LayoutIsNonempty(given, x, c);
    var l := LayoutOf(given, x, c);
    forall i | 0 <= i < CaseCount(given, experiments, c, mode)
      ensures now[|before| + i] == CaseJob(given, experiments, c, mode, |before|, i)
    {
      assert now[|before| + i] == JobNo(given, x, c, mode, l, |before|, i);
    }
  }

  lemma StillHeld(given: Inputs, experiments: Experiments, c: Case, mode: Mode, at: nat, before: seq<Job>,
                  now: seq<Job>)
    requires HoldsCase(given, experiments, c, mode, at, before) && |before| <= |now| && now[..|before|] == before
    ensures HoldsCase(given, experiments, c, mode, at, now)
  {
    hide CaseCount, CaseJob;
    forall i | 0 <= i < CaseCount(given, experiments, c, mode)
      ensures now[at + i] == CaseJob(given, experiments, c, mode, at, i)
    {
      assert now[at + i] == now[..|before|][at + i];
    }
  }

  lemma PlannedMore(given: Inputs, experiments: Experiments, cases: seq<Case>, mode: Mode, n: nat, before: seq<Job>,
                    now: seq<Job>)
    requires n < |cases| && Planned(given, experiments, cases, mode, n, before)
    requires |now| == |before| + CaseCount(given, experiments, cases[n], mode) && now[..|before|] == before
    requires HoldsCase(given, experiments, cases[n], mode, |before|, now)
    ensures Planned(given, experiments, cases, mode, n + 1, now)
  {
    hide CaseCount, CaseJob, PaddedId, HoldsCase;
    forall q | 0 <= q < n + 1
      ensures HoldsCase(given, experiments, cases[q], mode, Offset(given, experiments, cases, mode, q), now)
    {
      if q < n {
        StillHeld(given, experiments, cases[q], mode, Offset(given, experiments, cases, mode, q), before, now);
      }
    }
    forall j | 0 <= j < |now| ensures now[j].jobId == PaddedId(j) {
      if j < |before| {
        assert now[j] == now[..|before|][j];
      } else {
        HeldId(given, experiments, cases[n], mode, |before|, now, j - |before|);
      }
    }
  }

  lemma HeldId(given: Inputs, experiments: Experiments, c: Case, mode: Mode, at: nat, jobs: seq<Job>, i: nat)
    requires HoldsCase(given, experiments, c, mode, at, jobs) && i < CaseCount(given, experiments, c, mode)
    ensures at + i < |jobs| && jobs[at + i].jobId == PaddedId(at + i)
  {
    hide CaseCount, CaseJob, PaddedId;
    CaseJobId(given, experiments, c, mode, at, i);
  }

  /** A study is planned exactly when it has cases and each of them can be; the plan holds the jobs of
      the cases in order, each numbered by its place. */
  method PlanStudy(given: Inputs, experiments: Experiments, cases: seq<Case>, mode: Mode) returns (r: Result<seq<Job>>)
    ensures r.Ok? <==> cases != [] && AllReady(given, experiments, cases, mode)
    ensures r.Ok? ==> Planned(given, experiments, cases, mode, |cases|, r.value)
  {
    hide CasePlans, Planned, CaseJobs, Collides, HoldsCase, CaseCount;
    if cases == [] {
      return Err(Validation);
    }
    var jobs: seq<Job> := [];
    var i := 0;
    NothingPlanned(given, experiments, cases, mode);
    while i < |cases|
      invariant 0 <= i <= |cases|
      invariant ReadyUpTo(given, experiments, cases, mode, i)
      invariant Planned(given, experiments, cases, mode, i, jobs)
    {
      var c := cases[i];
      if c.experiment !in experiments {
        return Err(Validation);
      }
      var x := experiments[c.experiment];
      if x.Err? {
        return Err(x.error);
      }
      if Collides(given, x.value) {
        return Err(Validation);
      }
      var next := AppendStudyJobs(jobs, given, x.value, c, mode);
      if next.Err? {
        return Err(next.error);
      }
      CaseIsHeld(given, experiments, c, mode, jobs, next.value);
      PlannedMore(given, experiments, cases, mode, i, jobs, next.value);
      jobs := next.value;
      i := i + 1;
    }
    r := Ok(jobs);
  }

  lemma NothingPlanned(given: Inputs, experiments: Experiments, cases: seq<Case>, mode: Mode)
    ensures Planned(given, experiments, cases, mode, 0, [])
  {
  }

  /** All ids of a plan are distinct, however many jobs it has. */
  lemma JobIdsAreDistinct(given: Inputs, experiments: Experiments, cases: seq<Case>, mode: Mode, jobs: seq<Job>,
                          i: nat, j: nat)
    requires Planned(given, experiments, cases, mode, |cases|, jobs) && i < j < |jobs|
    ensures jobs[i].jobId != jobs[j].jobId
  {
    hide HoldsCase, PaddedId, Offset;
    if PaddedId(i) == PaddedId(j) {
      PaddedIdsDiffer(i, j);
    }
  }

  // ---------------------------------------------------------------- full and qualification plans

  lemma CountGrows(l: Layout, few: nat, many: nat)
    requires few <= many
    ensures JobCount(l, few) <= JobCount(l, many)
  {
    var cells := |l.experimentRows| * |l.studyRows| * |l.variants|;
    Scaled(few, many, cells);
    assert JobCount(l, few) == few * cells && JobCount(l, many) == many * cells;
  }

  lemma OneCaseQualifies(given: Inputs, x: Experiment, c: Case)
    requires CasePlans(given, x, c, Full)
    ensures CasePlans(given, x, c, Qualification)
  {
    hide CellsOk, BaseParams, GridRows, ValidAxes, Product, LayoutOf, JobCount;
    SomeSeed(given, x, Full);
    CountGrows(LayoutOf(given, x, c), 1, |Seeds(given, x, Full)|);
  }

  /** What can be planned in full can be planned for qualification. */
  lemma FullImpliesQualification(given: Inputs, experiments: Experiments, cases: seq<Case>)
    requires AllReady(given, experiments, cases, Full)
    ensures AllReady(given, experiments, cases, Qualification)
  {
    hide CasePlans, Collides;
    forall i | 0 <= i < |cases| ensures CaseReady(given, experiments, cases[i], Qualification) {
      assert CaseReady(given, experiments, cases[i], Full);
      OneCaseQualifies(given, experiments[cases[i].experiment].value, cases[i]);
    }
  }

  /** A qualification plan has one job per cell, in cell order. */
  lemma QualificationPlace(given: Inputs, x: Experiment, c: Case, l: Layout, start: nat, e: nat, s: nat, v: nat)
    requires Nonempty(l) && e < |l.experimentRows| && s < |l.studyRows| && v < |l.variants|
    ensures |Seeds(given, x, Qualification)| == 1 && Cell(l, e, s, v) < JobCount(l, 1)
    ensures JobNo(given, x, c, Qualification, l, start, Cell(l, e, s, v))
         == Numbered(given, x, c, Qualification, l, start, Cell(l, e, s, v), e, s, v, 0)
  {
    hide CellParams, PaddedId, JobNo, Cell, Numbered, JobCount;
    CellBelow(l, e, s, v);
    JobAtPlace(given, x, c, Qualification, l, start, e, s, v, 0);
  }

  /** Case `c` was found as `x` and is planned over `l`. */
  ghost predicate PlannedOver(given: Inputs, experiments: Experiments, c: Case, x: Experiment, l: Layout) {
    && c.experiment in experiments && experiments[c.experiment] == Ok(x)
    && BaseParams(given, x, c).Ok? && l == LayoutOf(given, x, c)
  }

  predicate InLayout(l: Layout, e: nat, s: nat, v: nat) {
    e < |l.experimentRows| && s < |l.studyRows| && v < |l.variants|
  }

  /** The number within its case of the job at a cell and a seed. */
  function PlaceInCase(l: Layout, seeds: nat, e: nat, s: nat, v: nat, k: nat): nat {
    Jobs(Cell(l, e, s, v), seeds) + k
  }

  /** The job of a case at a cell and a seed. */
  lemma HeldJob(given: Inputs, experiments: Experiments, c: Case, mode: Mode, at: nat, jobs: seq<Job>,
                x: Experiment, l: Layout, e: nat, s: nat, v: nat, k: nat)
    requires CaseReady(given, experiments, c, mode) && HoldsCase(given, experiments, c, mode, at, jobs)
    requires PlannedOver(given, experiments, c, x, l) && InLayout(l, e, s, v) && k < |Seeds(given, x, mode)|
    ensures var i := PlaceInCase(l, |Seeds(given, x, mode)|, e, s, v, k);
      at + i < |jobs| && jobs[at + i] == Numbered(given, x, c, mode, l, at, i, e, s, v, k)
  {
    hide CasePlans, JobNo, Numbered, Collides, LayoutOf, JobCount, Seeds, BaseParams, Cell;
    JobAtPlace(given, x, c, mode, l, at, e, s, v, k);
    PlanHasLayout(given, x, c, mode);
    LayoutIsNonempty(given, x, c);
    var i := PlaceInCase(l, |Seeds(given, x, mode)|, e, s, v, k);
    assert jobs[at + i] == CaseJob(given, experiments, c, mode, at, i);
  }

  /** One job of the full plan and the qualification job of its cell. */
  ghost predicate Mirrors(given: Inputs, full: Job, qualified: Job, cell: nat, seed: Option<nat>) {
    && full.cell == qualified.cell == Some(cell)
    && full.experiment == qualified.experiment && full.condition == qualified.condition
    && full.variant == qualified.variant
    && full.seed == seed && qualified.seed == Some(given.qualify.seed)
    && (given.qualify.params == map[] ==> full.params == qualified.params)
  }

  /** Two plans of one study, in full and for qualification: wherever case `n` has a full job, number
      `cell * K + k` of the case, the qualification plan has a job for it, number `cell` of the case, with the
      same experiment, condition, variant and cell, the qualification seed and, without qualification
      parameters, the same parameters. */
  lemma QualificationMirrorsFull(given: Inputs, experiments: Experiments, cases: seq<Case>, full: seq<Job>,
                                 qualified: seq<Job>, n: nat, x: Experiment, l: Layout, e: nat, s: nat, v: nat, k: nat)
    requires n < |cases| && AllReady(given, experiments, cases, Full)
    requires Planned(given, experiments, cases, Full, |cases|, full)
    requires Planned(given, experiments, cases, Qualification, |cases|, qualified)
    requires PlannedOver(given, experiments, cases[n], x, l) && InLayout(l, e, s, v) && k < |Seeds(given, x, Full)|
    ensures var i := Offset(given, experiments, cases, Full, n) + PlaceInCase(l, |Seeds(given, x, Full)|, e, s, v, k);
      var j := Offset(given, experiments, cases, Qualification, n) + Cell(l, e, s, v);
      i < |full| && j < |qualified| && Mirrors(given, full[i], qualified[j], Cell(l, e, s, v), Seeds(given, x, Full)[k])
  {
    hide Offset, CellParams, PaddedId, Cell, JobParams, PlannedOver, HoldsCase, CaseReady, CaseCount;
    var c := cases[n];
    FullImpliesQualification(given, experiments, cases);
    assert CaseReady(given, experiments, c, Full) && CaseReady(given, experiments, c, Qualification);
    HeldJob(given, experiments, c, Full, Offset(given, experiments, cases, Full, n), full, x, l, e, s, v, k);
    assert Seeds(given, x, Qualification) == [Some(given.qualify.seed)];
    HeldJob(given, experiments, c, Qualification, Offset(given, experiments, cases, Qualification, n), qualified,
            x, l, e, s, v, 0);
    assert PlaceInCase(l, 1, e, s, v, 0) == Cell(l, e, s, v);
    var cell := CellParams(l, e, s, v);
    NoQualification(given, if cell.Ok? then cell.value else Null);
  }

  lemma NoQualification(given: Inputs, cell: Json)
    ensures given.qualify.params == map[] ==> JobParams(given, Qualification, cell) == JobParams(given, Full, cell)
  {
    hide SortedKeys;
    if given.qualify.params == map[] {
      assert |SortedKeys(given.qualify.params)| == 0;
    }
  }

  // ---------------------------------------------------------------- which layer a parameter shows

  /** A layer sets `key` and no other path above or below it. */
  ghost predicate AloneIn(key: string, layer: Params) {
    key in layer && forall k :: k in layer && k != key ==> Unrelated(key, k)
  }

  /** A layer sets neither `key` nor a path above or below it. */
  ghost predicate Leaves(layer: Params, key: string) {
    forall k :: k in layer ==> Unrelated(key, k)
  }

  /** What is applied after a cell's own layers leaves `key` alone. */
  ghost predicate LateLeaves(given: Inputs, mode: Mode, key: string) {
    Leaves(given.overrides, key) && (mode == Qualification ==> Leaves(given.qualify.params, key))
  }

  lemma DottedLayer(v: Json, layer: Params, key: string)
    requires Dotted(v, SortedKeys(layer), layer, false).1.Ok?
    ensures AloneIn(key, layer) ==>
              Get(Dotted(v, SortedKeys(layer), layer, false).0, Split(key, '.')) == Some(layer[key])
    ensures Leaves(layer, key) ==>
              Get(Dotted(v, SortedKeys(layer), layer, false).0, Split(key, '.')) == Get(v, Split(key, '.'))
  {
    hide Dotted, Split;
    if AloneIn(key, layer) {
      DottedOverridesShow(v, SortedKeys(layer), layer, false, key);
    }
    if Leaves(layer, key) {
      forall k | k in SortedKeys(layer)
        ensures !(Split(k, '.') <= Split(key, '.')) && !(Split(key, '.') <= Split(k, '.'))
      {
        assert Unrelated(key, k);
      }
      DottedKeepsPath(v, SortedKeys(layer), layer, false, Split(key, '.'));
    }
  }

  lemma DeclaredLayer(v: Json, layer: Params, key: string)
    requires v.Obj? && Declared(v, layer).Ok?
    ensures AloneIn(key, layer) ==> Get(Declared(v, layer).value, Split(key, '.')) == Some(layer[key])
    ensures Leaves(layer, key) ==> Get(Declared(v, layer).value, Split(key, '.')) == Get(v, Split(key, '.'))
  {
    hide DeclaredFrom, Split;
    if AloneIn(key, layer) {
      DeclaredOverridesShow(v, layer, key);
    }
    if Leaves(layer, key) {
      PathIsNotEmpty(key);
      forall k | k in SortedKeys(layer) ensures Beside(Split(key, '.'), k) {
        assert Unrelated(key, k);
      }
      DeclaredKeepsPath(v, SortedKeys(layer), layer, map[], Split(key, '.'));
    }
  }

  lemma RuntimeLayer(v: Json, layer: Params, key: string)
    requires v.Obj?
    ensures Runtime(v, SortedKeys(layer), layer).Obj?
    ensures AloneIn(key, layer) ==> Visible(Runtime(v, SortedKeys(layer), layer), key, layer[key])
    ensures Leaves(layer, key) ==>
              forall y :: Visible(v, key, y) ==> Visible(Runtime(v, SortedKeys(layer), layer), key, y)
  {
    hide Runtime, Split, Visible;
    RuntimeStaysMapping(v, SortedKeys(layer), layer);
    if AloneIn(key, layer) {
      RuntimeOverridesShow(v, layer, key);
    }
    if Leaves(layer, key) {
      forall y | Visible(v, key, y) ensures Visible(Runtime(v, SortedKeys(layer), layer), key, y) {
        RuntimeKeepsVisible(v, SortedKeys(layer), layer, key, y);
      }
    }
  }

  /** A cell shows its variant over its study row over its experiment row over the base. */
  lemma CellShows(l: Layout, e: nat, s: nat, v: nat, key: string)
    requires InLayout(l, e, s, v) && l.base.Obj? && CellParams(l, e, s, v).Ok?
    ensures var shown := Get(CellParams(l, e, s, v).value, Split(key, '.'));
      var variant, study, own := l.variants[v].1, l.studyRows[s], l.experimentRows[e];
      && (AloneIn(key, variant) ==> shown == Some(variant[key]))
      && (AloneIn(key, study) && Leaves(variant, key) ==> shown == Some(study[key]))
      && (AloneIn(key, own) && Leaves(study, key) && Leaves(variant, key) ==> shown == Some(own[key]))
      && (Leaves(own, key) && Leaves(study, key) && Leaves(variant, key) ==>
            shown == Get(l.base, Split(key, '.')))
  {
    hide Dotted, Declared, Split, AloneIn, Leaves, SortedKeys;
    var own, study := l.experimentRows[e], l.studyRows[s];
    var first := Dotted(l.base, SortedKeys(own), own, false).0;
    var second := Dotted(first, SortedKeys(study), study, false).0;
    DottedLayer(l.base, own, key);
    DottedLayer(first, study, key);
    DottedStaysMapping(l.base, SortedKeys(own), own, false);
    DottedStaysMapping(first, SortedKeys(study), study, false);
    DeclaredLayer(second, l.variants[v].1, key);
  }

  /** A job shows the runtime overrides over, when it qualifies, the qualification's own over its cell. */
  lemma LateLayersShow(given: Inputs, mode: Mode, cell: Json, key: string)
    requires cell.Obj?
    ensures var params := JobParams(given, mode, cell);
      && (AloneIn(key, given.overrides) ==> Visible(params, key, given.overrides[key]))
      && (mode == Qualification && AloneIn(key, given.qualify.params) && Leaves(given.overrides, key) ==>
            Visible(params, key, given.qualify.params[key]))
      && (LateLeaves(given, mode, key) ==> forall y :: Visible(cell, key, y) ==> Visible(params, key, y))
  {
    hide Runtime, Unrelated, Leaves, SortedKeys, Visible;
    var own := given.qualify.params;
    var qualified := if mode == Qualification then Runtime(cell, SortedKeys(own), own) else cell;
    RuntimeLayer(cell, own, key);
    RuntimeLayer(qualified, given.overrides, key);
  }

  /** A job shows `y` under `key`. */
  predicate Shows(job: Job, key: string, y: Json) { Visible(Obj(job.params), key, y) }

  lemma AtItsPath(v: Json, key: string)
    ensures forall y :: Get(v, Split(key, '.')) == Some(y) ==> Visible(v, key, y)
  {
    hide Split;
  }

  /** The job at a cell: the cell's parameters under the late layers. */
  lemma HeldParams(given: Inputs, experiments: Experiments, c: Case, mode: Mode, at: nat, jobs: seq<Job>,
                   x: Experiment, l: Layout, e: nat, s: nat, v: nat, k: nat)
    requires CaseReady(given, experiments, c, mode) && HoldsCase(given, experiments, c, mode, at, jobs)
    requires PlannedOver(given, experiments, c, x, l) && InLayout(l, e, s, v) && k < |Seeds(given, x, mode)|
    ensures l.base.Obj? && CellParams(l, e, s, v).Ok? && CellParams(l, e, s, v).value.Obj?
    ensures var i := PlaceInCase(l, |Seeds(given, x, mode)|, e, s, v, k);
      at + i < |jobs| && Obj(jobs[at + i].params) == JobParams(given, mode, CellParams(l, e, s, v).value)
  {
    hide CellParams, JobParams, PaddedId, Cell, HoldsCase, Seeds, GridRows, BaseParams, ValidAxes, Product, JobCount,
         PlaceInCase, Collides;
    HeldJob(given, experiments, c, mode, at, jobs, x, l, e, s, v, k);
    BaseIsMapping(given, x, c);
    CellBelow(l, e, s, v);
    assert CellsOk(l, JobCount(l, 1));
    CellIsMapping(l, e, s, v);
    JobIsMapping(given, mode, CellParams(l, e, s, v).value);
  }

  /** Which layer the parameters of a planned job show: the runtime overrides over the qualification's own
      parameters over the variant over the study row over the experiment row over the base. */
  lemma JobShowsLastLayer(given: Inputs, experiments: Experiments, cases: seq<Case>, mode: Mode, jobs: seq<Job>,
                          n: nat, x: Experiment, l: Layout, e: nat, s: nat, v: nat, k: nat, key: string)
    requires n < |cases| && AllReady(given, experiments, cases, mode)
    requires Planned(given, experiments, cases, mode, |cases|, jobs)
    requires PlannedOver(given, experiments, cases[n], x, l) && InLayout(l, e, s, v) && k < |Seeds(given, x, mode)|
    ensures var i := Offset(given, experiments, cases, mode, n) + PlaceInCase(l, |Seeds(given, x, mode)|, e, s, v, k);
      var variant, study, own := l.variants[v].1, l.studyRows[s], l.experimentRows[e];
      && i < |jobs|
      && (AloneIn(key, given.overrides) ==> Shows(jobs[i], key, given.overrides[key]))
      && (mode == Qualification && AloneIn(key, given.qualify.params) && Leaves(given.overrides, key) ==>
            Shows(jobs[i], key, given.qualify.params[key]))
      && (LateLeaves(given, mode, key) ==>
            && (AloneIn(key, variant) ==> Shows(jobs[i], key, variant[key]))
            && (AloneIn(key, study) && Leaves(variant, key) ==> Shows(jobs[i], key, study[key]))
            && (AloneIn(key, own) && Leaves(study, key) && Leaves(variant, key) ==> Shows(jobs[i], key, own[key]))
            && (Leaves(own, key) && Leaves(study, key) && Leaves(variant, key) ==>
                  forall y :: Get(l.base, Split(key, '.')) == Some(y) ==> Shows(jobs[i], key, y)))
  {
    hide Offset, CellParams, JobParams, Cell, PlannedOver, HoldsCase, CaseReady, CaseCount, AloneIn, Leaves, LateLeaves,
         PlaceInCase, Seeds, Split;
    var c, at := cases[n], Offset(given, experiments, cases, mode, n);
    assert CaseReady(given, experiments, c, mode);
    HeldParams(given, experiments, c, mode, at, jobs, x, l, e, s, v, k);
    CellShows(l, e, s, v, key);
    AtItsPath(CellParams(l, e, s, v).value, key);
    LateLayersShow(given, mode, CellParams(l, e, s, v).value, key);
  }

  /** The rows are the variants, each once and with its own parameters, or one row of none. */
  lemma VariantRowsAreVariants(variants: map<string, Params>)
    ensures variants == map[] ==> VariantRows(variants) == [(None, map[])]
    ensures variants != map[] ==>
      var rows := VariantRows(variants);
      && (forall v :: 0 <= v < |rows| ==>
            rows[v].0.Some? && rows[v].0.value in variants && rows[v].1 == variants[rows[v].0.value])
      && (forall u, v :: 0 <= u < v < |rows| ==> rows[u].0 != rows[v].0)
      && (forall name :: name in variants ==> exists v :: 0 <= v < |rows| && rows[v].0 == Some(name))
  {
    hide VariantNames;
    if variants != map[] {
      var rows, names := VariantRows(variants), VariantNames(variants);
      forall name | name in variants ensures exists v :: 0 <= v < |rows| && rows[v].0 == Some(name) {
        var v :| 0 <= v < |names| && names[v] == name;
        assert rows[v].0 == Some(name);
      }
    }
  }

  /** A planned job says which experiment, condition, variant and seed it is for: the study's seeds when it has
      some, else the experiment's, else none; the qualification's own seed when it qualifies. */
  lemma JobSaysWhatItIsFor(given: Inputs, experiments: Experiments, cases: seq<Case>, mode: Mode, jobs: seq<Job>,
                           n: nat, x: Experiment, l: Layout, e: nat, s: nat, v: nat, k: nat)
    requires n < |cases| && AllReady(given, experiments, cases, mode)
    requires Planned(given, experiments, cases, mode, |cases|, jobs)
    requires PlannedOver(given, experiments, cases[n], x, l) && InLayout(l, e, s, v) && k < |Seeds(given, x, mode)|
    ensures var i := Offset(given, experiments, cases, mode, n) + PlaceInCase(l, |Seeds(given, x, mode)|, e, s, v, k);
      && i < |jobs| && jobs[i].experiment == x.name && jobs[i].condition == cases[n].condition
      && (if given.study.variants == map[] then jobs[i].variant == None && l.variants[v].1 == map[]
          else && jobs[i].variant.Some? && jobs[i].variant.value in given.study.variants
               && l.variants[v].1 == given.study.variants[jobs[i].variant.value])
      && jobs[i].seed == (if mode == Qualification then Some(given.qualify.seed)
                          else if k < |given.study.seeds| then Some(given.study.seeds[k])
                          else if k < |x.seeds| then Some(x.seeds[k])
                          else None)
    ensures |Seeds(given, x, mode)| == (if mode == Qualification then 1
                                        else if given.study.seeds != [] then |given.study.seeds|
                                        else if x.seeds != [] then |x.seeds|
                                        else 1)
  {
    hide Offset, CellParams, JobParams, Cell, HoldsCase, CaseReady, CaseCount, PaddedId, PlaceInCase, VariantRows,
         BaseParams, GridRows;
    var c, at := cases[n], Offset(given, experiments, cases, mode, n);
    assert CaseReady(given, experiments, c, mode);
    HeldJob(given, experiments, c, mode, at, jobs, x, l, e, s, v, k);
    VariantRowsAreVariants(given.study.variants);
  }

  /** Every job of a plan stands at some place of some case. */
  lemma JobHasPlace(given: Inputs, experiments: Experiments, cases: seq<Case>, mode: Mode, jobs: seq<Job>, j: nat)
    returns (n: nat, x: Experiment, l: Layout, e: nat, s: nat, v: nat, k: nat)
    requires AllReady(given, experiments, cases, mode)
    requires Planned(given, experiments, cases, mode, |cases|, jobs) && j < |jobs|
    ensures n < |cases| && PlannedOver(given, experiments, cases[n], x, l)
    ensures InLayout(l, e, s, v) && k < |Seeds(given, x, mode)|
    ensures j == Offset(given, experiments, cases, mode, n) + PlaceInCase(l, |Seeds(given, x, mode)|, e, s, v, k)
  {
    hide Offset, CasePlans, Seeds, LayoutOf, Encode, Decode, Product, Collides, HoldsCase, Cell, JobCount, BaseParams;
    n := CaseAt(given, experiments, cases, mode, j, |cases|);
    var c, i := cases[n], j - Offset(given, experiments, cases, mode, n);
    assert CaseReady(given, experiments, c, mode);
    x := experiments[c.experiment].value;
    PlanHasLayout(given, x, c, mode);
    l := LayoutOf(given, x, c);
    LayoutIsNonempty(given, x, c);
    e, s, v, k := PlaceOf(given, x, mode, l, i);
  }

  lemma PlaceOf(given: Inputs, x: Experiment, mode: Mode, l: Layout, i: nat) returns (e: nat, s: nat, v: nat, k: nat)
    requires Nonempty(l) && i < JobCount(l, |Seeds(given, x, mode)|)
    ensures InLayout(l, e, s, v) && k < |Seeds(given, x, mode)|
    ensures i == PlaceInCase(l, |Seeds(given, x, mode)|, e, s, v, k)
  {
    hide Encode, Decode, Product, Cell, JobCount, Seeds;
    var seeds := |Seeds(given, x, mode)|;
    CountIsProduct(l, seeds);
    ProductOfZero(l);
    DecodeThenEncode(Lens4(l, seeds), i);
    var d := Decode(Lens4(l, seeds), i);
    e, s, v, k := d[0], d[1], d[2], d[3];
    assert d == [e, s, v, k];
    JobIsEncode(l, seeds, e, s, v, k);
  }

  /** The case that a job belongs to. */
  lemma {:induction false} CaseAt(given: Inputs, experiments: Experiments, cases: seq<Case>, mode: Mode, j: nat,
                                  m: nat) returns (n: nat)
    requires m <= |cases| && j < Offset(given, experiments, cases, mode, m)
    ensures n < m && Offset(given, experiments, cases, mode, n) <= j
    ensures j - Offset(given, experiments, cases, mode, n) < CaseCount(given, experiments, cases[n], mode)
    decreases m
  {
    hide CaseCount;
    if j < Offset(given, experiments, cases, mode, m - 1) {
      n := CaseAt(given, experiments, cases, mode, j, m - 1);
    } else {
      n := m - 1;
    }
  }

  /** Every job shows every runtime override that no other override is above or below, and every job of a
      qualification plan the qualification's own parameters unless an override is related to them. */
  lemma OverridesShowInEveryJob(given: Inputs, experiments: Experiments, cases: seq<Case>, mode: Mode, jobs: seq<Job>,
                                j: nat, key: string)
    requires AllReady(given, experiments, cases, mode)
    requires Planned(given, experiments, cases, mode, |cases|, jobs) && j < |jobs|
    ensures AloneIn(key, given.overrides) ==> Shows(jobs[j], key, given.overrides[key])
    ensures mode == Qualification && AloneIn(key, given.qualify.params) && Leaves(given.overrides, key) ==>
              Shows(jobs[j], key, given.qualify.params[key])
  {
    hide Planned, AllReady, Unrelated, Shows, Offset, PlaceInCase, PlannedOver, InLayout, Seeds, Leaves;
    var n, x, l, e, s, v, k := JobHasPlace(given, experiments, cases, mode, jobs, j);
    JobShowsLastLayer(given, experiments, cases, mode, jobs, n, x, l, e, s, v, k, key);
  }

  /** A case is ready exactly when its experiment is found, it can be planned, and no qualification parameter is one
      that an axis of the experiment or of the study varies, or that a variant sets. */
  lemma ReadyExactlyWhen(given: Inputs, experiments: Experiments, c: Case, mode: Mode)
    ensures CaseReady(given, experiments, c, mode) <==>
      (&& c.experiment in experiments && experiments[c.experiment].Ok?
       && CasePlans(given, experiments[c.experiment].value, c, mode)
       && forall key :: key in given.qualify.params ==>
            && key !in experiments[c.experiment].value.matrix && key !in given.study.axes
            && forall name :: name in given.study.variants ==> key !in given.study.variants[name])
  {
    hide CasePlans;
  }
}
