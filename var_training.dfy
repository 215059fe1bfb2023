/** Training of the VAR model (quant/var_model.py, `train_var_model`): per-variable
    transformation choice, `dropna`, the data gate, noise for near-constant columns,
    the low-variance filter, the greedy full-rank column selection, standard scaling,
    the singularity gate and the fit with its trend fallback. The statistics and the
    estimator are library numerics and enter as the `Numerics` record; the random
    draws enter as a `Noise` function. The steps after the transformation are shared
    with the enhanced trainer. */
module VarTraining {
  import opened Common
  import opened PanelCleaning
  import VarSimulation

  /** `trend='n'` (no deterministic term) or `trend='c'` (a constant). */
  datatype Trend = NoTrend | Constant

  /** What is fed to the VAR for one variable. */
  datatype Transform = Level | Difference | LogDifference

  /** The library numerics the trainer relies on, none of which is modelled here. */
  datatype Numerics = Numerics(
    std: seq<Cell> -> Cell,                  // pandas `Series.std()`: sample std over present values, NaN when undefined
    log: real -> Cell,                       // `np.log`, NaN (or a non-finite result) as `None`
    popStd: seq<real> -> real,               // the population std `StandardScaler` divides by
    corrRank: seq<seq<real>> -> nat,         // `np.linalg.matrix_rank(data[cols].corr())`, data given by columns
    dataRank: seq<seq<real>> -> nat,         // `np.linalg.matrix_rank(X)`, X given by rows
    fits: (seq<seq<real>>, int, Trend) -> bool)  // `VAR(X).fit(lags, trend=..)` returns rather than raises

  /** `np.random.normal(0, sd, n)` for column `name`: the draw for row `i` is `draw(sd, name, i)`. */
  type Noise = (real, string, nat) -> real

  /** The exceptions `train_var_model` raises (a `KeyError` for a missing variable,
      `RuntimeError` for the gates, the estimator's own error for a failed fit). */
  datatype TrainError =
    | MissingVariable(name: string)
    | InsufficientData(rows: nat)
    | InsufficientVariables(count: nat)
    | SingularData
    | EstimationFailure

  /** The fitted model: names, lag order, trend, the scaled data it was fit on
      (rows, one per date) and the dates. */
  datatype Fitted = Fitted(names: seq<string>, kAr: int, trend: Trend, endog: seq<seq<real>>, dates: seq<Month>)

  /** How one variable's transformation is chosen. */
  datatype Rule =
    | DiffAbove(minStd: real)      // differences when the differenced std is defined and above `minStd`
    | DiffIfVolatile               // differences when the differenced std exceeds half the level std
    | KeepLevel                    // always the level
    | LogDiffAbove(minStd: real)   // log-differences of `x + 0.001` when their std is above `minStd`, else differences

  /** A comparison with NaN is false. */
  predicate Exceeds(c: Cell, bound: real) { c.Some? && c.value > bound }

  /** `np.log(col + 0.001)`, cell by cell. */
  function ShiftedLog(num: Numerics, col: seq<Cell>): (r: seq<Cell>)
    ensures |r| == |col|
    ensures forall i :: 0 <= i < |col| ==> r[i] == (if col[i].Some? then num.log(col[i].value + 0.001) else None)
  {
    seq(|col|, i requires 0 <= i < |col| => if col[i].Some? then num.log(col[i].value + 0.001) else None)
  }

  function Choose(num: Numerics, rule: Rule, col: seq<Cell>): Transform
  {
    match rule
    case DiffAbove(m) => if Exceeds(num.std(Diff(col)), m) then Difference else Level
    case DiffIfVolatile =>
      var level := num.std(col);
      if level.Some? && Exceeds(num.std(Diff(col)), level.value * 0.5) then Difference else Level
    case KeepLevel => Level
    case LogDiffAbove(m) => if Exceeds(num.std(Diff(ShiftedLog(num, col))), m) then LogDifference else Difference
  }

  function Apply(num: Numerics, t: Transform, col: seq<Cell>): (r: seq<Cell>)
    ensures |r| == |col|
  {
    match t
    case Level => col
    case Difference => Diff(col)
    case LogDifference => Diff(ShiftedLog(num, col))
  }

  /** The columns of `df_transformed`, in assignment order, with their rules. */
  type Plan = seq<(string, Rule)>

  /** `train_var_model`'s choices: gdp by `min_std`, the other three by relative volatility. */
  function BasePlan(minStd: real): Plan
  {
    [("gdp", DiffAbove(minStd)), ("inflation", DiffIfVolatile), ("policy_rate", DiffIfVolatile), ("real_rate", DiffIfVolatile)]
  }

  function PlanNames(plan: Plan): (names: seq<string>)
    ensures |names| == |plan| && forall k :: 0 <= k < |plan| ==> names[k] == plan[k].0
  {
    seq(|plan|, k requires 0 <= k < |plan| => plan[k].0)
  }

  /** `df_transformed` built column by column from the cleaned frame; the first
      planned variable missing from the frame raises a `KeyError`. */
  function Transformed(df: Panel, num: Numerics, plan: Plan): (r: Result<Panel, TrainError>)
    requires Shaped(df)
    ensures r.Ok? ==> Shaped(r.value) && r.value.index == df.index && r.value.names == PlanNames(plan)
    decreases |plan|
  {
    if plan == [] then Ok(Panel(df.index, [], []))
    else
      match Transformed(df, num, plan[..|plan| - 1])
      case Err(e) => Err(e)
      case Ok(p) =>
        var (name, rule) := plan[|plan| - 1];
        match Column(df, name)
        case None => Err(MissingVariable(name))
        case Some(c) =>
          assert PlanNames(plan) == PlanNames(plan[..|plan| - 1]) + [name];
          Ok(Panel(p.index, p.names + [name], p.cols + [Apply(num, Choose(num, rule, c), c)]))
  }

  /** The first planned variable that the frame lacks. */
  function FirstMissing(names: seq<string>, plan: Plan): (r: Option<string>)
    ensures r.None? <==> forall k :: 0 <= k < |plan| ==> plan[k].0 in names
    ensures r.Some? ==> exists k :: 0 <= k < |plan| && plan[k].0 == r.value && plan[k].0 !in names
                          && forall k' :: 0 <= k' < k ==> plan[k'].0 in names
  {
    if plan == [] then None
    else if plan[0].0 !in names then Some(plan[0].0)
    else
      var rest := FirstMissing(names, plan[1..]);
      assert forall k :: 1 <= k < |plan| ==> plan[k] == plan[1..][k - 1];
      if rest.Some? then
        var k :| 0 <= k < |plan[1..]| && plan[1..][k].0 == rest.value && plan[1..][k].0 !in names
                 && forall k' :: 0 <= k' < k ==> plan[1..][k'].0 in names;
        assert plan[k + 1].0 == rest.value;
        rest
      else rest
  }

  /** The transformation fails exactly when a planned variable is missing, with
      the first one missing; otherwise column `k` is variable `k` of the plan,
      transformed as its rule chooses. */
  lemma TransformedSpec(df: Panel, num: Numerics, plan: Plan)
    requires Shaped(df)
    ensures Transformed(df, num, plan).Err? <==> FirstMissing(df.names, plan).Some?
    ensures Transformed(df, num, plan).Err? ==>
      Transformed(df, num, plan).error == MissingVariable(FirstMissing(df.names, plan).value)
    ensures Transformed(df, num, plan).Ok? ==>
      forall k :: 0 <= k < |plan| ==> plan[k].0 in df.names && Transformed(df, num, plan).value.cols[k] == Planned(df, num, plan[k])
  {
    TransformedFails(df, num, plan);
    if Transformed(df, num, plan).Ok? {
      TransformedCols(df, num, plan);
    }
  }

  lemma {:induction false} TransformedFails(df: Panel, num: Numerics, plan: Plan)
    requires Shaped(df)
    ensures Transformed(df, num, plan).Err? <==> FirstMissing(df.names, plan).Some?
    ensures Transformed(df, num, plan).Err? ==>
      Transformed(df, num, plan).error == MissingVariable(FirstMissing(df.names, plan).value)
    decreases |plan|
  {
    if plan != [] {
      var init, last := plan[..|plan| - 1], plan[|plan| - 1];
      TransformedFails(df, num, init);
      FirstMissingSnoc(df.names, init, last);
      assert init + [last] == plan;
    }
  }

  lemma {:induction false} TransformedCols(df: Panel, num: Numerics, plan: Plan)
    requires Shaped(df) && Transformed(df, num, plan).Ok?
    ensures forall k :: 0 <= k < |plan| ==> plan[k].0 in df.names && Transformed(df, num, plan).value.cols[k] == Planned(df, num, plan[k])
    decreases |plan|
  {
    if plan != [] {
      var init, last := plan[..|plan| - 1], plan[|plan| - 1];
      var p := Transformed(df, num, init).value;
      TransformedCols(df, num, init);
      assert last.0 in df.names;
      assert Transformed(df, num, plan).value.cols == p.cols + [Planned(df, num, last)];
      assert forall k :: 0 <= k < |init| ==> init[k] == plan[k];
    }
  }

  /** One more plan entry: the frame so far gains that entry's column, or the
      transformation fails on it. */
  lemma TransformedSnoc(df: Panel, num: Numerics, plan: Plan, k: nat, p: Panel)
    requires Shaped(df) && k < |plan| && Transformed(df, num, plan[..k]) == Ok(p)
    ensures Column(df, plan[k].0).None? ==> Transformed(df, num, plan[..k + 1]) == Err(MissingVariable(plan[k].0))
    ensures Column(df, plan[k].0).Some? ==>
      var c := Column(df, plan[k].0).value;
      Transformed(df, num, plan[..k + 1]) == Ok(Panel(p.index, p.names + [plan[k].0], p.cols + [Apply(num, Choose(num, plan[k].1, c), c)]))
  {
    assert plan[..k + 1][..k] == plan[..k] && plan[..k + 1][k] == plan[k];
  }

  /** The column the plan entry `e` contributes. */
  function Planned(df: Panel, num: Numerics, e: (string, Rule)): seq<Cell>
    requires Shaped(df) && e.0 in df.names
  {
    var c := Column(df, e.0).value;
    Apply(num, Choose(num, e.1, c), c)
  }

  lemma {:induction false} FirstMissingSnoc(names: seq<string>, init: Plan, last: (string, Rule))
    ensures FirstMissing(names, init + [last]) ==
      if FirstMissing(names, init).Some? then FirstMissing(names, init)
      else if last.0 !in names then Some(last.0) else None
    decreases |init|
  {
    if init != [] {
      assert (init + [last])[1..] == init[1..] + [last];
      FirstMissingSnoc(names, init[1..], last);
    }
  }

  /** Once a prefix of the plan fails, the whole plan fails the same way. */
  lemma {:induction false} TransformedErrSticks(df: Panel, num: Numerics, plan: Plan, k: nat)
    requires Shaped(df) && k <= |plan| && Transformed(df, num, plan[..k]).Err?
    ensures Transformed(df, num, plan) == Transformed(df, num, plan[..k])
    decreases |plan| - k
  {
    if k < |plan| {
      assert plan[..k + 1][..k] == plan[..k];
      TransformedErrSticks(df, num, plan, k + 1);
    } else {
      assert plan[..k] == plan;
    }
  }

  /** Step 3 of `train_var_model`: gdp first, then the loop over inflation,
      policy_rate and real_rate, each raising when missing. */
  method TransformBase(df: Panel, num: Numerics, minStd: real) returns (r: Result<Panel, TrainError>)
    requires Shaped(df)
    ensures r == Transformed(df, num, BasePlan(minStd))
  {
    ghost var plan := BasePlan(minStd);
    assert plan[..0] == [];
    var gdp := Column(df, "gdp");
    TransformedSnoc(df, num, plan, 0, Panel(df.index, [], []));
    if gdp.None? {
      TransformedErrSticks(df, num, plan, 1);
      return Err(MissingVariable("gdp"));
    }
    var names := ["gdp"];
    var cols := [Apply(num, Choose(num, DiffAbove(minStd), gdp.value), gdp.value)];
    assert [] + names == names && [] + cols == cols;
    var vars := ["inflation", "policy_rate", "real_rate"];
    for i := 0 to 3
      invariant Transformed(df, num, plan[..i + 1]) == Ok(Panel(df.index, names, cols))
    {
      assert plan[i + 1] == (vars[i], DiffIfVolatile);
      var c := Column(df, vars[i]);
      TransformedSnoc(df, num, plan, i + 1, Panel(df.index, names, cols));
      if c.None? {
        TransformedErrSticks(df, num, plan, i + 2);
        return Err(MissingVariable(vars[i]));
      }
      names := names + [vars[i]];
      cols := cols + [Apply(num, Choose(num, DiffIfVolatile, c.value), c.value)];
    }
    assert plan[..4] == plan;
    r := Ok(Panel(df.index, names, cols));
  }

  /** gdp's column (and the enhanced spread's): differences when the std of the
      differences is defined and above `min_std`, else the level. */
  function DiffAboveColumn(num: Numerics, c: seq<Cell>, minStd: real): seq<Cell>
  {
    if Exceeds(num.std(Diff(c)), minStd) then Diff(c) else c
  }

  /** A rate's column in `train_var_model`: differences when the std of the
      differences exceeds half the std of the level, both defined, else the level. */
  function VolatileColumn(num: Numerics, c: seq<Cell>): seq<Cell>
  {
    var level := num.std(c);
    if level.Some? && Exceeds(num.std(Diff(c)), level.value * 0.5) then Diff(c) else c
  }

  /** long_rate's column in the enhanced trainer: log-differences of `x + 0.001`
      when their std is above `min_std`, else plain differences. */
  function LongRateColumn(num: Numerics, c: seq<Cell>, minStd: real): seq<Cell>
  {
    if Exceeds(num.std(Diff(ShiftedLog(num, c))), minStd) then Diff(ShiftedLog(num, c)) else Diff(c)
  }

  /** The column each rule yields, written rule by rule. */
  function RuleColumn(num: Numerics, rule: Rule, c: seq<Cell>): seq<Cell>
  {
    match rule
    case DiffAbove(m) => DiffAboveColumn(num, c, m)
    case DiffIfVolatile => VolatileColumn(num, c)
    case KeepLevel => c
    case LogDiffAbove(m) => LongRateColumn(num, c, m)
  }

  /** Choosing a transform and then applying it yields the rule's column. */
  lemma PlannedRule(df: Panel, num: Numerics, e: (string, Rule))
    requires Shaped(df) && e.0 in df.names
    ensures Planned(df, num, e) == RuleColumn(num, e.1, Column(df, e.0).value)
  {
  }

  ghost predicate BaseColumns(df: Panel, num: Numerics, minStd: real, p: Panel)
    requires Shaped(df)
  {
    && p.names == ["gdp", "inflation", "policy_rate", "real_rate"]
    && |p.cols| == 4 && p.index == df.index
    && "gdp" in df.names && p.cols[0] == DiffAboveColumn(num, Column(df, "gdp").value, minStd)
    && (forall k :: 1 <= k < 4 ==> p.names[k] in df.names && p.cols[k] == VolatileColumn(num, Column(df, p.names[k]).value))
  }

  /** A successful `train_var_model` transformation has the four columns in
      order on the cleaned index: gdp differenced by `min_std`, each rate
      differenced by its relative volatility. */
  lemma BaseTransform(df: Panel, num: Numerics, minStd: real)
    requires Shaped(df)
    requires Transformed(df, num, BasePlan(minStd)).Ok?
    ensures BaseColumns(df, num, minStd, Transformed(df, num, BasePlan(minStd)).value)
  {
    var plan := BasePlan(minStd);
    var p := Transformed(df, num, plan).value;
    PlannedAt(df, num, plan, 0, "gdp", DiffAbove(minStd));
    PlannedAt(df, num, plan, 1, "inflation", DiffIfVolatile);
    PlannedAt(df, num, plan, 2, "policy_rate", DiffIfVolatile);
    PlannedAt(df, num, plan, 3, "real_rate", DiffIfVolatile);
    assert p.names == PlanNames(plan) == ["gdp", "inflation", "policy_rate", "real_rate"];
  }

  /** Column `k` of a successful transformation is plan entry `k` applied to its variable. */
  lemma PlannedColumn(df: Panel, num: Numerics, plan: Plan, k: nat)
    requires Shaped(df) && k < |plan| && Transformed(df, num, plan).Ok?
    ensures plan[k].0 in df.names && Transformed(df, num, plan).value.cols[k] == Planned(df, num, plan[k])
  {
    TransformedCols(df, num, plan);
  }

  /** Column `k` of a successful transformation, when entry `k` of the plan is
      `(name, rule)`, is the rule's column of that variable. */
  lemma PlannedAt(df: Panel, num: Numerics, plan: Plan, k: nat, name: string, rule: Rule)
    requires Shaped(df) && k < |plan| && plan[k] == (name, rule) && Transformed(df, num, plan).Ok?
    ensures name in df.names && Transformed(df, num, plan).value.cols[k] == RuleColumn(num, rule, Column(df, name).value)
  {
    PlannedColumn(df, num, plan, k);
    PlannedRule(df, num, plan[k]);
  }

  // ---------------------------------------------------------------------------
  // Noise for near-constant columns
  // ---------------------------------------------------------------------------

  /** `df_clean[col].std() < 0.01`; an undefined std compares false. */
  predicate NearConstant(std: seq<Cell> -> Cell, col: seq<real>)
  {
    var s := std(Lift(col)); s.Some? && s.value < 0.01
  }

  function Perturb(col: seq<real>, draw: Noise, sd: real, name: string): (r: seq<real>)
    ensures |r| == |col| && forall i :: 0 <= i < |col| ==> r[i] == col[i] + draw(sd, name, i)
  {
    seq(|col|, i requires 0 <= i < |col| => col[i] + draw(sd, name, i))
  }

  /** One noise pass: every near-constant column gets its own draws with standard
      deviation `sd` added; the others and the frame's shape stay as they were. */
  function NoisePass(d: Dense, std: seq<Cell> -> Cell, draw: Noise, sd: real): (e: Dense)
    requires DenseShaped(d)
    ensures DenseShaped(e) && e.names == d.names && e.index == d.index
    ensures forall j :: 0 <= j < |d.cols| && !NearConstant(std, d.cols[j]) ==> e.cols[j] == d.cols[j]
    ensures forall j :: 0 <= j < |d.cols| && NearConstant(std, d.cols[j]) ==>
      forall i :: 0 <= i < |d.index| ==> e.cols[j][i] == d.cols[j][i] + draw(sd, d.names[j], i)
  {
    Dense(d.index, d.names, seq(|d.cols|, j requires 0 <= j < |d.cols| =>
      if NearConstant(std, d.cols[j]) then Perturb(d.cols[j], draw, sd, d.names[j]) else d.cols[j]))
  }

  /** The loop `for col in df_clean.columns: if std < 0.01: df_clean.loc[:, col] += noise`. */
  method AddNoise(d: Dense, std: seq<Cell> -> Cell, draw: Noise, sd: real) returns (e: Dense)
    requires DenseShaped(d)
    ensures e == NoisePass(d, std, draw, sd)
  {
    var cols := d.cols;
    for j := 0 to |d.cols|
      invariant |cols| == |d.cols|
      invariant forall k :: 0 <= k < j ==> cols[k] == NoisePass(d, std, draw, sd).cols[k]
      invariant forall k :: j <= k < |d.cols| ==> cols[k] == d.cols[k]
    {
      if NearConstant(std, cols[j]) {
        cols := cols[j := Perturb(cols[j], draw, sd, d.names[j])];
      }
    }
    e := Dense(d.index, d.names, cols);
  }

  // ---------------------------------------------------------------------------
  // Low-variance filter
  // ---------------------------------------------------------------------------

  /** `df_clean.std() < min_std`; an undefined std compares false, so that column stays. */
  predicate LowStd(std: seq<Cell> -> Cell, col: seq<real>, minStd: real)
  {
    var s := std(Lift(col)); s.Some? && s.value < minStd
  }

  function DropLow(names: seq<string>, cols: seq<seq<real>>, std: seq<Cell> -> Cell, minStd: real)
    : (r: (seq<string>, seq<seq<real>>))
    requires |names| == |cols|
    ensures |r.0| == |r.1|
    ensures forall k :: 0 <= k < |r.1| ==> exists j :: 0 <= j < |cols| && r.0[k] == names[j] && r.1[k] == cols[j] && !LowStd(std, cols[j], minStd)
    decreases |names|
  {
    if names == [] then ([], [])
    else
      var n := |names| - 1;
      var prev := DropLow(names[..n], cols[..n], std, minStd);
      if LowStd(std, cols[n], minStd) then prev else (prev.0 + [names[n]], prev.1 + [cols[n]])
  }

  /** `df_clean.drop(columns=low_std_cols)`. */
  function DropLowStd(d: Dense, std: seq<Cell> -> Cell, minStd: real): (e: Dense)
    requires DenseShaped(d)
    ensures DenseShaped(e) && e.index == d.index
  {
    var r := DropLow(d.names, d.cols, std, minStd);
    Dense(d.index, r.0, r.1)
  }

  /** The filter keeps the surviving columns in their order, drops exactly the
      columns whose std is below `min_std`, and keeps each name with its column. */
  lemma DropLowSpec(names: seq<string>, cols: seq<seq<real>>, std: seq<Cell> -> Cell, minStd: real)
    requires |names| == |cols| && Distinct(names)
    ensures var r := DropLow(names, cols, std, minStd);
      && Subsequence(r.0, names)
      && (forall j :: 0 <= j < |names| ==> (names[j] in r.0 <==> !LowStd(std, cols[j], minStd)))
      && (forall k :: 0 <= k < |r.0| ==> r.1[k] == cols[IndexOf(names, r.0[k])])
  {
    var r := DropLow(names, cols, std, minStd);
    DropLowOrder(names, cols, std, minStd);
    forall k | 0 <= k < |r.0| ensures r.1[k] == cols[IndexOf(names, r.0[k])] {
      var j :| 0 <= j < |cols| && r.0[k] == names[j] && r.1[k] == cols[j] && !LowStd(std, cols[j], minStd);
      IndexOfDistinct(names, j);
    }
    forall j | 0 <= j < |names| && names[j] in r.0 ensures !LowStd(std, cols[j], minStd) {
      var k :| 0 <= k < |r.0| && r.0[k] == names[j];
      var j' :| 0 <= j' < |cols| && r.0[k] == names[j'] && r.1[k] == cols[j'] && !LowStd(std, cols[j'], minStd);
      assert j' == j;
    }
  }

  /** The filter keeps the order of the columns and keeps every column that is not low. */
  lemma DropLowOrder(names: seq<string>, cols: seq<seq<real>>, std: seq<Cell> -> Cell, minStd: real)
    requires |names| == |cols|
    ensures var r := DropLow(names, cols, std, minStd);
      && Subsequence(r.0, names)
      && (forall j :: 0 <= j < |names| && !LowStd(std, cols[j], minStd) ==> names[j] in r.0)
  {
    DropLowSubsequence(names, cols, std, minStd);
    DropLowKeeps(names, cols, std, minStd);
  }

  lemma {:induction false} DropLowSubsequence(names: seq<string>, cols: seq<seq<real>>, std: seq<Cell> -> Cell, minStd: real)
    requires |names| == |cols|
    ensures Subsequence(DropLow(names, cols, std, minStd).0, names)
    decreases |names|
  {
    if names != [] {
      var n := |names| - 1;
      var prev := DropLow(names[..n], cols[..n], std, minStd);
      DropLowSubsequence(names[..n], cols[..n], std, minStd);
      assert names[..n] + [names[n]] == names;
      SubsequenceAppend(prev.0, names[..n], names[n]);
    }
  }

  lemma {:induction false} DropLowKeeps(names: seq<string>, cols: seq<seq<real>>, std: seq<Cell> -> Cell, minStd: real)
    requires |names| == |cols|
    ensures forall j :: 0 <= j < |names| && !LowStd(std, cols[j], minStd) ==> names[j] in DropLow(names, cols, std, minStd).0
    decreases |names|
  {
    if names != [] {
      var n := |names| - 1;
      var r := DropLow(names, cols, std, minStd);
      var prev := DropLow(names[..n], cols[..n], std, minStd);
      DropLowKeeps(names[..n], cols[..n], std, minStd);
      assert forall x :: x in prev.0 ==> x in r.0;
      forall j | 0 <= j < |names| && !LowStd(std, cols[j], minStd)
        ensures names[j] in r.0
      {
        if j < n {
          assert names[..n][j] == names[j] && cols[..n][j] == cols[j];
        }
      }
    }
  }

  // ---------------------------------------------------------------------------
  // Greedy full-rank column selection
  // ---------------------------------------------------------------------------

  /** `df_clean[cols]` as columns. */
  function Select(d: Dense, names: seq<string>): (r: seq<seq<real>>)
    requires DenseShaped(d) && forall x :: x in names ==> x in d.names
    ensures |r| == |names| && forall k :: 0 <= k < |names| ==> r[k] == d.cols[IndexOf(d.names, names[k])] && |r[k]| == |d.index|
  {
    seq(|names|, k requires 0 <= k < |names| => d.cols[IndexOf(d.names, names[k])])
  }

  /** `final_cols` after the loop has seen `cand`: a candidate is appended when the
      correlation matrix of the accepted columns plus it has full rank. */
  function Greedy(d: Dense, rank: seq<seq<real>> -> nat, cand: seq<string>): (f: seq<string>)
    requires DenseShaped(d) && forall x :: x in cand ==> x in d.names
    ensures forall x :: x in f ==> x in cand
    decreases |cand|
  {
    if cand == [] then []
    else
      var prev := Greedy(d, rank, cand[..|cand| - 1]);
      var test := prev + [cand[|cand| - 1]];
      if rank(Select(d, test)) == |test| then test else prev
  }

  /** Step 5 of the trainer: the loop over `remaining_cols`. */
  method SelectColumns(d: Dense, rank: seq<seq<real>> -> nat) returns (final: seq<string>)
    requires DenseShaped(d)
    ensures final == Greedy(d, rank, d.names)
  {
    final := [];
    assert d.names[..0] == [];
    for i := 0 to |d.names|
      invariant final == Greedy(d, rank, d.names[..i])
    {
      assert d.names[..i + 1][..i] == d.names[..i];
      var test := final + [d.names[i]];
      if rank(Select(d, test)) == |test| {
        final := test;
      }
    }
    assert d.names[..|d.names|] == d.names;
  }

  function Take<T>(s: seq<T>, n: nat): (r: seq<T>)
    requires n <= |s|
    ensures r == s[..n]
  {
    s[..n]
  }

  /** Every prefix of the selection has a full-rank correlation matrix. */
  lemma {:induction false} GreedyFullRank(d: Dense, rank: seq<seq<real>> -> nat, cand: seq<string>)
    requires DenseShaped(d) && forall x :: x in cand ==> x in d.names
    ensures forall k :: 1 <= k <= |Greedy(d, rank, cand)| ==> rank(Select(d, Take(Greedy(d, rank, cand), k))) == k
    decreases |cand|
  {
    if cand != [] {
      var prev := Greedy(d, rank, cand[..|cand| - 1]);
      GreedyFullRank(d, rank, cand[..|cand| - 1]);
      var f := Greedy(d, rank, cand);
      var test := prev + [cand[|cand| - 1]];
      assert f == if rank(Select(d, test)) == |test| then test else prev;
      forall k | 1 <= k <= |f| ensures rank(Select(d, Take(f, k))) == k {
        if k <= |prev| {
          assert Take(f, k) == Take(prev, k);
          assert rank(Select(d, Take(prev, k))) == k;
        } else {
          assert f == test && Take(f, k) == test;
          assert rank(Select(d, test)) == |test|;
        }
      }
    }
  }

  /** The selection keeps the candidates' order. */
  lemma {:induction false} GreedySubsequence(d: Dense, rank: seq<seq<real>> -> nat, cand: seq<string>)
    requires DenseShaped(d) && forall x :: x in cand ==> x in d.names
    ensures Subsequence(Greedy(d, rank, cand), cand)
    decreases |cand|
  {
    if cand != [] {
      var n := |cand| - 1;
      GreedySubsequence(d, rank, cand[..n]);
      SubsequenceAppend(Greedy(d, rank, cand[..n]), cand[..n], cand[n]);
      assert cand[..n] + [cand[n]] == cand;
    }
  }

  /** The selection after `i` candidates is a prefix of the final one, and what
      comes after it is drawn from the later candidates. */
  lemma {:induction false} GreedyExtends(d: Dense, rank: seq<seq<real>> -> nat, cand: seq<string>, i: nat)
    requires DenseShaped(d) && forall x :: x in cand ==> x in d.names
    requires i <= |cand|
    ensures var g, f := Greedy(d, rank, cand[..i]), Greedy(d, rank, cand);
      |g| <= |f| && f[..|g|] == g && forall k :: |g| <= k < |f| ==> f[k] in cand[i..]
    decreases |cand|
  {
    if i == |cand| {
      assert cand[..i] == cand;
    } else {
      var n := |cand| - 1;
      GreedyExtends(d, rank, cand[..n], i);
      assert cand[..n][..i] == cand[..i];
      assert forall x :: x in cand[..n][i..] ==> x in cand[i..];
    }
  }

  /** A candidate (among distinct names) ends up selected exactly when it was
      accepted on its turn: the columns accepted before it plus it have a
      full-rank correlation matrix. */
  lemma GreedyAccepts(d: Dense, rank: seq<seq<real>> -> nat, cand: seq<string>, i: nat)
    requires DenseShaped(d) && forall x :: x in cand ==> x in d.names
    requires Distinct(cand) && i < |cand|
    ensures var before := Greedy(d, rank, cand[..i]);
      cand[i] in Greedy(d, rank, cand) <==> rank(Select(d, before + [cand[i]])) == |before| + 1
  {
    var before := Greedy(d, rank, cand[..i]);
    var g := Greedy(d, rank, cand[..i + 1]);
    var f := Greedy(d, rank, cand);
    assert cand[..i + 1][..i] == cand[..i];
    assert cand[..i + 1][i] == cand[i];
    GreedyExtends(d, rank, cand, i + 1);
    if rank(Select(d, before + [cand[i]])) == |before| + 1 {
      assert g[|g| - 1] == cand[i];
      assert f[|g| - 1] == cand[i];
    } else {
      assert g == before;
      assert cand[i] !in cand[..i];
      assert cand[i] !in g;
      forall k | 0 <= k < |f| ensures f[k] != cand[i] {
        if k < |g| {
          assert f[k] == g[k];
          assert f[k] in g;
        } else {
          assert f[k] in cand[i + 1..];
          assert cand[i] !in cand[i + 1..];
        }
      }
    }
  }

  // ---------------------------------------------------------------------------
  // Standard scaling
  // ---------------------------------------------------------------------------

  function Sum(c: seq<real>): real
  {
    if c == [] then 0.0 else c[0] + Sum(c[1..])
  }

  function Mean(c: seq<real>): real
  {
    if |c| == 0 then 0.0 else Sum(c) / (|c| as real)
  }

  /** `StandardScaler` divides by the population std, and by 1 when that is 0. */
  function ScaleOf(popStd: seq<real> -> real, c: seq<real>): (s: real)
    ensures s != 0.0
  {
    var s := popStd(c);
    if s == 0.0 then 1.0 else s
  }

  function Centre(c: seq<real>, m: real, s: real): (r: seq<real>)
    requires s != 0.0
    ensures |r| == |c| && forall i :: 0 <= i < |c| ==> r[i] == (c[i] - m) / s
  {
    if c == [] then []
    else
      var rest := Centre(c[1..], m, s);
      assert forall i :: 1 <= i < |c| ==> c[i] == c[1..][i - 1];
      [(c[0] - m) / s] + rest
  }

  /** `scaler.fit_transform`, column by column. */
  function Standardize(cols: seq<seq<real>>, popStd: seq<real> -> real): (r: seq<seq<real>>)
    ensures |r| == |cols| && forall j :: 0 <= j < |cols| ==> r[j] == Centre(cols[j], Mean(cols[j]), ScaleOf(popStd, cols[j]))
  {
    seq(|cols|, j requires 0 <= j < |cols| => Centre(cols[j], Mean(cols[j]), ScaleOf(popStd, cols[j])))
  }

  /** Scaling loses nothing: multiplying back by the scale and adding the mean
      recovers every original value. */
  lemma StandardizeRoundTrip(cols: seq<seq<real>>, popStd: seq<real> -> real)
    ensures var z := Standardize(cols, popStd);
      forall j, i :: 0 <= j < |cols| && 0 <= i < |cols[j]| ==>
        z[j][i] * ScaleOf(popStd, cols[j]) + Mean(cols[j]) == cols[j][i]
  {
    forall j, i | 0 <= j < |cols| && 0 <= i < |cols[j]|
      ensures Standardize(cols, popStd)[j][i] * ScaleOf(popStd, cols[j]) + Mean(cols[j]) == cols[j][i]
    {
      var s, m := ScaleOf(popStd, cols[j]), Mean(cols[j]);
      assert Standardize(cols, popStd)[j][i] == (cols[j][i] - m) / s;
      assert ((cols[j][i] - m) / s) * s == cols[j][i] - m;
    }
  }

  /** Centring and scaling a column scales the sum of its deviations. */
  lemma SumCentre(c: seq<real>, m: real, s: real)
    requires s != 0.0
    ensures Sum(Centre(c, m, s)) * s == Sum(c) - (|c| as real) * m
  {
    SumCentreDiv(c, m, s);
    DeviationSum(c, m);
    DivMul(Deviation(c, m), s);
  }

  lemma DivMul(a: real, s: real)
    requires s != 0.0
    ensures (a / s) * s == a
  {
  }

  lemma DivAdd(a: real, b: real, s: real)
    requires s != 0.0
    ensures a / s + b / s == (a + b) / s
  {
  }

  /** The sum of the deviations from `m`. */
  function Deviation(c: seq<real>, m: real): real
  {
    if c == [] then 0.0 else (c[0] - m) + Deviation(c[1..], m)
  }

  /** Centring sums to the deviations divided by the scale. */
  lemma {:induction false} SumCentreDiv(c: seq<real>, m: real, s: real)
    requires s != 0.0
    ensures Sum(Centre(c, m, s)) == Deviation(c, m) / s
    decreases |c|
  {
    if c != [] {
      var t := c[1..];
      var z := Centre(c, m, s);
      assert z[1..] == Centre(t, m, s);
      assert Sum(z) == z[0] + Sum(Centre(t, m, s));
      SumCentreDiv(t, m, s);
      DivAdd(c[0] - m, Deviation(t, m), s);
    }
  }

  lemma {:induction false} DeviationSum(c: seq<real>, m: real)
    ensures Deviation(c, m) == Sum(c) - (|c| as real) * m
    decreases |c|
  {
    if c != [] {
      DeviationSum(c[1..], m);
      MulSucc(|c[1..]| as real, m);
    }
  }

  lemma MulSucc(n: real, m: real)
    ensures (n + 1.0) * m == n * m + m
  {
  }

  /** Every scaled column of a non-empty frame has mean zero. */
  lemma StandardizedMeanZero(cols: seq<seq<real>>, popStd: seq<real> -> real, j: nat)
    requires j < |cols| && |cols[j]| > 0
    ensures Sum(Standardize(cols, popStd)[j]) == 0.0
  {
    var c := cols[j];
    var s, m := ScaleOf(popStd, c), Mean(c);
    SumCentre(c, m, s);
    assert (|c| as real) * m == Sum(c);
    assert Sum(Standardize(cols, popStd)[j]) * s == 0.0;
  }

  /** The frame's values as rows (`df_scaled.values`). */
  function Rows(cols: seq<seq<real>>, n: nat): (x: seq<seq<real>>)
    requires forall j :: 0 <= j < |cols| ==> |cols[j]| == n
    ensures |x| == n && forall i :: 0 <= i < n ==> |x[i]| == |cols| && forall j :: 0 <= j < |cols| ==> x[i][j] == cols[j][i]
  {
    seq(n, i requires 0 <= i < n => seq(|cols|, j requires 0 <= j < |cols| => cols[j][i]))
  }

  // ---------------------------------------------------------------------------
  // The shared tail of both trainers
  // ---------------------------------------------------------------------------

  /** `model.fit(lags, trend='n')`, and on any exception `model.fit(lags, trend='c')`,
      whose own exception propagates. */
  function FitTrend(num: Numerics, x: seq<seq<real>>, lags: int): (r: Result<Trend, TrainError>)
    ensures r == Ok(NoTrend) <==> num.fits(x, lags, NoTrend)
    ensures r == Ok(Constant) <==> !num.fits(x, lags, NoTrend) && num.fits(x, lags, Constant)
    ensures r.Err? <==> !num.fits(x, lags, NoTrend) && !num.fits(x, lags, Constant)
    ensures r.Err? ==> r.error == EstimationFailure
  {
    if num.fits(x, lags, NoTrend) then Ok(NoTrend)
    else if num.fits(x, lags, Constant) then Ok(Constant)
    else Err(EstimationFailure)
  }

  /** Steps 4 and the noise/filter part of 5: `dropna`, the `lags + 10` gate,
      the first noise pass, the low-std filter and, when fewer than `retryBelow`
      columns remain, the second noise pass. */
  function Prepared(dfT: Panel, lags: int, retryBelow: int, minStd: real, num: Numerics, draw: Noise): (r: Result<Dense, TrainError>)
    requires Shaped(dfT)
    ensures r.Ok? ==> DenseShaped(r.value)
  {
    var d0 := DropNa(dfT);
    if |d0.index| < lags + 10 then Err(InsufficientData(|d0.index|))
    else
      var d1 := NoisePass(d0, num.std, draw, 0.001);
      var d2 := DropLowStd(d1, num.std, minStd);
      Ok(if |d2.names| < retryBelow then NoisePass(d2, num.std, draw, 0.01) else d2)
  }

  /** The rest of step 5 and steps 6-8: selection, the `min_vars` gate, scaling,
      the rank gate and the fit. */
  function FitSelected(d: Dense, lags: int, minVars: int, num: Numerics): (r: Result<Fitted, TrainError>)
    requires DenseShaped(d)
  {
    var final := Greedy(d, num.corrRank, d.names);
    if |final| < minVars then Err(InsufficientVariables(|final|))
    else
      var x := Rows(Standardize(Select(d, final), num.popStd), |d.index|);
      if num.dataRank(x) < |final| then Err(SingularData)
      else
        match FitTrend(num, x, lags)
        case Err(e) => Err(e)
        case Ok(trend) => Ok(Fitted(final, lags, trend, x, d.index))
  }

  function FitSpec(dfT: Panel, lags: int, minVars: int, retryBelow: int, minStd: real, num: Numerics, draw: Noise)
    : Result<Fitted, TrainError>
    requires Shaped(dfT)
  {
    match Prepared(dfT, lags, retryBelow, minStd, num, draw)
    case Err(e) => Err(e)
    case Ok(d) => FitSelected(d, lags, minVars, num)
  }

  /** Steps 4-8, shared by both trainers. */
  method FitTransformed(dfT: Panel, lags: int, minVars: int, retryBelow: int, minStd: real, num: Numerics, draw: Noise)
    returns (r: Result<Fitted, TrainError>)
    requires Shaped(dfT)
    ensures r == FitSpec(dfT, lags, minVars, retryBelow, minStd, num, draw)
  {
    var d := DropNa(dfT);
    if |d.index| < lags + 10 {
      return Err(InsufficientData(|d.index|));
    }
    d := AddNoise(d, num.std, draw, 0.001);
    d := DropLowStd(d, num.std, minStd);
    if |d.names| < retryBelow {
      d := AddNoise(d, num.std, draw, 0.01);
    }
    var final := SelectColumns(d, num.corrRank);
    if |final| < minVars {
      return Err(InsufficientVariables(|final|));
    }
    var x := Rows(Standardize(Select(d, final), num.popStd), |d.index|);
    if num.dataRank(x) < |final| {
      return Err(SingularData);
    }
    var trend := FitTrend(num, x, lags);
    if trend.Err? {
      return Err(trend.error);
    }
    r := Ok(Fitted(final, lags, trend.value, x, d.index));
  }

  /** `train_var_model(series_path, lags, min_vars, max_corr, min_std)` on the
      loaded dictionary. */
  function TrainSpec(raw: seq<RawSeries>, lags: int, minVars: int, minStd: real, num: Numerics, draw: Noise)
    : Result<Fitted, TrainError>
  {
    var df := Cleaned(raw);
    match Transformed(df, num, BasePlan(minStd))
    case Err(e) => Err(e)
    case Ok(t) => FitSpec(t, lags, minVars, 3, minStd, num, draw)
  }

  /** `train_var_model`; `maxCorr` is accepted and has no effect, as in the source. */
  method TrainVarModel(raw: seq<RawSeries>, lags: int, minVars: int, maxCorr: real, minStd: real, num: Numerics, draw: Noise)
    returns (r: Result<Fitted, TrainError>)
    ensures r == TrainSpec(raw, lags, minVars, minStd, num, draw)
  {
    var df := CleanPanel(raw);
    var t := TransformBase(df, num, minStd);
    if t.Err? {
      return Err(t.error);
    }
    r := FitTransformed(t.value, lags, minVars, 3, minStd, num, draw);
  }

  // ---------------------------------------------------------------------------
  // What a trained model satisfies
  // ---------------------------------------------------------------------------

  /** A model that trains has at least `min_vars` distinct variables, chosen in
      their frame order among the transformed columns, at least `lags + 10`
      scaled rows, one per date of the transformed index, a full-rank data
      matrix, and the first trend that fitted. */
  lemma FitSpecProperties(dfT: Panel, lags: int, minVars: int, retryBelow: int, minStd: real, num: Numerics, draw: Noise)
    requires Shaped(dfT) && Distinct(dfT.names)
    requires FitSpec(dfT, lags, minVars, retryBelow, minStd, num, draw).Ok?
    ensures TrainedFrom(FitSpec(dfT, lags, minVars, retryBelow, minStd, num, draw).value, dfT, lags, minVars, num)
  {
    var d0 := DropNa(dfT);
    DropNaSpec(dfT);
    var d := Prepared(dfT, lags, retryBelow, minStd, num, draw).value;
    var d1 := NoisePass(d0, num.std, draw, 0.001);
    DropLowSpec(d1.names, d1.cols, num.std, minStd);
    var d2 := DropLowStd(d1, num.std, minStd);
    assert d.names == d2.names && d.index == d0.index;
    SubsequenceDistinct(d2.names, dfT.names);
    GreedySubsequence(d, num.corrRank, d.names);
    var f := FitSpec(dfT, lags, minVars, retryBelow, minStd, num, draw).value;
    assert f.names == Greedy(d, num.corrRank, d.names);
    SubsequenceTrans(f.names, d.names, dfT.names);
    SubsequenceDistinct(f.names, dfT.names);
    forall i | 0 <= i < |f.dates| ensures f.dates[i] in dfT.index {
      var keep := CompleteRows(dfT.cols, |dfT.index|);
      assert f.dates[i] == dfT.index[keep[i]];
    }
  }

  /** What a model fitted from the transformed frame `dfT` satisfies. */
  ghost predicate TrainedFrom(f: Fitted, dfT: Panel, lags: int, minVars: int, num: Numerics)
  {
    && f.kAr == lags
    && |f.names| >= minVars
    && Subsequence(f.names, dfT.names) && Distinct(f.names)
    && |f.endog| == |f.dates| && |f.endog| >= lags + 10
    && (forall i :: 0 <= i < |f.endog| ==> |f.endog[i]| == |f.names|)
    && num.dataRank(f.endog) >= |f.names|
    && (f.trend == NoTrend <==> num.fits(f.endog, lags, NoTrend))
    && num.fits(f.endog, lags, f.trend)
    && (forall i :: 0 <= i < |f.dates| ==> f.dates[i] in dfT.index)
  }

  /** Each failure of the shared tail names the gate that stopped it. */
  lemma FitSpecErrors(dfT: Panel, lags: int, minVars: int, retryBelow: int, minStd: real, num: Numerics, draw: Noise)
    requires Shaped(dfT)
    ensures var r := FitSpec(dfT, lags, minVars, retryBelow, minStd, num, draw);
      && (r == Err(InsufficientData(|DropNa(dfT).index|)) <==> |DropNa(dfT).index| < lags + 10)
      && (r.Err? && r.error.InsufficientVariables? ==> r.error.count < minVars)
      && (r.Err? ==> r.error.InsufficientData? || r.error.InsufficientVariables? || r.error.SingularData? || r.error.EstimationFailure?)
  {
  }

  /** A model trained with at least one lag, together with any one-step
      predictor of the right width, is a valid input to the simulators. */
  lemma TrainedModelIsValid(raw: seq<RawSeries>, lags: int, minVars: int, minStd: real, num: Numerics, draw: Noise,
                            f: Fitted, step: VarSimulation.Window -> VarSimulation.Row)
    requires TrainSpec(raw, lags, minVars, minStd, num, draw) == Ok(f) && lags >= 1
    requires forall w :: |step(w)| == |f.names|
    ensures f.kAr == lags && VarSimulation.Valid(AsResults(f, step))
  {
    var df := Cleaned(raw);
    var t := Transformed(df, num, BasePlan(minStd)).value;
    BaseNamesDistinct(minStd);
    assert FitSpec(t, lags, minVars, 3, minStd, num, draw) == Ok(f);
    assert forall i :: 0 <= i < |t.index| ==> ValidMonth(t.index[i]);
    FitSpecProperties(t, lags, minVars, 3, minStd, num, draw);
    FittedIsValid(f, t, lags, minVars, num, step);
  }

  lemma BaseNamesDistinct(minStd: real)
    ensures Distinct(PlanNames(BasePlan(minStd)))
  {
    assert PlanNames(BasePlan(minStd)) == ["gdp", "inflation", "policy_rate", "real_rate"];
  }

  /** The simulators' view of a fitted model with a given one-step predictor. */
  function AsResults(f: Fitted, step: VarSimulation.Window -> VarSimulation.Row): VarSimulation.VarResults
    requires f.kAr >= 0
  {
    VarSimulation.VarResults(f.kAr, f.names, f.endog, f.dates, step)
  }

  lemma FittedIsValid(f: Fitted, dfT: Panel, lags: int, minVars: int, num: Numerics,
                      step: VarSimulation.Window -> VarSimulation.Row)
    requires TrainedFrom(f, dfT, lags, minVars, num) && lags >= 1
    requires forall i :: 0 <= i < |dfT.index| ==> ValidMonth(dfT.index[i])
    requires forall w :: |step(w)| == |f.names|
    ensures VarSimulation.Valid(AsResults(f, step))
  {
    assert f.dates[|f.dates| - 1] in dfT.index;
  }
}
