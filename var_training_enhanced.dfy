/** The enhanced trainer (quant/var_model_enhanced.py): the same cleaning and the
    same tail as `train_var_model`, with a different transformation policy (the
    three rates always in level, optional long_rate and spread columns) and the
    second noise pass triggered below `min_vars` columns instead of below 3. */
module VarTrainingEnhanced {
  import opened Common
  import opened PanelCleaning
  import opened VarTraining
  import VarSimulation

  const BaseFour: seq<string> := ["gdp", "inflation", "policy_rate", "real_rate"]

  /** The columns `train_var_model_enhanced` assigns, in order: gdp by `min_std`,
      the rates in level, then long_rate (log-differences or differences) and
      spread (differences or level) when included. */
  function EnhancedPlan(includeLongRate: bool, includeSpread: bool, minStd: real): Plan
  {
    [("gdp", DiffAbove(minStd)), ("inflation", KeepLevel), ("policy_rate", KeepLevel), ("real_rate", KeepLevel)]
    + (if includeLongRate then [("long_rate", LogDiffAbove(minStd))] else [])
    + (if includeSpread then [("spread", DiffAbove(minStd))] else [])
  }

  function TrainEnhancedSpec(raw: seq<RawSeries>, lags: int, minVars: int, includeLongRate: bool, includeSpread: bool,
                             minStd: real, num: Numerics, draw: Noise): Result<Fitted, TrainError>
  {
    var df := Cleaned(raw);
    match Transformed(df, num, EnhancedPlan(includeLongRate, includeSpread, minStd))
    case Err(e) => Err(e)
    case Ok(t) => FitSpec(t, lags, minVars, minVars, minStd, num, draw)
  }

  /** `train_var_model_enhanced`; `maxCorr` is accepted and has no effect, as in the source. */
  method TrainVarModelEnhanced(raw: seq<RawSeries>, lags: int, minVars: int, includeLongRate: bool, includeSpread: bool,
                               maxCorr: real, minStd: real, num: Numerics, draw: Noise)
    returns (r: Result<Fitted, TrainError>)
    ensures r == TrainEnhancedSpec(raw, lags, minVars, includeLongRate, includeSpread, minStd, num, draw)
  {
    var df := CleanPanel(raw);
    var t := Transformed(df, num, EnhancedPlan(includeLongRate, includeSpread, minStd));
    if t.Err? {
      return Err(t.error);
    }
    r := FitTransformed(t.value, lags, minVars, minVars, minStd, num, draw);
  }

  /** The transformed frame has the four base columns, then long_rate and spread
      exactly when included; gdp and spread are differenced when the std of their
      differences is above `min_std`; the three rates are passed through in level;
      long_rate is the log-difference of `x + 0.001` when that has std above
      `min_std` and the plain difference otherwise. */
  lemma EnhancedTransform(df: Panel, num: Numerics, includeLongRate: bool, includeSpread: bool, minStd: real)
    requires Shaped(df)
    requires Transformed(df, num, EnhancedPlan(includeLongRate, includeSpread, minStd)).Ok?
    ensures EnhancedColumns(df, num, includeLongRate, includeSpread, minStd,
                            Transformed(df, num, EnhancedPlan(includeLongRate, includeSpread, minStd)).value)
  {
    EnhancedNames(includeLongRate, includeSpread, minStd);
    EnhancedBase(df, num, includeLongRate, includeSpread, minStd);
    if includeLongRate {
      EnhancedLongRate(df, num, includeSpread, minStd);
    }
    if includeSpread {
      EnhancedSpread(df, num, includeLongRate, minStd);
    }
  }

  lemma EnhancedBase(df: Panel, num: Numerics, includeLongRate: bool, includeSpread: bool, minStd: real)
    requires Shaped(df)
    requires Transformed(df, num, EnhancedPlan(includeLongRate, includeSpread, minStd)).Ok?
    ensures var p := Transformed(df, num, EnhancedPlan(includeLongRate, includeSpread, minStd)).value;
      && "gdp" in df.names && p.cols[0] == DiffAboveColumn(num, Column(df, "gdp").value, minStd)
      && forall k :: 1 <= k < 4 ==> BaseFour[k] in df.names && p.cols[k] == Column(df, BaseFour[k]).value
  {
    var plan := EnhancedPlan(includeLongRate, includeSpread, minStd);
    assert plan[..4] == [("gdp", DiffAbove(minStd)), ("inflation", KeepLevel), ("policy_rate", KeepLevel), ("real_rate", KeepLevel)];
    PlannedAt(df, num, plan, 0, "gdp", DiffAbove(minStd));
    PlannedAt(df, num, plan, 1, "inflation", KeepLevel);
    PlannedAt(df, num, plan, 2, "policy_rate", KeepLevel);
    PlannedAt(df, num, plan, 3, "real_rate", KeepLevel);
  }

  lemma EnhancedLongRate(df: Panel, num: Numerics, includeSpread: bool, minStd: real)
    requires Shaped(df)
    requires Transformed(df, num, EnhancedPlan(true, includeSpread, minStd)).Ok?
    ensures "long_rate" in df.names
    ensures Transformed(df, num, EnhancedPlan(true, includeSpread, minStd)).value.cols[4] == LongRateColumn(num, Column(df, "long_rate").value, minStd)
  {
    PlannedAt(df, num, EnhancedPlan(true, includeSpread, minStd), 4, "long_rate", LogDiffAbove(minStd));
  }

  lemma EnhancedSpread(df: Panel, num: Numerics, includeLongRate: bool, minStd: real)
    requires Shaped(df)
    requires Transformed(df, num, EnhancedPlan(includeLongRate, true, minStd)).Ok?
    ensures "spread" in df.names
    ensures var p := Transformed(df, num, EnhancedPlan(includeLongRate, true, minStd)).value;
      p.cols[|p.cols| - 1] == DiffAboveColumn(num, Column(df, "spread").value, minStd)
  {
    var plan := EnhancedPlan(includeLongRate, true, minStd);
    PlannedAt(df, num, plan, |plan| - 1, "spread", DiffAbove(minStd));
  }

  lemma EnhancedNames(includeLongRate: bool, includeSpread: bool, minStd: real)
    ensures PlanNames(EnhancedPlan(includeLongRate, includeSpread, minStd))
      == BaseFour + (if includeLongRate then ["long_rate"] else []) + (if includeSpread then ["spread"] else [])
  {
  }

  ghost predicate EnhancedColumns(df: Panel, num: Numerics, includeLongRate: bool, includeSpread: bool, minStd: real, p: Panel)
    requires Shaped(df)
  {
    && p.names == BaseFour + (if includeLongRate then ["long_rate"] else []) + (if includeSpread then ["spread"] else [])
    && |p.cols| == |p.names| && p.index == df.index
    && "gdp" in df.names && p.cols[0] == DiffAboveColumn(num, Column(df, "gdp").value, minStd)
    && (forall k :: 1 <= k < 4 ==> BaseFour[k] in df.names && p.cols[k] == Column(df, BaseFour[k]).value)
    && (includeLongRate ==> "long_rate" in df.names && p.cols[4] == LongRateColumn(num, Column(df, "long_rate").value, minStd))
    && (includeSpread ==> "spread" in df.names && p.cols[|p.cols| - 1] == DiffAboveColumn(num, Column(df, "spread").value, minStd))
  }

  /** An included variable missing from the data makes the enhanced trainer raise
      for the first such variable; the try/except around long_rate does not help,
      because its fallback reads the same column. */
  lemma EnhancedMissingVariable(df: Panel, num: Numerics, includeLongRate: bool, includeSpread: bool, minStd: real)
    requires Shaped(df)
    requires forall v :: v in BaseFour ==> v in df.names
    requires includeLongRate && "long_rate" !in df.names
    ensures Transformed(df, num, EnhancedPlan(includeLongRate, includeSpread, minStd)) == Err(MissingVariable("long_rate"))
  {
    var plan := EnhancedPlan(includeLongRate, includeSpread, minStd);
    TransformedSpec(df, num, plan);
    assert plan[4].0 == "long_rate";
    assert forall k :: 0 <= k < 4 ==> plan[k].0 == BaseFour[k];
    var m := FirstMissing(df.names, plan).value;
    var k :| 0 <= k < |plan| && plan[k].0 == m && plan[k].0 !in df.names && forall k' :: 0 <= k' < k ==> plan[k'].0 in df.names;
    assert BaseFour[0] in BaseFour && BaseFour[1] in BaseFour && BaseFour[2] in BaseFour && BaseFour[3] in BaseFour;
    assert k == 4;
  }

  /** Switching spread off removes exactly the last entry of the plan, and the
      remaining plan names no spread column. */
  lemma SpreadSwitchedOff(df: Panel, num: Numerics, includeLongRate: bool, minStd: real)
    requires Shaped(df)
    ensures EnhancedPlan(includeLongRate, false, minStd) == EnhancedPlan(includeLongRate, true, minStd)[..|EnhancedPlan(includeLongRate, true, minStd)| - 1]
    ensures "spread" !in PlanNames(EnhancedPlan(includeLongRate, false, minStd))
  {
    var names := PlanNames(EnhancedPlan(includeLongRate, false, minStd));
    assert names == BaseFour + (if includeLongRate then ["long_rate"] else []);
  }

  lemma EnhancedNamesDistinct(includeLongRate: bool, includeSpread: bool, minStd: real)
    ensures Distinct(PlanNames(EnhancedPlan(includeLongRate, includeSpread, minStd)))
  {
    var names := PlanNames(EnhancedPlan(includeLongRate, includeSpread, minStd));
    assert names == BaseFour + (if includeLongRate then ["long_rate"] else []) + (if includeSpread then ["spread"] else []);
  }

  /** Models from the enhanced trainer are valid inputs to the simulators too. */
  lemma EnhancedModelIsValid(raw: seq<RawSeries>, lags: int, minVars: int, includeLongRate: bool, includeSpread: bool,
                             minStd: real, num: Numerics, draw: Noise, f: Fitted, step: VarSimulation.Window -> VarSimulation.Row)
    requires TrainEnhancedSpec(raw, lags, minVars, includeLongRate, includeSpread, minStd, num, draw) == Ok(f) && lags >= 1
    requires forall w :: |step(w)| == |f.names|
    ensures f.kAr == lags && VarSimulation.Valid(AsResults(f, step))
    ensures |f.names| >= minVars
  {
    var df := Cleaned(raw);
    var t := Transformed(df, num, EnhancedPlan(includeLongRate, includeSpread, minStd)).value;
    EnhancedNamesDistinct(includeLongRate, includeSpread, minStd);
    assert FitSpec(t, lags, minVars, minVars, minStd, num, draw) == Ok(f);
    assert forall i :: 0 <= i < |t.index| ==> ValidMonth(t.index[i]);
    FitSpecProperties(t, lags, minVars, minVars, minStd, num, draw);
    FittedIsValid(f, t, lags, minVars, num, step);
  }

  /** `simulate_var_shock` as repeated in this file: the same instantaneous-shock
      forecast as quant/var_model.py. */
  method SimulateVarShock(m: VarSimulation.VarResults, shocks: seq<VarSimulation.Shock>, steps: nat)
    returns (r: Result<VarSimulation.Frame, VarSimulation.SimError>)
    requires VarSimulation.Valid(m)
    ensures r == VarSimulation.Instantaneous(m, shocks, steps)
    ensures r.Ok? ==> VarSimulation.WellShaped(r.value, m, steps)
  {
    r := VarSimulation.SimulateVarShock(m, shocks, steps);
  }
}
