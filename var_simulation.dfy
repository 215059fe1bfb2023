/** The shock simulators of quant/var_model.py: a fitted VAR projected forward
    from the last p rows of its (scaled) training data, under instantaneous or
    persistent, geometrically decaying shocks. The fitted model's one-step
    forecast is an oracle (`VarResults.step`); the multi-step forecast is that
    step iterated over a sliding window. */
module VarSimulation {
  import opened Common

  /** One observation vector, one value per model variable. */
  type Row = seq<real>

  /** The last p observation vectors, oldest first. */
  type Window = seq<Row>

  /** What the simulators read of a statsmodels `VARResults`:
      `k_ar`, `names`, `endog`, `dates` and the fitted one-step forecast. */
  datatype VarResults = VarResults(
    kAr: nat,
    names: seq<string>,
    endog: seq<Row>,
    dates: seq<Month>,
    step: Window -> Row)

  /** A shock as the simulators read it from `shocks_dict`: `{var: {"magnitude": m}}`. */
  datatype Shock = Shock(variable: string, magnitude: real)

  datatype SimError = UnknownVariable(name: string)

  /** A forecast table: one row per month, one column per model variable. */
  datatype Frame = Frame(index: seq<Month>, columns: seq<string>, rows: seq<Row>)

  /** The shape every fitted VAR has. */
  ghost predicate Valid(m: VarResults)
  {
    && m.kAr >= 1
    && |m.endog| >= m.kAr
    && |m.dates| >= 1
    && ValidMonth(m.dates[|m.dates| - 1])
    && Distinct(m.names)
    && (forall i :: 0 <= i < |m.endog| ==> |m.endog[i]| == |m.names|)
    && (forall w :: |m.step(w)| == |m.names|)
  }

  /** A dictionary has each key once. */
  predicate DistinctVariables(shocks: seq<Shock>)
  {
    forall i, j :: 0 <= i < j < |shocks| ==> shocks[i].variable != shocks[j].variable
  }

  function LastDate(m: VarResults): Month
    requires |m.dates| >= 1
  {
    m.dates[|m.dates| - 1]
  }

  /** `results.endog[-p:]`: the last p rows of the training data. */
  function Window0(m: VarResults): (w: Window)
    requires |m.endog| >= m.kAr
    ensures |w| == m.kAr
    ensures m.endog == m.endog[..|m.endog| - m.kAr] + w
    ensures m.kAr >= 1 ==> w[m.kAr - 1] == m.endog[|m.endog| - 1]
  {
    m.endog[|m.endog| - m.kAr..]
  }

  function Min(a: int, b: int): int { if a <= b then a else b }

  function Pow(x: real, n: nat): real
  {
    if n == 0 then 1.0 else x * Pow(x, n - 1)
  }

  /** Element-wise `r + s` over the columns of `r`. */
  function AddRow(r: Row, s: Row): (q: Row)
    ensures |q| == |r|
  {
    seq(|r|, i requires 0 <= i < |r| => r[i] + (if i < |s| then s[i] else 0.0))
  }

  /** `w[-1] += s`. */
  function AddToLast(w: Window, s: Row): (v: Window)
    requires |w| >= 1
    ensures |v| == |w| && v[..|w| - 1] == w[..|w| - 1] && v[|w| - 1] == AddRow(w[|w| - 1], s)
  {
    w[..|w| - 1] + [AddRow(w[|w| - 1], s)]
  }

  /** `w[-1, j] += x` (nothing when `j` is not a column). */
  function AddAt(w: Window, j: nat, x: real): (v: Window)
    requires |w| >= 1
    ensures |v| == |w| && v[..|w| - 1] == w[..|w| - 1] && |v[|w| - 1]| == |w[|w| - 1]|
  {
    var last := w[|w| - 1];
    if j < |last| then w[..|w| - 1] + [last[j := last[j] + x]] else w
  }

  /** Drop the oldest row, append the newest (`np.vstack([w[1:], row])`). */
  function Slide(w: Window, row: Row): (v: Window)
    requires |w| >= 1
    ensures |v| == |w| && v[|v| - 1] == row
  {
    w[1..] + [row]
  }

  /** `results.forecast(w, steps=k)`: the one-step forecast iterated k times,
      each forecast becoming the newest row of the window. */
  function Forecast(step: Window -> Row, w: Window, k: nat): (f: seq<Row>)
    requires |w| >= 1
    ensures |f| == k
    decreases k
  {
    if k == 0 then [] else var r := step(w); [r] + Forecast(step, Slide(w, r), k - 1)
  }

  /** The variable of the first shock that is not a model variable. */
  function FirstUnknown(names: seq<string>, shocks: seq<Shock>): Option<string>
  {
    if shocks == [] then None
    else if shocks[0].variable !in names then Some(shocks[0].variable)
    else FirstUnknown(names, shocks[1..])
  }

  /** The instantaneous update of the history window, shock by shock in dictionary order. */
  function ShockLast(w: Window, names: seq<string>, shocks: seq<Shock>): (v: Window)
    requires |w| >= 1
    ensures |v| == |w| && v[..|w| - 1] == w[..|w| - 1] && |v[|w| - 1]| == |w[|w| - 1]|
    decreases |shocks|
  {
    if shocks == [] then w
    else ShockLast(AddAt(w, IndexOf(names, shocks[0].variable), shocks[0].magnitude), names, shocks[1..])
  }

  /** Total magnitude the shocks put on variable `v`. */
  function SumFor(shocks: seq<Shock>, v: string): real
  {
    if shocks == [] then 0.0
    else (if shocks[0].variable == v then shocks[0].magnitude else 0.0) + SumFor(shocks[1..], v)
  }

  /** The shock row, one entry per model variable. */
  function ShockVector(names: seq<string>, shocks: seq<Shock>): (v: Row)
    ensures |v| == |names|
  {
    seq(|names|, j requires 0 <= j < |names| => SumFor(shocks, names[j]))
  }

  /** Entry [t, j] of the persistent shock matrix once `shocks` have been written
      into it: the last shock on column j sets `magnitude * decay^t` for t < active. */
  function Entry(names: seq<string>, shocks: seq<Shock>, j: nat, t: nat, active: int, decay: real): real
    decreases |shocks|
  {
    if shocks == [] then 0.0
    else
      var s := shocks[|shocks| - 1];
      if IndexOf(names, s.variable) == j && t < active then s.magnitude * Pow(decay, t)
      else Entry(names, shocks[..|shocks| - 1], j, t, active, decay)
  }

  /** The `steps x n_vars` shock matrix of the persistent simulator. */
  function ShockMatrix(names: seq<string>, shocks: seq<Shock>, steps: nat, duration: int, decay: real): (mx: seq<Row>)
    ensures |mx| == steps && forall t :: 0 <= t < steps ==> |mx[t]| == |names|
  {
    seq(steps, t requires 0 <= t < steps =>
      seq(|names|, j requires 0 <= j < |names| => Entry(names, shocks, j, t, Min(duration, steps), decay)))
  }

  /** The persistent loop: before each one-step forecast add that step's shock
      row to the newest window row; then slide the forecast into the window. */
  function Rollout(step: Window -> Row, w: Window, rows: seq<Row>): (f: seq<Row>)
    requires |w| >= 1
    ensures |f| == |rows|
    decreases |rows|
  {
    if rows == [] then []
    else
      var shocked := AddToLast(w, rows[0]);
      var r := step(shocked);
      [r] + Rollout(step, Slide(shocked, r), rows[1..])
  }

  /** `pd.date_range(last + MonthBegin(1), periods=steps, freq="MS")`. */
  function ForecastDates(last: Month, steps: nat): (d: seq<Month>)
    requires ValidMonth(last)
    ensures |d| == steps
    ensures forall i :: 0 <= i < steps ==> ValidMonth(d[i]) && Ordinal(d[i]) == Ordinal(last) + i + 1
  {
    var d := seq(steps, i requires 0 <= i < steps => FromOrdinal(Ordinal(last) + i + 1));
    assert forall i :: 0 <= i < steps ==> d[i] == FromOrdinal(Ordinal(last) + i + 1);
    d
  }

  /** What `simulate_var_shock` returns. */
  function Instantaneous(m: VarResults, shocks: seq<Shock>, steps: nat): Result<Frame, SimError>
    requires Valid(m)
  {
    match FirstUnknown(m.names, shocks)
    case Some(v) => Err(UnknownVariable(v))
    case None =>
      Ok(Frame(ForecastDates(LastDate(m), steps), m.names,
               Forecast(m.step, ShockLast(Window0(m), m.names, shocks), steps)))
  }

  /** What `simulate_var_shock_persistent` returns. */
  function Persistent(m: VarResults, shocks: seq<Shock>, steps: nat, duration: int, decay: real): Result<Frame, SimError>
    requires Valid(m)
  {
    match FirstUnknown(m.names, shocks)
    case Some(v) => Err(UnknownVariable(v))
    case None =>
      Ok(Frame(ForecastDates(LastDate(m), steps), m.names,
               Rollout(m.step, Window0(m), ShockMatrix(m.names, shocks, steps, duration, decay))))
  }

  // ---------------------------------------------------------------------------
  // The two simulators
  // ---------------------------------------------------------------------------

  /** `simulate_var_shock`: add each magnitude to the newest history row, then forecast. */
  method SimulateVarShock(m: VarResults, shocks: seq<Shock>, steps: nat) returns (r: Result<Frame, SimError>)
    requires Valid(m)
    ensures r == Instantaneous(m, shocks, steps)
    ensures r.Err? <==> exists k :: 0 <= k < |shocks| && shocks[k].variable !in m.names
    ensures r.Ok? ==> WellShaped(r.value, m, steps)
  {
    FirstUnknownSpec(m.names, shocks);
    var history, unknown := ShockHistory(Window0(m), m.names, shocks);
    if unknown.Some? {
      return Err(UnknownVariable(unknown.value));
    }
    var forecast := Forecast(m.step, history, steps);
    r := Ok(Frame(ForecastDates(LastDate(m), steps), m.names, forecast));
    ForecastWidth(m.step, history, steps, |m.names|);
  }

  /** The loop of `simulate_var_shock` over the shocks: stop at the first unknown
      variable, otherwise add each magnitude to the newest history row. */
  method ShockHistory(w: Window, names: seq<string>, shocks: seq<Shock>) returns (history: Window, unknown: Option<string>)
    requires |w| >= 1
    ensures unknown == FirstUnknown(names, shocks)
    ensures unknown.None? ==> history == ShockLast(w, names, shocks)
  {
    history := w;
    var i := 0;
    while i < |shocks|
      invariant 0 <= i <= |shocks| && |history| == |w|
      invariant FirstUnknown(names, shocks) == FirstUnknown(names, shocks[i..])
      invariant ShockLast(w, names, shocks) == ShockLast(history, names, shocks[i..])
    {
      var s := shocks[i];
      if s.variable !in names {
        return history, Some(s.variable);
      }
      assert shocks[i..][1..] == shocks[i + 1..];
      history := AddAt(history, IndexOf(names, s.variable), s.magnitude);
      i := i + 1;
    }
    unknown := None;
  }

  /** `simulate_var_shock_persistent`: fill the decaying shock matrix, then
      shock, forecast one step and slide the window, `steps` times. */
  method SimulateVarShockPersistent(m: VarResults, shocks: seq<Shock>, steps: nat, shockDuration: int, shockDecay: real)
    returns (r: Result<Frame, SimError>)
    requires Valid(m)
    ensures r == Persistent(m, shocks, steps, shockDuration, shockDecay)
    ensures r.Err? <==> exists k :: 0 <= k < |shocks| && shocks[k].variable !in m.names
    ensures r.Ok? ==> WellShaped(r.value, m, steps)
  {
    FirstUnknownSpec(m.names, shocks);
    var history := Window0(m);
    var shockMatrix, unknown := FillShockMatrix(m.names, shocks, steps, Min(shockDuration, steps), shockDecay);
    if unknown.Some? {
      return Err(UnknownVariable(unknown.value));
    }
    ghost var mx := ShockMatrix(m.names, shocks, steps, shockDuration, shockDecay);
    FilledMatrix(shockMatrix, m.names, shocks, steps, shockDuration, shockDecay);
    var forecasts := RunPersistent(m.step, history, shockMatrix);
    r := Ok(Frame(ForecastDates(LastDate(m), steps), m.names, forecasts));
    RolloutWidth(m.step, history, mx, |m.names|);
  }

  /** Row t of a shock matrix (`shock_matrix[t]`). */
  function MatrixRow(mx: array2<real>, t: nat): (row: Row)
    requires t < mx.Length0
    reads mx
    ensures |row| == mx.Length1 && forall j :: 0 <= j < mx.Length1 ==> row[j] == mx[t, j]
  {
    seq(mx.Length1, j requires 0 <= j < mx.Length1 reads mx => mx[t, j])
  }

  /** The rows of a shock matrix. */
  ghost function MatrixRows(mx: array2<real>): (rows: seq<Row>)
    reads mx
    ensures |rows| == mx.Length0 && forall t :: 0 <= t < mx.Length0 ==> rows[t] == MatrixRow(mx, t)
  {
    seq(mx.Length0, t requires 0 <= t < mx.Length0 reads mx => MatrixRow(mx, t))
  }

  /** A matrix filled with the entries of `ShockMatrix` has its rows. */
  lemma FilledMatrix(mx: array2<real>, names: seq<string>, shocks: seq<Shock>, steps: nat, duration: int, decay: real)
    requires mx.Length0 == steps && mx.Length1 == |names|
    requires forall t, j :: 0 <= t < steps && 0 <= j < |names| ==> mx[t, j] == Entry(names, shocks, j, t, Min(duration, steps), decay)
    ensures MatrixRows(mx) == ShockMatrix(names, shocks, steps, duration, decay)
  {
    var rows, sm := MatrixRows(mx), ShockMatrix(names, shocks, steps, duration, decay);
    forall t | 0 <= t < steps
      ensures rows[t] == sm[t]
    {
      assert forall j :: 0 <= j < |names| ==> rows[t][j] == sm[t][j];
    }
  }

  /** The outer loop of the matrix fill: `np.zeros`, then each shock in dictionary
      order, raising at the first variable outside the model. */
  method FillShockMatrix(names: seq<string>, shocks: seq<Shock>, steps: nat, active: int, decay: real)
    returns (mx: array2<real>, unknown: Option<string>)
    requires active <= steps
    ensures fresh(mx) && mx.Length0 == steps && mx.Length1 == |names|
    ensures unknown == FirstUnknown(names, shocks)
    ensures unknown.None? ==>
      forall t, j :: 0 <= t < steps && 0 <= j < |names| ==> mx[t, j] == Entry(names, shocks, j, t, active, decay)
  {
    mx := new real[steps, |names|]((t, j) => 0.0);
    var i := 0;
    while i < |shocks|
      invariant 0 <= i <= |shocks|
      invariant FirstUnknown(names, shocks) == FirstUnknown(names, shocks[i..])
      invariant forall t, j :: 0 <= t < steps && 0 <= j < |names| ==> mx[t, j] == Entry(names, shocks[..i], j, t, active, decay)
    {
      var s := shocks[i];
      if s.variable !in names {
        return mx, Some(s.variable);
      }
      var idx := IndexOf(names, s.variable);
      ghost var before := MatrixRows(mx);
      ShockColumn(mx, idx, s.magnitude, active, decay);
      forall t, j | 0 <= t < steps && 0 <= j < |names|
        ensures mx[t, j] == Entry(names, shocks[..i + 1], j, t, active, decay)
      {
        assert shocks[..i + 1][..i] == shocks[..i] && shocks[..i + 1][i] == s;
        assert before[t][j] == Entry(names, shocks[..i], j, t, active, decay);
        assert mx[t, j] == if j == idx && t < active then s.magnitude * Pow(decay, t) else before[t][j];
        assert Entry(names, shocks[..i + 1], j, t, active, decay) ==
          if idx == j && t < active then s.magnitude * Pow(decay, t) else Entry(names, shocks[..i], j, t, active, decay);
      }
      assert shocks[i..][1..] == shocks[i + 1..];
      i := i + 1;
    }
    assert shocks[..|shocks|] == shocks;
    unknown := None;
  }

  /** The inner loop: `shock_matrix[t, idx] = magnitude * decay ** t` for every
      t below `active`; every other entry is left as it was. */
  method ShockColumn(mx: array2<real>, idx: nat, magnitude: real, active: int, decay: real)
    requires idx < mx.Length1 && active <= mx.Length0
    modifies mx
    ensures forall t, j :: 0 <= t < mx.Length0 && 0 <= j < mx.Length1 ==>
      mx[t, j] == if j == idx && t < active then magnitude * Pow(decay, t) else old(MatrixRows(mx))[t][j]
  {
    var t := 0;
    while t < active
      invariant 0 <= t && (t <= active || t == 0)
      invariant forall t', j :: 0 <= t' < mx.Length0 && 0 <= j < mx.Length1 ==>
        mx[t', j] == if j == idx && t' < t then magnitude * Pow(decay, t') else old(MatrixRows(mx))[t'][j]
    {
      mx[t, idx] := magnitude * Pow(decay, t);
      t := t + 1;
    }
  }

  /** The simulation loop of the persistent mode: add row t of the matrix to the
      newest window row, record the one-step forecast, slide the window. */
  method RunPersistent(step: Window -> Row, history: Window, mx: array2<real>) returns (forecasts: seq<Row>)
    requires |history| >= 1
    ensures forecasts == Rollout(step, history, MatrixRows(mx))
  {
    ghost var rows := MatrixRows(mx);
    forecasts := [];
    var current := history;
    var t := 0;
    while t < mx.Length0
      invariant 0 <= t <= mx.Length0 && |current| == |history|
      invariant forecasts + Rollout(step, current, rows[t..]) == Rollout(step, history, rows)
    {
      var row := MatrixRow(mx, t);
      assert rows[t..][0] == row && rows[t..][1..] == rows[t + 1..];
      var shocked := AddToLast(current, row);
      var f := step(shocked);
      assert Rollout(step, current, rows[t..]) == [f] + Rollout(step, Slide(shocked, f), rows[t + 1..]);
      forecasts := forecasts + [f];
      current := Slide(shocked, f);
      t := t + 1;
    }
    assert rows[mx.Length0..] == [];
  }

  /** `steps` rows of `len(names)` columns in `names` order, dated at the
      consecutive month-starts after the last training month. */
  ghost predicate WellShaped(f: Frame, m: VarResults, steps: nat)
    requires Valid(m)
  {
    && f.columns == m.names
    && |f.rows| == steps && |f.index| == steps
    && (forall i :: 0 <= i < steps ==> |f.rows[i]| == |m.names|)
    && (steps > 0 ==> f.index[0] == NextMonth(LastDate(m)))
    && (forall i :: 0 <= i < steps - 1 ==> ValidMonth(f.index[i]) && f.index[i + 1] == NextMonth(f.index[i]))
  }

  // ---------------------------------------------------------------------------
  // Properties
  // ---------------------------------------------------------------------------

  /** The error names the first shock, in dictionary order, outside the model. */
  lemma {:induction false} FirstUnknownSpec(names: seq<string>, shocks: seq<Shock>)
    ensures FirstUnknown(names, shocks) == None <==> forall k :: 0 <= k < |shocks| ==> shocks[k].variable in names
    ensures FirstUnknown(names, shocks).Some? ==>
      exists k :: 0 <= k < |shocks| && shocks[k].variable == FirstUnknown(names, shocks).value && shocks[k].variable !in names
                  && forall k' :: 0 <= k' < k ==> shocks[k'].variable in names
  {
    if shocks != [] && shocks[0].variable in names {
      FirstUnknownSpec(names, shocks[1..]);
      if FirstUnknown(names, shocks[1..]).Some? {
        var k :| 0 <= k < |shocks[1..]| && shocks[1..][k].variable == FirstUnknown(names, shocks[1..]).value
                 && shocks[1..][k].variable !in names && forall k' :: 0 <= k' < k ==> shocks[1..][k'].variable in names;
        assert shocks[k + 1].variable == FirstUnknown(names, shocks).value;
        forall k' | 0 <= k' < k + 1 ensures shocks[k'].variable in names {
          if k' > 0 { assert shocks[k'] == shocks[1..][k' - 1]; }
        }
      }
      forall k | 0 <= k < |shocks[1..]| ensures shocks[1..][k] == shocks[k + 1] { }
    }
  }

  lemma {:induction false} ForecastWidth(step: Window -> Row, w: Window, k: nat, n: nat)
    requires |w| >= 1 && forall v :: |step(v)| == n
    ensures forall i :: 0 <= i < k ==> |Forecast(step, w, k)[i]| == n
    decreases k
  {
    if k > 0 {
      ForecastWidth(step, Slide(w, step(w)), k - 1, n);
    }
  }

  lemma {:induction false} RolloutWidth(step: Window -> Row, w: Window, rows: seq<Row>, n: nat)
    requires |w| >= 1 && forall v :: |step(v)| == n
    ensures forall i :: 0 <= i < |rows| ==> |Rollout(step, w, rows)[i]| == n
    decreases |rows|
  {
    if rows != [] {
      var shocked := AddToLast(w, rows[0]);
      RolloutWidth(step, Slide(shocked, step(shocked)), rows[1..], n);
    }
  }

  lemma ForecastDatesConsecutive(last: Month, steps: nat)
    requires ValidMonth(last)
    ensures steps > 0 ==> ForecastDates(last, steps)[0] == NextMonth(last)
    ensures forall i :: 0 <= i < steps - 1 ==> ForecastDates(last, steps)[i + 1] == NextMonth(ForecastDates(last, steps)[i])
  {
    var d := ForecastDates(last, steps);
    if steps > 0 {
      OrdinalInjective(d[0], NextMonth(last));
    }
    forall i | 0 <= i < steps - 1 ensures d[i + 1] == NextMonth(d[i]) {
      OrdinalInjective(d[i + 1], NextMonth(d[i]));
    }
  }

  /** Both simulators return a well-shaped table whenever they succeed. */
  lemma SimulationsWellShaped(m: VarResults, shocks: seq<Shock>, steps: nat, duration: int, decay: real)
    requires Valid(m)
    ensures Instantaneous(m, shocks, steps).Ok? ==> WellShaped(Instantaneous(m, shocks, steps).value, m, steps)
    ensures Persistent(m, shocks, steps, duration, decay).Ok? ==>
      WellShaped(Persistent(m, shocks, steps, duration, decay).value, m, steps)
  {
    ForecastDatesConsecutive(LastDate(m), steps);
    ForecastWidth(m.step, ShockLast(Window0(m), m.names, shocks), steps, |m.names|);
    RolloutWidth(m.step, Window0(m), ShockMatrix(m.names, shocks, steps, duration, decay), |m.names|);
  }

  lemma {:induction false} SumForAbsent(shocks: seq<Shock>, v: string)
    requires forall k :: 0 <= k < |shocks| ==> shocks[k].variable != v
    ensures SumFor(shocks, v) == 0.0
  {
    if shocks != [] {
      assert forall k :: 0 <= k < |shocks[1..]| ==> shocks[1..][k] == shocks[k + 1];
      SumForAbsent(shocks[1..], v);
    }
  }

  lemma {:induction false} SumForAppend(a: seq<Shock>, b: seq<Shock>, v: string)
    ensures SumFor(a + b, v) == SumFor(a, v) + SumFor(b, v)
  {
    if a != [] {
      assert (a + b)[1..] == a[1..] + b;
      SumForAppend(a[1..], b, v);
    } else {
      assert a + b == b;
    }
  }

  /** With distinct dictionary keys a variable's total is the magnitude of its one shock. */
  lemma {:induction false} SumForDistinct(shocks: seq<Shock>, k: nat)
    requires DistinctVariables(shocks) && k < |shocks|
    ensures SumFor(shocks, shocks[k].variable) == shocks[k].magnitude
  {
    var v := shocks[k].variable;
    assert shocks == shocks[..k] + [shocks[k]] + shocks[k + 1..];
    SumForAppend(shocks[..k] + [shocks[k]], shocks[k + 1..], v);
    SumForAppend(shocks[..k], [shocks[k]], v);
    SumForAbsent(shocks[..k], v);
    SumForAbsent(shocks[k + 1..], v);
    assert SumFor([shocks[k]], v) == shocks[k].magnitude + SumFor([], v);
  }

  /** The instantaneous update adds the shock row to the newest window row. */
  lemma {:induction false} ShockLastIsVectorAdd(w: Window, names: seq<string>, shocks: seq<Shock>)
    requires |w| >= 1 && |w[|w| - 1]| == |names| && Distinct(names)
    ensures ShockLast(w, names, shocks) == AddToLast(w, ShockVector(names, shocks))
    decreases |shocks|
  {
    if shocks == [] {
      var v := AddToLast(w, ShockVector(names, shocks));
      assert v[|w| - 1] == w[|w| - 1];
      assert v == v[..|w| - 1] + [v[|w| - 1]];
      assert w == w[..|w| - 1] + [w[|w| - 1]];
    } else {
      var s := shocks[0];
      var idx := IndexOf(names, s.variable);
      var w1 := AddAt(w, idx, s.magnitude);
      ShockLastIsVectorAdd(w1, names, shocks[1..]);
      var lhs := AddToLast(w1, ShockVector(names, shocks[1..]));
      var rhs := AddToLast(w, ShockVector(names, shocks));
      var ll, rl := lhs[|w| - 1], rhs[|w| - 1];
      forall c | 0 <= c < |names| ensures ll[c] == rl[c] {
        if c == idx {
          assert names[c] == s.variable;
        } else {
          assert names[c] != s.variable;
        }
      }
      assert ll == rl;
      assert lhs == lhs[..|w| - 1] + [lhs[|w| - 1]];
      assert rhs == rhs[..|w| - 1] + [rhs[|w| - 1]];
    }
  }

  /** Instantaneous mode changes only the newest window row, and there only
      the shocked variables' columns, each by its own magnitude. */
  lemma InstantShockCells(w: Window, names: seq<string>, shocks: seq<Shock>)
    requires |w| >= 1 && |w[|w| - 1]| == |names| && Distinct(names) && DistinctVariables(shocks)
    ensures |ShockLast(w, names, shocks)| == |w|
    ensures forall i :: 0 <= i < |w| - 1 ==> ShockLast(w, names, shocks)[i] == w[i]
    ensures forall k :: 0 <= k < |shocks| && shocks[k].variable in names ==>
      var c := IndexOf(names, shocks[k].variable);
      ShockLast(w, names, shocks)[|w| - 1][c] == w[|w| - 1][c] + shocks[k].magnitude
    ensures forall c :: 0 <= c < |names| && (forall k :: 0 <= k < |shocks| ==> shocks[k].variable != names[c]) ==>
      ShockLast(w, names, shocks)[|w| - 1][c] == w[|w| - 1][c]
  {
    ShockLastIsVectorAdd(w, names, shocks);
    var r := ShockLast(w, names, shocks);
    forall i | 0 <= i < |w| - 1 ensures r[i] == w[i] {
      assert r[i] == r[..|w| - 1][i];
    }
    forall k | 0 <= k < |shocks| && shocks[k].variable in names
      ensures r[|w| - 1][IndexOf(names, shocks[k].variable)] == w[|w| - 1][IndexOf(names, shocks[k].variable)] + shocks[k].magnitude
    {
      SumForDistinct(shocks, k);
    }
    forall c | 0 <= c < |names| && (forall k :: 0 <= k < |shocks| ==> shocks[k].variable != names[c])
      ensures r[|w| - 1][c] == w[|w| - 1][c]
    {
      SumForAbsent(shocks, names[c]);
    }
  }

  /** Reordering the shocks leaves every variable's total unchanged. */
  lemma {:induction false} SumForPerm(a: seq<Shock>, b: seq<Shock>, v: string)
    requires multiset(a) == multiset(b)
    ensures SumFor(a, v) == SumFor(b, v)
    decreases |a|
  {
    if a == [] {
      assert |b| == |multiset(b)| == 0;
    } else {
      var k := PermutationSplit(a, b);
      SumForPerm(a[1..], b[..k] + b[k + 1..], v);
      SumForAppend(b[..k], [a[0]] + b[k + 1..], v);
      SumForAppend([a[0]], b[k + 1..], v);
      SumForAppend(b[..k], b[k + 1..], v);
      assert b[..k] + [a[0]] + b[k + 1..] == b[..k] + ([a[0]] + b[k + 1..]);
      assert ([a[0]] + b[k + 1..])[1..] == b[k + 1..];
      assert SumFor([a[0]], v) == if a[0].variable == v then a[0].magnitude else 0.0;
    }
  }

  /** The instantaneous update does not depend on dictionary order: any
      reordering of the shocks gives the same shocked window. */
  lemma InstantShockOrderIndependent(w: Window, names: seq<string>, a: seq<Shock>, b: seq<Shock>)
    requires |w| >= 1 && |w[|w| - 1]| == |names| && Distinct(names)
    requires multiset(a) == multiset(b)
    ensures ShockLast(w, names, a) == ShockLast(w, names, b)
  {
    ShockLastIsVectorAdd(w, names, a);
    ShockLastIsVectorAdd(w, names, b);
    forall j | 0 <= j < |names| ensures ShockVector(names, a)[j] == ShockVector(names, b)[j] {
      SumForPerm(a, b, names[j]);
    }
    assert ShockVector(names, a) == ShockVector(names, b);
  }

  /** `simulate_var_shock` does not depend on dictionary order: a reordering
      fails exactly when the original does, and otherwise gives the same frame. */
  lemma InstantaneousOrderIndependent(m: VarResults, a: seq<Shock>, b: seq<Shock>, steps: nat)
    requires Valid(m) && multiset(a) == multiset(b)
    ensures Instantaneous(m, a, steps).Ok? <==> Instantaneous(m, b, steps).Ok?
    ensures Instantaneous(m, a, steps).Ok? ==> Instantaneous(m, a, steps) == Instantaneous(m, b, steps)
  {
    FirstUnknownSpec(m.names, a);
    FirstUnknownSpec(m.names, b);
    forall k | 0 <= k < |a| ensures a[k] in b {
      assert a[k] in multiset(b);
    }
    forall k | 0 <= k < |b| ensures b[k] in a {
      assert b[k] in multiset(a);
    }
    var w := Window0(m);
    assert w[|w| - 1] == m.endog[|m.endog| - 1];
    InstantShockOrderIndependent(w, m.names, a, b);
  }

  /** Entry [t][idx] of the persistent shock matrix is magnitude * decay^t for
      t < min(duration, steps) and 0 otherwise; unshocked columns are 0. */
  lemma ShockMatrixEntries(names: seq<string>, shocks: seq<Shock>, steps: nat, duration: int, decay: real)
    requires Distinct(names) && DistinctVariables(shocks)
    ensures forall k, t :: 0 <= k < |shocks| && shocks[k].variable in names && 0 <= t < steps ==>
      ShockMatrix(names, shocks, steps, duration, decay)[t][IndexOf(names, shocks[k].variable)] ==
        (if t < Min(duration, steps) then shocks[k].magnitude * Pow(decay, t) else 0.0)
    ensures forall t, c :: (0 <= t < steps && 0 <= c < |names| &&
      (forall k :: 0 <= k < |shocks| ==> shocks[k].variable != names[c])) ==>
      ShockMatrix(names, shocks, steps, duration, decay)[t][c] == 0.0
  {
    var active := Min(duration, steps);
    forall k, t | 0 <= k < |shocks| && shocks[k].variable in names && 0 <= t < steps
      ensures Entry(names, shocks, IndexOf(names, shocks[k].variable), t, active, decay) ==
        (if t < active then shocks[k].magnitude * Pow(decay, t) else 0.0)
    {
      EntryOfShock(names, shocks, k, t, active, decay);
    }
    forall t, c | 0 <= t < steps && 0 <= c < |names| && (forall k :: 0 <= k < |shocks| ==> shocks[k].variable != names[c])
      ensures Entry(names, shocks, c, t, active, decay) == 0.0
    {
      EntryUnshocked(names, shocks, c, t, active, decay);
    }
  }

  lemma {:induction false} EntryOfShock(names: seq<string>, shocks: seq<Shock>, k: nat, t: nat, active: int, decay: real)
    requires Distinct(names) && DistinctVariables(shocks) && k < |shocks| && shocks[k].variable in names
    ensures Entry(names, shocks, IndexOf(names, shocks[k].variable), t, active, decay) ==
      (if t < active then shocks[k].magnitude * Pow(decay, t) else 0.0)
    decreases |shocks|
  {
    var c := IndexOf(names, shocks[k].variable);
    var last := shocks[|shocks| - 1];
    var init := shocks[..|shocks| - 1];
    if k == |shocks| - 1 {
      if !(t < active) {
        EntryUnshocked(names, init, c, t, active, decay);
      }
    } else {
      assert last.variable != shocks[k].variable;
      assert init[k] == shocks[k];
      EntryOfShock(names, init, k, t, active, decay);
    }
  }

  lemma {:induction false} EntryUnshocked(names: seq<string>, shocks: seq<Shock>, c: nat, t: nat, active: int, decay: real)
    requires c < |names|
    requires (forall k :: 0 <= k < |shocks| ==> shocks[k].variable != names[c]) || !(t < active)
    ensures Entry(names, shocks, c, t, active, decay) == 0.0
    decreases |shocks|
  {
    if shocks != [] {
      var init := shocks[..|shocks| - 1];
      assert forall k :: 0 <= k < |init| ==> init[k] == shocks[k];
      EntryUnshocked(names, init, c, t, active, decay);
    }
  }

  /** In the first step every shock is at full magnitude, whatever the decay. */
  lemma {:induction false} EntryFirstStep(names: seq<string>, shocks: seq<Shock>, j: nat, active: int, decay: real)
    requires Distinct(names) && DistinctVariables(shocks) && j < |names| && active >= 1
    ensures Entry(names, shocks, j, 0, active, decay) == SumFor(shocks, names[j])
    decreases |shocks|
  {
    if shocks == [] {
    } else {
      var last := shocks[|shocks| - 1];
      var init := shocks[..|shocks| - 1];
      assert shocks == init + [last];
      SumForAppend(init, [last], names[j]);
      assert SumFor([last], names[j]) == (if last.variable == names[j] then last.magnitude else 0.0) + SumFor([], names[j]);
      if IndexOf(names, last.variable) == j {
        assert last.variable == names[j];
        assert forall k :: 0 <= k < |init| ==> init[k] == shocks[k];
        SumForAbsent(init, names[j]);
      } else {
        assert last.variable != names[j];
        assert DistinctVariables(init);
        EntryFirstStep(names, init, j, active, decay);
      }
    }
  }

  /** Adding an all-zero shock row changes nothing, so the persistent loop over
      zero rows is the plain iterated forecast. */
  lemma {:induction false} RolloutOfZeros(step: Window -> Row, w: Window, rows: seq<Row>, n: nat)
    requires |w| >= 1 && |w[|w| - 1]| == n && forall v :: |step(v)| == n
    requires forall t, j :: 0 <= t < |rows| && 0 <= j < |rows[t]| ==> rows[t][j] == 0.0
    ensures Rollout(step, w, rows) == Forecast(step, w, |rows|)
    decreases |rows|
  {
    if rows != [] {
      var shocked := AddToLast(w, rows[0]);
      assert AddRow(w[|w| - 1], rows[0]) == w[|w| - 1];
      assert shocked == w by {
        assert w == w[..|w| - 1] + [w[|w| - 1]];
      }
      var r := step(shocked);
      RolloutOfZeros(step, Slide(shocked, r), rows[1..], n);
    }
  }

  /** With `shock_duration=1` the persistent simulator is the instantaneous one,
      for every decay: decay^0 = 1 and every later shock row is zero. */
  lemma SingleStepPersistentIsInstantaneous(m: VarResults, shocks: seq<Shock>, steps: nat, decay: real)
    requires Valid(m) && DistinctVariables(shocks)
    ensures Persistent(m, shocks, steps, 1, decay) == Instantaneous(m, shocks, steps)
  {
    if FirstUnknown(m.names, shocks).None? {
      var w := Window0(m);
      assert |w[|w| - 1]| == |m.names| by { assert w[|w| - 1] == m.endog[|m.endog| - 1]; }
      SingleStepRollout(m.step, w, m.names, shocks, steps, decay);
    }
  }

  /** The persistent loop over a one-step shock matrix forecasts from the
      instantaneously shocked window. */
  lemma SingleStepRollout(step: Window -> Row, w: Window, names: seq<string>, shocks: seq<Shock>, steps: nat, decay: real)
    requires |w| >= 1 && |w[|w| - 1]| == |names| && forall v :: |step(v)| == |names|
    requires Distinct(names) && DistinctVariables(shocks)
    ensures Rollout(step, w, ShockMatrix(names, shocks, steps, 1, decay)) == Forecast(step, ShockLast(w, names, shocks), steps)
  {
    var mx := ShockMatrix(names, shocks, steps, 1, decay);
    if steps > 0 {
      forall j | 0 <= j < |names| ensures mx[0][j] == ShockVector(names, shocks)[j] {
        EntryFirstStep(names, shocks, j, Min(1, steps), decay);
      }
      assert mx[0] == ShockVector(names, shocks);
      ShockLastIsVectorAdd(w, names, shocks);
      var shocked := AddToLast(w, mx[0]);
      assert shocked == ShockLast(w, names, shocks);
      forall t, j | 0 <= t < |mx[1..]| && 0 <= j < |mx[1..][t]| ensures mx[1..][t][j] == 0.0 {
        EntryUnshocked(names, shocks, j, t + 1, 1, decay);
      }
      var r := step(shocked);
      RolloutOfZeros(step, Slide(shocked, r), mx[1..], |names|);
    }
  }
}
