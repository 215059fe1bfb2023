# Macro scenario generator: a verified model of its decision logic

The repository trains a vector autoregression (VAR) on monthly macroeconomic
series (gdp, inflation, policy_rate, real_rate, optionally long_rate and
spread) and simulates shock scenarios with it. It also has:

- a rule table that propagates user shocks through historical series;
- a validator for user shocks;
- a min-max normaliser for series;
- a narrative layer that sanity-checks a simulation table and turns it into
  a prompt or a fallback text.

This project models that logic in Dafny. Library numerics (statsmodels,
numpy, pandas statistics, scikit-learn's scaler) and randomness become
parameters. The code around those calls is modelled branch by branch.

Modules, one per file:

- `Common` (common.dfy): `Option`/`Result`, and calendar months as
  (year, month) with a month ordinal.
- `PanelCleaning` (panel_cleaning.dfy): step 2 of both trainers.
  - Each raw series is put on month starts, keeping the first value per month.
  - The series are joined on the union of their months and forward-filled.
  - Rows before 1970 are cut, and so are rows with no value.
  - Also `diff` and `dropna`.
- `VarTraining` (var_training.dfy): `train_var_model`.
  - The transformation choice.
  - The `lags + 10` row gate.
  - The two noise passes, with the noise given as a function.
  - The low-std drop and the greedy rank filter.
  - The standard scaler, with its mean computed and its std an oracle.
  - The singularity gate and the no-trend-then-constant fit fallback.
- `VarTrainingEnhanced` (var_training_enhanced.dfy):
  `train_var_model_enhanced`, with its transformation policy and its
  second-chance threshold, and its copy of `simulate_var_shock`.
- `VarSimulation` (var_simulation.dfy): `simulate_var_shock` and
  `simulate_var_shock_persistent`.
  - The forecaster is a one-step function from a p-row window to a row.
  - A k-step forecast is the one-step forecast iterated with a sliding window.
- `ShockPropagation` (shock_propagation.dfy): `apply_shocks` over a map of
  dated series, and the rules table of config/shock_rules.py.
- `InputValidation` (input_validation.dfy): `validate_shocks`, including a
  model of `strptime(s, "%Y-%m")`.
- `Transform` (transform.dfy): `normalize_series`.
- `Narrative` (narrative.dfy): `validate_simulation_data`, and the shock
  lines of `build_prompt`.
- `NarrativeSimple` (narrative_simple.dfy): the fallback classifier, and the
  rule that `generate_narrative` returns every error as text.

Conventions:

- All numbers are `real`.
- A float that may be NaN is `Option<real>`, with `None` for NaN. Every
  comparison with NaN is false, as in pandas.
- An exception the source raises is the `Err` case of a `Result`.
- Imperative code follows the source's loops: methods with loop invariants,
  each proved equal to a specification function. The properties are lemmas
  about those functions.

## Model

| member | source | states |
|---|---|---|
| PanelCleaning.CleanPanel | quant/var_model.py:26-39 | The loop that fills `clean`, followed by the frame construction, yields exactly the cleaned frame `Cleaned(raw)` |
| PanelCleaning.Cleaned | quant/var_model.py:38-39 | The cleaned frame has one column per raw series, named in dictionary order. Its index is strictly increasing month starts from 1970-01 on, and every row has at least one value |
| PanelCleaning.MinKey | quant/var_model.py:29-34 | The earliest parsed month. It is missing exactly when no date parses; otherwise it is the month of some observation and no later than any parsed month |
| PanelCleaning.MaxKey | quant/var_model.py:29-34 | The latest parsed month. It is missing exactly when no date parses; otherwise it is the month of some observation and no earlier than any parsed month |
| PanelCleaning.MonthlySeriesRange | quant/var_model.py:29-34 | `asfreq("MS")` spans the earliest to the latest parsed month, one cell per month. A series with no parsed date is empty |
| PanelCleaning.MonthlySeriesSpec | quant/var_model.py:29-34 | The monthly series runs from the earliest to the latest parsed month, and is empty when no date parses. Every dated observation falls inside that range. A month holds the first non-missing observation dated in that month (`groupby().first()`), or is missing when there is none |
| PanelCleaning.FirstValueSpec | quant/var_model.py:33 | `first()` returns the earliest non-missing value of the month, or missing when all of the month's values are missing |
| PanelCleaning.UnionIndex | quant/var_model.py:38 | The joined index is strictly increasing and holds exactly the months some series covers |
| PanelCleaning.FFillSpec | quant/var_model.py:38 | Forward fill keeps every present value and copies the previous value into a missing cell. A leading missing cell takes the carried value, which the cleaning (`FFill`) sets to missing, so leading missing cells stay missing as in pandas `ffill` |
| PanelCleaning.KeptRows | quant/var_model.py:38-39 | The rows kept are in increasing order and are exactly those from 1970-01 on with at least one present value |
| PanelCleaning.CleanFrameProperties | quant/var_model.py:38-39 | The frame built from any monthly series is chronological, starts no earlier than 1970-01, has no empty row, and keeps the names |
| PanelCleaning.DropNaSpec | quant/var_model.py:72 | `dropna()` keeps exactly the complete rows, in order, with their values and dates |
| VarTraining.Transformed | quant/var_model.py:52-69 | On success the transformed frame is on the cleaned index, with the planned names in assignment order |
| VarTraining.TransformedSpec | quant/var_model.py:52-69 | The transformation fails exactly when a planned variable is missing, and the error names the first one missing. Otherwise column k is plan variable k, transformed as its rule chooses |
| VarTraining.TransformBase | quant/var_model.py:52-69 | The gdp assignment and the loop over the three rates compute the transformation of the base plan, including the `KeyError` for the first missing variable |
| VarTraining.BaseTransform | quant/var_model.py:55-69 | gdp is differenced exactly when the std of its differences is defined and above `min_std`. Each rate is differenced exactly when the std of its differences exceeds half the std of its level. Otherwise the level is kept |
| VarTraining.PlannedColumn | quant/var_model.py:52-69 | Column k of a successful transformation is plan entry k applied to that variable's cleaned column |
| VarTraining.PlannedRule | quant/var_model.py:52-69 | Choosing a transformation from a column's statistics and then applying it gives, rule by rule, the column the training code assigns: differences or level by `min_std`, differences or level by relative volatility, the level, or log-differences or differences for long_rate |
| VarTraining.PlannedAt | quant/var_model.py:52-69 | When plan entry k is (name, rule), column k of a successful transformation is that rule's column of the named variable |
| VarTraining.BaseNamesDistinct | quant/var_model.py:55-69 | The base trainer's four column names are distinct |
| VarTraining.Apply | quant/var_model.py:56-65 | Level, difference and log-difference keep the column's length |
| VarTraining.NoisePass | quant/var_model.py:87-91 | A noise pass keeps the frame's columns, names and index. It adds the draws to exactly the columns whose std is below 0.01 and leaves the others unchanged |
| VarTraining.AddNoise | quant/var_model.py:87-91 | The noise loop computes one noise pass |
| VarTraining.DropLow | quant/var_model.py:94-97 | Every surviving column is an input column with its own name whose std is not below `min_std` |
| VarTraining.DropLowStd | quant/var_model.py:94-97 | Dropping columns keeps the index and the frame's shape |
| VarTraining.DropLowSpec | quant/var_model.py:94-97 | The kept names are an order-preserving subsequence of the input names. A column is kept exactly when its std is not below `min_std`, and each kept name keeps its own column |
| VarTraining.DropLowOrder | quant/var_model.py:94-97 | The kept columns keep their order, and every column that is not low is kept |
| VarTraining.Greedy | quant/var_model.py:110-126 | Every selected column is a candidate |
| VarTraining.SelectColumns | quant/var_model.py:110-126 | The loop over `remaining_cols` computes the greedy selection over the frame's columns |
| VarTraining.GreedyFullRank | quant/var_model.py:113-122 | For every k, the first k selected columns have a correlation matrix of rank k |
| VarTraining.GreedySubsequence | quant/var_model.py:110-126 | The selection is an order-preserving subsequence of the candidates |
| VarTraining.GreedyExtends | quant/var_model.py:113-122 | The selection after i candidates is a prefix of the final selection, and the rest is drawn from later candidates |
| VarTraining.GreedyAccepts | quant/var_model.py:113-122 | Among distinct candidates, a column is selected exactly when, on its turn, the columns accepted so far plus it have a full-rank correlation matrix |
| VarTraining.ScaleOf | quant/var_model.py:134-139 | The scaler divides by the population std, or by 1 when that std is 0, and so never by zero |
| VarTraining.Centre | quant/var_model.py:134-139 | Each scaled value is (x - mean) / scale |
| VarTraining.Standardize | quant/var_model.py:134-139 | `fit_transform` centres and scales each column by its own mean and scale |
| VarTraining.StandardizeRoundTrip | quant/var_model.py:134-139 | Scaling is invertible: value times scale plus mean gives back every original value |
| VarTraining.StandardizedMeanZero | quant/var_model.py:134-139 | Every scaled column of a frame with rows sums to zero |
| VarTraining.Prepared | quant/var_model.py:72-107 | After dropna, the row gate, the noise passes and the low-std drop, the frame is well shaped |
| VarTraining.FitTransformed | quant/var_model.py:72-163 | Steps 4 to 8, the code shared by both trainers, compute the specification `FitSpec` |
| VarTraining.TrainVarModel | quant/var_model.py:12-163 | `train_var_model` is cleaning, then the base transformation, then the shared tail |
| VarTraining.FitSpecProperties | quant/var_model.py:72-163 | A trained model has at least `min_vars` distinct variables, in frame order. It has at least `lags + 10` scaled rows on dates from the transformed index, a full-rank data matrix, lag order `lags`, and the first trend that fitted |
| VarTraining.FitSpecErrors | quant/var_model.py:72-160 | The row gate fails exactly when `dropna` leaves fewer than `lags + 10` rows. Too few variables reports a count below `min_vars`. Every failure is one of the four gates |
| VarTraining.TrainedModelIsValid | quant/var_model.py:12-163 | A model trained with at least one lag is a valid input to both simulators |
| VarTraining.FittedIsValid | quant/var_model.py:142-163 | A model fitted from monthly dates, with a one-step forecaster of its width, satisfies the simulators' precondition |
| VarTrainingEnhanced.TrainVarModelEnhanced | quant/var_model_enhanced.py:9-194 | `train_var_model_enhanced` is cleaning, then the enhanced transformation, then the shared tail with the second noise pass below `min_vars` columns |
| VarTrainingEnhanced.EnhancedTransform | quant/var_model_enhanced.py:55-100 | The columns are gdp, inflation, policy_rate and real_rate, then long_rate and spread exactly when included. gdp and spread are differenced exactly when their differenced std is above `min_std`. The three rates are kept in level. long_rate is the log-difference of x + 0.001 when that has std above `min_std`, else the plain difference |
| VarTrainingEnhanced.EnhancedBase | quant/var_model_enhanced.py:58-76 | gdp is differenced exactly when the std of its differences is above `min_std`. inflation, policy_rate and real_rate are kept in level |
| VarTrainingEnhanced.EnhancedLongRate | quant/var_model_enhanced.py:79-91 | An included long_rate is present and takes the log-difference of x + 0.001 when that has std above `min_std`, else the plain difference |
| VarTrainingEnhanced.EnhancedSpread | quant/var_model_enhanced.py:93-100 | An included spread is present, is the last column, and is differenced exactly when the std of its differences is above `min_std` |
| VarTrainingEnhanced.EnhancedNames | quant/var_model_enhanced.py:55-100 | The enhanced frame's column names, in order, for each combination of the two flags |
| VarTrainingEnhanced.EnhancedNamesDistinct | quant/var_model_enhanced.py:55-100 | The enhanced column names are distinct |
| VarTrainingEnhanced.EnhancedMissingVariable | quant/var_model_enhanced.py:79-91 | A missing long_rate that is included makes the trainer raise for long_rate. The except branch reads the same column and cannot recover |
| VarTrainingEnhanced.SpreadSwitchedOff | quant/var_model_enhanced.py:93-100 | With `include_spread` false, spread is not planned and the plan is the included one minus its last entry |
| VarTrainingEnhanced.EnhancedModelIsValid | quant/var_model_enhanced.py:9-194 | An enhanced model with at least one lag is a valid simulator input and has at least `min_vars` variables |
| VarTrainingEnhanced.SimulateVarShock | quant/var_model_enhanced.py:198-218 | The file's copy of `simulate_var_shock` equals the base instantaneous simulator |
| VarSimulation.Window0 | quant/var_model.py:177-178 | The history window is `endog[-p:]`: exactly p rows, which are the training data's final rows in order, so that the data is its earlier rows followed by the window and the window ends with the last training row |
| VarSimulation.AddAt | quant/var_model.py:183-184 | `history[-1, idx] += m` changes only the newest row and keeps its width |
| VarSimulation.AddToLast | quant/var_model.py:238 | `current_history[-1] += row` adds the row to the newest window row and leaves the older rows alone |
| VarSimulation.Slide | quant/var_model.py:243 | The window slide keeps the window's length and makes the forecast its newest row |
| VarSimulation.Forecast | quant/var_model.py:186 | A k-step forecast has k rows |
| VarSimulation.ShockLast | quant/var_model.py:180-184 | The instantaneous shocks change only the newest window row, keeping its width |
| VarSimulation.ShockVector | quant/var_model.py:180-184 | The summed shock row has one entry per model variable |
| VarSimulation.ShockMatrix | quant/var_model.py:223-231 | The shock matrix is `steps` rows by `n_vars` columns |
| VarSimulation.Rollout | quant/var_model.py:234-243 | The persistent loop records one forecast per shock row |
| VarSimulation.ForecastDates | quant/var_model.py:187-189 | Output date i is the month i + 1 after the last training month |
| VarSimulation.SimulateVarShock | quant/var_model.py:169-190 | The method computes the instantaneous specification. It raises exactly when some shock names a variable outside the model. On success it returns `steps` rows in the model's column order on consecutive months |
| VarSimulation.SimulateVarShockPersistent | quant/var_model.py:196-247 | The method, which fills an `array2` shock matrix, computes the persistent specification, with the same error condition and output shape |
| VarSimulation.ShockHistory | quant/var_model.py:180-184 | The shock loop stops at the first unknown variable, which it reports, and otherwise leaves the window shocked as the instantaneous specification says |
| VarSimulation.FillShockMatrix | quant/var_model.py:223-231 | The fill allocates a fresh `steps x n_vars` zero matrix and reports the first unknown variable. When there is none, every cell holds the specification's entry |
| VarSimulation.ShockColumn | quant/var_model.py:229-231 | The inner loop writes magnitude times decay^t into column idx for t < min(duration, steps) and changes no other cell |
| VarSimulation.RunPersistent | quant/var_model.py:235-243 | The step loop over the matrix rows returns the persistent rollout of the window over those rows |
| VarSimulation.FilledMatrix | quant/var_model.py:223-231 | A matrix whose cells hold the specification's entries has exactly the specification's rows |
| VarSimulation.SingleStepRollout | quant/var_model.py:234-243 | The persistent loop over a one-period shock matrix is the plain forecast from the instantaneously shocked window |
| VarSimulation.FirstUnknownSpec | quant/var_model.py:180-182 | The error names the first shock, in dictionary order, whose variable is not in the model, and there is none exactly when every shock is known |
| VarSimulation.ForecastWidth | quant/var_model.py:186 | Every forecast row has the model's width |
| VarSimulation.RolloutWidth | quant/var_model.py:234-243 | Every persistent forecast row has the model's width |
| VarSimulation.ForecastDatesConsecutive | quant/var_model.py:187-189 | The first output date is the month after the last training date, and each later date is the month after the previous one |
| VarSimulation.SimulationsWellShaped | quant/var_model.py:169-247 | Both simulators return `steps` rows of `len(names)` values on consecutive month starts when they succeed |
| VarSimulation.SumForDistinct | quant/var_model.py:180-184 | With distinct dictionary keys, a variable's total shock is its one magnitude |
| VarSimulation.ShockLastIsVectorAdd | quant/var_model.py:180-184 | Adding the shocks one by one equals adding the summed shock row to the newest window row |
| VarSimulation.InstantShockCells | quant/var_model.py:178-184 | Older window rows are unchanged. In the newest row each shocked variable's column grows by its magnitude, and every unshocked column is unchanged |
| VarSimulation.InstantShockOrderIndependent | quant/var_model.py:180-184 | Any reordering of the shocks gives the same shocked window |
| VarSimulation.InstantaneousOrderIndependent | quant/var_model.py:169-190 | For any reordering of the shocks, `simulate_var_shock` fails exactly when it fails on the original order, and otherwise returns the same frame |
| VarSimulation.ShockMatrixEntries | quant/var_model.py:223-231 | Entry [t][idx] is magnitude times decay^t for t < min(duration, steps) and 0 for later t. Every column of an unshocked variable is 0 |
| VarSimulation.EntryFirstStep | quant/var_model.py:229-231 | At step 0 every shocked column holds the full magnitude, whatever the decay |
| VarSimulation.RolloutOfZeros | quant/var_model.py:234-243 | Over zero shock rows the persistent loop is the plain iterated forecast |
| VarSimulation.SingleStepPersistentIsInstantaneous | quant/var_model.py:205-207 | With `shock_duration = 1` the persistent simulator equals the instantaneous one for every decay |
| ShockPropagation.ApplyShocks | quant/shock_propagation.py:4-46 | The nested loops over shocks and rule entries compute `Propagated`, the shocks applied one after another as the source does |
| ShockPropagation.ApplyRule | quant/shock_propagation.py:33-44 | The inner loop over one shock's rule entries computes `ApplyTargets`: each entry naming a present numeric series shifts it from the start month on, and other entries are skipped |
| ShockPropagation.ApplyTargetsPointwise | quant/shock_propagation.py:33-44 | A shock's rule entries keep every key and shift each series by the sum of the multipliers that target it, from the start month on |
| ShockPropagation.PropagatedPointwise | quant/shock_propagation.py:24-46 | The result has the same keys. Dates and numeric flags are unchanged. Every numeric value moves by exactly the sum, over shocks starting on or before its date, of signed value times multiplier. Non-numeric series do not move |
| ShockPropagation.DeltaAppend | quant/shock_propagation.py:27-44 | Contributions of concatenated shock lists add up |
| ShockPropagation.SameDeltaSameResult | quant/shock_propagation.py:27-44 | Shock lists with the same total contributions give the same result |
| ShockPropagation.PropagatedOrder | quant/shock_propagation.py:27-44 | Any reordering of the shocks gives the same propagated series |
| ShockPropagation.UntargetedUnchanged | quant/shock_propagation.py:33-44 | A series that no rule of any given shock targets comes out unchanged, including the shocked variable itself |
| ShockPropagation.NoRuleNoEffect | quant/shock_propagation.py:33 | A shock on a variable without a rule changes nothing |
| ShockPropagation.TableSingleShock | config/shock_rules.py:3-14 | Under the repository's table, one shock moves exactly the series its rule lists, each by signed value times its multiplier from the start month |
| ShockPropagation.GdpShock | config/shock_rules.py:11-13 | A gdp shock moves only inflation, by 0.5 times the signed value |
| ShockPropagation.InflationShock | config/shock_rules.py:8-10 | An inflation shock moves only gdp, by 1.5 times the signed value |
| ShockPropagation.InterestRateShock | config/shock_rules.py:4-7 | An interest_rate shock moves equity by -2.0 and gdp by -1.0 times the signed value |
| ShockPropagation.EquityShockNoEffect | config/shock_rules.py:3-14 | An equity shock, which is valid but has no rule, leaves every series unchanged |
| InputValidation.MonthField | quant/input_validation.py:23-24 | The `%m` match gives a month from 1 to 12 and consumes one or two characters |
| InputValidation.ParseYearMonth | quant/input_validation.py:23-26 | A parsed `%Y-%m` string gives a valid month with year at least 1 |
| InputValidation.ParseYearMonthSound | quant/input_validation.py:23-26 | Every accepted string is four digits, '-', and a one- or two-digit spelling of the parsed month |
| InputValidation.ParseYearMonthComplete | quant/input_validation.py:23-26 | Every such spelling of a month is accepted and parsed to that month |
| InputValidation.ParseYearMonthSpec | quant/input_validation.py:23-26 | The parser returns m exactly for the strings that spell m as `YYYY-M` or `YYYY-MM` |
| InputValidation.FormatParseRoundTrip | quant/input_validation.py:23-26 | A month written as `%Y-%m`, for years 1 to 9999, parses back to itself |
| InputValidation.MonthFormatExamples | quant/input_validation.py:23-26 | "2024-1", "2024-01" and "2024-12" pass. "2024-13", "2024-00", "2024-011", "0000-05" and "24-05" fail |
| InputValidation.CheckShockSpec | quant/input_validation.py:9-30 | A shock passes exactly when it satisfies all five checks. Otherwise the error is the first check that fails, in the order name, type, value, format, membership; a well-formed date that is not among the available dates gives the unknown-date error |
| InputValidation.ValidateShocks | quant/input_validation.py:8-32 | Validation succeeds exactly when every shock passes. Otherwise the error is that of the first failing shock in dictionary order |
| InputValidation.ValidateShocksAcceptable | quant/input_validation.py:8-32 | Validation succeeds exactly when every shock is acceptable, and an empty dictionary passes |
| InputValidation.PolicyRateRejected | quant/input_validation.py:6-12 | A policy_rate shock is rejected as an invalid variable, because the whitelist has interest_rate instead |
| Transform.Earliest | utils/transform.py:25 | The first date after sorting is an input date no later than any other |
| Transform.Latest | utils/transform.py:25 | The last date after sorting is an input date no earlier than any other |
| Transform.GridStart | utils/transform.py:27 | The grid starts in a valid month |
| Transform.Grid | utils/transform.py:27 | Grid month k is k months after the grid start, and the grid ends with the last date's month |
| Transform.GridSpec | utils/transform.py:25-27 | The grid holds every month start between the first and last dates, in order, one per month, and no others |
| Transform.ValueAt | utils/transform.py:27 | A grid month has a value only when an input point is dated exactly on its first day |
| Transform.ValueAtSpec | utils/transform.py:27 | A point dated on a month start gives that month its value |
| Transform.MinPresent | utils/transform.py:30 | The minimum skips NaN, is missing only when all values are, and is a present value no larger than any other |
| Transform.MaxPresent | utils/transform.py:31 | The maximum skips NaN, is missing only when all values are, and is a present value no smaller than any other |
| Transform.Rescaled | utils/transform.py:32 | Normalisation keeps the number of values |
| Transform.Regularised | utils/transform.py:25-27 | The reindexed values line up with the grid |
| Transform.RescaledSpec | utils/transform.py:30-32 | NaN stays NaN. When max equals min every value becomes NaN. When max > min every value lies in [0, 1], the minimum maps to 0 and the maximum to 1 |
| Transform.RescaledMonotone | utils/transform.py:32 | Normalisation keeps the order of the values |
| Transform.NormalizeSeriesShape | utils/transform.py:4-44 | A duplicated date raises. Otherwise the output is the normalised grid: without `var_name` the indexed series, and with it one row (date, var_name, value) per grid month, in date order |
| Narrative.ZeroCount | scripts/generate_narrative.py:63 | The zero count is at most the table's size |
| Narrative.ZeroCountAll | scripts/generate_narrative.py:58-63 | Every value is zero exactly when the zero count equals the size |
| Narrative.ValidateSpec | scripts/generate_narrative.py:53-83 | The check passes exactly when the table has cells and at most half of them are zero. Exactly half passes, and the all-zero test is subsumed |
| Narrative.AllZeroRefused | scripts/generate_narrative.py:58-60 | An all-zero table, the empty one included, is refused |
| Narrative.Upper | scripts/generate_narrative.py:104 | `upper()` maps each ASCII lower-case letter to its capital and keeps every other character |
| Narrative.Abs | scripts/generate_narrative.py:104 | `abs` is non-negative and equals the magnitude or its negation |
| Narrative.ShockLineSpec | scripts/generate_narrative.py:102-107 | A line starts "- VARIABLE: ", then '+' exactly when the magnitude is positive ('-' for zero), then the absolute magnitude |
| Narrative.BuildShockLines | scripts/generate_narrative.py:100-107 | There is one line per shock, in list order |
| Narrative.BuildPrompt | scripts/generate_narrative.py:86-108 | The prompt raises exactly when the table fails the check. Otherwise its shocks section is the header followed by the shock lines joined with newlines |
| NarrativeSimple.Change | scripts/generate_narrative_simple.py:114-117 | A missing column raises `KeyError`, and an empty present column raises `IndexError`. Otherwise the change is the last value minus the first, NaN when either is NaN |
| NarrativeSimple.FallbackErrors | scripts/generate_narrative_simple.py:106-117 | The fallback succeeds exactly when the four columns exist and there are rows. A missing gdp or an empty table fails on gdp first |
| NarrativeSimple.ClassifySpec | scripts/generate_narrative_simple.py:114-127 | The fallback's scenario type, read off the table: recession exactly when gdp's last row minus its first is below -0.05. Otherwise it is inflationary exactly when inflation rose by more than 0.1, otherwise restrictive exactly when policy_rate rose by more than 0.1, otherwise stable. A NaN at either end of a column never meets its threshold |
| NarrativeSimple.RealRateIrrelevant | scripts/generate_narrative_simple.py:117-127 | Tables that agree on the gdp, inflation and policy_rate changes get the same scenario type, whatever real_rate does |
| NarrativeSimple.DefaultName | scripts/generate_narrative_simple.py:111 | Without a scenario name the default "Escenario Personalizado" is used |
| NarrativeSimple.Strip | scripts/generate_narrative_simple.py:55 | `strip()` returns a slice of its input with no whitespace at either end, and everything it removes before and after that slice is whitespace |
| NarrativeSimple.GenerateNarrativeErrors | scripts/generate_narrative_simple.py:20-58 | A missing or empty key returns the missing-key message without calling the model. Every failure, whether the key, building the prompt or the call, returns a string starting with "❌ Error". Success returns the stripped reply |
| NarrativeSimple.PromptNeedsFallbackColumns | scripts/generate_narrative_simple.py:61-103 | The simple prompt can be built exactly when the fallback can be computed |

## Left out

- File and console I/O: the pickle load, `print` logging, the JSON scenario file, and CSV/markdown export.
- statsmodels `VAR.fit` and `forecast` are parameters. The forecaster is a one-step function, and fitting is a predicate of the data, the lags and the trend. Least squares is not modelled.
- Library statistics are parameters: pandas `std`, `np.log`, the scaler's population std, and `np.linalg.matrix_rank` of the correlation matrix and of the data. The mean is computed.
- `np.random.normal` is a parameter: a draw for each standard deviation, column and row.
- Floating-point rounding, infinities and overflow are not modelled. A `log` result that is not finite is NaN.
- `VarTraining.ScaleOf`: scikit-learn treats a std close to zero as zero. The model treats only an exact zero that way.
- `np.linalg.matrix_rank` failing on a correlation matrix with NaN entries is not modelled; `corrRank` is total. Only a constant column has NaN correlations. The noise pass (quant/var_model.py:87-91) adds draws to such a column, and with a positive `min_std` (default 0.0001, quant/var_model.py:13) the drop at quant/var_model.py:94-97 removes any column whose std is still below it.
- `max_corr` is accepted and unused, as in the source. The correlation print is omitted.
- A constant column is scaled by 1, as scikit-learn does.
- The simulators' `steps` is a natural number. A negative or non-integer `steps` is not modelled.
- Test assertions that depend on fitted coefficients, such as decaying or larger persistent responses, depend on the forecaster. Only the decay of the shock matrix is proved.
- `results.endog`, the input series and the input frame are values. That they are not modified follows from value semantics and is not stated separately.
- `VarSimulation.SingleStepPersistentIsInstantaneous`: requires distinct shock variables, which a Python dictionary guarantees.
- Dictionary keys missing from a shock or config entry (a `KeyError`) are not modelled. Every entry has its fields.
- `InputValidation.ParseYearMonth`: only ASCII digits. `strptime` also accepts other Unicode decimal digits.
- `InputValidation`: `start` is a string. A non-string `start` raising `TypeError` is not modelled.
- `Narrative.Upper`: only ASCII letters are upper-cased.
- `NarrativeSimple.Strip`: only whitespace below code point 128 is stripped. Python's `strip()` also removes other Unicode whitespace, such as U+0085, U+00A0 and U+2028.
- Python's float-to-text rendering in the shock lines is a parameter `fmt`.
- Narrative prose, the `:.3f` formatting, `to_markdown` and the rest of the prompt text are not modelled. The model keeps only the facts each text reads.
- The OpenAI call is a parameter returning a reply or an exception message.
- The key check at import time (scripts/generate_narrative.py:17-19) and environment loading are not modelled.
- Shock propagation slices with `.loc[start:]`, modelled by date on or after the start month's first day. The order of an unsorted pandas index is not modelled.
- Times of day and time zones in dates are not modelled.
- `Transform.NormalizeSeries`: the model's input has no index name. With `var_name`, an unnamed index, which `reset_index` calls "index" and the rename turns into "date", and an index already named "date" both give the "date" column. Any other index name leaves no "date" column, so utils/transform.py:40 raises `KeyError`; that error is not modelled.
- Duplicate column names in a frame are not modelled.
- The simulation tables in the narrative scripts have numeric columns only.
- quant/scenarios.py, api/, etl/, utils/io.py, utils/export.py, scripts/fix_series.py, the dashboards, demos, figures and test drivers are not part of this model. They are I/O, UI or glue.
