/** Rule-based shock propagation (quant/shock_propagation.py) with the repository's
    rules table (config/shock_rules.py): every shock adds `±value × multiplier` to
    each series its rule targets, from the shock's start month onward. */
module ShockPropagation {
  import opened Common

  /** A dated series. `numeric` is false for a series pandas does not hold as
      numbers (dates, objects); such a series is never read or changed. */
  datatype Series = Series(points: seq<(Date, real)>, numeric: bool)

  /** One user shock: `shock_type`, `value` and the month `start` names. */
  datatype ShockConfig = ShockConfig(shockType: string, value: real, start: Month)

  /** The user's shocks, in dict order. */
  type Shocks = seq<(string, ShockConfig)>

  /** shocked variable -> its (affected variable, multiplier) entries, in dict order. */
  type Rules = map<string, seq<(string, real)>>

  /** The rules table of config/shock_rules.py. */
  const ShockRules: Rules := map[
    "interest_rate" := [("equity", -2.0), ("gdp", -1.0)],
    "inflation" := [("gdp", 1.5)],
    "gdp" := [("inflation", 0.5)]
  ]

  /** `+value` for an "increase", `-value` for any other type. */
  function Signed(c: ShockConfig): real
  {
    if c.shockType == "increase" then c.value else -c.value
  }

  /** `d` falls in `.loc[start:]`: on or after the first day of the start month. */
  predicate OnOrAfter(d: Date, start: Month)
  {
    DateAtMost(Date(start.year, start.month, 1), d)
  }

  /** `rules.get(v, {})`. */
  function RuleFor(rules: Rules, v: string): seq<(string, real)>
  {
    if v in rules then rules[v] else []
  }

  /** `s.loc[start:] += amount`. */
  function Shift(s: Series, start: Month, amount: real): Series
  {
    Series(seq(|s.points|, i requires 0 <= i < |s.points| =>
             (s.points[i].0, s.points[i].1 + (if OnOrAfter(s.points[i].0, start) then amount else 0.0))),
           s.numeric)
  }

  /** The inner loop: one shock's rule entries applied in order; entries naming
      a missing or a non-numeric series are skipped. */
  function ApplyTargets(series: map<string, Series>, targets: seq<(string, real)>, signed: real, start: Month): map<string, Series>
    decreases |targets|
  {
    if targets == [] then series
    else
      var acc := ApplyTargets(series, targets[..|targets| - 1], signed, start);
      var (v, m) := targets[|targets| - 1];
      if v in acc && acc[v].numeric then acc[v := Shift(acc[v], start, signed * m)] else acc
  }

  /** The outer loop: all shocks applied in order to a copy of the series. */
  function Propagated(series: map<string, Series>, shocks: Shocks, rules: Rules): map<string, Series>
    decreases |shocks|
  {
    if shocks == [] then series
    else
      var acc := Propagated(series, shocks[..|shocks| - 1], rules);
      var (v, c) := shocks[|shocks| - 1];
      ApplyTargets(acc, RuleFor(rules, v), Signed(c), c.start)
  }

  /** `apply_shocks`. */
  method ApplyShocks(seriesDict: map<string, Series>, shocks: Shocks, rules: Rules) returns (newSeries: map<string, Series>)
    ensures newSeries == Propagated(seriesDict, shocks, rules)
  {
    newSeries := seriesDict;
    var i := 0;
    while i < |shocks|
      invariant 0 <= i <= |shocks|
      invariant newSeries == Propagated(seriesDict, shocks[..i], rules)
    {
      var (shockedVar, config) := shocks[i];
      var shockValue := if config.shockType == "increase" then config.value else -config.value;
      newSeries := ApplyRule(newSeries, RuleFor(rules, shockedVar), shockValue, config.start);
      assert shocks[..i + 1][..i] == shocks[..i];
      i := i + 1;
    }
    assert shocks[..i] == shocks;
  }

  /** The inner loop of `apply_shocks` over one shock's rule entries. */
  method ApplyRule(series: map<string, Series>, targets: seq<(string, real)>, shockValue: real, startDate: Month)
    returns (newSeries: map<string, Series>)
    ensures newSeries == ApplyTargets(series, targets, shockValue, startDate)
  {
    newSeries := series;
    var j := 0;
    while j < |targets|
      invariant 0 <= j <= |targets|
      invariant newSeries == ApplyTargets(series, targets[..j], shockValue, startDate)
    {
      var affectedVar := targets[j].0;
      var multiplier := targets[j].1;
      ghost var next := targets[..j + 1];
      assert next[..|next| - 1] == targets[..j] && next[|next| - 1] == targets[j];
      ApplyTargetsSnoc(series, next, shockValue, startDate, newSeries, shockValue * multiplier);
      if affectedVar in newSeries {
        if newSeries[affectedVar].numeric {
          newSeries := newSeries[affectedVar := Shift(newSeries[affectedVar], startDate, shockValue * multiplier)];
        }
      }
      j := j + 1;
    }
    assert targets[..j] == targets;
  }

  lemma ApplyTargetsSnoc(before: map<string, Series>, t: seq<(string, real)>, signed: real, start: Month,
                         acc: map<string, Series>, amount: real)
    requires t != [] && acc == ApplyTargets(before, t[..|t| - 1], signed, start)
    requires amount == signed * t[|t| - 1].1
    ensures t[|t| - 1].0 in acc && acc[t[|t| - 1].0].numeric ==>
      ApplyTargets(before, t, signed, start) == acc[t[|t| - 1].0 := Shift(acc[t[|t| - 1].0], start, amount)]
    ensures !(t[|t| - 1].0 in acc && acc[t[|t| - 1].0].numeric) ==> ApplyTargets(before, t, signed, start) == acc
  {
  }

  // ----- the pointwise reference definition -----

  /** What one shock's rule entries add to variable `v` at date `d`. */
  function Contribution(targets: seq<(string, real)>, v: string, signed: real, start: Month, d: Date): real
    decreases |targets|
  {
    if targets == [] then 0.0
    else
      Contribution(targets[..|targets| - 1], v, signed, start, d)
      + (if targets[|targets| - 1].0 == v && OnOrAfter(d, start) then signed * targets[|targets| - 1].1 else 0.0)
  }

  /** What all shocks add to variable `v` at date `d`: the sum, over every shock
      and every rule entry of that shock naming `v`, of `signed × multiplier`
      when `d` is on or after the shock's start. */
  function Delta(shocks: Shocks, rules: Rules, v: string, d: Date): real
    decreases |shocks|
  {
    if shocks == [] then 0.0
    else
      var (sv, c) := shocks[|shocks| - 1];
      Delta(shocks[..|shocks| - 1], rules, v, d) + Contribution(RuleFor(rules, sv), v, Signed(c), c.start, d)
  }

  /** `r` is `s` with `amount(d)` added at every date `d`, when `s` is numeric. */
  ghost predicate ShiftedBy(s: Series, r: Series, amount: Date -> real)
  {
    && r.numeric == s.numeric
    && |r.points| == |s.points|
    && forall i :: 0 <= i < |s.points| ==>
         r.points[i].0 == s.points[i].0 && r.points[i].1 == s.points[i].1 + (if s.numeric then amount(s.points[i].0) else 0.0)
  }

  /** The inner loop keeps every key and moves each series by its contributions. */
  lemma {:induction false} ApplyTargetsPointwise(series: map<string, Series>, targets: seq<(string, real)>, signed: real, start: Month)
    ensures ApplyTargets(series, targets, signed, start).Keys == series.Keys
    ensures forall v :: v in series ==>
      ShiftedBy(series[v], ApplyTargets(series, targets, signed, start)[v], d => Contribution(targets, v, signed, start, d))
    decreases |targets|
  {
    if targets != [] {
      var init := targets[..|targets| - 1];
      ApplyTargetsPointwise(series, init, signed, start);
    }
  }

  /** Propagation keeps every key, never changes dates or the numeric flag, and
      adds to every numeric value exactly `Delta` at its date. */
  lemma {:induction false} PropagatedPointwise(series: map<string, Series>, shocks: Shocks, rules: Rules)
    ensures Propagated(series, shocks, rules).Keys == series.Keys
    ensures forall v :: v in series ==>
      ShiftedBy(series[v], Propagated(series, shocks, rules)[v], d => Delta(shocks, rules, v, d))
    decreases |shocks|
  {
    if shocks != [] {
      var init := shocks[..|shocks| - 1];
      var (sv, c) := shocks[|shocks| - 1];
      PropagatedPointwise(series, init, rules);
      var acc := Propagated(series, init, rules);
      ApplyTargetsPointwise(acc, RuleFor(rules, sv), Signed(c), c.start);
    }
  }

  /** Two results that shift the same series by the same amounts are equal. */
  lemma ShiftedByUnique(s: Series, r1: Series, r2: Series, f: Date -> real, g: Date -> real)
    requires ShiftedBy(s, r1, f) && ShiftedBy(s, r2, g)
    requires forall d :: f(d) == g(d)
    ensures r1 == r2
  {
    assert r1.points == r2.points;
  }

  /** Shocks add up: the contribution of a concatenation is the sum of the parts. */
  lemma {:induction false} DeltaAppend(a: Shocks, b: Shocks, rules: Rules, v: string, d: Date)
    ensures Delta(a + b, rules, v, d) == Delta(a, rules, v, d) + Delta(b, rules, v, d)
    decreases |b|
  {
    if b == [] {
      assert a + b == a;
    } else {
      var init := b[..|b| - 1];
      assert (a + b)[..|a + b| - 1] == a + init;
      assert (a + b)[|a + b| - 1] == b[|b| - 1];
      DeltaAppend(a, init, rules, v, d);
    }
  }

  /** Propagations whose shocks add the same amounts everywhere give the same result. */
  lemma SameDeltaSameResult(series: map<string, Series>, s1: Shocks, s2: Shocks, rules: Rules)
    requires forall v, d :: Delta(s1, rules, v, d) == Delta(s2, rules, v, d)
    ensures Propagated(series, s1, rules) == Propagated(series, s2, rules)
  {
    PropagatedPointwise(series, s1, rules);
    PropagatedPointwise(series, s2, rules);
    var r1 := Propagated(series, s1, rules);
    var r2 := Propagated(series, s2, rules);
    forall v | v in series ensures r1[v] == r2[v] {
      ShiftedByUnique(series[v], r1[v], r2[v], d => Delta(s1, rules, v, d), d => Delta(s2, rules, v, d));
    }
  }

  /** Reordering the shocks leaves the amount added at every date unchanged. */
  lemma {:induction false} DeltaPerm(a: Shocks, b: Shocks, rules: Rules, v: string, d: Date)
    requires multiset(a) == multiset(b)
    ensures Delta(a, rules, v, d) == Delta(b, rules, v, d)
    decreases |a|
  {
    if a == [] {
      assert |b| == |multiset(b)| == 0;
    } else {
      var k := PermutationSplit(a, b);
      DeltaPerm(a[1..], b[..k] + b[k + 1..], rules, v, d);
      assert a == [a[0]] + a[1..];
      DeltaAppend([a[0]], a[1..], rules, v, d);
      DeltaAppend(b[..k] + [a[0]], b[k + 1..], rules, v, d);
      DeltaAppend(b[..k], [a[0]], rules, v, d);
      DeltaAppend(b[..k], b[k + 1..], rules, v, d);
    }
  }

  /** The result does not depend on the order in which shocks are listed: any
      reordering gives the same series. */
  lemma PropagatedOrder(series: map<string, Series>, a: Shocks, b: Shocks, rules: Rules)
    requires multiset(a) == multiset(b)
    ensures Propagated(series, a, rules) == Propagated(series, b, rules)
  {
    forall v, d ensures Delta(a, rules, v, d) == Delta(b, rules, v, d) {
      DeltaPerm(a, b, rules, v, d);
    }
    SameDeltaSameResult(series, a, b, rules);
  }

  /** Entries that never name `v` contribute nothing to it. */
  lemma {:induction false} ContributionUntargeted(targets: seq<(string, real)>, v: string, signed: real, start: Month, d: Date)
    requires forall k :: 0 <= k < |targets| ==> targets[k].0 != v
    ensures Contribution(targets, v, signed, start, d) == 0.0
    decreases |targets|
  {
    if targets != [] {
      ContributionUntargeted(targets[..|targets| - 1], v, signed, start, d);
    }
  }

  /** A series no rule of any given shock targets — the shocked variable itself
      included — comes out unchanged. */
  lemma {:induction false} UntargetedUnchanged(series: map<string, Series>, shocks: Shocks, rules: Rules, v: string)
    requires v in series
    requires forall i, k :: 0 <= i < |shocks| && 0 <= k < |RuleFor(rules, shocks[i].0)| ==> RuleFor(rules, shocks[i].0)[k].0 != v
    ensures v in Propagated(series, shocks, rules) && Propagated(series, shocks, rules)[v] == series[v]
  {
    PropagatedPointwise(series, shocks, rules);
    forall d ensures Delta(shocks, rules, v, d) == 0.0 {
      DeltaUntargeted(shocks, rules, v, d);
    }
    ShiftedByUnique(series[v], Propagated(series, shocks, rules)[v], series[v], d => Delta(shocks, rules, v, d), d => 0.0);
  }

  lemma {:induction false} DeltaUntargeted(shocks: Shocks, rules: Rules, v: string, d: Date)
    requires forall i, k :: 0 <= i < |shocks| && 0 <= k < |RuleFor(rules, shocks[i].0)| ==> RuleFor(rules, shocks[i].0)[k].0 != v
    ensures Delta(shocks, rules, v, d) == 0.0
    decreases |shocks|
  {
    if shocks != [] {
      var init := shocks[..|shocks| - 1];
      var (sv, c) := shocks[|shocks| - 1];
      assert forall i :: 0 <= i < |init| ==> init[i] == shocks[i];
      DeltaUntargeted(init, rules, v, d);
      ContributionUntargeted(RuleFor(rules, sv), v, Signed(c), c.start, d);
    }
  }

  /** A shocked variable without a rule entry changes nothing. */
  lemma NoRuleNoEffect(series: map<string, Series>, shocks: Shocks, rules: Rules, v: string, c: ShockConfig)
    requires v !in rules
    ensures Propagated(series, shocks + [(v, c)], rules) == Propagated(series, shocks, rules)
  {
    assert (shocks + [(v, c)])[..|shocks|] == shocks;
  }

  // ----- the repository's rules table -----

  /** A single shock under the repository table moves exactly the listed series:
      `v` changes iff it is one of `targets`, by `signed × multiplier` from the start month. */
  ghost predicate MovesOnly(series: map<string, Series>, shock: (string, ShockConfig), targets: seq<(string, real)>)
  {
    var r := Propagated(series, [shock], ShockRules);
    && r.Keys == series.Keys
    && forall v :: v in series ==>
         ShiftedBy(series[v], r[v], d => Contribution(targets, v, Signed(shock.1), shock.1.start, d))
  }

  lemma TableSingleShock(series: map<string, Series>, sv: string, c: ShockConfig)
    ensures MovesOnly(series, (sv, c), RuleFor(ShockRules, sv))
  {
    PropagatedPointwise(series, [(sv, c)], ShockRules);
    assert [(sv, c)][..0] == [];
    var r := Propagated(series, [(sv, c)], ShockRules);
    forall v | v in series
      ensures ShiftedBy(series[v], r[v], d => Contribution(RuleFor(ShockRules, sv), v, Signed(c), c.start, d))
    {
      assert forall d :: Delta([(sv, c)], ShockRules, v, d) == Contribution(RuleFor(ShockRules, sv), v, Signed(c), c.start, d);
    }
  }

  /** A gdp shock moves only inflation, by half the signed value. */
  lemma GdpShock(series: map<string, Series>, c: ShockConfig)
    ensures MovesOnly(series, ("gdp", c), [("inflation", 0.5)])
  {
    TableSingleShock(series, "gdp", c);
  }

  /** An inflation shock moves only gdp, by 1.5 times the signed value. */
  lemma InflationShock(series: map<string, Series>, c: ShockConfig)
    ensures MovesOnly(series, ("inflation", c), [("gdp", 1.5)])
  {
    TableSingleShock(series, "inflation", c);
  }

  /** An interest_rate shock moves equity by -2 and gdp by -1 times the signed value. */
  lemma InterestRateShock(series: map<string, Series>, c: ShockConfig)
    ensures MovesOnly(series, ("interest_rate", c), [("equity", -2.0), ("gdp", -1.0)])
  {
    TableSingleShock(series, "interest_rate", c);
  }

  /** An equity shock (validated but absent from the table) changes nothing. */
  lemma EquityShockNoEffect(series: map<string, Series>, c: ShockConfig)
    ensures Propagated(series, [("equity", c)], ShockRules) == series
  {
    assert "equity" !in ShockRules;
    assert [("equity", c)][..0] == [];
  }
}
