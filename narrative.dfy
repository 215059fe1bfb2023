/** The pure rules of scripts/generate_narrative.py: the sanity check on a
    simulation table (`validate_simulation_data`) and the per-shock lines of the
    prompt (`build_prompt`), with the prompt refused when the check fails. */
module Narrative {
  import opened Common

  /** A simulation table, row by row; None is NaN, which never equals 0. */
  type Table = seq<seq<Option<real>>>

  /** One entry of `scenario_dict["shocks"]`; the JSON values written into the
      line verbatim are kept as their text. */
  datatype ScenarioShock = ScenarioShock(variable: string, magnitude: real, startDate: string, duration: string, shockType: string)

  datatype PromptError = InvalidSimulationData

  /** `sim_df.size`. */
  function Size(t: Table): nat
  {
    if t == [] then 0 else Size(t[..|t| - 1]) + |t[|t| - 1]|
  }

  function ZerosIn(row: seq<Option<real>>): (n: nat)
    ensures n <= |row|
  {
    if row == [] then 0 else ZerosIn(row[..|row| - 1]) + (if row[|row| - 1] == Some(0.0) then 1 else 0)
  }

  /** `(sim_df == 0).sum().sum()`. */
  function ZeroCount(t: Table): (n: nat)
    ensures n <= Size(t)
  {
    if t == [] then 0 else ZeroCount(t[..|t| - 1]) + ZerosIn(t[|t| - 1])
  }

  /** `(sim_df == 0).all().all()`, vacuously true for a table without cells. */
  predicate AllZero(t: Table)
  {
    forall i, j :: 0 <= i < |t| && 0 <= j < |t[i]| ==> t[i][j] == Some(0.0)
  }

  /** `validate_simulation_data`: false when every value is zero or more than
      half of them are; the low-variation and range checks only print. */
  function ValidateSimulationData(t: Table): bool
  {
    if AllZero(t) then false
    else
      ZeroCountAll(t);
      var share := (ZeroCount(t) as real / Size(t) as real) * 100.0;
      !(share > 50.0)
  }

  lemma {:induction false} ZerosInAll(row: seq<Option<real>>)
    ensures ZerosIn(row) == |row| <==> forall j :: 0 <= j < |row| ==> row[j] == Some(0.0)
    decreases |row|
  {
    if row != [] {
      ZerosInAll(row[..|row| - 1]);
      assert forall j :: 0 <= j < |row| - 1 ==> row[..|row| - 1][j] == row[j];
    }
  }

  /** The table is all zeros exactly when every cell counts as a zero. */
  lemma {:induction false} ZeroCountAll(t: Table)
    ensures ZeroCount(t) == Size(t) <==> AllZero(t)
    decreases |t|
  {
    if t != [] {
      var init := t[..|t| - 1];
      ZeroCountAll(init);
      ZerosInAll(t[|t| - 1]);
      assert forall i :: 0 <= i < |init| ==> init[i] == t[i];
    }
  }

  /** The check passes exactly for a table with cells of which at most half are
      zero; so the all-zero test only matters for the empty table, and exactly
      half passes. */
  lemma ValidateSpec(t: Table)
    ensures ValidateSimulationData(t) <==> Size(t) > 0 && 2 * ZeroCount(t) <= Size(t)
  {
    ZeroCountAll(t);
    if !AllZero(t) {
      var z := ZeroCount(t) as real;
      var n := Size(t) as real;
      assert n > 0.0;
      ShareBound(z, n);
    }
  }

  lemma ShareBound(z: real, n: real)
    requires n > 0.0
    ensures (z / n) * 100.0 > 50.0 <==> 2.0 * z > n
  {
    assert (z / n) * 100.0 == (100.0 * z) / n;
    assert (100.0 * z) / n * n == 100.0 * z;
  }

  /** A table whose every value is zero is refused, and so is the empty table. */
  lemma AllZeroRefused(t: Table)
    requires AllZero(t)
    ensures !ValidateSimulationData(t)
  {
  }

  // ----- the shock lines of build_prompt -----

  /** `str.upper` on ASCII letters. */
  function Upper(s: string): (u: string)
    ensures |u| == |s|
    ensures forall i :: 0 <= i < |s| ==> u[i] == if 'a' <= s[i] <= 'z' then (s[i] as int - 32) as char else s[i]
  {
    if s == [] then []
    else [if 'a' <= s[0] <= 'z' then (s[0] as int - 32) as char else s[0]] + Upper(s[1..])
  }

  /** "+" only for a positive magnitude, so a zero shock is written "-0". */
  function Sign(m: real): char
  {
    if m > 0.0 then '+' else '-'
  }

  function Abs(m: real): (r: real)
    ensures r >= 0.0 && (r == m || r == -m)
  {
    if m < 0.0 then -m else m
  }

  /** One line of `shocks_lines`; `fmt` is Python's rendering of a float. */
  function ShockLine(s: ScenarioShock, fmt: real -> string): string
  {
    LineHead(s) + ([Sign(s.magnitude)] + (fmt(Abs(s.magnitude)) + LineTail(s)))
  }

  /** The line up to the sign: "- VARIABLE: ". */
  function LineHead(s: ScenarioShock): (h: string)
    ensures |h| == |s.variable| + 4
  {
    "- " + Upper(s.variable) + ": "
  }

  /** The line after the magnitude. */
  function LineTail(s: ScenarioShock): string
  {
    "pp starting " + s.startDate + " for " + s.duration + " months (" + s.shockType + " shock)"
  }

  /** The line names the variable in capitals, then the sign: "+" exactly when
      the magnitude is positive, then its absolute value. */
  lemma ShockLineSpec(s: ScenarioShock, fmt: real -> string)
    ensures var line := ShockLine(s, fmt); var v := Upper(s.variable);
      && |line| > |v| + 4
      && line[..|v| + 4] == "- " + v + ": "
      && (line[|v| + 4] == '+' <==> s.magnitude > 0.0)
      && line[|v| + 5..|v| + 5 + |fmt(Abs(s.magnitude))|] == fmt(if s.magnitude < 0.0 then -s.magnitude else s.magnitude)
  {
    var head, x := LineHead(s), fmt(Abs(s.magnitude));
    var rest := [Sign(s.magnitude)] + (x + LineTail(s));
    assert ShockLine(s, fmt) == head + rest;
    assert (head + rest)[..|head|] == head;
    assert (head + rest)[|head|] == rest[0] == Sign(s.magnitude);
    assert (head + rest)[|head| + 1..|head| + 1 + |x|] == rest[1..1 + |x|] == x;
  }

  /** `"\n".join(lines)`. */
  function Join(lines: seq<string>): string
  {
    if lines == [] then ""
    else if |lines| == 1 then lines[0]
    else Join(lines[..|lines| - 1]) + "\n" + lines[|lines| - 1]
  }

  /** The loop that builds `shocks_lines`: one line per shock, in list order. */
  method BuildShockLines(shocks: seq<ScenarioShock>, fmt: real -> string) returns (lines: seq<string>)
    ensures |lines| == |shocks|
    ensures forall i :: 0 <= i < |shocks| ==> lines[i] == ShockLine(shocks[i], fmt)
  {
    lines := [];
    for i := 0 to |shocks|
      invariant |lines| == i
      invariant forall k :: 0 <= k < i ==> lines[k] == ShockLine(shocks[k], fmt)
    {
      lines := lines + [ShockLine(shocks[i], fmt)];
    }
  }

  const ShocksHeader: string := "The following economic shocks were applied:\n"

  /** `build_prompt` up to its shocks section: it raises before building any
      text when the simulation table fails the check. */
  method BuildPrompt(t: Table, shocks: seq<ScenarioShock>, fmt: real -> string) returns (r: Result<string, PromptError>)
    ensures r.Err? <==> !ValidateSimulationData(t)
    ensures r.Ok? ==> exists lines: seq<string> ::
      && |lines| == |shocks|
      && (forall i :: 0 <= i < |shocks| ==> lines[i] == ShockLine(shocks[i], fmt))
      && r.value == ShocksHeader + Join(lines)
  {
    if !ValidateSimulationData(t) {
      return Err(InvalidSimulationData);
    }
    var lines := BuildShockLines(shocks, fmt);
    r := Ok(ShocksHeader + Join(lines));
  }
}
