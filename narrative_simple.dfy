/** The rules of scripts/generate_narrative_simple.py that do not depend on the
    language model: the fallback scenario classifier over last-minus-first
    changes, and the contract that `generate_narrative` reports every failure as
    a string starting with the error marker instead of raising. */
module NarrativeSimple {
  import opened Common

  /** A simulation table by column; None is NaN. */
  datatype SimTable = SimTable(names: seq<string>, cols: seq<seq<Option<real>>>, rows: nat)

  /** A pandas frame: one column per name, all of the same length. */
  predicate WellFormed(t: SimTable)
  {
    |t.cols| == |t.names| && forall k :: 0 <= k < |t.cols| ==> |t.cols[k]| == t.rows
  }

  /** What indexing the frame raises: `KeyError` for a missing column,
      `IndexError` for `.iloc` on an empty one. */
  datatype TableError = MissingColumn(name: string) | NoRows

  datatype ScenarioKind = Recession | Inflationary | Restrictive | Stable

  /** The words the narrative uses for each kind. */
  function Label(k: ScenarioKind): string
  {
    match k
    case Recession => "recesión"
    case Inflationary => "inflacionario"
    case Restrictive => "restrictivo"
    case Stable => "estable"
  }

  const DefaultScenarioName: string := "Escenario Personalizado"

  /** `scenario_info.get("scenario_name", "Escenario Personalizado")`. */
  function ScenarioName(info: map<string, string>): string
  {
    if "scenario_name" in info then info["scenario_name"] else DefaultScenarioName
  }

  /** `df[name].iloc[-1] - df[name].iloc[0]`; NaN when either end is NaN. */
  function Change(t: SimTable, name: string): (r: Result<Option<real>, TableError>)
    requires WellFormed(t)
    ensures r == Err(MissingColumn(name)) <==> name !in t.names
    ensures r == Err(NoRows) <==> name in t.names && t.rows == 0
    ensures r.Ok? ==> var c := t.cols[IndexOf(t.names, name)];
      && (r.value.Some? <==> c[0].Some? && c[t.rows - 1].Some?)
      && (r.value.Some? ==> r.value.value == c[t.rows - 1].value - c[0].value)
  {
    var k := IndexOf(t.names, name);
    if k == |t.names| then Err(MissingColumn(name))
    else if t.rows == 0 then Err(NoRows)
    else
      var first := t.cols[k][0];
      var last := t.cols[k][t.rows - 1];
      Ok(if first.Some? && last.Some? then Some(last.value - first.value) else None)
  }

  /** A comparison with NaN is false. */
  predicate Below(c: Option<real>, bound: real) { c.Some? && c.value < bound }
  predicate Above(c: Option<real>, bound: real) { c.Some? && c.value > bound }

  /** The scenario type: recession first, then inflationary, then restrictive. */
  function Classify(gdp: Option<real>, inflation: Option<real>, policy: Option<real>): ScenarioKind
  {
    if Below(gdp, -0.05) then Recession
    else if Above(inflation, 0.1) then Inflationary
    else if Above(policy, 0.1) then Restrictive
    else Stable
  }

  /** What `generate_fallback_narrative` fills into its text. */
  datatype Fallback = Fallback(scenarioName: string, kind: ScenarioKind,
                               gdpChange: Option<real>, inflationChange: Option<real>,
                               policyChange: Option<real>, realChange: Option<real>)

  /** `generate_fallback_narrative`: the four changes, read in the order gdp,
      inflation, policy_rate, real_rate (the first failing read raises), then the
      classification. The prose around them is left out. */
  function FallbackNarrative(t: SimTable, info: map<string, string>): Result<Fallback, TableError>
    requires WellFormed(t)
  {
    match Change(t, "gdp")
    case Err(e) => Err(e)
    case Ok(g) =>
      match Change(t, "inflation")
      case Err(e) => Err(e)
      case Ok(i) =>
        match Change(t, "policy_rate")
        case Err(e) => Err(e)
        case Ok(p) =>
          match Change(t, "real_rate")
          case Err(e) => Err(e)
          case Ok(r) => Ok(Fallback(ScenarioName(info), Classify(g, i, p), g, i, p, r))
  }

  const Required: seq<string> := ["gdp", "inflation", "policy_rate", "real_rate"]

  /** The fallback fails exactly when a required column is missing or the table
      has no rows; a missing column raises for the first one in reading order,
      except that an empty table raises on the first column it reads. */
  lemma FallbackErrors(t: SimTable, info: map<string, string>)
    requires WellFormed(t)
    ensures FallbackNarrative(t, info).Ok? <==> (forall v :: v in Required ==> v in t.names) && t.rows > 0
    ensures "gdp" in t.names && t.rows == 0 ==> FallbackNarrative(t, info) == Err(NoRows)
    ensures "gdp" !in t.names ==> FallbackNarrative(t, info) == Err(MissingColumn("gdp"))
  {
    assert Required[0] == "gdp" && Required[1] == "inflation" && Required[2] == "policy_rate" && Required[3] == "real_rate";
  }

  /** The column `name` is present, the table has rows, its first and last
      cells are numbers, and last minus first is below `bound`. */
  predicate FellBelow(t: SimTable, name: string, bound: real)
    requires WellFormed(t)
  {
    var k := IndexOf(t.names, name);
    && k < |t.names| && t.rows > 0
    && t.cols[k][0].Some? && t.cols[k][t.rows - 1].Some?
    && t.cols[k][t.rows - 1].value - t.cols[k][0].value < bound
  }

  /** As `FellBelow`, with last minus first above `bound`. */
  predicate RoseAbove(t: SimTable, name: string, bound: real)
    requires WellFormed(t)
  {
    var k := IndexOf(t.names, name);
    && k < |t.names| && t.rows > 0
    && t.cols[k][0].Some? && t.cols[k][t.rows - 1].Some?
    && t.cols[k][t.rows - 1].value - t.cols[k][0].value > bound
  }

  /** The scenario type of a fallback narrative, read off the table: recession
      when gdp fell by more than 0.05 from its first to its last row; otherwise
      inflationary when inflation rose by more than 0.1; otherwise restrictive
      when policy_rate rose by more than 0.1; otherwise stable. A NaN at either
      end of a column never meets its threshold. */
  lemma ClassifySpec(t: SimTable, info: map<string, string>)
    requires WellFormed(t) && FallbackNarrative(t, info).Ok?
    ensures var kind := FallbackNarrative(t, info).value.kind;
      && (kind == Recession <==> FellBelow(t, "gdp", -0.05))
      && (kind == Inflationary <==> !FellBelow(t, "gdp", -0.05) && RoseAbove(t, "inflation", 0.1))
      && (kind == Restrictive <==>
            !FellBelow(t, "gdp", -0.05) && !RoseAbove(t, "inflation", 0.1) && RoseAbove(t, "policy_rate", 0.1))
      && (kind == Stable <==>
            !FellBelow(t, "gdp", -0.05) && !RoseAbove(t, "inflation", 0.1) && !RoseAbove(t, "policy_rate", 0.1))
  {
    var g, i, p := Change(t, "gdp"), Change(t, "inflation"), Change(t, "policy_rate");
    assert Below(g.value, -0.05) <==> FellBelow(t, "gdp", -0.05);
    assert Above(i.value, 0.1) <==> RoseAbove(t, "inflation", 0.1);
    assert Above(p.value, 0.1) <==> RoseAbove(t, "policy_rate", 0.1);
  }

  /** The real-rate column never changes the scenario type. */
  lemma RealRateIrrelevant(t: SimTable, u: SimTable, info: map<string, string>)
    requires WellFormed(t) && WellFormed(u)
    requires FallbackNarrative(t, info).Ok? && FallbackNarrative(u, info).Ok?
    requires forall v :: v in ["gdp", "inflation", "policy_rate"] ==> Change(t, v) == Change(u, v)
    ensures FallbackNarrative(t, info).value.kind == FallbackNarrative(u, info).value.kind
  {
    assert "gdp" in ["gdp", "inflation", "policy_rate"];
    assert "inflation" in ["gdp", "inflation", "policy_rate"];
    assert "policy_rate" in ["gdp", "inflation", "policy_rate"];
  }

  /** Without a scenario name the narrative uses the default one. */
  lemma DefaultName(t: SimTable, info: map<string, string>)
    requires WellFormed(t) && "scenario_name" !in info && FallbackNarrative(t, info).Ok?
    ensures FallbackNarrative(t, info).value.scenarioName == "Escenario Personalizado"
  {
  }

  // ----- generate_narrative -----

  /** The marker the dashboard tests for before falling back. */
  const ErrorPrefix: string := "\U{274C} Error"

  const MissingKeyMessage: string := ErrorPrefix + ": OPENAI_API_KEY no está configurada en el archivo .env"

  /** What `build_simple_prompt` reads before it can write the prompt; the
      prompt's formatting is left out. */
  datatype PromptFacts = PromptFacts(scenarioName: string, horizon: nat, variables: seq<string>)

  /** `build_simple_prompt`: it reads row 0 of every column, in order, then the
      four named columns; an empty table with columns raises on the first,
      a missing named column raises next. */
  function BuildSimplePrompt(t: SimTable, info: map<string, string>): Result<PromptFacts, TableError>
    requires WellFormed(t)
  {
    if |t.names| > 0 && t.rows == 0 then Err(NoRows)
    else if "gdp" !in t.names then Err(MissingColumn("gdp"))
    else if "inflation" !in t.names then Err(MissingColumn("inflation"))
    else if "policy_rate" !in t.names then Err(MissingColumn("policy_rate"))
    else if "real_rate" !in t.names then Err(MissingColumn("real_rate"))
    else Ok(PromptFacts(ScenarioName(info), t.rows, t.names))
  }

  /** The text of a caught exception. */
  function Describe(e: TableError): string
  {
    match e
    case MissingColumn(name) => "'" + name + "'"
    case NoRows => "single positional indexer is out-of-bounds"
  }

  /** The outcome of the chat-completion call: the reply text, or the message of
      the exception it raised. */
  datatype Reply = Answer(text: string) | Failure(message: string)

  /** The characters below 128 that Python's `str.isspace` accepts. */
  predicate IsSpace(c: char)
  {
    c == ' ' || '\t' <= c <= '\r' || '\U{001C}' <= c <= '\U{001F}'
  }

  /** `r` is the slice `s[i..j]`, and every character of `s` outside it is whitespace. */
  predicate Trims(s: string, r: string, i: int, j: int)
  {
    && 0 <= i <= j <= |s| && r == s[i..j]
    && (forall k :: 0 <= k < i ==> IsSpace(s[k]))
    && (forall k :: j <= k < |s| ==> IsSpace(s[k]))
  }

  lemma TrimsFirst(s: string, r: string, i: int, j: int)
    requires s != [] && IsSpace(s[0]) && Trims(s[1..], r, i, j)
    ensures Trims(s, r, i + 1, j + 1)
  {
    assert r == s[i + 1..j + 1];
    assert forall k :: 1 <= k < |s| ==> s[k] == s[1..][k - 1];
  }

  lemma TrimsLast(s: string, r: string, i: int, j: int)
    requires s != [] && IsSpace(s[|s| - 1]) && Trims(s[..|s| - 1], r, i, j)
    ensures Trims(s, r, i, j)
  {
    assert r == s[i..j];
    assert forall k :: 0 <= k < |s| - 1 ==> s[k] == s[..|s| - 1][k];
  }

  /** `str.strip()`: it removes a run of whitespace from each end and keeps
      the rest of the string as it is. */
  function Strip(s: string): (r: string)
    ensures |r| <= |s|
    ensures r != [] ==> !IsSpace(r[0]) && !IsSpace(r[|r| - 1])
    ensures exists i, j :: Trims(s, r, i, j)
    decreases |s|
  {
    if s == [] then assert Trims(s, s, 0, 0); s
    else if IsSpace(s[0]) then
      var r := Strip(s[1..]);
      var i, j :| Trims(s[1..], r, i, j);
      TrimsFirst(s, r, i, j);
      r
    else if IsSpace(s[|s| - 1]) then
      var r := Strip(s[..|s| - 1]);
      var i, j :| Trims(s[..|s| - 1], r, i, j);
      TrimsLast(s, r, i, j);
      r
    else assert Trims(s, s, 0, |s|); s
  }

  /** `generate_narrative`: no key returns the missing-key message; otherwise
      any exception raised while building the prompt or calling the model is
      returned as text; the model is `api`, a parameter. */
  function GenerateNarrative(t: SimTable, info: map<string, string>, apiKey: Option<string>, api: PromptFacts -> Reply): string
    requires WellFormed(t)
  {
    if apiKey.None? || apiKey.value == "" then MissingKeyMessage
    else
      match BuildSimplePrompt(t, info)
      case Err(e) => ErrorPrefix + " generando narrativa: " + Describe(e)
      case Ok(p) =>
        match api(p)
        case Failure(m) => ErrorPrefix + " generando narrativa: " + m
        case Answer(text) => Strip(text)
  }

  /** Every failure comes back as a string starting with the error marker, and
      never as an exception: a missing key without calling the model, a prompt
      that cannot be built, or a failed call; a successful call gives the
      stripped reply. */
  lemma GenerateNarrativeErrors(t: SimTable, info: map<string, string>, apiKey: Option<string>, api: PromptFacts -> Reply)
    requires WellFormed(t)
    ensures apiKey.None? || apiKey == Some("") ==> GenerateNarrative(t, info, apiKey, api) == MissingKeyMessage
    ensures (apiKey.None? || apiKey == Some("") || BuildSimplePrompt(t, info).Err? || api(BuildSimplePrompt(t, info).value).Failure?)
      ==> ErrorPrefix <= GenerateNarrative(t, info, apiKey, api)
    ensures apiKey.Some? && apiKey.value != "" && BuildSimplePrompt(t, info).Ok? && api(BuildSimplePrompt(t, info).value).Answer?
      ==> GenerateNarrative(t, info, apiKey, api) == Strip(api(BuildSimplePrompt(t, info).value).text)
  {
  }

  /** The prompt can be built exactly when the fallback can be computed: both
      need the four columns and at least one row. */
  lemma PromptNeedsFallbackColumns(t: SimTable, info: map<string, string>)
    requires WellFormed(t)
    ensures BuildSimplePrompt(t, info).Ok? <==> FallbackNarrative(t, info).Ok?
  {
    FallbackErrors(t, info);
    assert Required[0] == "gdp" && Required[1] == "inflation" && Required[2] == "policy_rate" && Required[3] == "real_rate";
  }
}
