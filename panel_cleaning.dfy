/** The monthly cleaning shared by both trainers (quant/var_model.py and
    quant/var_model_enhanced.py): each raw series is put on month-starts, the
    series are aligned on the union of their months, forward-filled, cut at
    1970-01 and stripped of rows where every variable is missing. Also the
    column operations the trainers apply afterwards: `diff` and `dropna`. */
module PanelCleaning {
  import opened Common

  /** A cell of a float column; `None` is NaN. */
  type Cell = Option<real>

  /** One raw observation; `date` is `None` when it does not parse (`errors="coerce"`). */
  datatype Obs = Obs(date: Option<Date>, value: Cell)

  /** One entry of the raw dictionary: a variable name and its dated values. */
  datatype RawSeries = RawSeries(name: string, obs: seq<Obs>)

  /** A series on consecutive month-starts: `cells[i]` is the month with ordinal `lo + i`. */
  datatype Monthly = Monthly(lo: int, cells: seq<Cell>)

  /** A data frame: a date index, column names and one column per name. */
  datatype Panel = Panel(index: seq<Month>, names: seq<string>, cols: seq<seq<Cell>>)

  /** A frame without missing values (after `dropna`). */
  datatype Dense = Dense(index: seq<Month>, names: seq<string>, cols: seq<seq<real>>)

  predicate Shaped(p: Panel)
  {
    |p.cols| == |p.names| && forall j :: 0 <= j < |p.cols| ==> |p.cols[j]| == |p.index|
  }

  predicate DenseShaped(d: Dense)
  {
    |d.cols| == |d.names| && forall j :: 0 <= j < |d.cols| ==> |d.cols[j]| == |d.index|
  }

  predicate Increasing(s: seq<int>)
  {
    forall i, j :: 0 <= i < j < |s| ==> s[i] < s[j]
  }

  predicate Chronological(index: seq<Month>)
  {
    forall i, j :: 0 <= i < j < |index| ==> Ordinal(index[i]) < Ordinal(index[j])
  }

  /** `df.loc["1970-01-01":]` keeps the months from this ordinal on. */
  const Epoch: int := Ordinal(Month(1970, 1))

  /** The month ordinal of an observation whose date parses. */
  function MonthKey(o: Obs): Option<int>
  {
    match o.date
    case None => None
    case Some(d) => if 1 <= d.month <= 12 then Some(Ordinal(MonthOf(d))) else None
  }

  function MinKey(obs: seq<Obs>): (r: Option<int>)
    ensures r.None? <==> forall q :: 0 <= q < |obs| ==> MonthKey(obs[q]).None?
    ensures r.Some? ==> forall q :: 0 <= q < |obs| && MonthKey(obs[q]).Some? ==> r.value <= MonthKey(obs[q]).value
    ensures r.Some? ==> exists q :: 0 <= q < |obs| && MonthKey(obs[q]) == r
  {
    if obs == [] then None
    else
      var rest := MinKey(obs[1..]);
      assert forall q :: 1 <= q < |obs| ==> obs[q] == obs[1..][q - 1];
      match MonthKey(obs[0])
      case None => rest
      case Some(k) => if rest.Some? && rest.value < k then rest else Some(k)
  }

  function MaxKey(obs: seq<Obs>): (r: Option<int>)
    ensures r.None? <==> forall q :: 0 <= q < |obs| ==> MonthKey(obs[q]).None?
    ensures r.Some? ==> forall q :: 0 <= q < |obs| && MonthKey(obs[q]).Some? ==> MonthKey(obs[q]).value <= r.value
    ensures r.Some? ==> exists q :: 0 <= q < |obs| && MonthKey(obs[q]) == r
  {
    if obs == [] then None
    else
      var rest := MaxKey(obs[1..]);
      assert forall q :: 1 <= q < |obs| ==> obs[q] == obs[1..][q - 1];
      match MonthKey(obs[0])
      case None => rest
      case Some(k) => if rest.Some? && rest.value > k then rest else Some(k)
  }

  /** `groupby(level=0).first()`: the first non-missing value observed in month `k`. */
  function FirstValue(obs: seq<Obs>, k: int): Cell
  {
    if obs == [] then None
    else if MonthKey(obs[0]) == Some(k) && obs[0].value.Some? then obs[0].value
    else FirstValue(obs[1..], k)
  }

  /** One raw series put on month-starts: first value per month, then `asfreq("MS")`
      over the months from its first to its last parsed date. */
  function MonthlySeries(obs: seq<Obs>): Monthly
  {
    match (MinKey(obs), MaxKey(obs))
    case (Some(lo), Some(hi)) =>
      Monthly(lo, seq(if hi >= lo then hi - lo + 1 else 0, i requires 0 <= i => FirstValue(obs, lo + i)))
    case _ => Monthly(0, [])
  }

  /** The value of a monthly series at month `k`, missing outside its range. */
  function At(s: Monthly, k: int): Cell
  {
    if s.lo <= k < s.lo + |s.cells| then s.cells[k - s.lo] else None
  }

  predicate Covers(ms: seq<Monthly>, k: int)
  {
    exists j :: 0 <= j < |ms| && ms[j].lo <= k < ms[j].lo + |ms[j].cells|
  }

  /** The first and last month any series covers. */
  function Span(ms: seq<Monthly>): (r: Option<(int, int)>)
    ensures r.None? ==> forall k :: !Covers(ms, k)
    ensures r.Some? ==> forall k :: Covers(ms, k) ==> r.value.0 <= k <= r.value.1
  {
    if ms == [] then None
    else
      var rest := Span(ms[1..]);
      assert forall k :: Covers(ms, k) ==> (ms[0].lo <= k < ms[0].lo + |ms[0].cells|) || Covers(ms[1..], k) by {
        forall k | Covers(ms, k) ensures (ms[0].lo <= k < ms[0].lo + |ms[0].cells|) || Covers(ms[1..], k) {
          var j :| 0 <= j < |ms| && ms[j].lo <= k < ms[j].lo + |ms[j].cells|;
          if j > 0 { assert ms[1..][j - 1] == ms[j]; }
        }
      }
      if ms[0].cells == [] then rest
      else
        var lo, hi := ms[0].lo, ms[0].lo + |ms[0].cells| - 1;
        match rest
        case None => Some((lo, hi))
        case Some((a, b)) => Some((if a < lo then a else lo, if b > hi then b else hi))
  }

  /** The covered months among `k, k+1, ..., k+count-1`, in order. */
  function CoveredFrom(ms: seq<Monthly>, k: int, count: nat): (r: seq<int>)
    ensures Increasing(r)
    ensures forall x :: x in r <==> k <= x < k + count && Covers(ms, x)
    ensures forall x :: x in r ==> k <= x < k + count
    decreases count
  {
    if count == 0 then []
    else
      var rest := CoveredFrom(ms, k + 1, count - 1);
      assert forall i :: 0 <= i < |rest| ==> rest[i] in rest;
      (if Covers(ms, k) then [k] else []) + rest
  }

  ghost predicate IndexesCoverage(r: seq<int>, ms: seq<Monthly>)
  {
    forall x :: x in r <==> Covers(ms, x)
  }

  /** The index of `pd.DataFrame(clean)`: the sorted union of the series' months. */
  function UnionIndex(ms: seq<Monthly>): (r: seq<int>)
    ensures Increasing(r) && IndexesCoverage(r, ms)
  {
    match Span(ms)
    case None => []
    case Some((g, h)) => CoveredFrom(ms, g, if h >= g then h - g + 1 else 0)
  }

  /** `ffill()` of one column, carrying the last value seen. */
  function FFillFrom(col: seq<Cell>, carry: Cell): (r: seq<Cell>)
    ensures |r| == |col|
  {
    if col == [] then []
    else
      var c := if col[0].Some? then col[0] else carry;
      [c] + FFillFrom(col[1..], c)
  }

  function FFill(col: seq<Cell>): seq<Cell> { FFillFrom(col, None) }

  /** Row `q` has a value in at least one column. */
  predicate AnyPresent(cols: seq<seq<Cell>>, q: int)
  {
    exists j :: 0 <= j < |cols| && 0 <= q < |cols[j]| && cols[j][q].Some?
  }

  ghost predicate KeepsAll(r: seq<nat>, idx: seq<int>, cols: seq<seq<Cell>>, n: nat)
    requires n <= |idx|
  {
    forall q :: 0 <= q < n && idx[q] >= Epoch && AnyPresent(cols, q) ==> q in r
  }

  /** The row positions `df.loc["1970-01-01":]` and `df[df.notna().sum(axis=1) >= 1]` keep. */
  function KeptRows(idx: seq<int>, cols: seq<seq<Cell>>, n: nat): (r: seq<nat>)
    requires n <= |idx|
    ensures Increasing(r)
    ensures forall i :: 0 <= i < |r| ==> r[i] < n && idx[r[i]] >= Epoch && AnyPresent(cols, r[i])
    ensures KeepsAll(r, idx, cols, n)
    decreases n
  {
    if n == 0 then []
    else
      var q := n - 1;
      var prev := KeptRows(idx, cols, n - 1);
      if idx[q] >= Epoch && AnyPresent(cols, q) then prev + [q] else prev
  }

  /** Each series on the union index, forward-filled (`pd.DataFrame(clean).ffill()`). */
  function FilledColumns(ms: seq<Monthly>, idx: seq<int>): (cols: seq<seq<Cell>>)
    ensures |cols| == |ms| && forall j :: 0 <= j < |ms| ==> |cols[j]| == |idx|
  {
    seq(|ms|, j requires 0 <= j < |ms| => FFill(seq(|idx|, r requires 0 <= r < |idx| => At(ms[j], idx[r]))))
  }

  /** The cleaned panel `df` built from the monthly series. */
  function CleanFrame(names: seq<string>, ms: seq<Monthly>): (p: Panel)
    requires |names| == |ms|
  {
    var idx := UnionIndex(ms);
    var filled := FilledColumns(ms, idx);
    var keep := KeptRows(idx, filled, |idx|);
    Panel(MonthsOf(Pick(idx, keep)), names, PickRows(filled, keep))
  }

  /** Every column restricted to the rows `keep`. */
  function PickRows(cols: seq<seq<Cell>>, keep: seq<nat>): (r: seq<seq<Cell>>)
    requires forall j :: 0 <= j < |cols| ==> forall i :: 0 <= i < |keep| ==> keep[i] < |cols[j]|
    ensures |r| == |cols| && forall j :: 0 <= j < |cols| ==> r[j] == Pick(cols[j], keep)
  {
    seq(|cols|, j requires 0 <= j < |cols| => Pick(cols[j], keep))
  }

  /** The elements of `s` at the positions `keep`, in that order. */
  function Pick<T>(s: seq<T>, keep: seq<nat>): (r: seq<T>)
    requires forall i :: 0 <= i < |keep| ==> keep[i] < |s|
    ensures |r| == |keep| && forall i :: 0 <= i < |keep| ==> r[i] == s[keep[i]]
  {
    seq(|keep|, i requires 0 <= i < |keep| => s[keep[i]])
  }

  function MonthsOf(ks: seq<int>): (r: seq<Month>)
    ensures |r| == |ks| && forall i :: 0 <= i < |ks| ==> ValidMonth(r[i]) && Ordinal(r[i]) == ks[i]
  {
    seq(|ks|, i requires 0 <= i < |ks| => FromOrdinal(ks[i]))
  }

  function Names(raw: seq<RawSeries>): (names: seq<string>)
    ensures |names| == |raw| && forall j :: 0 <= j < |raw| ==> names[j] == raw[j].name
  {
    seq(|raw|, j requires 0 <= j < |raw| => raw[j].name)
  }

  function MonthlyAll(raw: seq<RawSeries>): (ms: seq<Monthly>)
    ensures |ms| == |raw| && forall j :: 0 <= j < |raw| ==> ms[j] == MonthlySeries(raw[j].obs)
  {
    seq(|raw|, j requires 0 <= j < |raw| => MonthlySeries(raw[j].obs))
  }

  /** The cleaned frame of a raw dictionary. */
  function Cleaned(raw: seq<RawSeries>): (p: Panel)
    ensures CleanedShape(p) && p.names == Names(raw)
  {
    CleanFrameProperties(Names(raw), MonthlyAll(raw));
    CleanFrame(Names(raw), MonthlyAll(raw))
  }

  /** Steps 1-2 of both trainers: the loop that puts every raw series on
      month-starts into `clean`, then the frame built from it. */
  method CleanPanel(raw: seq<RawSeries>) returns (df: Panel)
    ensures df == Cleaned(raw)
  {
    var clean: seq<Monthly> := [];
    var i := 0;
    while i < |raw|
      invariant 0 <= i <= |raw| && |clean| == i
      invariant forall j :: 0 <= j < i ==> clean[j] == MonthlySeries(raw[j].obs)
    {
      clean := clean + [MonthlySeries(raw[i].obs)];
      i := i + 1;
    }
    assert clean == MonthlyAll(raw);
    df := CleanFrame(Names(raw), clean);
  }

  // ---------------------------------------------------------------------------
  // Properties of the cleaning
  // ---------------------------------------------------------------------------

  /** The monthly series holds, for each month from the first to the last parsed
      date, the first non-missing value observed in that month, and NaN for months
      without one. */
  lemma MonthlySeriesSpec(obs: seq<Obs>, k: int)
    ensures var s := MonthlySeries(obs);
      (forall q :: 0 <= q < |obs| && MonthKey(obs[q]).Some? ==> s.lo <= MonthKey(obs[q]).value < s.lo + |s.cells|)
      && (MinKey(obs).Some? ==> s.lo == MinKey(obs).value && s.lo + |s.cells| - 1 == MaxKey(obs).value)
      && (MinKey(obs).None? ==> s.cells == [])
      && (At(s, k).Some? ==> exists q :: 0 <= q < |obs| && MonthKey(obs[q]) == Some(k) && obs[q].value == At(s, k)
                                   && forall q' :: 0 <= q' < q && MonthKey(obs[q']) == Some(k) ==> obs[q'].value.None?)
      && (At(s, k).None? ==> forall q :: 0 <= q < |obs| && MonthKey(obs[q]) == Some(k) ==> obs[q].value.None?)
  {
    MonthlySeriesRange(obs);
    MonthlySeriesCell(obs, k);
  }

  /** A month of the series holds the first non-missing value observed in it. */
  lemma MonthlySeriesCell(obs: seq<Obs>, k: int)
    ensures var s := MonthlySeries(obs);
      && (At(s, k).Some? ==> exists q :: 0 <= q < |obs| && MonthKey(obs[q]) == Some(k) && obs[q].value == At(s, k)
                                   && forall q' :: 0 <= q' < q && MonthKey(obs[q']) == Some(k) ==> obs[q'].value.None?)
      && (At(s, k).None? ==> forall q :: 0 <= q < |obs| && MonthKey(obs[q]) == Some(k) ==> obs[q].value.None?)
  {
    var s := MonthlySeries(obs);
    MonthlySeriesRange(obs);
    if s.lo <= k < s.lo + |s.cells| {
      assert At(s, k) == FirstValue(obs, k);
    }
    FirstValueSpec(obs, k);
  }

  /** The monthly range runs from the earliest to the latest parsed month, so
      it holds every parsed month. */
  lemma MonthlySeriesRange(obs: seq<Obs>)
    ensures var s := MonthlySeries(obs);
      && (forall q :: 0 <= q < |obs| && MonthKey(obs[q]).Some? ==> s.lo <= MonthKey(obs[q]).value < s.lo + |s.cells|)
      && (MinKey(obs).Some? ==> s.lo == MinKey(obs).value && s.lo + |s.cells| - 1 == MaxKey(obs).value)
      && (MinKey(obs).None? ==> s.cells == [])
  {
    if MaxKey(obs).Some? {
      var q :| 0 <= q < |obs| && MonthKey(obs[q]) == MaxKey(obs);
      assert MinKey(obs).value <= MaxKey(obs).value;
    }
  }

  lemma {:induction false} FirstValueSpec(obs: seq<Obs>, k: int)
    ensures FirstValue(obs, k).Some? ==>
      exists q :: 0 <= q < |obs| && MonthKey(obs[q]) == Some(k) && obs[q].value == FirstValue(obs, k)
        && forall q' :: 0 <= q' < q && MonthKey(obs[q']) == Some(k) ==> obs[q'].value.None?
    ensures FirstValue(obs, k).None? ==> forall q :: 0 <= q < |obs| && MonthKey(obs[q]) == Some(k) ==> obs[q].value.None?
  {
    if obs != [] {
      FirstValueSpec(obs[1..], k);
      assert forall q :: 1 <= q < |obs| ==> obs[q] == obs[1..][q - 1];
      if !(MonthKey(obs[0]) == Some(k) && obs[0].value.Some?) && FirstValue(obs, k).Some? {
        var q :| 0 <= q < |obs[1..]| && MonthKey(obs[1..][q]) == Some(k) && obs[1..][q].value == FirstValue(obs, k)
                 && forall q' :: 0 <= q' < q && MonthKey(obs[1..][q']) == Some(k) ==> obs[1..][q'].value.None?;
        assert MonthKey(obs[q + 1]) == Some(k) && obs[q + 1].value == FirstValue(obs, k);
      }
    }
  }

  /** Forward fill keeps every present value and repeats the previous row's
      value into a missing cell; a leading missing cell takes the carry, which
      `FFill` sets to missing, so there leading missing cells stay missing. */
  lemma {:induction false} FFillSpec(col: seq<Cell>, carry: Cell)
    ensures forall i :: 0 <= i < |col| && col[i].Some? ==> FFillFrom(col, carry)[i] == col[i]
    ensures forall i :: 0 < i < |col| && col[i].None? ==> FFillFrom(col, carry)[i] == FFillFrom(col, carry)[i - 1]
    ensures |col| > 0 && col[0].None? ==> FFillFrom(col, carry)[0] == carry
    decreases |col|
  {
    if col != [] {
      var c := if col[0].Some? then col[0] else carry;
      FFillSpec(col[1..], c);
      var r := FFillFrom(col, carry);
      assert forall i :: 1 <= i < |col| ==> r[i] == FFillFrom(col[1..], c)[i - 1] && col[i] == col[1..][i - 1];
    }
  }

  /** After cleaning, the frame is one strictly increasing monthly index from
      1970-01 on, every row has at least one value. */
  lemma CleanFrameProperties(names: seq<string>, ms: seq<Monthly>)
    requires |names| == |ms|
    ensures CleanedShape(CleanFrame(names, ms)) && CleanFrame(names, ms).names == names
  {
    var idx := UnionIndex(ms);
    var filled := FilledColumns(ms, idx);
    var keep := KeptRows(idx, filled, |idx|);
    PickedPanel(names, idx, filled, keep);
  }

  /** What cleaning guarantees: aligned columns, one strictly increasing monthly
      index from 1970-01 on, and no row without any value. */
  ghost predicate CleanedShape(p: Panel)
  {
    && Shaped(p) && Chronological(p.index)
    && (forall i :: 0 <= i < |p.index| ==> ValidMonth(p.index[i]) && Ordinal(p.index[i]) >= Epoch)
    && (forall i :: 0 <= i < |p.index| ==> AnyPresent(p.cols, i))
  }

  lemma PickedPanel(names: seq<string>, idx: seq<int>, filled: seq<seq<Cell>>, keep: seq<nat>)
    requires |names| == |filled| && forall j :: 0 <= j < |filled| ==> |filled[j]| == |idx|
    requires Increasing(idx) && Increasing(keep)
    requires forall i :: 0 <= i < |keep| ==> keep[i] < |idx| && idx[keep[i]] >= Epoch && AnyPresent(filled, keep[i])
    ensures CleanedShape(Panel(MonthsOf(Pick(idx, keep)), names, PickRows(filled, keep)))
  {
    PickIncreasing(idx, keep);
    PickPresent(filled, keep);
  }

  lemma PickIncreasing(idx: seq<int>, keep: seq<nat>)
    requires Increasing(idx) && Increasing(keep)
    requires forall i :: 0 <= i < |keep| ==> keep[i] < |idx|
    ensures Chronological(MonthsOf(Pick(idx, keep)))
  {
    var ks := Pick(idx, keep);
    forall i, i' | 0 <= i < i' < |ks| ensures ks[i] < ks[i'] {
      assert keep[i] < keep[i'];
    }
  }

  lemma PickPresent(filled: seq<seq<Cell>>, keep: seq<nat>)
    requires forall j :: 0 <= j < |filled| ==> forall i :: 0 <= i < |keep| ==> keep[i] < |filled[j]|
    requires forall i :: 0 <= i < |keep| ==> AnyPresent(filled, keep[i])
    ensures forall i :: 0 <= i < |keep| ==> AnyPresent(PickRows(filled, keep), i)
  {
    var cols := PickRows(filled, keep);
    forall i | 0 <= i < |keep| ensures AnyPresent(cols, i) {
      var j :| 0 <= j < |filled| && 0 <= keep[i] < |filled[j]| && filled[j][keep[i]].Some?;
      assert cols[j][i] == filled[j][keep[i]];
    }
  }

  // ---------------------------------------------------------------------------
  // Column operations used after cleaning
  // ---------------------------------------------------------------------------

  /** `Series.diff()`: NaN first, then the change between consecutive rows. */
  function Diff(col: seq<Cell>): (d: seq<Cell>)
    ensures |d| == |col|
    ensures |col| > 0 ==> d[0].None?
    ensures forall i :: 0 < i < |col| ==>
      d[i] == (if col[i].Some? && col[i - 1].Some? then Some(col[i].value - col[i - 1].value) else None)
  {
    seq(|col|, i requires 0 <= i < |col| =>
      if i > 0 && col[i].Some? && col[i - 1].Some? then Some(col[i].value - col[i - 1].value) else None)
  }

  /** A dense column as a float column. */
  function Lift(col: seq<real>): (c: seq<Cell>)
    ensures |c| == |col| && forall i :: 0 <= i < |col| ==> c[i] == Some(col[i])
  {
    seq(|col|, i requires 0 <= i < |col| => Some(col[i]))
  }

  function Column(p: Panel, name: string): (c: Option<seq<Cell>>)
    ensures c.Some? <==> name in p.names
    ensures c.Some? ==> c.value == p.cols[IndexOf(p.names, name)]
    requires |p.cols| == |p.names|
  {
    if name in p.names then Some(p.cols[IndexOf(p.names, name)]) else None
  }

  predicate RowComplete(cols: seq<seq<Cell>>, q: int)
  {
    forall j :: 0 <= j < |cols| ==> 0 <= q < |cols[j]| && cols[j][q].Some?
  }

  /** Row positions without a missing value in any column. */
  function CompleteRows(cols: seq<seq<Cell>>, n: nat): (r: seq<nat>)
    ensures Increasing(r)
    ensures forall i :: 0 <= i < |r| ==> r[i] < n && RowComplete(cols, r[i])
    ensures forall q: nat :: q in r <==> q < n && RowComplete(cols, q)
    decreases n
  {
    if n == 0 then []
    else CompleteRows(cols, n - 1) + (if RowComplete(cols, n - 1) then [n - 1] else [])
  }

  /** `dropna()`: only the rows where every column has a value. */
  function DropNa(p: Panel): (d: Dense)
    requires Shaped(p)
    ensures DenseShaped(d) && d.names == p.names
    ensures |d.index| <= |p.index|
  {
    var keep := CompleteRows(p.cols, |p.index|);
    CompleteRowsBound(p.cols, |p.index|);
    Dense(seq(|keep|, i requires 0 <= i < |keep| => p.index[keep[i]]),
          p.names,
          seq(|p.cols|, j requires 0 <= j < |p.cols| =>
            seq(|keep|, i requires 0 <= i < |keep| => p.cols[j][keep[i]].value)))
  }

  lemma {:induction false} CompleteRowsBound(cols: seq<seq<Cell>>, n: nat)
    ensures |CompleteRows(cols, n)| <= n
    decreases n
  {
    if n > 0 { CompleteRowsBound(cols, n - 1); }
  }

  /** Every row `dropna` keeps is a complete input row, in the input's order,
      and every complete input row is kept. */
  lemma DropNaSpec(p: Panel)
    requires Shaped(p)
    ensures var keep := CompleteRows(p.cols, |p.index|);
      && |DropNa(p).index| == |keep|
      && (forall i :: 0 <= i < |keep| ==>
            keep[i] < |p.index| && DropNa(p).index[i] == p.index[keep[i]]
            && forall j :: 0 <= j < |p.cols| ==> p.cols[j][keep[i]] == Some(DropNa(p).cols[j][i]))
      && (forall q :: 0 <= q < |p.index| && RowComplete(p.cols, q) ==> q in keep)
  {
  }
}
