/** The min-max normaliser (utils/transform.py `normalize_series`): the series is
    put on a month-start grid between its first and last dates, then every value
    `v` becomes `(v - min) / (max - min)`; with a variable name it is reshaped to
    (date, variable, value) rows. */
module Transform {
  import opened Common

  /** A point of the input frame: its index date and its `value` (None is NaN). */
  type Point = (Date, Option<real>)

  predicate ValidDate(d: Date) { 1 <= d.month <= 12 && 1 <= d.day <= 31 }

  /** `asfreq` reindexes, which pandas refuses on an index with repeated labels. */
  datatype NormError = DuplicateDates

  /** The two return shapes: indexed by month-start, or long rows sorted by date. */
  datatype Normalized =
    | Indexed(index: seq<Month>, values: seq<Option<real>>)
    | Long(rows: seq<(Month, string, Option<real>)>)

  predicate DistinctDates(pts: seq<Point>)
  {
    forall i, j :: 0 <= i < j < |pts| ==> pts[i].0 != pts[j].0
  }

  /** The earliest date (the first one after `sort_index`). */
  function Earliest(pts: seq<Point>): (d: Date)
    requires pts != []
    ensures exists i :: 0 <= i < |pts| && pts[i].0 == d
    ensures forall i :: 0 <= i < |pts| ==> DateAtMost(d, pts[i].0)
  {
    if |pts| == 1 then pts[0].0
    else
      var rest := Earliest(pts[1..]);
      assert forall i :: 1 <= i < |pts| ==> pts[i] == pts[1..][i - 1];
      if DateAtMost(pts[0].0, rest) then pts[0].0 else rest
  }

  /** The latest date (the last one after `sort_index`). */
  function Latest(pts: seq<Point>): (d: Date)
    requires pts != []
    ensures exists i :: 0 <= i < |pts| && pts[i].0 == d
    ensures forall i :: 0 <= i < |pts| ==> DateAtMost(pts[i].0, d)
  {
    if |pts| == 1 then pts[0].0
    else
      var rest := Latest(pts[1..]);
      assert forall i :: 1 <= i < |pts| ==> pts[i] == pts[1..][i - 1];
      if DateAtMost(rest, pts[0].0) then pts[0].0 else rest
  }

  /** The first day of a month, as a date. */
  function StartOf(m: Month): Date { Date(m.year, m.month, 1) }

  /** The first grid month: `date_range` with frequency "MS" rolls a start that is
      not a month start forward to the next one. */
  function GridStart(first: Date): (m: Month)
    requires ValidDate(first)
    ensures ValidMonth(m)
  {
    if first.day == 1 then MonthOf(first) else NextMonth(MonthOf(first))
  }

  /** The month-starts from `first` to `last`, both included. */
  function Grid(first: Date, last: Date): (g: seq<Month>)
    requires ValidDate(first) && ValidDate(last)
    ensures forall k :: 0 <= k < |g| ==> ValidMonth(g[k]) && Ordinal(g[k]) == Ordinal(GridStart(first)) + k
    ensures |g| == if Ordinal(MonthOf(last)) >= Ordinal(GridStart(first)) then Ordinal(MonthOf(last)) - Ordinal(GridStart(first)) + 1 else 0
  {
    var lo := Ordinal(GridStart(first));
    var hi := Ordinal(MonthOf(last));
    var g := seq(if hi >= lo then hi - lo + 1 else 0, k => FromOrdinal(lo + k));
    assert forall k :: 0 <= k < |g| ==> g[k] == FromOrdinal(lo + k);
    g
  }

  /** The value `reindex` finds for a grid month: that of the point dated exactly
      at its first day, missing when there is none. */
  function ValueAt(pts: seq<Point>, m: Month): (c: Option<real>)
    ensures c.Some? ==> exists i :: 0 <= i < |pts| && pts[i] == (StartOf(m), c)
    ensures (forall i :: 0 <= i < |pts| ==> pts[i].0 != StartOf(m)) ==> c.None?
  {
    if pts == [] then None
    else if pts[0].0 == StartOf(m) then pts[0].1
    else
      var rest := ValueAt(pts[1..], m);
      assert forall i :: 1 <= i < |pts| ==> pts[i] == pts[1..][i - 1];
      rest
  }

  /** The smallest present value (`min` skips NaN); None when all are missing. */
  function MinPresent(cs: seq<Option<real>>): (r: Option<real>)
    ensures r.None? <==> forall i :: 0 <= i < |cs| ==> cs[i].None?
    ensures r.Some? ==> (exists i :: 0 <= i < |cs| && cs[i] == r)
                        && forall i :: 0 <= i < |cs| && cs[i].Some? ==> r.value <= cs[i].value
  {
    if cs == [] then None
    else
      var rest := MinPresent(cs[1..]);
      assert forall i :: 1 <= i < |cs| ==> cs[i] == cs[1..][i - 1];
      if cs[0].None? then rest
      else if rest.Some? && rest.value < cs[0].value then rest
      else cs[0]
  }

  /** The largest present value (`max` skips NaN); None when all are missing. */
  function MaxPresent(cs: seq<Option<real>>): (r: Option<real>)
    ensures r.None? <==> forall i :: 0 <= i < |cs| ==> cs[i].None?
    ensures r.Some? ==> (exists i :: 0 <= i < |cs| && cs[i] == r)
                        && forall i :: 0 <= i < |cs| && cs[i].Some? ==> cs[i].value <= r.value
  {
    if cs == [] then None
    else
      var rest := MaxPresent(cs[1..]);
      assert forall i :: 1 <= i < |cs| ==> cs[i] == cs[1..][i - 1];
      if cs[0].None? then rest
      else if rest.Some? && rest.value > cs[0].value then rest
      else cs[0]
  }

  /** `(v - lo) / (hi - lo)`, undefined (0/0) when `hi == lo`. */
  function Scale(c: Option<real>, lo: real, hi: real): Option<real>
  {
    if c.None? || hi == lo then None else Some((c.value - lo) / (hi - lo))
  }

  /** The normalised column over the grid values. */
  function Rescaled(cs: seq<Option<real>>): (r: seq<Option<real>>)
    ensures |r| == |cs|
  {
    var lo := MinPresent(cs);
    var hi := MaxPresent(cs);
    if lo.None? then cs
    else seq(|cs|, i requires 0 <= i < |cs| => Scale(cs[i], lo.value, hi.value))
  }

  /** The grid and its reindexed values, before normalisation. */
  function Regularised(pts: seq<Point>): (r: (seq<Month>, seq<Option<real>>))
    requires forall i :: 0 <= i < |pts| ==> ValidDate(pts[i].0)
    ensures |r.0| == |r.1|
  {
    if pts == [] then ([], [])
    else
      var g := Grid(Earliest(pts), Latest(pts));
      (g, seq(|g|, k requires 0 <= k < |g| => ValueAt(pts, g[k])))
  }

  /** `normalize_series(df, var_name)`. */
  function NormalizeSeries(pts: seq<Point>, varName: Option<string>): Result<Normalized, NormError>
    requires forall i :: 0 <= i < |pts| ==> ValidDate(pts[i].0)
  {
    if !DistinctDates(pts) then Err(DuplicateDates)
    else
      var (g, cs) := Regularised(pts);
      var vs := Rescaled(cs);
      match varName
      case None => Ok(Indexed(g, vs))
      case Some(name) => Ok(Long(seq(|g|, k requires 0 <= k < |g| => (g[k], name, vs[k]))))
  }

  // ----- properties -----

  /** The grid is every month-start from the first date to the last, in order, one a month. */
  lemma GridSpec(first: Date, last: Date)
    requires ValidDate(first) && ValidDate(last)
    ensures forall k :: 0 <= k < |Grid(first, last)| ==>
      ValidMonth(Grid(first, last)[k])
      && DateAtMost(first, StartOf(Grid(first, last)[k])) && DateAtMost(StartOf(Grid(first, last)[k]), last)
    ensures forall k :: 0 < k < |Grid(first, last)| ==> Ordinal(Grid(first, last)[k]) == Ordinal(Grid(first, last)[k - 1]) + 1
    ensures forall m :: ValidMonth(m) && DateAtMost(first, StartOf(m)) && DateAtMost(StartOf(m), last) ==> m in Grid(first, last)
  {
    var g := Grid(first, last);
    var lo := Ordinal(GridStart(first));
    var hi := Ordinal(MonthOf(last));
    forall k | 0 <= k < |g|
      ensures DateAtMost(first, StartOf(g[k])) && DateAtMost(StartOf(g[k]), last)
    {
      DatesByOrdinal(first, g[k]);
    }
    forall m | ValidMonth(m) && DateAtMost(first, StartOf(m)) && DateAtMost(StartOf(m), last)
      ensures m in g
    {
      DatesByOrdinal(first, m);
      DateOrdinalBound(m, last);
      var k := Ordinal(m) - lo;
      OrdinalInjective(g[k], m);
    }
  }

  /** A month-start is on or after `first` exactly when its month is at or after the grid start. */
  lemma DatesByOrdinal(first: Date, m: Month)
    requires ValidDate(first) && ValidMonth(m)
    ensures DateAtMost(first, StartOf(m)) <==> Ordinal(m) >= Ordinal(GridStart(first))
  {
  }

  lemma DateOrdinalBound(m: Month, last: Date)
    requires ValidDate(last) && ValidMonth(m)
    ensures DateAtMost(StartOf(m), last) <==> Ordinal(m) <= Ordinal(MonthOf(last))
  {
  }

  /** Normalised values: in [0, 1] when max > min, min goes to 0 and max to 1; when
      max == min every value is undefined; missing values stay missing. */
  lemma RescaledSpec(cs: seq<Option<real>>)
    ensures forall i :: 0 <= i < |cs| && cs[i].None? ==> Rescaled(cs)[i].None?
    ensures MinPresent(cs).Some? && MinPresent(cs).value == MaxPresent(cs).value ==>
      forall i :: 0 <= i < |cs| ==> Rescaled(cs)[i].None?
    ensures MinPresent(cs).Some? && MinPresent(cs).value < MaxPresent(cs).value ==>
      forall i :: 0 <= i < |cs| && cs[i].Some? ==>
        && Rescaled(cs)[i].Some? && 0.0 <= Rescaled(cs)[i].value <= 1.0
        && (cs[i].value == MinPresent(cs).value ==> Rescaled(cs)[i].value == 0.0)
        && (cs[i].value == MaxPresent(cs).value ==> Rescaled(cs)[i].value == 1.0)
  {
    var lo := MinPresent(cs);
    var hi := MaxPresent(cs);
    if lo.Some? {
      forall i | 0 <= i < |cs| ensures Rescaled(cs)[i] == Scale(cs[i], lo.value, hi.value) { }
      if lo.value < hi.value {
        forall i | 0 <= i < |cs| && cs[i].Some?
          ensures && Rescaled(cs)[i].Some? && 0.0 <= Rescaled(cs)[i].value <= 1.0
                  && (cs[i].value == lo.value ==> Rescaled(cs)[i].value == 0.0)
                  && (cs[i].value == hi.value ==> Rescaled(cs)[i].value == 1.0)
        {
          ScaleBounds(cs[i].value, lo.value, hi.value);
        }
      }
    }
  }

  lemma ScaleBounds(v: real, lo: real, hi: real)
    requires lo <= v <= hi && lo < hi
    ensures Scale(Some(v), lo, hi).Some?
    ensures 0.0 <= Scale(Some(v), lo, hi).value <= 1.0
    ensures v == lo ==> Scale(Some(v), lo, hi).value == 0.0
    ensures v == hi ==> Scale(Some(v), lo, hi).value == 1.0
  {
    UnitInterval(v - lo, hi - lo);
  }

  lemma UnitInterval(a: real, d: real)
    requires 0.0 <= a <= d && d > 0.0
    ensures 0.0 <= a / d <= 1.0
    ensures a == 0.0 ==> a / d == 0.0
    ensures a == d ==> a / d == 1.0
  {
    Divide(a, d, d);
    Divide(0.0, a, d);
  }

  /** Normalisation keeps the order of the values. */
  lemma RescaledMonotone(cs: seq<Option<real>>, i: nat, j: nat)
    requires i < |cs| && j < |cs| && cs[i].Some? && cs[j].Some? && cs[i].value <= cs[j].value
    requires MinPresent(cs).value < MaxPresent(cs).value
    ensures Rescaled(cs)[i].value <= Rescaled(cs)[j].value
  {
    var lo := MinPresent(cs).value;
    var hi := MaxPresent(cs).value;
    assert Rescaled(cs)[i] == Scale(cs[i], lo, hi) && Rescaled(cs)[j] == Scale(cs[j], lo, hi);
    ScaleMonotone(cs[i].value, cs[j].value, lo, hi);
  }

  lemma ScaleMonotone(a: real, b: real, lo: real, hi: real)
    requires a <= b && lo < hi
    ensures Scale(Some(a), lo, hi).value <= Scale(Some(b), lo, hi).value
  {
    Divide(a - lo, b - lo, hi - lo);
  }

  lemma Divide(a: real, b: real, d: real)
    requires a <= b && d > 0.0
    ensures a / d <= b / d
  {
    assert b / d - a / d == (b - a) / d;
  }

  /** The output is the grid between the first and last dates; a grid month
      carries a value only when an input point is dated at its first day. */
  lemma NormalizeSeriesShape(pts: seq<Point>, varName: Option<string>)
    requires forall i :: 0 <= i < |pts| ==> ValidDate(pts[i].0)
    ensures NormalizeSeries(pts, varName).Err? <==> !DistinctDates(pts)
    ensures pts == [] && DistinctDates(pts) ==> NormalizeSeries(pts, None) == Ok(Indexed([], []))
    ensures DistinctDates(pts) && pts != [] ==>
      var g := Grid(Earliest(pts), Latest(pts));
      var cs := seq(|g|, k requires 0 <= k < |g| => ValueAt(pts, g[k]));
      && (varName.None? ==> NormalizeSeries(pts, varName) == Ok(Indexed(g, Rescaled(cs))))
      && (varName.Some? ==>
            (&& NormalizeSeries(pts, varName).value.Long?
             && |NormalizeSeries(pts, varName).value.rows| == |g|
             && forall k :: 0 <= k < |g| ==> NormalizeSeries(pts, varName).value.rows[k] == (g[k], varName.value, Rescaled(cs)[k])))
  {
  }

  /** Only points dated exactly at a month start survive the reindex. */
  lemma ValueAtSpec(pts: seq<Point>, m: Month, i: nat)
    requires DistinctDates(pts) && i < |pts| && pts[i].0 == StartOf(m)
    ensures ValueAt(pts, m) == pts[i].1
  {
    if pts[0].0 != StartOf(m) {
      assert pts[1..][i - 1] == pts[i];
      assert DistinctDates(pts[1..]) by {
        forall a, b | 0 <= a < b < |pts[1..]| ensures pts[1..][a].0 != pts[1..][b].0 {
          assert pts[1..][a] == pts[a + 1] && pts[1..][b] == pts[b + 1];
        }
      }
      ValueAtSpec(pts[1..], m, i - 1);
    }
  }
}
