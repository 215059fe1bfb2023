/** The shock validator (quant/input_validation.py): per shock, in dict order,
    the variable whitelist, the shock type, a numeric value, the `%Y-%m` format of
    `start` and its presence among the available dates; the first failure raises. */
module InputValidation {
  import opened Common

  /** `VALID_VARIABLES`; `policy_rate` is not among them. */
  const ValidVariables: seq<string> := ["gdp", "inflation", "interest_rate", "equity"]

  const ShockTypes: seq<string> := ["increase", "decrease"]

  /** The Python value stored under `"value"`. */
  datatype PyValue = PyInt(i: int) | PyFloat(f: real) | PyBool(b: bool) | PyOther(typeName: string)

  /** `isinstance(v, (int, float))`; `bool` is a subclass of `int`. */
  predicate IsNumber(v: PyValue)
  {
    v.PyInt? || v.PyFloat? || v.PyBool?
  }

  /** One entry of `shocks_dict`. */
  datatype ShockInput = ShockInput(shockType: string, value: PyValue, start: string)

  /** The `ValueError`s `validate_shocks` raises, with the values their messages name. */
  datatype ValidationError =
    | InvalidVariable(name: string)
    | InvalidShockType(name: string, shockType: string)
    | NonNumericValue(name: string, value: PyValue)
    | BadDateFormat(name: string, start: string)
    | UnknownDate(start: string)

  // ----- datetime.strptime(start, "%Y-%m") -----

  predicate IsDigit(c: char) { '0' <= c <= '9' }

  function DigitValue(c: char): int
    requires IsDigit(c)
  {
    c as int - '0' as int
  }

  /** The `%m` directive, the regex `1[0-2]|0[1-9]|[1-9]` matched at the start of
      `s` with its alternatives tried in order: the month and how many characters
      it consumed. */
  function MonthField(s: string): (r: Option<(int, nat)>)
    ensures r.Some? ==> 1 <= r.value.0 <= 12 && 1 <= r.value.1 <= 2 && r.value.1 <= |s|
  {
    if |s| >= 2 && s[0] == '1' && '0' <= s[1] <= '2' then Some((10 + DigitValue(s[1]), 2))
    else if |s| >= 2 && s[0] == '0' && '1' <= s[1] <= '9' then Some((DigitValue(s[1]), 2))
    else if |s| >= 1 && '1' <= s[0] <= '9' then Some((DigitValue(s[0]), 1))
    else None
  }

  /** `strptime(s, "%Y-%m")`: four digits (`%Y`), a '-', the `%m` match, and
      nothing unconverted; year 0 is out of `datetime`'s range. */
  function ParseYearMonth(s: string): (r: Option<Month>)
    ensures r.Some? ==> ValidMonth(r.value) && r.value.year >= 1
  {
    if |s| >= 5 && IsDigit(s[0]) && IsDigit(s[1]) && IsDigit(s[2]) && IsDigit(s[3]) && s[4] == '-' then
      var year := DigitValue(s[0]) * 1000 + DigitValue(s[1]) * 100 + DigitValue(s[2]) * 10 + DigitValue(s[3]);
      match MonthField(s[5..])
      case None => None
      case Some((month, used)) => if 5 + used == |s| && year >= 1 then Some(Month(year, month)) else None
    else None
  }

  /** The characters `c` renders a digit as. */
  function Digit(d: int): char
    requires 0 <= d <= 9
  {
    ('0' as int + d) as char
  }

  /** `strftime("%Y-%m")` of a month with a four-digit year. */
  function FormatYearMonth(m: Month): string
    requires ValidMonth(m) && 0 <= m.year <= 9999
  {
    [Digit(m.year / 1000), Digit(m.year / 100 % 10), Digit(m.year / 10 % 10), Digit(m.year % 10), '-',
     Digit(m.month / 10), Digit(m.month % 10)]
  }

  /** The spellings `%m` accepts for month `m`: two digits, or one digit below 10. */
  predicate MonthSpelling(t: string, m: int)
  {
    1 <= m <= 12 && (t == [Digit(m / 10), Digit(m % 10)] || (m < 10 && t == [Digit(m)]))
  }

  /** The strings `strptime(_, "%Y-%m")` accepts, stated without the regex. */
  predicate YearMonthText(s: string, m: Month)
  {
    && |s| >= 5 && 1 <= m.year <= 9999
    && s[..4] == [Digit(m.year / 1000), Digit(m.year / 100 % 10), Digit(m.year / 10 % 10), Digit(m.year % 10)]
    && s[4] == '-'
    && MonthSpelling(s[5..], m.month)
  }

  lemma DigitRoundTrip(d: int)
    requires 0 <= d <= 9
    ensures IsDigit(Digit(d)) && DigitValue(Digit(d)) == d
  {
  }

  lemma DigitOf(c: char)
    requires IsDigit(c)
    ensures 0 <= DigitValue(c) <= 9 && Digit(DigitValue(c)) == c
  {
  }

  /** Four decimal digits and the number they spell determine each other. */
  lemma YearDigits(a: int, b: int, c: int, d: int)
    requires 0 <= a <= 9 && 0 <= b <= 9 && 0 <= c <= 9 && 0 <= d <= 9
    ensures var y := a * 1000 + b * 100 + c * 10 + d;
      y / 1000 == a && y / 100 % 10 == b && y / 10 % 10 == c && y % 10 == d
  {
    var y := a * 1000 + b * 100 + c * 10 + d;
    var hi, mid := a * 10 + b, a * 100 + b * 10 + c;
    assert y == hi * 100 + (c * 10 + d) && 0 <= c * 10 + d < 100;
    assert y == mid * 10 + d;
    assert y / 100 == hi && y / 10 == mid;
    assert hi == a * 10 + b && mid == (a * 10 + b) * 10 + c;
  }

  lemma YearSplit(y: int)
    requires 0 <= y <= 9999
    ensures (y / 1000) * 1000 + (y / 100 % 10) * 100 + (y / 10 % 10) * 10 + y % 10 == y
  {
    var q := y / 10;
    assert y == q * 10 + y % 10;
    assert q == (q / 10) * 10 + q % 10;
    assert y / 100 == q / 10;
    assert y / 1000 == (q / 10) / 10;
  }

  /** What the parser accepts is a `YearMonthText` of the month it returns. */
  lemma ParseYearMonthSound(s: string)
    requires ParseYearMonth(s).Some?
    ensures YearMonthText(s, ParseYearMonth(s).value)
  {
    var m := ParseYearMonth(s).value;
    DigitOf(s[0]); DigitOf(s[1]); DigitOf(s[2]); DigitOf(s[3]);
    YearDigits(DigitValue(s[0]), DigitValue(s[1]), DigitValue(s[2]), DigitValue(s[3]));
    assert s[..4] == [s[0], s[1], s[2], s[3]];
    var t := s[5..];
    assert t[0] == s[5];
    if |t| >= 2 { DigitOf(t[0]); DigitOf(t[1]); } else { DigitOf(t[0]); }
    assert MonthSpelling(t, m.month);
  }

  /** Every `YearMonthText` of `m` parses to `m`. */
  lemma ParseYearMonthComplete(s: string, m: Month)
    requires YearMonthText(s, m)
    ensures ParseYearMonth(s) == Some(m)
  {
    var y := m.year;
    DigitRoundTrip(y / 1000); DigitRoundTrip(y / 100 % 10); DigitRoundTrip(y / 10 % 10); DigitRoundTrip(y % 10);
    YearSplit(y);
    assert s[0] == s[..4][0] && s[1] == s[..4][1] && s[2] == s[..4][2] && s[3] == s[..4][3];
    var t := s[5..];
    if m.month < 10 && t == [Digit(m.month)] {
      DigitRoundTrip(m.month);
    } else {
      DigitRoundTrip(m.month / 10); DigitRoundTrip(m.month % 10);
    }
  }

  /** The parser accepts exactly the strings `YearMonthText` describes, and reads
      the month they spell. */
  lemma ParseYearMonthSpec(s: string, m: Month)
    ensures ParseYearMonth(s) == Some(m) <==> YearMonthText(s, m)
  {
    if ParseYearMonth(s) == Some(m) {
      ParseYearMonthSound(s);
    }
    if YearMonthText(s, m) {
      ParseYearMonthComplete(s, m);
    }
  }

  /** Every date `strftime("%Y-%m")` writes for a year from 1 to 9999 passes the format check. */
  lemma FormatParseRoundTrip(m: Month)
    requires ValidMonth(m) && 1 <= m.year <= 9999
    ensures ParseYearMonth(FormatYearMonth(m)) == Some(m)
  {
    var s := FormatYearMonth(m);
    assert s[..4] == [Digit(m.year / 1000), Digit(m.year / 100 % 10), Digit(m.year / 10 % 10), Digit(m.year % 10)];
    assert s[5..] == [Digit(m.month / 10), Digit(m.month % 10)];
    ParseYearMonthSpec(s, m);
  }

  // ----- validate_shocks -----

  /** The five checks on one shock, in order; `None` when it passes them all. */
  function CheckShock(name: string, c: ShockInput, availableDates: seq<string>): Option<ValidationError>
  {
    if name !in ValidVariables then Some(InvalidVariable(name))
    else if c.shockType !in ShockTypes then Some(InvalidShockType(name, c.shockType))
    else if !IsNumber(c.value) then Some(NonNumericValue(name, c.value))
    else if ParseYearMonth(c.start).None? then Some(BadDateFormat(name, c.start))
    else if c.start !in availableDates then Some(UnknownDate(c.start))
    else None
  }

  /** A shock meets all five requirements. */
  ghost predicate Acceptable(name: string, c: ShockInput, availableDates: seq<string>)
  {
    && name in ValidVariables
    && (c.shockType == "increase" || c.shockType == "decrease")
    && IsNumber(c.value)
    && (exists m :: YearMonthText(c.start, m))
    && c.start in availableDates
  }

  /** A shock passes exactly when it is acceptable; otherwise the error names
      the first requirement it breaks, in the order the source tests them. */
  lemma CheckShockSpec(name: string, c: ShockInput, availableDates: seq<string>)
    ensures CheckShock(name, c, availableDates).None? <==> Acceptable(name, c, availableDates)
    ensures name !in ValidVariables ==> CheckShock(name, c, availableDates) == Some(InvalidVariable(name))
    ensures name in ValidVariables && c.shockType != "increase" && c.shockType != "decrease" ==>
      CheckShock(name, c, availableDates) == Some(InvalidShockType(name, c.shockType))
    ensures name in ValidVariables && (c.shockType == "increase" || c.shockType == "decrease") && !IsNumber(c.value) ==>
      CheckShock(name, c, availableDates) == Some(NonNumericValue(name, c.value))
    ensures name in ValidVariables && (c.shockType == "increase" || c.shockType == "decrease") && IsNumber(c.value)
            && (forall m :: !YearMonthText(c.start, m)) ==>
      CheckShock(name, c, availableDates) == Some(BadDateFormat(name, c.start))
    ensures name in ValidVariables && (c.shockType == "increase" || c.shockType == "decrease") && IsNumber(c.value)
            && (exists m :: YearMonthText(c.start, m)) && c.start !in availableDates ==>
      CheckShock(name, c, availableDates) == Some(UnknownDate(c.start))
  {
    if ParseYearMonth(c.start).Some? {
      ParseYearMonthSpec(c.start, ParseYearMonth(c.start).value);
    }
    if exists m :: YearMonthText(c.start, m) {
      var m :| YearMonthText(c.start, m);
      ParseYearMonthSpec(c.start, m);
    }
  }

  /** `validate_shocks`: the shocks in dict order, stopping at the first failure. */
  function ValidateShocks(shocks: seq<(string, ShockInput)>, availableDates: seq<string>): (r: Result<(), ValidationError>)
    ensures r.Ok? <==> forall i :: 0 <= i < |shocks| ==> CheckShock(shocks[i].0, shocks[i].1, availableDates).None?
    ensures r.Err? ==> exists i :: 0 <= i < |shocks| && CheckShock(shocks[i].0, shocks[i].1, availableDates) == Some(r.error)
                         && forall j :: 0 <= j < i ==> CheckShock(shocks[j].0, shocks[j].1, availableDates).None?
  {
    if shocks == [] then Ok(())
    else
      match CheckShock(shocks[0].0, shocks[0].1, availableDates)
      case Some(e) => Err(e)
      case None =>
        var rest := ValidateShocks(shocks[1..], availableDates);
        assert forall i :: 1 <= i < |shocks| ==> shocks[i] == shocks[1..][i - 1];
        if rest.Err? then
          var i :| 0 <= i < |shocks[1..]| && CheckShock(shocks[1..][i].0, shocks[1..][i].1, availableDates) == Some(rest.error)
                   && forall j :: 0 <= j < i ==> CheckShock(shocks[1..][j].0, shocks[1..][j].1, availableDates).None?;
          assert CheckShock(shocks[i + 1].0, shocks[i + 1].1, availableDates) == Some(rest.error);
          rest
        else rest
  }

  /** Validation succeeds exactly when every shock is acceptable; an empty map passes. */
  lemma ValidateShocksAcceptable(shocks: seq<(string, ShockInput)>, availableDates: seq<string>)
    ensures ValidateShocks(shocks, availableDates).Ok? <==>
      forall i :: 0 <= i < |shocks| ==> Acceptable(shocks[i].0, shocks[i].1, availableDates)
    ensures ValidateShocks([], availableDates).Ok?
  {
    forall i | 0 <= i < |shocks| {
      CheckShockSpec(shocks[i].0, shocks[i].1, availableDates);
    }
  }

  /** A shock on `policy_rate` is rejected, whatever its other fields. */
  lemma PolicyRateRejected(c: ShockInput, availableDates: seq<string>)
    ensures ValidateShocks([("policy_rate", c)], availableDates) == Err(InvalidVariable("policy_rate"))
  {
    assert ValidVariables[0] != "policy_rate" && ValidVariables[1] != "policy_rate";
    assert ValidVariables[2] != "policy_rate" && ValidVariables[3] != "policy_rate";
  }

  /** Examples of the `%m` alternation: a month without its leading zero passes;
      month 13 and month 00 fail, as does a trailing character. */
  lemma MonthFormatExamples()
    ensures ParseYearMonth("2024-1") == Some(Month(2024, 1))
    ensures ParseYearMonth("2024-01") == Some(Month(2024, 1))
    ensures ParseYearMonth("2024-12") == Some(Month(2024, 12))
    ensures ParseYearMonth("2024-13").None?
    ensures ParseYearMonth("2024-00").None?
    ensures ParseYearMonth("2024-011").None?
    ensures ParseYearMonth("0000-05").None?
    ensures ParseYearMonth("24-05").None?
  {
  }
}
