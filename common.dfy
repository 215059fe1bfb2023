/** Shared vocabulary: optional values (pandas NaN), results with error values
    (Python exceptions) and month-start calendar arithmetic (pandas "MS" frequency). */
module Common {

  /** A value that may be missing; `None` stands for NaN / NaT. */
  datatype Option<+T> = None | Some(value: T)

  /** The result of an operation that may raise; `Err` carries the exception. */
  datatype Result<+T, +E> = Ok(value: T) | Err(error: E)

  /** A calendar month; as a timestamp it is the first day of that month. */
  datatype Month = Month(year: int, month: int)

  /** A calendar day as found in raw observation indexes (time of day is not modelled). */
  datatype Date = Date(year: int, month: int, day: int)

  predicate ValidMonth(m: Month) { 1 <= m.month <= 12 }

  /** Months counted from January of year 0. */
  function Ordinal(m: Month): int { m.year * 12 + (m.month - 1) }

  function FromOrdinal(k: int): (m: Month)
    ensures ValidMonth(m) && Ordinal(m) == k
  {
    Month(k / 12, k % 12 + 1)
  }

  lemma OrdinalInjective(a: Month, b: Month)
    requires ValidMonth(a) && ValidMonth(b) && Ordinal(a) == Ordinal(b)
    ensures a == b
  {
    assert a.year == Ordinal(a) / 12;
    assert b.year == Ordinal(b) / 12;
  }

  /** The month-start following `m` (pandas `MonthBegin(1)` on a month start). */
  function NextMonth(m: Month): (r: Month)
    requires ValidMonth(m)
    ensures ValidMonth(r) && Ordinal(r) == Ordinal(m) + 1
    ensures m.month < 12 ==> r == Month(m.year, m.month + 1)
    ensures m.month == 12 ==> r == Month(m.year + 1, 1)
  {
    var r := FromOrdinal(Ordinal(m) + 1);
    OrdinalInjective(r, if m.month < 12 then Month(m.year, m.month + 1) else Month(m.year + 1, 1));
    r
  }

  /** The month a timestamp falls in (pandas `to_period("M").to_timestamp()`). */
  function MonthOf(d: Date): Month { Month(d.year, d.month) }

  predicate IsMonthStart(d: Date) { d.day == 1 }

  /** Strict chronological order on days. */
  predicate DateBefore(a: Date, b: Date)
  {
    a.year < b.year || (a.year == b.year && (a.month < b.month || (a.month == b.month && a.day < b.day)))
  }

  predicate DateAtMost(a: Date, b: Date) { a == b || DateBefore(a, b) }

  /** Position of `x` in `s`, or `|s|` when absent (Python `list.index` on a hit). */
  function IndexOf<T(==)>(s: seq<T>, x: T): (i: nat)
    ensures i <= |s|
    ensures i < |s| <==> x in s
    ensures i < |s| ==> s[i] == x && forall j :: 0 <= j < i ==> s[j] != x
  {
    if s == [] then 0
    else if s[0] == x then 0
    else 1 + IndexOf(s[1..], x)
  }

  predicate Distinct<T(==)>(s: seq<T>)
  {
    forall i, j :: 0 <= i < j < |s| ==> s[i] != s[j]
  }

  lemma IndexOfDistinct<T>(s: seq<T>, j: nat)
    requires Distinct(s) && j < |s|
    ensures IndexOf(s, s[j]) == j
  {
  }

  /** `a` is `b` with some elements left out, the rest in their order. */
  predicate Subsequence<T(==)>(a: seq<T>, b: seq<T>)
    decreases |b|
  {
    if a == [] then true
    else if b == [] then false
    else if a[0] == b[0] then Subsequence(a[1..], b[1..])
    else Subsequence(a, b[1..])
  }

  lemma {:induction false} SubsequenceOfSelf<T>(a: seq<T>)
    ensures Subsequence(a, a)
    decreases |a|
  {
    if a != [] { SubsequenceOfSelf(a[1..]); }
  }

  lemma {:induction false} SubsequenceAppend<T>(a: seq<T>, b: seq<T>, x: T)
    requires Subsequence(a, b)
    ensures Subsequence(a, b + [x]) && Subsequence(a + [x], b + [x])
    decreases |b|
  {
    if a == [] {
      SubsequenceSingle(b, x);
      assert a + [x] == [x];
    } else {
      assert (b + [x])[1..] == b[1..] + [x] && (b + [x])[0] == b[0];
      assert (a + [x])[1..] == a[1..] + [x] && (a + [x])[0] == a[0];
      if a[0] == b[0] {
        SubsequenceAppend(a[1..], b[1..], x);
      } else {
        SubsequenceAppend(a, b[1..], x);
      }
    }
  }

  lemma {:induction false} SubsequenceSingle<T>(b: seq<T>, x: T)
    ensures Subsequence([x], b + [x])
    decreases |b|
  {
    if b != [] {
      assert (b + [x])[1..] == b[1..] + [x];
      SubsequenceSingle(b[1..], x);
    }
  }

  lemma {:induction false} SubsequenceElements<T>(a: seq<T>, b: seq<T>)
    requires Subsequence(a, b)
    ensures forall x :: x in a ==> x in b
    decreases |b|
  {
    if a != [] {
      if a[0] == b[0] {
        SubsequenceElements(a[1..], b[1..]);
        assert forall x :: x in a ==> x == a[0] || x in a[1..];
      } else {
        SubsequenceElements(a, b[1..]);
      }
    }
  }

  lemma {:induction false} SubsequenceDistinct<T>(a: seq<T>, b: seq<T>)
    requires Subsequence(a, b) && Distinct(b)
    ensures Distinct(a)
    decreases |b|
  {
    if a != [] {
      assert Distinct(b[1..]) by {
        forall i, j | 0 <= i < j < |b[1..]| ensures b[1..][i] != b[1..][j] {
          assert b[1..][i] == b[i + 1] && b[1..][j] == b[j + 1];
        }
      }
      if a[0] == b[0] {
        SubsequenceDistinct(a[1..], b[1..]);
        SubsequenceElements(a[1..], b[1..]);
        assert b[0] !in b[1..];
        forall i, j | 0 <= i < j < |a| ensures a[i] != a[j] {
          if i == 0 {
            assert a[j] == a[1..][j - 1];
            assert a[j] in a[1..];
          } else {
            assert a[i] == a[1..][i - 1] && a[j] == a[1..][j - 1];
          }
        }
      } else {
        SubsequenceDistinct(a, b[1..]);
      }
    }
  }

  /** Dropping the first element of `a` keeps it a subsequence. */
  lemma {:induction false} SubsequenceTail<T>(a: seq<T>, c: seq<T>)
    requires a != [] && Subsequence(a, c)
    ensures Subsequence(a[1..], c)
    decreases |c|, 1
  {
    if a[0] == c[0] {
      SubsequenceSkip(a[1..], c);
    } else {
      SubsequenceTail(a, c[1..]);
      SubsequenceSkip(a[1..], c);
    }
  }

  /** A subsequence of the tail of `c` is a subsequence of `c`. */
  lemma {:induction false} SubsequenceSkip<T>(x: seq<T>, c: seq<T>)
    requires c != [] && Subsequence(x, c[1..])
    ensures Subsequence(x, c)
    decreases |c|, 0
  {
    if x != [] && x[0] == c[0] {
      SubsequenceTail(x, c[1..]);
    }
  }

  lemma {:induction false} SubsequenceTrans<T>(a: seq<T>, b: seq<T>, c: seq<T>)
    requires Subsequence(a, b) && Subsequence(b, c)
    ensures Subsequence(a, c)
    decreases |c|
  {
    if a != [] {
      if b[0] == c[0] {
        if a[0] == b[0] {
          SubsequenceTrans(a[1..], b[1..], c[1..]);
        } else {
          SubsequenceTrans(a, b[1..], c[1..]);
        }
      } else {
        SubsequenceTrans(a, b, c[1..]);
        SubsequenceSkip(a, c);
      }
    }
  }

  /** A reordering `b` of `a` holds `a[0]` at some position `k`; taking it out
      there leaves a reordering of `a[1..]`. */
  lemma PermutationSplit<T>(a: seq<T>, b: seq<T>) returns (k: nat)
    requires a != [] && multiset(a) == multiset(b)
    ensures k < |b| && b[k] == a[0]
    ensures b == b[..k] + [a[0]] + b[k + 1..]
    ensures multiset(a[1..]) == multiset(b[..k] + b[k + 1..])
  {
    assert a == [a[0]] + a[1..];
    assert a[0] in multiset(b);
    k :| 0 <= k < |b| && b[k] == a[0];
    assert b == b[..k] + [a[0]] + b[k + 1..];
    var rest := b[..k] + b[k + 1..];
    calc {
      multiset(b);
      multiset(b[..k] + [a[0]] + b[k + 1..]);
      multiset(b[..k]) + multiset([a[0]]) + multiset(b[k + 1..]);
      multiset(rest) + multiset{a[0]};
    }
    assert multiset(a) == multiset(a[1..]) + multiset{a[0]};
    assert multiset(a[1..]) == multiset(a) - multiset{a[0]};
    assert multiset(rest) == multiset(b) - multiset{a[0]};
  }
}
