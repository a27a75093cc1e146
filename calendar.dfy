/**
 * Calendar dates as Python represents them: a proleptic Gregorian `date` between 0001-01-01
 * and 9999-12-31, identified with its ordinal (0001-01-01 is day 1), and `str(date)`, the
 * `YYYY-MM-DD` full-date form of section 5.6 of RFC 3339.
 */
module Calendar {
  import opened Digits

  const MinYear := 1
  const MaxYear := 9999
  /** The ordinal of 9999-12-31, the last date Python's `date` can hold. */
  const MaxOrdinal := 3652059

  /** A value of Python's `date` type, by its ordinal. */
  type DateOrdinal = n: int | 1 <= n <= MaxOrdinal witness 1

  datatype Date = Date(year: int, month: int, day: int)

  predicate IsLeap(y: int)
  {
    y % 4 == 0 && (y % 100 != 0 || y % 400 == 0)
  }

  function DaysInYear(y: int): int
  {
    if IsLeap(y) then 366 else 365
  }

  function DaysInMonth(y: int, m: int): int
    requires 1 <= m <= 12
  {
    if m == 2 then (if IsLeap(y) then 29 else 28)
    else if m == 4 || m == 6 || m == 9 || m == 11 then 30
    else 31
  }

  ghost predicate ValidDate(d: Date)
  {
    MinYear <= d.year && 1 <= d.month <= 12 && 1 <= d.day <= DaysInMonth(d.year, d.month)
  }

  /** Days in the months of year `y` before month `m`. */
  function DaysBeforeMonth(y: int, m: int): int
    requires 1 <= m <= 12
  {
    [0, 31, 59, 90, 120, 151, 181, 212, 243, 273, 304, 334][m - 1] + (if m > 2 && IsLeap(y) then 1 else 0)
  }

  /** Days in the years before year `y`. */
  function DaysBeforeYear(y: int): int
    requires y >= 1
  {
    var p := y - 1;
    p * 365 + p / 4 - p / 100 + p / 400
  }

  /** `date.toordinal()`: the day falls inside its own year. */
  function ToOrdinal(d: Date): (n: int)
    requires ValidDate(d)
    ensures DaysBeforeYear(d.year) < n <= DaysBeforeYear(d.year) + DaysInYear(d.year)
  {
    DaysBeforeYear(d.year) + DaysBeforeMonth(d.year, d.month) + d.day
  }

  lemma DaysBeforeMonthStep(y: int, m: int)
    requires 1 <= m < 12
    ensures DaysBeforeMonth(y, m + 1) == DaysBeforeMonth(y, m) + DaysInMonth(y, m)
  {
  }

  lemma DaysBeforeYearStep(y: int)
    requires y >= 1
    ensures DaysBeforeYear(y + 1) == DaysBeforeYear(y) + DaysInYear(y)
  {
    var p := y - 1;
    QuarterStep(p);
    CenturyStep(p);
    QuadCenturyStep(p);
  }

  lemma QuarterStep(p: int)
    requires p >= 0
    ensures (p + 1) / 4 == p / 4 + (if (p + 1) % 4 == 0 then 1 else 0)
  {
  }

  lemma CenturyStep(p: int)
    requires p >= 0
    ensures (p + 1) / 100 == p / 100 + (if (p + 1) % 100 == 0 then 1 else 0)
  {
  }

  lemma QuadCenturyStep(p: int)
    requires p >= 0
    ensures (p + 1) / 400 == p / 400 + (if (p + 1) % 400 == 0 then 1 else 0)
  {
  }

  lemma {:induction false} DaysBeforeYearMonotone(y: int, z: int)
    requires 1 <= y <= z
    ensures DaysBeforeYear(y) <= DaysBeforeYear(z)
    decreases z - y
  {
    if y < z {
      DaysBeforeYearStep(y);
      DaysBeforeYearMonotone(y + 1, z);
    }
  }

  /** The date at (1-based) day `k` of year `y` counted from the first day of month `m`. */
  function LocateInYear(y: int, m: int, k: int): (d: Date)
    requires y >= 1 && 1 <= m <= 12
    requires 1 <= k <= DaysInYear(y) - DaysBeforeMonth(y, m)
    ensures ValidDate(d) && d.year == y
    ensures ToOrdinal(d) == DaysBeforeYear(y) + DaysBeforeMonth(y, m) + k
    decreases 12 - m
  {
    if k <= DaysInMonth(y, m) then Date(y, m, k)
    else
      DaysBeforeMonthStep(y, m);
      LocateInYear(y, m + 1, k - DaysInMonth(y, m))
  }

  /** The date at (1-based) day `k` counted from the first day of year `y`. */
  function Locate(y: int, k: int): (d: Date)
    requires y >= 1 && k >= 1
    ensures ValidDate(d) && d.year >= y
    ensures ToOrdinal(d) == DaysBeforeYear(y) + k
    decreases k
  {
    if k <= DaysInYear(y) then LocateInYear(y, 1, k)
    else
      DaysBeforeYearStep(y);
      Locate(y + 1, k - DaysInYear(y))
  }

  /** Python's `date.fromordinal(n)`: ToOrdinal is its inverse. */
  function FromOrdinal(n: DateOrdinal): (d: Date)
    ensures ValidDate(d) && d.year <= MaxYear
    ensures ToOrdinal(d) == n
  {
    var d := Locate(1, n);
    if d.year > MaxYear then
      DaysBeforeYearMonotone(MaxYear + 1, d.year);
      assert false;
      d
    else d
  }

  /** The day a valid date is on lies inside its own year's range of ordinals. */
  lemma OrdinalWithinYear(d: Date)
    requires ValidDate(d)
    ensures DaysBeforeYear(d.year) < ToOrdinal(d) <= DaysBeforeYear(d.year + 1)
  {
    DaysBeforeYearStep(d.year);
  }

  lemma MonthsOrdered(y: int, m1: int, m2: int)
    requires 1 <= m1 < m2 <= 12
    ensures DaysBeforeMonth(y, m1) + DaysInMonth(y, m1) <= DaysBeforeMonth(y, m2)
  {
  }

  /** Different valid dates have different ordinals. */
  lemma ToOrdinalInjective(d1: Date, d2: Date)
    requires ValidDate(d1) && ValidDate(d2) && ToOrdinal(d1) == ToOrdinal(d2)
    ensures d1 == d2
  {
    OrdinalWithinYear(d1);
    OrdinalWithinYear(d2);
    if d1.year < d2.year {
      DaysBeforeYearMonotone(d1.year + 1, d2.year);
    } else if d2.year < d1.year {
      DaysBeforeYearMonotone(d2.year + 1, d1.year);
    }
    assert d1.year == d2.year;
    if d1.month < d2.month {
      MonthsOrdered(d1.year, d1.month, d2.month);
    } else if d2.month < d1.month {
      MonthsOrdered(d1.year, d2.month, d1.month);
    }
  }

  /** FromOrdinal and ToOrdinal are mutually inverse on the dates Python can hold. */
  lemma FromOrdinalOfToOrdinal(d: Date)
    requires ValidDate(d) && d.year <= MaxYear
    ensures 1 <= ToOrdinal(d) <= MaxOrdinal
    ensures FromOrdinal(ToOrdinal(d)) == d
  {
    OrdinalWithinYear(d);
    DaysBeforeYearMonotone(d.year + 1, MaxYear + 1);
    ToOrdinalInjective(FromOrdinal(ToOrdinal(d)), d);
  }

  /** Python's `str(d)` / `d.isoformat()`: `"%04d-%02d-%02d"`. */
  function FormatDate(d: Date): (s: string)
    requires ValidDate(d) && d.year <= MaxYear
    ensures |s| == 10 && s[4] == '-' && s[7] == '-'
    ensures AllDigits(s[..4]) && AllDigits(s[5..7]) && AllDigits(s[8..])
  {
    var s := NatToDigits(d.year, 4) + "-" + NatToDigits(d.month, 2) + "-" + NatToDigits(d.day, 2);
    assert s[..4] == NatToDigits(d.year, 4);
    assert s[5..7] == NatToDigits(d.month, 2);
    assert s[8..] == NatToDigits(d.day, 2);
    s
  }

  /** Reads a `YYYY-MM-DD` string back into its three fields. */
  function ParseFullDate(s: string): Date
    requires |s| == 10 && AllDigits(s[..4]) && AllDigits(s[5..7]) && AllDigits(s[8..])
  {
    Date(DigitsToNat(s[..4]), DigitsToNat(s[5..7]), DigitsToNat(s[8..]))
  }

  lemma FormatDateRoundTrip(d: Date)
    requires ValidDate(d) && d.year <= MaxYear
    ensures ParseFullDate(FormatDate(d)) == d
  {
    var s := FormatDate(d);
    assert s[..4] == NatToDigits(d.year, 4);
    assert s[5..7] == NatToDigits(d.month, 2);
    assert s[8..] == NatToDigits(d.day, 2);
    NatToDigitsRoundTrip(d.year, 4);
    NatToDigitsRoundTrip(d.month, 2);
    NatToDigitsRoundTrip(d.day, 2);
  }

  /** The text of the date with ordinal `n`, as a page token is rendered in a request. */
  function DateText(n: DateOrdinal): (s: string)
    ensures |s| == 10 && ':' !in s
  {
    var s := FormatDate(FromOrdinal(n));
    assert forall i :: 0 <= i < 4 ==> s[i] == s[..4][i];
    assert forall i :: 5 <= i < 7 ==> s[i] == s[5..7][i - 5];
    assert forall i :: 8 <= i < 10 ==> s[i] == s[8..][i - 8];
    s
  }

  /** Different days never share a text: the rendering is injective on ordinals. */
  lemma DateTextInjective(a: DateOrdinal, b: DateOrdinal)
    requires DateText(a) == DateText(b)
    ensures a == b
  {
    FormatDateRoundTrip(FromOrdinal(a));
    FormatDateRoundTrip(FromOrdinal(b));
  }

  lemma DateTextDistinct(a: DateOrdinal, b: DateOrdinal)
    requires a != b
    ensures DateText(a) != DateText(b)
  {
    if DateText(a) == DateText(b) {
      DateTextInjective(a, b);
    }
  }

  /** 2021-05-01 is day 737911 and renders as "2021-05-01". */
  lemma ExampleDate()
    ensures ToOrdinal(Date(2021, 5, 1)) == 737911
    ensures FormatDate(Date(2021, 5, 1)) == "2021-05-01"
  {
    assert NatToDigits(2, 1) == "2";
    assert NatToDigits(20, 2) == "20";
    assert NatToDigits(202, 3) == "202";
    assert NatToDigits(2021, 4) == "2021";
    assert NatToDigits(5, 2) == "05";
    assert NatToDigits(1, 2) == "01";
  }
}
