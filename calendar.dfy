/**
 * Python's proleptic Gregorian `datetime.date`, represented by its ordinal
 * (`date.toordinal()`: 0001-01-01 is day 1).  Subtracting a `timedelta` of
 * whole days is subtraction on ordinals; this module supplies the weekday,
 * the conversion to year/month/day and the ISO text `YYYY-MM-DD`.
 */
module Calendar {
  import opened Text

  const MaxYear := 9999
  /** `date(9999, 12, 31).toordinal()`, Python's `date.max`. */
  const MaxOrdinal := 3652059

  /** A value Python's `date` can hold; leaving this range raises OverflowError. */
  type Ordinal = n: int | 1 <= n <= MaxOrdinal witness 1

  datatype Civil = Civil(year: int, month: int, day: int)

  predicate IsLeap(y: int)
  {
    y % 4 == 0 && (y % 100 != 0 || y % 400 == 0)
  }

  function DaysInYear(y: int): int
  {
    if IsLeap(y) then 366 else 365
  }

  function DaysInMonth(y: int, m: int): int
    requires 1 <= m <= 12
  {
    if m == 2 then (if IsLeap(y) then 29 else 28)
    else if m == 4 || m == 6 || m == 9 || m == 11 then 30
    else 31
  }

  /** Python's `_days_before_year`: days in the years before `y`. */
  function DaysBeforeYear(y: int): int
  {
    var p := y - 1;
    p * 365 + p / 4 - p / 100 + p / 400
  }

  /** Python's `_days_before_month`: days in the months of year `y` before `m`. */
  function DaysBeforeMonth(y: int, m: int): int
    requires 1 <= m <= 12
  {
    [0, 31, 59, 90, 120, 151, 181, 212, 243, 273, 304, 334][m - 1]
      + (if m > 2 && IsLeap(y) then 1 else 0)
  }

  predicate Valid(c: Civil)
  {
    1 <= c.year <= MaxYear && 1 <= c.month <= 12 && 1 <= c.day <= DaysInMonth(c.year, c.month)
  }

  /** Python's `_ymd2ord`. */
  function ToOrdinal(c: Civil): int
    requires 1 <= c.month <= 12
  {
    DaysBeforeYear(c.year) + DaysBeforeMonth(c.year, c.month) + c.day
  }

  /** The closed form of `_days_before_year` adds exactly one year's length per year. */
  lemma DaysBeforeNextYear(y: int)
    requires y >= 1
    ensures DaysBeforeYear(y + 1) == DaysBeforeYear(y) + DaysInYear(y)
  {
    CountStep4(y);
    CountStep100(y);
    CountStep400(y);
    LeapCount(y);
    assert DaysBeforeYear(y + 1) == y * 365 + y / 4 - y / 100 + y / 400;
    assert DaysBeforeYear(y) == (y - 1) * 365 + (y - 1) / 4 - (y - 1) / 100 + (y - 1) / 400;
  }

  /** A year's length counts its divisibility by 4, 100 and 400. */
  lemma LeapCount(y: int)
    ensures DaysInYear(y)
      == 365 + (if y % 4 == 0 then 1 else 0) - (if y % 100 == 0 then 1 else 0) + (if y % 400 == 0 then 1 else 0)
  {
    if y % 400 == 0 {
      assert y == 100 * (4 * (y / 400));
    }
    if y % 100 == 0 {
      assert y == 4 * (25 * (y / 100));
    }
  }

  /** Passing year `y` adds one to the count of multiples of 4 (100, 400) exactly when it is one. */
  lemma CountStep4(y: int)
    ensures y / 4 - (y - 1) / 4 == if y % 4 == 0 then 1 else 0
  {
  }

  lemma CountStep100(y: int)
    ensures y / 100 - (y - 1) / 100 == if y % 100 == 0 then 1 else 0
  {
  }

  lemma CountStep400(y: int)
    ensures y / 400 - (y - 1) / 400 == if y % 400 == 0 then 1 else 0
  {
  }

  lemma DaysBeforeNextMonth(y: int, m: int)
    requires 1 <= m < 12
    ensures DaysBeforeMonth(y, m + 1) == DaysBeforeMonth(y, m) + DaysInMonth(y, m)
  {
  }

  /** Years from 10000 on start after Python's last representable day. */
  lemma {:induction false} DaysBeforeLateYear(y: int)
    requires y >= 10000
    ensures DaysBeforeYear(y) >= MaxOrdinal
    decreases y
  {
    if y > 10000 {
      DaysBeforeLateYear(y - 1);
      DaysBeforeNextYear(y - 1);
    }
  }

  /** Walks the months of year `y` from `m` on, consuming `k` days. */
  function MonthOf(y: int, m: int, k: int): (c: Civil)
    requires 1 <= m <= 12 && 1 <= k
    requires DaysBeforeMonth(y, m) + k <= DaysInYear(y)
    ensures c.year == y && m <= c.month <= 12 && 1 <= c.day <= DaysInMonth(y, c.month)
    ensures DaysBeforeMonth(y, c.month) + c.day == DaysBeforeMonth(y, m) + k
    decreases 12 - m
  {
    if k <= DaysInMonth(y, m) then Civil(y, m, k)
    else
      DaysBeforeNextMonth(y, m);
      MonthOf(y, m + 1, k - DaysInMonth(y, m))
  }

  /** Walks the years from `y` on, consuming `k` days. */
  function YearOf(y: int, k: int): (c: Civil)
    requires 1 <= y && 1 <= k
    ensures y <= c.year && 1 <= c.month <= 12 && 1 <= c.day <= DaysInMonth(c.year, c.month)
    ensures ToOrdinal(c) == DaysBeforeYear(y) + k
    decreases k
  {
    if k <= DaysInYear(y) then MonthOf(y, 1, k)
    else
      DaysBeforeNextYear(y);
      YearOf(y + 1, k - DaysInYear(y))
  }

  /** Python's `date.fromordinal`: the calendar date of an ordinal, a left inverse of ToOrdinal. */
  function FromOrdinal(n: Ordinal): (c: Civil)
    ensures Valid(c)
    ensures ToOrdinal(c) == n
  {
    var c := YearOf(1, n);
    if c.year > MaxYear then
      DaysBeforeLateYear(c.year);
      assert false;
      c
    else c
  }

  /** Distinct days have distinct calendar dates. */
  lemma FromOrdinalInjective(a: Ordinal, b: Ordinal)
    requires FromOrdinal(a) == FromOrdinal(b)
    ensures a == b
  {
    assert a == ToOrdinal(FromOrdinal(a));
  }

  /** Python's `date.weekday()`: Monday is 0 and Sunday 6. */
  function Weekday(n: int): (w: int)
    ensures 0 <= w <= 6
  {
    (n + 6) % 7
  }

  const Monday := 0
  const Thursday := 3
  const Friday := 4
  const Saturday := 5

  /** Python's `date.isoformat()` and `strftime('%Y-%m-%d')`: `YYYY-MM-DD`. */
  function Iso(c: Civil): (s: string)
    requires Valid(c)
    ensures |s| == 10 && s[4] == '-' && s[7] == '-'
  {
    Pad(c.year, 4) + "-" + Pad(c.month, 2) + "-" + Pad(c.day, 2)
  }

  /** Reads `YYYY-MM-DD` back into its three numbers. */
  function ParseIso(s: string): Civil
    requires |s| == 10
  {
    Civil(Value(s[..4]), Value(s[5..7]), Value(s[8..]))
  }

  /** The ISO text of a date reads back as that date. */
  lemma IsoRoundTrip(c: Civil)
    requires Valid(c)
    ensures ParseIso(Iso(c)) == c
  {
    var s := Iso(c);
    assert s[..4] == Pad(c.year, 4);
    assert s[5..7] == Pad(c.month, 2);
    assert s[8..] == Pad(c.day, 2);
    PadValue(c.year, 4);
    PadValue(c.month, 2);
    PadValue(c.day, 2);
  }

  /** The ISO text of a day determines the day. */
  lemma IsoOfOrdinalInjective(a: Ordinal, b: Ordinal)
    requires Iso(FromOrdinal(a)) == Iso(FromOrdinal(b))
    ensures a == b
  {
    IsoRoundTrip(FromOrdinal(a));
    IsoRoundTrip(FromOrdinal(b));
    FromOrdinalInjective(a, b);
  }
}
