/**
 * Dates and instants as the pipeline uses Python's date/datetime. Every
 * timestamp in the system carries the offset +08:00, so an instant is the
 * number of seconds since 0001-01-01T00:00:00+08:00 and the wall clock at
 * +08:00 is read off it directly.
 */
module Calendar {
  import opened Common
  import opened Text

  datatype CivilDate = CivilDate(year: int, month: int, day: int)

  predicate IsLeap(y: int) {
    y % 4 == 0 && (y % 100 != 0 || y % 400 == 0)
  }

  function DaysInMonth(y: int, m: int): (n: int)
    requires 1 <= m <= 12
    ensures 28 <= n <= 31
  {
    if m == 2 then (if IsLeap(y) then 29 else 28)
    else if m == 4 || m == 6 || m == 9 || m == 11 then 30
    else 31
  }

  /** A proleptic Gregorian date from year 1 on. */
  predicate WellFormed(d: CivilDate) {
    d.year >= 1 && 1 <= d.month <= 12 && 1 <= d.day <= DaysInMonth(d.year, d.month)
  }

  const MaxYear := 9999

  /** What Python's date(year, month, day) accepts (MINYEAR is 1, MAXYEAR is 9999). */
  predicate IsPythonDate(d: CivilDate) {
    WellFormed(d) && d.year <= MaxYear
  }

  function DaysBeforeYear(y: int): (n: int)
    requires y >= 1
    ensures n >= 0
  {
    var p := y - 1;
    365 * p + p / 4 - p / 100 + p / 400
  }

  function DaysBeforeMonth(y: int, m: int): (n: int)
    requires 1 <= m <= 12
  {
    [0, 31, 59, 90, 120, 151, 181, 212, 243, 273, 304, 334][m - 1] + (if m > 2 && IsLeap(y) then 1 else 0)
  }

  /** Python's date.toordinal(): 0001-01-01 is day 1. */
  function OrdinalOf(d: CivilDate): (n: int)
    requires WellFormed(d)
    ensures n >= 1
  {
    DaysBeforeYear(d.year) + DaysBeforeMonth(d.year, d.month) + d.day
  }

  /** The ordinal of 9999-12-31, the last date Python represents. */
  const MaxOrdinal := 3652059

  /** The date after `d`: date + timedelta(days=1). */
  function NextDay(d: CivilDate): (r: CivilDate)
    requires WellFormed(d)
    ensures WellFormed(r)
  {
    if d.day < DaysInMonth(d.year, d.month) then CivilDate(d.year, d.month, d.day + 1)
    else if d.month < 12 then CivilDate(d.year, d.month + 1, 1)
    else CivilDate(d.year + 1, 1, 1)
  }

  /** Euclidean division is determined by its quotient/remainder equation. */
  lemma DivisionUnique(x: int, k: int, q: int, r: int)
    requires k > 0 && x == k * q + r && 0 <= r < k
    ensures x / k == q
  {
    var q', r' := x / k, x % k;
    assert x == k * q' + r';
    if q' < q {
      MultiplyMonotone(k, q' + 1, q);
      assert false;
    } else if q < q' {
      MultiplyMonotone(k, q + 1, q');
      assert false;
    }
  }

  lemma MultiplyMonotone(k: int, a: int, b: int)
    requires k > 0 && a <= b
    ensures k * a <= k * b
  {
    assert k * b - k * a == k * (b - a);
  }

  lemma DivStep(x: int, k: int)
    requires x >= 0 && k > 0
    ensures (x + 1) / k == x / k + (if (x + 1) % k == 0 then 1 else 0)
  {
    var q, r := x / k, x % k;
    assert x == k * q + r && 0 <= r < k;
    if r == k - 1 {
      DivisionUnique(x + 1, k, q + 1, 0);
      assert (x + 1) % k == 0;
    } else {
      DivisionUnique(x + 1, k, q, r + 1);
      assert (x + 1) % k == r + 1;
    }
  }

  lemma {:induction false} DaysInYear(y: int)
    requires y >= 1
    ensures DaysBeforeYear(y + 1) == DaysBeforeYear(y) + (if IsLeap(y) then 366 else 365)
  {
    DivStep(y - 1, 4);
    DivStep(y - 1, 100);
    DivStep(y - 1, 400);
    assert y % 400 == 0 ==> y % 100 == 0 && y % 4 == 0;
    assert y % 100 == 0 ==> y % 4 == 0;
  }

  lemma MonthStep(y: int, m: int)
    requires 1 <= m < 12
    ensures DaysBeforeMonth(y, m + 1) == DaysBeforeMonth(y, m) + DaysInMonth(y, m)
  {
  }

  /** Moving to the next date adds exactly one to the ordinal. */
  lemma {:induction false} NextDayOrdinal(d: CivilDate)
    requires WellFormed(d)
    ensures OrdinalOf(NextDay(d)) == OrdinalOf(d) + 1
  {
    if d.day < DaysInMonth(d.year, d.month) {
    } else if d.month < 12 {
      MonthStep(d.year, d.month);
    } else {
      DaysInYear(d.year);
    }
  }

  /** Python's date.fromordinal(n): the date `n - 1` days after 0001-01-01. */
  function CivilFromOrdinal(n: int): (d: CivilDate)
    requires n >= 1
    ensures WellFormed(d) && OrdinalOf(d) == n
    decreases n
  {
    if n == 1 then CivilDate(1, 1, 1)
    else
      var p := CivilFromOrdinal(n - 1);
      NextDayOrdinal(p);
      NextDay(p)
  }

  lemma {:induction false} DaysBeforeYearMonotone(y1: int, y2: int)
    requires 1 <= y1 <= y2
    ensures DaysBeforeYear(y1) + 365 * (y2 - y1) <= DaysBeforeYear(y2)
    decreases y2 - y1
  {
    if y1 < y2 {
      DaysBeforeYearMonotone(y1, y2 - 1);
      DaysInYear(y2 - 1);
    }
  }

  lemma {:induction false} MonthsMonotone(y: int, m1: int, m2: int)
    requires 1 <= m1 < m2 <= 12
    ensures DaysBeforeMonth(y, m1) + DaysInMonth(y, m1) <= DaysBeforeMonth(y, m2)
    decreases m2 - m1
  {
    MonthStep(y, m1);
    if m1 + 1 < m2 {
      MonthsMonotone(y, m1 + 1, m2);
    }
  }

  /** A date's ordinal lies among the ordinals of its own year. */
  lemma OrdinalWithinYear(d: CivilDate)
    requires WellFormed(d)
    ensures DaysBeforeYear(d.year) < OrdinalOf(d) <= DaysBeforeYear(d.year + 1)
  {
    DaysInYear(d.year);
    if d.month < 12 {
      MonthsMonotone(d.year, d.month, 12);
    }
  }

  /** Different dates have different ordinals. */
  lemma OrdinalInjective(a: CivilDate, b: CivilDate)
    requires WellFormed(a) && WellFormed(b)
    requires OrdinalOf(a) == OrdinalOf(b)
    ensures a == b
  {
    OrdinalWithinYear(a);
    OrdinalWithinYear(b);
    if a.year < b.year {
      DaysBeforeYearMonotone(a.year + 1, b.year);
      assert false;
    } else if b.year < a.year {
      DaysBeforeYearMonotone(b.year + 1, a.year);
      assert false;
    } else if a.month < b.month {
      MonthsMonotone(a.year, a.month, b.month);
      assert false;
    } else if b.month < a.month {
      MonthsMonotone(a.year, b.month, a.month);
      assert false;
    }
  }

  /** fromordinal undoes toordinal. */
  lemma FromOrdinalOf(d: CivilDate)
    requires WellFormed(d)
    ensures CivilFromOrdinal(OrdinalOf(d)) == d
  {
    OrdinalInjective(CivilFromOrdinal(OrdinalOf(d)), d);
  }

  /** The dates Python can represent are exactly those with ordinal at most MaxOrdinal. */
  lemma PythonDateOrdinal(d: CivilDate)
    requires WellFormed(d)
    ensures IsPythonDate(d) <==> OrdinalOf(d) <= MaxOrdinal
  {
    OrdinalWithinYear(d);
    assert DaysBeforeYear(MaxYear + 1) == MaxOrdinal;
    if d.year <= MaxYear {
      DaysBeforeYearMonotone(d.year + 1, MaxYear + 1);
    } else {
      DaysBeforeYearMonotone(MaxYear + 1, d.year);
    }
  }

  const SecondsPerDay := 86400

  /** The instant of midnight (+08:00) at the start of `d`. */
  function DayStart(d: CivilDate): int
    requires WellFormed(d)
  {
    (OrdinalOf(d) - 1) * SecondsPerDay
  }

  /** The instant of `d` at `seconds` after midnight: "<d>T<hh:mm:ss>+08:00". */
  function InstantOf(d: CivilDate, seconds: int): int
    requires WellFormed(d)
  {
    DayStart(d) + seconds
  }

  /** The instants an aware datetime can hold: 0001-01-01T00:00:00 to 9999-12-31T23:59:59 local. */
  predicate InDatetimeRange(t: int) {
    0 <= t < MaxOrdinal * SecondsPerDay
  }

  /** datetime.date(): the calendar date (at +08:00) of an instant. */
  function DateOf(t: int): (d: CivilDate)
    requires t >= 0
    ensures WellFormed(d) && OrdinalOf(d) == t / SecondsPerDay + 1
  {
    CivilFromOrdinal(t / SecondsPerDay + 1)
  }

  /** An instant lies within the day that DateOf names for it. */
  lemma DateOfBounds(t: int)
    requires t >= 0
    ensures DayStart(DateOf(t)) <= t < DayStart(DateOf(t)) + SecondsPerDay
  {
    var q := t / SecondsPerDay;
    assert DayStart(DateOf(t)) == q * SecondsPerDay;
  }

  /** An instant built from a date and a time of day lies on that date. */
  lemma DateOfInstant(d: CivilDate, seconds: int)
    requires WellFormed(d) && 0 <= seconds < SecondsPerDay
    ensures DateOf(InstantOf(d, seconds)) == d
  {
    var n := OrdinalOf(d);
    var t := InstantOf(d, seconds);
    assert t == SecondsPerDay * (n - 1) + seconds;
    DivisionUnique(t, SecondsPerDay, n - 1, seconds);
    OrdinalInjective(DateOf(t), d);
  }

  /**
   * The seconds after midnight that fromisoformat reads from "<token>:00":
   * the token is "HH:MM" or "HH" with two ASCII digits per field. None stands
   * for ValueError.
   */
  function ParseClock(token: string): (r: Option<nat>)
    ensures r.Some? ==> r.value < SecondsPerDay && r.value % 60 == 0
  {
    if |token| == 5 && AllDigits(token[..2]) && token[2] == ':' && AllDigits(token[3..]) then
      var h, m := DigitsValue(token[..2]), DigitsValue(token[3..]);
      if h < 24 && m < 60 then Some(h * 3600 + m * 60) else None
    else if |token| == 2 && AllDigits(token) then
      var h := DigitsValue(token);
      if h < 24 then Some(h * 3600) else None
    else
      None
  }

  /** The "HH:MM" text of a time of day. */
  function ClockText(h: nat, m: nat): string {
    Padded(h, 2) + ":" + Padded(m, 2)
  }

  /** Every "HH:MM" the airport prints is read back as that time of day. */
  lemma ParseClockText(h: nat, m: nat)
    requires h < 24 && m < 60
    ensures ParseClock(ClockText(h, m)) == Some(h * 3600 + m * 60)
  {
    var hh, mm := Padded(h, 2), Padded(m, 2);
    PaddedWidth(h, 2);
    PaddedWidth(m, 2);
    DigitsValueOfPadded(h, 2);
    DigitsValueOfPadded(m, 2);
    var t := ClockText(h, m);
    assert t[..2] == hh && t[3..] == mm && t[2] == ':';
  }

  /** Python's date.isoformat(): "YYYY-MM-DD". */
  function IsoFormat(d: CivilDate): string
    requires WellFormed(d)
  {
    Padded(d.year, 4) + "-" + Padded(d.month, 2) + "-" + Padded(d.day, 2)
  }
}
