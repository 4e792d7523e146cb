// Day counts as calendar dates (`fmt_date`, crates/channelserver/src/webui.rs).

module Calendar {
  /** Month and day count from one. */
  datatype Date = Date(year: int, month: int, day: int)

  /** The leap rule of Appendix C of RFC 3339. */
  predicate Leap(y: int) { (y % 4 == 0 && y % 100 != 0) || y % 400 == 0 }

  function YearDays(y: int): int { if Leap(y) then 366 else 365 }

  const LENGTHS: seq<int> := [31, 28, 31, 30, 31, 30, 31, 31, 30, 31, 30, 31]

  function MonthDays(y: int, m: int): int {
    if m == 2 && Leap(y) then 29 else if 1 <= m <= 12 then LENGTHS[m - 1] else 0
  }

  predicate Valid(t: Date) { t.year >= 1970 && 1 <= t.month <= 12 && 1 <= t.day <= MonthDays(t.year, t.month) }

  // ── closed form ───────────────────────────────────────────────────────

  /** Days of the years before `y`, counted from 1970. */
  function BeforeYear(y: int): int { 365 * (y - 1970) + ((y - 1) / 4 - (y - 1) / 100 + (y - 1) / 400) - 477 }

  /** Days of the year before month `m`. */
  function BeforeMonth(y: int, m: int): int {
    (if m <= 1 then 0 else if m == 2 then 31 else if m == 3 then 59 else if m == 4 then 90 else if m == 5 then 120
     else if m == 6 then 151 else if m == 7 then 181 else if m == 8 then 212 else if m == 9 then 243
     else if m == 10 then 273 else if m == 11 then 304 else if m == 12 then 334 else 365)
    + if m > 2 && Leap(y) then 1 else 0
  }

  /** How many days a date lies after 1 January 1970. */
  function DayNumber(t: Date): int { BeforeYear(t.year) + BeforeMonth(t.year, t.month) + t.day - 1 }

  lemma YearStep(y: int)
    ensures BeforeYear(y + 1) == BeforeYear(y) + YearDays(y)
  {
    assert y / 4 == (y - 1) / 4 + if y % 4 == 0 then 1 else 0;
    assert y / 100 == (y - 1) / 100 + if y % 100 == 0 then 1 else 0;
    assert y / 400 == (y - 1) / 400 + if y % 400 == 0 then 1 else 0;
    Multiples(y);
    StepOf(y, (y - 1) / 4, (y - 1) / 100, (y - 1) / 400);
  }

  lemma Multiples(y: int)
    ensures y % 400 == 0 ==> y % 100 == 0
    ensures y % 100 == 0 ==> y % 4 == 0
  {
  }

  /** The leap days counted up to year `y`, from those counted before it. */
  lemma StepOf(y: int, a: int, b: int, c: int)
    requires (y % 400 == 0 ==> y % 100 == 0) && (y % 100 == 0 ==> y % 4 == 0)
    ensures (a + if y % 4 == 0 then 1 else 0) - (b + if y % 100 == 0 then 1 else 0) + (c + if y % 400 == 0 then 1 else 0)
            == a - b + c + YearDays(y) - 365
  {
  }

  lemma MonthStep(y: int, m: int)
    requires 1 <= m <= 12
    ensures BeforeMonth(y, m + 1) == BeforeMonth(y, m) + MonthDays(y, m) && BeforeMonth(y, 13) == YearDays(y)
  {
  }

  // ── the conversion ────────────────────────────────────────────────────

  /**
   * For every day count from 0 on, the one valid date with that number. A negative
   * count is not carried into 1969 but left in the day of January 1970.
   */
  method FmtDate(days: int) returns (t: Date)
    ensures days >= 0 ==> Valid(t) && DayNumber(t) == days
    ensures days < 0 ==> t == Date(1970, 1, days + 1)
    ensures Valid(t) <==> days >= 0
  {
    var y := 1970;
    var d := days;
    while true
      invariant y >= 1970 && BeforeYear(y) + d == days
      invariant days >= 0 ==> d >= 0
      invariant days < 0 ==> y == 1970
      decreases d
    {
      var dy := if (y % 4 == 0 && y % 100 != 0) || y % 400 == 0 then 366 else 365;
      if d < dy {
        break;
      }
      YearStep(y);
      d := d - dy;
      y := y + 1;
    }
    var months := [31, if (y % 4 == 0 && y % 100 != 0) || y % 400 == 0 then 29 else 28, 31, 30, 31, 30, 31, 31, 30, 31, 30, 31];
    assert forall k :: 0 <= k < 12 ==> months[k] == MonthDays(y, k + 1);
    ghost var inYear := d;
    var m := 0;
    while d >= months[m]
      invariant 0 <= m < 12 && BeforeMonth(y, m + 1) + d == inYear < YearDays(y)
      invariant days >= 0 ==> d >= 0
      invariant days < 0 ==> m == 0 && y == 1970
      decreases d
    {
      MonthStep(y, m + 1);
      MonthStep(y, 12);
      d := d - months[m];
      m := m + 1;
    }
    t := Date(y, m + 1, d + 1);
  }

  // ── what the closed form tells apart ──────────────────────────────────

  predicate Earlier(s: Date, t: Date) {
    s.year < t.year || (s.year == t.year && (s.month < t.month || (s.month == t.month && s.day < t.day)))
  }

  lemma {:induction false} YearsGrow(y: int, z: int)
    requires y < z
    ensures BeforeYear(y) + YearDays(y) <= BeforeYear(z)
    decreases z - y
  {
    YearStep(y);
    if y + 1 < z { YearsGrow(y + 1, z); }
  }

  lemma {:induction false} MonthsGrow(y: int, m: int, n: int)
    requires 1 <= m < n <= 13
    ensures BeforeMonth(y, m) + MonthDays(y, m) <= BeforeMonth(y, n)
    decreases n - m
  {
  }

  lemma EarlierIsLess(s: Date, t: Date)
    requires Valid(s) && Valid(t) && Earlier(s, t)
    ensures DayNumber(s) < DayNumber(t)
  {
    MonthsGrow(s.year, s.month, 13);
    MonthStep(s.year, 12);
    if s.year < t.year {
      YearsGrow(s.year, t.year);
    } else if s.month < t.month {
      MonthsGrow(s.year, s.month, t.month);
    }
  }

  /**
   * Day numbers order valid dates as the calendar does. So the date of a day count
   * is unique, and later counts give later dates.
   */
  lemma DayNumberOrders(s: Date, t: Date)
    requires Valid(s) && Valid(t)
    ensures DayNumber(s) < DayNumber(t) <==> Earlier(s, t)
    ensures DayNumber(s) == DayNumber(t) <==> s == t
  {
    if Earlier(s, t) {
      EarlierIsLess(s, t);
    } else if s != t {
      EarlierIsLess(t, s);
    }
  }
}
