/**
 * The Bikram Sambat (BS) calendar as the converter tabulates it: the month-length
 * table for BS years 2056..2090, and the position of a BS date, i.e. the number of
 * days from the start of 2056 up to and including that date. Every property of the
 * conversions is stated through positions.
 */
module Calendar {

  /** The length of one BS month; every entry of the table lies in 29..32. */
  type DayCount = n: int | 29 <= n <= 32 witness 30

  /** The twelve month lengths (Baisakh .. Chaitra) of one BS year. */
  type YearRow = r: seq<DayCount> | |r| == 12 witness [30, 30, 30, 30, 30, 30, 30, 30, 30, 30, 30, 30]

  /** The BS year of the table's first row. */
  const FirstYear := 2056

  /** Days in each month of each tabulated BS year, one row per year from FirstYear on. */
  const MonthDays: seq<YearRow> := [
    [31, 31, 32, 32, 31, 30, 30, 29, 30, 29, 30, 30], // 2056
    [31, 31, 32, 32, 31, 30, 30, 29, 30, 29, 30, 30], // 2057
    [31, 32, 31, 32, 31, 30, 30, 30, 29, 29, 30, 31], // 2058
    [30, 32, 31, 32, 31, 30, 30, 30, 29, 30, 29, 31], // 2059
    [31, 31, 32, 31, 31, 31, 30, 29, 30, 29, 30, 30], // 2060
    [31, 31, 32, 32, 31, 30, 30, 29, 30, 29, 30, 30], // 2061
    [31, 32, 31, 32, 31, 30, 30, 30, 29, 29, 30, 31], // 2062
    [30, 32, 31, 32, 31, 30, 30, 30, 29, 30, 29, 31], // 2063
    [31, 31, 32, 31, 31, 31, 30, 29, 30, 29, 30, 30], // 2064
    [31, 31, 32, 32, 31, 30, 30, 29, 30, 29, 30, 30], // 2065
    [31, 32, 31, 32, 31, 30, 30, 30, 29, 29, 30, 31], // 2066
    [30, 32, 31, 32, 31, 30, 30, 30, 29, 30, 29, 31], // 2067
    [31, 31, 32, 31, 31, 31, 30, 29, 30, 29, 30, 30], // 2068
    [31, 31, 32, 32, 31, 30, 30, 29, 30, 29, 30, 30], // 2069
    [31, 32, 31, 32, 31, 30, 30, 30, 29, 29, 30, 31], // 2070
    [30, 32, 31, 32, 31, 30, 30, 30, 29, 30, 29, 31], // 2071
    [31, 31, 32, 31, 31, 31, 30, 29, 30, 29, 30, 30], // 2072
    [31, 31, 32, 32, 31, 30, 30, 29, 30, 29, 30, 30], // 2073
    [31, 32, 31, 32, 31, 30, 30, 30, 29, 29, 30, 31], // 2074
    [30, 32, 31, 32, 31, 30, 30, 30, 29, 30, 29, 31], // 2075
    [31, 31, 32, 31, 31, 31, 30, 29, 30, 29, 30, 30], // 2076
    [31, 31, 32, 32, 31, 30, 30, 29, 30, 29, 30, 30], // 2077
    [31, 32, 31, 32, 31, 30, 30, 30, 29, 29, 30, 31], // 2078
    [30, 32, 31, 32, 31, 30, 30, 30, 29, 30, 29, 31], // 2079
    [31, 31, 32, 31, 31, 31, 30, 29, 30, 29, 30, 30], // 2080
    [31, 31, 32, 32, 31, 30, 30, 29, 30, 29, 30, 30], // 2081
    [31, 32, 31, 32, 31, 30, 30, 30, 29, 29, 30, 31], // 2082
    [30, 32, 31, 32, 31, 30, 30, 30, 29, 30, 29, 31], // 2083
    [31, 31, 32, 31, 31, 31, 30, 29, 30, 29, 30, 30], // 2084
    [31, 31, 32, 32, 31, 30, 30, 29, 30, 29, 30, 30], // 2085
    [31, 32, 31, 32, 31, 30, 30, 30, 29, 29, 30, 31], // 2086
    [30, 32, 31, 32, 31, 30, 30, 30, 29, 30, 29, 31], // 2087
    [31, 31, 32, 31, 31, 31, 30, 29, 30, 29, 30, 30], // 2088
    [31, 31, 32, 32, 31, 30, 30, 29, 30, 29, 30, 30], // 2089
    [31, 32, 31, 32, 31, 30, 30, 30, 29, 29, 30, 31] // 2090
  ]

  /** The first year past the table (2091); its first day is the furthest the walk can reach. */
  const EndYear := FirstYear + |MonthDays|

  datatype BsDate = BsDate(year: int, month: int, day: int)

  /** 2091-01-01, the day after the last tabulated day. */
  const EndDate := BsDate(EndYear, 1, 1)

  predicate InTable(y: int) {
    FirstYear <= y < EndYear
  }

  function Row(y: int): YearRow
    requires InTable(y)
  {
    MonthDays[y - FirstYear]
  }

  function DaysInMonth(y: int, m: int): DayCount
    requires InTable(y) && 1 <= m <= 12
  {
    Row(y)[m - 1]
  }

  /** A date the table describes: a tabulated year, a month 1..12 and a day inside that month. */
  predicate ValidDate(d: BsDate) {
    InTable(d.year) && 1 <= d.month <= 12 && 1 <= d.day <= DaysInMonth(d.year, d.month)
  }

  /** The dates that have a position: the tabulated dates and EndDate. */
  predicate Positioned(d: BsDate) {
    ValidDate(d) || d == EndDate
  }

  /** Chronological order of BS dates: by year, then month, then day. */
  predicate Before(a: BsDate, b: BsDate) {
    a.year < b.year || (a.year == b.year && (a.month < b.month || (a.month == b.month && a.day < b.day)))
  }

  /** The sum of some month lengths, added from the left as `reduce((a, b) => a + b, 0)` does. */
  function Total(s: seq<DayCount>): (r: int)
    ensures 29 * |s| <= r <= 32 * |s|
  {
    if s == [] then 0 else Total(s[..|s| - 1]) + s[|s| - 1]
  }

  function YearLength(y: int): int
    requires InTable(y)
  {
    Total(Row(y))
  }

  /** Days of the tabulated years before year y. */
  function DaysBeforeYear(y: int): (r: int)
    requires FirstYear <= y <= EndYear
    ensures r >= 0
    decreases y
  {
    if y == FirstYear then 0 else DaysBeforeYear(y - 1) + YearLength(y - 1)
  }

  /** Days of year y before month m (m == 13 gives the whole year); needs no row for m == 1. */
  function DaysBeforeMonth(y: int, m: int): (r: int)
    requires 1 <= m <= 13 && (m > 1 ==> InTable(y))
    ensures r >= 0
  {
    if m == 1 then 0 else Total(Row(y)[..m - 1])
  }

  /** The position of a date: days from the start of FirstYear up to and including it. */
  function Pos(d: BsDate): (p: int)
    requires Positioned(d)
    ensures p >= d.day >= 1
  {
    DaysBeforeYear(d.year) + DaysBeforeMonth(d.year, d.month) + d.day
  }

  lemma DaysBeforeNextMonth(y: int, m: int)
    requires InTable(y) && 1 <= m <= 12
    ensures DaysBeforeMonth(y, m + 1) == DaysBeforeMonth(y, m) + DaysInMonth(y, m)
  {
    var row := Row(y);
    assert row[..m][..m - 1] == row[..m - 1];
  }

  lemma WholeYear(y: int)
    requires InTable(y)
    ensures DaysBeforeMonth(y, 13) == YearLength(y)
    ensures DaysBeforeYear(y + 1) == DaysBeforeYear(y) + YearLength(y)
  {
    assert Row(y)[..12] == Row(y);
  }

  lemma {:induction false} MonthsMonotone(y: int, m1: int, m2: int)
    requires InTable(y) && 1 <= m1 < m2 <= 13
    ensures DaysBeforeMonth(y, m1) + DaysInMonth(y, m1) <= DaysBeforeMonth(y, m2)
    decreases m2 - m1
  {
    DaysBeforeNextMonth(y, m1);
    if m1 + 1 < m2 {
      MonthsMonotone(y, m1 + 1, m2);
    }
  }

  lemma {:induction false} YearsMonotone(y1: int, y2: int)
    requires FirstYear <= y1 < y2 <= EndYear
    ensures DaysBeforeYear(y1) + YearLength(y1) <= DaysBeforeYear(y2)
    decreases y2
  {
    if y1 + 1 < y2 {
      YearsMonotone(y1, y2 - 1);
    }
  }

  /** A tabulated date lies inside its year, its month and the range before EndDate. */
  lemma PosBounds(d: BsDate)
    requires ValidDate(d)
    ensures DaysBeforeMonth(d.year, d.month) + d.day <= DaysBeforeMonth(d.year, d.month + 1)
    ensures Pos(d) <= DaysBeforeYear(d.year + 1)
  {
    DaysBeforeNextMonth(d.year, d.month);
    if d.month < 12 {
      MonthsMonotone(d.year, d.month + 1, 13);
    }
    WholeYear(d.year);
  }

  lemma DaysBeforeYearMonotone(y1: int, y2: int)
    requires FirstYear <= y1 <= y2 <= EndYear
    ensures DaysBeforeYear(y1) <= DaysBeforeYear(y2)
  {
    if y1 < y2 {
      YearsMonotone(y1, y2);
    }
  }

  lemma EarlierYearPos(a: BsDate, b: BsDate)
    requires Positioned(a) && Positioned(b) && a.year < b.year
    ensures Pos(a) < Pos(b)
  {
    assert ValidDate(a);
    PosBeforeYear(a, b.year);
    assert DaysBeforeYear(b.year) < Pos(b);
  }

  lemma PosBeforeYear(a: BsDate, y: int)
    requires ValidDate(a) && a.year < y <= EndYear
    ensures Pos(a) <= DaysBeforeYear(y)
  {
    var next := a.year + 1;
    assert Pos(a) <= DaysBeforeYear(next) by {
      PosBounds(a);
    }
    assert DaysBeforeYear(next) <= DaysBeforeYear(y) by {
      DaysBeforeYearMonotone(next, y);
    }
  }

  lemma EarlierMonthPos(a: BsDate, b: BsDate)
    requires Positioned(a) && Positioned(b) && a.year == b.year && a.month < b.month
    ensures Pos(a) < Pos(b)
  {
    assert ValidDate(a) && ValidDate(b);
    PosBounds(a);
    if a.month + 1 < b.month {
      MonthsMonotone(a.year, a.month + 1, b.month);
    }
    assert DaysBeforeMonth(a.year, a.month) + a.day <= DaysBeforeMonth(b.year, b.month);
  }

  lemma BeforeImpliesPos(a: BsDate, b: BsDate)
    requires Positioned(a) && Positioned(b) && Before(a, b)
    ensures Pos(a) < Pos(b)
  {
    if a.year < b.year {
      EarlierYearPos(a, b);
    } else if a.month < b.month {
      EarlierMonthPos(a, b);
    }
  }

  /** Positions order dates chronologically, in both directions. */
  lemma BeforeIffPos(a: BsDate, b: BsDate)
    requires Positioned(a) && Positioned(b)
    ensures Before(a, b) <==> Pos(a) < Pos(b)
  {
    if Before(a, b) {
      BeforeImpliesPos(a, b);
    } else if Before(b, a) {
      BeforeImpliesPos(b, a);
    }
  }

  /** A position identifies its date. */
  lemma PosInjective(a: BsDate, b: BsDate)
    requires Positioned(a) && Positioned(b) && Pos(a) == Pos(b)
    ensures a == b
  {
    BeforeIffPos(a, b);
    BeforeIffPos(b, a);
  }

  /** Every position lies in 1..Pos(EndDate). */
  lemma PosRange(d: BsDate)
    requires Positioned(d)
    ensures 1 <= Pos(d) <= Pos(EndDate)
  {
    if d != EndDate {
      BeforeIffPos(d, EndDate);
    }
  }

  /** The year holding position p, searched from year y on. */
  function YearOf(p: int, y: int): (r: int)
    requires FirstYear <= y < EndYear && DaysBeforeYear(y) < p <= DaysBeforeYear(EndYear)
    ensures y <= r < EndYear && DaysBeforeYear(r) < p <= DaysBeforeYear(r + 1)
    decreases EndYear - y
  {
    if p <= DaysBeforeYear(y + 1) then y else YearOf(p, y + 1)
  }

  /** The month of year y holding day q of that year, searched from month m on. */
  function MonthOf(y: int, q: int, m: int): (r: int)
    requires InTable(y) && 1 <= m <= 12 && DaysBeforeMonth(y, m) < q <= DaysBeforeMonth(y, 13)
    ensures m <= r <= 12 && DaysBeforeMonth(y, r) < q <= DaysBeforeMonth(y, r + 1)
    decreases 12 - m
  {
    if q <= DaysBeforeMonth(y, m + 1) then m else MonthOf(y, q, m + 1)
  }

  /** The date at position p: a reference definition by year and month search. */
  function DateAt(p: int): (d: BsDate)
    requires 1 <= p <= Pos(EndDate)
    ensures Positioned(d) && Pos(d) == p
  {
    if p == Pos(EndDate) then EndDate
    else
      var y := YearOf(p, FirstYear);
      WholeYear(y);
      var m := MonthOf(y, p - DaysBeforeYear(y), 1);
      DaysBeforeNextMonth(y, m);
      BsDate(y, m, p - DaysBeforeYear(y) - DaysBeforeMonth(y, m))
  }

  lemma DateAtPos(d: BsDate)
    requires Positioned(d)
    ensures 1 <= Pos(d) <= Pos(EndDate) && DateAt(Pos(d)) == d
  {
    PosRange(d);
    PosInjective(DateAt(Pos(d)), d);
  }

  /** Day 1 of the month after d's month, rolling month 12 over to month 1 of the next year. */
  function FirstOfNextMonth(d: BsDate): BsDate {
    if d.month < 12 then BsDate(d.year, d.month + 1, 1) else BsDate(d.year + 1, 1, 1)
  }

  /** The day after d. */
  function Next(d: BsDate): BsDate
    requires ValidDate(d)
  {
    if d.day < DaysInMonth(d.year, d.month) then BsDate(d.year, d.month, d.day + 1)
    else FirstOfNextMonth(d)
  }

  /** Leaving d's month reaches day 1 of the next month, which lies the rest of the month later. */
  lemma PosRollover(d: BsDate)
    requires ValidDate(d)
    ensures Positioned(FirstOfNextMonth(d))
    ensures Pos(FirstOfNextMonth(d)) == Pos(d) + (DaysInMonth(d.year, d.month) - d.day + 1)
  {
    DaysBeforeNextMonth(d.year, d.month);
    if d.month == 12 {
      WholeYear(d.year);
    }
  }

  /** The day after a tabulated date has the next position. */
  lemma PosNext(d: BsDate)
    requires ValidDate(d)
    ensures Positioned(Next(d)) && Pos(Next(d)) == Pos(d) + 1
  {
    PosRollover(d);
  }
}
