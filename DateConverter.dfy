/**
 * The AD <-> BS converter. An AD date is the number of days after 2000-01-01 AD, the AD
 * side of the anchor; the BS side is 2056-09-17. AD -> BS walks whole months of the table
 * forward from the anchor; BS -> AD sums the table; `IsValidBSDate` checks a date against
 * the table; `FormatBSDate` renders a date in Nepali words.
 */
module DateConverter {
  import opened Calendar
  import opened DateText

  /** An argument that may be absent: null, undefined or another falsy value is None. */
  datatype Option<T> = None | Some(value: T)

  /** The exceptions a conversion can raise. */
  datatype Failure =
    | OutOfRange      // new Error('Date out of supported range')
    | ReferenceError  // reading `bsMonthDays` where no such name is declared
    | TypeError       // indexing the `undefined` that a missing table row reads as

  /** What a call gives back: null, a value, or a thrown exception. */
  datatype Outcome<T> = Null | Value(v: T) | Threw(e: Failure)

  /** The day count BS -> AD adds to 2000-01-01 AD: a whole number of days, or NaN. */
  datatype AdDay = Day(offset: int) | NaNDays

  /** The BS side of the anchor: 2000-01-01 AD is 2056-09-17 BS. */
  const Anchor := BsDate(2056, 9, 17)

  /** The date the BS -> AD sum counts from as written: day `Anchor.day` of month 1 of 2056. */
  const Jan17 := BsDate(2056, 1, 17)

  /** The days of the anchor's year before the anchor's month, which the BS -> AD sum leaves out. */
  const AnchorShift := DaysBeforeMonth(Anchor.year, Anchor.month)

  /** The largest day offset the walk converts: the one that lands on EndDate (2091-01-01). */
  const MaxOffset := Pos(EndDate) - Pos(Anchor)

  /** The position the walk ends on for a day offset: the anchor's, plus the offset if positive. */
  function Target(diffDays: int): int {
    Pos(Anchor) + if diffDays < 0 then 0 else diffDays
  }

  /** The day offset of a BS date from the anchor: negative before it. */
  function AnchorOffset(d: BsDate): int
    requires Positioned(d)
  {
    Pos(d) - Pos(Anchor)
  }

  /**
   * What the AD -> BS walk gives for a day offset: the date that many days after the anchor,
   * the anchor itself for a non-positive offset (the walk never runs backward), and
   * OutOfRange for an offset past EndDate.
   */
  function ToBs(diffDays: int): (r: Outcome<BsDate>)
    ensures diffDays > MaxOffset ==> r == Threw(OutOfRange)
    ensures diffDays <= MaxOffset ==> r.Value? && Positioned(r.v) && Pos(r.v) == Target(diffDays)
  {
    PosRange(Anchor);
    if diffDays > MaxOffset then Threw(OutOfRange)
    else Value(DateAt(Target(diffDays)))
  }

  /** The date at the position the walk aims for is ToBs's date. */
  lemma ToBsAt(d: BsDate, diffDays: int)
    requires Positioned(d) && Pos(d) == Target(diffDays)
    ensures ToBs(diffDays) == Value(d)
  {
    PosRange(d);
    DateAtPos(d);
  }

  /** The walk of convertADToBS: consume whole months from the anchor until no days remain. */
  method WalkFromAnchor(diffDays: int) returns (r: Outcome<BsDate>)
    ensures r == ToBs(diffDays)
    ensures r.Value? ==> Positioned(r.v) && Pos(r.v) == Target(diffDays)
  {
    var bsYear, bsMonth, bsDay := Anchor.year, Anchor.month, Anchor.day;
    var daysCount := diffDays;
    while daysCount > 0
      invariant Positioned(BsDate(bsYear, bsMonth, bsDay))
      invariant Pos(BsDate(bsYear, bsMonth, bsDay)) + daysCount == Pos(Anchor) + diffDays
      invariant daysCount < 0 ==> daysCount == diffDays && BsDate(bsYear, bsMonth, bsDay) == Anchor
      decreases daysCount
    {
      var yearIndex := bsYear - FirstYear;
      if yearIndex >= |MonthDays| {
        // only EndDate lies past the table, and days remain
        assert BsDate(bsYear, bsMonth, bsDay) == EndDate;
        return Threw(OutOfRange);
      }
      ghost var before := BsDate(bsYear, bsMonth, bsDay);
      var daysInMonth := DaysInMonth(bsYear, bsMonth);
      var remainingDays := daysInMonth - bsDay + 1;
      if daysCount >= remainingDays {
        PosRollover(before);
        daysCount := daysCount - remainingDays;
        bsMonth := bsMonth + 1;
        bsDay := 1;
        if bsMonth > 12 {
          bsYear := bsYear + 1;
          bsMonth := 1;
        }
        assert BsDate(bsYear, bsMonth, bsDay) == FirstOfNextMonth(before);
      } else {
        bsDay := bsDay + daysCount;
        daysCount := 0;
      }
    }
    var landed := BsDate(bsYear, bsMonth, bsDay);
    assert Pos(landed) == Target(diffDays);
    ToBsAt(landed, diffDays);
    r := Value(landed);
  }

  /** convertADToBS on a day offset: null for an absent date, else the walk's date formatted. */
  function AdToBs(adDate: Option<int>): (r: Outcome<string>)
    ensures r.Null? <==> adDate.None?
    ensures adDate.Some? && adDate.value > MaxOffset ==> r == Threw(OutOfRange)
    ensures adDate.Some? && adDate.value <= MaxOffset ==> r.Value? && |r.v| >= 7
  {
    if adDate.None? then Null
    else if ToBs(adDate.value).Value? then Value(Format(ToBs(adDate.value).v))
    else Threw(OutOfRange)
  }

  method ConvertADToBS(adDate: Option<int>) returns (r: Outcome<string>)
    ensures r == AdToBs(adDate)
    ensures r.Null? <==> adDate.None?
  {
    if adDate.None? {
      return Null;
    }
    var walked := WalkFromAnchor(adDate.value);
    if walked.Value? {
      r := Value(Format(walked.v));
    } else {
      r := Threw(walked.e);
    }
  }

  /** getCurrentBSDate, with today's day offset passed in instead of read from the clock. */
  method GetCurrentBSDate(today: int) returns (r: Outcome<string>)
    ensures r == AdToBs(Some(today)) && !r.Null?
  {
    r := ConvertADToBS(Some(today));
  }

  /**
   * The day count convertBSToAD adds to 2000-01-01 AD, for the parsed year, month and day.
   * With `tableInScope` false, `bsMonthDays` is undeclared, as in the source; with it true,
   * the table is visible. A NaN anywhere in the sum makes the day count NaN.
   */
  function SummedOffset(tableInScope: bool, year: Num, month: Num, day: Num): (r: Outcome<AdDay>)
    // with the table out of scope, only a date that enters neither loop gets a value
    ensures !tableInScope && r.Value? ==>
      (year.NaN? || year.n <= FirstYear) && (month.NaN? || month.n <= 1)
    // a year past the table always throws, whatever the month and day
    ensures tableInScope && year.Int? && year.n > EndYear ==> r == Threw(OutOfRange)
    // a day count is only ever made from a numeric day
    ensures r.Value? && r.v.Day? ==> day.Int?
  {
    var yearsRun := year.Int? && year.n > FirstYear;  // the loop over whole years runs
    var monthsRun := month.Int? && month.n > 1;       // the loop over whole months runs
    if yearsRun && !tableInScope then Threw(ReferenceError)
    else if yearsRun && year.n > EndYear then Threw(OutOfRange)
    else if monthsRun && !tableInScope then Threw(ReferenceError)
    else if monthsRun && !(year.Int? && InTable(year.n)) then Threw(TypeError)
    else if day.NaN? || (monthsRun && month.n > 13) then Value(NaNDays)
    else
      var years := if yearsRun then DaysBeforeYear(year.n) else 0;
      var months := if monthsRun then DaysBeforeMonth(year.n, month.n) else 0;
      Value(Day(years + months + day.n - Anchor.day))
  }

  /** The days of the whole years from FirstYear up to `year`, or the exception the loop over them raises. */
  function YearsSummed(tableInScope: bool, year: int): (r: Outcome<int>)
    ensures r.Value? <==> year <= FirstYear || (tableInScope && year <= EndYear)
    ensures r.Value? ==> r.v == DaysBeforeYear(if year <= FirstYear then FirstYear else year)
  {
    if year > FirstYear && !tableInScope then Threw(ReferenceError)
    else if year > EndYear then Threw(OutOfRange)
    else Value(if year > FirstYear then DaysBeforeYear(year) else 0)
  }

  /** The loop of convertBSToAD over whole years. */
  method SumYears(tableInScope: bool, year: int) returns (r: Outcome<int>)
    ensures r == YearsSummed(tableInScope, year)
  {
    var totalDays := 0;
    var y := FirstYear;
    while y < year
      invariant FirstYear <= y <= EndYear && (y <= year || y == FirstYear)
      invariant y > FirstYear ==> tableInScope
      invariant totalDays == DaysBeforeYear(y)
    {
      if !tableInScope {
        return Threw(ReferenceError);
      }
      var yearIndex := y - FirstYear;
      if yearIndex >= |MonthDays| {
        assert year > EndYear;
        return Threw(OutOfRange);
      }
      totalDays := totalDays + YearLength(y);
      y := y + 1;
    }
    assert y == if year <= FirstYear then FirstYear else year;
    r := Value(totalDays);
  }

  /** The two summing loops of convertBSToAD and the day term added after them. */
  method SumOffset(tableInScope: bool, year: Num, month: Num, day: Num) returns (r: Outcome<AdDay>)
    ensures r == SummedOffset(tableInScope, year, month, day)
  {
    ghost var yearsRun := year.Int? && year.n > FirstYear;
    ghost var monthsRun := month.Int? && month.n > 1;
    var totalDays := 0;
    if year.Int? {
      var summed := SumYears(tableInScope, year.n);
      if summed.Threw? {
        return Threw(summed.e);
      }
      totalDays := summed.v;
    }
    ghost var years := totalDays;
    assert years == if yearsRun then DaysBeforeYear(year.n) else 0;
    assert yearsRun ==> tableInScope && year.n <= EndYear;
    var isNaN := false;
    if month.Int? {
      var m := 1;
      while m < month.n
        invariant 1 <= m && (m <= month.n || m == 1)
        invariant isNaN <==> m > 13
        invariant m > 1 ==> tableInScope && year.Int? && InTable(year.n)
        invariant m == 1 ==> totalDays == years
        invariant m > 1 && !isNaN ==> totalDays == years + DaysBeforeMonth(year.n, m)
      {
        if !tableInScope {
          return Threw(ReferenceError);
        }
        if !(year.Int? && InTable(year.n)) {
          return Threw(TypeError);
        }
        if m - 1 < 12 {
          DaysBeforeNextMonth(year.n, m);
          totalDays := totalDays + DaysInMonth(year.n, m);
        } else {
          isNaN := true;
        }
        m := m + 1;
      }
      assert monthsRun ==> m == month.n;
    }
    assert monthsRun ==> tableInScope && year.Int? && InTable(year.n);
    assert isNaN <==> monthsRun && month.n > 13;
    if day.NaN? || isNaN {
      return Value(NaNDays);
    }
    assert totalDays == years + if monthsRun then DaysBeforeMonth(year.n, month.n) else 0;
    totalDays := totalDays + day.n - Anchor.day;
    r := Value(Day(totalDays));
  }

  /** A day count from 2056-01-17 made a day count from the anchor; other outcomes unchanged. */
  function FromAnchor(summed: Outcome<AdDay>): (r: Outcome<AdDay>)
    ensures (r.Value? && r.v.Day?) <==> (summed.Value? && summed.v.Day?)
    ensures r.Value? && r.v.Day? ==> r.v.offset + AnchorShift == summed.v.offset
    ensures !(summed.Value? && summed.v.Day?) ==> r == summed
  {
    if summed.Value? && summed.v.Day? then Value(Day(summed.v.offset - AnchorShift)) else summed
  }

  /**
   * convertBSToAD with the table in scope and the sum counted from the anchor: null for an
   * absent or empty string, else the day offset of the parsed date from 2000-01-01 AD.
   */
  function BsToAd(bsDate: Option<string>): (r: Outcome<AdDay>)
    ensures r.Null? <==> (bsDate.None? || bsDate.value == "")
  {
    if bsDate.None? || bsDate.value == "" then Null
    else
      var p := Parse(bsDate.value);
      FromAnchor(SummedOffset(true, p.year, p.month, p.day))
  }

  /**
   * convertBSToAD as it stands: the table is not in scope, and the sum, which counts from
   * day `Anchor.day` of month 1 of 2056, is taken as the offset from the anchor unshifted.
   */
  function BsToAdAsWritten(bsDate: Option<string>): (r: Outcome<AdDay>)
    ensures r.Null? <==> (bsDate.None? || bsDate.value == "")
  {
    if bsDate.None? || bsDate.value == "" then Null
    else
      var p := Parse(bsDate.value);
      SummedOffset(false, p.year, p.month, p.day)
  }

  /** The corrected convertBSToAD: the loops run with the table in scope, and AnchorShift is subtracted. */
  method ConvertBSToAD(bsDate: Option<string>) returns (r: Outcome<AdDay>)
    ensures r == BsToAd(bsDate)
    ensures r.Null? <==> (bsDate.None? || bsDate.value == "")
  {
    if bsDate.None? || bsDate.value == "" {
      return Null;
    }
    var p := Parse(bsDate.value);
    r := SumOffset(true, p.year, p.month, p.day);
    if r.Value? && r.v.Day? {
      r := Value(Day(r.v.offset - AnchorShift));
    }
  }

  /**
   * isValidBSDate: every exception inside is caught and reads as false. With `tableInScope`
   * false, the table lookup throws a ReferenceError, as in the source.
   */
  function IsValidBSDate(tableInScope: bool, bsDate: Option<string>): (r: bool)
    // as written (table out of scope) nothing passes; with it in scope, exactly the strings
    // whose three fields are numbers naming a day of the table pass
    ensures r <==> (tableInScope && bsDate.Some? &&
      var p := Parse(bsDate.value);
      p.year.Int? && p.month.Int? && p.day.Int? && ValidDate(BsDate(p.year.n, p.month.n, p.day.n)))
  {
    if bsDate.None? then false  // splitting null throws
    else
      var p := Parse(bsDate.value);
      // a comparison with NaN is false, so a NaN component passes both range tests
      if p.year.Int? && (p.year.n < 2056 || p.year.n > 2090) then false
      else if p.month.Int? && (p.month.n < 1 || p.month.n > 12) then false
      else if !tableInScope then false  // ReferenceError
      else if p.year.NaN? then false  // bsMonthDays[NaN] is undefined: indexing it throws
      else if p.month.NaN? then false  // the month length reads as undefined: `day <= undefined` is false
      else p.day.Int? && 1 <= p.day.n <= DaysInMonth(p.year.n, p.month.n)
  }

  function FieldText(fields: seq<string>, i: nat): string {
    if i < |fields| then fields[i] else "undefined"
  }

  /** formatBSDate: the raw fields in Nepali words; "" for an absent or empty date. */
  function FormatBSDate(bsDate: Option<string>): (r: string)
    ensures r == "" <==> (bsDate.None? || bsDate.value == "")
  {
    if bsDate.None? || bsDate.value == "" then ""
    else
      var fields := Split(bsDate.value);
      FieldText(fields, 0) + " साल " + FieldText(fields, 1) + " महिना " + FieldText(fields, 2) + " गते"
  }
}
