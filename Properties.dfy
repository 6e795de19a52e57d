/**
 * What the converter promises, stated over the model: the anchor, the walk's day-by-day
 * progress and its edge, the BS -> AD sum, the round trips between the two directions,
 * the validity check, and the three defects of the source beside their corrections.
 */
module ConverterProperties {
  import opened Calendar
  import opened DateText
  import opened DateConverter

  /** The anchor lies 246 days into 2056 (months 1..8), so 263 days from its start. */
  lemma AnchorPosition()
    ensures AnchorShift == 246
    ensures Pos(Anchor) == 263 && Pos(Jan17) == 17
  {
    DaysBeforeNextMonth(2056, 1);
    DaysBeforeNextMonth(2056, 2);
    DaysBeforeNextMonth(2056, 3);
    DaysBeforeNextMonth(2056, 4);
    DaysBeforeNextMonth(2056, 5);
    DaysBeforeNextMonth(2056, 6);
    DaysBeforeNextMonth(2056, 7);
    DaysBeforeNextMonth(2056, 8);
    assert Row(2056) == [31, 31, 32, 32, 31, 30, 30, 29, 30, 29, 30, 30];
  }

  /** The table covers exactly the years 2056..2090. */
  lemma TableYears(y: int)
    ensures InTable(y) <==> 2056 <= y <= 2090
  {
  }

  /** BS 2056-09-17 is offset 0, i.e. 2000-01-01 AD, and the walk from offset 0 stays on it. */
  lemma AnchorFixedPoint()
    ensures AnchorOffset(Anchor) == 0 && ToBs(0) == Value(Anchor)
  {
    PosRange(Anchor);
    ToBsAt(Anchor, 0);
  }

  /** The walk never runs backward: every offset up to 0 gives the anchor. */
  lemma NonPositiveOffsetsGiveAnchor(diffDays: int)
    requires diffDays <= 0
    ensures ToBs(diffDays) == Value(Anchor)
    ensures AdToBs(Some(diffDays)) == Value(Format(Anchor))
  {
    PosRange(Anchor);
    ToBsAt(Anchor, diffDays);
  }

  /** One more day after the anchor gives the next BS day, across month and year ends. */
  lemma ConsecutiveOffsets(n: int)
    requires 0 <= n < MaxOffset
    ensures ValidDate(ToBs(n).v)
    ensures ToBs(n + 1) == Value(Next(ToBs(n).v))
  {
    var d := ToBs(n).v;
    assert Pos(d) == Target(n);
    PosRange(Anchor);
    assert d != EndDate;
    PosNext(d);
    ToBsAt(Next(d), n + 1);
  }

  /** Larger offsets give later dates, and only those. */
  lemma WalkMonotone(a: int, b: int)
    requires 0 <= a <= MaxOffset && 0 <= b <= MaxOffset
    ensures a < b <==> Before(ToBs(a).v, ToBs(b).v)
  {
    BeforeIffPos(ToBs(a).v, ToBs(b).v);
  }

  /** The last convertible offset lands on 2091-01-01; the next one is out of range. */
  lemma EdgeOfRange()
    ensures ToBs(MaxOffset) == Value(EndDate)
    ensures AdToBs(Some(MaxOffset)) == Value(Format(EndDate))
    ensures ToBs(MaxOffset + 1) == Threw(OutOfRange) && AdToBs(Some(MaxOffset + 1)) == Threw(OutOfRange)
    ensures !IsValidBSDate(true, Some(Format(EndDate)))
  {
    PosRange(Anchor);
    ToBsAt(EndDate, MaxOffset);
    ParseFormat(EndDate);
  }

  /** Every offset from 0 to MaxOffset is reached by exactly one date: the walk is onto. */
  lemma EveryDateReached(d: BsDate)
    requires Positioned(d) && !Before(d, Anchor)
    ensures 0 <= AnchorOffset(d) <= MaxOffset
    ensures ToBs(AnchorOffset(d)) == Value(d)
  {
    BeforeIffPos(d, Anchor);
    PosRange(d);
    ToBsAt(d, AnchorOffset(d));
  }

  /** With the table in scope, the sum of convertBSToAD counts days from 2056-01-17. */
  lemma SummedOffsetFromJan17(d: BsDate)
    requires Positioned(d)
    ensures SummedOffset(true, Int(d.year), Int(d.month), Int(d.day)) == Value(Day(Pos(d) - Pos(Jan17)))
  {
    AnchorPosition();
  }

  /** Corrected BS -> AD: a formatted date converts to its distance in days from the anchor. */
  lemma BsToAdOfFormat(d: BsDate)
    requires Positioned(d)
    ensures BsToAd(Some(Format(d))) == Value(Day(AnchorOffset(d)))
  {
    assert FromAnchor(SummedOffset(true, Int(d.year), Int(d.month), Int(d.day))) == Value(Day(AnchorOffset(d))) by {
      SummedOffsetFromJan17(d);
      AnchorPosition();
    }
    BsToAdOfComponents(d);
  }

  /** AD -> BS then corrected BS -> AD gives back every offset in the range. */
  lemma OffsetsRoundTrip(n: int)
    requires 0 <= n <= MaxOffset
    ensures AdToBs(Some(n)).Value?
    ensures BsToAd(Some(AdToBs(Some(n)).v)) == Value(Day(n))
  {
    var d := ToBs(n).v;
    assert Positioned(d) && Pos(d) == Pos(Anchor) + n;
    BsToAdAtOffset(d, n);
    assert AdToBs(Some(n)) == Value(Format(d));
  }

  lemma BsToAdAtOffset(d: BsDate, n: int)
    requires Positioned(d) && Pos(d) == Pos(Anchor) + n
    ensures BsToAd(Some(Format(d))) == Value(Day(n))
  {
    assert AnchorOffset(d) == n;
    BsToAdOfFormat(d);
  }

  /** Corrected BS -> AD then AD -> BS gives back every date from the anchor to 2091-01-01. */
  lemma DatesRoundTrip(d: BsDate)
    requires Positioned(d) && !Before(d, Anchor)
    ensures BsToAd(Some(Format(d))) == Value(Day(AnchorOffset(d)))
    ensures AdToBs(Some(AnchorOffset(d))) == Value(Format(d))
  {
    BsToAdOfFormat(d);
    EveryDateReached(d);
    assert ToBs(AnchorOffset(d)).v == d;
  }

  /** Corrected: a date before the anchor converts to a negative offset, which converts back to the anchor. */
  lemma DatesBeforeAnchorCollapse(d: BsDate)
    requires ValidDate(d) && Before(d, Anchor)
    ensures BsToAd(Some(Format(d))) == Value(Day(AnchorOffset(d))) && AnchorOffset(d) < 0
    ensures AdToBs(Some(AnchorOffset(d))) == Value(Format(Anchor))
  {
    BsToAdOfFormat(d);
    BeforeIffPos(d, Anchor);
    NonPositiveOffsetsGiveAnchor(AnchorOffset(d));
  }

  /** With the table in scope, years past the table make the year loop of convertBSToAD throw OutOfRange. */
  lemma YearsPastTableThrow(year: int, month: Num, day: Num)
    requires year > EndYear
    ensures SummedOffset(true, Int(year), month, day) == Threw(OutOfRange)
    ensures BsToAd(Some(Format(BsDate(year, 1, 1)))) == Threw(OutOfRange)
  {
    ParseFormat(BsDate(year, 1, 1));
  }

  /**
   * Corrected BS -> AD (table in scope) checks no field: a month past 1 outside the table's
   * years indexes a missing row (TypeError), and a month past 13 adds an undefined month
   * length: the day count is NaN. As written, both throw a ReferenceError instead.
   */
  lemma MalformedDates(d: BsDate)
    requires d.year >= 0 && d.month >= 0 && d.day >= 0
    ensures d.month > 1 && (d.year < FirstYear || d.year == EndYear) ==>
      BsToAd(Some(Format(d))) == Threw(TypeError)
    ensures InTable(d.year) && d.month > 13 ==> BsToAd(Some(Format(d))) == Value(NaNDays)
  {
    var summed := SummedOffset(true, Int(d.year), Int(d.month), Int(d.day));
    assert d.month > 1 && (d.year < FirstYear || d.year == EndYear) ==> summed == Threw(TypeError);
    assert InTable(d.year) && d.month > 13 ==> summed == Value(NaNDays);
    BsToAdOfComponents(d);
  }

  /** Corrected: month 13 of a tabulated year converts as month 1 of the next year. */
  lemma MonthThirteenIsNextYear(d: BsDate, e: BsDate)
    requires InTable(d.year) && d.month == 13 && d.day >= 0
    requires e == BsDate(d.year + 1, 1, d.day)
    ensures BsToAd(Some(Format(d))) == BsToAd(Some(Format(e)))
  {
    WholeYearSummed(d, e);
    assert BsToAd(Some(Format(d))) == FromAnchor(SummedOffset(true, Int(d.year), Int(d.month), Int(d.day))) by {
      BsToAdOfComponents(d);
    }
    assert BsToAd(Some(Format(e))) == FromAnchor(SummedOffset(true, Int(e.year), Int(e.month), Int(e.day))) by {
      BsToAdOfComponents(e);
    }
  }

  lemma WholeYearSummed(d: BsDate, e: BsDate)
    requires InTable(d.year) && d.month == 13 && d.day >= 0
    requires e == BsDate(d.year + 1, 1, d.day)
    ensures SummedOffset(true, Int(d.year), Int(d.month), Int(d.day)) == SummedOffset(true, Int(e.year), Int(e.month), Int(e.day))
  {
    WholeYear(d.year);
  }

  /** Corrected BS -> AD of a formatted date is the shifted in-scope sum over its components. */
  lemma BsToAdOfComponents(d: BsDate)
    requires d.year >= 0 && d.month >= 0 && d.day >= 0
    ensures BsToAd(Some(Format(d))) == FromAnchor(SummedOffset(true, Int(d.year), Int(d.month), Int(d.day)))
  {
    ParseFormat(d);
    BsToAdOfParsed(Format(d), d);
  }

  lemma BsToAdOfParsed(s: string, d: BsDate)
    requires s != "" && Parse(s) == AsParsed(d)
    ensures BsToAd(Some(s)) == FromAnchor(SummedOffset(true, Int(d.year), Int(d.month), Int(d.day)))
  {
  }


  /**
   * As written, the only dates that convert are those of month 1 of 2056, and each lands
   * AnchorShift (246) days after its true offset from the anchor.
   */
  lemma AsWrittenMonthOneShifted(d: BsDate)
    requires ValidDate(d) && d.year == FirstYear && d.month == 1
    ensures BsToAdAsWritten(Some(Format(d))) == Value(Day(AnchorOffset(d) + AnchorShift))
    ensures AnchorOffset(d) + AnchorShift < MaxOffset
  {
    assert SummedOffset(false, Int(d.year), Int(d.month), Int(d.day)) == Value(Day(AnchorOffset(d) + AnchorShift)) by {
      SummedOffsetFromJan17(d);
      AnchorPosition();
    }
    assert AnchorOffset(d) + AnchorShift < MaxOffset by {
      AnchorPosition();
      PosRange(Anchor);
      PosRange(d);
    }
    ParseFormat(d);
  }

  /**
   * As written, 2056-01-17 converts to 2000-01-01 AD (offset 0, by AsWrittenMonthOneShifted),
   * which converts back to 2056-09-17; and with the table in scope the anchor itself sums
   * to AnchorShift, not 0.
   */
  lemma AsWrittenAnchorOffset()
    ensures ValidDate(Jan17) && AnchorOffset(Jan17) + AnchorShift == 0
    ensures ToBs(0) == Value(Anchor) && Anchor != Jan17
    ensures SummedOffset(true, Int(Anchor.year), Int(Anchor.month), Int(Anchor.day)) == Value(Day(AnchorShift))
  {
    AnchorPosition();
    SummedOffsetFromJan17(Anchor);
    ToBsAt(Anchor, 0);
  }

  /** As written, every date past month 1 of 2056 reads the undeclared table and throws. */
  lemma AsWrittenScopeThrows(d: BsDate)
    requires ValidDate(d) && (d.year > FirstYear || d.month > 1)
    ensures BsToAdAsWritten(Some(Format(d))) == Threw(ReferenceError)
  {
    assert SummedOffset(false, Int(d.year), Int(d.month), Int(d.day)) == Threw(ReferenceError);
    ParseFormat(d);
  }

  /** With the table in scope, a formatted date is valid exactly when the table describes it. */
  lemma IsValidOfFormat(d: BsDate)
    requires d.year >= 0 && d.month >= 0 && d.day >= 0
    ensures IsValidBSDate(true, Some(Format(d))) <==> ValidDate(d)
  {
    ParseFormat(d);
  }

  /**
   * As written, isValidBSDate rejects every date of the table, each of which the check
   * accepts once the table is in scope.
   */
  lemma AsWrittenRejectsValidDates(d: BsDate)
    requires ValidDate(d)
    ensures !IsValidBSDate(false, Some(Format(d)))
    ensures IsValidBSDate(true, Some(Format(d)))
  {
    IsValidOfFormat(d);
  }

  /** With the table in scope, every date AD -> BS gives short of the edge passes the validity check. */
  lemma ConvertedDatesAreValid(n: int)
    requires n < MaxOffset
    ensures AdToBs(Some(n)).Value? && IsValidBSDate(true, Some(AdToBs(Some(n)).v))
  {
    var d := ToBs(n).v;
    PosRange(Anchor);
    assert Pos(d) == Target(n) < Pos(EndDate);
    IsValidOfFormat(d);
  }

  /** The text AD -> BS returns reads back as the walk's date. */
  lemma AdToBsReadsBack(n: int)
    requires n <= MaxOffset
    ensures AdToBs(Some(n)).Value? && Parse(AdToBs(Some(n)).v) == AsParsed(ToBs(n).v)
  {
    ParseFormat(ToBs(n).v);
  }
}
