# Bikram Sambat date converter

This project models the date converter of the back end, `DateConverter` in
`backend/utils/dateConverter.js`, and proves properties of it in Dafny. The converter
translates between the Gregorian calendar (AD) and the Nepali Bikram Sambat calendar (BS).
It relies on one fixed anchor: 2000-01-01 AD is 2056-09-17 BS. It also relies on a table
of month lengths for the BS years 2056 to 2090.

- `Calendar.dfy` holds the table, and the position of a BS date.
  - The table has one row of twelve month lengths (29 to 32 days) per year.
  - A date's position is the number of days from the start of 2056 up to and including it.
  - The module also holds the order on dates and the next day and next month of a date.
  - `DateAt` is a search by year and then by month. It gives the date at a position and is defined independently of the converter's walk.
- `DateText.dfy` holds the text side of a date:
  - the `YYYY-MM-DD` rendering with `String(n).padStart(2, '0')`;
  - `split('-')` and its inverse;
  - `Number()` on a field of digits.
- `DateConverter.dfy` holds the five static methods of the converter.
  - `convertADToBS` is the method `WalkFromAnchor`, which walks whole months forward from the anchor. It is specified by the function `ToBs`.
  - The summing loops of `convertBSToAD` are the method `SumOffset`, with its year loop `SumYears`. They are specified by `SummedOffset`, under either setting of the flag `tableInScope` below.
  - `BsToAdAsWritten`, and `SumOffset` with the table out of scope, are `convertBSToAD` as written.
  - `ConvertBSToAD` (specified by `BsToAd`) is the corrected `convertBSToAD`: the table in scope, and the 246 days of months 1 to 8 of 2056 subtracted.
  - `formatBSDate`, `getCurrentBSDate` and `isValidBSDate` are the other three.
- `Properties.dfy` holds what the converter promises, stated over the model:
  - the anchor and the walk's range;
  - the round trips between the two directions;
  - the validity check;
  - the three defects of the source beside their corrections.

An AD date is its day offset from 2000-01-01 AD, as an integer. That offset is the
`diffDays` the AD → BS walk starts from, and the `totalDays` the BS → AD sum adds to
2000-01-01. A call either returns `null`, returns a value, or throws. The exceptions are:

- `OutOfRange`, the converter's own `Date out of supported range`;
- `ReferenceError`, for an undeclared name;
- `TypeError`, for indexing `undefined`.

A sum with `NaN` in it is a NaN day count (`NaNDays`). The AD date that is then built from it is not modelled (see "## Left out").

The source declares the table `bsMonthDays` inside `convertADToBS` only. The other two
methods that read it, `convertBSToAD` and `isValidBSDate`, therefore see no such name. The
model therefore takes a flag `tableInScope`:

- `false` is the code as it stands;
- `true` is the evident intent, with the table visible.

## Model

| member | source | states |
|---|---|---|
| Calendar.Total | backend/utils/dateConverter.js:129 | the `reduce` total of n month lengths lies between 29·n and 32·n |
| Calendar.DaysBeforeNextMonth | backend/utils/dateConverter.js:132-136 | adding a month's length from the table moves the month sum on by one month |
| Calendar.WholeYear | backend/utils/dateConverter.js:124-130 | the days of a year's twelve months are its `reduce` total, and the year sum moves on by that total |
| Calendar.BeforeIffPos | backend/utils/dateConverter.js:27-63 | one tabulated date comes before another in calendar order exactly when its day position is smaller |
| Calendar.PosInjective | backend/utils/dateConverter.js:27-63 | two dates in the table's range with the same day position are the same date |
| Calendar.PosRange | backend/utils/dateConverter.js:27-63 | every date in the table's range, up to 2091-01-01, has a position from 1 to that of 2091-01-01 |
| Calendar.DateAt | backend/utils/dateConverter.js:27-63 | every position in that range is the position of some date in the table's range |
| Calendar.DateAtPos | backend/utils/dateConverter.js:27-63 | the date found at a date's position is that date: positions and dates are in one-to-one correspondence |
| Calendar.PosRollover | backend/utils/dateConverter.js:84-92 | moving to day 1 of the next month (and to month 1 of the next year after month 12) advances the position by the days remaining in the month, counting the current day |
| Calendar.PosNext | backend/utils/dateConverter.js:84-96 | the next calendar day of a tabulated date has the next position |
| DateText.DecimalString | backend/utils/dateConverter.js:100 | `String(n)` is a digit string without leading zeros that reads back as n, with 1 digit below 10 and 2 below 100 |
| DateText.PadStart2 | backend/utils/dateConverter.js:100 | `padStart(2, '0')` keeps the string at its end and only puts zeros before it, up to length 2 |
| DateText.PadKeepsValue | backend/utils/dateConverter.js:100 | padding with zeros keeps a digit string's value |
| DateText.SplitInverse | backend/utils/dateConverter.js:112 | the fields of `split('-')` hold no dash and, joined with '-', give the string back |
| DateText.SplitJoin | backend/utils/dateConverter.js:112 | splitting at '-' gives back any dash-free fields that were joined with '-' |
| DateText.FormatSplits | backend/utils/dateConverter.js:100 | the rendered date splits into exactly its year, padded month and padded day |
| DateText.Format | backend/utils/dateConverter.js:100 | a rendered date is at least 7 characters long: year, dash, two month digits, dash, two day digits (its fields are stated by `FormatSplits`) |
| DateText.Split | backend/utils/dateConverter.js:112 | `split('-')` gives one more field than the string has dashes, so "" gives one field |
| DateText.ToNumber | backend/utils/dateConverter.js:112 | `Number("")` is 0, and `Number` of `String(n)` or of `String(n).padStart(2, '0')` is n |
| DateText.Parse | backend/utils/dateConverter.js:112 | "" reads as year 0 with month and day NaN; a string without a dash reads as its own number for the year, with month and day NaN |
| DateText.ParseFormat | backend/utils/dateConverter.js:112 | `split('-').map(Number)` of a rendered date gives back its year, month and day |
| DateConverter.ToBs | backend/utils/dateConverter.js:69-97 | an offset past the last convertible one throws out of range; any other lands on the date whose position is the anchor's plus the offset, or the anchor itself for an offset of 0 or less |
| DateConverter.WalkFromAnchor | backend/utils/dateConverter.js:69-97 | the month-by-month walk from 2056-09-17 gives exactly `ToBs`: it lands at the anchor's position plus the offset, or throws once it passes the table |
| DateConverter.AdToBs | backend/utils/dateConverter.js:9-101 | null exactly for an absent date; an offset past the last convertible one throws out of range; any other gives a text of at least 7 characters, whose content `AdToBsReadsBack` and `DatesRoundTrip` state |
| DateConverter.ConvertADToBS | backend/utils/dateConverter.js:9-101 | returns null exactly for an absent date; otherwise it gives the walk's date rendered as `YYYY-MM-DD`, or the walk's exception |
| DateConverter.GetCurrentBSDate | backend/utils/dateConverter.js:165-167 | today's BS date is `convertADToBS` of today, and never null |
| DateConverter.SumYears | backend/utils/dateConverter.js:124-130 | the loop over whole years sums the lengths of the years from 2056 up to the given one; a year past the table throws out of range, and a read of the undeclared table throws a ReferenceError |
| DateConverter.YearsSummed | backend/utils/dateConverter.js:124-130 | the year loop gives a value exactly when the year is at most 2056, or the table is in scope and the year at most 2091; the value is the days of the years from 2056 up to the year |
| DateConverter.SummedOffset | backend/utils/dateConverter.js:120-139 | as written, only a date that enters neither loop (year at most 2056 and month at most 1) gets a value; with the table in scope, a year past 2091 always throws out of range; a day count comes only from a numeric day |
| DateConverter.SumOffset | backend/utils/dateConverter.js:120-139 | the two summing loops and the day term give exactly `SummedOffset`, with every exception and NaN case of the source |
| DateConverter.FromAnchor | backend/utils/dateConverter.js:139 | the correction moves only a day count, and moves it back by 246 days; null, exceptions and NaN pass through unchanged |
| DateConverter.BsToAd | backend/utils/dateConverter.js:108-147 | corrected BS → AD is null exactly for an absent or empty string |
| DateConverter.ConvertBSToAD | backend/utils/dateConverter.js:108-147 | the corrected convertBSToAD (table in scope, 246-day shift subtracted): null exactly for an absent or empty string; otherwise it gives exactly `BsToAd` |
| DateConverter.BsToAdAsWritten | backend/utils/dateConverter.js:108-139 | as written, null exactly for an absent or empty string |
| DateConverter.IsValidBSDate | backend/utils/dateConverter.js:174-188 | with the table out of scope (as written) nothing passes; with it in scope, a string passes exactly when its three fields are numbers naming a day of the table |
| DateConverter.FormatBSDate | backend/utils/dateConverter.js:154-159 | gives "" exactly for an absent or empty date, and the words otherwise |
| ConverterProperties.AnchorPosition | backend/utils/dateConverter.js:20-24 | 2056-09-17 lies 246 days into 2056, after months 1 to 8, so its position is 263 |
| ConverterProperties.TableYears | backend/utils/dateConverter.js:27-63 | the table covers exactly the years 2056 to 2090 |
| ConverterProperties.AnchorFixedPoint | backend/utils/dateConverter.js:20-24 | 2056-09-17 is offset 0 from the anchor, and offset 0 converts to it |
| ConverterProperties.NonPositiveOffsetsGiveAnchor | backend/utils/dateConverter.js:72-75 | an offset of 0 or less skips the loop: the result is 2056-09-17 |
| ConverterProperties.ConsecutiveOffsets | backend/utils/dateConverter.js:75-97 | each further day of offset gives the next BS day, across month and year ends |
| ConverterProperties.WalkMonotone | backend/utils/dateConverter.js:75-97 | a larger offset gives a later date, and a later date comes only from a larger offset |
| ConverterProperties.EdgeOfRange | backend/utils/dateConverter.js:76-78 | the last convertible offset lands on 2091-01-01, which the validity check rejects (in scope or not); the next offset throws out of range |
| ConverterProperties.EveryDateReached | backend/utils/dateConverter.js:69-97 | every date from the anchor to 2091-01-01 is reached by exactly its offset from the anchor |
| ConverterProperties.SummedOffsetFromJan17 | backend/utils/dateConverter.js:120-139 | with the table in scope, the sum counts days from 2056-01-17, not from the anchor |
| ConverterProperties.BsToAdOfFormat | backend/utils/dateConverter.js:108-139 | corrected BS → AD maps a rendered date to its offset from the anchor |
| ConverterProperties.OffsetsRoundTrip | backend/utils/dateConverter.js:9-147 | AD → BS followed by corrected BS → AD gives back every offset from 0 to the last convertible one (as written this round trip fails; see Findings) |
| ConverterProperties.DatesRoundTrip | backend/utils/dateConverter.js:9-147 | corrected BS → AD followed by AD → BS gives back every date from 2056-09-17 to 2091-01-01 (as written this round trip fails; see Findings) |
| ConverterProperties.DatesBeforeAnchorCollapse | backend/utils/dateConverter.js:72-75 | corrected: a date before the anchor converts to a negative offset, which converts back to the anchor and not to the date |
| ConverterProperties.YearsPastTableThrow | backend/utils/dateConverter.js:124-128 | with the table in scope, a year past 2091 makes the year loop throw out of range, whatever the month and day are (as written, its first pass throws a ReferenceError) |
| ConverterProperties.MalformedDates | backend/utils/dateConverter.js:132-136 | with the table in scope, nothing is checked: a month past 1 in a year before 2056, or in 2091, indexes a missing table row and throws a TypeError (years past 2091 throw out of range first, by `YearsPastTableThrow`); a month past 13 in a tabulated year makes the day count NaN (as written, both throw a ReferenceError) |
| ConverterProperties.MonthThirteenIsNextYear | backend/utils/dateConverter.js:132-136 | corrected: month 13 of a tabulated year converts as month 1 of the next year (as written, both throw a ReferenceError) |
| ConverterProperties.BsToAdOfComponents | backend/utils/dateConverter.js:112-139 | corrected BS → AD of a rendered date is the shifted in-scope sum over its year, month and day |
| ConverterProperties.AsWrittenMonthOneShifted | backend/utils/dateConverter.js:139 | as written, a date in month 1 of 2056 converts to its true offset plus 246 days |
| ConverterProperties.AsWrittenAnchorOffset | backend/utils/dateConverter.js:139 | 2056-01-17 lies 246 days before the anchor, yet the sum gives it offset 0 (by `AsWrittenMonthOneShifted`), and offset 0 converts back to 2056-09-17; with the table in scope, the unshifted sum for the anchor itself is 246, not 0 (as written, the anchor throws a ReferenceError, by `AsWrittenScopeThrows`) |
| ConverterProperties.AsWrittenScopeThrows | backend/utils/dateConverter.js:124-135 | as written, every date past month 1 of 2056 reads the undeclared table and throws a ReferenceError |
| ConverterProperties.AsWrittenRejectsValidDates | backend/utils/dateConverter.js:174-188 | as written, the check rejects every rendered date of the table, each of which it accepts with the table in scope |
| ConverterProperties.IsValidOfFormat | backend/utils/dateConverter.js:174-188 | with the table in scope, a rendered date passes the check exactly when the table describes it (as written, none passes) |
| ConverterProperties.ConvertedDatesAreValid | backend/utils/dateConverter.js:100 | with the table in scope, every date AD → BS returns before 2091-01-01 passes the validity check (as written, none passes) |
| ConverterProperties.AdToBsReadsBack | backend/utils/dateConverter.js:100 | the text AD → BS returns reads back as the walk's year, month and day |

## Left out

- The AD side is a whole day offset from 2000-01-01 AD. The model does not turn a JavaScript `Date` or a string into one: `moment(adDate).tz('Asia/Kathmandu')`, the time zone and `diff(..., 'days')` (lines 13-18 and 66-67) are not modelled. Time zones and truncation to days are library behaviour outside this model.
- The result of BS → AD is its day offset. Building the AD `Date` back from it (`moment(...).add(...).format(...)` and `new Date(...)`, lines 142-146) is left out for the same reason. In particular, the AD date that comes from a NaN day count is not modelled.
- `GetCurrentBSDate` takes today's offset as a parameter, because the clock is not modelled.
- `Number()` is modelled on digit strings only; any other field gives NaN. The forms that `Number` also accepts are not modelled: blanks around the number, a sign, a decimal point, an exponent, a hex prefix. Rendered dates never contain them.
- DateText.ToNumber reads a digit field as an exact, unbounded integer, and all later arithmetic is exact. JavaScript's double rounding is not modelled: fields past 2^53 lose precision, and fields of more than about 308 digits become Infinity. So a month field of 2^53 + 2 or more, for which the month loop of `convertBSToAD` (line 134) never ends, ends in the model with a NaN day count, and a huge day field's rounded `totalDays` is not modelled.
- An AD date is absent only as `None`. The other falsy values JavaScript rejects (`0`, `""`, `false`) are not told apart from it.
- `DateText.Format` requires non-negative components. `String()` of a negative number starts with '-', and no date the walk produces is negative.
- `FormatBSDate` has only its empty-input case stated. The Devanagari words around the fields are the rendered text and carry no property.
- The controllers, middleware, front end and server wiring that call the converter are not part of this model.
- The code has no backward walk for dates before 2000-01-01 AD and does not reject out-of-range years up front; the model follows the code. A negative offset gives the anchor (`NonPositiveOffsetsGiveAnchor`), and range errors come from inside the loops.

## Findings

| source | as written | input that shows it | evidently intended | confidence | as-written member | corrected member |
|---|---|---|---|---|---|---|
| backend/utils/dateConverter.js:174-188 | `isValidBSDate` reads `bsMonthDays`, which is declared only inside `convertADToBS`. The ReferenceError is caught, so the check is false for every input. | `"2060-05-10"` | true exactly for a year, month and day the table describes | not executed | ConverterProperties.AsWrittenRejectsValidDates | ConverterProperties.IsValidOfFormat |
| backend/utils/dateConverter.js:124-135 | `convertBSToAD` reads the same undeclared `bsMonthDays` as soon as either loop runs. Every date after month 1 of 2056 throws a ReferenceError. | `"2057-01-01"` | the sum of the table's months before the date | not executed | ConverterProperties.AsWrittenScopeThrows | ConverterProperties.SummedOffsetFromJan17 |
| backend/utils/dateConverter.js:139 | The sum counts days from the start of 2056 and then subtracts only the anchor's day (17), not the 246 days of months 1 to 8. The result is the offset from 2056-01-17, not from the anchor. | `"2056-01-17"` gives 2000-01-01 AD, which converts back to `"2056-09-17"` | the offset from 2056-09-17, so that the two directions invert each other | not executed | ConverterProperties.AsWrittenMonthOneShifted | ConverterProperties.DatesRoundTrip |
