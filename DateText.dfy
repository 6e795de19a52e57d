/**
 * The textual side of BS dates: the `YYYY-MM-DD` rendering the converter returns,
 * and the `split('-').map(Number)` reading that its other operations apply to it.
 */
module DateText {
  import opened Calendar

  predicate IsDigit(c: char) {
    '0' <= c <= '9'
  }

  predicate AllDigits(s: string) {
    forall i :: 0 <= i < |s| ==> IsDigit(s[i])
  }

  /** The value of a string of decimal digits; the empty string reads as 0, as in `Number("")`. */
  function DigitsValue(s: string): nat
    requires AllDigits(s)
  {
    if s == [] then 0 else DigitsValue(s[..|s| - 1]) * 10 + (s[|s| - 1] as int - '0' as int)
  }

  /** `String(n)` for a non-negative integer: its decimal digits, without leading zeros. */
  function DecimalString(n: nat): (s: string)
    ensures AllDigits(s) && DigitsValue(s) == n
    ensures 1 <= |s| && (|s| > 1 ==> s[0] != '0')
    ensures n < 10 ==> |s| == 1
    ensures 10 <= n < 100 ==> |s| == 2
  {
    if n < 10 then [('0' as int + n) as char]
    else
      var s := DecimalString(n / 10) + [('0' as int + n % 10) as char];
      assert s[..|s| - 1] == DecimalString(n / 10);
      s
  }

  /** `s.padStart(2, '0')`: zeros in front of s up to length 2. */
  function PadStart2(s: string): (r: string)
    ensures |r| == if |s| < 2 then 2 else |s|
    ensures r[|r| - |s|..] == s
    ensures forall i :: 0 <= i < |r| - |s| ==> r[i] == '0'
  {
    if |s| == 0 then "00" else if |s| == 1 then "0" + s else s
  }

  lemma {:induction false} LeadingZero(s: string)
    requires AllDigits(s)
    ensures AllDigits("0" + s) && DigitsValue("0" + s) == DigitsValue(s)
    decreases |s|
  {
    if s != [] {
      var t := "0" + s;
      assert t[..|t| - 1] == "0" + s[..|s| - 1];
      LeadingZero(s[..|s| - 1]);
    }
  }

  /** Padding with zeros keeps a digit string's value. */
  lemma PadKeepsValue(s: string)
    requires AllDigits(s)
    ensures AllDigits(PadStart2(s)) && DigitsValue(PadStart2(s)) == DigitsValue(s)
  {
    if |s| == 0 {
      LeadingZero("0");
    } else if |s| == 1 {
      LeadingZero(s);
    }
  }

  /** The fields of a string joined back with '-'. */
  function Join(fields: seq<string>): string
    requires |fields| >= 1
  {
    if |fields| == 1 then fields[0] else fields[0] + "-" + Join(fields[1..])
  }

  /** The number of dashes in s. */
  function Dashes(s: string): nat {
    if s == [] then 0 else (if s[0] == '-' then 1 else 0) + Dashes(s[1..])
  }

  /** `s.split('-')`: the maximal runs between dashes, one more than there are dashes. */
  function Split(s: string): (fields: seq<string>)
    ensures |fields| == Dashes(s) + 1
    decreases |s|
  {
    if s == [] then [""]
    else
      var rest := Split(s[1..]);
      if s[0] == '-' then [""] + rest
      else [[s[0]] + rest[0]] + rest[1..]
  }

  /** The fields of a split hold no dash, and joined with '-' they give the string back. */
  lemma {:induction false} SplitInverse(s: string)
    ensures Join(Split(s)) == s
    ensures forall i :: 0 <= i < |Split(s)| ==> '-' !in Split(s)[i]
    decreases |s|
  {
    if s != [] {
      var rest := Split(s[1..]);
      SplitInverse(s[1..]);
      var fields := Split(s);
      if s[0] == '-' {
        assert fields[1..] == rest;
      } else {
        assert fields[1..] == rest[1..];
        if |rest| > 1 {
          assert rest[1..] == Split(s[1..])[1..];
        }
        assert s == [s[0]] + s[1..];
      }
    }
  }

  lemma {:induction false} SplitWithoutDash(a: string)
    ensures '-' !in a ==> Split(a) == [a]
    decreases |a|
  {
    if a != [] && '-' !in a {
      SplitWithoutDash(a[1..]);
      assert [a[0]] + a[1..] == a;
    }
  }

  lemma {:induction false} SplitAtDash(a: string, rest: string)
    requires '-' !in a
    ensures Split(a + "-" + rest) == [a] + Split(rest)
    decreases |a|
  {
    var s := a + "-" + rest;
    if a == [] {
      assert s[1..] == rest;
    } else {
      assert s[1..] == a[1..] + "-" + rest;
      SplitAtDash(a[1..], rest);
      assert [a[0]] + a[1..] == a;
    }
  }

  /** Splitting undoes joining dash-free fields. */
  lemma {:induction false} SplitJoin(fields: seq<string>)
    requires |fields| >= 1 && forall i :: 0 <= i < |fields| ==> '-' !in fields[i]
    ensures Split(Join(fields)) == fields
    decreases |fields|
  {
    if |fields| == 1 {
      SplitWithoutDash(fields[0]);
    } else {
      SplitAtDash(fields[0], Join(fields[1..]));
      SplitJoin(fields[1..]);
    }
  }

  /** A JavaScript number as `Number()` produces it here: an integer, or NaN. */
  datatype Num = Int(n: int) | NaN

  /**
   * `Number(field)` for a field of decimal digits; any other field is NaN. A missing
   * field (`undefined` after destructuring) behaves as NaN in every later use.
   */
  function ToNumber(field: string): (r: Num)
    ensures field == "" ==> r == Int(0)
    ensures forall n: nat :: field == DecimalString(n) ==> r == Int(n)
    ensures forall n: nat :: field == PadStart2(DecimalString(n)) ==> r == Int(n)
  {
    if AllDigits(field) then
      PaddedNumbers(field);
      Int(DigitsValue(field))
    else
      PaddedNumbers(field);
      NaN
  }

  /** Every string `String(n)` or `String(n).padStart(2, '0')` reads back as n. */
  lemma PaddedNumbers(field: string)
    ensures forall n: nat :: field == DecimalString(n) ==> AllDigits(field) && DigitsValue(field) == n
    ensures forall n: nat :: field == PadStart2(DecimalString(n)) ==> AllDigits(field) && DigitsValue(field) == n
  {
    forall n: nat | field == PadStart2(DecimalString(n))
      ensures AllDigits(field) && DigitsValue(field) == n
    {
      PadKeepsValue(DecimalString(n));
    }
  }

  function FieldNumber(fields: seq<string>, i: nat): Num {
    if i < |fields| then ToNumber(fields[i]) else NaN
  }

  datatype Parsed = Parsed(year: Num, month: Num, day: Num)

  /** `const [year, month, day] = s.split('-').map(Number)`; fields after the third are ignored. */
  function Parse(s: string): (r: Parsed)
    ensures s == "" ==> r == Parsed(Int(0), NaN, NaN)
    ensures '-' !in s ==> r.year == ToNumber(s) && r.month == NaN && r.day == NaN
  {
    SplitWithoutDash(s);
    var fields := Split(s);
    Parsed(FieldNumber(fields, 0), FieldNumber(fields, 1), FieldNumber(fields, 2))
  }

  /** The triple `Parse` gives for a date's components. */
  function AsParsed(d: BsDate): Parsed {
    Parsed(Int(d.year), Int(d.month), Int(d.day))
  }

  lemma DigitsHaveNoDash(s: string)
    requires AllDigits(s)
    ensures '-' !in s
  {
  }

  /** `String(n)`, as the year field of a formatted date. */
  function YearField(n: nat): (s: string)
    ensures AllDigits(s) && '-' !in s && |s| >= 1 && DigitsValue(s) == n
  {
    var s := DecimalString(n);
    DigitsHaveNoDash(s);
    s
  }

  /** `String(n).padStart(2, '0')`, as the month and day fields of a formatted date. */
  function PaddedField(n: nat): (s: string)
    ensures AllDigits(s) && '-' !in s && |s| >= 2 && DigitsValue(s) == n
    ensures n < 100 ==> |s| == 2
  {
    var digits := DecimalString(n);
    var s := PadStart2(digits);
    PadKeepsValue(digits);
    DigitsHaveNoDash(s);
    s
  }

  /** The three fields of a formatted date: the year, then month and day padded to 2 digits. */
  function DateFields(d: BsDate): seq<string>
    requires d.year >= 0 && d.month >= 0 && d.day >= 0
  {
    [YearField(d.year), PaddedField(d.month), PaddedField(d.day)]
  }

  /** `${year}-${month padded to 2}-${day padded to 2}`. */
  function Format(d: BsDate): (s: string)
    requires d.year >= 0 && d.month >= 0 && d.day >= 0
    ensures |s| >= 7
  {
    var fields := DateFields(d);
    assert fields[1..][1..] == [fields[2]];
    assert Join(fields[1..]) == fields[1] + "-" + fields[2];
    Join(fields)
  }

  /** Splitting a formatted date at '-' gives back its three fields. */
  lemma FormatSplits(d: BsDate)
    requires d.year >= 0 && d.month >= 0 && d.day >= 0
    ensures Split(Format(d)) == [YearField(d.year), PaddedField(d.month), PaddedField(d.day)]
  {
    var fields := DateFields(d);
    assert forall i :: 0 <= i < |fields| ==> '-' !in fields[i];
    SplitJoin(fields);
  }

  /** Reading a formatted date gives back its three components. */
  lemma ParseFormat(d: BsDate)
    requires d.year >= 0 && d.month >= 0 && d.day >= 0
    ensures Parse(Format(d)) == AsParsed(d)
  {
    FormatSplits(d);
  }
}
