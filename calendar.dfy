/**
 * The date handling of the application: which (year, month, day) triples
 * Python's `datetime(year, month, day)` accepts, the decade bucket used for
 * theming and for the static tables, the choices the date drop-downs offer,
 * and the outcome of pressing "Time Travel!" (main.py, `time_travel`).
 */
module Calendar {
  import opened Wrappers
  import opened Text

  datatype Date = Date(year: int, month: int, day: int)

  /** `datetime.MINYEAR` and `datetime.MAXYEAR`. */
  const MinYear: int := 1
  const MaxYear: int := 9999

  /** The first year the year drop-down offers. */
  const FirstSelectableYear: int := 1950

  /** Leap years of the proleptic Gregorian calendar, which `datetime` uses. */
  predicate IsLeapYear(y: int)
  {
    y % 4 == 0 && (y % 100 != 0 || y % 400 == 0)
  }

  function DaysInMonth(y: int, m: int): (n: int)
    requires 1 <= m <= 12
    ensures 28 <= n <= 31
    ensures m == 2 ==> (n == 29 <==> IsLeapYear(y))
  {
    if m == 2 then (if IsLeapYear(y) then 29 else 28)
    else if m == 4 || m == 6 || m == 9 || m == 11 then 30
    else 31
  }

  /**
   * The triples `datetime(year, month, day)` accepts without raising `ValueError`.
   * Each accepted date is one of the 365 or 366 days of its year.
   */
  predicate IsValidDate(d: Date): (ok: bool)
    ensures ok ==> MinYear <= d.year <= MaxYear
    ensures ok ==> 1 <= d.month <= 12 && 1 <= DaysBeforeMonth(d.year, d.month) + d.day <= if IsLeapYear(d.year) then 366 else 365
  {
    if && MinYear <= d.year <= MaxYear
       && 1 <= d.month <= 12
       && 1 <= d.day <= DaysInMonth(d.year, d.month)
    then
      MonthsFitYear(d.year, d.month + 1);
      YearLength(d.year);
      true
    else false
  }

  type CalendarDate = d: Date | IsValidDate(d) witness Date(1, 1, 1)

  /** Days in months 1 .. m-1 of year y. */
  function DaysBeforeMonth(y: int, m: int): (n: int)
    requires 1 <= m <= 13
    ensures n >= 0
  {
    if m == 1 then 0 else DaysBeforeMonth(y, m - 1) + DaysInMonth(y, m - 1)
  }

  /** The month lengths add up to a Gregorian year: 366 days in a leap year, 365 otherwise. */
  lemma {:induction false} YearLength(y: int)
    ensures DaysBeforeMonth(y, 13) == if IsLeapYear(y) then 366 else 365
  {
    var feb := DaysInMonth(y, 2);
    assert DaysBeforeMonth(y, 2) == 31;
    assert DaysBeforeMonth(y, 3) == 31 + feb;
    assert DaysBeforeMonth(y, 4) == 62 + feb;
    assert DaysBeforeMonth(y, 5) == 92 + feb;
    assert DaysBeforeMonth(y, 6) == 123 + feb;
    assert DaysBeforeMonth(y, 7) == 153 + feb;
    assert DaysBeforeMonth(y, 8) == 184 + feb;
    assert DaysBeforeMonth(y, 9) == 215 + feb;
    assert DaysBeforeMonth(y, 10) == 245 + feb;
    assert DaysBeforeMonth(y, 11) == 276 + feb;
    assert DaysBeforeMonth(y, 12) == 306 + feb;
  }

  /** The months before `m` never hold more days than the whole year. */
  lemma {:induction false} MonthsFitYear(y: int, m: int)
    requires 1 <= m <= 13
    ensures DaysBeforeMonth(y, m) <= DaysBeforeMonth(y, 13)
    decreases 13 - m
  {
    if m < 13 {
      MonthsFitYear(y, m + 1);
    }
  }

  /** February 29 is a valid date exactly in leap years; day 30 of February never is. */
  lemma LeapDay(y: int)
    requires MinYear <= y <= MaxYear
    ensures IsValidDate(Date(y, 2, 29)) <==> IsLeapYear(y)
    ensures !IsValidDate(Date(y, 2, 30))
  {
  }

  /**
   * The decade bucket `(year // 10) * 10`. Python's `//` floors; Dafny's `/`
   * is Euclidean, which is the same thing for the positive divisor 10.
   */
  function Decade(year: int): (bucket: int)
    ensures bucket % 10 == 0
    ensures bucket <= year < bucket + 10
  {
    (year / 10) * 10
  }

  /** The bucket is the only multiple of ten within ten years at or below `year`. */
  lemma DecadeUnique(year: int, bucket: int)
    requires bucket % 10 == 0 && bucket <= year < bucket + 10
    ensures bucket == Decade(year)
  {
    var d := Decade(year);
    assert (bucket - d) % 10 == 0;
    assert -10 < bucket - d < 10;
  }

  /** Years in one decade share its bucket, and the bucket of a bucket is itself. */
  lemma DecadeOfBucket(year: int, k: int)
    requires 0 <= k < 10
    ensures Decade(Decade(year) + k) == Decade(year)
  {
    DecadeUnique(Decade(year) + k, Decade(year));
  }

  /** The label `f"{decade}s"` (theme key and prefix of decade-scoped events). */
  function DecadeStyle(year: nat): (s: string)
    ensures |s| >= 2 && s[|s| - 1] == 's'
    ensures forall k :: 0 <= k < |s| - 1 ==> IsDigit(s[k])
    ensures DecimalValue(s[..|s| - 1]) == Decade(year)
  {
    var numeral := NatToString(Decade(year));
    NatToStringRoundTrip(Decade(year));
    assert (numeral + "s")[..|numeral|] == numeral;
    numeral + "s"
  }

  /** `list(calendar.month_name)`: an empty name at index 0, then January .. December. */
  const MonthNames: seq<string> := ["", "January", "February", "March", "April", "May", "June",
                                     "July", "August", "September", "October", "November", "December"]

  /** A month name: a capital letter followed by lower-case letters. */
  predicate IsMonthName(s: string)
  {
    && |s| >= 1
    && 'A' <= s[0] <= 'Z'
    && forall k :: 1 <= k < |s| ==> 'a' <= s[k] <= 'z'
  }

  /** January .. December are month names in that sense. */
  lemma MonthNamesWellFormed(m: int)
    requires 1 <= m <= 12
    ensures IsMonthName(MonthNames[m])
  {
  }

  /** The twelve month names are pairwise distinct. */
  lemma MonthNamesDistinct(i: int, j: int)
    requires 1 <= i <= 12 && 1 <= j <= 12 && MonthNames[i] == MonthNames[j]
    ensures i == j
  {
  }

  /** Lower-casing a month name leaves lower-case letters only. */
  lemma LowerMonthName(s: string)
    requires IsMonthName(s)
    ensures forall k :: 0 <= k < |LowerAscii(s)| ==> 'a' <= LowerAscii(s)[k] <= 'z'
  {
  }

  /** Month names that agree once lower-cased are the same name. */
  lemma LowerMonthNameInjective(s: string, t: string)
    requires IsMonthName(s) && IsMonthName(t) && LowerAscii(s) == LowerAscii(t)
    ensures s == t
  {
    assert |s| == |t|;
    forall k | 0 <= k < |s|
      ensures s[k] == t[k]
    {
      assert LowerAscii(s)[k] == LowerAscii(t)[k];
    }
  }

  /** The month's name, lower-cased when `lower` holds. */
  function MonthText(m: int, lower: bool): string
    requires 1 <= m <= 12
  {
    if lower then LowerAscii(MonthNames[m]) else MonthNames[m]
  }

  /** A month's name, lower-cased or not, is made of letters. */
  lemma MonthTextLetters(m: int, lower: bool)
    requires 1 <= m <= 12
    ensures forall k :: 0 <= k < |MonthText(m, lower)| ==>
              ('a' <= MonthText(m, lower)[k] <= 'z') || ('A' <= MonthText(m, lower)[k] <= 'Z')
  {
    MonthNamesWellFormed(m);
    if lower {
      LowerMonthName(MonthNames[m]);
    }
  }

  /** Months are told apart by their names, lower-cased or not. */
  lemma MonthTextInjective(ma: int, mb: int, lower: bool)
    requires 1 <= ma <= 12 && 1 <= mb <= 12 && MonthText(ma, lower) == MonthText(mb, lower)
    ensures ma == mb
  {
    MonthNamesWellFormed(ma);
    MonthNamesWellFormed(mb);
    if lower {
      LowerMonthNameInjective(MonthNames[ma], MonthNames[mb]);
    }
    MonthNamesDistinct(ma, mb);
  }

  /**
   * A month's name, a separator that is not a letter and a day numeral
   * determine the month and the day.
   */
  lemma MonthDayTextInjective(ma: int, da: nat, mb: int, db: nat, sep: char, lower: bool)
    requires 1 <= ma <= 12 && 1 <= mb <= 12
    requires !('a' <= sep <= 'z') && !('A' <= sep <= 'Z')
    requires MonthText(ma, lower) + [sep] + NatToString(da) == MonthText(mb, lower) + [sep] + NatToString(db)
    ensures ma == mb && da == db
  {
    var ta, tb := MonthText(ma, lower), MonthText(mb, lower);
    MonthTextLetters(ma, lower);
    MonthTextLetters(mb, lower);
    assert sep !in ta && sep !in tb;
    SeparatedUnique(ta, NatToString(da), tb, NatToString(db), sep);
    MonthTextInjective(ma, mb, lower);
    NatToStringRoundTrip(da);
    NatToStringRoundTrip(db);
  }

  /** `list.index(name)`: the first index holding `name`, or None where Python raises `ValueError`. */
  function IndexOf(names: seq<string>, name: string): (r: Option<nat>)
    ensures r.Some? ==> r.value < |names| && names[r.value] == name
    ensures r.Some? ==> forall j :: 0 <= j < r.value ==> names[j] != name
    ensures r.None? <==> name !in names
  {
    if names == [] then None
    else if names[0] == name then Some(0)
    else
      var rest := IndexOf(names[1..], name);
      assert names == [names[0]] + names[1..];
      if rest.None? then None else Some(rest.value + 1)
  }

  /**
   * `range(1950, now.year + 1)`: the years the drop-down lists. The combobox
   * stays editable, so these are suggestions, not a constraint on the input.
   */
  function YearOptions(nowYear: int): (years: seq<int>)
    ensures forall y :: y in years <==> FirstSelectableYear <= y <= nowYear
    ensures forall i, j :: 0 <= i < j < |years| ==> years[i] < years[j]
  {
    var n := if nowYear < FirstSelectableYear then 0 else nowYear - FirstSelectableYear + 1;
    var years := seq(n, i requires 0 <= i < n => FirstSelectableYear + i);
    forall y | FirstSelectableYear <= y <= nowYear ensures y in years {
      assert years[y - FirstSelectableYear] == y;
    }
    years
  }

  /** `range(1, 32)`: the days the drop-down lists. */
  function DayOptions(): (days: seq<int>)
    ensures forall d :: d in days <==> 1 <= d <= 31
  {
    var days := seq(31, i requires 0 <= i < 31 => i + 1);
    forall d | 1 <= d <= 31 ensures d in days {
      assert days[d - 1] == d;
    }
    days
  }

  /**
   * Every selection the drop-downs offer with a year up to `MaxYear` is accepted
   * by `datetime` exactly when the day exists in that month.
   */
  lemma SelectableDates(nowYear: int, month: int, year: int, day: int)
    requires nowYear <= MaxYear
    requires year in YearOptions(nowYear) && day in DayOptions() && 1 <= month <= 12
    ensures IsValidDate(Date(year, month, day)) <==> day <= DaysInMonth(year, month)
  {
  }

  /** What `time_travel` does with the three drop-down values. */
  datatype TravelOutcome =
    | Resolving(date: CalendarDate)  // a background resolution is started for this date
    | InvalidDate                    // "Invalid Date" is shown; nothing is started
    | InputError                     // the generic "Error" dialog is shown; nothing is started

  /** The range of a C `int`, the type `datetime` converts its arguments to. */
  const CIntMin: int := -0x8000_0000
  const CIntMax: int := 0x7FFF_FFFF

  predicate FitsCInt(n: int)
  {
    CIntMin <= n <= CIntMax
  }

  /**
   * `time_travel`: the month text is looked up in `MonthNames` and the day and
   * year are parsed by `int()`, whose results are given here (None where
   * `int()` raises). A failure of any of the three is caught by the outer
   * handler, and so is the `OverflowError` `datetime` raises for a day or
   * year outside the C `int` range; a triple `datetime` rejects with
   * `ValueError` reports an invalid date.
   */
  function TimeTravel(monthText: string, day: Option<int>, year: Option<int>): (r: TravelOutcome)
    ensures r.InputError? <==>
              || IndexOf(MonthNames, monthText).None? || day.None? || year.None?
              || !FitsCInt(day.value) || !FitsCInt(year.value)
    ensures r.Resolving? ==>
              && IndexOf(MonthNames, monthText) == Some(r.date.month)
              && day == Some(r.date.day) && year == Some(r.date.year)
    ensures r.InvalidDate? ==>
              !IsValidDate(Date(year.value, IndexOf(MonthNames, monthText).value, day.value))
  {
    match IndexOf(MonthNames, monthText)
    case None => InputError
    case Some(month) =>
      if day.None? || year.None? || !FitsCInt(day.value) || !FitsCInt(year.value) then InputError
      else
        var d := Date(year.value, month, day.value);
        if IsValidDate(d) then Resolving(d) else InvalidDate
  }

  /** The month drop-down's "February" is month 2. */
  lemma FebruaryIsMonthTwo()
    ensures IndexOf(MonthNames, "February") == Some(2)
  {
    assert MonthNames[2] == "February";
    var r := IndexOf(MonthNames, "February");
    assert MonthNames[0] != "February" && MonthNames[1] != "February";
  }

  /** A year beyond the C `int` range gets the generic error, not "Invalid Date". */
  lemma OverflowingYear(month: string, day: int)
    requires month in MonthNames && FitsCInt(day)
    ensures TimeTravel(month, Some(day), Some(CIntMax + 1)) == InputError
    ensures TimeTravel(month, Some(day), Some(CIntMin - 1)) == InputError
  {
  }

  /** February 30, 2023, day 0 and day 32 are rejected as invalid dates before anything starts. */
  lemma RejectedDates(year: int, month: string)
    requires month in MonthNames && FitsCInt(year)
    ensures TimeTravel("February", Some(30), Some(2023)) == InvalidDate
    ensures TimeTravel(month, Some(32), Some(year)) == InvalidDate
    ensures TimeTravel(month, Some(0), Some(year)) == InvalidDate
  {
    FebruaryIsMonthTwo();
  }
}
