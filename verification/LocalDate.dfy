/**
  The calendar check on a formatted local date, under the day arithmetic of section 21.4.1 of ECMA-262.
 */
module LocalDate {
  import opened Text
  import opened Wrappers

  // ----- the Gregorian calendar -----

  predicate Leap(year: int) {
    year % 4 == 0 && (year % 100 != 0 || year % 400 == 0)
  }

  function DaysInMonth(year: int, month: int): nat
    requires 0 <= month < 12
  {
    if month == 1 then if Leap(year) then 29 else 28
    else if month == 3 || month == 5 || month == 8 || month == 10 then 30
    else 31
  }

  /** A year, a month from 1 to 12 and a day that the month has. */
  predicate RealDate(year: int, month: int, day: int) {
    1 <= month <= 12 && 1 <= day <= DaysInMonth(year, month - 1)
  }

  // ----- day numbers -----

  /** Day number of the first of January; 0 is 1970. */
  function DayFromYear(y: int): int {
    365 * (y - 1970) + (y - 1969) / 4 - (y - 1901) / 100 + (y - 1601) / 400
  }

  function DaysInYear(y: int): nat {
    if Leap(y) then 366 else 365
  }

  /** Days of the year before a month. */
  function DaysBefore(year: int, month: int): nat
    requires 0 <= month <= 12
  {
    if month == 0 then 0 else DaysBefore(year, month - 1) + DaysInMonth(year, month - 1)
  }

  lemma FourthStep(y: int)
    ensures (y - 1968) / 4 == (y - 1969) / 4 + if y % 4 == 0 then 1 else 0
  {
  }

  lemma HundredthStep(y: int)
    ensures (y - 1900) / 100 == (y - 1901) / 100 + if y % 100 == 0 then 1 else 0
  {
  }

  lemma FourHundredthStep(y: int)
    ensures (y - 1600) / 400 == (y - 1601) / 400 + if y % 400 == 0 then 1 else 0
  {
  }

  lemma FactorsOfFour(y: int)
    ensures y % 400 == 0 ==> y % 100 == 0
    ensures y % 100 == 0 ==> y % 4 == 0
  {
  }

  lemma NextYear(y: int)
    ensures DayFromYear(y + 1) == DayFromYear(y) + DaysInYear(y)
  {
    FourthStep(y);
    HundredthStep(y);
    FourHundredthStep(y);
    FactorsOfFour(y);
  }

  lemma {:induction false} YearsAscend(a: int, b: int)
    requires a < b
    ensures DayFromYear(a) + DaysInYear(a) <= DayFromYear(b)
    decreases b - a
  {
    hide DayFromYear, DaysInYear;
    NextYear(a);
    if a + 1 < b {
      YearsAscend(a + 1, b);
      YearIsPositive(a + 1);
    }
  }

  lemma YearIsPositive(y: int)
    ensures DaysInYear(y) > 0
  {
  }

  lemma WholeYear(year: int)
    ensures DaysBefore(year, 12) == DaysInYear(year)
  {
    assert DaysBefore(year, 0) == 0;
    assert DaysBefore(year, 2) == 31 + DaysInMonth(year, 1);
    assert DaysBefore(year, 4) == DaysBefore(year, 2) + 61;
    assert DaysBefore(year, 6) == DaysBefore(year, 4) + 61;
    assert DaysBefore(year, 8) == DaysBefore(year, 6) + 62;
    assert DaysBefore(year, 10) == DaysBefore(year, 8) + 61;
  }

  lemma NoneBefore(year: int)
    ensures DaysBefore(year, 0) == 0
  {
  }

  lemma {:induction false} MonthsAscend(year: int, a: int, b: int)
    requires 0 <= a < b <= 12
    ensures DaysBefore(year, a) + DaysInMonth(year, a) <= DaysBefore(year, b)
    decreases b - a
  {
    hide DaysInMonth;
    if a + 1 < b {
      MonthsAscend(year, a, b - 1);
    }
  }

  // ----- from a day number back to a date -----

  predicate InYear(day: int, y: int) {
    DayFromYear(y) <= day < DayFromYear(y) + DaysInYear(y)
  }

  /** The year a day number falls in, looked for from a first guess. */
  function YearFrom(day: int, guess: int): (y: int)
    ensures InYear(day, y)
    decreases if day < DayFromYear(guess) then DayFromYear(guess) - day else day - DayFromYear(guess)
  {
    NextYear(guess);
    NextYear(guess - 1);
    if day < DayFromYear(guess) then
      if day >= DayFromYear(guess - 1) then guess - 1 else YearFrom(day, guess - 1)
    else if day >= DayFromYear(guess + 1) then YearFrom(day, guess + 1)
    else guess
  }

  lemma OneYear(day: int, a: int, b: int)
    requires InYear(day, a) && InYear(day, b)
    ensures a == b
  {
    hide DayFromYear, DaysInYear;
    if a < b {
      YearsAscend(a, b);
    } else if b < a {
      YearsAscend(b, a);
    }
  }

  predicate InMonth(dayInYear: int, year: int, m: int)
    requires 0 <= m < 12
  {
    DaysBefore(year, m) <= dayInYear < DaysBefore(year, m) + DaysInMonth(year, m)
  }

  function MonthFrom(dayInYear: int, year: int, from: int): (m: int)
    requires 0 <= from < 12 && DaysBefore(year, from) <= dayInYear < DaysBefore(year, 12)
    ensures from <= m < 12 && InMonth(dayInYear, year, m)
    decreases 12 - from
  {
    if dayInYear < DaysBefore(year, from + 1) then from else MonthFrom(dayInYear, year, from + 1)
  }

  lemma OneMonth(dayInYear: int, year: int, a: int, b: int)
    requires 0 <= a < 12 && 0 <= b < 12 && InMonth(dayInYear, year, a) && InMonth(dayInYear, year, b)
    ensures a == b
  {
    hide DaysBefore, DaysInMonth;
    if a < b {
      MonthsAscend(year, a, b);
    } else if b < a {
      MonthsAscend(year, b, a);
    }
  }

  /** Year, month from 0 and day of the month of a day number. */
  function DateOf(day: int): (int, int, int) {
    var year := YearFrom(day, 1970);
    WholeYear(year);
    var month := MonthFrom(day - DayFromYear(year), year, 0);
    (year, month, day - DayFromYear(year) - DaysBefore(year, month) + 1)
  }

  // ----- the check -----

  /** Years from 0 to 99 count from 1900. */
  function FullYear(year: int): int {
    if 0 <= year <= 99 then 1900 + year else year
  }

  /** Day number of a year, a month from 0 and a day; months outside the year carry over. */
  function MakeDay(year: int, month: int, day: int): int {
    DayFromYear(year + month / 12) + DaysBefore(year + month / 12, month % 12) + day - 1
  }

  /** A day number built from year, month and day gives back exactly those three. */
  predicate Survives(year: int, month: int, day: int) {
    DateOf(MakeDay(FullYear(year), month - 1, day)) == (year, month - 1, day)
  }

  lemma DateOfRealDate(year: int, month: int, day: int)
    requires 0 <= month < 12 && 1 <= day <= DaysInMonth(year, month)
    ensures DateOf(MakeDay(year, month, day)) == (year, month, day)
  {
    hide DayFromYear, DaysInYear, DaysBefore, DaysInMonth, YearFrom, MonthFrom;
    var n := MakeDay(year, month, day);
    MonthsAscend(year, month, 12);
    WholeYear(year);
    NoneBefore(year);
    OneYear(n, YearFrom(n, 1970), year);
    var y := YearFrom(n, 1970);
    OneMonth(n - DayFromYear(y), y, MonthFrom(n - DayFromYear(y), y, 0), month);
  }

  lemma SurvivorsAreReal(year: int, month: int, day: int)
    requires 0 <= year && Survives(year, month, day)
    ensures RealDate(year, month, day) && year >= 100
  {
    hide DayFromYear, DaysInYear, DaysBefore, DaysInMonth, YearFrom, MonthFrom;
    var n := MakeDay(FullYear(year), month - 1, day);
    var y := YearFrom(n, 1970);
    WholeYear(y);
    assert y == year && InMonth(n - DayFromYear(y), y, month - 1);
    if FullYear(year) != year {
      YearsAscend(year, FullYear(year));
      MonthsAscend(year, month - 1, 12);
      WholeYear(year);
    }
  }

  /** The check accepts a match exactly when it is a real date of the year 100 or later. */
  lemma SurvivesIffReal(year: int, month: int, day: int)
    requires 0 <= year
    ensures Survives(year, month, day) <==> RealDate(year, month, day) && year >= 100
  {
    hide MakeDay, DateOf, DaysInMonth;
    if Survives(year, month, day) {
      SurvivorsAreReal(year, month, day);
    } else if RealDate(year, month, day) && year >= 100 {
      DateOfRealDate(year, month - 1, day);
    }
  }

  /** Four numerals, two and two, with hyphens between. */
  predicate IsoShaped(s: string) {
    && |s| == 10
    && AllNumerals(s[..4]) && s[4] == '-' && AllNumerals(s[5..7]) && s[7] == '-' && AllNumerals(s[8..])
  }

  /** What the formatter gave, if it did not fail, checked. */
  function OrganizerLocalDate(formatted: Option<string>): (r: Option<string>)
    ensures r.Some? ==> r == formatted
    ensures r.Some? <==>
              && formatted.Some?
              && IsoShaped(formatted.value)
              && RealDate(Number(formatted.value[..4]), Number(formatted.value[5..7]), Number(formatted.value[8..]))
              && Number(formatted.value[..4]) >= 100
  {
    if formatted.None? || !IsoShaped(formatted.value) then None
    else
      var year, month, day := Number(formatted.value[..4]), Number(formatted.value[5..7]), Number(formatted.value[8..]);
      SurvivesIffReal(year, month, day);
      if Survives(year, month, day) then formatted else None
  }

  /** No date of the years 0 to 99 passes, real or not. */
  lemma EarlyYearsRefused(month: int, day: int)
    ensures RealDate(70, 1, 1) && !Survives(70, 1, 1)
    ensures forall year | 0 <= year < 100 :: !Survives(year, month, day)
  {
    hide MakeDay, DateOf;
    SurvivesIffReal(70, 1, 1);
    forall year | 0 <= year < 100
      ensures !Survives(year, month, day)
    {
      SurvivesIffReal(year, month, day);
    }
  }

  predicate NumeralAt(s: string, i: nat) {
    i < |s| && '0' <= s[i] <= '9'
  }

  function DigitAt(s: string, i: nat): nat
    requires NumeralAt(s, i)
  {
    (s[i] - '0') as nat
  }

  /** The text is four numerals of the year, two of the month and two of the day, hyphens between. */
  predicate Writes(s: string, year: nat, month: nat, day: nat) {
    && |s| == 10 && s[4] == '-' && s[7] == '-'
    && (forall i | i in {0, 1, 2, 3, 5, 6, 8, 9} :: NumeralAt(s, i))
    && year == 1000 * DigitAt(s, 0) + 100 * DigitAt(s, 1) + 10 * DigitAt(s, 2) + DigitAt(s, 3)
    && month == 10 * DigitAt(s, 5) + DigitAt(s, 6)
    && day == 10 * DigitAt(s, 8) + DigitAt(s, 9)
  }

  /** The calendar, month by month. */
  predicate Gregorian(year: nat, month: nat, day: nat) {
    var february := if year % 400 == 0 || (year % 4 == 0 && year % 100 != 0) then 29 else 28;
    1 <= month <= 12 && 1 <= day <= [31, february, 31, 30, 31, 30, 31, 31, 30, 31, 30, 31][month - 1]
  }

  lemma TwoNumerals(s: string)
    requires |s| == 2 && NumeralAt(s, 0) && NumeralAt(s, 1)
    ensures AllNumerals(s) && Number(s) == 10 * DigitAt(s, 0) + DigitAt(s, 1)
  {
    NumberLast("", s[0]);
    NumberLast([s[0]], s[1]);
    assert [] + [s[0]] == [s[0]] && s == [s[0]] + [s[1]];
  }

  lemma FourNumerals(s: string)
    requires |s| == 4 && forall i: nat | i < 4 :: NumeralAt(s, i)
    ensures AllNumerals(s)
    ensures Number(s) == 1000 * DigitAt(s, 0) + 100 * DigitAt(s, 1) + 10 * DigitAt(s, 2) + DigitAt(s, 3)
  {
    assert NumeralAt(s, 0) && NumeralAt(s, 1) && NumeralAt(s, 2) && NumeralAt(s, 3);
    TwoNumerals([s[0], s[1]]);
    NumberLast([s[0], s[1]], s[2]);
    NumberLast([s[0], s[1]] + [s[2]], s[3]);
    assert s == [s[0], s[1]] + [s[2]] + [s[3]];
  }

  lemma OneReading(s: string, year: nat, month: nat, day: nat)
    requires Writes(s, year, month, day)
    ensures IsoShaped(s) && year == Number(s[..4]) && month == Number(s[5..7]) && day == Number(s[8..])
  {
    hide Number;
    assert NumeralAt(s, 0) && NumeralAt(s, 1) && NumeralAt(s, 2) && NumeralAt(s, 3);
    assert forall i: nat | i < 4 :: s[..4][i] == s[i];
    assert NumeralAt(s, 5) && NumeralAt(s, 6) && NumeralAt(s, 8) && NumeralAt(s, 9);
    assert s[5..7][0] == s[5] && s[5..7][1] == s[6] && s[8..][0] == s[8] && s[8..][1] == s[9];
    FourNumerals(s[..4]);
    TwoNumerals(s[5..7]);
    TwoNumerals(s[8..]);
  }

  lemma ShapedIsWritten(s: string)
    requires IsoShaped(s)
    ensures Writes(s, Number(s[..4]), Number(s[5..7]), Number(s[8..]))
  {
    hide Number;
    assert forall i: nat | i < 4 :: s[..4][i] == s[i];
    assert s[5..7][0] == s[5] && s[5..7][1] == s[6] && s[8..][0] == s[8] && s[8..][1] == s[9];
    FourNumerals(s[..4]);
    TwoNumerals(s[5..7]);
    TwoNumerals(s[8..]);
  }

  /** A text passes exactly if it writes a date of the calendar, in the year 100 or later, and is then returned. */
  lemma PassesExactly(s: string)
    ensures OrganizerLocalDate(Some(s)) in {Some(s), None} && OrganizerLocalDate(None) == None
    ensures OrganizerLocalDate(Some(s)) == Some(s) <==>
              exists year, month, day :: Writes(s, year, month, day) && Gregorian(year, month, day) && year >= 100
  {
    hide Number, Writes, Survives, RealDate, Gregorian;
    if IsoShaped(s) {
      ShapedIsWritten(s);
      RealIsGregorian(Number(s[..4]), Number(s[5..7]), Number(s[8..]));
    }
    if year, month, day :| Writes(s, year, month, day) && Gregorian(year, month, day) && year >= 100 {
      OneReading(s, year, month, day);
    }
  }

  lemma RealIsGregorian(year: nat, month: nat, day: nat)
    ensures RealDate(year, month, day) <==> Gregorian(year, month, day)
  {
    FactorsOfFour(year);
  }
}
