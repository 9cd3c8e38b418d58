/**
 Gregorian day counts: the era formula of instants, the closed leap-count ordinal of reporting
 and the sum over complete years of the numerical reference, with the year fractions over them.
 */
module Calendar {

  datatype Date = Date(year: nat, month: nat, day: nat)

  predicate Leap(year: nat) {
    year % 4 == 0 && (year % 100 != 0 || year % 400 == 0)
  }

  function MonthLength(year: nat, month: nat): nat {
    if month == 2 then (if Leap(year) then 29 else 28)
    else if month == 4 || month == 6 || month == 9 || month == 11 then 30
    else 31
  }

  /** A real date of the proleptic calendar. */
  predicate Real(d: Date) {
    1 <= d.month <= 12 && 1 <= d.day <= MonthLength(d.year, d.month)
  }

  /** Days of the months before this one. */
  function DaysBefore(year: nat, month: nat): nat
    requires 1 <= month <= 13
  {
    if month == 1 then 0 else DaysBefore(year, month - 1) + MonthLength(year, month - 1)
  }

  // ----- Three day counts -----

  function YearLength(year: nat): nat {
    if Leap(year) then 366 else 365
  }

  /** Days of the complete years before this one. */
  function YearsBefore(year: nat): nat {
    if year == 0 then 0 else YearsBefore(year - 1) + YearLength(year - 1)
  }

  /** Days since 0000-01-01, by summing complete years. */
  function SummedOrdinal(d: Date): int
    requires Real(d)
  {
    YearsBefore(d.year) + DaysBefore(d.year, d.month) + d.day - 1
  }

  method SumOfYears(d: Date) returns (ordinal: int)
    requires Real(d)
    ensures ordinal == SummedOrdinal(d)
  {
    var total := 0;
    for y := 0 to d.year
      invariant total == YearsBefore(y)
    {
      total := total + if Leap(y) then 366 else 365;
    }
    for m := 1 to d.month
      invariant total == YearsBefore(d.year) + DaysBefore(d.year, m)
    {
      total := total + MonthLength(d.year, m);
    }
    return total + d.day - 1;
  }

  /** Days since 0000-01-01, counting leap years in closed form. */
  function ClosedOrdinal(d: Date): int
    requires Real(d)
  {
    365 * d.year + ((d.year + 3) / 4 - (d.year + 99) / 100 + (d.year + 399) / 400) + DaysBefore(d.year, d.month)
        + d.day - 1
  }

  /** Days since 1970-01-01 by 400-year eras of years that begin in March. */
  function DaysFromCivil(d: Date): int
    requires Real(d)
  {
    var year := d.year - if d.month <= 2 then 1 else 0;
    var era := year / 400;
    var ofEra := year - era * 400;
    var ofYear := (153 * (d.month + if d.month > 2 then -3 else 9) + 2) / 5 + d.day - 1;
    era * 146097 + (ofEra * 365 + ofEra / 4 - ofEra / 100 + ofYear) - 719468
  }

  /** Multiples of 4, of 100 and of 400 among the years before one, from year zero. */
  function Fours(year: int): int {
    (year + 3) / 4
  }

  function Hundreds(year: int): int {
    (year + 99) / 100
  }

  function FourHundreds(year: int): int {
    (year + 399) / 400
  }

  lemma FoursStep(y: int)
    ensures Fours(y + 1) - Fours(y) == if y % 4 == 0 then 1 else 0
    ensures Fours(y + 1) == y / 4 + 1
  {
  }

  lemma HundredsStep(y: int)
    ensures Hundreds(y + 1) - Hundreds(y) == if y % 100 == 0 then 1 else 0
    ensures Hundreds(y + 1) == y / 100 + 1
  {
  }

  lemma FourHundredsStep(y: int)
    ensures FourHundreds(y + 1) - FourHundreds(y) == if y % 400 == 0 then 1 else 0
    ensures FourHundreds(y + 1) == y / 400 + 1
  {
  }

  function Leaps(year: int): int {
    Fours(year) - Hundreds(year) + FourHundreds(year)
  }

  lemma LeapRule(y: nat)
    ensures y % 400 == 0 ==> y % 100 == 0
    ensures y % 100 == 0 ==> y % 4 == 0
  {
    if y % 400 == 0 {
      assert y == 100 * (4 * (y / 400));
    }
    if y % 100 == 0 {
      assert y == 4 * (25 * (y / 100));
    }
  }

  /** The leap count grows by one exactly over a leap year. */
  lemma LeapStep(y: nat)
    ensures Leaps(y + 1) - Leaps(y) == if Leap(y) then 1 else 0
  {
    FoursStep(y);
    HundredsStep(y);
    FourHundredsStep(y);
    LeapRule(y);
    hide Fours, Hundreds, FourHundreds;
  }

  lemma {:induction false} LeapsBefore(year: nat)
    ensures YearsBefore(year) == 365 * year + Leaps(year)
  {
    hide Leap;
    if year > 0 {
      LeapsBefore(year - 1);
      LeapStep(year - 1);
      hide Leaps;
    }
  }

  /** March-based months: the linear formula is the number of days since the first of March. */
  lemma MonthFormula(year: nat, month: nat)
    requires 1 <= month <= 12
    ensures month > 2 ==> (153 * (month - 3) + 2) / 5 == DaysBefore(year, month) - (if Leap(year) then 60 else 59)
    ensures month <= 2 ==> (153 * (month + 9) + 2) / 5 == DaysBefore(year, month) + 306
  {
    MonthTable(year);
  }

  lemma MonthTable(year: nat)
    ensures DaysBefore(year, 1) == 0 && DaysBefore(year, 2) == 31
    ensures var leap := if Leap(year) then 1 else 0;
            && DaysBefore(year, 3) == 59 + leap && DaysBefore(year, 4) == 90 + leap && DaysBefore(year, 5) == 120 + leap
            && DaysBefore(year, 6) == 151 + leap && DaysBefore(year, 7) == 181 + leap
                && DaysBefore(year, 8) == 212 + leap
            && DaysBefore(year, 9) == 243 + leap && DaysBefore(year, 10) == 273 + leap
                && DaysBefore(year, 11) == 304 + leap
            && DaysBefore(year, 12) == 334 + leap && DaysBefore(year, 13) == 365 + leap
  {
    assert DaysBefore(year, 2) == DaysBefore(year, 1) + 31;
    assert DaysBefore(year, 3) == DaysBefore(year, 2) + MonthLength(year, 2);
    assert DaysBefore(year, 4) == DaysBefore(year, 3) + 31;
    assert DaysBefore(year, 5) == DaysBefore(year, 4) + 30;
    assert DaysBefore(year, 6) == DaysBefore(year, 5) + 31;
    assert DaysBefore(year, 7) == DaysBefore(year, 6) + 30;
    assert DaysBefore(year, 8) == DaysBefore(year, 7) + 31;
    assert DaysBefore(year, 9) == DaysBefore(year, 8) + 31;
    assert DaysBefore(year, 10) == DaysBefore(year, 9) + 30;
    assert DaysBefore(year, 11) == DaysBefore(year, 10) + 31;
    assert DaysBefore(year, 12) == DaysBefore(year, 11) + 30;
    assert DaysBefore(year, 13) == DaysBefore(year, 12) + 31;
  }

  /** Eras only regroup the years and their leap days. */
  lemma EraYears(year: int)
    requires year >= -1
    ensures var era := year / 400;
            var ofEra := year - era * 400;
            era * 146097 + ofEra * 365 + ofEra / 4 - ofEra / 100 == 365 * year + year / 4 - year / 100 + year / 400
  {
    var era, ofEra := year / 400, year % 400;
    assert year == era * 400 + ofEra;
    assert year / 4 == era * 100 + ofEra / 4;
    assert year / 100 == era * 4 + ofEra / 100;
  }

  /** Leap days up to and including a year, against those before the next. */
  lemma LeapsThrough(year: int)
    ensures year / 4 - year / 100 + year / 400 + 1 == Leaps(year + 1)
  {
    FoursStep(year);
    HundredsStep(year);
    FourHundredsStep(year);
    hide Fours, Hundreds, FourHundreds;
  }

  lemma CivilIsClosed(d: Date)
    requires Real(d)
    ensures DaysFromCivil(d) + 719528 == 365 * d.year + Leaps(d.year) + DaysBefore(d.year, d.month) + d.day - 1
  {
    var year := d.year - if d.month <= 2 then 1 else 0;
    MonthFormula(d.year, d.month);
    EraYears(year);
    LeapsThrough(year);
    LeapStep(d.year);
    CivilParts(d);
    hide DaysFromCivil, DaysBefore, Leaps, Leap;
  }

  /** The era formula, part by part. */
  lemma CivilParts(d: Date)
    requires Real(d)
    ensures var year := d.year - if d.month <= 2 then 1 else 0;
            var months := (153 * (d.month + if d.month > 2 then -3 else 9) + 2) / 5;
            DaysFromCivil(d) == 365 * year + (year / 4 - year / 100 + year / 400) + months + d.day - 1 - 719468
  {
    var year := d.year - if d.month <= 2 then 1 else 0;
    EraYears(year);
  }

  /** The three day counts agree on every real date. */
  lemma ThreeCountsAgree(d: Date)
    requires Real(d)
    ensures DaysFromCivil(d) + 719528 == ClosedOrdinal(d) == SummedOrdinal(d)
  {
    LeapsBefore(d.year);
    CivilIsClosed(d);
    hide YearsBefore, DaysBefore, DaysFromCivil;
  }

  // ----- Successive dates -----

  function Next(d: Date): Date
    requires Real(d)
  {
    if d.day < MonthLength(d.year, d.month) then Date(d.year, d.month, d.day + 1)
    else if d.month < 12 then Date(d.year, d.month + 1, 1)
    else Date(d.year + 1, 1, 1)
  }

  /** Successive dates have successive ordinals. */
  lemma NextOrdinal(d: Date)
    requires Real(d)
    ensures Real(Next(d)) && SummedOrdinal(Next(d)) == SummedOrdinal(d) + 1
  {
    MonthTable(d.year);
    hide YearLength;
    assert YearsBefore(d.year + 1) == YearsBefore(d.year) + YearLength(d.year);
    assert YearLength(d.year) == DaysBefore(d.year, 13) by {
      YearIsMonths(d.year);
    }
    hide YearsBefore;
    if d.day == MonthLength(d.year, d.month) {
      assert DaysBefore(d.year, d.month + 1) == DaysBefore(d.year, d.month) + MonthLength(d.year, d.month);
      hide DaysBefore;
    }
  }

  lemma YearIsMonths(year: nat)
    ensures YearLength(year) == DaysBefore(year, 13)
  {
    MonthTable(year);
    hide DaysBefore;
  }

  predicate Before(a: Date, b: Date) {
    a.year < b.year || (a.year == b.year && (a.month < b.month || (a.month == b.month && a.day < b.day)))
  }

  lemma {:induction false} YearsRise(a: nat, b: nat)
    requires a <= b
    ensures YearsBefore(a) + 365 * (b - a) <= YearsBefore(b)
  {
    if a < b {
      YearsRise(a, b - 1);
    }
  }

  lemma {:induction false} MonthsRise(year: nat, a: nat, b: nat)
    requires 1 <= a < b <= 13
    ensures DaysBefore(year, a) + MonthLength(year, a) <= DaysBefore(year, b)
  {
    if a + 1 < b {
      MonthsRise(year, a, b - 1);
    }
  }

  lemma InsideYear(d: Date)
    requires Real(d)
    ensures DaysBefore(d.year, d.month) + d.day <= YearLength(d.year)
  {
    YearIsMonths(d.year);
    MonthsRise(d.year, d.month, 13);
    hide DaysBefore;
  }

  /** Ordinals order real dates, so different dates have different ordinals. */
  lemma OrdinalOrder(a: Date, b: Date)
    requires Real(a) && Real(b)
    ensures Before(a, b) <==> SummedOrdinal(a) < SummedOrdinal(b)
  {
    if Before(a, b) {
      EarlierIsLess(a, b);
    } else if Before(b, a) {
      EarlierIsLess(b, a);
    }
    hide SummedOrdinal;
  }

  lemma EarlierIsLess(a: Date, b: Date)
    requires Real(a) && Real(b) && Before(a, b)
    ensures SummedOrdinal(a) < SummedOrdinal(b)
  {
    InsideYear(a);
    if a.year < b.year {
      assert YearsBefore(a.year + 1) == YearsBefore(a.year) + YearLength(a.year);
      YearsRise(a.year + 1, b.year);
    } else if a.month < b.month {
      MonthsRise(a.year, a.month, b.month);
    }
    hide YearsBefore, DaysBefore, YearLength, MonthLength;
  }

  /** Every day number is the ordinal of a real date. */
  lemma {:induction false} DateOfOrdinal(n: nat) returns (d: Date)
    ensures Real(d) && SummedOrdinal(d) == n
  {
    if n == 0 {
      d := Date(0, 1, 1);
    } else {
      var before := DateOfOrdinal(n - 1);
      NextOrdinal(before);
      d := Next(before);
    }
  }

  // ----- Year fractions -----

  datatype Convention = Actual365 | Actual360 | Thirty360

  /** The 30/360 US count of days. */
  function ThirtyDays(a: Date, b: Date): int {
    var left := if a.day < 30 then a.day else 30;
    var right := if b.day == 31 && left == 30 then 30 else b.day;
    (b.year - a.year) * 360 + (b.month - a.month) * 30 + right - left
  }

  /** The fraction of a year from a to b; refused when the dates are out of order. */
  function YearFraction(a: Date, b: Date, convention: Convention): (bool, real)
    requires Real(a) && Real(b)
  {
    if Before(b, a) then (false, 0.0)
    else
      match convention
      case Actual365 => (true, (ClosedOrdinal(b) - ClosedOrdinal(a)) as real / 365.0)
      case Actual360 => (true, (ClosedOrdinal(b) - ClosedOrdinal(a)) as real / 360.0)
      case Thirty360 => (true, ThirtyDays(a, b) as real / 360.0)
  }

  /** The 30/360 count is never negative and never falls as the end date moves on. */
  lemma ThirtyDaysRise(a: Date, b: Date, c: Date)
    requires Real(a) && Real(b) && Real(c) && !Before(b, a) && !Before(c, b)
    ensures 0 <= ThirtyDays(a, b) <= ThirtyDays(a, c)
  {
    assert b.day <= 31 && c.day <= 31 && a.day <= 31;
    hide MonthLength;
  }

  /** Every convention gives a fraction that is not negative and does not fall with the end date. */
  lemma FractionRises(a: Date, b: Date, c: Date, convention: Convention)
    requires Real(a) && Real(b) && Real(c) && !Before(b, a) && !Before(c, b)
    ensures YearFraction(a, b, convention).0 && YearFraction(a, c, convention).0
    ensures 0.0 <= YearFraction(a, b, convention).1 <= YearFraction(a, c, convention).1
  {
    ThirtyDaysRise(a, b, c);
    OrdinalOrder(b, a);
    OrdinalOrder(c, b);
    OrdinalOrder(c, a);
    ThreeCountsAgree(a);
    ThreeCountsAgree(b);
    ThreeCountsAgree(c);
    hide ClosedOrdinal, SummedOrdinal, ThirtyDays, DaysFromCivil;
  }

  /** Actual day counts add up over a middle date, whichever of the three counts is used. */
  lemma ActualAdds(a: Date, b: Date, c: Date)
    requires Real(a) && Real(b) && Real(c) && !Before(b, a) && !Before(c, b)
    ensures YearFraction(a, c, Actual365).1 == YearFraction(a, b, Actual365).1 + YearFraction(b, c, Actual365).1
    ensures DaysFromCivil(c) - DaysFromCivil(a)
            == (ClosedOrdinal(b) - ClosedOrdinal(a)) + (SummedOrdinal(c) - SummedOrdinal(b))
  {
    OrdinalOrder(c, a);
    OrdinalOrder(b, a);
    OrdinalOrder(c, b);
    ThreeCountsAgree(a);
    ThreeCountsAgree(b);
    ThreeCountsAgree(c);
    hide ClosedOrdinal, SummedOrdinal, DaysFromCivil;
  }

  // ----- What a day, a month and a year count -----

  /** The date n days after d. */
  function After(d: Date, n: nat): (e: Date)
    requires Real(d)
    ensures Real(e)
  {
    if n == 0 then d
    else
      NextOrdinal(After(d, n - 1));
      Next(After(d, n - 1))
  }

  lemma {:induction false} AfterOrdinal(d: Date, n: nat)
    requires Real(d)
    ensures SummedOrdinal(After(d, n)) == SummedOrdinal(d) + n
  {
    hide SummedOrdinal, Next;
    if n > 0 {
      AfterOrdinal(d, n - 1);
      NextOrdinal(After(d, n - 1));
    }
  }

  /** The actual conventions count the steps from date to date: n days are n/365 or n/360 of a year. */
  lemma ActualCountsDays(d: Date, n: nat)
    requires Real(d)
    ensures YearFraction(d, After(d, n), Actual365) == (true, n as real / 365.0)
    ensures YearFraction(d, After(d, n), Actual360) == (true, n as real / 360.0)
  {
    AfterOrdinal(d, n);
    OrdinalOrder(After(d, n), d);
    ThreeCountsAgree(d);
    ThreeCountsAgree(After(d, n));
    hide ClosedOrdinal, SummedOrdinal, DaysFromCivil, After;
  }

  lemma SameOrdinal(a: Date, b: Date)
    requires Real(a) && Real(b) && SummedOrdinal(a) == SummedOrdinal(b)
    ensures a == b
  {
    OrdinalOrder(a, b);
    OrdinalOrder(b, a);
    hide SummedOrdinal;
  }

  /** Every date that is not before d is reached from it, by as many steps as the era count says. */
  lemma EveryDateIsAfter(d: Date, e: Date)
    requires Real(d) && Real(e) && !Before(e, d)
    ensures DaysFromCivil(e) >= DaysFromCivil(d)
    ensures After(d, DaysFromCivil(e) - DaysFromCivil(d)) == e
  {
    ThreeCountsAgree(d);
    ThreeCountsAgree(e);
    OrdinalOrder(e, d);
    hide ClosedOrdinal, SummedOrdinal, DaysFromCivil;
    var n: nat := DaysFromCivil(e) - DaysFromCivil(d);
    AfterOrdinal(d, n);
    SameOrdinal(After(d, n), e);
  }

  /**
   Under 30/360 US a whole number of months is that many twelfths of a year, days up to the
   thirtieth count one 360th each, a start on the 31st counts as one on the 30th, and so does an
   end on the 31st if and only if the start is on the 30th or the 31st.
   */
  lemma ThirtyCounts(a: Date, b: Date)
    requires Real(a) && Real(b) && !Before(b, a)
    ensures var months := 12 * (b.year - a.year) + (b.month - a.month);
            var r := YearFraction(a, b, Thirty360);
            && r.0
            && (a.day <= 30 && b.day <= 30 ==>
                  r.1 == months as real / 12.0 + (b.day as real - a.day as real) / 360.0)
            && (a.day == 31 ==> ThirtyDays(a, b) == ThirtyDays(a.(day := 30), b))
            && (b.day == 31 ==>
                  ThirtyDays(a, b) == ThirtyDays(a, b.(day := 30)) + if a.day >= 30 then 0 else 1)
  {
    var months := 12 * (b.year - a.year) + (b.month - a.month);
    if a.day <= 30 && b.day <= 30 {
      assert ThirtyDays(a, b) == 30 * months + b.day - a.day;
      Twelfths(months, b.day - a.day);
    }
    hide MonthLength;
  }

  lemma Twelfths(months: int, days: int)
    ensures (30 * months + days) as real / 360.0 == months as real / 12.0 + days as real / 360.0
  {
  }

  /** 30/360 US does not always add up over a middle date; this is when it does. */
  lemma ThirtyAddsIff(a: Date, b: Date, c: Date)
    requires Real(a) && Real(b) && Real(c) && !Before(b, a) && !Before(c, b)
    ensures YearFraction(a, c, Thirty360).1 == YearFraction(a, b, Thirty360).1 + YearFraction(b, c, Thirty360).1
            <==> (if a.day >= 30 then b.day >= 30 || c.day != 31
                  else if b.day == 30 then c.day != 31
                  else b.day == 31 ==> c.day == 31)
  {
    assert !Before(c, a);
    assert b.day <= 31 && c.day <= 31 && a.day <= 31;
    hide MonthLength;
    Parts360(ThirtyDays(a, b), ThirtyDays(b, c), ThirtyDays(a, c));
  }

  lemma Parts360(x: int, y: int, z: int)
    ensures z as real / 360.0 == x as real / 360.0 + y as real / 360.0 <==> z == x + y
  {
  }
}
