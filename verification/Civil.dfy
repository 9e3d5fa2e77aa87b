/**
 Civil dates from day counts: Hinnant's algorithm, proved against the calendar itself
 (start at 1970-01-01 and step one day at a time under the 4/100/400 leap rule).
 */
module Civil {

  datatype Date = Date(year: int, month: int, day: int)

  // ---------------------------------------------------------------------------
  // The algorithm
  // ---------------------------------------------------------------------------

  /** Integer division rounding toward zero, for a positive divisor. */
  function TruncDiv(a: int, b: int): int
    requires b > 0
  {
    if a >= 0 then a / b else -((-a) / b)
  }

  /** A cast to a 32-bit signed integer, which keeps the low 32 bits. */
  function AsI32(x: int): int {
    (x + 0x8000_0000) % 0x1_0000_0000 - 0x8000_0000
  }

  function Era(z: int): int {
    TruncDiv(if z >= 0 then z else z - 146_096, 146_097)
  }

  /** Day of the 400-year era, counted from March 1 of its first year. */
  function DayOfEra(z: int): int {
    z - Era(z) * 146_097
  }

  /** The year-length correction whose quotient by 365 is the year of the era. */
  function Corrected(doe: int): int {
    doe - doe / 1460 + doe / 36_524 - doe / 146_096
  }

  function YearStart(yoe: int): int {
    365 * yoe + yoe / 4 - yoe / 100
  }

  /** Month index (March is 0) and day of month, from a March-based day of year. */
  function MonthAndDay(doy: int): (int, int) {
    var mp := (5 * doy + 2) / 153;
    (mp, doy - (153 * mp + 2) / 5 + 1)
  }

  /** The date of day `z`, before the year is narrowed to 32 bits. */
  function WideCivil(z: int): Date {
    var shifted := z + 719_468;
    var doe := DayOfEra(shifted);
    var yoe := Corrected(doe) / 365;
    ToDate(yoe + Era(shifted) * 400, doe - YearStart(yoe))
  }

  function ToDate(marchYear: int, doy: int): Date {
    var (mp, d) := MonthAndDay(doy);
    var m := if mp < 10 then mp + 3 else mp - 9;
    Date(if m <= 2 then marchYear + 1 else marchYear, m, d)
  }

  function CivilFromDays(z: int): Date {
    var date := WideCivil(z);
    date.(year := AsI32(date.year))
  }

  // ---------------------------------------------------------------------------
  // The calendar
  // ---------------------------------------------------------------------------

  predicate IsLeap(year: int) {
    year % 4 == 0 && (year % 100 != 0 || year % 400 == 0)
  }

  function DaysInMonth(year: int, month: int): int {
    if month == 2 then (if IsLeap(year) then 29 else 28)
    else if month == 4 || month == 6 || month == 9 || month == 11 then 30
    else 31
  }

  predicate ValidDate(d: Date) {
    1 <= d.month <= 12 && 1 <= d.day <= DaysInMonth(d.year, d.month)
  }

  function NextDay(d: Date): Date {
    if d.day < DaysInMonth(d.year, d.month) then d.(day := d.day + 1)
    else if d.month < 12 then Date(d.year, d.month + 1, 1)
    else Date(d.year + 1, 1, 1)
  }

  /** The calendar's own answer: step `n` days from the epoch. */
  function Walk(n: nat): Date {
    if n == 0 then Date(1970, 1, 1) else NextDay(Walk(n - 1))
  }

  predicate Earlier(a: Date, b: Date) {
    || a.year < b.year
    || (a.year == b.year && a.month < b.month)
    || (a.year == b.year && a.month == b.month && a.day < b.day)
  }

  // ---------------------------------------------------------------------------
  // The year of the era
  // ---------------------------------------------------------------------------

  lemma {:induction false} CorrectedStep(doe: int)
    requires 0 <= doe < 146_096
    ensures Corrected(doe) <= Corrected(doe + 1)
  {
    assert (doe + 1) / 1460 <= doe / 1460 + 1;
    assert (doe + 1) / 146_096 > doe / 146_096 ==> doe + 1 == 146_096;
  }

  lemma {:induction false} CorrectedMonotone(a: int, b: int)
    requires 0 <= a <= b < 146_097
    ensures Corrected(a) <= Corrected(b)
    decreases b - a
  {
    if a < b {
      CorrectedMonotone(a, b - 1);
      CorrectedStep(b - 1);
    }
  }

  /** A year of the era as century, four-year group and year in the group. */
  lemma {:induction false} YearDigits(yoe: int) returns (c: int, a: int, b: int)
    requires 0 <= yoe < 400
    ensures yoe == 100 * c + 4 * a + b && 0 <= c < 4 && 0 <= a < 25 && 0 <= b < 4
    ensures YearStart(yoe) == 36_524 * c + 1461 * a + 365 * b
  {
    c, a, b := yoe / 100, yoe % 100 / 4, yoe % 4;
    assert yoe / 4 == 25 * c + a;
  }

  lemma {:induction false} CorrectedAtYearStart(yoe: int)
    requires 0 <= yoe < 400
    ensures 0 <= YearStart(yoe) < 146_097
    ensures Corrected(YearStart(yoe)) == 365 * yoe
    ensures yoe > 0 ==> Corrected(YearStart(yoe) - 1) < 365 * yoe
  {
    var c, a, b := YearDigits(yoe);
    var s := YearStart(yoe);
    assert s == 1460 * (25 * c + a) + (24 * c + a + 365 * b);
    assert s / 1460 == 25 * c + a;
    assert s / 36_524 == c;
    if yoe > 0 {
      assert 24 * c + a + 365 * b > 0;
      assert (s - 1) / 1460 == 25 * c + a;
      assert (s - 1) / 36_524 <= c;
    }
  }

  lemma {:induction false} YearOfEraWindow(doe: int)
    requires 0 <= doe < 146_097
    ensures var yoe := Corrected(doe) / 365;
            && 0 <= yoe < 400
            && YearStart(yoe) <= doe
            && (yoe < 399 ==> doe < YearStart(yoe + 1))
  {
    var yoe := Corrected(doe) / 365;
    CorrectedMonotone(0, doe);
    CorrectedMonotone(doe, 146_096);
    assert 0 <= yoe < 400;
    CorrectedAtYearStart(yoe);
    if doe < YearStart(yoe) {
      CorrectedMonotone(doe, YearStart(yoe) - 1);
      assert false;
    }
    if yoe < 399 && doe >= YearStart(yoe + 1) {
      CorrectedAtYearStart(yoe + 1);
      CorrectedMonotone(YearStart(yoe + 1), doe);
      assert false;
    }
  }

  function YearEnd(yoe: int): int {
    if yoe == 399 then 146_097 else YearStart(yoe + 1)
  }

  /** Adding whole eras does not change whether a year is leap. */
  lemma {:induction false} LeapByEra(year: int, era: int)
    ensures IsLeap(year + era * 400) == IsLeap(year)
    decreases if era < 0 then -era else era
  {
    if era > 0 {
      LeapByEra(year, era - 1);
      LeapNextEra(year + (era - 1) * 400);
    } else if era < 0 {
      LeapByEra(year, era + 1);
      LeapNextEra(year + era * 400);
    }
  }

  lemma {:induction false} LeapNextEra(year: int)
    ensures IsLeap(year + 400) == IsLeap(year)
  {
  }

  lemma {:induction false} YearLength(yoe: int, era: int)
    requires 0 <= yoe < 400
    ensures YearEnd(yoe) - YearStart(yoe) == if IsLeap(yoe + era * 400 + 1) then 366 else 365
  {
    LeapByEra(yoe + 1, era);
    YearLengthInEra(yoe);
  }

  lemma {:induction false} YearLengthInEra(yoe: int)
    requires 0 <= yoe < 400
    ensures YearEnd(yoe) - YearStart(yoe) == if IsLeap(yoe + 1) then 366 else 365
  {
  }

  lemma {:induction false} YearStartsIncrease(a: int, b: int)
    requires 0 <= a <= b < 400
    ensures YearStart(a) <= YearStart(b) < 146_097
  {
  }

  lemma {:induction false} YearIsUnique(doe: int, yoe: int)
    requires 0 <= yoe < 400 && YearStart(yoe) <= doe < YearEnd(yoe)
    ensures Corrected(doe) / 365 == yoe && doe < 146_097
  {
    hide YearStart, Corrected;
    FirstYear();
    YearStartsIncrease(0, yoe);
    if yoe < 399 {
      YearStartsIncrease(yoe, yoe + 1);
    }
    YearOfEraWindow(doe);
    var found := Corrected(doe) / 365;
    if found < yoe {
      YearStartsIncrease(found + 1, yoe);
    } else if yoe < found {
      YearStartsIncrease(yoe + 1, found);
    }
  }

  // ---------------------------------------------------------------------------
  // Stepping one day
  // ---------------------------------------------------------------------------

  lemma {:induction false} EraBounds(z: int)
    ensures 0 <= DayOfEra(z) < 146_097
    ensures if DayOfEra(z) < 146_096 then Era(z + 1) == Era(z) && DayOfEra(z + 1) == DayOfEra(z) + 1
            else Era(z + 1) == Era(z) + 1 && DayOfEra(z + 1) == 0
  {
    FloorEra(z);
    FloorEra(z + 1);
  }

  /** The truncating division with its negative correction is a floor division. */
  lemma {:induction false} FloorEra(z: int)
    ensures Era(z) * 146_097 <= z < Era(z) * 146_097 + 146_097
  {
    if z < 0 {
      var q := (146_096 - z) / 146_097;
      assert Era(z) == -q;
    }
  }

  lemma {:induction false} DateIsValid(marchYear: int, doy: int)
    requires 0 <= doy < if IsLeap(marchYear + 1) then 366 else 365
    ensures ValidDate(ToDate(marchYear, doy))
  {
  }

  lemma {:induction false} DayInsideYearSteps(marchYear: int, doy: int)
    requires 0 <= doy
    requires doy + 1 < if IsLeap(marchYear + 1) then 366 else 365
    ensures ToDate(marchYear, doy + 1) == NextDay(ToDate(marchYear, doy))
  {
    var mp := (5 * doy + 2) / 153;
    var mp' := (5 * (doy + 1) + 2) / 153;
    assert 0 <= mp < 12 && mp <= mp' <= mp + 1;
  }

  lemma {:induction false} YearEndSteps(marchYear: int)
    ensures ToDate(marchYear + 1, 0)
         == NextDay(ToDate(marchYear, if IsLeap(marchYear + 1) then 365 else 364))
  {
  }

  lemma {:induction false} FirstYear()
    ensures Corrected(0) / 365 == 0 && YearStart(0) == 0
  {
  }

  lemma {:induction false} Epoch()
    ensures WideCivil(0) == Date(1970, 1, 1)
  {
    assert DayOfEra(719_468) == 135_080 && Era(719_468) == 4;
    assert Corrected(135_080) / 365 == 369 && YearStart(369) == 134_774;
  }

  /** Every day's date is the calendar successor of the day before it. */
  lemma {:induction false} CivilSteps(z: int)
    ensures ValidDate(WideCivil(z))
    ensures WideCivil(z + 1) == NextDay(WideCivil(z))
  {
    hide ToDate, NextDay, ValidDate, Corrected, YearStart, Era, DayOfEra, IsLeap;
    var s := z + 719_468;
    var era, doe := Era(s), DayOfEra(s);
    EraBounds(s);
    YearOfEraWindow(doe);
    var yoe := Corrected(doe) / 365;
    var doy := doe - YearStart(yoe);
    YearLength(yoe, era);
    DateIsValid(yoe + era * 400, doy);
    if doe + 1 < YearEnd(yoe) {
      YearIsUnique(doe + 1, yoe);
      DayInsideYearSteps(yoe + era * 400, doy);
    } else {
      YearEndSteps(yoe + era * 400);
      if yoe < 399 {
        YearLength(yoe + 1, era);
        YearIsUnique(doe + 1, yoe + 1);
      } else {
        FirstYear();
      }
    }
  }

  /**
   For every day count whose year fits 32 bits, the algorithm returns the valid date the
   calendar reaches after that many steps.
   */
  lemma {:induction false} CivilIsTheCalendar(z: nat)
    requires WideCivil(z).year < 0x8000_0000
    ensures CivilFromDays(z) == Walk(z) && ValidDate(CivilFromDays(z))
  {
    hide WideCivil;
    WideCivilIsTheCalendar(z);
    WalkStartsAtTheEpoch(z);
    CivilSteps(z);
  }

  lemma {:induction false} WideCivilIsTheCalendar(z: nat)
    ensures WideCivil(z) == Walk(z)
  {
    hide WideCivil;
    if z == 0 {
      Epoch();
    } else {
      WideCivilIsTheCalendar(z - 1);
      CivilSteps(z - 1);
    }
  }

  lemma {:induction false} WalkStartsAtTheEpoch(z: nat)
    ensures Walk(z).year >= 1970
  {
    if z > 0 {
      WalkStartsAtTheEpoch(z - 1);
    }
  }

  /** Later days have later dates, over all day counts, negative ones included. */
  lemma {:induction false} CivilIncreases(z1: int, z2: int)
    requires z1 < z2
    ensures Earlier(WideCivil(z1), WideCivil(z2))
    decreases z2 - z1
  {
    hide WideCivil;
    CivilSteps(z2 - 1);
    if z1 < z2 - 1 {
      CivilIncreases(z1, z2 - 1);
    }
  }
}
