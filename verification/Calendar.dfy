/** Civil dates as day numbers.

The repository turns a Gregorian date into days since 1970-01-01 twice, with two separately
written closed forms (core/onvif_time.c and core/onvif_wsse.c). Both are modelled with C's
truncating division and 32-bit `unsigned` conversions, and both are proved equal to a plain count
of year and month lengths, for every integer year. */
module Calendar {

  // ----- the code -----

  /** C's `/` on signed integers: the quotient is rounded toward zero. */
  function CDiv(a: int, b: int): int
    requires b > 0
  {
    if a >= 0 then a / b else -((-a) / b)
  }

  /** Conversion to a 32-bit `unsigned`. */
  function Unsigned(x: int): int {
    x % 0x1_0000_0000
  }

  /** `days_from_civil` of core/onvif_time.c. */
  function DaysFromCivil(y: int, m: int, d: int): int {
    var yy := if m <= 2 then y - 1 else y;
    var era := CDiv(if yy >= 0 then yy else yy - 399, 400);
    var yoe := Unsigned(yy - era * 400);
    var doy := Unsigned(CDiv(153 * (m + (if m > 2 then -3 else 9)) + 2, 5) + d - 1);
    var doe := Unsigned(yoe * 365 + yoe / 4 - yoe / 100 + doy);
    era * 146097 + doe - 719468
  }

  /** The day number inside `onvif_wsse_parse_created`; C's `%` agrees with Dafny's on `mo + 9`,
      which is positive for the months that reach it. */
  function CreatedDays(y: int, mo: int, d: int): int
  {
    var yy := if mo <= 2 then y - 1 else y;
    var era := CDiv(if yy >= 0 then yy else yy - 399, 400);
    var yoe := yy - era * 400;
    var mp := (mo + 9) % 12;
    var doy := CDiv(153 * mp + 2, 5) + d - 1;
    var doe := yoe * 365 + CDiv(yoe, 4) - CDiv(yoe, 100) + doy;
    era * 146097 + doe - 719468
  }

  // ----- the plain count -----

  predicate Leap(y: int) {
    y % 4 == 0 && (y % 100 != 0 || y % 400 == 0)
  }

  function YearLength(y: int): int {
    if Leap(y) then 366 else 365
  }

  function MonthLength(y: int, m: int): int
    requires 1 <= m <= 12
  {
    if m == 2 then (if Leap(y) then 29 else 28)
    else if m == 4 || m == 6 || m == 9 || m == 11 then 30
    else 31
  }

  function DaysBeforeMonth(y: int, m: int): int
    requires 1 <= m <= 12
  {
    if m == 1 then 0 else DaysBeforeMonth(y, m - 1) + MonthLength(y, m - 1)
  }

  /** Days from 1970-01-01 to the first of January of `y`, negative before 1970. */
  function DaysBeforeYear(y: int): int
    decreases if y >= 1970 then y - 1970 else 1970 - y
  {
    if y == 1970 then 0
    else if y > 1970 then DaysBeforeYear(y - 1) + YearLength(y - 1)
    else DaysBeforeYear(y + 1) - YearLength(y)
  }

  function DayCount(y: int, m: int, d: int): int
    requires 1 <= m <= 12
  {
    DaysBeforeYear(y) + DaysBeforeMonth(y, m) + d - 1
  }

  predicate ValidDate(y: int, m: int, d: int) {
    1 <= m <= 12 && 1 <= d <= MonthLength(y, m)
  }

  predicate Earlier(y: int, m: int, d: int, y': int, m': int, d': int) {
    y < y' || (y == y' && (m < m' || (m == m' && d < d')))
  }

  // ----- the closed forms are the plain count -----

  /** Truncating division of the adjusted year is the floor, so the year of era is in 0..399. */
  lemma EraIsFloor(yy: int)
    ensures var era := CDiv(if yy >= 0 then yy else yy - 399, 400);
            era == yy / 400 && 0 <= yy - era * 400 < 400
  {
  }

  /** Leap days up to year `yy` (counted from March), without eras. */
  function LeapDays(yy: int): int {
    yy / 4 - yy / 100 + yy / 400
  }

  lemma EraSum(yy: int)
    ensures var era := yy / 400;
            var yoe := yy - era * 400;
            era * 146097 + yoe * 365 + yoe / 4 - yoe / 100 == 365 * yy + LeapDays(yy)
  {
    var era := yy / 400;
    var yoe := yy - era * 400;
    assert yy / 4 == 100 * era + yoe / 4;
    assert yy / 100 == 4 * era + yoe / 100;
  }

  lemma QuotientStep(y: int)
    ensures y / 4 - (y - 1) / 4 == if y % 4 == 0 then 1 else 0
    ensures y / 100 - (y - 1) / 100 == if y % 100 == 0 then 1 else 0
    ensures y / 400 - (y - 1) / 400 == if y % 400 == 0 then 1 else 0
  {
  }

  lemma LeapDaysStep(y: int)
    ensures LeapDays(y) - LeapDays(y - 1) == if Leap(y) then 1 else 0
  {
    QuotientStep(y);
    assert y % 400 == 0 ==> y % 100 == 0;
    assert y % 100 == 0 ==> y % 4 == 0;
  }

  lemma {:induction false} YearClosedForm(y: int)
    ensures DaysBeforeYear(y) == 365 * (y - 1) + LeapDays(y - 1) + 306 - 719468
    decreases if y >= 1970 then y - 1970 else 1970 - y
  {
    if y > 1970 {
      YearClosedForm(y - 1);
      LeapDaysStep(y - 1);
    } else if y < 1970 {
      YearClosedForm(y + 1);
      LeapDaysStep(y);
    }
  }

  lemma MonthClosedForm(y: int, m: int)
    requires 1 <= m <= 12
    ensures var mp := (m + 9) % 12;
            DaysBeforeMonth(y, m) ==
            (153 * mp + 2) / 5 + (if m <= 2 then -306 else if Leap(y) then 60 else 59)
  {
    if m > 1 {
      MonthClosedForm(y, m - 1);
      var mp := (m + 9) % 12;
      assert m != 3 ==> (m - 1 + 9) % 12 == mp - 1;
    }
  }

  /** Day of the year counted from the first of March. */
  function MarchDay(m: int, d: int): (doy: int)
    requires 1 <= m <= 12 && 1 <= d <= 31
    ensures 0 <= doy <= 336 + d
  {
    (153 * ((m + 9) % 12) + 2) / 5 + d - 1
  }

  /** The month rotation `m > 2 ? -3 : 9` is `(m + 9) % 12`, and the sum does not wrap. */
  lemma RotationsCoincide(m: int, d: int)
    requires 1 <= m <= 12 && 1 <= d <= 31
    ensures Unsigned(CDiv(153 * (m + (if m > 2 then -3 else 9)) + 2, 5) + d - 1) == MarchDay(m, d)
  {
    assert m + (if m > 2 then -3 else 9) == (m + 9) % 12;
  }

  lemma DayOfEraFits(yoe: int, doy: int)
    requires 0 <= yoe < 400 && 0 <= doy <= 400
    ensures Unsigned(yoe) == yoe
    ensures Unsigned(yoe * 365 + yoe / 4 - yoe / 100 + doy) == yoe * 365 + yoe / 4 - yoe / 100 + doy
  {
    assert 0 <= yoe / 4 - yoe / 100 <= 100;
  }

  lemma DaysFromCivilWithoutWrap(y: int, m: int, d: int)
    requires 1 <= m <= 12 && 1 <= d <= 31
    ensures var yy := if m <= 2 then y - 1 else y;
            DaysFromCivil(y, m, d) == 365 * yy + LeapDays(yy) + MarchDay(m, d) - 719468
  {
    var yy := if m <= 2 then y - 1 else y;
    EraIsFloor(yy);
    EraSum(yy);
    RotationsCoincide(m, d);
    DayOfEraFits(yy - yy / 400 * 400, MarchDay(m, d));
  }

  /** `days_from_civil` counts days, for every integer year and every day field the parser lets
      through (a day past the end of its month runs on into the next one). */
  lemma DaysFromCivilCounts(y: int, m: int, d: int)
    requires 1 <= m <= 12 && 1 <= d <= 31
    ensures DaysFromCivil(y, m, d) == DayCount(y, m, d)
  {
    DaysFromCivilWithoutWrap(y, m, d);
    YearClosedForm(y);
    LeapDaysStep(y);
    MonthClosedForm(y, m);
  }

  /** The two separately written formulas agree, negative years included. */
  lemma FormulasAgree(y: int, m: int, d: int)
    requires 1 <= m <= 12 && 1 <= d <= 31
    ensures CreatedDays(y, m, d) == DaysFromCivil(y, m, d)
  {
    var yy := if m <= 2 then y - 1 else y;
    EraIsFloor(yy);
    EraSum(yy);
    DaysFromCivilWithoutWrap(y, m, d);
  }

  // ----- day numbers and dates are in bijection -----

  lemma {:induction false} YearsAreOrdered(y: int, y': int)
    requires y <= y'
    ensures DaysBeforeYear(y) + (if y < y' then YearLength(y) else 0) <= DaysBeforeYear(y')
    decreases y' - y
  {
    if y < y' {
      YearsAreOrdered(y + 1, y');
    }
  }

  lemma {:induction false} MonthsFit(y: int, m: int, m': int)
    requires 1 <= m <= m' <= 12
    ensures DaysBeforeMonth(y, m) + (if m < m' then MonthLength(y, m) else 0) <= DaysBeforeMonth(y, m')
    decreases m' - m
  {
    if m < m' {
      MonthsFit(y, m + 1, m');
    }
  }

  lemma MonthsFillTheYear(y: int)
    ensures DaysBeforeMonth(y, 12) + MonthLength(y, 12) == YearLength(y)
  {
    MonthClosedForm(y, 12);
  }

  lemma StrictlyIncreasing(y: int, m: int, d: int, y': int, m': int, d': int)
    requires ValidDate(y, m, d) && ValidDate(y', m', d')
    requires Earlier(y, m, d, y', m', d')
    ensures DaysFromCivil(y, m, d) < DaysFromCivil(y', m', d')
  {
    DaysFromCivilCounts(y, m, d);
    DaysFromCivilCounts(y', m', d');
    if y < y' {
      YearsAreOrdered(y, y');
      MonthsFit(y, m, 12);
      MonthsFillTheYear(y);
      MonthsFit(y', 1, m');
    } else if m < m' {
      MonthsFit(y, m, m');
    }
  }

  /** The date after a date. */
  function NextDay(y: int, m: int, d: int): (int, int, int)
    requires ValidDate(y, m, d)
  {
    if d < MonthLength(y, m) then (y, m, d + 1)
    else if m < 12 then (y, m + 1, 1)
    else (y + 1, 1, 1)
  }

  /** The date before a date. */
  function PreviousDay(y: int, m: int, d: int): (int, int, int)
    requires ValidDate(y, m, d)
  {
    if d > 1 then (y, m, d - 1)
    else if m > 1 then (y, m - 1, MonthLength(y, m - 1))
    else (y - 1, 12, 31)
  }

  lemma NeighboursCount(y: int, m: int, d: int)
    requires ValidDate(y, m, d)
    ensures var (y1, m1, d1) := NextDay(y, m, d);
            ValidDate(y1, m1, d1) && DayCount(y1, m1, d1) == DayCount(y, m, d) + 1
    ensures var (y0, m0, d0) := PreviousDay(y, m, d);
            ValidDate(y0, m0, d0) && DayCount(y0, m0, d0) == DayCount(y, m, d) - 1
  {
    NextCounts(y, m, d);
    PreviousCounts(y, m, d);
  }

  lemma NextCounts(y: int, m: int, d: int)
    requires ValidDate(y, m, d)
    ensures var (y1, m1, d1) := NextDay(y, m, d);
            ValidDate(y1, m1, d1) && DayCount(y1, m1, d1) == DayCount(y, m, d) + 1
  {
    MonthsFillTheYear(y);
    YearStep(y);
  }

  lemma PreviousCounts(y: int, m: int, d: int)
    requires ValidDate(y, m, d)
    ensures var (y0, m0, d0) := PreviousDay(y, m, d);
            ValidDate(y0, m0, d0) && DayCount(y0, m0, d0) == DayCount(y, m, d) - 1
  {
    MonthsFillTheYear(y - 1);
    YearStep(y - 1);
  }

  lemma YearStep(y: int)
    ensures DaysBeforeYear(y + 1) == DaysBeforeYear(y) + YearLength(y)
  {
  }

  /** Every day number is the number of a valid date. */
  lemma {:induction false} DateOf(n: int) returns (y: int, m: int, d: int)
    ensures ValidDate(y, m, d) && DaysFromCivil(y, m, d) == n
    decreases if n >= 0 then n else -n
  {
    if n == 0 {
      y, m, d := 1970, 1, 1;
    } else if n > 0 {
      y, m, d := DateOf(n - 1);
      DaysFromCivilCounts(y, m, d);
      NeighboursCount(y, m, d);
      var (y1, m1, d1) := NextDay(y, m, d);
      y, m, d := y1, m1, d1;
    } else {
      y, m, d := DateOf(n + 1);
      DaysFromCivilCounts(y, m, d);
      NeighboursCount(y, m, d);
      var (y1, m1, d1) := PreviousDay(y, m, d);
      y, m, d := y1, m1, d1;
    }
    DaysFromCivilCounts(y, m, d);
  }

  /** Dates and day numbers are in bijection: each number has one date and no other. */
  lemma Bijection(n: int)
    ensures exists y, m, d :: ValidDate(y, m, d) && DaysFromCivil(y, m, d) == n
    ensures forall y, m, d, y', m', d' ::
              ValidDate(y, m, d) && ValidDate(y', m', d') &&
              DaysFromCivil(y, m, d) == n && DaysFromCivil(y', m', d') == n
              ==> y == y' && m == m' && d == d'
  {
    var y0, m0, d0 := DateOf(n);
    forall y, m, d, y', m', d' |
      ValidDate(y, m, d) && ValidDate(y', m', d') &&
      DaysFromCivil(y, m, d) == n && DaysFromCivil(y', m', d') == n
      ensures y == y' && m == m' && d == d'
    {
      if Earlier(y, m, d, y', m', d') {
        StrictlyIncreasing(y, m, d, y', m', d');
      } else if Earlier(y', m', d', y, m, d) {
        StrictlyIncreasing(y', m', d', y, m, d);
      }
    }
  }
}
