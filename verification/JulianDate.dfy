/** Gregorian dates and Julian Day Numbers: src/Date.cpp and include/Date.h. */
module JulianDate {

  datatype YearMonthDay = YearMonthDay(year: int, month: int, day: int)

  // ---------------------------------------------------------------------
  // The calendar, stated without any day numbers (ISO 8601:2004, 3.2.1)
  // ---------------------------------------------------------------------

  predicate IsLeapYear(year: int) {
    year % 4 == 0 && (year % 100 != 0 || year % 400 == 0)
  }

  function MonthLength(year: int, month: int): int {
    if month == 2 then (if IsLeapYear(year) then 29 else 28)
    else if month in {4, 6, 9, 11} then 30
    else 31
  }

  predicate IsValid(date: YearMonthDay) {
    1 <= date.month <= 12 && 1 <= date.day <= MonthLength(date.year, date.month)
  }

  /** The calendar day after a date. */
  function NextDay(date: YearMonthDay): YearMonthDay {
    if date.day < MonthLength(date.year, date.month) then date.(day := date.day + 1)
    else if date.month < 12 then YearMonthDay(date.year, date.month + 1, 1)
    else YearMonthDay(date.year + 1, 1, 1)
  }

  /** The date reached by turning n calendar pages. */
  function DaysAfter(date: YearMonthDay, n: nat): YearMonthDay {
    if n == 0 then date else NextDay(DaysAfter(date, n - 1))
  }

  predicate Before(d1: YearMonthDay, d2: YearMonthDay) {
    || d1.year < d2.year
    || (d1.year == d2.year && d1.month < d2.month)
    || (d1.year == d2.year && d1.month == d2.month && d1.day < d2.day)
  }

  /** The first date the closed forms get right. */
  const EPOCH := YearMonthDay(-4800, 3, 1)
  const EPOCH_JDN := -32044

  // ---------------------------------------------------------------------
  // The program's conversions; C++ division truncates toward zero
  // ---------------------------------------------------------------------

  function Div(a: int, b: int): int
    requires b > 0
  {
    if a >= 0 then a / b else -(-a / b)
  }

  function Mod(a: int, b: int): int
    requires b > 0
  {
    a - b * Div(a, b)
  }

  function GetJulianDayNumber(year: int, month: int, day: int): int {
    var a := Div(14 - month, 12);
    var y := year + 4800 - a;
    var m := month + 12 * a - 3;
    day + Div(153 * m + 2, 5) + y * 365 + Div(y, 4) - Div(y, 100) + Div(y, 400) - 32045
  }

  function GetYearMonthDay(jdn: int): YearMonthDay {
    var a := jdn + 32044;
    var b := Div(4 * a + 3, 146097);
    var c := a - Div(b * 146097, 4);
    var d := Div(4 * c + 3, 1461);
    var e := c - Div(1461 * d, 4);
    var m := Div(5 * e + 2, 153);
    YearMonthDay(b * 100 + d - 4800 + Div(m, 10),
                 m + 3 - 12 * Div(m, 10),
                 e - Div(153 * m + 2, 5) + 1)
  }

  function ToJdn(date: YearMonthDay): int {
    GetJulianDayNumber(date.year, date.month, date.day)
  }

  /** Date::weekDay: 0 is Sunday. */
  function WeekDay(jdn: int): int {
    Mod(jdn + 1, 7)
  }

  // ---------------------------------------------------------------------
  // Counting from March: a year is its number of days before it plus a day of year
  // ---------------------------------------------------------------------

  /** Days from the epoch to 1 March of the y-th year after it. */
  function YearStart(y: nat): int { 365 * y + y / 4 - y / 100 + y / 400 }

  /** Days from 1 March to the first of the m-th month after March. */
  function MonthStart(m: nat): int { (153 * m + 2) / 5 }

  function MarchYear(date: YearMonthDay): int {
    date.year + 4800 - (if date.month <= 2 then 1 else 0)
  }

  function MarchMonth(date: YearMonthDay): int {
    date.month + (if date.month <= 2 then 9 else -3)
  }

  function DayOfYear(date: YearMonthDay): int
    requires IsValid(date)
  {
    MonthStart(MarchMonth(date)) + date.day - 1
  }

  /** The year starting in March contains the February of the next calendar year. */
  function MarchYearLength(y: int): int { if IsLeapYear(y + 1) then 366 else 365 }

  lemma LeapShift(y: int)
    ensures IsLeapYear(y + 4800) == IsLeapYear(y)
  {
    assert y + 4800 == y + 4 * 1200 == y + 100 * 48 == y + 400 * 12;
    assert (y + 4 * 1200) % 4 == y % 4;
    assert (y + 100 * 48) % 100 == y % 100;
    assert (y + 400 * 12) % 400 == y % 400;
  }

  /** A valid date lies inside its March-based year, and the month arithmetic is exact. */
  lemma DayOfYearInYear(date: YearMonthDay)
    requires IsValid(date)
    ensures 0 <= DayOfYear(date) < MarchYearLength(MarchYear(date))
    ensures (5 * DayOfYear(date) + 2) / 153 == MarchMonth(date)
  {
    LeapShift(date.year);
  }

  lemma JdnByMarch(date: YearMonthDay)
    requires IsValid(date) && MarchYear(date) >= 0
    ensures ToJdn(date) == YearStart(MarchYear(date)) + DayOfYear(date) + EPOCH_JDN
  {}

  lemma DivStep4(y: nat)
    ensures (y + 1) / 4 == y / 4 + (if (y + 1) % 4 == 0 then 1 else 0)
  {}

  lemma DivStep100(y: nat)
    ensures (y + 1) / 100 == y / 100 + (if (y + 1) % 100 == 0 then 1 else 0)
  {}

  lemma DivStep400(y: nat)
    ensures (y + 1) / 400 == y / 400 + (if (y + 1) % 400 == 0 then 1 else 0)
  {}

  lemma Multiples(z: nat)
    ensures z % 400 == 0 ==> z % 100 == 0
    ensures z % 100 == 0 ==> z % 4 == 0
  {
    if z % 400 == 0 { assert z == 100 * (4 * (z / 400)); }
    if z % 100 == 0 { assert z == 4 * (25 * (z / 100)); }
  }

  lemma YearStartStep(y: nat)
    ensures YearStart(y + 1) == YearStart(y) + MarchYearLength(y)
  {
    DivStep4(y);
    DivStep100(y);
    DivStep400(y);
    Multiples(y + 1);
  }

  /** Year y is the d-th year of the b-th century: whole centuries, then whole years. */
  lemma YearStartByCentury(b: nat, d: nat)
    requires d < 100
    ensures YearStart(100 * b + d) == 146097 * b / 4 + 1461 * d / 4
  {
    var y := 100 * b + d;
    assert y / 4 == 25 * b + d / 4;
    assert y / 100 == b;
    assert y / 400 == b / 4;
    assert 146097 * b / 4 == 36524 * b + b / 4;
    assert 1461 * d / 4 == 365 * d + d / 4;
  }

  lemma CenturyLeap(b: nat)
    ensures IsLeapYear(100 * b + 100) <==> b % 4 == 3
  {
    var k, m := (b + 1) / 4, (b + 1) % 4;
    assert 100 * b + 100 == 400 * k + 100 * m;
    assert (400 * k + 100 * m) % 400 == 100 * m;
    assert (100 * (b + 1)) % 100 == 0;
    Multiples(100 * b + 100);
  }

  /** The day of the century stays inside the century. */
  lemma CenturyBound(b: nat, d: nat, e: nat)
    requires d < 100 && e < MarchYearLength(100 * b + d)
    ensures 0 <= 1461 * d / 4 + e < (if b % 4 == 3 then 36525 else 36524)
  {
    hide IsLeapYear;
    CenturyLeap(b);
    assert d < 99 ==> 1461 * d / 4 <= 35794;
  }

  lemma CenturyRecovered(b: nat, c: nat)
    requires c < (if b % 4 == 3 then 36525 else 36524)
    ensures (4 * (146097 * b / 4 + c) + 3) / 146097 == b
  {
    assert 4 * (146097 * b / 4) == 146097 * b - b % 4;
    var k := 4 * c + 3 - b % 4;
    assert 4 * (146097 * b / 4 + c) + 3 == 146097 * b + k && 0 <= k < 146097;
  }

  lemma YearRecovered(b: nat, d: nat, e: nat)
    requires d < 100 && e < MarchYearLength(100 * b + d)
    ensures (4 * (1461 * d / 4 + e) + 3) / 1461 == d
  {
    assert 4 * (1461 * d / 4) == 1461 * d - d % 4;
    var z := 100 * b + d + 1;
    if e == 365 {
      assert z % 4 == 0;
      assert z % 4 == (d + 1) % 4 by { assert z == 4 * (25 * b) + (d + 1); }
    }
    var k := 4 * e + 3 - d % 4;
    assert 0 <= k < 1461;
  }

  /** The three divisions of getYearMonthDay undo the three sums of getJulianDayNumber. */
  lemma InverseFromMarch(y: nat, e: nat)
    requires e < MarchYearLength(y)
    ensures var m := (5 * e + 2) / 153;
            GetYearMonthDay(YearStart(y) + e + EPOCH_JDN)
            == YearMonthDay(y - 4800 + m / 10, m + 3 - 12 * (m / 10), e - MonthStart(m) + 1)
  {
    hide MarchYearLength, YearStart, GetYearMonthDay;
    var b, d := y / 100, y % 100;
    assert y == 100 * b + d;
    YearStartByCentury(b, d);
    CenturyBound(b, d, e);
    CenturyRecovered(b, 1461 * d / 4 + e);
    YearRecovered(b, d, e);
    GetYearMonthDayBy(b, d, e);
  }

  /** getYearMonthDay once its quotients are known. */
  lemma GetYearMonthDayBy(b: nat, d: nat, e: nat)
    requires d < 100
    requires (4 * (146097 * b / 4 + (1461 * d / 4 + e)) + 3) / 146097 == b
    requires (4 * (1461 * d / 4 + e) + 3) / 1461 == d
    ensures var m := (5 * e + 2) / 153;
            GetYearMonthDay(146097 * b / 4 + 1461 * d / 4 + e + EPOCH_JDN)
            == YearMonthDay(100 * b + d - 4800 + m / 10, m + 3 - 12 * (m / 10), e - MonthStart(m) + 1)
  {}

  // ---------------------------------------------------------------------
  // Main results
  // ---------------------------------------------------------------------

  lemma EarlyCentury(k: int) returns (c: int)
    requires k >= 1
    ensures c >= 1
    ensures var b := Div(4 * -k + 3, 146097); -k - Div(b * 146097, 4) == -c
  {
    var b := (4 * k - 3) / 146097;
    c := k - 146097 * b / 4;
  }

  lemma EarlyYear(c: int) returns (e: int)
    requires c >= 1
    ensures e >= 1
    ensures var d := Div(4 * -c + 3, 1461); -c - Div(1461 * d, 4) == -e
  {
    var d := (4 * c - 3) / 1461;
    e := c - 1461 * d / 4;
  }

  lemma EarlyMonth(e: int)
    requires e >= 1
    ensures -e - Div(153 * Div(5 * -e + 2, 153) + 2, 5) + 1 <= 0
  {
    var m := (5 * e - 2) / 153;
    assert Div(5 * -e + 2, 153) == -m;
  }

  /** Before the epoch every closed form collapses: the recovered day is never a day of a month. */
  lemma NotADateBeforeEpoch(jdn: int)
    requires jdn < EPOCH_JDN
    ensures GetYearMonthDay(jdn).day <= 0
  {
    hide Div;
    var c := EarlyCentury(-(jdn + 32044));
    var e := EarlyYear(c);
    EarlyMonth(e);
  }

  lemma OnOrAfterEpoch(date: YearMonthDay)
    requires IsValid(date)
    ensures MarchYear(date) >= 0 <==> !Before(date, EPOCH)
  {}

  lemma JdnOfEarlyDate(date: YearMonthDay)
    requires IsValid(date) && Before(date, EPOCH)
    ensures ToJdn(date) <= EPOCH_JDN
  {
    var y := -MarchYear(date);
    assert y >= 1;
    assert DayOfYear(date) <= 365;
    assert ToJdn(date) == DayOfYear(date) - 365 * y - y / 4 + y / 100 - y / 400 + EPOCH_JDN;
  }

  lemma LateDateRoundTrip(date: YearMonthDay)
    requires IsValid(date) && MarchYear(date) >= 0
    ensures GetYearMonthDay(ToJdn(date)) == date
  {
    hide GetYearMonthDay, ToJdn, YearStart, MonthStart, MonthLength, MarchYearLength;
    DayOfYearInYear(date);
    JdnByMarch(date);
    InverseFromMarch(MarchYear(date), DayOfYear(date));
  }

  lemma EpochDate()
    ensures GetYearMonthDay(EPOCH_JDN) == EPOCH
  {
    hide GetYearMonthDay;
    InverseFromMarch(0, 0);
  }

  lemma EarlyDateLost(date: YearMonthDay)
    requires IsValid(date) && Before(date, EPOCH)
    ensures GetYearMonthDay(ToJdn(date)) != date
  {
    assert !Before(EPOCH, EPOCH);
    hide GetYearMonthDay, ToJdn, MonthLength, Before;
    JdnOfEarlyDate(date);
    EpochDate();
    if ToJdn(date) < EPOCH_JDN { NotADateBeforeEpoch(ToJdn(date)); }
  }

  /** getYearMonthDay undoes getJulianDayNumber for exactly the valid dates from -4800-03-01 on. */
  lemma DateRoundTrip(date: YearMonthDay)
    requires IsValid(date)
    ensures GetYearMonthDay(ToJdn(date)) == date <==> !Before(date, EPOCH)
  {
    OnOrAfterEpoch(date);
    if Before(date, EPOCH) { EarlyDateLost(date); } else { LateDateRoundTrip(date); }
    hide GetYearMonthDay, ToJdn, Before;
  }

  /** 29 February -4800 and the next day share a day number: the bound above is the true one. */
  lemma EpochIsTight()
    ensures IsValid(YearMonthDay(-4800, 2, 29))
    ensures NextDay(YearMonthDay(-4800, 2, 29)) == EPOCH
    ensures ToJdn(YearMonthDay(-4800, 2, 29)) == ToJdn(EPOCH) == EPOCH_JDN
  {}

  /** The 153-day pattern gives every month from March to January its true length. */
  lemma MonthSpan(m: nat, year: int)
    requires m <= 10
    ensures MonthStart(m + 1) - MonthStart(m) == MonthLength(year, m + 3 - 12 * (m / 10))
  {
    if m < 5 {} else {}
  }

  lemma MarchDateIsValid(y: nat, e: nat)
    requires e < MarchYearLength(y)
    ensures var date := GetYearMonthDay(YearStart(y) + e + EPOCH_JDN);
            IsValid(date) && MarchYear(date) == y && DayOfYear(date) == e
  {
    hide GetYearMonthDay, YearStart;
    InverseFromMarch(y, e);
    var m := (5 * e + 2) / 153;
    assert 0 <= m <= 11 && MonthStart(m) <= e < MonthStart(m + 1);
    var date := YearMonthDay(y - 4800 + m / 10, m + 3 - 12 * (m / 10), e - MonthStart(m) + 1);
    assert MarchYear(date) == y && MarchMonth(date) == m;
    if m <= 10 {
      MonthSpan(m, date.year);
    } else {
      LeapShift(date.year);
      assert date.month == 2 && MonthStart(11) == 337;
    }
  }

  /** Every day count splits into a March-based year and a day of it. */
  lemma {:induction false} SplitDays(a: nat) returns (y: nat, e: nat)
    ensures a == YearStart(y) + e && e < MarchYearLength(y)
  {
    if a == 0 {
      y, e := 0, 0;
    } else {
      y, e := SplitDays(a - 1);
      YearStartStep(y);
      if e + 1 < MarchYearLength(y) { e := e + 1; } else { y, e := y + 1, 0; }
    }
  }

  /** getYearMonthDay yields a valid date, and one that converts back, exactly from the epoch on. */
  lemma JdnRoundTrip(jdn: int)
    ensures IsValid(GetYearMonthDay(jdn)) <==> jdn >= EPOCH_JDN
    ensures jdn >= EPOCH_JDN ==>
              ToJdn(GetYearMonthDay(jdn)) == jdn && !Before(GetYearMonthDay(jdn), EPOCH)
  {
    if jdn < EPOCH_JDN {
      NotADateBeforeEpoch(jdn);
    } else {
      var y, e := SplitDays(jdn - EPOCH_JDN);
      MarchDateIsValid(y, e);
      JdnByMarch(GetYearMonthDay(jdn));
    }
  }

  /** The next day is the next day of the same March-based year, or the first of the next one. */
  lemma NextDayByMarch(date: YearMonthDay)
    requires IsValid(date)
    ensures var next := NextDay(date);
            IsValid(next) &&
            if DayOfYear(date) + 1 < MarchYearLength(MarchYear(date))
            then MarchYear(next) == MarchYear(date) && DayOfYear(next) == DayOfYear(date) + 1
            else MarchYear(next) == MarchYear(date) + 1 && DayOfYear(next) == 0
  {
    LeapShift(date.year);
  }

  /** The year starts getJulianDayNumber counts by: truncating division mirrors those before the epoch. */
  function CountedYearStart(y: int): int { if y >= 0 then YearStart(y) else -YearStart(-y) }

  lemma JdnByCountedYear(date: YearMonthDay)
    requires IsValid(date)
    ensures ToJdn(date) == CountedYearStart(MarchYear(date)) + DayOfYear(date) + EPOCH_JDN
  {
    if MarchYear(date) >= 0 {
      JdnByMarch(date);
    } else {
      EarlyYearStart(-MarchYear(date));
    }
  }

  lemma EarlyYearStart(y: int)
    requires y > 0
    ensures -y * 365 + Div(-y, 4) - Div(-y, 100) + Div(-y, 400) == -YearStart(y)
  {}

  /** Before the epoch the extra day goes to the leap year's March-based year, one too late. */
  lemma CountedYearStep(y: int)
    ensures CountedYearStart(y + 1) - CountedYearStart(y)
            == if y >= 0 then MarchYearLength(y) else if IsLeapYear(y) then 366 else 365
  {
    if y >= 0 {
      YearStartStep(y);
    } else {
      YearStartStep(-y - 1);
      NegativeLeap(y);
    }
  }

  lemma NegativeLeap(y: int)
    ensures IsLeapYear(-y) == IsLeapYear(y)
  {}

  /** The last day of a February before the epoch, where one of its year and the year before is a leap year. */
  predicate Miscounted(date: YearMonthDay) {
    && date.year <= -4800 && date.month == 2 && date.day == MonthLength(date.year, 2)
    && IsLeapYear(date.year) != IsLeapYear(date.year - 1)
  }

  lemma YearEndIsFebruary(date: YearMonthDay)
    requires IsValid(date)
    ensures DayOfYear(date) + 1 == MarchYearLength(MarchYear(date))
            <==> date.month == 2 && date.day == MonthLength(date.year, 2)
  {
    LeapShift(date.year);
  }

  /** How far the counted length of a year is off, seen from its last day. */
  lemma YearEndOff(date: YearMonthDay)
    requires IsValid(date) && DayOfYear(date) + 1 == MarchYearLength(MarchYear(date))
    ensures var y := MarchYear(date);
            CountedYearStart(y + 1) - CountedYearStart(y) - MarchYearLength(y)
            == if Miscounted(date) then (if IsLeapYear(date.year) then -1 else 1) else 0
  {
    hide CountedYearStart, DayOfYear, IsLeapYear, MonthLength;
    YearEndIsFebruary(date);
    CountedYearStep(MarchYear(date));
    LeapShift(date.year);
    LeapShift(date.year - 1);
    assert MarchYear(date) == date.year - 1 + 4800 && MarchYear(date) + 1 == date.year + 4800;
  }

  /**
   * Turning one calendar page under the 4/100/400 rule adds exactly one to the day number, but for
   * the ends of those Februaries: there it adds none after the 29th and two after the 28th.
   */
  lemma DayCountStep(date: YearMonthDay)
    requires IsValid(date)
    ensures IsValid(NextDay(date))
    ensures ToJdn(NextDay(date)) == ToJdn(date) + 1 <==> !Miscounted(date)
    ensures Miscounted(date) ==> ToJdn(NextDay(date)) == ToJdn(date) + (if IsLeapYear(date.year) then 0 else 2)
    ensures !Before(date, EPOCH) ==> !Before(NextDay(date), EPOCH) && !Miscounted(date)
  {
    hide ToJdn, CountedYearStart, Before, NextDay, DayOfYear, IsLeapYear, MonthLength;
    hide MarchYear, MarchYearLength, IsValid;
    NextDayByMarch(date);
    OnOrAfterEpoch(date);
    OnOrAfterEpoch(NextDay(date));
    MiscountedIsEarly(date);
    JdnByCountedYear(date);
    JdnByCountedYear(NextDay(date));
    DayOfYearInYear(date);
    YearEndIsFebruary(date);
    if DayOfYear(date) + 1 == MarchYearLength(MarchYear(date)) { YearEndOff(date); }
  }

  lemma MiscountedIsEarly(date: YearMonthDay)
    ensures Miscounted(date) ==> Before(date, EPOCH)
  {}

  lemma EpochFacts()
    ensures IsValid(EPOCH) && !Before(EPOCH, EPOCH) && ToJdn(EPOCH) == EPOCH_JDN
  {}

  /** The closed form equals the page-by-page calendar: JDN is the true day count. */
  lemma {:induction false} ClosedFormIsCalendar(n: nat)
    ensures IsValid(DaysAfter(EPOCH, n)) && !Before(DaysAfter(EPOCH, n), EPOCH)
    ensures ToJdn(DaysAfter(EPOCH, n)) == EPOCH_JDN + n
    ensures GetYearMonthDay(EPOCH_JDN + n) == DaysAfter(EPOCH, n)
  {
    hide GetYearMonthDay, ToJdn, Before, IsValid, NextDay;
    EpochFacts();
    if n > 0 {
      ClosedFormIsCalendar(n - 1);
      DayCountStep(DaysAfter(EPOCH, n - 1));
    }
    DateRoundTrip(DaysAfter(EPOCH, n));
  }

  lemma NextDayIsLater(date: YearMonthDay)
    requires IsValid(date)
    ensures Before(date, NextDay(date))
  {}

  lemma {:induction false} MoreDaysIsLater(i: nat, j: nat)
    requires i < j
    ensures Before(DaysAfter(EPOCH, i), DaysAfter(EPOCH, j))
  {
    hide GetYearMonthDay, ToJdn, NextDay, IsValid, IsLeapYear;
    ClosedFormIsCalendar(j - 1);
    NextDayIsLater(DaysAfter(EPOCH, j - 1));
    if i < j - 1 { MoreDaysIsLater(i, j - 1); }
  }

  lemma BeforeByMarch(d1: YearMonthDay, d2: YearMonthDay)
    requires IsValid(d1) && IsValid(d2)
    ensures var y1, y2 := MarchYear(d1), MarchYear(d2);
            && (Before(d1, d2) <==> y1 < y2 || (y1 == y2 && DayOfYear(d1) < DayOfYear(d2)))
            && (d1 == d2 <==> y1 == y2 && DayOfYear(d1) == DayOfYear(d2))
  {
    hide IsLeapYear;
    if MarchYear(d1) == MarchYear(d2) {
      if MarchMonth(d1) < MarchMonth(d2) {
        LaterMonth(d1, d2);
      } else if MarchMonth(d2) < MarchMonth(d1) {
        LaterMonth(d2, d1);
      }
    }
  }

  lemma LaterMonth(d1: YearMonthDay, d2: YearMonthDay)
    requires IsValid(d1) && IsValid(d2) && MarchMonth(d1) < MarchMonth(d2)
    ensures DayOfYear(d1) < DayOfYear(d2)
  {
    if MarchMonth(d1) <= 10 { MonthSpan(MarchMonth(d1), d1.year); }
    hide IsLeapYear;
    assert MonthStart(MarchMonth(d1) + 1) <= MonthStart(MarchMonth(d2));
  }

  /** Whole years are counted by at least 365 days each. */
  lemma {:induction false} YearsApart(y1: int, y2: int)
    requires y1 <= y2
    ensures CountedYearStart(y2) >= CountedYearStart(y1) + 365 * (y2 - y1)
    decreases y2 - y1
  {
    hide CountedYearStart;
    if y1 < y2 {
      YearsApart(y1, y2 - 1);
      CountedYearStep(y2 - 1);
    }
  }

  /** 29 February and 1 March of a leap year before the epoch, which share a day number. */
  predicate ShareDayNumber(d1: YearMonthDay, d2: YearMonthDay) {
    Miscounted(d1) && IsLeapYear(d1.year) && d2 == NextDay(d1)
  }

  /** Of dates in different March-based years only those two are not told apart. */
  lemma LaterYear(d1: YearMonthDay, d2: YearMonthDay)
    requires IsValid(d1) && IsValid(d2) && MarchYear(d1) < MarchYear(d2)
    ensures ToJdn(d1) <= ToJdn(d2)
    ensures ToJdn(d1) == ToJdn(d2) <==> ShareDayNumber(d1, d2)
  {
    hide ToJdn, CountedYearStart, Before, NextDay, DayOfYear, IsLeapYear, MonthLength, MarchYear, IsValid, Miscounted;
    JdnByCountedYear(d1);
    JdnByCountedYear(d2);
    DayOfYearInYear(d1);
    DayOfYearInYear(d2);
    NextDayByMarch(d1);
    MiscountedIsYearEnd(d1);
    CountedYearStep(MarchYear(d1));
    YearsApart(MarchYear(d1) + 1, MarchYear(d2));
    BeforeByMarch(NextDay(d1), d2);
    if DayOfYear(d1) + 1 == MarchYearLength(MarchYear(d1)) { YearEndOff(d1); }
  }

  lemma MiscountedIsYearEnd(date: YearMonthDay)
    requires IsValid(date)
    ensures Miscounted(date) ==> DayOfYear(date) + 1 == MarchYearLength(MarchYear(date))
  {
    YearEndIsFebruary(date);
  }

  /**
   * Date::operator< (on day numbers) is the calendar order, and operator== is equality of dates, for
   * all valid dates but the pairs that share a day number.
   */
  lemma OrderIsCalendarOrder(d1: YearMonthDay, d2: YearMonthDay)
    requires IsValid(d1) && IsValid(d2)
    ensures ToJdn(d1) < ToJdn(d2) <==> Before(d1, d2) && !ShareDayNumber(d1, d2)
    ensures ToJdn(d1) == ToJdn(d2) <==> d1 == d2 || ShareDayNumber(d1, d2) || ShareDayNumber(d2, d1)
  {
    BeforeByMarch(d1, d2);
    BeforeByMarch(d2, d1);
    if MarchYear(d1) < MarchYear(d2) {
      LaterYear(d1, d2);
      SharersAreOrdered(d2, d1);
    } else if MarchYear(d2) < MarchYear(d1) {
      LaterYear(d2, d1);
      SharersAreOrdered(d1, d2);
    } else {
      JdnByCountedYear(d1);
      JdnByCountedYear(d2);
      SharersAreOrdered(d1, d2);
      SharersAreOrdered(d2, d1);
    }
    hide ToJdn, CountedYearStart, Before, DayOfYear, ShareDayNumber;
  }

  lemma SharersAreOrdered(d1: YearMonthDay, d2: YearMonthDay)
    requires IsValid(d1)
    ensures ShareDayNumber(d1, d2) ==> MarchYear(d1) < MarchYear(d2)
  {
    NextDayByMarch(d1);
    YearEndIsFebruary(d1);
    hide DayOfYear, NextDay;
  }

  /** weekDay is in [0, 6] unless the day number lies below -1 and off a Sunday. */
  lemma WeekDayRange(jdn: int)
    ensures 0 <= WeekDay(jdn) <= 6 <==> (jdn >= -1 || (jdn + 1) % 7 == 0)
  {
    if jdn < -1 {
      assert -(jdn + 1) % 7 == 0 <==> (jdn + 1) % 7 == 0;
    }
  }

  /** The weekday moves on by one modulo 7 with the calendar, exactly where the day number does. */
  lemma WeekDayAdvances(date: YearMonthDay)
    requires IsValid(date)
    ensures (WeekDay(ToJdn(NextDay(date))) - WeekDay(ToJdn(date)) - 1) % 7 == 0 <==> !Miscounted(date)
    ensures ToJdn(date) >= -1 ==> WeekDay(ToJdn(NextDay(date))) == (WeekDay(ToJdn(date)) + 1) % 7
  {
    DayCountStep(date);
    if Before(date, EPOCH) { JdnOfEarlyDate(date); }
    hide ToJdn, WeekDay, Before, IsValid, NextDay, Miscounted, IsLeapYear;
    WeekDayStep(ToJdn(date), ToJdn(NextDay(date)));
  }

  lemma WeekDayStep(j: int, k: int)
    requires j <= k <= j + 2
    ensures (WeekDay(k) - WeekDay(j) - 1) % 7 == 0 <==> k == j + 1
    ensures j >= -1 && k == j + 1 ==> WeekDay(k) == (WeekDay(j) + 1) % 7
  {
    hide Div;
    var q := Div(j + 1, 7) - Div(k + 1, 7);
    assert WeekDay(k) - WeekDay(j) - 1 == k - j - 1 + 7 * q;
    assert (k - j - 1 + 7 * q) % 7 == (k - j - 1) % 7;
    if j >= -1 && k == j + 1 { NextOfWeek(j); }
  }

  lemma NextOfWeek(j: int)
    requires j >= -1
    ensures WeekDay(j + 1) == (WeekDay(j) + 1) % 7
  {}

  /** 1 January 1970, the program's kJulianDayof1970_01_01, was a Thursday. */
  lemma UnixEpochIsThursday()
    ensures ToJdn(YearMonthDay(1970, 1, 1)) == 2440588 && WeekDay(2440588) == 4
  {}

  // ---------------------------------------------------------------------
  // 32-bit arithmetic
  // ---------------------------------------------------------------------

  const INT_MAX := 0x7fff_ffff
  const MAX_JDN := 536838867

  predicate FitsInt(x: int) { -INT_MAX - 1 <= x <= INT_MAX }

  /** No intermediate value of getYearMonthDay leaves the range of int. */
  predicate FromJdnFits(jdn: int) {
    var a := jdn + 32044;
    var b := Div(4 * a + 3, 146097);
    var c := a - Div(b * 146097, 4);
    var d := Div(4 * c + 3, 1461);
    var e := c - Div(1461 * d, 4);
    var m := Div(5 * e + 2, 153);
    && FitsInt(a) && FitsInt(4 * a) && FitsInt(4 * a + 3) && FitsInt(b * 146097) && FitsInt(c)
    && FitsInt(4 * c + 3) && FitsInt(1461 * d) && FitsInt(e) && FitsInt(5 * e + 2)
    && FitsInt(153 * m + 2) && FitsInt(b * 100 + d)
  }

  /** No intermediate value of getJulianDayNumber leaves the range of int. */
  predicate ToJdnFits(date: YearMonthDay) {
    var a := Div(14 - date.month, 12);
    var y := date.year + 4800 - a;
    var m := date.month + 12 * a - 3;
    var s1 := date.day + Div(153 * m + 2, 5);
    var s2 := s1 + y * 365;
    var s3 := s2 + Div(y, 4);
    var s4 := s3 - Div(y, 100);
    var s5 := s4 + Div(y, 400);
    && FitsInt(date.year + 4800) && FitsInt(y) && FitsInt(153 * m + 2) && FitsInt(s1)
    && FitsInt(y * 365) && FitsInt(s2) && FitsInt(s3) && FitsInt(s4) && FitsInt(s5)
    && FitsInt(s5 - 32045)
  }

  /** From the epoch on, getYearMonthDay overflows exactly above MAX_JDN. */
  lemma OverflowBound(jdn: int)
    requires jdn >= EPOCH_JDN
    ensures FromJdnFits(jdn) <==> jdn <= MAX_JDN
  {
    if jdn <= MAX_JDN {
      var y, e := SplitDays(jdn - EPOCH_JDN);
      var b, d := y / 100, y % 100;
      YearStartByCentury(b, d);
      CenturyBound(b, d, e);
      CenturyRecovered(b, 1461 * d / 4 + e);
      YearRecovered(b, d, e);
    }
  }

  /** Every date getYearMonthDay can produce without overflow converts back without overflow. */
  lemma RoundTripFits(jdn: int)
    requires EPOCH_JDN <= jdn <= MAX_JDN
    ensures FromJdnFits(jdn) && ToJdnFits(GetYearMonthDay(jdn))
  {
    OverflowBound(jdn);
    JdnRoundTrip(jdn);
    var date := GetYearMonthDay(jdn);
    hide GetYearMonthDay, ToJdn, FromJdnFits, Before, MonthLength, MarchYearLength;
    OnOrAfterEpoch(date);
    JdnByMarch(date);
    DayOfYearInYear(date);
    DateFits(date);
  }

  lemma DateFits(date: YearMonthDay)
    requires IsValid(date) && MarchYear(date) >= 0
    requires YearStart(MarchYear(date)) + DayOfYear(date) <= MAX_JDN - EPOCH_JDN
    ensures ToJdnFits(date)
  {
    hide MonthLength;
    var y := MarchYear(date);
    assert 365 * y <= YearStart(y) <= 366 * y;
  }
}
