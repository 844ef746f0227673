/**
 * Proleptic Gregorian calendar arithmetic: the instant, in seconds since
 * 1970-01-01T00:00, at which a calendar day begins. Timestamps of trips are
 * measured on the same scale.
 */
module Calendar {

  const SecondsPerDay: int := 86400

  /** Days from 0000-01-01 to 1970-01-01. */
  const EpochDays: int := 719528

  predicate IsLeapYear(y: int) {
    y % 4 == 0 && (y % 100 != 0 || y % 400 == 0)
  }

  function DaysInMonth(y: int, m: int): (d: int)
    requires 1 <= m <= 12
    ensures 28 <= d <= 31
  {
    if m == 2 then (if IsLeapYear(y) then 29 else 28)
    else if m == 4 || m == 6 || m == 9 || m == 11 then 30
    else 31
  }

  /** The month after (y, m), rolling December over into January of the next year. */
  function NextMonth(y: int, m: int): (r: (int, int))
    requires 1 <= m <= 12
    ensures 1 <= r.1 <= 12
    ensures r.0 * 12 + r.1 == y * 12 + m + 1
  {
    if m == 12 then (y + 1, 1) else (y, m + 1)
  }

  /** Number of leap years in [0, y). */
  function LeapYearsBefore(y: nat): int {
    (y + 3) / 4 - (y + 99) / 100 + (y + 399) / 400
  }

  /** Days of year y that precede the first of month m. */
  function DaysBeforeMonth(y: int, m: int): int
    requires 1 <= m <= 12
  {
    [0, 31, 59, 90, 120, 151, 181, 212, 243, 273, 304, 334][m - 1]
      + (if m > 2 && IsLeapYear(y) then 1 else 0)
  }

  /** Days from 1970-01-01 to the date (y, m, d). */
  function DayNumber(y: nat, m: int, d: int): int
    requires 1 <= m <= 12
  {
    365 * y + LeapYearsBefore(y) + DaysBeforeMonth(y, m) + d - 1 - EpochDays
  }

  /** The first instant of month m of year y. */
  function MonthStart(y: nat, m: int): int
    requires 1 <= m <= 12
  {
    DayNumber(y, m, 1) * SecondsPerDay
  }

  lemma QuarterStep(y: nat)
    ensures (y + 4) / 4 - (y + 3) / 4 == (if y % 4 == 0 then 1 else 0)
  {
    var q := y / 4;
    assert y == 4 * q + y % 4;
  }

  lemma CenturyStep(y: nat)
    ensures (y + 100) / 100 - (y + 99) / 100 == (if y % 100 == 0 then 1 else 0)
  {
    var q := y / 100;
    assert y == 100 * q + y % 100;
  }

  lemma QuadCenturyStep(y: nat)
    ensures (y + 400) / 400 - (y + 399) / 400 == (if y % 400 == 0 then 1 else 0)
  {
    var q := y / 400;
    assert y == 400 * q + y % 400;
  }

  lemma CenturyIsLeapCandidate(y: nat)
    requires y % 100 == 0
    ensures y % 4 == 0
  {
    var c := y / 100;
    assert y == 4 * (25 * c) + 0;
    assert y / 4 == 25 * c;
  }

  lemma QuadCenturyIsCentury(y: nat)
    requires y % 400 == 0
    ensures y % 100 == 0
  {
    var c := y / 400;
    assert y == 400 * c;
    var k := 4 * c;
    assert y == 100 * k;
  }

  lemma LeapYearsStep(y: nat)
    ensures LeapYearsBefore(y + 1) == LeapYearsBefore(y) + (if IsLeapYear(y) then 1 else 0)
  {
    QuarterStep(y);
    CenturyStep(y);
    QuadCenturyStep(y);
    if y % 400 == 0 {
      QuadCenturyIsCentury(y);
    }
    if y % 100 == 0 {
      CenturyIsLeapCandidate(y);
    }
  }

  /** Consecutive month starts lie exactly one month length apart. */
  lemma MonthStartStep(y: nat, m: int)
    requires 1 <= m <= 12
    ensures NextMonth(y, m).0 >= 0
    ensures MonthStart(NextMonth(y, m).0, NextMonth(y, m).1)
         == MonthStart(y, m) + DaysInMonth(y, m) * SecondsPerDay
  {
    if m == 12 {
      LeapYearsStep(y);
    }
  }

  /** 2023-03-01T00:00 is 1677628800 seconds after 1970-01-01T00:00. */
  lemma MonthStartExample()
    ensures MonthStart(1970, 1) == 0
    ensures MonthStart(2023, 3) == 1677628800
  {
  }
}
