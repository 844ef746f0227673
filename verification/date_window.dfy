/**
 * The month window of a run (`define_start_end_date`) and the instants its
 * bounds denote when a timestamp column is compared with `label + "-01"`.
 */
module DateWindow {
  import opened Results
  import opened Failures
  import opened Decimal
  import opened Calendar

  /** Labels of the processed month and of the month after it. */
  datatype Window = Window(start: string, end: string)

  /** Two decimal digits, zero-padded. */
  function TwoDigits(n: int): string
    requires 0 <= n <= 99
  {
    [DigitChar(n / 10), DigitChar(n % 10)]
  }

  /** The zero-padded label "Y-MM" of month m of year y. */
  function MonthLabel(y: int, m: int): string
    requires 1 <= m <= 12
  {
    IntToString(y) + "-" + TwoDigits(m)
  }

  /** The text "Y-MM-DD" of day d of month m of year y. */
  function DateText(y: int, m: int, d: int): string
    requires 1 <= m <= 12 && 1 <= d <= 31
  {
    MonthLabel(y, m) + "-" + TwoDigits(d)
  }

  /**
   * The case analysis of the source, branch by branch. A month above 12 falls
   * through every branch and the source fails on its unbound result.
   */
  function StartEndDate(year: int, month: int): (r: Result<Window, Failure>)
    ensures r.Ok? <==> month <= 12
    ensures r.Err? ==> r.error == NoWindowForMonth(month)
  {
    var y := IntToString(year);
    if month < 9 then
      Ok(Window(y + "-0" + IntToString(month), y + "-0" + IntToString(month + 1)))
    else if month == 9 then
      Ok(Window(y + "-0" + IntToString(month), y + "-10"))
    else if month == 10 || month == 11 then
      Ok(Window(y + "-" + IntToString(month), y + "-" + IntToString(month + 1)))
    else if month == 12 then
      Ok(Window(y + "-" + IntToString(month), IntToString(year + 1) + "-01"))
    else
      Err(NoWindowForMonth(month))
  }

  lemma SmallNumerals(n: nat)
    requires n < 100
    ensures n < 10 ==> NatToString(n) == [DigitChar(n)]
    ensures 10 <= n ==> NatToString(n) == [DigitChar(n / 10), DigitChar(n % 10)]
  {
  }

  /** For every real month the window is (label of the month, label of the next month). */
  lemma {:induction false} StartEndDateLabels(year: int, month: int)
    requires 1 <= month <= 12
    ensures StartEndDate(year, month)
         == Ok(Window(MonthLabel(year, month),
                      MonthLabel(NextMonth(year, month).0, NextMonth(year, month).1)))
  {
    var y := IntToString(year);
    var next := NextMonth(year, month);
    SmallNumerals(month);
    SmallNumerals(month + 1);
    assert DigitChar(0) == '0' && DigitChar(1) == '1' && DigitChar(2) == '2';
    if month < 9 {
      assert y + "-0" + IntToString(month) == y + "-" + [DigitChar(0), DigitChar(month)];
      assert y + "-0" + IntToString(month + 1) == y + "-" + [DigitChar(0), DigitChar(month + 1)];
    } else if month == 9 {
      assert y + "-0" + IntToString(month) == y + "-" + [DigitChar(0), DigitChar(9)];
      assert y + "-10" == y + "-" + [DigitChar(1), DigitChar(0)];
    } else if month < 12 {
      assert y + "-" + IntToString(month) == y + "-" + [DigitChar(1), DigitChar(month - 10)];
      assert y + "-" + IntToString(month + 1) == y + "-" + [DigitChar(1), DigitChar(month - 9)];
    } else {
      assert y + "-" + IntToString(month) == y + "-" + [DigitChar(1), DigitChar(2)];
      assert IntToString(year + 1) + "-01" == IntToString(next.0) + "-" + [DigitChar(0), DigitChar(1)];
    }
  }

  lemma YearNumerals()
    ensures IntToString(2023) == "2023" && IntToString(2024) == "2024"
  {
    assert NatToString(20) == "20";
    assert NatToString(202) == "202";
  }

  lemma MarchWindow()
    ensures StartEndDate(2023, 3) == Ok(Window("2023-03", "2023-04"))
  {
    YearNumerals();
    StartEndDateLabels(2023, 3);
    assert MonthLabel(2023, 3) == "2023" + "-" + "03" == "2023-03";
    assert MonthLabel(2023, 4) == "2023" + "-" + "04" == "2023-04";
  }

  lemma SeptemberWindow()
    ensures StartEndDate(2023, 9) == Ok(Window("2023-09", "2023-10"))
  {
    YearNumerals();
    StartEndDateLabels(2023, 9);
    assert MonthLabel(2023, 9) == "2023" + "-" + "09" == "2023-09";
    assert MonthLabel(2023, 10) == "2023" + "-" + "10" == "2023-10";
  }

  lemma DecemberWindow()
    ensures StartEndDate(2023, 12) == Ok(Window("2023-12", "2024-01"))
    ensures StartEndDate(2023, 13) == Err(NoWindowForMonth(13))
  {
    YearNumerals();
    StartEndDateLabels(2023, 12);
    assert MonthLabel(2023, 12) == "2023" + "-" + "12" == "2023-12";
    assert MonthLabel(2024, 1) == "2024" + "-" + "01" == "2024-01";
  }

  /**
   * The instant a date string "Y-MM-DD" denotes (Y a decimal numeral, MM a
   * month, DD a day of that month), or a failure for any other string.
   */
  function ParseDate(s: string): (r: Result<int, Failure>)
    ensures r.Err? ==> r.error == UnparsableDate(s)
    ensures r.Ok? ==> r.value % SecondsPerDay == 0
    ensures r.Ok? ==> |s| >= 7 && s[|s| - 6] == '-' && s[|s| - 3] == '-' && AllDigits(s[..|s| - 6])
    ensures r.Ok? ==> IsDigit(s[|s| - 5]) && IsDigit(s[|s| - 4]) && IsDigit(s[|s| - 2]) && IsDigit(s[|s| - 1])
  {
    if |s| >= 7 && s[|s| - 6] == '-' && s[|s| - 3] == '-' && AllDigits(s[..|s| - 6])
       && IsDigit(s[|s| - 5]) && IsDigit(s[|s| - 4])
       && IsDigit(s[|s| - 2]) && IsDigit(s[|s| - 1])
    then
      var y := ParseNat(s[..|s| - 6]);
      var m := 10 * DigitValue(s[|s| - 5]) + DigitValue(s[|s| - 4]);
      var d := 10 * DigitValue(s[|s| - 2]) + DigitValue(s[|s| - 1]);
      if 1 <= m <= 12 && 1 <= d <= DaysInMonth(y, m) then Ok(DayNumber(y, m, d) * SecondsPerDay)
      else Err(UnparsableDate(s))
    else
      Err(UnparsableDate(s))
  }

  /**
   * Every calendar day of a non-negative year, written "Y-MM-DD", reads as the
   * first instant of that day; written with a negative year it does not read.
   */
  lemma {:induction false} ParseDateRoundTrip(y: int, m: int, d: int)
    requires 1 <= m <= 12 && 1 <= d <= DaysInMonth(y, m)
    ensures y >= 0 ==> ParseDate(DateText(y, m, d)) == Ok(DayNumber(y, m, d) * SecondsPerDay)
    ensures y < 0 ==> ParseDate(DateText(y, m, d)) == Err(UnparsableDate(DateText(y, m, d)))
  {
    var ys := IntToString(y);
    var s := DateText(y, m, d);
    assert s == ys + ['-', DigitChar(m / 10), DigitChar(m % 10), '-', DigitChar(d / 10), DigitChar(d % 10)];
    assert s[..|s| - 6] == ys;
    if y >= 0 {
      ParseNatToString(y);
    } else {
      assert !IsDigit(ys[0]);
    }
  }

  /**
   * The label of a month of a non-negative year, with "-01" appended, reads
   * back as that month's first instant; a negative year's label does not read.
   */
  lemma MonthLabelRoundTrip(y: int, m: int)
    requires 1 <= m <= 12
    ensures y >= 0 ==> ParseDate(MonthLabel(y, m) + "-01") == Ok(MonthStart(y, m))
    ensures y < 0 ==> ParseDate(MonthLabel(y, m) + "-01").Err?
  {
    assert MonthLabel(y, m) + "-01" == DateText(y, m, 1);
    ParseDateRoundTrip(y, m, 1);
  }

  /**
   * A window bound as the timestamp comparison reads it, `label + "-01"`:
   * the first instant of the labelled month for a month label of a
   * non-negative year, a failure for a month label of a negative year.
   */
  function BoundInstant(monthLabel: string): (r: Result<int, Failure>)
    ensures forall y: int, m: int :: 1 <= m <= 12 && monthLabel == MonthLabel(y, m) ==>
              if y >= 0 then r == Ok(MonthStart(y, m)) else r.Err?
  {
    forall y: int, m: int | 1 <= m <= 12 && monthLabel == MonthLabel(y, m)
      ensures if y >= 0 then ParseDate(monthLabel + "-01") == Ok(MonthStart(y, m))
              else ParseDate(monthLabel + "-01").Err?
    {
      MonthLabelRoundTrip(y, m);
    }
    ParseDate(monthLabel + "-01")
  }

  /** A month field "00" never reads. */
  lemma ZeroMonthUnreadable(ys: string)
    ensures ParseDate(ys + "-00" + "-01").Err?
  {
    var s := ys + "-00" + "-01";
    assert s == ys + ['-', '0', '0', '-', '0', '1'];
    assert s[|s| - 5] == '0' && s[|s| - 4] == '0';
  }

  /** A label "Y-0-N" with "-01" appended never reads. */
  lemma SignedMonthUnreadable(ys: string, ds: string)
    requires 1 <= |ds|
    ensures ParseDate(ys + "-0" + ("-" + ds) + "-01").Err?
  {
    var s := ys + "-0" + ("-" + ds) + "-01";
    assert s == ys + ['-', '0', '-'] + ds + ['-', '0', '1'];
    if |ds| == 1 {
      assert s[|s| - 6] == '0';
    } else {
      assert s[|ys|] == '-' && |ys| < |s| - 6;
      assert s[..|s| - 6][|ys|] == '-';
    }
  }

  /**
   * For a month of 0 or below the source's f-strings produce labels such as
   * "2023-00" or "2023-0-3", whose first bound does not read as a date.
   */
  lemma NonPositiveMonthUnreadable(year: int, month: int)
    requires month <= 0
    ensures StartEndDate(year, month).Ok?
    ensures BoundInstant(StartEndDate(year, month).value.start).Err?
  {
    var ys := IntToString(year);
    assert StartEndDate(year, month).value.start == ys + "-0" + IntToString(month);
    if month == 0 {
      assert IntToString(0) == "0";
      assert ys + "-0" + IntToString(month) + "-01" == ys + "-00" + "-01";
      ZeroMonthUnreadable(ys);
    } else {
      SignedMonthUnreadable(ys, NatToString(-month));
    }
  }
}
