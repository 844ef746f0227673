/**
 * The month-at-a-time cleaning run (`clean_yellow_taxi_df`): window labels,
 * zone map, then imputation, integrity filtering, feature derivation and
 * inferred filtering, failing as soon as a stage fails. The zone table and the
 * month's rows are parameters instead of files.
 */
module Pipeline {
  import opened Results
  import opened Failures
  import opened Trips
  import opened Calendar
  import opened DateWindow
  import opened Imputation
  import opened Integrity
  import opened Zones
  import opened Features
  import opened Inferred

  /**
   * Reference definition of the surviving rows: each row that passes the
   * integrity conjunction and whose enriched form passes the inferred bounds,
   * enriched, in input order.
   */
  function Kept(rows: seq<Trip>, lo: int, hi: int, zones: map<int, string>): (r: seq<Enriched>)
    ensures |r| <= |rows|
    ensures forall j :: 0 <= j < |r| ==>
              r[j].trip in rows && Valid(r[j].trip, lo, hi) && Plausible(r[j]) && r[j] == Enrich(r[j].trip, zones)
    ensures forall i :: 0 <= i < |rows| && Valid(rows[i], lo, hi) && Plausible(Enrich(rows[i], zones))
              ==> Enrich(rows[i], zones) in r
  {
    if |rows| == 0 then []
    else
      var e := Enrich(rows[0], zones);
      var rest := Kept(rows[1..], lo, hi, zones);
      assert forall i :: 1 <= i < |rows| ==> rows[i] == rows[1..][i - 1];
      if Valid(rows[0], lo, hi) && Plausible(e) then [e] + rest else rest
  }

  lemma DeriveCons(t: Trip, rows: seq<Trip>, zones: map<int, string>)
    ensures Derive([t] + rows, zones) == [Enrich(t, zones)] + Derive(rows, zones)
  {
    assert ([t] + rows)[1..] == rows;
  }

  lemma InferredCons(e: Enriched, rows: seq<Enriched>)
    ensures InferredFilter([e] + rows)
         == (if Plausible(e) then [e] else []) + InferredFilter(rows)
  {
    assert ([e] + rows)[1..] == rows;
  }

  /** The three row stages together select and enrich exactly the rows of `Kept`. */
  lemma {:induction false} StagesCompose(rows: seq<Trip>, lo: int, hi: int, zones: map<int, string>)
    ensures InferredFilter(Derive(IntegrityFilter(rows, lo, hi), zones)) == Kept(rows, lo, hi, zones)
  {
    if |rows| > 0 {
      var t := rows[0];
      var tail := IntegrityFilter(rows[1..], lo, hi);
      StagesCompose(rows[1..], lo, hi, zones);
      if Valid(t, lo, hi) {
        assert IntegrityFilter(rows, lo, hi) == [t] + tail;
        DeriveCons(t, tail, zones);
        InferredCons(Enrich(t, zones), Derive(tail, zones));
      } else {
        assert IntegrityFilter(rows, lo, hi) == tail;
      }
    }
  }

  /**
   * One cleaning run. A month above 12 fails first; a null left after
   * imputation fails next; a month of 0 or below always fails; on success every row is plausible and lasts a
   * positive time, and no more rows come out than went in.
   */
  function Clean(zoneTable: seq<ZoneRow>, raw: seq<RawTrip>, year: int, month: int)
    : (r: Result<seq<Enriched>, Failure>)
    ensures month > 12 ==> r == Err(NoWindowForMonth(month))
    ensures (month <= 12 && exists i :: 0 <= i < |raw| && NullOutsideFilled(raw[i])) ==> r == Err(NullsAfterImputation)
    ensures month <= 0 ==> r.Err?
    ensures r.Ok? ==> |r.value| <= |raw|
    ensures r.Ok? ==> forall j :: 0 <= j < |r.value| ==> Plausible(r.value[j]) && 0.0 < r.value[j].tripTimeMin
  {
    var window :- StartEndDate(year, month);
    var zones := ZoneMapping(zoneTable);
    var trips :- Impute(raw);
    assert month <= 0 ==> BoundInstant(window.start).Err? by {
      if month <= 0 {
        NonPositiveMonthUnreadable(year, month);
      }
    }
    var lo :- BoundInstant(window.start);
    var hi :- BoundInstant(window.end);
    var out := InferredFilter(Derive(IntegrityFilter(trips, lo, hi), zones));
    StagesCompose(trips, lo, hi, zones);
    assert forall j :: 0 <= j < |out| ==> 0.0 < out[j].tripTimeMin by {
      forall j | 0 <= j < |out|
        ensures 0.0 < out[j].tripTimeMin
      {
        PositiveTripTime(out[j].trip, lo, hi, zones);
      }
    }
    Ok(out)
  }

  /**
   * For a real month of a non-negative year the run compares timestamps with
   * the first instant of the month and, inclusively, the first instant of the
   * next month, and returns exactly the `Kept` rows of the imputed batch.
   */
  lemma CleanCharacterization(zoneTable: seq<ZoneRow>, raw: seq<RawTrip>, year: int, month: int)
    requires year >= 0 && 1 <= month <= 12
    ensures Impute(raw).Ok? ==>
              Clean(zoneTable, raw, year, month)
              == Ok(Kept(Impute(raw).value, MonthStart(year, month),
                         MonthStart(NextMonth(year, month).0, NextMonth(year, month).1),
                         ZoneMapping(zoneTable)))
    ensures Impute(raw).Err? ==> Clean(zoneTable, raw, year, month) == Err(NullsAfterImputation)
  {
    var next := NextMonth(year, month);
    StartEndDateLabels(year, month);
    MonthLabelRoundTrip(year, month);
    MonthLabelRoundTrip(next.0, next.1);
    if Impute(raw).Ok? {
      StagesCompose(Impute(raw).value, MonthStart(year, month), MonthStart(next.0, next.1),
                    ZoneMapping(zoneTable));
    }
  }

  /** A negative year's labels do not read as dates, so a run that gets past imputation fails. */
  lemma NegativeYearFails(zoneTable: seq<ZoneRow>, raw: seq<RawTrip>, year: int, month: int)
    requires year < 0 && 1 <= month <= 12
    ensures Clean(zoneTable, raw, year, month).Err?
  {
    StartEndDateLabels(year, month);
    MonthLabelRoundTrip(year, month);
  }

  /**
   * The upper window bound is inclusive: a surviving row moved to end exactly
   * at the first instant of the next month still survives integrity filtering.
   */
  lemma UpperBoundInclusive(t: Trip, year: nat, month: int)
    requires 1 <= month <= 12
    requires Valid(t, MonthStart(year, month), MonthStart(NextMonth(year, month).0, NextMonth(year, month).1))
    ensures NextMonth(year, month).0 >= 0
    ensures var hi := MonthStart(NextMonth(year, month).0, NextMonth(year, month).1);
            Valid(t.(dropoff := hi), MonthStart(year, month), hi)
            && hi == MonthStart(year, month) + DaysInMonth(year, month) * SecondsPerDay
  {
    MonthStartStep(year, month);
  }
}
