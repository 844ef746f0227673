/**
 * Missing-value imputation (`data_missing_value_imputation`): five nullable
 * columns get fixed defaults, and the stage fails if any null is left anywhere.
 */
module Imputation {
  import opened Results
  import opened Failures
  import opened Trips

  /** Out-of-range code recognisable downstream as "unknown rate". */
  const RatecodeFill: int := 0
  /** A missing flag is taken to mean the trip was stored on board. */
  const FlagFill: string := "Y"
  /** The most common surcharge. */
  const CongestionFill: real := 2.5
  /** No airport fee is assumed. */
  const AirportFeeFill: real := 0.0
  /** Sentinel for an unknown passenger count. */
  const PassengerFill: int := -1

  /** `fillna` on one cell. */
  function Fill<T>(cell: Option<T>, default: T): (r: Option<T>)
    ensures r.Some?
    ensures cell.Some? ==> r == cell
    ensures cell.None? ==> r == Some(default)
  {
    Some(cell.GetOr(default))
  }

  /** The columns the stage fills are all present. */
  predicate FilledColumnsPresent(r: RawTrip) {
    && r.ratecodeId.Some? && r.storeAndFwdFlag.Some? && r.congestionSurcharge.Some?
    && r.airportFee.Some? && r.passengerCount.Some?
  }

  /** Some column the stage does not fill is null. */
  predicate NullOutsideFilled(r: RawTrip) {
    || r.vendorId.None? || r.pickup.None? || r.dropoff.None?
    || r.tripDistance.None? || r.puLocationId.None? || r.doLocationId.None?
    || r.paymentType.None? || r.fareAmount.None? || r.extra.None?
    || r.mtaTax.None? || r.tipAmount.None? || r.tollsAmount.None?
    || r.totalAmount.None?
  }

  /** The columns the stage does not fill are equal in both rows. */
  predicate SameUnfilledColumns(a: RawTrip, b: RawTrip) {
    && a.vendorId == b.vendorId && a.pickup == b.pickup && a.dropoff == b.dropoff
    && a.tripDistance == b.tripDistance && a.puLocationId == b.puLocationId
    && a.doLocationId == b.doLocationId && a.paymentType == b.paymentType
    && a.fareAmount == b.fareAmount && a.extra == b.extra && a.mtaTax == b.mtaTax
    && a.tipAmount == b.tipAmount && a.tollsAmount == b.tollsAmount
    && a.totalAmount == b.totalAmount
  }

  /** Every present cell of `a` holds the same value in `b`. */
  predicate KeepsPresentCells(a: RawTrip, b: RawTrip) {
    && (a.ratecodeId.Some? ==> b.ratecodeId == a.ratecodeId)
    && (a.storeAndFwdFlag.Some? ==> b.storeAndFwdFlag == a.storeAndFwdFlag)
    && (a.congestionSurcharge.Some? ==> b.congestionSurcharge == a.congestionSurcharge)
    && (a.airportFee.Some? ==> b.airportFee == a.airportFee)
    && (a.passengerCount.Some? ==> b.passengerCount == a.passengerCount)
    && SameUnfilledColumns(a, b)
  }

  /** The five `fillna` calls applied to one row. */
  function FillRow(r: RawTrip): (f: RawTrip)
    ensures FilledColumnsPresent(f)
    ensures KeepsPresentCells(r, f)
    ensures r.ratecodeId.None? ==> f.ratecodeId == Some(RatecodeFill)
    ensures r.storeAndFwdFlag.None? ==> f.storeAndFwdFlag == Some(FlagFill)
    ensures r.congestionSurcharge.None? ==> f.congestionSurcharge == Some(CongestionFill)
    ensures r.airportFee.None? ==> f.airportFee == Some(AirportFeeFill)
    ensures r.passengerCount.None? ==> f.passengerCount == Some(PassengerFill)
  {
    r.(ratecodeId := Fill(r.ratecodeId, RatecodeFill),
       storeAndFwdFlag := Fill(r.storeAndFwdFlag, FlagFill),
       congestionSurcharge := Fill(r.congestionSurcharge, CongestionFill),
       airportFee := Fill(r.airportFee, AirportFeeFill),
       passengerCount := Fill(r.passengerCount, PassengerFill))
  }

  /** Filling a filled row changes nothing. */
  lemma FillRowIdempotent(r: RawTrip)
    ensures FillRow(FillRow(r)) == FillRow(r)
  {
  }

  /** After filling, a row is null-free exactly when no column outside the five was null. */
  lemma FilledRowNoNulls(r: RawTrip)
    ensures NoNulls(FillRow(r)) <==> !NullOutsideFilled(r)
  {
  }

  /**
   * The stage on a whole batch: fails exactly when some row has a null in a
   * column it does not fill; otherwise returns the filled rows, one per input
   * row and in the same order.
   */
  function Impute(rows: seq<RawTrip>): (res: Result<seq<Trip>, Failure>)
    ensures res.Ok? <==> forall i :: 0 <= i < |rows| ==> !NullOutsideFilled(rows[i])
    ensures res.Err? ==> res.error == NullsAfterImputation
    ensures res.Ok? ==> |res.value| == |rows|
    ensures res.Ok? ==> forall i :: 0 <= i < |rows| ==> AsRaw(res.value[i]) == FillRow(rows[i])
  {
    if forall i :: 0 <= i < |rows| ==> NoNulls(FillRow(rows[i])) then
      Ok(seq(|rows|, i requires 0 <= i < |rows| => FromRaw(FillRow(rows[i]))))
    else
      assert exists i :: 0 <= i < |rows| && !NoNulls(FillRow(rows[i]));
      Err(NullsAfterImputation)
  }

  /** The raw rows holding exactly the cells of `trips`. */
  function AsRawRows(trips: seq<Trip>): (rows: seq<RawTrip>)
    ensures |rows| == |trips|
    ensures forall i :: 0 <= i < |trips| ==> rows[i] == AsRaw(trips[i])
  {
    seq(|trips|, i requires 0 <= i < |trips| => AsRaw(trips[i]))
  }

  /** Imputing the output of a successful imputation again gives the same output. */
  lemma ImputeIdempotent(rows: seq<RawTrip>)
    requires Impute(rows).Ok?
    ensures Impute(AsRawRows(Impute(rows).value)) == Impute(rows)
  {
    var trips := Impute(rows).value;
    var again := AsRawRows(trips);
    forall i | 0 <= i < |again|
      ensures FillRow(again[i]) == again[i]
    {
      FillRowIdempotent(rows[i]);
    }
    var second := Impute(again);
    assert second.Ok?;
    forall i | 0 <= i < |trips|
      ensures second.value[i] == trips[i]
    {
      assert AsRaw(second.value[i]) == FillRow(again[i]) == AsRaw(trips[i]);
      FromRawAsRaw(second.value[i]);
      FromRawAsRaw(trips[i]);
    }
    assert second.value == trips;
  }
}
