/**
 * The trip record. Timestamps are seconds since 1970-01-01T00:00; identifiers,
 * codes and passenger counts are integers; money and distance are exact reals.
 */
module Trips {
  import opened Results

  /** A row as read from the monthly file: any cell may be null. */
  datatype RawTrip = RawTrip(
    vendorId: Option<int>,
    pickup: Option<int>,
    dropoff: Option<int>,
    passengerCount: Option<int>,
    tripDistance: Option<real>,
    ratecodeId: Option<int>,
    storeAndFwdFlag: Option<string>,
    puLocationId: Option<int>,
    doLocationId: Option<int>,
    paymentType: Option<int>,
    fareAmount: Option<real>,
    extra: Option<real>,
    mtaTax: Option<real>,
    tipAmount: Option<real>,
    tollsAmount: Option<real>,
    totalAmount: Option<real>,
    congestionSurcharge: Option<real>,
    airportFee: Option<real>)

  /** A row with no null cell. */
  datatype Trip = Trip(
    vendorId: int,
    pickup: int,
    dropoff: int,
    passengerCount: int,
    tripDistance: real,
    ratecodeId: int,
    storeAndFwdFlag: string,
    puLocationId: int,
    doLocationId: int,
    paymentType: int,
    fareAmount: real,
    extra: real,
    mtaTax: real,
    tipAmount: real,
    tollsAmount: real,
    totalAmount: real,
    congestionSurcharge: real,
    airportFee: real)

  /** Every cell of the row is present. */
  predicate NoNulls(r: RawTrip) {
    && r.vendorId.Some? && r.pickup.Some? && r.dropoff.Some?
    && r.passengerCount.Some? && r.tripDistance.Some? && r.ratecodeId.Some?
    && r.storeAndFwdFlag.Some? && r.puLocationId.Some? && r.doLocationId.Some?
    && r.paymentType.Some? && r.fareAmount.Some? && r.extra.Some?
    && r.mtaTax.Some? && r.tipAmount.Some? && r.tollsAmount.Some?
    && r.totalAmount.Some? && r.congestionSurcharge.Some? && r.airportFee.Some?
  }

  /** The raw row holding exactly the cells of `t`. */
  function AsRaw(t: Trip): (r: RawTrip)
    ensures NoNulls(r)
  {
    RawTrip(
      Some(t.vendorId), Some(t.pickup), Some(t.dropoff), Some(t.passengerCount),
      Some(t.tripDistance), Some(t.ratecodeId), Some(t.storeAndFwdFlag),
      Some(t.puLocationId), Some(t.doLocationId), Some(t.paymentType),
      Some(t.fareAmount), Some(t.extra), Some(t.mtaTax), Some(t.tipAmount),
      Some(t.tollsAmount), Some(t.totalAmount), Some(t.congestionSurcharge),
      Some(t.airportFee))
  }

  /** The trip whose cells are those of a null-free raw row. */
  function FromRaw(r: RawTrip): (t: Trip)
    requires NoNulls(r)
    ensures AsRaw(t) == r
  {
    Trip(
      r.vendorId.value, r.pickup.value, r.dropoff.value, r.passengerCount.value,
      r.tripDistance.value, r.ratecodeId.value, r.storeAndFwdFlag.value,
      r.puLocationId.value, r.doLocationId.value, r.paymentType.value,
      r.fareAmount.value, r.extra.value, r.mtaTax.value, r.tipAmount.value,
      r.tollsAmount.value, r.totalAmount.value, r.congestionSurcharge.value,
      r.airportFee.value)
  }

  /** Dropping and restoring the Option wrappers loses nothing. */
  lemma FromRawAsRaw(t: Trip)
    ensures FromRaw(AsRaw(t)) == t
  {
  }
}
