/**
 * Integrity filtering (`data_integrity_filtering`): a row survives only when
 * every documented domain, sign, date-window and ordering condition holds.
 * `lo` and `hi` are the instants of the two window bounds.
 */
module Integrity {
  import opened Trips
  import Filtering

  /** The conjunction the source evaluates for each row. */
  predicate Valid(t: Trip, lo: int, hi: int) {
    // valid vendors and zones
    && t.vendorId in {1, 2}
    && 1 <= t.doLocationId <= 263
    && 1 <= t.puLocationId <= 263
    // one to six passengers, or the imputed sentinel
    && (1 <= t.passengerCount <= 6 || t.passengerCount == -1)
    // codes with documented values
    && 0 <= t.ratecodeId <= 6
    && t.storeAndFwdFlag in {"Y", "N"}
    && 1 <= t.paymentType <= 6
    && t.airportFee in {0.0, 1.25}
    && t.mtaTax in {0.0, 0.5}
    && t.congestionSurcharge in {0.0, 2.5}
    // amounts that are never negative
    && t.fareAmount >= 0.0 && t.extra >= 0.0 && t.tipAmount >= 0.0
    && t.tollsAmount >= 0.0 && t.totalAmount >= 0.0
    // both timestamps within the window, upper bound included
    && lo <= t.dropoff <= hi
    && lo <= t.pickup <= hi
    // the trip takes time
    && t.dropoff > t.pickup
  }

  /** The surviving rows, in their original order. */
  function IntegrityFilter(rows: seq<Trip>, lo: int, hi: int): (r: seq<Trip>)
    ensures Filtering.IsSubsequence(r, rows)
    ensures forall i :: 0 <= i < |r| ==> Valid(r[i], lo, hi)
    ensures forall t :: t in r <==> t in rows && Valid(t, lo, hi)
    ensures forall t :: Valid(t, lo, hi) ==> multiset(r)[t] == multiset(rows)[t]
  {
    var keep := t => Valid(t, lo, hi);
    var r := Filtering.Filter(keep, rows);
    forall t
      ensures t in r <==> t in rows && Valid(t, lo, hi)
    {
      Filtering.FilterMembership(keep, rows, t);
    }
    r
  }

  /** Filtering the output again removes nothing. */
  lemma IntegrityIdempotent(rows: seq<Trip>, lo: int, hi: int)
    ensures IntegrityFilter(IntegrityFilter(rows, lo, hi), lo, hi) == IntegrityFilter(rows, lo, hi)
  {
    Filtering.FilterIdempotent(t => Valid(t, lo, hi), rows);
  }

  /**
   * Boundaries of the conjunction, starting from any surviving row: the
   * passenger sentinel -1 survives while 0 and 7 do not; a drop-off equal to
   * the pickup does not survive; a drop-off exactly at the upper bound does.
   */
  lemma IntegrityBoundaries(t: Trip, lo: int, hi: int)
    requires Valid(t, lo, hi)
    ensures Valid(t.(passengerCount := -1), lo, hi)
    ensures !Valid(t.(passengerCount := 0), lo, hi)
    ensures !Valid(t.(passengerCount := 7), lo, hi)
    ensures !Valid(t.(dropoff := t.pickup), lo, hi)
    ensures Valid(t.(dropoff := hi), lo, hi)
  {
  }

  /** A surviving row lasts a positive time no longer than the window. */
  lemma SurvivorDuration(t: Trip, lo: int, hi: int)
    requires Valid(t, lo, hi)
    ensures 0 < t.dropoff - t.pickup <= hi - lo
  {
  }
}
