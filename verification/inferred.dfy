/**
 * Inferred outlier filtering (`data_infered_filtering`): bounds read off the
 * distribution of trips, kept with the overlapping boundary disjuncts exactly
 * as the source writes them.
 */
module Inferred {
  import opened Features
  import Filtering

  /** The condition the source evaluates for each enriched row. */
  predicate Plausible(e: Enriched) {
    var d, m := e.trip.tripDistance, e.tripTimeMin;
    // 99.8% of trips are at most 25 miles and at most 80 minutes
    && d <= 25.0
    && m <= 80.0
    // short trips cannot cover long distances
    && (m >= 2.0 || (m <= 2.0 && d <= 3.0))
    // trips covering almost no distance cannot last long
    && (d >= 0.5 || (d <= 0.5 && m <= 30.0))
    // larger totals look like fines or damage charges
    && e.trip.totalAmount < 125.0
  }

  /** The same condition stated as plain implications, without overlapping disjuncts. */
  predicate PlausibleByImplication(e: Enriched) {
    var d, m := e.trip.tripDistance, e.tripTimeMin;
    && d <= 25.0
    && m <= 80.0
    && (m < 2.0 ==> d <= 3.0)
    && (d < 0.5 ==> m <= 30.0)
    && e.trip.totalAmount < 125.0
  }

  /** The overlap at 2 minutes and at 0.5 miles neither adds nor removes rows. */
  lemma OverlapIsHarmless(e: Enriched)
    ensures Plausible(e) <==> PlausibleByImplication(e)
  {
  }

  /** The surviving rows, in their original order. */
  function InferredFilter(rows: seq<Enriched>): (r: seq<Enriched>)
    ensures Filtering.IsSubsequence(r, rows)
    ensures forall e :: e in r <==> e in rows && Plausible(e)
    ensures forall e :: Plausible(e) ==> multiset(r)[e] == multiset(rows)[e]
    ensures forall i :: 0 <= i < |r| ==> r[i].trip.tripDistance <= 25.0
    ensures forall i :: 0 <= i < |r| ==> r[i].tripTimeMin <= 80.0
    ensures forall i :: 0 <= i < |r| ==> r[i].trip.totalAmount < 125.0
    ensures forall i :: 0 <= i < |r| && r[i].tripTimeMin < 2.0 ==> r[i].trip.tripDistance <= 3.0
    ensures forall i :: 0 <= i < |r| && r[i].trip.tripDistance < 0.5 ==> r[i].tripTimeMin <= 30.0
  {
    var keep := e => Plausible(e);
    var r := Filtering.Filter(keep, rows);
    forall e
      ensures e in r <==> e in rows && Plausible(e)
    {
      Filtering.FilterMembership(keep, rows, e);
    }
    r
  }

  /** Filtering the output again removes nothing. */
  lemma InferredIdempotent(rows: seq<Enriched>)
    ensures InferredFilter(InferredFilter(rows)) == InferredFilter(rows)
  {
    Filtering.FilterIdempotent(e => Plausible(e), rows);
  }

  /**
   * Boundaries, starting from any surviving row of at least two minutes:
   * a distance of 25 miles survives, 30 miles does not; at exactly two
   * minutes three miles survive; at exactly 0.5 miles thirty minutes survive;
   * under two minutes three miles survive and 3.5 do not; under 0.5 miles
   * thirty minutes survive and 31 do not.
   */
  lemma InferredBoundaries(e: Enriched)
    requires Plausible(e) && e.tripTimeMin >= 2.0
    ensures Plausible(e.(trip := e.trip.(tripDistance := 25.0)))
    ensures !Plausible(e.(trip := e.trip.(tripDistance := 30.0)))
    ensures Plausible(e.(tripTimeMin := 2.0, trip := e.trip.(tripDistance := 3.0)))
    ensures Plausible(e.(tripTimeMin := 30.0, trip := e.trip.(tripDistance := 0.5)))
    ensures !Plausible(e.(trip := e.trip.(totalAmount := 125.0)))
    ensures Plausible(e.(tripTimeMin := 1.5, trip := e.trip.(tripDistance := 3.0)))
    ensures !Plausible(e.(tripTimeMin := 1.5, trip := e.trip.(tripDistance := 3.5)))
    ensures Plausible(e.(tripTimeMin := 30.0, trip := e.trip.(tripDistance := 0.4)))
    ensures !Plausible(e.(tripTimeMin := 31.0, trip := e.trip.(tripDistance := 0.4)))
  {
  }
}
