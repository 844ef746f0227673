/**
 * Feature derivation (`data_feature_engineering`): the trip duration in
 * minutes and the pickup and drop-off boroughs looked up in the zone map.
 */
module Features {
  import opened Results
  import opened Trips
  import Integrity

  /** A trip with its derived columns. A missing borough is `None`. */
  datatype Enriched = Enriched(
    trip: Trip,
    tripTimeMin: real,
    puBorough: Option<string>,
    doBorough: Option<string>)

  /** The borough of a zone, or `None` for an identifier the map lacks. */
  function Borough(zones: map<int, string>, id: int): (b: Option<string>)
    ensures b.Some? <==> id in zones
    ensures b.Some? ==> b.value == zones[id] && b.value in zones.Values
  {
    if id in zones then Some(zones[id]) else None
  }

  /** One row with its derived columns; the existing columns are untouched. */
  function Enrich(t: Trip, zones: map<int, string>): (e: Enriched)
    ensures e.trip == t
    ensures e.tripTimeMin * 60.0 == (t.dropoff - t.pickup) as real
    ensures e.puBorough == Borough(zones, t.puLocationId)
    ensures e.doBorough == Borough(zones, t.doLocationId)
  {
    Enriched(t, (t.dropoff - t.pickup) as real / 60.0,
             Borough(zones, t.puLocationId), Borough(zones, t.doLocationId))
  }

  /** The stage on a batch: one enriched row per row, in the same order. */
  function Derive(rows: seq<Trip>, zones: map<int, string>): (r: seq<Enriched>)
    ensures |r| == |rows|
    ensures forall i :: 0 <= i < |rows| ==> r[i].trip == rows[i]
    ensures forall i :: 0 <= i < |rows| ==> r[i] == Enrich(rows[i], zones)
  {
    if |rows| == 0 then [] else [Enrich(rows[0], zones)] + Derive(rows[1..], zones)
  }

  /**
   * Every row that passed integrity filtering gets a strictly positive
   * duration, at most the window's length in minutes.
   */
  lemma PositiveTripTime(t: Trip, lo: int, hi: int, zones: map<int, string>)
    requires Integrity.Valid(t, lo, hi)
    ensures 0.0 < Enrich(t, zones).tripTimeMin
    ensures Enrich(t, zones).tripTimeMin * 60.0 <= (hi - lo) as real
  {
    Integrity.SurvivorDuration(t, lo, hi);
  }

  /** Borough labels come from the map's value set, and a label is missing exactly when its zone is absent from the map. */
  lemma BoroughVocabulary(rows: seq<Trip>, zones: map<int, string>)
    ensures forall e :: e in Derive(rows, zones) && e.puBorough.Some? ==> e.puBorough.value in zones.Values
    ensures forall e :: e in Derive(rows, zones) && e.doBorough.Some? ==> e.doBorough.value in zones.Values
    ensures forall e :: e in Derive(rows, zones) ==> (e.puBorough.None? <==> e.trip.puLocationId !in zones)
    ensures forall e :: e in Derive(rows, zones) ==> (e.doBorough.None? <==> e.trip.doLocationId !in zones)
  {
  }
}
