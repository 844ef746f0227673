/**
 * The zone-to-borough map (`define_zone_mapping`, without the file read): the
 * last two rows of the lookup table are not zones and are dropped; the rest
 * are inserted in order, so a later row overwrites an earlier one with the
 * same identifier.
 */
module Zones {

  datatype ZoneRow = ZoneRow(locationId: int, borough: string)

  /** No row after position i carries the identifier of row i. */
  predicate LastOccurrence(rows: seq<ZoneRow>, i: int)
    requires 0 <= i < |rows|
  {
    forall j :: i < j < |rows| ==> rows[j].locationId != rows[i].locationId
  }

  /** The identifiers of the rows. */
  function Identifiers(rows: seq<ZoneRow>): set<int> {
    set i | 0 <= i < |rows| :: rows[i].locationId
  }

  lemma IdentifiersSnoc(rows: seq<ZoneRow>)
    requires |rows| > 0
    ensures Identifiers(rows) == Identifiers(rows[..|rows| - 1]) + {rows[|rows| - 1].locationId}
  {
    var init := rows[..|rows| - 1];
    forall k | k in Identifiers(rows)
      ensures k in Identifiers(init) + {rows[|rows| - 1].locationId}
    {
      var i :| 0 <= i < |rows| && rows[i].locationId == k;
      if i < |rows| - 1 {
        assert init[i] == rows[i];
      }
    }
    forall k | k in Identifiers(init)
      ensures k in Identifiers(rows)
    {
      var i :| 0 <= i < |init| && init[i].locationId == k;
      assert rows[i] == init[i];
    }
  }

  lemma LastOccurrenceInPrefix(rows: seq<ZoneRow>, i: int)
    requires 0 <= i < |rows| - 1 && LastOccurrence(rows, i)
    ensures LastOccurrence(rows[..|rows| - 1], i)
  {
  }

  /** The dictionary built by inserting the rows in order; its keys are the rows' identifiers. */
  function BuildMap(rows: seq<ZoneRow>): (m: map<int, string>)
    ensures m.Keys == Identifiers(rows)
  {
    if |rows| == 0 then map[]
    else
      var last := rows[|rows| - 1];
      IdentifiersSnoc(rows);
      BuildMap(rows[..|rows| - 1])[last.locationId := last.borough]
  }

  /** Last write wins: an identifier maps to the borough of the last row carrying it. */
  lemma {:induction false} BuildMapLastWins(rows: seq<ZoneRow>, i: int)
    requires 0 <= i < |rows| && LastOccurrence(rows, i)
    ensures rows[i].locationId in BuildMap(rows)
    ensures BuildMap(rows)[rows[i].locationId] == rows[i].borough
  {
    if i < |rows| - 1 {
      var init := rows[..|rows| - 1];
      LastOccurrenceInPrefix(rows, i);
      BuildMapLastWins(init, i);
      assert init[i] == rows[i];
    }
  }

  /** The map of a lookup table: its rows but the last two. */
  function ZoneMapping(table: seq<ZoneRow>): (m: map<int, string>)
    ensures |table| <= 2 ==> m == map[]
    ensures |table| > 2 ==> m.Keys == Identifiers(table[..|table| - 2])
    ensures forall i :: 0 <= i < |table| - 2 && LastOccurrence(table[..|table| - 2], i)
              ==> m[table[i].locationId] == table[i].borough
  {
    if |table| <= 2 then map[]
    else
      var body := table[..|table| - 2];
      assert forall i :: 0 <= i < |body| && LastOccurrence(body, i) ==> body[i].locationId in BuildMap(body) && BuildMap(body)[body[i].locationId] == body[i].borough by {
        forall i | 0 <= i < |body| && LastOccurrence(body, i)
          ensures body[i].locationId in BuildMap(body) && BuildMap(body)[body[i].locationId] == body[i].borough
        {
          BuildMapLastWins(body, i);
        }
      }
      BuildMap(body)
  }

  /** For a table of more than two rows, the last two contribute nothing unless repeated earlier. */
  lemma TrailerRowsIgnored(table: seq<ZoneRow>)
    requires |table| > 2
    ensures forall k :: k in ZoneMapping(table) <==>
              exists i :: 0 <= i < |table| - 2 && table[i].locationId == k
  {
    var body := table[..|table| - 2];
    forall k
      ensures k in ZoneMapping(table) <==> exists i :: 0 <= i < |table| - 2 && table[i].locationId == k
    {
      if k in ZoneMapping(table) {
        var i :| 0 <= i < |body| && body[i].locationId == k;
        assert table[i] == body[i];
      }
      if exists i :: 0 <= i < |table| - 2 && table[i].locationId == k {
        var i :| 0 <= i < |table| - 2 && table[i].locationId == k;
        assert body[i] == table[i];
      }
    }
  }
}
