/** Parsed CSV rows and the placemark records built from them.

    A row is what `csv.DictReader` yields: a dict from column name to cell,
    kept here as its (column, value) entries in header order. The value is
    `None` when the CSV line was shorter than the header. Dict keys are
    distinct, so the first entry with a given column is the only one. */
module Rows {
  import opened Base
  import opened Filter

  type Entry = (string, Option<string>)
  type Row = seq<Entry>

  /** What `row.get(column)` sees: no such key, or the (possibly `None`) cell. */
  datatype Field = Absent | Present(cell: Option<string>)

  function Get(row: Row, column: string): (f: Field)
    ensures f.Present? <==> exists i | 0 <= i < |row| :: row[i].0 == column
    ensures f.Present? ==> exists i | 0 <= i < |row| :: row[i] == (column, f.cell)
  {
    if |row| == 0 then Absent
    else if row[0].0 == column then Present(row[0].1)
    else
      var f := Get(row[1..], column);
      assert forall i | 1 <= i < |row| :: row[i] == row[1..][i - 1];
      f
  }

  /** Python's `row.get(column, default)` with a string default. */
  function GetOr(row: Row, column: string, default: string): Option<string> {
    match Get(row, column)
    case Absent => Some(default)
    case Present(cell) => cell
  }

  /** Python truthiness of a cell: present and non-empty. */
  predicate Truthy(v: Option<string>) {
    v.Some? && v.value != ""
  }

  function KeptEntry(e: Entry, excluded: set<string>): Option<(string, string)> {
    if e.0 !in excluded && Truthy(e.1) then Some((e.0, e.1.value)) else None
  }

  function KeptEntries(row: Row, excluded: set<string>): seq<Option<(string, string)>> {
    seq(|row|, i requires 0 <= i < |row| => KeptEntry(row[i], excluded))
  }

  /** `{k: v for k, v in row.items() if k not in excluded and v}`. */
  function ExtendedData(row: Row, excluded: set<string>): (r: seq<(string, string)>)
    ensures forall e | e in r :: e.0 !in excluded && e.1 != "" && (e.0, Some(e.1)) in row
    ensures forall i | 0 <= i < |row| && row[i].0 !in excluded && Truthy(row[i].1) ::
              (row[i].0, row[i].1.value) in r
    ensures |r| == CountSome(KeptEntries(row, excluded))
  {
    var kept := KeptEntries(row, excluded);
    var r := Somes(kept);
    SomesMembers(kept);
    SomesLength(kept);
    assert forall e | e in r :: Some(e) in kept;
    assert forall i | 0 <= i < |row| && row[i].0 !in excluded && Truthy(row[i].1) :: kept[i].Some?;
    r
  }

  /** Extended data lists the surviving cells in the order the row has them,
      each exactly once: the cell at row position `i` sits at its rank among
      the surviving cells, later cells sit further on, and nothing else is
      listed. */
  lemma ExtendedDataInRowOrder(row: Row, excluded: set<string>)
    ensures var kept, r := KeptEntries(row, excluded), ExtendedData(row, excluded);
      && |r| == CountSome(kept)
      && (forall i | 0 <= i < |row| && row[i].0 !in excluded && Truthy(row[i].1) ::
            Rank(kept, i) < |r| && r[Rank(kept, i)] == (row[i].0, row[i].1.value))
      && (forall i, j | 0 <= i < j <= |row| && row[i].0 !in excluded && Truthy(row[i].1) ::
            Rank(kept, i) < Rank(kept, j))
  {
    var kept := KeptEntries(row, excluded);
    SelectionInOrder(kept);
    assert forall i | 0 <= i < |row| :: kept[i] == KeptEntry(row[i], excluded);
  }

  /** One marker, as `convert_csv_to_kml` hands it to `generate_kml`. The name
      is `None` when it came from a cell of a short row. */
  datatype Placemark = Placemark(
    name: Option<string>,
    coordinates: Coord,
    description: Option<string>,
    extendedData: seq<(string, string)>)
}
