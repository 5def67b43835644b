/** `convert_csv_to_kml` from parsed rows to the document tree: the early
    failures, the choice between the coordinate-column path and the
    geocoding path, and the placemark each row yields or does not yield. */
module Conversion {
  import opened Base
  import opened Text
  import opened Filter
  import opened Rows
  import opened AddressColumn
  import opened Geocoding
  import opened Kml

  /** The arguments that shape the placemarks. An unset name, latitude or
      longitude column is `None`; the empty string behaves the same. */
  datatype Options = Options(
    addressColumn: string,
    nameColumn: Option<string>,
    skipGeocoding: bool,
    latColumn: Option<string>,
    lonColumn: Option<string>)

  /** The collaborators: whether geopy could be imported, the geocoding
      service, Python's `float()` on strings, and the formatting of a float
      in an f-string. */
  datatype Services = Services(
    geocoderAvailable: bool,
    geocoder: string -> Response,
    parseFloat: string -> Option<Float>,
    formatFloat: Float -> string)

  /** The header and the data rows `csv.DictReader` produced. */
  datatype Table = Table(headers: seq<string>, rows: seq<Row>)

  /** What a run produces: the placemarks, the geocoding success counter
      (geocoding path only), the pauses and requests made, and the tree. */
  datatype Conversion = Conversion(
    placemarks: seq<Placemark>,
    successCount: Option<nat>,
    trace: seq<Event>,
    document: Elem)

  const NoData := "No data found in CSV file"

  function LatMissing(column: string): string {
    "Latitude column '" + column + "' not found in CSV"
  }

  function LonMissing(column: string): string {
    "Longitude column '" + column + "' not found in CSV"
  }

  /** `skip_geocoding and lat_column and lon_column` */
  predicate UsesCoordinateColumns(o: Options) {
    o.skipGeocoding && Truthy(o.latColumn) && Truthy(o.lonColumn)
  }

  /** `name_column and name_column in headers` */
  predicate NameColumnUsable(headers: seq<string>, o: Options) {
    Truthy(o.nameColumn) && o.nameColumn.value in headers
  }

  function NameExclusion(o: Options): set<string> {
    if Truthy(o.nameColumn) then {o.nameColumn.value} else {}
  }

  /** `float(row.get(column, 0))`: a missing key reads as the number 0 (so
      it parses like "0"), a `None` cell raises TypeError, any other cell is
      parsed. */
  function ParseCell(parse: string -> Option<Float>, f: Field): Option<Float> {
    match f
    case Absent => parse("0")
    case Present(None) => None
    case Present(Some(s)) => parse(s)
  }

  function PointLabel(idx: nat): string {
    "Point " + DecimalString(idx)
  }

  // ---------------------------------------------------------------------
  // Coordinate-column path.

  function CoordinateExclusions(headers: seq<string>, o: Options, lat: string, lon: string): set<string> {
    {lat, lon} + NameExclusion(o) + (if o.addressColumn in headers then {o.addressColumn} else {})
  }

  /** Row number `idx` (counted from 1 over all rows) in the coordinate-column loop. */
  function CoordinateRow(headers: seq<string>, o: Options, lat: string, lon: string,
                         parse: string -> Option<Float>, row: Row, idx: nat): (r: Option<Placemark>)
    ensures r.Some? <==> ParseCell(parse, Get(row, lat)).Some? && ParseCell(parse, Get(row, lon)).Some?
    ensures r.Some? ==>
              r.value.coordinates == Coord(ParseCell(parse, Get(row, lon)).value, ParseCell(parse, Get(row, lat)).value)
    ensures r.Some? && NameColumnUsable(headers, o) ==>
              r.value.name == GetOr(row, o.nameColumn.value, PointLabel(idx))
    ensures r.Some? && !NameColumnUsable(headers, o) ==>
              r.value.name == GetOr(row, o.addressColumn, PointLabel(idx))
    ensures r.Some? ==> r.value.description == AddressCell(row, o.addressColumn)
    ensures r.Some? ==> r.value.extendedData == ExtendedData(row, CoordinateExclusions(headers, o, lat, lon))
  {
    match (ParseCell(parse, Get(row, lat)), ParseCell(parse, Get(row, lon)))
    case (Some(y), Some(x)) =>
      var name :=
        if NameColumnUsable(headers, o) then GetOr(row, o.nameColumn.value, PointLabel(idx))
        else GetOr(row, o.addressColumn, PointLabel(idx));
      Some(Placemark(name, Coord(x, y), GetOr(row, o.addressColumn, ""),
                     ExtendedData(row, CoordinateExclusions(headers, o, lat, lon))))
    case _ => None
  }

  function CoordinateCandidates(t: Table, o: Options, lat: string, lon: string,
                                parse: string -> Option<Float>): seq<Option<Placemark>> {
    seq(|t.rows|, i requires 0 <= i < |t.rows| => CoordinateRow(t.headers, o, lat, lon, parse, t.rows[i], i + 1))
  }

  // ---------------------------------------------------------------------
  // Geocoding path.

  /** `row.get(address_col, '')` */
  function AddressCell(row: Row, column: string): Option<string> {
    GetOr(row, column, "")
  }

  /** `list(set(filter(None, addresses)))`, in first-seen order; the batch
      result does not depend on the order (BatchOrderIrrelevant). */
  function UniqueAddresses(rows: seq<Row>, column: string): (r: seq<string>)
    ensures NoDup(r)
    ensures forall a :: a in r <==> a != "" && exists i | 0 <= i < |rows| :: AddressCell(rows[i], column) == Some(a)
  {
    var present := seq(|rows|, i requires 0 <= i < |rows| =>
      var a := AddressCell(rows[i], column); if Truthy(a) then Some(a.value) else None);
    var r := Dedup(Somes(present));
    SomesMembers(present);
    assert forall a :: a in r ==> Some(a) in present;
    assert forall i | 0 <= i < |rows| && Truthy(AddressCell(rows[i], column)) ::
      present[i] == Some(AddressCell(rows[i], column).value);
    r
  }

  function GeocodeExclusions(o: Options, addressColumn: string): set<string> {
    {addressColumn} + NameExclusion(o)
  }

  /** One row of the geocoding loop, given the batch results. */
  function GeocodedRow(headers: seq<string>, o: Options, addressColumn: string,
                       results: map<string, Option<Coord>>, row: Row): (r: Option<Placemark>)
    ensures var a := AddressCell(row, addressColumn);
      r.Some? <==> a.Some? && a.value in results && results[a.value].Some?
    ensures r.Some? ==>
      var a := AddressCell(row, addressColumn).value;
      && r.value.coordinates == results[a].value
      && r.value.description == Some(a)
      && r.value.name == (if NameColumnUsable(headers, o) then GetOr(row, o.nameColumn.value, a) else Some(a))
      && r.value.extendedData == ExtendedData(row, GeocodeExclusions(o, addressColumn))
  {
    match AddressCell(row, addressColumn)
    case None => None
    case Some(address) =>
      if address !in results then None
      else match results[address]
        case None => None
        case Some(coordinates) =>
          var name := if NameColumnUsable(headers, o) then GetOr(row, o.nameColumn.value, address) else Some(address);
          Some(Placemark(name, coordinates, Some(address), ExtendedData(row, GeocodeExclusions(o, addressColumn))))
  }

  function GeocodedCandidates(t: Table, o: Options, addressColumn: string,
                              results: map<string, Option<Coord>>): seq<Option<Placemark>> {
    seq(|t.rows|, i requires 0 <= i < |t.rows| => GeocodedRow(t.headers, o, addressColumn, results, t.rows[i]))
  }

  // ---------------------------------------------------------------------
  // The whole conversion.

  /** Per row, the placemark it yields, or `None` when the loop skips it
      (every row is skipped when the run fails). */
  function Candidates(t: Table, o: Options, svc: Services): seq<Option<Placemark>> {
    if UsesCoordinateColumns(o) then
      CoordinateCandidates(t, o, o.latColumn.value, o.lonColumn.value, svc.parseFloat)
    else match FindAddressColumn(t.headers, o.addressColumn)
      case Err(_) => []
      case Ok(column) =>
        match BatchGeocode(svc.geocoderAvailable, svc.geocoder, UniqueAddresses(t.rows, column))
        case Err(_) => []
        case Ok(run) => GeocodedCandidates(t, o, column, run.results)
  }

  function Convert(t: Table, o: Options, svc: Services, documentName: string): (r: Result<Conversion>)
    ensures |t.rows| == 0 ==> r == Err(ValueError(NoData))
    ensures |t.rows| > 0 && UsesCoordinateColumns(o) ==>
      var lat, lon := o.latColumn.value, o.lonColumn.value;
      && (lat !in t.headers ==> r == Err(ValueError(LatMissing(lat))))
      && (lat in t.headers && lon !in t.headers ==> r == Err(ValueError(LonMissing(lon))))
      && (lat in t.headers && lon in t.headers ==> r.Ok? && r.value.successCount == None && r.value.trace == [])
    ensures |t.rows| > 0 && !UsesCoordinateColumns(o) ==>
      var found := FindAddressColumn(t.headers, o.addressColumn);
      && (found.Err? ==> r == Err(found.error))
      && (found.Ok? && !svc.geocoderAvailable ==> r == Err(ImportError(GeopyMissing)))
      && (found.Ok? && svc.geocoderAvailable ==> r.Ok? && r.value.successCount == Some(|r.value.placemarks|))
    ensures r.Ok? ==> r.value.placemarks == Somes(Candidates(t, o, svc))
    ensures r.Ok? ==> r.value.document == GenerateKml(r.value.placemarks, documentName, svc.formatFloat)
  {
    if |t.rows| == 0 then Err(ValueError(NoData))
    else if UsesCoordinateColumns(o) then
      var lat, lon := o.latColumn.value, o.lonColumn.value;
      if lat !in t.headers then Err(ValueError(LatMissing(lat)))
      else if lon !in t.headers then Err(ValueError(LonMissing(lon)))
      else
        var placemarks := Somes(Candidates(t, o, svc));
        Ok(Conversion(placemarks, None, [], GenerateKml(placemarks, documentName, svc.formatFloat)))
    else match FindAddressColumn(t.headers, o.addressColumn)
      case Err(e) => Err(e)
      case Ok(column) =>
        match BatchGeocode(svc.geocoderAvailable, svc.geocoder, UniqueAddresses(t.rows, column))
        case Err(e) => Err(e)
        case Ok(run) =>
          var candidates := Candidates(t, o, svc);
          var placemarks := Somes(candidates);
          SomesLength(candidates);
          Ok(Conversion(placemarks, Some(CountSome(candidates)), run.trace,
                        GenerateKml(placemarks, documentName, svc.formatFloat)))
  }

  // ---------------------------------------------------------------------
  // Properties of a run.

  /** The placemarks are exactly the rows that were not skipped, in input
      order: row `i`, if kept, becomes placemark number `Rank(c, i)`, kept
      rows keep their relative order, and there are as many placemarks as
      kept rows. */
  lemma PlacemarksFollowRows(t: Table, o: Options, svc: Services, documentName: string)
    ensures var r := Convert(t, o, svc, documentName);
      var c := Candidates(t, o, svc);
      r.Ok? ==>
      var ps := r.value.placemarks;
      && (forall i | 0 <= i < |c| && c[i].Some? :: Rank(c, i) < |ps| && ps[Rank(c, i)] == c[i].value)
      && (forall i, j | 0 <= i < j <= |c| && c[i].Some? :: Rank(c, i) < Rank(c, j))
      && |ps| == CountSome(c)
  {
    SelectionInOrder(Candidates(t, o, svc));
  }

  /** A row as `csv.DictReader` builds it: one entry per header, in header order. */
  predicate FitsHeader(headers: seq<string>, row: Row) {
    |row| == |headers| && forall k | 0 <= k < |row| :: row[k].0 == headers[k]
  }

  lemma GetFitting(headers: seq<string>, row: Row, column: string)
    requires FitsHeader(headers, row)
    ensures Get(row, column).Present? <==> column in headers
  {
    if column in headers {
      var k :| 0 <= k < |headers| && headers[k] == column;
      assert row[k].0 == column;
    }
  }

  /** For a row that has every header column, the coordinate path's name
      falls back only for columns missing from the header: the name cell
      when the name column is usable (even an empty or missing cell), else
      the address cell when the address column is a header, else the label. */
  lemma CoordinateRowName(headers: seq<string>, o: Options, lat: string, lon: string,
                          parse: string -> Option<Float>, row: Row, idx: nat)
    requires FitsHeader(headers, row)
    requires CoordinateRow(headers, o, lat, lon, parse, row, idx).Some?
    ensures var name := CoordinateRow(headers, o, lat, lon, parse, row, idx).value.name;
      if NameColumnUsable(headers, o) then Get(row, o.nameColumn.value) == Present(name)
      else if o.addressColumn in headers then Get(row, o.addressColumn) == Present(name)
      else name == Some(PointLabel(idx))
  {
    GetFitting(headers, row, o.addressColumn);
    if Truthy(o.nameColumn) {
      GetFitting(headers, row, o.nameColumn.value);
    }
  }

  /** Coordinate path, row `i`: it is kept exactly when both cells parse;
      its position is taken verbatim, longitude first, with no range check;
      its description is the address cell; for a row that has every header
      column, its name follows CoordinateRowName with label "Point {i + 1}",
      so skipped rows still count towards the label. */
  lemma CoordinatePathRow(t: Table, o: Options, svc: Services, documentName: string, i: int)
    requires |t.rows| > 0 && UsesCoordinateColumns(o)
    requires o.latColumn.value in t.headers && o.lonColumn.value in t.headers
    requires 0 <= i < |t.rows|
    ensures var r := Convert(t, o, svc, documentName);
      var c := Candidates(t, o, svc);
      var row := t.rows[i];
      var lat := ParseCell(svc.parseFloat, Get(row, o.latColumn.value));
      var lon := ParseCell(svc.parseFloat, Get(row, o.lonColumn.value));
      && r.Ok?
      && (c[i].Some? <==> lat.Some? && lon.Some?)
      && (c[i].Some? ==>
            Rank(c, i) < |r.value.placemarks| &&
            var p := r.value.placemarks[Rank(c, i)];
            && p.coordinates == Coord(lon.value, lat.value)
            && p.description == AddressCell(row, o.addressColumn)
            && (FitsHeader(t.headers, row) ==>
                  if NameColumnUsable(t.headers, o) then Get(row, o.nameColumn.value) == Present(p.name)
                  else if o.addressColumn in t.headers then Get(row, o.addressColumn) == Present(p.name)
                  else p.name == Some(PointLabel(i + 1))))
  {
    var r := Convert(t, o, svc, documentName);
    var c := Candidates(t, o, svc);
    var row := t.rows[i];
    var cell := CoordinateRow(t.headers, o, o.latColumn.value, o.lonColumn.value, svc.parseFloat, row, i + 1);
    assert r.Ok? && r.value.placemarks == Somes(c);
    assert c[i] == cell;
    if cell.Some? {
      SomesAt(c, i);
      assert r.value.placemarks[Rank(c, i)] == cell.value;
      if FitsHeader(t.headers, row) {
        CoordinateRowName(t.headers, o, o.latColumn.value, o.lonColumn.value, svc.parseFloat, row, i + 1);
      }
    }
  }

  /** The batch results of the geocoding path hold, for every distinct
      non-empty address cell, what the service said about it. */
  lemma GeocodingResults(t: Table, o: Options, svc: Services, column: string)
    requires svc.geocoderAvailable
    ensures var run := BatchGeocode(true, svc.geocoder, UniqueAddresses(t.rows, column)).value;
      forall a :: (a in run.results <==> a != "" && exists i | 0 <= i < |t.rows| :: AddressCell(t.rows[i], column) == Some(a))
               && (a in run.results ==> run.results[a] == Resolve(svc.geocoder, a, DefaultDelay))
  {
  }

  /** Geocoding path, row `i`: it is kept exactly when its address cell is a
      non-blank string the service located; the placemark sits at the
      service's position, its description is the address, and its name is
      the name cell when the name column is usable and the address otherwise. */
  lemma GeocodingPathRow(t: Table, o: Options, svc: Services, documentName: string, i: int)
    requires |t.rows| > 0 && !UsesCoordinateColumns(o)
    requires FindAddressColumn(t.headers, o.addressColumn).Ok? && svc.geocoderAvailable
    requires 0 <= i < |t.rows|
    ensures var r := Convert(t, o, svc, documentName);
      var c := Candidates(t, o, svc);
      var column := FindAddressColumn(t.headers, o.addressColumn).value;
      var row := t.rows[i];
      var a := AddressCell(row, column);
      && r.Ok?
      && (c[i].Some? <==> a.Some? && !IsBlank(a.value) && svc.geocoder(a.value).Located?)
      && (c[i].Some? ==>
            Rank(c, i) < |r.value.placemarks| &&
            var p := r.value.placemarks[Rank(c, i)];
            var g := svc.geocoder(a.value);
            && p.coordinates == Coord(g.longitude, g.latitude)
            && p.description == Some(a.value)
            && p.name == if NameColumnUsable(t.headers, o) then GetOr(row, o.nameColumn.value, a.value)
                         else Some(a.value))
  {
    var column := FindAddressColumn(t.headers, o.addressColumn).value;
    var run := BatchGeocode(true, svc.geocoder, UniqueAddresses(t.rows, column)).value;
    var c := Candidates(t, o, svc);
    GeocodingResults(t, o, svc, column);
    PlacemarksFollowRows(t, o, svc, documentName);
    assert c[i] == GeocodedRow(t.headers, o, column, run.results, t.rows[i]);
    var a := AddressCell(t.rows[i], column);
    if a.Some? && a.value == "" {
      assert IsBlank(a.value);
    }
  }

  /** Geocoding path: each request follows its own pause, no address is sent
      twice, and the addresses sent are exactly the distinct non-blank
      address cells. */
  lemma GeocodingPathQueries(t: Table, o: Options, svc: Services, documentName: string)
    requires |t.rows| > 0 && !UsesCoordinateColumns(o)
    requires FindAddressColumn(t.headers, o.addressColumn).Ok? && svc.geocoderAvailable
    ensures Convert(t, o, svc, documentName).Ok?
    ensures var r := Convert(t, o, svc, documentName).value;
      var column := FindAddressColumn(t.headers, o.addressColumn).value;
      && Paced(r.trace, DefaultDelay)
      && NoDup(Queries(r.trace))
      && forall q :: q in Queries(r.trace) <==>
           !IsBlank(q) && exists i | 0 <= i < |t.rows| :: AddressCell(t.rows[i], column) == Some(q)
  {
    var column := FindAddressColumn(t.headers, o.addressColumn).value;
    forall q | !IsBlank(q) ensures q != "" {
      if q == "" { assert IsBlank(q); }
    }
  }

  /** The exclusion set in force on the path a run takes. */
  function Exclusions(t: Table, o: Options): set<string> {
    if UsesCoordinateColumns(o) then CoordinateExclusions(t.headers, o, o.latColumn.value, o.lonColumn.value)
    else match FindAddressColumn(t.headers, o.addressColumn)
      case Ok(column) => GeocodeExclusions(o, column)
      case Err(_) => {}
  }

  /** Every extended-data entry of `p` has a non-empty value under a column outside `excluded`. */
  predicate Avoids(p: Placemark, excluded: set<string>) {
    forall e | e in p.extendedData :: e.0 !in excluded && e.1 != ""
  }

  lemma CandidatesExclude(t: Table, o: Options, svc: Services)
    ensures var c := Candidates(t, o, svc);
      forall i | 0 <= i < |c| && c[i].Some? :: Avoids(c[i].value, Exclusions(t, o))
  {
    var c := Candidates(t, o, svc);
    if !UsesCoordinateColumns(o) && FindAddressColumn(t.headers, o.addressColumn).Ok? {
      var column := FindAddressColumn(t.headers, o.addressColumn).value;
      var batch := BatchGeocode(svc.geocoderAvailable, svc.geocoder, UniqueAddresses(t.rows, column));
      if batch.Ok? {
        forall i | 0 <= i < |c| ensures c[i] == GeocodedRow(t.headers, o, column, batch.value.results, t.rows[i]) {
        }
      }
    }
  }

  /** What every kept candidate avoids, every selected placemark avoids. */
  lemma SelectedExclude(c: seq<Option<Placemark>>, excluded: set<string>, ps: seq<Placemark>)
    requires forall i | 0 <= i < |c| && c[i].Some? :: Avoids(c[i].value, excluded)
    requires ps == Somes(c)
    ensures forall p | p in ps :: Avoids(p, excluded)
  {
    forall p | p in ps ensures Avoids(p, excluded) {
      assert Some(p) in c by {
        SomesMembers(c);
      }
      var i :| 0 <= i < |c| && c[i] == Some(p);
    }
  }

  /** No extended-data entry repeats a column the placemark already used:
      latitude, longitude, name and (when a header) address on the
      coordinate path; the address column and name on the geocoding path.
      Every entry carries a non-empty value. */
  lemma ExtendedDataExcludesUsedColumns(t: Table, o: Options, svc: Services, documentName: string)
    ensures var r := Convert(t, o, svc, documentName);
      r.Ok? ==> forall p | p in r.value.placemarks :: Avoids(p, Exclusions(t, o))
  {
    var r := Convert(t, o, svc, documentName);
    if r.Ok? {
      var c := Candidates(t, o, svc);
      assert r.value.placemarks == Somes(c);
      CandidatesExclude(t, o, svc);
      SelectedExclude(c, Exclusions(t, o), r.value.placemarks);
    }
  }

  /** The document a successful run writes reads back as its title, the
      default style and one view per placemark, in placemark order, for any
      float formatting the reader can parse back. */
  lemma ConvertedDocumentReadsBack(t: Table, o: Options, svc: Services, documentName: string,
                                   parse: string -> Option<Float>)
    requires Reversible(svc.formatFloat, parse)
    ensures var r := Convert(t, o, svc, documentName);
      r.Ok? ==>
        var ps := r.value.placemarks;
        ReadDocument(r.value.document, parse) ==
          Some(DocumentView(Some(documentName), Some((StyleId, IconColor, IconScale, IconHref)),
                            seq(|ps|, i requires 0 <= i < |ps| => Expected(ps[i]))))
  {
    var r := Convert(t, o, svc, documentName);
    if r.Ok? {
      DocumentRoundTrip(r.value.placemarks, documentName, svc.formatFloat, parse);
    }
  }
}
