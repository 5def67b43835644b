# csv-to-kml in Dafny

A model of the core of `csv_to_kml`, a tool that turns the rows of a CSV
file into a KML document of placemarks. A placemark's position comes from
one of two places. It can come from a geocoding service that is asked about
each row's address. Or, when geocoding is skipped, it comes from latitude
and longitude columns. The model covers:

- choosing the address column (`find_address_column`);
- resolving addresses through a per-run cache, with a pause before every
  request (`geocode_address`, `batch_geocode`);
- turning rows into placemark records in `convert_csv_to_kml`, on both paths:
  the early failures, which rows are kept, the name, description and
  extended data of each placemark, and the success counter;
- the element tree `generate_kml` builds. A reader that takes the tree
  apart again comes with it.

The module ships twice, as `csv_to_kml.py` and `csv_to_kml/csv_to_kml.py`.
The two copies are identical, line for line, so the model follows them once.

Layout, leaf first:

| file | module | models |
|---|---|---|
| base.dfy | `Base` | `None`/value, the raised exceptions, opaque floats, positions |
| text.dfy | `Text` | `str.isspace`, `str.strip`, `str.lower`, `in`, `join`, `str(int)` |
| filter.dfy | `Filter` | loops that `continue` past items; first-seen de-duplication |
| rows.dfy | `Rows` | `DictReader` rows, `row.get`, the extended-data comprehension, placemark records |
| address_column.dfy | `AddressColumn` | `find_address_column` |
| geocoding.dfy | `Geocoding` | `geocode_address`, `batch_geocode`, the cache and the pause/request trace |
| kml.dfy | `Kml` | `generate_kml` as an element tree, and reading it back |
| conversion.dfy | `Conversion` | `convert_csv_to_kml` from parsed rows to the tree |

Some collaborators are passed in as parameters:

- the geocoding service, as a function from the query text to
  `Located(lat, lon)`, `NoMatch` or `Raised(failure)`;
- whether geopy could be imported, as a boolean;
- Python's `float()` on a string, as a function `string -> Option<Float>`;
- the f-string formatting of a float, as a function `Float -> string`.

`Float` is an opaque type, because the converter never computes with one.
`time.sleep(delay)` and each request appear only as `Sleep` and `Query`
events in a trace the model returns.

Places where the code does something one might not expect, and the model
follows the code:

- Only empty address cells are dropped when the distinct addresses are
  collected (`csv_to_kml.py:244`). Whitespace-only addresses still reach
  `batch_geocode`. `geocode_address` then returns `None` for them without
  making a request (`csv_to_kml/csv_to_kml.py:52-53`).
- Name fallbacks fire only when the key is missing from the row. They do
  not fire when the cell is empty or `None`. A `None` name is written as
  the text "None" (`csv_to_kml/csv_to_kml.py:126`).
- The `<![CDATA[` table in a description is ordinary element text, and the
  serialiser escapes it like any other text. No raw-markup region exists.
- A missing latitude or longitude key reads as the integer 0. That parses
  like the string "0". A `None` cell from a short row makes `float()` raise
  `TypeError`, so the row is skipped.
- Geocoded positions and positions from columns are never range-checked.

## Model

| member | source | states |
|---|---|---|
| Text.StripEmptyIffBlank | csv_to_kml/csv_to_kml.py:52 | `s.strip() == ''` holds exactly when every character of `s` is white space, so the empty-or-blank test is one predicate |
| Text.DecimalRoundTrip | csv_to_kml.py:215-217 | the decimal text used in the "Point {idx}" label reads back as the row number |
| Text.JoinContainsEachPart | csv_to_kml/csv_to_kml.py:46 | a `', '.join` of the headers contains every header |
| Filter.SelectionInOrder | csv_to_kml.py:204-211 | a loop that skips items keeps each kept item at its rank, ranks grow along the input, and the output length is the number of kept items |
| Filter.SomesMembers | csv_to_kml.py:204-231 | a loop that skips items keeps a value exactly when some item is present with that value |
| Filter.Dedup | csv_to_kml.py:244 | de-duplication yields a duplicate-free list with exactly the input's elements |
| Rows.Get | csv_to_kml.py:206-207 | `row.get` finds a key exactly when some entry has it, and returns that entry's cell |
| Rows.ExtendedData | csv_to_kml.py:226 | extended data holds exactly the entries whose column is not excluded and whose cell is non-empty, one entry per such cell |
| Rows.ExtendedDataInRowOrder | csv_to_kml.py:226 | each surviving cell sits at its rank among the surviving cells, later cells sit further on, and the list is no longer than the number of surviving cells, so it is those cells in row order, once each |
| AddressColumn.FirstMentioning | csv_to_kml/csv_to_kml.py:42-44 | finds the first header whose lower-cased form contains "address", or reports that none does |
| AddressColumn.FindAddressColumn | csv_to_kml/csv_to_kml.py:36-46 | returns the requested column if it is a header, otherwise the first header mentioning "address"; the result is always a header; it fails exactly when neither exists |
| AddressColumn.NotFoundMessageListsHeaders | csv_to_kml/csv_to_kml.py:46 | the not-found message names the requested column and every header |
| Geocoding.GeocodeAddress | csv_to_kml/csv_to_kml.py:49-77 | blank address or cache hit: no request, cache unchanged, `None` or the cached value (even a cached `None`); miss with a delay `time.sleep` refuses (negative, or 2^63 ns or more): the sleep raises, `None` is cached and returned, no request; other misses: one pause then one request, the address cached as (longitude, latitude) on a match and `None` otherwise; no other key touched, nothing raised |
| Geocoding.StepTrace | csv_to_kml/csv_to_kml.py:52-60 | one call adds a pause and a request exactly when the address is non-blank, not yet cached, and the delay is one `time.sleep` accepts |
| Geocoding.GeocodeSequenceCache | csv_to_kml/csv_to_kml.py:55-76 | across calls sharing a cache, existing entries are kept, every non-blank address gains an entry holding the service's answer (`None` under a delay `time.sleep` refuses), and each returned value is the cached one or that answer |
| Geocoding.GeocodeSequencePaced | csv_to_kml/csv_to_kml.py:58-60 | across calls sharing a cache, the trace is a sequence of (pause, request) pairs |
| Geocoding.GeocodeSequenceQueries | csv_to_kml/csv_to_kml.py:55-76 | across calls sharing a cache, no address is requested twice, and the requested addresses are exactly the non-blank ones not cached before, or none at all under a delay `time.sleep` refuses |
| Geocoding.PacedQueriesFollowSleeps | csv_to_kml/csv_to_kml.py:58-60 | in such a trace every request comes right after a pause of `delay` seconds, one pause per request |
| Geocoding.BatchGeocode | csv_to_kml/csv_to_kml.py:80-97 | without geopy it raises ImportError before any request; otherwise its keys are exactly the input addresses, each mapped to the service's answer, every address is requested at most once, and each request follows a pause |
| Geocoding.BatchOrderIrrelevant | csv_to_kml.py:244-247 | the order of the distinct addresses changes neither the batch results nor the number of requests |
| Kml.GenerateKml | csv_to_kml/csv_to_kml.py:100-159 | root `kml` with the KML 2.2 namespace and no text, holding one bare `Document` (no attributes, no text): its name, the default style, then one `Placemark` per record, in order |
| Kml.PlacemarkLayout | csv_to_kml/csv_to_kml.py:121-159 | a placemark's children are name, a description only when the description is non-empty, styleUrl, ExtendedData only when there is extended data, and Point |
| Kml.CoordinatesRoundTrip | csv_to_kml/csv_to_kml.py:155-159 | parsing `lon,lat,0` recovers the position exactly, given float formatting that parses back and writes no comma |
| Kml.ExtendedDataRoundTrip | csv_to_kml/csv_to_kml.py:147-153 | reading the `Data name=key`/`value` elements gives back the entries in order |
| Kml.PlacemarkRoundTrip | csv_to_kml/csv_to_kml.py:121-159 | reading a placemark element shows its name text, a description (with the table appended only when there is extended data) iff the description is non-empty, the default style, extended data iff there is some, and its position |
| Kml.DefaultStyleRoundTrip | csv_to_kml/csv_to_kml.py:109-118 | the default style reads back as id defaultStyle, color ff0000ff, scale 1.0 and the red pushpin icon |
| Kml.PlacemarksRoundTrip | csv_to_kml/csv_to_kml.py:120-122 | the placemark elements read back one view per record, in order |
| Kml.DocumentRoundTrip | csv_to_kml/csv_to_kml.py:100-159 | the whole document reads back as its title, the default style and one view per record, in order |
| Conversion.CoordinateRow | csv_to_kml.py:204-233 | a row is kept iff its latitude and longitude cells both parse; the position is (lon, lat) as parsed; the name comes from the name cell when the name column is usable, otherwise from the address key, defaulting to "Point {idx}"; the description is the address cell or ""; extended data leaves out lat, lon, name and the address column |
| Conversion.UniqueAddresses | csv_to_kml.py:243-244 | the distinct-address list has no duplicates, never holds "", and holds every non-empty address cell |
| Conversion.GeocodedRow | csv_to_kml.py:251-279 | a row is kept iff its address cell has a non-`None` batch result; the placemark sits there, its description is the address, its name is the name cell when the name column is usable (the address if that key is missing) and the address otherwise |
| Conversion.Convert | csv_to_kml.py:188-285 | zero rows fail first; the coordinate path is taken iff skip is set and both coordinate columns are given; there a missing lat or lon header fails before any row and bad rows never abort; otherwise a missing address column or missing geopy fails; the success counter equals the number of placemarks; the document is `generate_kml` of exactly the placemarks |
| Conversion.PlacemarksFollowRows | csv_to_kml.py:204-281 | the placemarks are the kept rows in input order, one per kept row |
| Conversion.GetFitting | csv_to_kml.py:186 | in a row `DictReader` built, a key is present exactly when it is a header |
| Conversion.CoordinateRowName | csv_to_kml.py:213-217 | for a full row, the name is the name cell (even empty) when the name column is usable, else the address cell when the address column is a header, else "Point {idx}" |
| Conversion.CoordinatePathRow | csv_to_kml.py:204-231 | row i is kept iff both cells parse, at its rank, with the parsed position unchanged, the address cell as description and "Point {i+1}" counting skipped rows |
| Conversion.GeocodingResults | csv_to_kml.py:242-247 | the batch results cover exactly the distinct non-empty address cells, each with the service's answer |
| Conversion.GeocodingPathRow | csv_to_kml.py:251-279 | row i is kept iff its address is non-blank and the service located it; the placemark holds the service's position, the address as description, and the name cell or the address as name |
| Conversion.GeocodingPathQueries | csv_to_kml.py:243-247 | a geocoding run requests each distinct non-blank address exactly once, each after its pause |
| Conversion.CandidatesExclude | csv_to_kml.py:219-226 | a kept row's extended data avoids the excluded columns and has only non-empty values |
| Conversion.ConvertedDocumentReadsBack | csv_to_kml.py:283-285 | the document a successful run builds reads back as the CSV file's stem, the default style and one view per placemark, in order |
| Conversion.ExtendedDataExcludesUsedColumns | csv_to_kml.py:219-272 | no placemark's extended data uses a column its path excludes (lat, lon, name and address on the coordinate path; address and name on the geocoding path), and every value is non-empty |

## Left out

- `main` and its argument checks: command-line plumbing and exit codes.
- `parse_csv` and `csv.DictReader`: the header and rows are inputs. Rows
  with more cells than the header (DictReader's `None` key) are not
  modelled.
- The file-existence check, the default output path and writing the file:
  file-system I/O. The document name (`Path(csv_file).stem`) is a parameter.
- The real Nominatim service, its 10-second network timeout and the geopy
  import probe. The service is an oracle and availability is a boolean. The
  timeout appears only as a field of each `Query` event.
- `time.sleep`: only a `Sleep` event in the trace, with no timing. A delay
  of 2^63 ns or more, or a negative one, raises and is modelled. The exact
  upper cut-off depends on how the float is rounded to nanoseconds, and the
  model puts it at exactly 2^63 ns. `inf` and NaN are not `real` values.
- Floating point: `float()` parsing and float formatting are parameters.
  The progress percentage in `batch_geocode` only feeds a log line.
- `ET.tostring`, minidom pretty-printing and XML escaping: library
  serialisation. The model stops at the element tree.
- The iteration order of `set(...)` at `csv_to_kml.py:244`: it depends on
  hash randomisation. The model takes the first-seen order, and
  `Geocoding.BatchOrderIrrelevant` shows the order does not matter.
- All `print` diagnostics, including the progress lines and warnings.
- `Text.Lower`: lower-cases ASCII letters only, where Python's `str.lower`
  covers all of Unicode.
- Duplicate column names: a row's keys are taken to be distinct, as in a
  dict; `Rows.Get` returns the first matching entry.
- The geocoding service answers each query the same way every time. Within
  one run each address is asked at most once, so this loses nothing.
