/** `generate_kml` as a builder of an XML element tree, stopping before
    serialisation, and a reader that takes the tree apart again.

    A description's HTML table is ordinary element text here: the
    serialiser escapes it like any other text, so there is no raw-markup
    region in the tree. */
module Kml {
  import opened Base
  import opened Filter
  import opened Rows
  import opened Text

  /** An XML element: tag, attributes in order, optional text, children in order. */
  datatype Elem = Elem(tag: string, attrs: seq<(string, string)>, text: Option<string>, children: seq<Elem>)

  const Namespace := "http://www.opengis.net/kml/2.2"
  const StyleId := "defaultStyle"
  const StyleUrl := "#defaultStyle"
  const IconColor := "ff0000ff"
  const IconScale := "1.0"
  const IconHref := "http://maps.google.com/mapfiles/kml/pushpin/red-pushpin.png"
  const TableOpen := "<![CDATA[<table border='1'>"
  const TableClose := "</table>]]>"

  function Leaf(tag: string, text: string): Elem {
    Elem(tag, [], Some(text), [])
  }

  /** Python's `str()` of a name: a missing cell prints as "None". */
  function PyStr(v: Option<string>): string {
    match v
    case None => "None"
    case Some(s) => s
  }

  /** The shared marker style every placemark refers to. */
  function DefaultStyle(): Elem {
    Elem("Style", [("id", StyleId)], None, [
      Elem("IconStyle", [], None, [
        Leaf("color", IconColor),
        Leaf("scale", IconScale),
        Elem("Icon", [], None, [Leaf("href", IconHref)])
      ])
    ])
  }

  function TableRow(entry: (string, string)): string {
    "<tr><td><b>" + entry.0 + "</b></td><td>" + entry.1 + "</td></tr>"
  }

  /** The description text: the description alone, or followed by one HTML
      table line per extended-data entry, all joined with newlines. */
  function DescriptionText(description: string, extendedData: seq<(string, string)>): string {
    if |extendedData| == 0 then description
    else
      Join([description, TableOpen]
                + seq(|extendedData|, i requires 0 <= i < |extendedData| => TableRow(extendedData[i]))
                + [TableClose], "\n")
  }

  function DataElem(entry: (string, string)): Elem {
    Elem("Data", [("name", entry.0)], None, [Leaf("value", entry.1)])
  }

  /** One `Data name=key` element, holding a `value`, per entry, in order. */
  function DataElems(ext: seq<(string, string)>): seq<Elem> {
    seq(|ext|, i requires 0 <= i < |ext| => DataElem(ext[i]))
  }

  /** The text of a `coordinates` element: `f"{lon},{lat},0"`. */
  function CoordinatesText(format: Float -> string, c: Coord): string {
    format(c.lon) + "," + format(c.lat) + ",0"
  }

  function PlacemarkElem(p: Placemark, format: Float -> string): Elem {
    var ext := p.extendedData;
    Elem("Placemark", [], None,
      [Leaf("name", PyStr(p.name))]
      + (if Truthy(p.description) then [Leaf("description", DescriptionText(p.description.value, ext))] else [])
      + [Leaf("styleUrl", StyleUrl)]
      + (if |ext| > 0
         then [Elem("ExtendedData", [], None, DataElems(ext))]
         else [])
      + [Elem("Point", [], None, [Leaf("coordinates", CoordinatesText(format, p.coordinates))])])
  }

  /** The document tree `generate_kml` builds before pretty-printing it. */
  function GenerateKml(placemarks: seq<Placemark>, documentName: string, format: Float -> string): (k: Elem)
    ensures k.tag == "kml" && k.attrs == [("xmlns", Namespace)] && k.text.None?
    ensures |k.children| == 1 && k.children[0].tag == "Document"
    ensures var doc := k.children[0];
      && doc.attrs == [] && doc.text.None?
      && |doc.children| == 2 + |placemarks|
      && doc.children[0] == Leaf("name", documentName)
      && doc.children[1] == DefaultStyle()
      && forall i | 0 <= i < |placemarks| :: doc.children[2 + i] == PlacemarkElem(placemarks[i], format)
  {
    Elem("kml", [("xmlns", Namespace)], None, [
      Elem("Document", [], None,
        [Leaf("name", documentName), DefaultStyle()]
        + seq(|placemarks|, i requires 0 <= i < |placemarks| => PlacemarkElem(placemarks[i], format)))
    ])
  }

  // ---------------------------------------------------------------------
  // Reading a tree back.

  /** The first child with the given tag. */
  function FindChild(children: seq<Elem>, tag: string): (r: Option<Elem>)
    ensures r.Some? ==> r.value in children && r.value.tag == tag
    ensures r.None? <==> forall i | 0 <= i < |children| :: children[i].tag != tag
  {
    if |children| == 0 then None
    else if children[0].tag == tag then Some(children[0])
    else
      var r := FindChild(children[1..], tag);
      assert forall i | 1 <= i < |children| :: children[i] == children[1..][i - 1];
      r
  }

  function ChildText(e: Elem, tag: string): Option<string> {
    match FindChild(e.children, tag)
    case None => None
    case Some(c) => c.text
  }

  /** The first attribute with the given name. */
  function Attr(attrs: seq<(string, string)>, name: string): Option<string> {
    if |attrs| == 0 then None
    else if attrs[0].0 == name then Some(attrs[0].1)
    else Attr(attrs[1..], name)
  }

  /** Splits on every comma, like Python's `s.split(',')`. */
  function SplitComma(s: string): (r: seq<string>)
    ensures |r| > 0
  {
    if |s| == 0 then [""]
    else
      var rest := SplitComma(s[1..]);
      if s[0] == ',' then [""] + rest else [[s[0]] + rest[0]] + rest[1..]
  }

  /** Reads `lon,lat,0` back into a position. */
  function ReadCoordinates(parse: string -> Option<Float>, text: string): Option<Coord> {
    var parts := SplitComma(text);
    if |parts| != 3 || parts[2] != "0" then None
    else match (parse(parts[0]), parse(parts[1]))
      case (Some(lon), Some(lat)) => Some(Coord(lon, lat))
      case _ => None
  }

  function ReadData(e: Elem): Option<(string, string)> {
    if e.tag != "Data" then None
    else match (Attr(e.attrs, "name"), ChildText(e, "value"))
      case (Some(k), Some(v)) => Some((k, v))
      case _ => None
  }

  /** What a reader of the document learns about one placemark. */
  datatype PlacemarkView = PlacemarkView(
    name: Option<string>,
    description: Option<string>,
    styleUrl: Option<string>,
    extendedData: Option<seq<(string, string)>>,
    coordinates: Option<Coord>)

  function ReadExtendedData(e: Elem): Option<seq<(string, string)>> {
    match FindChild(e.children, "ExtendedData")
    case None => None
    case Some(x) => Some(ReadDataAll(x.children))
  }

  function ReadDataAll(cs: seq<Elem>): seq<(string, string)> {
    Somes(seq(|cs|, i requires 0 <= i < |cs| => ReadData(cs[i])))
  }

  function ReadPoint(e: Elem, parse: string -> Option<Float>): Option<Coord> {
    match FindChild(e.children, "Point")
    case None => None
    case Some(point) =>
      match ChildText(point, "coordinates")
      case None => None
      case Some(t) => ReadCoordinates(parse, t)
  }

  function ReadPlacemark(e: Elem, parse: string -> Option<Float>): PlacemarkView {
    PlacemarkView(ChildText(e, "name"), ChildText(e, "description"), ChildText(e, "styleUrl"),
                  ReadExtendedData(e), ReadPoint(e, parse))
  }

  /** What a reader of the document learns about the whole document. */
  datatype DocumentView = DocumentView(
    title: Option<string>,
    style: Option<(string, string, string, string)>,
    placemarks: seq<PlacemarkView>)

  function ReadStyle(e: Elem): Option<(string, string, string, string)> {
    match (Attr(e.attrs, "id"), FindChild(e.children, "IconStyle"))
    case (Some(id), Some(icon)) =>
      (match (ChildText(icon, "color"), ChildText(icon, "scale"), FindChild(icon.children, "Icon"))
       case (Some(color), Some(scale), Some(i)) =>
         (match ChildText(i, "href")
          case Some(href) => Some((id, color, scale, href))
          case None => None)
       case _ => None)
    case _ => None
  }

  function ReadDocument(k: Elem, parse: string -> Option<Float>): Option<DocumentView> {
    if k.tag != "kml" || Attr(k.attrs, "xmlns") != Some(Namespace) then None
    else match FindChild(k.children, "Document")
      case None => None
      case Some(doc) =>
        var style := match FindChild(doc.children, "Style")
          case None => None
          case Some(s) => ReadStyle(s);
        Some(DocumentView(ChildText(doc, "name"), style, ReadPlacemarks(doc.children, parse)))
  }

  /** The views of the `Placemark` children, in order; other children are passed over. */
  function ReadPlacemarks(cs: seq<Elem>, parse: string -> Option<Float>): seq<PlacemarkView> {
    Somes(seq(|cs|, i requires 0 <= i < |cs| =>
      if cs[i].tag == "Placemark" then Some(ReadPlacemark(cs[i], parse)) else None))
  }

  // ---------------------------------------------------------------------
  // Round trips.

  /** `format` writes numbers that `float()` reads back, without commas. */
  ghost predicate Reversible(format: Float -> string, parse: string -> Option<Float>) {
    forall x :: parse(format(x)) == Some(x) && ',' !in format(x)
  }

  /** What the document promises to show for a placemark: its name as text,
      a description only when there is one, the shared style, extended data
      only when there is some, and its position. */
  function Expected(p: Placemark): PlacemarkView {
    PlacemarkView(
      Some(PyStr(p.name)),
      if Truthy(p.description) then Some(DescriptionText(p.description.value, p.extendedData)) else None,
      Some(StyleUrl),
      if |p.extendedData| > 0 then Some(p.extendedData) else None,
      Some(p.coordinates))
  }

  lemma {:induction false} SplitCommaPrefix(a: string, b: string)
    requires ',' !in a
    ensures SplitComma(a + "," + b) == [a] + SplitComma(b)
  {
    if |a| > 0 {
      assert (a + "," + b)[1..] == a[1..] + "," + b;
      assert (a + "," + b)[0] == a[0];
      SplitCommaPrefix(a[1..], b);
      assert [a[0]] + a[1..] == a;
    } else {
      assert a + "," + b == "," + b;
      assert ("," + b)[1..] == b;
    }
  }

  /** Parsing the coordinates text recovers the position exactly. */
  lemma CoordinatesRoundTrip(format: Float -> string, parse: string -> Option<Float>, c: Coord)
    requires Reversible(format, parse)
    ensures ReadCoordinates(parse, CoordinatesText(format, c)) == Some(c)
  {
    var lon, lat := format(c.lon), format(c.lat);
    assert ',' !in lon && ',' !in lat;
    assert CoordinatesText(format, c) == lon + "," + (lat + "," + "0");
    SplitCommaPrefix(lon, lat + "," + "0");
    SplitCommaPrefix(lat, "0");
    assert SplitComma("0") == ["0"] by {
      assert "0"[1..] == "";
      assert SplitComma("") == [""];
      assert ['0'] + "" == "0";
    }
  }

  lemma FindChildAt(children: seq<Elem>, tag: string, i: int)
    requires 0 <= i < |children| && children[i].tag == tag
    requires forall j | 0 <= j < i :: children[j].tag != tag
    ensures FindChild(children, tag) == Some(children[i])
  {
    if i > 0 {
      assert forall j | 0 <= j < i - 1 :: children[1..][j] == children[j + 1];
      FindChildAt(children[1..], tag, i - 1);
    }
  }

  /** Reading the extended-data block gives back the entries, in order. */
  lemma ExtendedDataRoundTrip(ext: seq<(string, string)>)
    ensures ReadDataAll(DataElems(ext)) == ext
  {
    var cs := DataElems(ext);
    var rs := seq(|cs|, i requires 0 <= i < |cs| => ReadData(cs[i]));
    forall i | 0 <= i < |cs| ensures rs[i] == Some(ext[i]) {
      FindChildAt(cs[i].children, "value", 0);
    }
    SomesOfAllSome(rs);
  }

  /** The children of a placemark element, position by position: `d` and `x`
      are 1 when the optional description and extended-data blocks are there. */
  predicate LaidOut(cs: seq<Elem>, p: Placemark, format: Float -> string) {
    var d := if Truthy(p.description) then 1 else 0;
    var x := if |p.extendedData| > 0 then 1 else 0;
    && |cs| == 3 + d + x
    && cs[0] == Leaf("name", PyStr(p.name))
    && (d == 1 ==> cs[1] == Leaf("description", DescriptionText(p.description.value, p.extendedData)))
    && cs[1 + d] == Leaf("styleUrl", StyleUrl)
    && (x == 1 ==> cs[2 + d] == Elem("ExtendedData", [], None, DataElems(p.extendedData)))
    && cs[2 + d + x] == Elem("Point", [], None, [Leaf("coordinates", CoordinatesText(format, p.coordinates))])
  }

  lemma PlacemarkLayout(p: Placemark, format: Float -> string)
    ensures LaidOut(PlacemarkElem(p, format).children, p, format)
  {
  }

  lemma ReadOptionalFields(e: Elem, p: Placemark, format: Float -> string)
    requires LaidOut(e.children, p, format)
    ensures ChildText(e, "description") == Expected(p).description
    ensures ChildText(e, "styleUrl") == Some(StyleUrl)
  {
    var cs := e.children;
    var d := if Truthy(p.description) then 1 else 0;
    if d == 1 {
      FindChildAt(cs, "description", 1);
    } else {
      assert FindChild(cs, "description").None?;
    }
    FindChildAt(cs, "styleUrl", 1 + d);
  }

  lemma ReadExtendedBlock(e: Elem, p: Placemark, format: Float -> string)
    requires LaidOut(e.children, p, format)
    ensures ReadExtendedData(e) == Expected(p).extendedData
  {
    var cs := e.children;
    var d := if Truthy(p.description) then 1 else 0;
    if |p.extendedData| > 0 {
      FindChildAt(cs, "ExtendedData", 2 + d);
      ExtendedDataRoundTrip(p.extendedData);
    } else {
      assert FindChild(cs, "ExtendedData").None?;
    }
  }

  lemma ReadPointBlock(e: Elem, p: Placemark, format: Float -> string, parse: string -> Option<Float>)
    requires LaidOut(e.children, p, format)
    requires Reversible(format, parse)
    ensures ReadPoint(e, parse) == Some(p.coordinates)
  {
    var cs := e.children;
    var d := if Truthy(p.description) then 1 else 0;
    var x := if |p.extendedData| > 0 then 1 else 0;
    FindChildAt(cs, "Point", 2 + d + x);
    var point := cs[2 + d + x];
    FindChildAt(point.children, "coordinates", 0);
    CoordinatesRoundTrip(format, parse, p.coordinates);
  }

  /** Reading a generated placemark back shows exactly what it promises. */
  lemma PlacemarkRoundTrip(p: Placemark, format: Float -> string, parse: string -> Option<Float>)
    requires Reversible(format, parse)
    ensures ReadPlacemark(PlacemarkElem(p, format), parse) == Expected(p)
  {
    var e := PlacemarkElem(p, format);
    PlacemarkLayout(p, format);
    FindChildAt(e.children, "name", 0);
    ReadOptionalFields(e, p, format);
    ReadExtendedBlock(e, p, format);
    ReadPointBlock(e, p, format, parse);
  }

  lemma DefaultStyleRoundTrip()
    ensures ReadStyle(DefaultStyle()) == Some((StyleId, IconColor, IconScale, IconHref))
  {
    var style := DefaultStyle();
    FindChildAt(style.children, "IconStyle", 0);
    var icon := style.children[0];
    FindChildAt(icon.children, "color", 0);
    FindChildAt(icon.children, "scale", 1);
    FindChildAt(icon.children, "Icon", 2);
    FindChildAt(icon.children[2].children, "href", 0);
  }

  /** The views of generated placemark elements are the promised ones, in order. */
  lemma PlacemarksRoundTrip(placemarks: seq<Placemark>, format: Float -> string, parse: string -> Option<Float>)
    requires Reversible(format, parse)
    ensures ReadPlacemarks(seq(|placemarks|, i requires 0 <= i < |placemarks| => PlacemarkElem(placemarks[i], format)), parse)
            == seq(|placemarks|, i requires 0 <= i < |placemarks| => Expected(placemarks[i]))
  {
    var cs := seq(|placemarks|, i requires 0 <= i < |placemarks| => PlacemarkElem(placemarks[i], format));
    var marks := seq(|cs|, i requires 0 <= i < |cs| =>
      if cs[i].tag == "Placemark" then Some(ReadPlacemark(cs[i], parse)) else None);
    forall i | 0 <= i < |cs| ensures marks[i] == Some(Expected(placemarks[i])) {
      PlacemarkRoundTrip(placemarks[i], format, parse);
    }
    SomesOfAllSome(marks);
  }

  /** Reading a generated document back gives its title, the default style,
      and one view per placemark, in the order they were given. */
  lemma DocumentRoundTrip(placemarks: seq<Placemark>, documentName: string,
                          format: Float -> string, parse: string -> Option<Float>)
    requires Reversible(format, parse)
    ensures ReadDocument(GenerateKml(placemarks, documentName, format), parse) ==
            Some(DocumentView(Some(documentName), Some((StyleId, IconColor, IconScale, IconHref)),
                              seq(|placemarks|, i requires 0 <= i < |placemarks| => Expected(placemarks[i]))))
  {
    var k := GenerateKml(placemarks, documentName, format);
    FindChildAt(k.children, "Document", 0);
    var doc := k.children[0];
    FindChildAt(doc.children, "name", 0);
    FindChildAt(doc.children, "Style", 1);
    DefaultStyleRoundTrip();
    var rest := doc.children[2..];
    assert doc.children == [doc.children[0], doc.children[1]] + rest;
    PlacemarksRoundTrip(placemarks, format, parse);
    ReadPlacemarksSkipsHead(doc.children, parse);
  }

  /** The name and style children in front of the placemarks contribute no views. */
  lemma ReadPlacemarksSkipsHead(cs: seq<Elem>, parse: string -> Option<Float>)
    requires |cs| >= 2 && cs[0].tag != "Placemark" && cs[1].tag != "Placemark"
    ensures ReadPlacemarks(cs, parse) == ReadPlacemarks(cs[2..], parse)
  {
    var marks := seq(|cs|, i requires 0 <= i < |cs| =>
      if cs[i].tag == "Placemark" then Some(ReadPlacemark(cs[i], parse)) else None);
    var tail := seq(|cs| - 2, i requires 0 <= i < |cs| - 2 =>
      if cs[2..][i].tag == "Placemark" then Some(ReadPlacemark(cs[2..][i], parse)) else None);
    assert marks == [None, None] + tail;
    SomesAppend([None, None], tail);
    var nones: seq<Option<PlacemarkView>> := [None, None];
    assert Somes(nones) == [] by {
      assert nones[1..] == [None];
      assert nones[1..][1..] == [];
    }
  }
}
