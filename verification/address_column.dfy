/** Choosing the column that holds the addresses to geocode. */
module AddressColumn {
  import opened Base
  import opened Text

  const Keyword := "address"

  /** `'address' in col.lower()` (lower-casing ASCII letters only). */
  predicate MentionsAddress(column: string) {
    Contains(Lower(column), Keyword)
  }

  /** The position of the first header that mentions "address", if any. */
  function FirstMentioning(headers: seq<string>): (r: Option<nat>)
    ensures r.Some? ==> r.value < |headers| && MentionsAddress(headers[r.value])
    ensures r.Some? ==> forall j | 0 <= j < r.value :: !MentionsAddress(headers[j])
    ensures r.None? <==> forall j | 0 <= j < |headers| :: !MentionsAddress(headers[j])
  {
    if |headers| == 0 then None
    else if MentionsAddress(headers[0]) then Some(0)
    else
      match FirstMentioning(headers[1..])
      case None =>
        assert forall j | 1 <= j < |headers| :: headers[j] == headers[1..][j - 1];
        None
      case Some(k) =>
        assert forall j | 1 <= j <= k + 1 :: headers[j] == headers[1..][j - 1];
        Some(k + 1)
  }

  function NotFoundMessage(columnName: string, headers: seq<string>): string {
    "Column '" + columnName + "' not found in CSV. Available columns: " + Join(headers, ", ")
  }

  /** The requested column when the header has it; otherwise the first header
      that mentions "address"; otherwise a ValueError naming the headers. */
  function FindAddressColumn(headers: seq<string>, columnName: string): (r: Result<string>)
    ensures columnName in headers ==> r == Ok(columnName)
    ensures r.Ok? <==> columnName in headers || exists j | 0 <= j < |headers| :: MentionsAddress(headers[j])
    ensures r.Ok? ==> r.value in headers
    ensures r.Ok? && columnName !in headers ==>
              exists i | 0 <= i < |headers| ::
                headers[i] == r.value && MentionsAddress(r.value) &&
                forall j | 0 <= j < i :: !MentionsAddress(headers[j])
    ensures r.Err? ==> r.error == ValueError(NotFoundMessage(columnName, headers))
  {
    if columnName in headers then Ok(columnName)
    else
      match FirstMentioning(headers)
      case Some(i) => Ok(headers[i])
      case None => Err(ValueError(NotFoundMessage(columnName, headers)))
  }

  /** The failure message names every header and the requested column. */
  lemma NotFoundMessageListsHeaders(columnName: string, headers: seq<string>)
    ensures Contains(NotFoundMessage(columnName, headers), columnName)
    ensures forall h | h in headers :: Contains(NotFoundMessage(columnName, headers), h)
  {
    var prefix := "Column '" + columnName + "' not found in CSV. Available columns: ";
    var joined := Join(headers, ", ");
    assert NotFoundMessage(columnName, headers) == "Column '" + columnName + ("' not found in CSV. Available columns: " + joined);
    ContainsMiddle("Column '", columnName, "' not found in CSV. Available columns: " + joined);
    JoinContainsEachPart(headers, ", ");
    forall h | h in headers ensures Contains(NotFoundMessage(columnName, headers), h) {
      var i :| 0 <= i < |headers| && headers[i] == h;
      assert Contains(joined, h);
      var k :| 0 <= k <= |joined| - |h| && OccursAt(joined, h, k);
      var msg := NotFoundMessage(columnName, headers);
      assert msg == prefix + joined;
      assert msg[|prefix| + k..|prefix| + k + |h|] == joined[k..k + |h|];
      assert OccursAt(msg, h, |prefix| + k);
    }
  }
}
