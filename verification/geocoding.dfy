/** Resolving addresses to positions through a geocoding service, with a
    per-run cache and a pause before every request to the service.

    The service is a function from the query text to its response. Because
    the cache guarantees each address is sent at most once per run, treating
    the service as a function of the query loses nothing within one run. The
    pauses and requests are recorded as a trace of events, in the order they
    happen. */
module Geocoding {
  import opened Base
  import opened Text
  import opened Filter

  /** How a request can fail: `GeocoderTimedOut`, `GeocoderServiceError`, or any other exception. */
  datatype Failure = TimedOut | ServiceError | OtherException

  /** What one request to the service produces. */
  datatype Response = Located(latitude: Float, longitude: Float) | NoMatch | Raised(failure: Failure)

  /** `time.sleep(seconds)`, or a request for `address` with a timeout in seconds. */
  datatype Event = Sleep(seconds: real) | Query(address: string, timeout: nat)

  /** Address to resolved position; `None` records a lookup that failed. */
  type Cache = map<string, Option<Coord>>

  const DefaultDelay: real := 1.0
  const QueryTimeout: nat := 10
  const GeopyMissing := "geopy is required for geocoding. Install with: pip install geopy"

  /** 2^63 nanoseconds, in seconds: `time.sleep` converts its argument to a
      signed 64-bit count of nanoseconds and raises `OverflowError` when the
      count does not fit. */
  const MaxSleep: real := 9223372036.854775808

  /** `time.sleep(delay)` raises instead of pausing: `ValueError` for a
      negative length, `OverflowError` for one of 2^63 ns or more. */
  predicate SleepRaises(delay: real) {
    delay < 0.0 || delay >= MaxSleep
  }

  /** What a request for `address` contributes, independently of any cache:
      nothing for a blank address, the position for a match, `None` for no
      match or any failure. A pause `time.sleep` refuses raises before the
      request, and that failure is caught like any other: `None`. */
  function Resolve(geocoder: string -> Response, address: string, delay: real): Option<Coord> {
    if IsBlank(address) || SleepRaises(delay) then None
    else match geocoder(address)
      case Located(lat, lon) => Some(Coord(lon, lat))
      case _ => None
  }

  /** The addresses sent to the service, in order. */
  function Queries(trace: seq<Event>): seq<string> {
    if |trace| == 0 then []
    else (if trace[0].Query? then [trace[0].address] else []) + Queries(trace[1..])
  }

  /** Each request comes straight after its own pause: the trace is a
      sequence of (Sleep(delay), Query(_, QueryTimeout)) pairs. */
  predicate Paced(trace: seq<Event>, delay: real) {
    && |trace| % 2 == 0
    && forall i | 0 <= i < |trace| ::
         if i % 2 == 0 then trace[i] == Sleep(delay)
         else trace[i].Query? && trace[i].timeout == QueryTimeout
  }

  /** In a paced trace every request is immediately preceded by a pause of
      `delay` seconds, and there is exactly one pause per request. */
  lemma {:induction false} PacedQueriesFollowSleeps(trace: seq<Event>, delay: real)
    requires Paced(trace, delay)
    ensures forall i | 0 <= i < |trace| && trace[i].Query? :: 0 < i && trace[i - 1] == Sleep(delay)
    ensures 2 * |Queries(trace)| == |trace|
  {
    if |trace| > 0 {
      var rest := trace[2..];
      assert Paced(rest, delay) by {
        forall i | 0 <= i < |rest|
          ensures if i % 2 == 0 then rest[i] == Sleep(delay)
                  else rest[i].Query? && rest[i].timeout == QueryTimeout
        {
          assert rest[i] == trace[i + 2];
        }
      }
      PacedQueriesFollowSleeps(rest, delay);
      assert trace[1..][1..] == rest;
      assert Queries(trace) == Queries(trace[1..]);
      assert Queries(trace[1..]) == [trace[1].address] + Queries(rest);
    }
  }

  /** The outcome of one `geocode_address` call. */
  datatype Lookup = Lookup(value: Option<Coord>, cache: Cache, trace: seq<Event>)

  /** `geocode_address`: blank addresses and cache hits cost nothing; a miss
      sleeps, asks the service once and caches whatever came back. A `delay`
      the sleep refuses (negative, or 2^63 ns or more) raises inside the
      `try`, so the miss caches `None` without pausing or asking. No
      exception escapes. */
  function GeocodeAddress(geocoder: string -> Response, address: string, cache: Cache, delay: real): (r: Lookup)
    ensures IsBlank(address) ==> r.value == None && r.cache == cache && r.trace == []
    ensures !IsBlank(address) && address in cache ==>
              r.value == cache[address] && r.cache == cache && r.trace == []
    ensures !IsBlank(address) && address !in cache && SleepRaises(delay) ==>
              r.value == None && r.cache == cache[address := None] && r.trace == []
    ensures !IsBlank(address) && address !in cache && !SleepRaises(delay) ==>
              && r.trace == [Sleep(delay), Query(address, QueryTimeout)]
              && r.cache == cache[address := r.value]
              && (r.value.Some? <==> geocoder(address).Located?)
              && (r.value.Some? ==>
                    r.value.value == Coord(geocoder(address).longitude, geocoder(address).latitude))
  {
    StripEmptyIffBlank(address);
    if address == "" || Strip(address) == "" then Lookup(None, cache, [])
    else if address in cache then Lookup(cache[address], cache, [])
    else if SleepRaises(delay) then Lookup(None, cache[address := None], [])
    else
      var coordinates :=
        match geocoder(address)
        case Located(lat, lon) => Some(Coord(lon, lat))
        case NoMatch => None
        case Raised(_) => None;
      Lookup(coordinates, cache[address := coordinates], [Sleep(delay), Query(address, QueryTimeout)])
  }

  /** The state of a loop that calls `geocode_address` on each address in
      turn with one shared cache, recording each answer under its address. */
  datatype Run = Run(results: map<string, Option<Coord>>, cache: Cache, trace: seq<Event>)

  function GeocodeSequence(geocoder: string -> Response, addresses: seq<string>, cache: Cache, delay: real): Run
  {
    if |addresses| == 0 then Run(map[], cache, [])
    else
      var previous := GeocodeSequence(geocoder, addresses[..|addresses| - 1], cache, delay);
      var address := addresses[|addresses| - 1];
      var step := GeocodeAddress(geocoder, address, previous.cache, delay);
      Run(previous.results[address := step.value], step.cache, previous.trace + step.trace)
  }

  function NonBlank(addresses: seq<string>): set<string> {
    set a | a in addresses && !IsBlank(a)
  }

  lemma NonBlankSnoc(addresses: seq<string>)
    requires |addresses| > 0
    ensures var n := |addresses| - 1;
            NonBlank(addresses) ==
              NonBlank(addresses[..n]) + (if IsBlank(addresses[n]) then {} else {addresses[n]})
  {
    var n := |addresses| - 1;
    assert addresses == addresses[..n] + [addresses[n]];
  }

  /** The cache only grows: entries already present keep their value, and
      every non-blank address gets an entry, holding what the service said
      about it. Each recorded answer is the cached one, or the service's. */
  lemma {:induction false} GeocodeSequenceCache(geocoder: string -> Response, addresses: seq<string>, cache: Cache, delay: real)
    ensures var r := GeocodeSequence(geocoder, addresses, cache, delay);
      && r.cache.Keys == cache.Keys + NonBlank(addresses)
      && (forall a | a in cache :: r.cache[a] == cache[a])
      && (forall a | a in r.cache && a !in cache :: r.cache[a] == Resolve(geocoder, a, delay))
      && r.results.Keys == (set a | a in addresses)
      && (forall a | a in r.results ::
            r.results[a] == if !IsBlank(a) && a in cache then cache[a] else Resolve(geocoder, a, delay))
  {
    if |addresses| > 0 {
      var n := |addresses| - 1;
      var prefix := addresses[..n];
      GeocodeSequenceCache(geocoder, prefix, cache, delay);
      NonBlankSnoc(addresses);
      assert addresses == prefix + [addresses[n]];
    }
  }

  lemma {:induction false} QueriesAppend(a: seq<Event>, b: seq<Event>)
    ensures Queries(a + b) == Queries(a) + Queries(b)
  {
    if |a| > 0 {
      assert (a + b)[1..] == a[1..] + b;
      QueriesAppend(a[1..], b);
    } else {
      assert a + b == b;
    }
  }

  lemma PacedAppend(a: seq<Event>, b: seq<Event>, delay: real)
    requires Paced(a, delay) && Paced(b, delay)
    ensures Paced(a + b, delay)
  {
    var t := a + b;
    var k := |a| / 2;
    assert |a| == 2 * k;
    forall i | 0 <= i < |t|
      ensures if i % 2 == 0 then t[i] == Sleep(delay)
              else t[i].Query? && t[i].timeout == QueryTimeout
    {
      if i < |a| {
        assert t[i] == a[i];
      } else {
        var j := i - 2 * k;
        assert t[i] == b[j];
        assert i == j + 2 * k;
        assert i % 2 == j % 2;
      }
    }
  }

  /** What one call adds to the trace: nothing, or one pause and one request. */
  lemma StepTrace(geocoder: string -> Response, address: string, cache: Cache, delay: real)
    ensures var step := GeocodeAddress(geocoder, address, cache, delay);
      && Paced(step.trace, delay)
      && Queries(step.trace) == (if step.trace == [] then [] else [address])
      && (step.trace != [] <==> !IsBlank(address) && address !in cache && !SleepRaises(delay))
  {
    var step := GeocodeAddress(geocoder, address, cache, delay);
    if step.trace != [] {
      var tail := [Query(address, QueryTimeout)];
      assert step.trace[1..] == tail;
      assert tail[1..] == [];
      assert Queries(tail) == [address] + Queries([]);
      assert Queries(step.trace) == [] + Queries(tail);
    }
  }

  /** Across any run of calls sharing one cache, every request comes straight
      after its own pause. */
  lemma {:induction false} GeocodeSequencePaced(geocoder: string -> Response, addresses: seq<string>, cache: Cache, delay: real)
    ensures Paced(GeocodeSequence(geocoder, addresses, cache, delay).trace, delay)
  {
    if |addresses| > 0 {
      var n := |addresses| - 1;
      var previous := GeocodeSequence(geocoder, addresses[..n], cache, delay);
      var step := GeocodeAddress(geocoder, addresses[n], previous.cache, delay);
      GeocodeSequencePaced(geocoder, addresses[..n], cache, delay);
      StepTrace(geocoder, addresses[n], previous.cache, delay);
      PacedAppend(previous.trace, step.trace, delay);
    }
  }

  /** Across any run of calls sharing one cache, no address is sent twice,
      and the addresses sent are exactly the non-blank ones that were not
      already cached. */
  lemma {:induction false} GeocodeSequenceQueries(geocoder: string -> Response, addresses: seq<string>, cache: Cache, delay: real)
    ensures var qs := Queries(GeocodeSequence(geocoder, addresses, cache, delay).trace);
      && NoDup(qs)
      && (forall q :: q in qs <==> !SleepRaises(delay) && q in addresses && !IsBlank(q) && q !in cache)
  {
    if |addresses| > 0 {
      var n := |addresses| - 1;
      var prefix := addresses[..n];
      var previous := GeocodeSequence(geocoder, prefix, cache, delay);
      var address := addresses[n];
      var step := GeocodeAddress(geocoder, address, previous.cache, delay);
      assert previous.cache.Keys == cache.Keys + NonBlank(prefix) by {
        GeocodeSequenceCache(geocoder, prefix, cache, delay);
      }
      var added := Queries(step.trace);
      assert added == if !SleepRaises(delay) && !IsBlank(address) && address !in previous.cache.Keys then [address] else [] by {
        StepTrace(geocoder, address, previous.cache, delay);
      }
      var after := Queries(GeocodeSequence(geocoder, addresses, cache, delay).trace);
      assert after == Queries(previous.trace) + added by {
        SequenceTrace(geocoder, addresses, cache, delay);
        QueriesAppend(previous.trace, step.trace);
      }
      assert addresses == prefix + [address];
      GeocodeSequenceQueries(geocoder, prefix, cache, delay);
      QueriesStep(!SleepRaises(delay), Queries(previous.trace), prefix, address, cache, previous.cache.Keys, added,
                  addresses, after);
    }
  }

  /** The last call's events come after those of the calls before it. */
  lemma SequenceTrace(geocoder: string -> Response, addresses: seq<string>, cache: Cache, delay: real)
    requires |addresses| > 0
    ensures var n := |addresses| - 1;
      var previous := GeocodeSequence(geocoder, addresses[..n], cache, delay);
      GeocodeSequence(geocoder, addresses, cache, delay).trace
        == previous.trace + GeocodeAddress(geocoder, addresses[n], previous.cache, delay).trace
  {
  }

  /** One more call extends the requested addresses without repeating any;
      `asks` says whether a miss reaches the service at all. */
  lemma QueriesStep(asks: bool, before: seq<string>, prefix: seq<string>, address: string, cache: Cache,
                    cached: set<string>, added: seq<string>, addresses: seq<string>, after: seq<string>)
    requires NoDup(before)
    requires forall q :: q in before <==> asks && q in prefix && !IsBlank(q) && q !in cache
    requires cached == cache.Keys + NonBlank(prefix)
    requires added == if asks && !IsBlank(address) && address !in cached then [address] else []
    requires addresses == prefix + [address] && after == before + added
    ensures NoDup(after)
    ensures forall q :: q in after <==> asks && q in addresses && !IsBlank(q) && q !in cache
  {
    if added != [] {
      assert address !in before;
    }
  }

  /** `batch_geocode`: with the service missing it raises before any request;
      otherwise it resolves every address once through a fresh cache and maps
      each address to what the service said about it. */
  function BatchGeocode(available: bool, geocoder: string -> Response, addresses: seq<string>): (r: Result<Run>)
    ensures r.Err? <==> !available
    ensures r.Err? ==> r.error == ImportError(GeopyMissing)
    ensures r.Ok? ==> r.value.results.Keys == set a | a in addresses
    ensures r.Ok? ==> forall a | a in r.value.results :: r.value.results[a] == Resolve(geocoder, a, DefaultDelay)
    ensures r.Ok? ==> Paced(r.value.trace, DefaultDelay)
    ensures r.Ok? ==> NoDup(Queries(r.value.trace))
    ensures r.Ok? ==> forall q :: q in Queries(r.value.trace) <==> q in addresses && !IsBlank(q)
  {
    if !available then Err(ImportError(GeopyMissing))
    else
      GeocodeSequenceCache(geocoder, addresses, map[], DefaultDelay);
      GeocodeSequencePaced(geocoder, addresses, map[], DefaultDelay);
      GeocodeSequenceQueries(geocoder, addresses, map[], DefaultDelay);
      Ok(GeocodeSequence(geocoder, addresses, map[], DefaultDelay))
  }

  /** The order in which the distinct addresses are handed over does not
      change what is resolved, nor how many requests are made. */
  lemma BatchOrderIrrelevant(geocoder: string -> Response, xs: seq<string>, ys: seq<string>)
    requires forall a :: a in xs <==> a in ys
    ensures var rx, ry := BatchGeocode(true, geocoder, xs), BatchGeocode(true, geocoder, ys);
      && rx.value.results == ry.value.results
      && |Queries(rx.value.trace)| == |Queries(ry.value.trace)|
  {
    var rx, ry := BatchGeocode(true, geocoder, xs), BatchGeocode(true, geocoder, ys);
    assert rx.value.results == ry.value.results;
    var qx, qy := Queries(rx.value.trace), Queries(ry.value.trace);
    NoDupCardinality(qx);
    NoDupCardinality(qy);
    assert (set q | q in qx) == (set q | q in qy);
  }
}
