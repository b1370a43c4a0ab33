/** Proximity search against either backend (`_find_hospitals_google`,
    `_find_hospitals_overpass`): the first `max_results` raw entries are
    normalised in backend order, then sorted stably by recomputed distance. */
module Search {
  import opened Wrappers
  import opened Responses
  import opened Records
  import opened Ranking
  import opened Normalize
  import OsmAddress

  /** Python's `s[:n]` for `n >= 0`: the first `n` elements, or all of `s`
      when it is shorter. */
  function Take<T>(s: seq<T>, n: nat): (r: seq<T>)
    ensures |r| == if n <= |s| then n else |s|
    ensures r == s[..|r|]
  {
    if n <= |s| then s[..n] else s
  }

  /** The sorted records, or no records when normalisation failed. */
  function Ranked(records: Option<seq<HospitalRecord>>): seq<HospitalRecord> {
    match records
    case None => []
    case Some(hs) => SortByDistance(hs)
  }

  /** What the Google search returns for one Nearby Search outcome. */
  function SearchGoogle(origin: Coord, distance: DistanceFn, maxResults: nat, response: Fetch<PlacesResponse>): seq<HospitalRecord> {
    match response
    case Fail => []
    case Ok(data) =>
      if data.status == Some("OK") && data.results.Some? then
        Ranked(NormalizeAll(Take(data.results.value, maxResults), PlaceNormalizer(origin, distance)))
      else []
  }

  /** The Overpass elements, `[]` when the key is absent
      (`data.get('elements', [])`). */
  function Elements(data: OverpassResponse): seq<OsmElement> {
    data.elements.GetOr([])
  }

  /** What the Overpass search returns for one interpreter outcome. */
  function SearchOverpass(origin: Coord, distance: DistanceFn, maxResults: nat, response: Fetch<OverpassResponse>): seq<HospitalRecord> {
    match response
    case Fail => []
    case Ok(data) =>
      Ranked(NormalizeAll(Take(Elements(data), maxResults), ElementNormalizer(origin, distance)))
  }

  /** Normalising then ranking a list of raw entries: either nothing (some
      entry is malformed) or a stable sort by distance of all their records. */
  lemma RankedContract<T>(entries: seq<T>, normalize: T -> Option<HospitalRecord>)
    ensures var all := NormalizeAll(entries, normalize);
      var r := Ranked(all);
      && |r| <= |entries|
      && Sorted(r)
      && (all.None? ==> r == [])
      && (all.Some? ==> |r| == |entries| && IsStableSortOf(r, all.value) && multiset(r) == multiset(all.value))
  {
    var all := NormalizeAll(entries, normalize);
    if all.Some? {
      SortByDistanceIsStable(all.value);
      SortByDistancePermutes(all.value);
    }
  }

  /** The Google search contract: at most `maxResults` records, sorted by
      distance; nothing on a failed request, a status other than "OK", a
      missing `results` key, or a malformed entry among the first
      `maxResults`; otherwise a stable sort of the records of exactly those
      entries, each with Google's keys and its distance recomputed. */
  lemma SearchGoogleContract(origin: Coord, distance: DistanceFn, maxResults: nat, response: Fetch<PlacesResponse>)
    ensures var r := SearchGoogle(origin, distance, maxResults, response);
      && |r| <= maxResults
      && Sorted(r)
      && (forall i :: 0 <= i < |r| ==> r[i].fields.PlacesFields? && r[i].distance == distance(origin, r[i].location))
      && (response.Fail? ==> r == [])
      && (response.Ok? && response.payload.status != Some("OK") ==> r == [])
      && (response.Ok? && response.payload.results.None? ==> r == [])
      && (response.Ok? && response.payload.status == Some("OK") && response.payload.results.Some? ==>
            var prefix := Take(response.payload.results.value, maxResults);
            var all := NormalizeAll(prefix, PlaceNormalizer(origin, distance));
            && ((exists i :: 0 <= i < |prefix| && NormalizePlace(origin, distance, prefix[i]).None?) ==> r == [])
            && (all.Some? ==> |r| == |prefix| && IsStableSortOf(r, all.value) && multiset(r) == multiset(all.value)))
  {
    var r := SearchGoogle(origin, distance, maxResults, response);
    if response.Ok? && response.payload.status == Some("OK") && response.payload.results.Some? {
      var prefix := Take(response.payload.results.value, maxResults);
      var all := NormalizeAll(prefix, PlaceNormalizer(origin, distance));
      RankedContract(prefix, PlaceNormalizer(origin, distance));
      if all.Some? {
        forall i | 0 <= i < |r| ensures r[i].fields.PlacesFields? && r[i].distance == distance(origin, r[i].location) {
          assert r[i] in multiset(all.value);
          var j :| 0 <= j < |all.value| && all.value[j] == r[i];
          NormalizePlaceSpec(origin, distance, prefix[j]);
        }
      }
    }
  }

  /** The Overpass search contract: at most `maxResults` records, sorted by
      distance; nothing on a failed request or a malformed element among the
      first `maxResults`; otherwise a stable sort of the records of exactly
      those elements, each with OpenStreetMap's keys and its distance
      recomputed. */
  lemma SearchOverpassContract(origin: Coord, distance: DistanceFn, maxResults: nat, response: Fetch<OverpassResponse>)
    ensures var r := SearchOverpass(origin, distance, maxResults, response);
      && |r| <= maxResults
      && Sorted(r)
      && (forall i :: 0 <= i < |r| ==> r[i].fields.OsmFields? && r[i].distance == distance(origin, r[i].location))
      && (response.Fail? ==> r == [])
      && (response.Ok? ==>
            var prefix := Take(Elements(response.payload), maxResults);
            var all := NormalizeAll(prefix, ElementNormalizer(origin, distance));
            && ((exists i :: 0 <= i < |prefix| && NormalizeElement(origin, distance, prefix[i]).None?) ==> r == [])
            && (all.Some? ==> |r| == |prefix| && IsStableSortOf(r, all.value) && multiset(r) == multiset(all.value)))
  {
    var r := SearchOverpass(origin, distance, maxResults, response);
    if response.Ok? {
      var prefix := Take(Elements(response.payload), maxResults);
      var all := NormalizeAll(prefix, ElementNormalizer(origin, distance));
      RankedContract(prefix, ElementNormalizer(origin, distance));
      if all.Some? {
        forall i | 0 <= i < |r| ensures r[i].fields.OsmFields? && r[i].distance == distance(origin, r[i].location) {
          assert r[i] in multiset(all.value);
          var j :| 0 <= j < |all.value| && all.value[j] == r[i];
          NormalizeElementSpec(origin, distance, prefix[j]);
        }
      }
    }
  }

  /** Elements after the first `maxResults` are never looked at, even when
      they are malformed. */
  lemma SearchOverpassIgnoresTail(origin: Coord, distance: DistanceFn, maxResults: nat, kept: seq<OsmElement>, rest: seq<OsmElement>)
    requires |kept| == maxResults
    ensures SearchOverpass(origin, distance, maxResults, Ok(OverpassResponse(Some(kept + rest))))
         == SearchOverpass(origin, distance, maxResults, Ok(OverpassResponse(Some(kept))))
  {
    assert (kept + rest)[..maxResults] == kept;
    assert Take(Elements(OverpassResponse(Some(kept + rest))), maxResults) == kept;
    assert Take(Elements(OverpassResponse(Some(kept))), maxResults) == kept;
  }

  /** Truncation comes before sorting: with `maxResults` 1, the search keeps
      the first element although the second one is closer. */
  lemma SearchOverpassIsNotNearestN()
    ensures var origin := Coord(0.0, 0.0);
      var far := OsmElement(Some("node"), Some(1.0), Some(1.0), None, None);
      var near := OsmElement(Some("node"), Some(2.0), Some(2.0), None, None);
      var distance: DistanceFn := (a: Coord, b: Coord) => if b.lat == 1.0 then 500 else 100;
      var r := SearchOverpass(origin, distance, 1, Ok(OverpassResponse(Some([far, near]))));
      && |r| == 1
      && r[0].location == Coord(1.0, 1.0)
      && r[0].distance > NormalizeElement(origin, distance, near).value.distance
  {
  }

  /** `_find_hospitals_google`: the loop over the first `maxResults` entries
      appends one record per entry; a malformed entry raises `KeyError`, which
      the handler turns into `[]`; the list is then sorted by distance. */
  method FindHospitalsGoogle(origin: Coord, distance: DistanceFn, maxResults: nat, response: Fetch<PlacesResponse>)
    returns (hospitals: seq<HospitalRecord>)
    ensures hospitals == SearchGoogle(origin, distance, maxResults, response)
    ensures |hospitals| <= maxResults && Sorted(hospitals)
  {
    if response.Fail? {
      return [];
    }
    var data := response.payload;
    if data.status != Some("OK") || data.results.None? {
      return [];
    }
    var entries := Take(data.results.value, maxResults);
    hospitals := [];
    var i := 0;
    while i < |entries|
      invariant 0 <= i <= |entries|
      invariant NormalizeAll(entries[..i], PlaceNormalizer(origin, distance)) == Some(hospitals)
    {
      var record := NormalizePlace(origin, distance, entries[i]);
      if record.None? {
        NormalizeAllStops(entries, i, PlaceNormalizer(origin, distance));
        return [];
      }
      NormalizeAllStep(entries, i, PlaceNormalizer(origin, distance), hospitals, record.value);
      hospitals := hospitals + [record.value];
      i := i + 1;
    }
    assert entries[..i] == entries;
    RankedContract(entries, PlaceNormalizer(origin, distance));
    hospitals := SortByDistance(hospitals);
  }

  /** `_find_hospitals_overpass`: the loop over the first `maxResults`
      elements reads each coordinate, formats the address from the tags and
      appends one record; a malformed element raises, which the handler turns
      into `[]`; the list is then sorted by distance. */
  method FindHospitalsOverpass(origin: Coord, distance: DistanceFn, maxResults: nat, response: Fetch<OverpassResponse>)
    returns (hospitals: seq<HospitalRecord>)
    ensures hospitals == SearchOverpass(origin, distance, maxResults, response)
    ensures |hospitals| <= maxResults && Sorted(hospitals)
  {
    if response.Fail? {
      return [];
    }
    var entries := Take(Elements(response.payload), maxResults);
    hospitals := [];
    var i := 0;
    while i < |entries|
      invariant 0 <= i <= |entries|
      invariant NormalizeAll(entries[..i], ElementNormalizer(origin, distance)) == Some(hospitals)
    {
      var element := entries[i];
      var coord := ElementCoord(origin, element);
      if coord.None? {
        NormalizeAllStops(entries, i, ElementNormalizer(origin, distance));
        return [];
      }
      var tags := element.tags.GetOr(map[]);
      var address := OsmAddress.FormatOsmAddress(tags);
      var record := OsmRecord(origin, distance, coord.value, tags, address);
      assert ElementNormalizer(origin, distance)(element) == Some(record);
      NormalizeAllStep(entries, i, ElementNormalizer(origin, distance), hospitals, record);
      hospitals := hospitals + [record];
      i := i + 1;
    }
    assert entries[..i] == entries;
    RankedContract(entries, ElementNormalizer(origin, distance));
    hospitals := SortByDistance(hospitals);
  }
}
