# LocationService model

A Dafny model of `LocationService` in `src/utils/location_service.py`. This
client finds hospitals near a point and turns addresses into coordinates. It
works against one of two backends and picks that backend once, from its
Google Maps key:

- **Google**: the Geocoding, Places Nearby Search and Place Details endpoints.
- **OpenStreetMap**: Nominatim for geocoding and the Overpass interpreter for
  the search.

Both backends' entries become one hospital record shape. A search keeps the
first `max_results` raw entries in backend order, builds a record for each,
recomputes every distance from the search origin, and sorts the records
stably by that distance. Every failure becomes `None` or `[]`.

Modules, in dependency order:

- `Wrappers` (wrappers.dfy): `Option`, and `Fetch = Ok(payload) | Fail`, the
  outcome of one HTTP exchange.
- `Responses` (responses.dfy): the decoded JSON body of each of the five
  endpoints. A key the body may lack is an `Option` field. Reading a missing
  key with `d[key]` raises `KeyError` in the service; the model turns that into
  the handler's result.
- `Records` (records.dfy): `Coord`, the common `HospitalRecord`, and the keys
  only one backend sets (`ProviderFields`). Distances are `nat` hundredths of a
  kilometre. The distance function is a parameter of type `DistanceFn`.
- `Ranking` (ranking.dfy): `SortByDistance`, the reference definition of
  `list.sort(key=distance)`, with its proofs: it sorts, it permutes, it keeps
  ties in order, and it is the only stable sort.
- `OsmAddress` (address.dfy): the address string built from OpenStreetMap tags.
  `FormatOsmAddress` is the imperative `_format_osm_address`, proved equal to
  the `Address` function.
- `Normalize` (normalize.dfy): how one Google place or one Overpass element
  becomes a record, and `NormalizeAll`, the all-or-nothing loop over entries.
- `Geocoding` (geocoding.dfy): `_geocode_google` and `_geocode_nominatim`.
- `Search` (search.dfy): `_find_hospitals_google` and
  `_find_hospitals_overpass`. Each is a method with the source's loop, proved
  equal to the specification function `SearchGoogle` or `SearchOverpass`.
- `Service` (service.dfy): the key predicate `UsesGoogle` and the three
  entry points. `Network` gives each endpoint's answer as a function of the
  request's parameters, so "which endpoint is consulted" can be stated.

## Model

| member | source | states |
|---|---|---|
| `Service.UsesGoogleCases` | src/utils/location_service.py:24 | no key, the empty key and the placeholder key select OpenStreetMap; any other key selects Google |
| `Service.GeocodeUsesSelectedBackend` | src/utils/location_service.py:19-27 | geocoding's result depends only on the answer of the selected backend's geocoding endpoint |
| `Service.SearchUsesSelectedBackend` | src/utils/location_service.py:82-95 | the search result depends only on the answer of the selected backend's search endpoint |
| `Service.NearbyHospitalsContract` | src/utils/location_service.py:82-95 | at most `max_results` records, sorted by distance, each distance recomputed from the origin; records carry Google's keys exactly when a key is configured |
| `Service.FindNearbyHospitals` | src/utils/location_service.py:82-95 | the dispatching method returns the selected backend's search result, at most `max_results` records in non-decreasing distance |
| `Service.GetHospitalDetailsContract` | src/utils/location_service.py:241-266 | without a configured key the result is `None` whatever the network answers; with one, the `result` payload is returned unchanged exactly when the request succeeds with status "OK" and the payload is present |
| `Geocoding.GeocodeGoogle` | src/utils/location_service.py:29-52 | a coordinate exactly when the request succeeds, the status is "OK", `results` is non-empty and the first result has `geometry.location.lat` and `lng`; then it is that result's coordinate |
| `Geocoding.GeocodeNominatim` | src/utils/location_service.py:54-80 | a coordinate exactly when the request succeeds, the array is non-empty and its first element has numeric `lat` and `lon`; then it is that element's coordinate |
| `Geocoding.GeocodeGoogleFirstOnly` | src/utils/location_service.py:43-45 | only the status and the first result of a Google geocoding body matter |
| `Geocoding.GeocodeNominatimFirstOnly` | src/utils/location_service.py:72-73 | only the first element of a Nominatim array matters |
| `Search.Take` | src/utils/location_service.py:121 | `s[:n]` has length `min(n, len(s))` and is a prefix of `s` |
| `Search.FindHospitalsGoogle` | src/utils/location_service.py:97-149 | the loop-and-sort method returns exactly `SearchGoogle`: at most `max_results` records, sorted |
| `Search.SearchGoogleContract` | src/utils/location_service.py:119-149 | nothing on a failed request, a status other than "OK", a missing `results` key or a malformed entry among the first `max_results`; otherwise a stable sort by distance of exactly those entries' records, each with Google's keys and a recomputed distance |
| `Search.FindHospitalsOverpass` | src/utils/location_service.py:151-206 | the loop-and-sort method returns exactly `SearchOverpass`: at most `max_results` records, sorted |
| `Search.SearchOverpassContract` | src/utils/location_service.py:176-206 | nothing on a failed request or a malformed element among the first `max_results`; otherwise a stable sort by distance of exactly those elements' records, each with OpenStreetMap's keys and a recomputed distance |
| `Search.RankedContract` | src/utils/location_service.py:120-141 | normalising then sorting gives either nothing or a permutation of all the entries' records that is a stable sort by distance |
| `Search.SearchOverpassIgnoresTail` | src/utils/location_service.py:179 | elements after the first `max_results` never affect the result, even when malformed |
| `Search.SearchOverpassIsNotNearestN` | src/utils/location_service.py:179-201 | truncation precedes sorting: with `max_results` 1 the first element is kept although a later one is closer |
| `Normalize.NormalizeAll` | src/utils/location_service.py:120-138 | the records of all entries, in order and one per entry, exactly when every entry can be normalised; one malformed entry gives `None` |
| `Normalize.GoogleCoord` | src/utils/location_service.py:125-128 | a place's coordinate exists exactly when `geometry`, `location`, `lat` and `lng` are all present, and is `(lat, lng)` |
| `Normalize.NormalizePlaceSpec` | src/utils/location_service.py:122-137 | a Google record: name defaults to "Unknown Hospital", address to `vicinity` or "Address not available", rating to 0, `open_now` to `opening_hours.open_now` or none, `place_id` to ""; distance recomputed; no phone or emergency keys |
| `Normalize.ElementCoordSpec` | src/utils/location_service.py:181-186 | a node uses its own `lat`/`lon` and fails without them; a way or relation uses `center`, each missing coordinate replaced by the origin's; no `type` fails |
| `Normalize.NormalizeElementSpec` | src/utils/location_service.py:188-197 | an OpenStreetMap record: name defaults to "Hospital", phone to "N/A", emergency holds exactly when the tag is "yes", the address follows the tag rule, distance recomputed; no rating key |
| `OsmAddress.FormatOsmAddress` | src/utils/location_service.py:208-222 | the method that appends present parts and joins them returns `Address(tags)` |
| `OsmAddress.AddressCases` | src/utils/location_service.py:210-222 | for each of the eight combinations of house number, street and city, the present ones joined with ", " in that order; with none present, `addr:full` or "Address not available" |
| `OsmAddress.AddressReadsOnlyAddressTags` | src/utils/location_service.py:208-222 | the address depends only on the four address tags |
| `OsmAddress.PartsTakePrecedence` | src/utils/location_service.py:219-222 | once any of the three parts is present, `addr:full` is ignored |
| `Ranking.SortByDistanceSorted` | src/utils/location_service.py:141 | the sorted list has non-decreasing distances |
| `Ranking.SortByDistancePermutes` | src/utils/location_service.py:141 | the sorted list is a permutation of its input |
| `Ranking.SortByDistanceKeepsTies` | src/utils/location_service.py:201 | records at equal distance keep their original relative order |
| `Ranking.SortByDistanceIsStable` | src/utils/location_service.py:141 | the sort is a stable sort by distance of its input and a permutation of it |
| `Ranking.StableSortIsUnique` | src/utils/location_service.py:201 | a sequence is a stable sort of `s` by distance if and only if it equals `SortByDistance(s)` |
| `Ranking.SortByDistanceOfSorted` | src/utils/location_service.py:141 | sorting an already sorted list changes nothing |

The functions `GeocodeAddress`, `NearbyHospitals` and `GetHospitalDetails`
(src/utils/location_service.py:19-27, :82-95, :241-266) are the functions of
the three entry points. `SearchGoogle` and `SearchOverpass` are the
specification functions of the two search loops. The lemmas above state what
all of these promise.

## Left out

- `_calculate_distance` (src/utils/location_service.py:224-239): the haversine
  formula and `round(..., 2)` are floating-point arithmetic. The distance is a
  parameter returning non-negative hundredths of a kilometre. Symmetry,
  `distance(x, x) == 0` and the New York to Los Angeles range are therefore
  not proved.
- Networking: the session, the URLs, query parameters, the API key parameter,
  timeouts, `raise_for_status`, the User-Agent header, JSON decoding and
  logging. Each request is replaced by its outcome `Fetch`, given by the
  `Network` value.
- The Overpass query text and the Place Details field list: these are request
  contents, and the model starts from the response.
- Nominatim's `float(...)` on the string coordinates: the decoded element holds
  the parsed number, or none when it is missing or not numeric.
- JSON values of an unexpected type (a string where an object is expected, or
  an explicit `null`, which `.get` returns instead of the default): the decoded
  shapes are typed.
- Negative `max_results`: it is a `nat`, because Python's `[:n]` counts from the
  end for negative `n`.
- The default arguments `radius=5000` and `max_results=10`: callers pass both.
- Sharing one session between threads: the model has no concurrency.
- A guard on an empty place id in `get_hospital_details`: the code has none and
  sends the request anyway. The model follows the code.
- The error kinds "not found" and "network error": the code collapses both to
  `None`, and so does the model.
