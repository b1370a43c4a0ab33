/** Address-to-coordinate resolution against either backend
    (`_geocode_google`, `_geocode_nominatim`). */
module Geocoding {
  import opened Wrappers
  import opened Responses
  import opened Records
  import Normalize

  /** Google Geocoding: the first result's `(lat, lng)` when the status is
      "OK" and the result list is non-empty; every other body, a missing key
      and a failed request give `None`. */
  function GeocodeGoogle(response: Fetch<GeocodeResponse>): (r: Option<Coord>)
    ensures r.Some? <==>
      && response.Ok?
      && response.payload.status == Some("OK")
      && response.payload.results.Some? && |response.payload.results.value| > 0
      && Normalize.GoogleCoord(response.payload.results.value[0].geometry).Some?
    ensures r.Some? ==> (
      var loc := response.payload.results.value[0].geometry.value.location.value;
      r.value == Coord(loc.lat.value, loc.lng.value))
  {
    match response
    case Fail => None
    case Ok(data) =>
      if data.status == Some("OK") && data.results.Some? && data.results.value != [] then
        Normalize.GoogleCoord(data.results.value[0].geometry)
      else None
  }

  /** Nominatim: the first element's `(lat, lon)` when the array is non-empty;
      an empty array, a missing or non-numeric coordinate and a failed request
      give `None`. */
  function GeocodeNominatim(response: Fetch<seq<NominatimPlace>>): (r: Option<Coord>)
    ensures r.Some? <==>
      response.Ok? && |response.payload| > 0
      && response.payload[0].lat.Some? && response.payload[0].lon.Some?
    ensures r.Some? ==> r.value == Coord(response.payload[0].lat.value, response.payload[0].lon.value)
  {
    match response
    case Fail => None
    case Ok(data) =>
      if data != [] then
        if data[0].lat.Some? && data[0].lon.Some? then Some(Coord(data[0].lat.value, data[0].lon.value))
        else None
      else None
  }

  /** Only the status and the first result of a Google body matter. */
  lemma GeocodeGoogleFirstOnly(a: GeocodeResponse, b: GeocodeResponse)
    requires a.status == b.status
    requires a.results.Some? && b.results.Some?
    requires |a.results.value| > 0 && |b.results.value| > 0
    requires a.results.value[0] == b.results.value[0]
    ensures GeocodeGoogle(Ok(a)) == GeocodeGoogle(Ok(b))
  {
  }

  /** Only the first element of a Nominatim array matters. */
  lemma GeocodeNominatimFirstOnly(a: seq<NominatimPlace>, b: seq<NominatimPlace>)
    requires |a| > 0 && |b| > 0 && a[0] == b[0]
    ensures GeocodeNominatim(Ok(a)) == GeocodeNominatim(Ok(b))
  {
  }
}
