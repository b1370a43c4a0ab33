/** The decoded JSON bodies of the five upstream endpoints. A field of type
    `Option` is a key that the body may lack; reading it with `d[key]` where it
    is absent raises `KeyError` in the service. */
module Responses {
  import opened Wrappers

  /** A JSON value, for the Place Details payload that the service hands back
      to its caller without looking inside it. */
  datatype Json =
    | JNull
    | JBool(b: bool)
    | JNumber(n: real)
    | JString(s: string)
    | JArray(items: seq<Json>)
    | JObject(fields: map<string, Json>)

  // ---- Google Geocoding / Places ----

  /** `{"lat": ..., "lng": ...}` */
  datatype GoogleLocation = GoogleLocation(lat: Option<real>, lng: Option<real>)

  /** `{"location": {...}}` */
  datatype GoogleGeometry = GoogleGeometry(location: Option<GoogleLocation>)

  /** One entry of the Geocoding `results` array. */
  datatype GeocodeResult = GeocodeResult(geometry: Option<GoogleGeometry>)

  /** Body of the Geocoding endpoint: `{status, results}`. */
  datatype GeocodeResponse = GeocodeResponse(status: Option<string>, results: Option<seq<GeocodeResult>>)

  /** `{"open_now": ...}` */
  datatype OpeningHours = OpeningHours(openNow: Option<bool>)

  /** One entry of the Nearby Search `results` array. */
  datatype Place = Place(
    name: Option<string>,
    vicinity: Option<string>,
    geometry: Option<GoogleGeometry>,
    rating: Option<real>,
    openingHours: Option<OpeningHours>,
    placeId: Option<string>)

  /** Body of the Nearby Search endpoint. */
  datatype PlacesResponse = PlacesResponse(status: Option<string>, results: Option<seq<Place>>)

  /** Body of the Place Details endpoint: `{status, result}`. */
  datatype DetailsResponse = DetailsResponse(status: Option<string>, result: Option<Json>)

  // ---- OpenStreetMap Nominatim / Overpass ----

  /** One element of the Nominatim array. `lat` and `lon` arrive as strings;
      here they are the values `float(...)` gives, `None` when the key is
      missing or the string is not a number. */
  datatype NominatimPlace = NominatimPlace(lat: Option<real>, lon: Option<real>)

  /** `{"lat": ..., "lon": ...}` of a way or relation (`out center`). */
  datatype OsmCenter = OsmCenter(lat: Option<real>, lon: Option<real>)

  /** One entry of the Overpass `elements` array. `kind` is the `type` key
      (`"node"`, `"way"`, `"relation"`). */
  datatype OsmElement = OsmElement(
    kind: Option<string>,
    lat: Option<real>,
    lon: Option<real>,
    center: Option<OsmCenter>,
    tags: Option<map<string, string>>)

  /** Body of the Overpass interpreter. */
  datatype OverpassResponse = OverpassResponse(elements: Option<seq<OsmElement>>)
}
