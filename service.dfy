/** `LocationService`: picks the backend once from its key and dispatches
    geocoding, proximity search and place details to it. */
module Service {
  import opened Wrappers
  import opened Responses
  import opened Records
  import opened Ranking
  import Geocoding
  import Search

  /** The key value that stands for "not configured". */
  const PlaceholderKey: string := "YOUR_GOOGLE_MAPS_API_KEY_HERE"

  /** A service instance. Its only modelled state is the Google key given at
      construction, which no operation changes. */
  datatype LocationService = LocationService(googleApiKey: Option<string>)

  /** The backend choice: Google exactly when the key is present, non-empty
      (Python truthiness) and not the placeholder. */
  predicate UsesGoogle(service: LocationService) {
    match service.googleApiKey
    case None => false
    case Some(key) => key != "" && key != PlaceholderKey
  }

  /** What each upstream endpoint answers, as a function of the request's
      parameters: the address for geocoding, origin and radius for a search,
      the place id for details. */
  datatype Network = Network(
    googleGeocode: string -> Fetch<GeocodeResponse>,
    nominatim: string -> Fetch<seq<NominatimPlace>>,
    placesNearby: (Coord, int) -> Fetch<PlacesResponse>,
    overpass: (Coord, int) -> Fetch<OverpassResponse>,
    placeDetails: string -> Fetch<DetailsResponse>)

  /** `geocode_address`. */
  function GeocodeAddress(service: LocationService, net: Network, address: string): Option<Coord> {
    if UsesGoogle(service) then Geocoding.GeocodeGoogle(net.googleGeocode(address))
    else Geocoding.GeocodeNominatim(net.nominatim(address))
  }

  /** What `find_nearby_hospitals` returns. */
  function NearbyHospitals(service: LocationService, net: Network, distance: DistanceFn,
                           origin: Coord, radius: int, maxResults: nat): seq<HospitalRecord> {
    if UsesGoogle(service) then Search.SearchGoogle(origin, distance, maxResults, net.placesNearby(origin, radius))
    else Search.SearchOverpass(origin, distance, maxResults, net.overpass(origin, radius))
  }

  /** `find_nearby_hospitals`: never fails, returns at most `maxResults`
      records in non-decreasing distance. */
  method FindNearbyHospitals(service: LocationService, net: Network, distance: DistanceFn,
                             origin: Coord, radius: int, maxResults: nat)
    returns (hospitals: seq<HospitalRecord>)
    ensures hospitals == NearbyHospitals(service, net, distance, origin, radius, maxResults)
    ensures |hospitals| <= maxResults && Sorted(hospitals)
  {
    if UsesGoogle(service) {
      hospitals := Search.FindHospitalsGoogle(origin, distance, maxResults, net.placesNearby(origin, radius));
    } else {
      hospitals := Search.FindHospitalsOverpass(origin, distance, maxResults, net.overpass(origin, radius));
    }
  }

  /** `get_hospital_details`: the `result` payload, unchanged, when Google is
      configured and answers "OK"; otherwise `None`. */
  function GetHospitalDetails(service: LocationService, net: Network, placeId: string): Option<Json> {
    if !UsesGoogle(service) then None
    else
      match net.placeDetails(placeId)
      case Fail => None
      case Ok(data) => if data.status == Some("OK") then data.result else None
  }

  /** The backend predicate on the three kinds of key it rejects and on any
      other key. */
  lemma UsesGoogleCases(key: string)
    ensures !UsesGoogle(LocationService(None))
    ensures !UsesGoogle(LocationService(Some("")))
    ensures !UsesGoogle(LocationService(Some("YOUR_GOOGLE_MAPS_API_KEY_HERE")))
    ensures key != "" && key != "YOUR_GOOGLE_MAPS_API_KEY_HERE" ==> UsesGoogle(LocationService(Some(key)))
  {
  }

  /** Geocoding consults only the selected backend's endpoint. */
  lemma GeocodeUsesSelectedBackend(service: LocationService, n1: Network, n2: Network, address: string)
    requires UsesGoogle(service) ==> n1.googleGeocode(address) == n2.googleGeocode(address)
    requires !UsesGoogle(service) ==> n1.nominatim(address) == n2.nominatim(address)
    ensures GeocodeAddress(service, n1, address) == GeocodeAddress(service, n2, address)
  {
  }

  /** Search consults only the selected backend's endpoint. */
  lemma SearchUsesSelectedBackend(service: LocationService, n1: Network, n2: Network, distance: DistanceFn,
                                  origin: Coord, radius: int, maxResults: nat)
    requires UsesGoogle(service) ==> n1.placesNearby(origin, radius) == n2.placesNearby(origin, radius)
    requires !UsesGoogle(service) ==> n1.overpass(origin, radius) == n2.overpass(origin, radius)
    ensures NearbyHospitals(service, n1, distance, origin, radius, maxResults)
         == NearbyHospitals(service, n2, distance, origin, radius, maxResults)
  {
  }

  /** The search returns at most `maxResults` records, sorted by distance,
      each with its distance recomputed from the origin, and the selected
      backend determines the record's keys: Google's with a key, OpenStreetMap's
      without. */
  lemma NearbyHospitalsContract(service: LocationService, net: Network, distance: DistanceFn,
                                origin: Coord, radius: int, maxResults: nat)
    ensures var r := NearbyHospitals(service, net, distance, origin, radius, maxResults);
      && |r| <= maxResults
      && Sorted(r)
      && (forall i :: 0 <= i < |r| ==> r[i].distance == distance(origin, r[i].location))
      && (forall i :: 0 <= i < |r| ==> (r[i].fields.PlacesFields? <==> UsesGoogle(service)))
  {
    if UsesGoogle(service) {
      Search.SearchGoogleContract(origin, distance, maxResults, net.placesNearby(origin, radius));
    } else {
      Search.SearchOverpassContract(origin, distance, maxResults, net.overpass(origin, radius));
    }
  }

  /** Details: without a configured key the answer is `None` whatever the
      network would say, so no request matters; with one, the payload is
      returned exactly when the request succeeds with status "OK" and a
      `result` key. */
  lemma GetHospitalDetailsContract(service: LocationService, net: Network, placeId: string)
    ensures !UsesGoogle(service) ==> forall other: Network :: GetHospitalDetails(service, other, placeId).None?
    ensures UsesGoogle(service) ==>
      (GetHospitalDetails(service, net, placeId).Some? <==>
         net.placeDetails(placeId).Ok? && net.placeDetails(placeId).payload.status == Some("OK")
         && net.placeDetails(placeId).payload.result.Some?)
    ensures GetHospitalDetails(service, net, placeId).Some? ==>
      GetHospitalDetails(service, net, placeId) == net.placeDetails(placeId).payload.result
  {
  }
}
