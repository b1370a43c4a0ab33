/** The common record the service returns for every hospital, whichever
    backend answered. */
module Records {
  import opened Wrappers

  /** A point in degrees. */
  datatype Coord = Coord(lat: real, lon: real)

  /** Great-circle distance between two points in hundredths of a kilometre
      (the service rounds kilometres to two decimals). Its formula is not part
      of this model: every operation takes it as a parameter. */
  type DistanceFn = (Coord, Coord) -> nat

  /** The keys that only one backend puts in a record. Google records carry
      `rating`, `open_now` and `place_id` and never `phone` or `emergency`;
      OpenStreetMap records carry `phone` and `emergency` and never `rating`. */
  datatype ProviderFields =
    | PlacesFields(rating: real, openNow: Option<bool>, placeId: string)
    | OsmFields(phone: string, emergency: bool)

  /** A hospital record: `name`, `address`, `location`, `distance`, plus the
      backend's own keys. */
  datatype HospitalRecord = HospitalRecord(
    name: string,
    address: string,
    location: Coord,
    distance: nat,
    fields: ProviderFields)
}
