/** Mapping of each backend's raw entries to the common hospital record. */
module Normalize {
  import opened Wrappers
  import opened Responses
  import opened Records
  import OsmAddress

  const UnknownHospital: string := "Unknown Hospital"
  const DefaultOsmName: string := "Hospital"
  const NoPhone: string := "N/A"

  /** `tags.get(key, default)`. */
  function TagOr(tags: map<string, string>, key: string, default: string): string {
    if key in tags then tags[key] else default
  }

  // ---- Google Places ----

  /** `geometry['location']['lat']` and `['lng']`; `None` where a key is
      missing, which raises `KeyError` in the service. */
  function GoogleCoord(g: Option<GoogleGeometry>): (r: Option<Coord>)
    ensures r.Some? <==> g.Some? && g.value.location.Some?
                         && g.value.location.value.lat.Some? && g.value.location.value.lng.Some?
    ensures r.Some? ==> (r.value.lat == g.value.location.value.lat.value
                         && r.value.lon == g.value.location.value.lng.value)
  {
    match g
    case Some(GoogleGeometry(Some(GoogleLocation(Some(lat), Some(lng))))) => Some(Coord(lat, lng))
    case _ => None
  }

  /** `place.get('opening_hours', {}).get('open_now', None)`. */
  function OpenNow(h: Option<OpeningHours>): Option<bool> {
    match h
    case None => None
    case Some(hours) => hours.openNow
  }

  /** The record built for one Nearby Search entry, `None` when its geometry
      lacks a key. */
  function NormalizePlace(origin: Coord, distance: DistanceFn, p: Place): Option<HospitalRecord> {
    match GoogleCoord(p.geometry)
    case None => None
    case Some(c) =>
      Some(HospitalRecord(
        name := p.name.GetOr(UnknownHospital),
        address := p.vicinity.GetOr(OsmAddress.NoAddress),
        location := c,
        distance := distance(origin, c),
        fields := PlacesFields(
          rating := p.rating.GetOr(0.0),
          openNow := OpenNow(p.openingHours),
          placeId := p.placeId.GetOr(""))))
  }

  /** What a Google entry becomes: fails exactly when its coordinate cannot be
      read; otherwise each field takes the entry's value or its default,
      the distance is recomputed from the origin to the entry's own
      coordinate, and the record has Google's keys only. */
  lemma NormalizePlaceSpec(origin: Coord, distance: DistanceFn, p: Place)
    ensures NormalizePlace(origin, distance, p).None? <==> GoogleCoord(p.geometry).None?
    ensures NormalizePlace(origin, distance, p).Some? ==>
      var r := NormalizePlace(origin, distance, p).value;
      && Some(r.location) == GoogleCoord(p.geometry)
      && r.distance == distance(origin, r.location)
      && (p.name.Some? ==> r.name == p.name.value)
      && (p.name.None? ==> r.name == "Unknown Hospital")
      && (p.vicinity.Some? ==> r.address == p.vicinity.value)
      && (p.vicinity.None? ==> r.address == "Address not available")
      && r.fields.PlacesFields?
      && (p.rating.Some? ==> r.fields.rating == p.rating.value)
      && (p.rating.None? ==> r.fields.rating == 0.0)
      && (p.openingHours.Some? ==> r.fields.openNow == p.openingHours.value.openNow)
      && (p.openingHours.None? ==> r.fields.openNow.None?)
      && (p.placeId.Some? ==> r.fields.placeId == p.placeId.value)
      && (p.placeId.None? ==> r.fields.placeId == "")
  {
  }

  /** `NormalizePlace` with the search's origin and distance fixed. */
  function PlaceNormalizer(origin: Coord, distance: DistanceFn): Place -> Option<HospitalRecord> {
    p => NormalizePlace(origin, distance, p)
  }

  // ---- OpenStreetMap Overpass ----

  /** A node's own `lat`/`lon` (`None` when one is missing); for a way or a
      relation the `center`, each missing coordinate taken from the search
      origin; `None` when the element has no `type`. */
  function ElementCoord(origin: Coord, e: OsmElement): Option<Coord> {
    match e.kind
    case None => None
    case Some(kind) =>
      if kind == "node" then
        if e.lat.Some? && e.lon.Some? then Some(Coord(e.lat.value, e.lon.value)) else None
      else
        var center := e.center.GetOr(OsmCenter(None, None));
        Some(Coord(center.lat.GetOr(origin.lat), center.lon.GetOr(origin.lon)))
  }

  /** The coordinate rule stated per element kind. */
  lemma ElementCoordSpec(origin: Coord, e: OsmElement)
    ensures e.kind.None? ==> ElementCoord(origin, e).None?
    ensures e.kind == Some("node") ==>
      (ElementCoord(origin, e).Some? <==> e.lat.Some? && e.lon.Some?)
      && (ElementCoord(origin, e).Some? ==> ElementCoord(origin, e).value == Coord(e.lat.value, e.lon.value))
    ensures e.kind.Some? && e.kind != Some("node") ==>
      var c := ElementCoord(origin, e);
      && c.Some?
      && (e.center.Some? && e.center.value.lat.Some? ==> c.value.lat == e.center.value.lat.value)
      && (e.center.None? || e.center.value.lat.None? ==> c.value.lat == origin.lat)
      && (e.center.Some? && e.center.value.lon.Some? ==> c.value.lon == e.center.value.lon.value)
      && (e.center.None? || e.center.value.lon.None? ==> c.value.lon == origin.lon)
  {
  }

  /** The record for an element with coordinate `c`, tags `tags` and
      formatted address `address`. */
  function OsmRecord(origin: Coord, distance: DistanceFn, c: Coord, tags: map<string, string>, address: string): HospitalRecord {
    HospitalRecord(
      name := TagOr(tags, "name", DefaultOsmName),
      address := address,
      location := c,
      distance := distance(origin, c),
      fields := OsmFields(
        phone := TagOr(tags, "phone", NoPhone),
        emergency := "emergency" in tags && tags["emergency"] == "yes"))
  }

  /** The record built for one Overpass element, `None` when its coordinate
      cannot be read. */
  function NormalizeElement(origin: Coord, distance: DistanceFn, e: OsmElement): Option<HospitalRecord> {
    match ElementCoord(origin, e)
    case None => None
    case Some(c) =>
      var tags := e.tags.GetOr(map[]);
      Some(OsmRecord(origin, distance, c, tags, OsmAddress.Address(tags)))
  }

  /** What an Overpass element becomes: fails exactly when its coordinate
      cannot be read; `name` and `phone` default, `emergency` holds exactly
      when the tag is "yes", the address follows the tag rule, the distance is
      recomputed, and the record has OpenStreetMap's keys only. */
  lemma NormalizeElementSpec(origin: Coord, distance: DistanceFn, e: OsmElement)
    ensures NormalizeElement(origin, distance, e).None? <==> ElementCoord(origin, e).None?
    ensures NormalizeElement(origin, distance, e).Some? ==>
      var r := NormalizeElement(origin, distance, e).value;
      var tags := e.tags.GetOr(map[]);
      && Some(r.location) == ElementCoord(origin, e)
      && r.distance == distance(origin, r.location)
      && ("name" in tags ==> r.name == tags["name"])
      && ("name" !in tags ==> r.name == "Hospital")
      && r.address == OsmAddress.Address(tags)
      && r.fields.OsmFields?
      && ("phone" in tags ==> r.fields.phone == tags["phone"])
      && ("phone" !in tags ==> r.fields.phone == "N/A")
      && (r.fields.emergency <==> "emergency" in tags && tags["emergency"] == "yes")
  {
  }

  /** `NormalizeElement` with the search's origin and distance fixed. */
  function ElementNormalizer(origin: Coord, distance: DistanceFn): OsmElement -> Option<HospitalRecord> {
    e => NormalizeElement(origin, distance, e)
  }

  // ---- Both backends ----

  /** The records for all `entries`, in order, or `None` as soon as one entry
      cannot be normalised: one malformed entry aborts the whole loop. */
  function NormalizeAll<T>(entries: seq<T>, normalize: T -> Option<HospitalRecord>): (r: Option<seq<HospitalRecord>>)
    ensures r.Some? <==> forall i :: 0 <= i < |entries| ==> normalize(entries[i]).Some?
    ensures r.Some? ==> (|r.value| == |entries|
                         && forall i :: 0 <= i < |entries| ==> normalize(entries[i]) == Some(r.value[i]))
  {
    if entries == [] then Some([])
    else
      match NormalizeAll(entries[..|entries| - 1], normalize)
      case None => None
      case Some(init) =>
        match normalize(entries[|entries| - 1])
        case None => None
        case Some(h) => Some(init + [h])
  }

  /** One more well-formed entry extends the records by its record. */
  lemma NormalizeAllStep<T>(entries: seq<T>, i: nat, normalize: T -> Option<HospitalRecord>,
                            init: seq<HospitalRecord>, h: HospitalRecord)
    requires i < |entries|
    requires NormalizeAll(entries[..i], normalize) == Some(init)
    requires normalize(entries[i]) == Some(h)
    ensures NormalizeAll(entries[..i + 1], normalize) == Some(init + [h])
  {
    assert entries[..i + 1][..i] == entries[..i];
  }

  /** A malformed entry anywhere makes the whole normalisation fail. */
  lemma NormalizeAllStops<T>(entries: seq<T>, i: nat, normalize: T -> Option<HospitalRecord>)
    requires i < |entries| && normalize(entries[i]).None?
    ensures NormalizeAll(entries, normalize).None?
  {
  }
}
