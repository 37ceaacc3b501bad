/**
 * The zone matcher of backend/services/location_validator.py: the zone list loaded once at
 * start-up, the scan that finds the first zone containing a coordinate, and the two
 * read-only queries over the zone list.
 *
 * Zones are JSON values, as `json.load` gives them; `zones` is the sequence that iterating
 * the loaded value yields. A Python exception that escapes an operation is a `Failure`
 * naming it. Shapely's point-to-boundary distance is a parameter of the scan.
 */
module LocationValidator {
  import opened Wrappers
  import opened JsonValues
  import opened Geometry

  /** A Euclidean distance: never negative. */
  type Distance = d: real | d >= 0.0

  /** `point.distance(polygon.boundary)` for a shell and a point. */
  type DistanceFn = (seq<Point>, Point) -> Distance

  // ---------------------------------------------------------------------------------
  // Results

  /** The dictionary `validate_coordinates` returns. */
  datatype Validation =
    | Valid(zoneId: Json, zoneName: Json, zoneType: Json, department: Json, contact: Json,
            email: Json, address: Json, coordinates: (real, real), confidence: real,
            distanceToBoundary: real)
    | Invalid(coordinates: (real, real))
  {
    function Status(): string { if Valid? then "valid" else "invalid" }
    function ZoneIdField(): Json { if Valid? then zoneId else JNull }
    function ZoneNameField(): Json { if Valid? then zoneName else JStr("Unknown Location") }
    function ZoneTypeField(): Json { if Valid? then zoneType else JStr("unknown") }
    function DepartmentField(): Json { if Valid? then department else JStr("Unknown") }
    function ConfidenceField(): real { if Valid? then confidence else 0.0 }
    function Reason(): Option<string> {
      if Valid? then None else Some("Location not within any administrative zone")
    }
  }

  /** The dictionary `get_zone_info` returns. */
  datatype ZoneInfo = ZoneInfo(id: Json, name: Json, zoneType: Json, department: Json,
                               contact: Json, email: Json, address: Json)

  /** One entry of `list_available_zones`. */
  datatype ZoneSummary = ZoneSummary(id: Json, name: Json, zoneType: Json)

  // ---------------------------------------------------------------------------------
  // `validate_coordinates`

  /** `min(1.0, max(0.5, 1.0 - distance * 100))`. */
  function Confidence(distance: real): (c: real)
    ensures 0.5 <= c <= 1.0
  {
    Min(1.0, Max(0.5, 1.0 - distance * 100.0))
  }

  /**
   * The confidence is 1 on the boundary and falls by 100 per unit of distance into the
   * zone, down to 0.5 from a distance of 0.005 on.
   */
  lemma {:induction false} ConfidenceByDepth(distance: real)
    requires distance >= 0.0
    ensures distance <= 0.005 ==> Confidence(distance) == 1.0 - distance * 100.0
    ensures distance >= 0.005 ==> Confidence(distance) == 0.5
    ensures distance == 0.0 ==> Confidence(distance) == 1.0
  {
  }

  /** A point further from the boundary never gets a higher confidence. */
  lemma {:induction false} ConfidenceNeverRisesWithDepth(d1: real, d2: real)
    requires d1 <= d2
    ensures Confidence(d2) <= Confidence(d1)
  {
  }

  /** `[coord[1], coord[0]]` for one boundary entry, when it holds two numbers. */
  function BoundaryPoint(coord: Json): Option<Point> {
    if coord.JArr? && |coord.items| >= 2 && coord.items[0].JNum? && coord.items[1].JNum?
    then Some(Point(coord.items[1].n, coord.items[0].n))
    else None
  }

  /** The swapped coordinate list of a boundary, when every entry is a pair of numbers. */
  function RingOf(coords: seq<Json>): (r: Option<seq<Point>>)
    ensures r.Some? ==> |r.value| == |coords|
    ensures r.Some? ==> forall i :: 0 <= i < |coords| ==> BoundaryPoint(coords[i]) == Some(r.value[i])
    ensures r.None? ==> exists i :: 0 <= i < |coords| && BoundaryPoint(coords[i]).None?
  {
    if coords == [] then Some([])
    else
      match BoundaryPoint(coords[0])
      case None => None
      case Some(p) =>
        match RingOf(coords[1..])
        case None =>
          assert forall i :: 0 <= i < |coords| - 1 ==> coords[1..][i] == coords[i + 1];
          None
        case Some(rest) =>
          assert forall i :: 0 <= i < |coords| - 1 ==> coords[1..][i] == coords[i + 1];
          Some([p] + rest)
  }

  /** The shell Shapely is given for a boundary value. */
  function BoundaryRing(boundary: Json): Option<seq<Point>> {
    if boundary.JArr? then RingOf(boundary.items) else None
  }

  /** What the loop body does with one zone. */
  datatype ZoneOutcome =
    | Miss            // skipped, or an exception the handler logs before `continue`
    | Hit(v: Validation)
    | Abort           // the handler's own `zone.get` raises AttributeError: not a dict

  /** The valid record for a zone object that contains the point. */
  function ValidRecord(entries: seq<(string, Json)>, latitude: real, longitude: real, distance: real): Validation
    requires HasKey(entries, "id") && HasKey(entries, "name") && HasKey(entries, "type")
  {
    Valid(Get(entries, "id").value, Get(entries, "name").value, Get(entries, "type").value,
          GetOr(entries, "department", JStr("Unknown")), GetOr(entries, "contact", JStr("")),
          GetOr(entries, "email", JStr("")), GetOr(entries, "address", JStr("")),
          (latitude, longitude), Confidence(distance), distance)
  }

  /** The body of the `try` block, and its handler, for one zone. */
  function ZoneTest(zone: Json, latitude: real, longitude: real, distance: DistanceFn): (r: ZoneOutcome)
    ensures r.Hit? ==> r.v.Valid? && r.v.coordinates == (latitude, longitude)
    ensures r.Hit? ==> zone.JObj? && BoundaryRing(GetOr(zone.entries, "boundary", JNull)).Some?
    ensures r.Hit? ==> var ring := BoundaryRing(GetOr(zone.entries, "boundary", JNull)).value;
                       IsShell(ring) && Contains(ring, Point(longitude, latitude))
                       && r.v.distanceToBoundary == distance(ring, Point(longitude, latitude))
    ensures r.Hit? ==> r.v.confidence == Confidence(r.v.distanceToBoundary) && 0.5 <= r.v.confidence <= 1.0
    ensures r.Hit? ==> Get(zone.entries, "id") == Some(r.v.zoneId) && Get(zone.entries, "name") == Some(r.v.zoneName)
                       && Get(zone.entries, "type") == Some(r.v.zoneType)
    ensures r.Hit? ==> r.v.department == GetOr(zone.entries, "department", JStr("Unknown"))
                       && r.v.contact == GetOr(zone.entries, "contact", JStr(""))
                       && r.v.email == GetOr(zone.entries, "email", JStr(""))
                       && r.v.address == GetOr(zone.entries, "address", JStr(""))
  {
    match zone
    case JObj(entries) =>
      var boundary := GetOr(entries, "boundary", JNull);
      if !Truthy(boundary) then Miss
      else
        (match BoundaryRing(boundary)
         case None => Miss
         case Some(ring) =>
           var point := Point(longitude, latitude);
           if !IsShell(ring) || !Contains(ring, point) then Miss
           else if !HasKey(entries, "id") || !HasKey(entries, "name") || !HasKey(entries, "type") then Miss
           else Hit(ValidRecord(entries, latitude, longitude, distance(ring, point))))
    case JArr(items) => if JStr("boundary") in items then Abort else Miss
    case JStr(s) => if IsSubstring("boundary", s) then Abort else Miss
    case JNum(_) => Abort
    case JBool(_) => Abort
    case JNull => Abort
  }

  /** `validate_coordinates` over the zone list. */
  function Validate(zones: seq<Json>, latitude: real, longitude: real, distance: DistanceFn): Result<Validation>
  {
    if zones == [] then Success(Invalid((latitude, longitude)))
    else
      match ZoneTest(zones[0], latitude, longitude, distance)
      case Hit(v) => Success(v)
      case Abort => Failure("AttributeError")
      case Miss => Validate(zones[1..], latitude, longitude, distance)
  }

  /** The zone at index k decides the scan when every earlier zone was skipped. */
  lemma {:induction false} FirstContainingZoneWins(zones: seq<Json>, latitude: real, longitude: real,
                                                   distance: DistanceFn, k: nat)
    requires k < |zones| && ZoneTest(zones[k], latitude, longitude, distance).Hit?
    requires forall j :: 0 <= j < k ==> ZoneTest(zones[j], latitude, longitude, distance).Miss?
    ensures Validate(zones, latitude, longitude, distance) == Success(ZoneTest(zones[k], latitude, longitude, distance).v)
  {
    if k > 0 {
      var rest := zones[1..];
      assert rest[k - 1] == zones[k];
      forall j | 0 <= j < k - 1
        ensures ZoneTest(rest[j], latitude, longitude, distance).Miss?
      {
        assert rest[j] == zones[j + 1];
      }
      FirstContainingZoneWins(rest, latitude, longitude, distance, k - 1);
      assert ZoneTest(zones[0], latitude, longitude, distance).Miss?;
    }
  }

  /**
   * A valid result names a zone whose shell strictly contains the point (longitude, latitude),
   * and every zone before it was skipped.
   */
  lemma {:induction false} ValidResultIsInsideItsZone(zones: seq<Json>, latitude: real, longitude: real,
                                                      distance: DistanceFn)
    requires Validate(zones, latitude, longitude, distance).Success?
    requires Validate(zones, latitude, longitude, distance).value.Valid?
    ensures exists k :: 0 <= k < |zones| && zones[k].JObj?
                        && BoundaryRing(GetOr(zones[k].entries, "boundary", JNull)).Some?
                        && Contains(BoundaryRing(GetOr(zones[k].entries, "boundary", JNull)).value, Point(longitude, latitude))
                        && ZoneTest(zones[k], latitude, longitude, distance) == Hit(Validate(zones, latitude, longitude, distance).value)
                        && forall j :: 0 <= j < k ==> ZoneTest(zones[j], latitude, longitude, distance).Miss?
  {
    var outcome := ZoneTest(zones[0], latitude, longitude, distance);
    if outcome.Miss? {
      var rest := zones[1..];
      ValidResultIsInsideItsZone(rest, latitude, longitude, distance);
      var k :| 0 <= k < |rest| && rest[k].JObj?
               && BoundaryRing(GetOr(rest[k].entries, "boundary", JNull)).Some?
               && Contains(BoundaryRing(GetOr(rest[k].entries, "boundary", JNull)).value, Point(longitude, latitude))
               && ZoneTest(rest[k], latitude, longitude, distance) == Hit(Validate(rest, latitude, longitude, distance).value)
               && forall j :: 0 <= j < k ==> ZoneTest(rest[j], latitude, longitude, distance).Miss?;
      assert rest[k] == zones[k + 1];
      forall j | 0 <= j < k + 1
        ensures ZoneTest(zones[j], latitude, longitude, distance).Miss?
      {
        if j > 0 {
          assert zones[j] == rest[j - 1];
        }
      }
    } else {
      assert outcome.Hit?;
    }
  }

  /** The result is the invalid record exactly when every zone is skipped. */
  lemma {:induction false} InvalidExactlyWhenNoZoneMatches(zones: seq<Json>, latitude: real, longitude: real,
                                                           distance: DistanceFn)
    ensures Validate(zones, latitude, longitude, distance) == Success(Invalid((latitude, longitude)))
            <==> forall k :: 0 <= k < |zones| ==> ZoneTest(zones[k], latitude, longitude, distance).Miss?
  {
    if zones != [] {
      var rest := zones[1..];
      InvalidExactlyWhenNoZoneMatches(rest, latitude, longitude, distance);
      assert forall k :: 0 <= k < |rest| ==> rest[k] == zones[k + 1];
      if ZoneTest(zones[0], latitude, longitude, distance).Miss?
         && forall k :: 0 <= k < |rest| ==> ZoneTest(rest[k], latitude, longitude, distance).Miss? {
        forall k | 0 <= k < |zones|
          ensures ZoneTest(zones[k], latitude, longitude, distance).Miss?
        {
          if k > 0 {
            assert zones[k] == rest[k - 1];
          }
        }
      }
    }
  }

  /** An exception escapes only through a zone that is not a dict. */
  lemma {:induction false} FailureComesFromANonObjectZone(zones: seq<Json>, latitude: real, longitude: real,
                                                          distance: DistanceFn)
    requires Validate(zones, latitude, longitude, distance).Failure?
    ensures exists k :: 0 <= k < |zones| && !zones[k].JObj?
  {
    if ZoneTest(zones[0], latitude, longitude, distance).Miss? {
      FailureComesFromANonObjectZone(zones[1..], latitude, longitude, distance);
      var k :| 0 <= k < |zones[1..]| && !zones[1..][k].JObj?;
      assert zones[k + 1] == zones[1..][k];
    }
  }

  /** A zone object without a (truthy) boundary, or with a malformed one, is skipped. */
  lemma {:induction false} ZonesWithoutUsableBoundaryAreSkipped(entries: seq<(string, Json)>, latitude: real, longitude: real,
                                             distance: DistanceFn)
    requires !Truthy(GetOr(entries, "boundary", JNull))
             || BoundaryRing(GetOr(entries, "boundary", JNull)).None?
             || !IsShell(BoundaryRing(GetOr(entries, "boundary", JNull)).value)
    ensures ZoneTest(JObj(entries), latitude, longitude, distance) == Miss
  {
  }

  /** The fixed fields of the invalid record. */
  lemma {:induction false} InvalidRecordFields(coordinates: (real, real))
    ensures Invalid(coordinates).Status() == "invalid" && Invalid(coordinates).ZoneIdField() == JNull
    ensures Invalid(coordinates).ZoneNameField() == JStr("Unknown Location")
    ensures Invalid(coordinates).ZoneTypeField() == JStr("unknown")
    ensures Invalid(coordinates).DepartmentField() == JStr("Unknown")
    ensures Invalid(coordinates).ConfidenceField() == 0.0
    ensures Invalid(coordinates).Reason() == Some("Location not within any administrative zone")
  {
  }

  // ---------------------------------------------------------------------------------
  // `_get_default_zones`

  function Pair(a: real, b: real): Json { JArr([JNum(a), JNum(b)]) }

  const DefaultBoundary: Json :=
    JArr([Pair(75.700, 31.245), Pair(75.710, 31.245), Pair(75.710, 31.265), Pair(75.700, 31.265), Pair(75.700, 31.245)])

  const DefaultZone: Json := JObj([
    ("id", JStr("lpu_main_campus")),
    ("name", JStr("Lovely Professional University - Main Campus")),
    ("type", JStr("educational_institution")),
    ("department", JStr("University Administration")),
    ("contact", JStr("+91-1824-517000")),
    ("email", JStr("info@lpu.co.in")),
    ("address", JStr("Phagwara, Punjab, India")),
    ("boundary", DefaultBoundary)])

  function DefaultZones(): seq<Json> { [DefaultZone] }

  /**
   * The shell Shapely builds from the default boundary: the literal lists [longitude, latitude]
   * pairs, but every boundary entry is read as [latitude, longitude], so the shell spans
   * longitudes 31.245 to 31.265 and latitudes 75.700 to 75.710.
   */
  lemma {:induction false} DefaultShell()
    ensures BoundaryRing(DefaultBoundary) == Some(Rectangle(31.245, 31.265, 75.700, 75.710))
    ensures IsShell(Rectangle(31.245, 31.265, 75.700, 75.710))
  {
    RingOfPairs(DefaultBoundary.items, Rectangle(31.245, 31.265, 75.700, 75.710));
  }

  /** A list of number pairs converts to the points with each pair read as [y, x]. */
  lemma {:induction false} RingOfPairs(coords: seq<Json>, ring: seq<Point>)
    requires |coords| == |ring|
    requires forall i :: 0 <= i < |coords| ==> coords[i] == Pair(ring[i].y, ring[i].x)
    ensures RingOf(coords) == Some(ring)
  {
    if coords != [] {
      assert BoundaryPoint(coords[0]) == Some(ring[0]);
      forall i | 0 <= i < |coords| - 1
        ensures coords[1..][i] == Pair(ring[1..][i].y, ring[1..][i].x)
      {
        assert coords[1..][i] == coords[i + 1] && ring[1..][i] == ring[i + 1];
      }
      RingOfPairs(coords[1..], ring[1..]);
      assert [ring[0]] + ring[1..] == ring;
    }
  }

  lemma {:induction false} DefaultZoneFields()
    ensures GetOr(DefaultZone.entries, "boundary", JNull) == DefaultBoundary
    ensures Get(DefaultZone.entries, "id") == Some(JStr("lpu_main_campus"))
    ensures HasKey(DefaultZone.entries, "name") && HasKey(DefaultZone.entries, "type")
  {
    var e := DefaultZone.entries;
    assert e[1..][1..][1..][1..][1..][1..][1..] == [("boundary", DefaultBoundary)];
    assert e[1..][1..][1..][1..][1..][1..][1..][0].0 == "boundary";
    assert e[1].0 == "name" && e[2].0 == "type";
  }

  /** The default zone matches exactly the points strictly inside its (swapped) rectangle. */
  lemma {:induction false} DefaultZoneMatches(latitude: real, longitude: real, distance: DistanceFn)
    ensures ZoneTest(DefaultZone, latitude, longitude, distance).Hit?
            <==> 31.245 < longitude < 31.265 && 75.700 < latitude < 75.710
    ensures ZoneTest(DefaultZone, latitude, longitude, distance).Hit? ==>
              ZoneTest(DefaultZone, latitude, longitude, distance).v.zoneId == JStr("lpu_main_campus")
    ensures !ZoneTest(DefaultZone, latitude, longitude, distance).Abort?
  {
    DefaultShell();
    DefaultZoneFields();
    RectangleContainsItsInterior(31.245, 31.265, 75.700, 75.710, Point(longitude, latitude));
  }

  /** With only the default zone, a coordinate is valid exactly inside the rectangle, invalid elsewhere. */
  lemma {:induction false} DefaultValidation(latitude: real, longitude: real, distance: DistanceFn)
    ensures Validate(DefaultZones(), latitude, longitude, distance).Success?
    ensures Validate(DefaultZones(), latitude, longitude, distance).value.Valid?
            <==> 31.245 < longitude < 31.265 && 75.700 < latitude < 75.710
    ensures Validate(DefaultZones(), latitude, longitude, distance).value.Valid? ==>
              Validate(DefaultZones(), latitude, longitude, distance).value.zoneId == JStr("lpu_main_campus")
  {
    DefaultZoneMatches(latitude, longitude, distance);
    assert DefaultZones()[1..] == [];
  }

  /** The campus coordinate (31.255, 75.705) falls outside the default zone, as the literal stands. */
  lemma {:induction false} CampusCoordinateIsOutsideTheDefaultZone(distance: DistanceFn)
    ensures Validate(DefaultZones(), 31.255, 75.705, distance) == Success(Invalid((31.255, 75.705)))
  {
    DefaultValidation(31.255, 75.705, distance);
  }

  /** The same coordinate with latitude and longitude exchanged is inside it. */
  lemma {:induction false} SwappedCampusCoordinateIsInside(distance: DistanceFn)
    ensures Validate(DefaultZones(), 75.705, 31.255, distance).Success?
    ensures Validate(DefaultZones(), 75.705, 31.255, distance).value.Valid?
    ensures Validate(DefaultZones(), 75.705, 31.255, distance).value.zoneId == JStr("lpu_main_campus")
  {
    DefaultValidation(75.705, 31.255, distance);
  }

  /** The origin is invalid with the default zones. */
  lemma {:induction false} OriginIsOutsideTheDefaultZone(distance: DistanceFn)
    ensures Validate(DefaultZones(), 0.0, 0.0, distance) == Success(Invalid((0.0, 0.0)))
  {
    DefaultValidation(0.0, 0.0, distance);
  }

  // ---------------------------------------------------------------------------------
  // `_load_zone_boundaries`

  /** What the loader finds on disk: no file, a file `json.load` rejects, or a document. */
  datatype ZoneFile = Missing | Unreadable | Document(data: Json)

  /** One `educational_zones` entry converted to a zone; None when `zone_data['name']` or `['type']` raises. */
  function EducationalZone(key: string, zoneData: Json): (r: Option<Json>)
    ensures r.Some? <==> zoneData.JObj? && HasKey(zoneData.entries, "name") && HasKey(zoneData.entries, "type")
    ensures r.Some? ==> r.value.JObj? && Get(r.value.entries, "id") == Some(JStr("educational_zones_" + key))
    ensures r.Some? ==> Get(r.value.entries, "name") == Get(zoneData.entries, "name")
                        && Get(r.value.entries, "type") == Get(zoneData.entries, "type")
    ensures r.Some? ==> Get(r.value.entries, "department") == Some(GetOr(zoneData.entries, "department", JStr("Unknown")))
                        && Get(r.value.entries, "contact") == Some(GetOr(zoneData.entries, "contact", JStr("")))
                        && Get(r.value.entries, "email") == Some(GetOr(zoneData.entries, "email", JStr("")))
                        && Get(r.value.entries, "address") == Some(GetOr(zoneData.entries, "address", JStr("")))
                        && Get(r.value.entries, "boundary") == Some(GetOr(zoneData.entries, "boundary", JArr([])))
  {
    match zoneData
    case JObj(e) =>
      if !HasKey(e, "name") || !HasKey(e, "type") then None
      else
        var z := [
          ("id", JStr("educational_zones_" + key)),
          ("name", Get(e, "name").value),
          ("type", Get(e, "type").value),
          ("department", GetOr(e, "department", JStr("Unknown"))),
          ("contact", GetOr(e, "contact", JStr(""))),
          ("email", GetOr(e, "email", JStr(""))),
          ("address", GetOr(e, "address", JStr(""))),
          ("boundary", GetOr(e, "boundary", JArr([])))];
        ZoneRecordKeys(z);
        Some(JObj(z))
    case _ => None
  }

  /** Each key of a converted zone is found at its own position in the record. */
  lemma {:induction false} ZoneRecordKeys(z: seq<(string, Json)>)
    requires |z| == 8 && z[0].0 == "id" && z[1].0 == "name" && z[2].0 == "type" && z[3].0 == "department"
    requires z[4].0 == "contact" && z[5].0 == "email" && z[6].0 == "address" && z[7].0 == "boundary"
    ensures Get(z, "id") == Some(z[0].1) && Get(z, "name") == Some(z[1].1) && Get(z, "type") == Some(z[2].1)
    ensures Get(z, "department") == Some(z[3].1) && Get(z, "contact") == Some(z[4].1)
    ensures Get(z, "email") == Some(z[5].1) && Get(z, "address") == Some(z[6].1)
    ensures Get(z, "boundary") == Some(z[7].1)
  {
    GetFindsFirst(z, "id", 0);
    GetFindsFirst(z, "name", 1);
    GetFindsFirst(z, "type", 2);
    GetFindsFirst(z, "department", 3);
    GetFindsFirst(z, "contact", 4);
    GetFindsFirst(z, "email", 5);
    GetFindsFirst(z, "address", 6);
    GetFindsFirst(z, "boundary", 7);
  }

  /** All `educational_zones` entries converted in order; None when any conversion raises. */
  function EducationalZones(entries: seq<(string, Json)>): Option<seq<Json>>
  {
    if entries == [] then Some([])
    else
      match EducationalZone(entries[0].0, entries[0].1)
      case None => None
      case Some(z) =>
        match EducationalZones(entries[1..])
        case None => None
        case Some(rest) => Some([z] + rest)
  }

  /** The converted list has one zone per entry, in order, named `educational_zones_<key>`. */
  lemma {:induction false} EducationalZonesKeepKeysAndOrder(entries: seq<(string, Json)>)
    requires EducationalZones(entries).Some?
    ensures |EducationalZones(entries).value| == |entries|
    ensures forall i :: 0 <= i < |entries| ==>
              EducationalZone(entries[i].0, entries[i].1) == Some(EducationalZones(entries).value[i])
  {
    if entries != [] {
      var rest := entries[1..];
      EducationalZonesKeepKeysAndOrder(rest);
      forall i | 0 <= i < |entries|
        ensures EducationalZone(entries[i].0, entries[i].1) == Some(EducationalZones(entries).value[i])
      {
        if i > 0 {
          assert entries[i] == rest[i - 1];
        }
      }
    }
  }

  /** An entry without a name or a type makes the conversion, hence the whole load, fail. */
  lemma {:induction false} EducationalZonesNeedNameAndType(entries: seq<(string, Json)>, k: nat)
    requires k < |entries|
    requires !entries[k].1.JObj? || !HasKey(entries[k].1.entries, "name") || !HasKey(entries[k].1.entries, "type")
    ensures EducationalZones(entries).None?
  {
    if k == 0 {
      assert EducationalZone(entries[0].0, entries[0].1).None?;
    } else {
      assert entries[1..][k - 1] == entries[k];
      EducationalZonesNeedNameAndType(entries[1..], k - 1);
    }
  }

  /** What iterating the `zones` value yields, when `len()` accepts it. */
  function AsZoneList(v: Json): Option<seq<Json>> {
    match v
    case JArr(items) => Some(items)
    case JObj(entries) => Some(KeyStrings(entries))
    case JStr(s) => Some(CharStrings(s))
    case _ => None
  }

  /** The zones found, or the default zones when finding them raised. */
  function OrDefault(found: Option<seq<Json>>): seq<Json> {
    match found
    case Some(zones) => zones
    case None => DefaultZones()
  }

  /** The `educational_zones` branch; `.items()` raises AttributeError on anything but a dict. */
  function EducationalValue(v: Json): Option<seq<Json>> {
    if v.JObj? then EducationalZones(v.entries) else None
  }

  /** `_load_zone_boundaries`: every exception falls back to the default zones. */
  function LoadedZones(file: ZoneFile): seq<Json>
  {
    match file
    case Missing => DefaultZones()
    case Unreadable => DefaultZones()
    case Document(data) =>
      match data
      case JObj(entries) =>
        if HasKey(entries, "zones") then OrDefault(AsZoneList(Get(entries, "zones").value))
        else if HasKey(entries, "educational_zones") then OrDefault(EducationalValue(Get(entries, "educational_zones").value))
        else []
      case JArr(items) => items
      case _ => []
  }

  /** A missing or unreadable file gives exactly the built-in zone. */
  lemma {:induction false} NoDocumentMeansDefaultZones(file: ZoneFile)
    requires !file.Document?
    ensures LoadedZones(file) == DefaultZones() && |LoadedZones(file)| == 1
  {
  }

  /** A dict with neither key, or a document that is neither a dict nor a list, gives no zones at all. */
  lemma {:induction false} UnrecognisedDocumentMeansNoZones(data: Json)
    requires data.JObj? ==> !HasKey(data.entries, "zones") && !HasKey(data.entries, "educational_zones")
    requires !data.JArr?
    ensures LoadedZones(Document(data)) == []
  {
  }

  /** A list document, or a dict with a `zones` list, is taken as it is. */
  lemma {:induction false} ZoneListsAreTakenAsIs(data: Json)
    requires data.JArr? || (data.JObj? && HasKey(data.entries, "zones") && Get(data.entries, "zones").value.JArr?)
    ensures LoadedZones(Document(data)) == if data.JArr? then data.items else Get(data.entries, "zones").value.items
  {
  }

  /**
   * A `zones` value that is not a list is still iterated: a dict gives its keys and a
   * string its characters, each as a "zone"; a number, a boolean or null makes `len()`
   * raise, which gives the default zones.
   */
  lemma {:induction false} OtherZoneValuesAreIterated(entries: seq<(string, Json)>, v: Json)
    requires Get(entries, "zones") == Some(v)
    ensures v.JObj? ==> LoadedZones(Document(JObj(entries))) == KeyStrings(v.entries)
    ensures v.JStr? ==> LoadedZones(Document(JObj(entries))) == CharStrings(v.s)
    ensures !v.JObj? && !v.JStr? && !v.JArr? ==> LoadedZones(Document(JObj(entries))) == DefaultZones()
  {
    assert HasKey(entries, "zones");
  }

  /** A dict of educational zones yields one zone per entry, or the default zones when an entry is incomplete. */
  lemma {:induction false} EducationalDocument(entries: seq<(string, Json)>, zoneEntries: seq<(string, Json)>)
    requires !HasKey(entries, "zones") && Get(entries, "educational_zones") == Some(JObj(zoneEntries))
    ensures EducationalZones(zoneEntries).Some? ==>
              LoadedZones(Document(JObj(entries))) == EducationalZones(zoneEntries).value
              && |LoadedZones(Document(JObj(entries)))| == |zoneEntries|
    ensures EducationalZones(zoneEntries).None? ==> LoadedZones(Document(JObj(entries))) == DefaultZones()
  {
    assert LoadedZones(Document(JObj(entries))) == OrDefault(EducationalZones(zoneEntries));
    if EducationalZones(zoneEntries).Some? {
      EducationalZonesKeepKeysAndOrder(zoneEntries);
    }
  }

  /** `zones` followed by what a later conversion finds. */
  function Prefixed(zones: seq<Json>, later: Option<seq<Json>>): Option<seq<Json>> {
    match later
    case None => None
    case Some(rest) => Some(zones + rest)
  }

  lemma {:induction false} EducationalZonesStep(entries: seq<(string, Json)>, i: nat)
    requires i < |entries|
    ensures EducationalZones(entries[i..]) ==
              match EducationalZone(entries[i].0, entries[i].1)
              case None => None
              case Some(z) => Prefixed([z], EducationalZones(entries[i + 1..]))
  {
    assert entries[i..][1..] == entries[i + 1..];
  }

  lemma {:induction false} PrefixedAppend(zones: seq<Json>, z: Json, later: Option<seq<Json>>)
    ensures Prefixed(zones, Prefixed([z], later)) == Prefixed(zones + [z], later)
  {
    if later.Some? {
      assert zones + ([z] + later.value) == (zones + [z]) + later.value;
    }
  }

  lemma {:induction false} PrefixedEmpty(later: Option<seq<Json>>)
    ensures Prefixed([], later) == later
  {
    if later.Some? {
      assert [] + later.value == later.value;
    }
  }

  /** The conversion loop of the `educational_zones` branch; None when `zone_data[...]` raises. */
  method ConvertEducationalZones(entries: seq<(string, Json)>) returns (found: Option<seq<Json>>)
    ensures found == EducationalZones(entries)
  {
    var zones: seq<Json> := [];
    var i := 0;
    assert entries[i..] == entries;
    PrefixedEmpty(EducationalZones(entries));
    while i < |entries|
      invariant 0 <= i <= |entries|
      invariant EducationalZones(entries) == Prefixed(zones, EducationalZones(entries[i..]))
    {
      var zone := EducationalZone(entries[i].0, entries[i].1);
      EducationalZonesStep(entries, i);
      if zone.None? {
        return None;
      }
      PrefixedAppend(zones, zone.value, EducationalZones(entries[i + 1..]));
      zones := zones + [zone.value];
      i := i + 1;
    }
    assert entries[i..] == [];
    assert Prefixed(zones, Some([])) == Some(zones) by {
      assert zones + [] == zones;
    }
    return Some(zones);
  }

  /** The loader: every exception falls back to the default zones. */
  method LoadZoneBoundaries(file: ZoneFile) returns (zones: seq<Json>)
    ensures zones == LoadedZones(file)
  {
    if !file.Document? {
      return DefaultZones();  // no file, or `json.load` raises
    }
    var data := file.data;
    zones := [];
    if data.JObj? {
      if HasKey(data.entries, "zones") {
        zones := OrDefault(AsZoneList(Get(data.entries, "zones").value));
      } else if HasKey(data.entries, "educational_zones") {
        var educational := Get(data.entries, "educational_zones").value;
        var found: Option<seq<Json>> := None;
        if educational.JObj? {
          found := ConvertEducationalZones(educational.entries);
        }
        zones := OrDefault(found);
      }
    } else if data.JArr? {
      zones := data.items;
    }
  }

  // ---------------------------------------------------------------------------------
  // `get_zone_info` and `list_available_zones`

  /** `get_zone_info` over the zone list. */
  function ZoneInfoOf(zones: seq<Json>, zoneId: string): Result<Option<ZoneInfo>>
  {
    if zones == [] then Success(None)
    else
      match zones[0]
      case JObj(e) =>
        if Get(e, "id") != Some(JStr(zoneId)) then ZoneInfoOf(zones[1..], zoneId)
        else if !HasKey(e, "name") || !HasKey(e, "type") then Failure("KeyError")
        else
          Success(Some(ZoneInfo(JStr(zoneId), Get(e, "name").value, Get(e, "type").value,
                                GetOr(e, "department", JStr("Unknown")), GetOr(e, "contact", JStr("")),
                                GetOr(e, "email", JStr("")), GetOr(e, "address", JStr("")))))
      case _ => Failure("AttributeError")
  }

  predicate HasId(zone: Json, zoneId: string) {
    zone.JObj? && Get(zone.entries, "id") == Some(JStr(zoneId))
  }

  /** "Not found" means every zone is a dict and none carries the id. */
  lemma {:induction false} ZoneInfoAbsentMeansNoMatch(zones: seq<Json>, zoneId: string)
    requires ZoneInfoOf(zones, zoneId) == Success(None)
    ensures forall k :: 0 <= k < |zones| ==> zones[k].JObj? && !HasId(zones[k], zoneId)
  {
    if zones != [] {
      var rest := zones[1..];
      ZoneInfoAbsentMeansNoMatch(rest, zoneId);
      forall k | 0 <= k < |zones|
        ensures zones[k].JObj? && !HasId(zones[k], zoneId)
      {
        if k > 0 {
          assert zones[k] == rest[k - 1];
        }
      }
    }
  }

  /** The record `get_zone_info` builds is the zone's own fields, with the usual defaults. */
  predicate DescribesZone(info: ZoneInfo, zone: Json)
    requires zone.JObj?
  {
    var e := zone.entries;
    && Get(e, "name") == Some(info.name) && Get(e, "type") == Some(info.zoneType)
    && info.department == GetOr(e, "department", JStr("Unknown"))
    && info.contact == GetOr(e, "contact", JStr(""))
    && info.email == GetOr(e, "email", JStr(""))
    && info.address == GetOr(e, "address", JStr(""))
  }

  /** Zone k is the first to carry the id, and every zone before it is a dict. */
  predicate FirstWithId(zones: seq<Json>, zoneId: string, k: nat) {
    k < |zones| && HasId(zones[k], zoneId)
    && forall j :: 0 <= j < k ==> zones[j].JObj? && !HasId(zones[j], zoneId)
  }

  /** A found zone is the first one carrying the id, and the record is made of its fields. */
  lemma {:induction false} ZoneInfoIsFirstMatch(zones: seq<Json>, zoneId: string)
    requires ZoneInfoOf(zones, zoneId).Success? && ZoneInfoOf(zones, zoneId).value.Some?
    ensures ZoneInfoOf(zones, zoneId).value.value.id == JStr(zoneId)
    ensures exists k: nat :: FirstWithId(zones, zoneId, k) && DescribesZone(ZoneInfoOf(zones, zoneId).value.value, zones[k])
  {
    var info := ZoneInfoOf(zones, zoneId).value.value;
    if HasId(zones[0], zoneId) {
      MatchingZoneIsDescribed(zones, zoneId);
      assert FirstWithId(zones, zoneId, 0);
    } else {
      var rest := zones[1..];
      assert zones[0].JObj? && ZoneInfoOf(zones, zoneId) == ZoneInfoOf(rest, zoneId);
      ZoneInfoIsFirstMatch(rest, zoneId);
      var k: nat :| FirstWithId(rest, zoneId, k) && DescribesZone(info, rest[k]);
      assert zones[k + 1] == rest[k];
      forall j | 0 <= j < k + 1
        ensures zones[j].JObj? && !HasId(zones[j], zoneId)
      {
        if j > 0 {
          assert zones[j] == rest[j - 1];
        }
      }
      assert FirstWithId(zones, zoneId, k + 1);
    }
  }

  lemma {:induction false} MatchingZoneIsDescribed(zones: seq<Json>, zoneId: string)
    requires zones != [] && HasId(zones[0], zoneId)
    requires ZoneInfoOf(zones, zoneId).Success? && ZoneInfoOf(zones, zoneId).value.Some?
    ensures ZoneInfoOf(zones, zoneId).value.value.id == JStr(zoneId)
    ensures DescribesZone(ZoneInfoOf(zones, zoneId).value.value, zones[0])
  {
  }

  /** One entry of `list_available_zones`; KeyError or TypeError when the zone lacks a field. */
  function Summary(zone: Json): Result<ZoneSummary> {
    match zone
    case JObj(e) =>
      if HasKey(e, "id") && HasKey(e, "name") && HasKey(e, "type")
      then Success(ZoneSummary(Get(e, "id").value, Get(e, "name").value, Get(e, "type").value))
      else Failure("KeyError")
    case _ => Failure("TypeError")
  }

  predicate Listable(zone: Json) {
    zone.JObj? && HasKey(zone.entries, "id") && HasKey(zone.entries, "name") && HasKey(zone.entries, "type")
  }

  /** `list_available_zones` over the zone list. */
  function Summaries(zones: seq<Json>): (r: Result<seq<ZoneSummary>>)
    ensures r.Success? ==> |r.value| == |zones|
    ensures r.Success? ==> forall i :: 0 <= i < |zones| ==> Summary(zones[i]) == Success(r.value[i])
  {
    if zones == [] then Success([])
    else
      match Summary(zones[0])
      case Failure(e) => Failure(e)
      case Success(s) =>
        match Summaries(zones[1..])
        case Failure(e) => Failure(e)
        case Success(rest) =>
          assert forall i :: 1 <= i < |zones| ==> zones[i] == zones[1..][i - 1];
          Success([s] + rest)
  }

  /** The listing succeeds exactly when every zone is a dict with an id, a name and a type. */
  lemma {:induction false} ListingSucceedsExactlyForCompleteZones(zones: seq<Json>)
    ensures Summaries(zones).Success? <==> forall k :: 0 <= k < |zones| ==> Listable(zones[k])
  {
    if zones != [] {
      var rest := zones[1..];
      ListingSucceedsExactlyForCompleteZones(rest);
      assert forall k :: 0 <= k < |rest| ==> rest[k] == zones[k + 1];
      if Listable(zones[0]) && forall k :: 0 <= k < |rest| ==> Listable(rest[k]) {
        forall k | 0 <= k < |zones|
          ensures Listable(zones[k])
        {
          if k > 0 {
            assert zones[k] == rest[k - 1];
          }
        }
      }
    }
  }

  // ---------------------------------------------------------------------------------
  // The validator object

  class LocationValidator {
    const zones: seq<Json>

    /** `__init__`: the zones are loaded once and never change afterwards. */
    constructor (file: ZoneFile)
      ensures zones == LoadedZones(file)
    {
      var loaded := LoadZoneBoundaries(file);
      zones := loaded;
    }

    method ValidateCoordinates(latitude: real, longitude: real, distance: DistanceFn) returns (r: Result<Validation>)
      ensures r == Validate(zones, latitude, longitude, distance)
    {
      var i := 0;
      while i < |zones|
        invariant 0 <= i <= |zones|
        invariant Validate(zones[i..], latitude, longitude, distance) == Validate(zones, latitude, longitude, distance)
      {
        assert zones[i..][1..] == zones[i + 1..];
        var outcome := ZoneTest(zones[i], latitude, longitude, distance);
        if outcome.Hit? {
          return Success(outcome.v);
        } else if outcome.Abort? {
          return Failure("AttributeError");
        }
        i := i + 1;
      }
      return Success(Invalid((latitude, longitude)));
    }

    method GetZoneInfo(zoneId: string) returns (r: Result<Option<ZoneInfo>>)
      ensures r == ZoneInfoOf(zones, zoneId)
    {
      var i := 0;
      while i < |zones|
        invariant 0 <= i <= |zones|
        invariant ZoneInfoOf(zones[i..], zoneId) == ZoneInfoOf(zones, zoneId)
      {
        assert zones[i..][1..] == zones[i + 1..];
        var zone := zones[i];
        if !zone.JObj? {
          return Failure("AttributeError");  // `zone.get` on a value that is not a dict
        }
        if Get(zone.entries, "id") == Some(JStr(zoneId)) {
          if !HasKey(zone.entries, "name") || !HasKey(zone.entries, "type") {
            return Failure("KeyError");
          }
          var e := zone.entries;
          return Success(Some(ZoneInfo(JStr(zoneId), Get(e, "name").value, Get(e, "type").value,
                                       GetOr(e, "department", JStr("Unknown")), GetOr(e, "contact", JStr("")),
                                       GetOr(e, "email", JStr("")), GetOr(e, "address", JStr("")))));
        }
        i := i + 1;
      }
      return Success(None);
    }

    function ListAvailableZones(): (r: Result<seq<ZoneSummary>>)
      ensures r.Success? <==> forall k :: 0 <= k < |zones| ==> Listable(zones[k])
      ensures r.Success? ==> |r.value| == |zones|
    {
      ListingSucceedsExactlyForCompleteZones(zones);
      Summaries(zones)
    }
  }
}
