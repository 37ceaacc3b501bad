# GPS verification core in Dafny

This project models the two services at the heart of the GPS-verification backend and proves
properties about them:

- **GPS extraction** (`backend/services/gps_extractor.py`). An uploaded photo goes through a
  fixed cascade: EXIF GPS metadata first, then Tesseract OCR of a caption overlay when the
  OCR engine is available, then a region-based fallback that never finds anything. The OCR
  text is cleaned up, matched against four coordinate patterns in order, and repaired for one
  common misreading (a leading `9` that should be `3`). Only a pair inside
  [-90, 90] x [-180, 180] is accepted.
- **Zone validation** (`backend/services/location_validator.py`). The zone list is loaded
  once, from a JSON document or from a built-in default. A coordinate is valid for the first
  zone whose polygon strictly contains the point (longitude, latitude). The confidence is
  derived from the point's distance to that zone's boundary. There are also two read-only
  queries: look up a zone by id, and list all zones.

Files:

| file | contents |
|---|---|
| `wrappers.dfy` | `Option` and `Result` |
| `decimal.dfy` | `float()` of the digit strings the patterns capture |
| `coordinate_patterns.dfy` | the four regular expressions as deterministic scanners; `str.replace` and the `re.sub` clean-up |
| `gps_extractor.dfy` | DMS conversion, the EXIF stage, the text parser, the cascade, class `GpsExtractor` |
| `parser_examples.dfy` | worked inputs for the text parser |
| `json_values.dfy` | JSON values as `json.load` returns them; `dict.get`, truthiness, iteration |
| `geometry.dfy` | `Polygon(shell).contains(point)` as GEOS decides it |
| `location_validator.dfy` | zone test, scan, loader, default zone, queries, class `LocationValidator` |

Modelling choices:

- **Exceptions.** A Python exception that is caught inside an operation becomes that
  operation's "nothing found" value. An exception that escapes becomes `Failure(name)`.
- **Regular expressions.** Each pattern is a scanner that returns the leftmost match with
  Python's greedy and lazy choices, compared ASCII case-insensitively. `\s` is Python's
  Unicode whitespace set; `\d` covers only ASCII digits.
- **Containment.** A point on an edge is on the boundary and is not contained. Otherwise the
  point is contained when a ray towards +x crosses the shell an odd number of times, each edge
  counting its lower end and not its upper end. An open shell is closed. A shell with fewer
  than four coordinates after closing is refused and the zone is skipped.
- **OCR.** Engine availability is a constructor flag. The recognised text is a field of the
  image.

### Behaviour of the code worth knowing

The model follows the code as written, including where it departs from what its comments
or a reader would expect.

- **Default zone orientation.** The default zone literal lists `[longitude, latitude]`
  pairs (`[75.700, 31.245]`, commented "Southwest corner", at location_validator.py:147).
  The matcher reads every boundary entry as `[latitude, longitude]` (its comment at
  location_validator.py:48 says "Convert [lat, lon] to [lon, lat]"). As a result,
  `(31.255, 75.705)` is *invalid* against the default zone (`CampusCoordinateIsOutsideTheDefaultZone`),
  while the swapped `(75.705, 31.255)` is valid (`SwappedCampusCoordinateIsInside`).
- **Confidence direction.** The comment at location_validator.py:54 says the confidence
  is "based on distance from boundary", which suggests that points deep inside a zone are
  the surest. The formula does the opposite. It gives 1.0 on the boundary (distance 0) and
  0.5 from a depth of 0.005 on (`ConfidenceByDepth`).
- **Boundary points.** Containment is the strict interior, not "interior inclusive".
- **No range check on EXIF.** EXIF coordinates are not range-checked. A 100-degree latitude
  is returned as it is (`ExifIsNotRangeChecked`).
- **A zone that is not a dict can abort the scan.** Suppose a zone is not a dict and its
  membership test for `'boundary'` raises or succeeds. The handler's own `zone.get` then
  raises `AttributeError`, and the whole validation fails. So one malformed zone can abort
  the scan, rather than being skipped (`FailureComesFromANonObjectZone`).
- **A parseable document can give zero zones.** Only a missing or unparseable zone file falls
  back to the default zone. A JSON dict with neither `zones` nor `educational_zones`, or a
  scalar document, gives an empty zone list (`UnrecognisedDocumentMeansNoZones`).
- **A `zones` value is used as whatever it is.** `zones_data['zones']` is not checked to be a
  list (location_validator.py:107-108). A dict there yields its keys and a string its
  characters, each taken as a zone; a number, boolean or null makes `len()` at
  location_validator.py:126 raise, so the default zone is used (`OtherZoneValuesAreIterated`).

## Model

| member | source | states |
|---|---|---|
| GpsExtractor.ConvertGpsCoordinate | backend/services/gps_extractor.py:412-432 | a value is returned exactly when the data is present and its components 0, 1 and 2 exist and are all numbers; absent, scalar, short or non-numeric data gives None (the value itself is stated by `DmsToDecimal`) |
| GpsExtractor.DmsToDecimal | backend/services/gps_extractor.py:418-429 | a (d, m, s) triple converts to d + m/60 + s/3600, negated exactly for "S" and "W"; extra components are ignored |
| GpsExtractor.HemisphereOnlyFlipsSign | backend/services/gps_extractor.py:424-426 | any direction converts like "N" except that "S"/"W" negate the value |
| GpsExtractor.GpsDictKeys | backend/services/gps_extractor.py:138-141 | a GPS tag is in the collected dict exactly when some item carries it |
| GpsExtractor.GpsDictLastWins | backend/services/gps_extractor.py:138-141 | a tag holds the value of the last item carrying it |
| GpsExtractor.ExifStage | backend/services/gps_extractor.py:126-167 | no EXIF data gives None; any EXIF result has source "exif" and confidence 0.95 |
| GpsExtractor.ExifResultNeedsBothCoordinates | backend/services/gps_extractor.py:136-161 | an EXIF result comes from a GPSInfo group whose latitude and longitude both converted, to exactly the reported values, and every GPSInfo entry before it is a group that failed to convert |
| GpsExtractor.FirstConvertingGroupWins | backend/services/gps_extractor.py:136-161 | conversely, the first GPSInfo group whose latitude and longitude both convert, after only failing GPSInfo groups, gives the EXIF result with exactly those coordinates |
| GpsExtractor.MissingReferenceReadsNorth | backend/services/gps_extractor.py:145-148 | without a GPSLatitudeRef tag the latitude is converted as northern |
| GpsExtractor.MissingReferenceReadsEast | backend/services/gps_extractor.py:149-152 | without a GPSLongitudeRef tag the longitude is converted as eastern |
| GpsExtractor.ExifIsNotRangeChecked | backend/services/gps_extractor.py:154-161 | an EXIF latitude of 100 degrees is returned unchanged: the EXIF path has no range check |
| GpsExtractor.RemoveSpaces | backend/services/gps_extractor.py:313-314 | the capture with every space removed contains no space, is no longer than the capture, and is unchanged when it has none |
| GpsExtractor.ReplaceAllRemoves | backend/services/gps_extractor.py:300 | replacing every occurrence of a character by text without it leaves no occurrence |
| GpsExtractor.Clean | backend/services/gps_extractor.py:299-304 | the cleaned text contains no line feed and no carriage return |
| GpsExtractor.Interpret | backend/services/gps_extractor.py:312-334 | an accepted pair is within latitude/longitude range, needs both captures to pass `float()`, and its longitude is the float value of the second capture |
| GpsExtractor.NineToThreeRepair | backend/services/gps_extractor.py:319-325 | a latitude above 90 whose capture starts with 9 is accepted as latitude - 60 exactly when it is below 100 and the longitude is in range; otherwise the pair is rejected |
| GpsExtractor.LeadingNineReadAsThree | backend/services/gps_extractor.py:321-323 | reading the leading 9 as 3 lowers the value by 60 below 100 and leaves it above 90 from 100 on |
| GpsExtractor.NoRepairWithoutExcess | backend/services/gps_extractor.py:318-330 | without an over-range latitude starting with 9, a pair is accepted unchanged exactly when it is in range |
| GpsExtractor.FirstValid | backend/services/gps_extractor.py:307-336 | any pair the pattern loop returns is in range |
| GpsExtractor.ParseText | backend/services/gps_extractor.py:294-336 | empty text gives None; any parsed pair is in range |
| GpsExtractor.FirstValidatingPatternWins | backend/services/gps_extractor.py:307-330 | the first pattern whose match yields a valid pair decides the result, whatever the later patterns match |
| GpsExtractor.ParsedPairHasOrigin | backend/services/gps_extractor.py:307-330 | every parsed pair is the value of one of the patterns on the cleaned text |
| GpsExtractor.OcrStage | backend/services/gps_extractor.py:169-203 | an OCR result has source "ocr", confidence 0.8 and in-range coordinates |
| GpsExtractor.ExtractFromPatterns | backend/services/gps_extractor.py:205-272 | the region fallback never yields a coordinate |
| GpsExtractor.Extraction | backend/services/gps_extractor.py:51-87 | any result is either the EXIF one (0.95) or the OCR one (0.8) |
| GpsExtractor.ExifShortCircuits | backend/services/gps_extractor.py:63-67 | an EXIF hit is the result whatever the OCR flag and the OCR text |
| GpsExtractor.OcrOnlyWhenAvailable | backend/services/gps_extractor.py:69-78 | with OCR unavailable the result does not depend on the image text and equals the EXIF stage's |
| GpsExtractor.OcrSecond | backend/services/gps_extractor.py:69-75 | without EXIF coordinates and with OCR available, the result is the OCR stage's |
| GpsExtractor.NoEvidenceNoCoordinate | backend/services/gps_extractor.py:80-87 | no EXIF coordinate and no parseable text means no result: nothing is guessed |
| GpsExtractor.ResultHasEvidence | backend/services/gps_extractor.py:51-87 | a result is the EXIF stage's, or else the OCR stage's on the image's own text |
| GpsExtractor.GpsExtractor.constructor | backend/services/gps_extractor.py:27-49 | the extractor keeps the OCR availability it is given |
| GpsExtractor.GpsExtractor.ExtractGpsCoordinates | backend/services/gps_extractor.py:51-87 | the cascade method returns the cascade specification |
| GpsExtractor.GpsExtractor.ExtractFromExif | backend/services/gps_extractor.py:126-167 | the EXIF scan loop returns the first GPSInfo group with both coordinates |
| GpsExtractor.GpsExtractor.CollectGpsData | backend/services/gps_extractor.py:138-141 | the tag loop builds the last-write-wins dict |
| GpsExtractor.GpsExtractor.ExtractFromOcr | backend/services/gps_extractor.py:169-203 | the OCR method returns the OCR stage specification |
| GpsExtractor.GpsExtractor.ParseCoordinatesFromText | backend/services/gps_extractor.py:294-336 | the clean-up and the pattern loop return the parser specification |
| GpsExtractor.GpsExtractor.TryMatch | backend/services/gps_extractor.py:312-334 | the per-match body (float parse, 9-to-3 repair, range check) returns the interpretation |
| CoordinatePatterns.ReplaceAll | backend/services/gps_extractor.py:300-304 | `str.replace` produces only characters of the text or of the replacement |
| CoordinatePatterns.ReplaceAllAtOccurrence | backend/services/gps_extractor.py:304 | an occurrence of the pattern at the start of the text is replaced, and the scan resumes after it |
| CoordinatePatterns.ReplaceAllCopiesPrefix | backend/services/gps_extractor.py:304 | characters at which no occurrence starts are copied unchanged |
| CoordinatePatterns.ReplaceAbsent | backend/services/gps_extractor.py:300-304 | a pattern that cannot occur in the text leaves it unchanged |
| CoordinatePatterns.RejoinSplitDecimals | backend/services/gps_extractor.py:302 | rejoining split decimals introduces no new character |
| CoordinatePatterns.RejoinSplitDecimal | backend/services/gps_extractor.py:301-302 | a digit run, a point, whitespace and a digit run lose the whitespace and keep both digit runs, and the substitution carries on after them |
| CoordinatePatterns.RejoinWithoutSplit | backend/services/gps_extractor.py:302 | text with no dot followed by whitespace is left unchanged |
| CoordinatePatterns.SearchCapturesParse | backend/services/gps_extractor.py:30-42 | both captures of every pattern's match are numerals that `float()` accepts |
| CoordinatePatterns.LetterlessTextMatchesOnlyBarePair | backend/services/gps_extractor.py:30-42 | in text without letters only the bare decimal pair pattern can match |
| CoordinatePatterns.DigitRunEnd | backend/services/gps_extractor.py:38 | a `\d+` run ends at the first non-digit |
| Decimal.ParseUnsigned | backend/services/gps_extractor.py:316-317 | a parsed capture lies between its integer part and the next integer |
| Decimal.ParseDecimal | backend/services/gps_extractor.py:316-317 | `float()` of a capture succeeds only when it starts with a digit or a sign; a value from a leading `-` is never positive, and any other is never negative |
| Decimal.SignedLiteral | backend/services/gps_extractor.py:316-317 | a leading `-` negates the unsigned value, a leading `+` keeps it, and either fails when the rest is not a literal |
| Decimal.IntegerLiteral | backend/services/gps_extractor.py:316-317 | a digit run with no point reads as the integer it spells, signless or not |
| Decimal.UnsignedLiteral | backend/services/gps_extractor.py:316-317 | `ip.fp` reads as the value of `ip` plus the fraction spelled by `fp` |
| Decimal.DecimalLiteral | backend/services/gps_extractor.py:316-317 | `ip.fp` reads as `ip + fp / 10^len(fp)` |
| Decimal.LeadingDigitSwap | backend/services/gps_extractor.py:322 | replacing the leading digit keeps the fraction and changes only the integer part |
| ParserExamples.LabelledExample | backend/services/gps_extractor.py:32 | "Latitude 31.2509° N Longitude 75.7054° E" parses to (31.2509, 75.7054) |
| ParserExamples.BarePairExample | backend/services/gps_extractor.py:38 | "31.256577, 75.704117" parses to (31.256577, 75.704117) |
| ParserExamples.RejoinExample | backend/services/gps_extractor.py:301-302 | "75. 704117" is rejoined to "75.704117" |
| ParserExamples.LabelRepairExample | backend/services/gps_extractor.py:304-330 | "Lat: 31.2 tong: 75.7" is cleaned to "Lat: 31.2 Long: 75.7", which the second pattern parses to (31.2, 75.7) |
| ParserExamples.RepairExamples | backend/services/gps_extractor.py:319-325 | "95.2" is read as latitude 35.2; "995.2" stays out of range and the pair is rejected |
| JsonValues.Get | backend/services/location_validator.py:63-67 | `dict.get` finds a value exactly when the key is present, and the value is stored under that key |
| JsonValues.GetFindsFirst | backend/services/location_validator.py:63-67 | the value found is that of the first entry carrying the key |
| Geometry.RectangleContainsItsInterior | backend/services/location_validator.py:49-53 | an axis-parallel rectangular shell contains exactly the points strictly inside it |
| Geometry.VerticesAreNotContained | backend/services/location_validator.py:53 | a shell's vertices are on its boundary and never contained |
| Geometry.OutsideTheLatitudeBandIsNotContained | backend/services/location_validator.py:53 | a point above or below every vertex is not contained |
| LocationValidator.Confidence | backend/services/location_validator.py:55-56 | confidence always lies in [0.5, 1.0] |
| LocationValidator.ConfidenceByDepth | backend/services/location_validator.py:55-56 | confidence is 1 - 100 * distance up to 0.005, and 0.5 from there on; 1.0 on the boundary |
| LocationValidator.ConfidenceNeverRisesWithDepth | backend/services/location_validator.py:55-56 | a greater distance never gives a higher confidence |
| LocationValidator.RingOf | backend/services/location_validator.py:49 | the shell has one point per boundary entry, each entry read as [latitude, longitude]; a non-pair entry makes it fail |
| LocationValidator.ZoneTest | backend/services/location_validator.py:44-75 | a hit needs a dict zone whose boundary gives a shell strictly containing (longitude, latitude); it reports the queried (latitude, longitude), the distance to that shell, the confidence of that distance (in [0.5, 1.0]), the zone's own id, name and type, and its department, contact, email and address with the defaults "Unknown" and "" |
| LocationValidator.FirstContainingZoneWins | backend/services/location_validator.py:44-71 | the first zone that contains the point, after skipped zones only, is the reported one |
| LocationValidator.ValidResultIsInsideItsZone | backend/services/location_validator.py:44-71 | a valid result names a zone whose shell strictly contains (longitude, latitude), with every earlier zone skipped |
| LocationValidator.InvalidExactlyWhenNoZoneMatches | backend/services/location_validator.py:44-88 | the result is the invalid record exactly when every zone is skipped |
| LocationValidator.FailureComesFromANonObjectZone | backend/services/location_validator.py:73-75 | an escaping exception needs a zone that is not a dict |
| LocationValidator.ZonesWithoutUsableBoundaryAreSkipped | backend/services/location_validator.py:47-50 | a zone without a truthy boundary, with a non-pair entry, or with too short a shell is skipped |
| LocationValidator.InvalidRecordFields | backend/services/location_validator.py:79-88 | the invalid record has status "invalid", null zone id, "Unknown Location", "unknown", "Unknown", confidence 0.0 and the fixed reason |
| LocationValidator.DefaultShell | backend/services/location_validator.py:133-154 | the default boundary becomes the rectangle of longitudes 31.245-31.265 and latitudes 75.700-75.710 |
| LocationValidator.DefaultZoneMatches | backend/services/location_validator.py:133-154 | the default zone matches exactly the points strictly inside that rectangle, and never aborts |
| LocationValidator.DefaultValidation | backend/services/location_validator.py:27-88 | with the default zones a coordinate is valid for "lpu_main_campus" exactly inside the rectangle, invalid elsewhere |
| LocationValidator.CampusCoordinateIsOutsideTheDefaultZone | backend/services/location_validator.py:137-152 | (31.255, 75.705) is invalid against the default zones |
| LocationValidator.SwappedCampusCoordinateIsInside | backend/services/location_validator.py:137-152 | (75.705, 31.255) is valid for "lpu_main_campus" |
| LocationValidator.OriginIsOutsideTheDefaultZone | backend/services/location_validator.py:137-152 | (0, 0) is invalid against the default zones |
| LocationValidator.EducationalZone | backend/services/location_validator.py:111-121 | an entry converts exactly when it is a dict with a name and a type; the zone gets id "educational_zones_<key>", the entry's name and type, and its department, contact, email, address and boundary with the defaults "Unknown", "", "", "" and [] |
| LocationValidator.EducationalZonesKeepKeysAndOrder | backend/services/location_validator.py:111-122 | the conversion yields one zone per entry, in order |
| LocationValidator.EducationalZonesNeedNameAndType | backend/services/location_validator.py:113-114 | one entry without a name or a type makes the whole conversion fail |
| LocationValidator.NoDocumentMeansDefaultZones | backend/services/location_validator.py:96-98 | a missing or unparseable file gives exactly the one default zone |
| LocationValidator.UnrecognisedDocumentMeansNoZones | backend/services/location_validator.py:103-127 | a dict with neither key, or a scalar document, gives no zones |
| LocationValidator.ZoneListsAreTakenAsIs | backend/services/location_validator.py:107-108 | a list document, or a dict's `zones` list, is the zone list as it stands |
| LocationValidator.OtherZoneValuesAreIterated | backend/services/location_validator.py:107-108 | a `zones` dict yields its keys and a `zones` string its characters as zones; a number, boolean or null falls back to the default zones |
| LocationValidator.EducationalDocument | backend/services/location_validator.py:109-131 | educational zones give one zone per entry, or the default zones when an entry is incomplete |
| LocationValidator.ConvertEducationalZones | backend/services/location_validator.py:111-122 | the conversion loop returns the conversion specification |
| LocationValidator.LoadZoneBoundaries | backend/services/location_validator.py:90-131 | the loader returns the loading specification |
| LocationValidator.ZoneInfoIsFirstMatch | backend/services/location_validator.py:156-167 | a found zone is the first zone with the id, every zone before it is a dict without it, and the record carries the zone's name and type and its department, contact, email and address with the defaults "Unknown" and "" |
| LocationValidator.ZoneInfoAbsentMeansNoMatch | backend/services/location_validator.py:156-169 | "not found" means every zone is a dict and none has the id |
| LocationValidator.Summaries | backend/services/location_validator.py:171-180 | a listing has one entry per zone, in order, each the zone's id, name and type |
| LocationValidator.ListingSucceedsExactlyForCompleteZones | backend/services/location_validator.py:171-180 | listing succeeds exactly when every zone is a dict with id, name and type |
| LocationValidator.LocationValidator.constructor | backend/services/location_validator.py:22-25 | the validator holds the loaded zone list |
| LocationValidator.LocationValidator.ValidateCoordinates | backend/services/location_validator.py:27-88 | the zone loop returns the scan specification |
| LocationValidator.LocationValidator.GetZoneInfo | backend/services/location_validator.py:156-169 | the lookup loop returns the lookup specification |
| LocationValidator.LocationValidator.ListAvailableZones | backend/services/location_validator.py:171-180 | listing succeeds exactly when every zone is complete, with one entry per zone |

## Left out

- Image decoding, PIL's EXIF reader, OpenCV preprocessing and Tesseract itself. The EXIF
  directory is an abstract list of tagged values and the recognised text is an input.
- `_setup_ocr`'s search for the Tesseract executable. Its outcome is the constructor's
  `ocrAvailable` flag.
- The deprecated `_is_whatsapp_gps_image` and `_is_lpu_campus_image` detectors. Nothing
  calls them.
- Logging, the HTTP routes (`gps_api.py`, `main.py`) and the front end.
- Floating point. Coordinates are exact reals, and `float()` of a capture is its exact
  decimal value.
- LocationValidator.ZoneTest: the confidence and the distance are not rounded to 2 and 6
  decimals (`round`), because rounding has no exact real counterpart worth stating.
- LocationValidator.ZoneTest: the distance to the boundary is a parameter (`DistanceFn`)
  rather than computed, since it needs square roots. It is only known to be non-negative. The
  model states how it is used: it is reported, and it sets the confidence.
- LocationValidator.BoundaryRing: Shapely's coercion of non-numeric coordinates (numeric
  strings, booleans) is not modelled. Such a boundary entry makes the zone skipped.
- Geometry.Contains: GEOS results on self-intersecting or otherwise invalid shells are not
  characterised. The even-odd rule is applied to them as to any shell.
- JsonValues.Get: `dict.get` finds the first entry with the key. `json.load` keeps the last
  of duplicated keys, so documents with duplicate keys are not modelled.
- The regular expressions use ASCII case folding and ASCII `\d`. Python's `re` also folds and
  matches some non-ASCII characters (for example Unicode digits), which is not modelled.
- `EXIF` values other than rationals, ASCII text and plain numbers (for example byte strings)
  are reduced to "not a number".
