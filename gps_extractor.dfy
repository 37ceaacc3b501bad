/**
 * The coordinate extraction cascade of backend/services/gps_extractor.py.
 *
 * An image is seen through what the cascade reads from it: the EXIF tag list (already
 * decoded by PIL, None when the image cannot be opened or has no EXIF) and the text
 * Tesseract recognises in it (None when decoding or recognition fails). Whether Tesseract
 * is usable is the boolean `_setup_ocr` computes, given to the constructor.
 */
module GpsExtractor {
  import opened Wrappers
  import opened Decimal
  import opened CoordinatePatterns

  // ---------------------------------------------------------------------------------
  // Data

  /** One element of an EXIF GPS value, after `float()`: a number, or something `float()` rejects. */
  datatype Component = Num(value: real) | NotNumber

  /**
   * The value of one GPS tag: a tuple such as the (degrees, minutes, seconds) rationals, a
   * string such as the hemisphere reference "N", or a single number.
   */
  datatype GpsValue = Tuple(parts: seq<Component>) | Text(s: string) | Scalar(r: real)

  /** The value of an EXIF tag: the GPS sub-dictionary for "GPSInfo", or anything else. */
  datatype ExifValue = GpsGroup(items: seq<(string, GpsValue)>) | OtherValue

  /** One EXIF entry, its tag id already resolved to a name through `TAGS`. */
  datatype ExifEntry = ExifEntry(tag: string, value: ExifValue)

  datatype Image = Image(exif: Option<seq<ExifEntry>>, ocrText: Option<string>)

  datatype ExtractionResult = ExtractionResult(
    latitude: real, longitude: real, source: string, confidence: real, note: string)

  const ExifNote := "Extracted from image EXIF metadata"
  const OcrNote := "Extracted using Tesseract OCR"

  predicate InRange(lat: real, lon: real) {
    -90.0 <= lat <= 90.0 && -180.0 <= lon <= 180.0
  }

  // ---------------------------------------------------------------------------------
  // `_convert_gps_coordinate`

  /** `float(c)` of one character of a string value. */
  function CharComponent(c: char): Component {
    if IsDigit(c) then Num(DigitValue(c) as real) else NotNumber
  }

  /** What `coord_data[0..2]` indexes: None when `coord_data` is falsy or not subscriptable. */
  function Components(v: GpsValue): Option<seq<Component>> {
    match v
    case Tuple(parts) => Some(parts)
    case Text(s) => Some(seq(|s|, k requires 0 <= k < |s| => CharComponent(s[k])))
    case Scalar(_) => None
  }

  predicate IsSouthOrWest(direction: GpsValue) {
    direction == Text("S") || direction == Text("W")
  }

  /** `coord_data[0]`, `[1]` and `[2]` all exist and `float()` accepts each of them. */
  predicate IsDmsTriple(c: seq<Component>) {
    |c| >= 3 && c[0].Num? && c[1].Num? && c[2].Num?
  }

  /**
   * Degrees, minutes and seconds to decimal degrees, negated for "S" and "W". None for
   * missing or empty data and for fewer than three numeric components (the
   * IndexError/ValueError/TypeError the source catches).
   */
  function ConvertGpsCoordinate(coordData: Option<GpsValue>, direction: GpsValue): (r: Option<real>)
    ensures r.Some? <==> coordData.Some? && Components(coordData.value).Some?
                         && IsDmsTriple(Components(coordData.value).value)
  {
    match coordData
    case None => None
    case Some(v) =>
      match Components(v)
      case None => None
      case Some(c) =>
        if !IsDmsTriple(c) then None
        else
          var decimal := c[0].value + c[1].value / 60.0 + c[2].value / 3600.0;
          Some(if IsSouthOrWest(direction) then -decimal else decimal)
  }

  /** The conversion on a well-formed triple (extra components are ignored). */
  lemma {:induction false} DmsToDecimal(d: real, m: real, s: real, extra: seq<Component>, direction: string)
    ensures ConvertGpsCoordinate(Some(Tuple([Num(d), Num(m), Num(s)] + extra)), Text(direction))
            == Some(if direction == "S" || direction == "W" then -(d + m / 60.0 + s / 3600.0)
                    else d + m / 60.0 + s / 3600.0)
  {
    assert ([Num(d), Num(m), Num(s)] + extra)[0] == Num(d);
  }

  /** The hemisphere only flips the sign: every direction other than "S"/"W" reads like "N". */
  lemma {:induction false} HemisphereOnlyFlipsSign(coordData: Option<GpsValue>, direction: GpsValue)
    ensures ConvertGpsCoordinate(coordData, direction)
            == match ConvertGpsCoordinate(coordData, Text("N"))
               case None => None
               case Some(x) => Some(if IsSouthOrWest(direction) then -x else x)
  {
  }

  // ---------------------------------------------------------------------------------
  // `_extract_from_exif`

  /** The `gps_data` dict built by assigning each item in order: a later key overwrites. */
  function GpsDict(items: seq<(string, GpsValue)>): map<string, GpsValue>
  {
    if items == [] then map[]
    else GpsDict(items[..|items| - 1])[items[|items| - 1].0 := items[|items| - 1].1]
  }

  /** A key is in `gps_data` exactly when some item has it. */
  lemma {:induction false} GpsDictKeys(items: seq<(string, GpsValue)>, key: string)
    ensures key in GpsDict(items) <==> exists i :: 0 <= i < |items| && items[i].0 == key
  {
    if items != [] {
      var init := items[..|items| - 1];
      GpsDictKeys(init, key);
      if key in GpsDict(items) {
        if items[|items| - 1].0 != key {
          var i :| 0 <= i < |init| && init[i].0 == key;
          assert items[i] == init[i];
        }
      } else {
        forall i | 0 <= i < |items|
          ensures items[i].0 != key
        {
          if i < |init| {
            assert items[i] == init[i];
          }
        }
      }
    }
  }

  /** The value stored under a key is that of the last item with the key. */
  lemma {:induction false} GpsDictLastWins(items: seq<(string, GpsValue)>, key: string, i: nat)
    requires i < |items| && items[i].0 == key
    requires forall j :: i < j < |items| ==> items[j].0 != key
    ensures key in GpsDict(items) && GpsDict(items)[key] == items[i].1
  {
    var init := items[..|items| - 1];
    if i < |items| - 1 {
      assert init[i] == items[i];
      forall j | i < j < |init|
        ensures init[j].0 != key
      {
        assert init[j] == items[j];
      }
      GpsDictLastWins(init, key, i);
    }
  }

  function Lookup(gps: map<string, GpsValue>, key: string): Option<GpsValue> {
    if key in gps then Some(gps[key]) else None
  }

  function LookupOr(gps: map<string, GpsValue>, key: string, default: GpsValue): GpsValue {
    if key in gps then gps[key] else default
  }

  /** Latitude from `gps_data`, the reference defaulting to "N". */
  function ExifLatitude(gps: map<string, GpsValue>): Option<real> {
    ConvertGpsCoordinate(Lookup(gps, "GPSLatitude"), LookupOr(gps, "GPSLatitudeRef", Text("N")))
  }

  /** Longitude from `gps_data`, the reference defaulting to "E". */
  function ExifLongitude(gps: map<string, GpsValue>): Option<real> {
    ConvertGpsCoordinate(Lookup(gps, "GPSLongitude"), LookupOr(gps, "GPSLongitudeRef", Text("E")))
  }

  /** The result for one GPSInfo group: present only when both coordinates convert. */
  function ExifGpsResult(gps: map<string, GpsValue>): Option<ExtractionResult> {
    var lat := ExifLatitude(gps);
    var lon := ExifLongitude(gps);
    if lat.Some? && lon.Some? then Some(ExtractionResult(lat.value, lon.value, "exif", 0.95, ExifNote))
    else None
  }

  /** The loop over the EXIF entries: the first GPSInfo group whose coordinates both convert. */
  function ScanExif(entries: seq<ExifEntry>): Option<ExtractionResult>
  {
    if entries == [] then None
    else if entries[0].tag != "GPSInfo" then ScanExif(entries[1..])
    else
      match entries[0].value
      case OtherValue => None  // `value.items()` raises; the handler returns None
      case GpsGroup(items) =>
        match ExifGpsResult(GpsDict(items))
        case Some(r) => Some(r)
        case None => ScanExif(entries[1..])
  }

  /** The EXIF stage: None without EXIF data, otherwise the scan of its entries. */
  function ExifStage(exif: Option<seq<ExifEntry>>): (r: Option<ExtractionResult>)
    ensures exif.None? ==> r.None?
    ensures r.Some? ==> r.value.source == "exif" && r.value.confidence == 0.95
  {
    ExifScanSource(if exif.Some? then exif.value else []);
    if exif.None? then None else ScanExif(exif.value)
  }

  lemma {:induction false} ExifScanSource(entries: seq<ExifEntry>)
    ensures ScanExif(entries).Some? ==> ScanExif(entries).value.source == "exif"
                                        && ScanExif(entries).value.confidence == 0.95
  {
    if entries != [] {
      ExifScanSource(entries[1..]);
    }
  }

  /** Every GPSInfo entry before index k is a GPS group in which a coordinate fails to convert. */
  predicate EarlierGroupsFail(entries: seq<ExifEntry>, k: nat)
    requires k <= |entries|
  {
    forall j :: 0 <= j < k && entries[j].tag == "GPSInfo" ==>
      entries[j].value.GpsGroup? && ExifGpsResult(GpsDict(entries[j].value.items)).None?
  }

  /**
   * A result of the EXIF scan comes from a GPSInfo group, in which both the latitude and
   * the longitude converted, and every GPSInfo group before it failed to convert.
   */
  lemma {:induction false} ExifResultNeedsBothCoordinates(entries: seq<ExifEntry>)
    requires ScanExif(entries).Some?
    ensures exists k :: 0 <= k < |entries| && entries[k].tag == "GPSInfo" && entries[k].value.GpsGroup?
                        && ExifLatitude(GpsDict(entries[k].value.items)) == Some(ScanExif(entries).value.latitude)
                        && ExifLongitude(GpsDict(entries[k].value.items)) == Some(ScanExif(entries).value.longitude)
                        && EarlierGroupsFail(entries, k)
  {
    var r := ScanExif(entries).value;
    if entries[0].tag == "GPSInfo" && ExifGpsResult(GpsDict(entries[0].value.items)).Some? {
      assert EarlierGroupsFail(entries, 0);
    } else {
      var rest := entries[1..];
      ExifResultNeedsBothCoordinates(rest);
      var k :| 0 <= k < |rest| && rest[k].tag == "GPSInfo" && rest[k].value.GpsGroup?
               && ExifLatitude(GpsDict(rest[k].value.items)) == Some(r.latitude)
               && ExifLongitude(GpsDict(rest[k].value.items)) == Some(r.longitude)
               && EarlierGroupsFail(rest, k);
      assert entries[k + 1] == rest[k];
      forall j | 0 <= j < k + 1 && entries[j].tag == "GPSInfo"
        ensures entries[j].value.GpsGroup? && ExifGpsResult(GpsDict(entries[j].value.items)).None?
      {
        if j > 0 {
          assert entries[j] == rest[j - 1];
        }
      }
    }
  }

  /**
   * Conversely, the first GPSInfo group in which both coordinates convert gives the EXIF
   * result, with its latitude and longitude, when every GPSInfo entry before it is a group
   * that fails to convert.
   */
  lemma {:induction false} FirstConvertingGroupWins(entries: seq<ExifEntry>, k: nat)
    requires k < |entries| && entries[k].tag == "GPSInfo" && entries[k].value.GpsGroup?
    requires ExifLatitude(GpsDict(entries[k].value.items)).Some?
    requires ExifLongitude(GpsDict(entries[k].value.items)).Some?
    requires EarlierGroupsFail(entries, k)
    ensures ExifStage(Some(entries))
            == Some(ExtractionResult(ExifLatitude(GpsDict(entries[k].value.items)).value,
                                     ExifLongitude(GpsDict(entries[k].value.items)).value,
                                     "exif", 0.95, ExifNote))
  {
    ScanFromFirstConvertingGroup(entries, k);
  }

  lemma {:induction false} ScanFromFirstConvertingGroup(entries: seq<ExifEntry>, k: nat)
    requires k < |entries| && entries[k].tag == "GPSInfo" && entries[k].value.GpsGroup?
    requires ExifGpsResult(GpsDict(entries[k].value.items)).Some?
    requires EarlierGroupsFail(entries, k)
    ensures ScanExif(entries) == ExifGpsResult(GpsDict(entries[k].value.items))
  {
    if k > 0 {
      var rest := entries[1..];
      assert rest[k - 1] == entries[k];
      forall j | 0 <= j < k - 1 && rest[j].tag == "GPSInfo"
        ensures rest[j].value.GpsGroup? && ExifGpsResult(GpsDict(rest[j].value.items)).None?
      {
        assert rest[j] == entries[j + 1];
      }
      ScanFromFirstConvertingGroup(rest, k - 1);
    }
  }

  /** With no "GPSLatitudeRef" item, the latitude is read as northern. */
  lemma {:induction false} MissingReferenceReadsNorth(items: seq<(string, GpsValue)>)
    requires forall i :: 0 <= i < |items| ==> items[i].0 != "GPSLatitudeRef"
    ensures ExifLatitude(GpsDict(items)) == ConvertGpsCoordinate(Lookup(GpsDict(items), "GPSLatitude"), Text("N"))
  {
    GpsDictKeys(items, "GPSLatitudeRef");
  }

  /** With no "GPSLongitudeRef" item, the longitude is read as eastern. */
  lemma {:induction false} MissingReferenceReadsEast(items: seq<(string, GpsValue)>)
    requires forall i :: 0 <= i < |items| ==> items[i].0 != "GPSLongitudeRef"
    ensures ExifLongitude(GpsDict(items)) == ConvertGpsCoordinate(Lookup(GpsDict(items), "GPSLongitude"), Text("E"))
  {
    GpsDictKeys(items, "GPSLongitudeRef");
  }

  /** The EXIF path does no range check: a 100-degree latitude is returned as it is. */
  lemma {:induction false} ExifIsNotRangeChecked()
    ensures ExifStage(Some([ExifEntry("GPSInfo", GpsGroup([("GPSLatitude", Tuple([Num(100.0), Num(0.0), Num(0.0)])),
                                                           ("GPSLongitude", Tuple([Num(75.0), Num(0.0), Num(0.0)]))]))]))
            == Some(ExtractionResult(100.0, 75.0, "exif", 0.95, ExifNote))
  {
    var items := [("GPSLatitude", Tuple([Num(100.0), Num(0.0), Num(0.0)])),
                  ("GPSLongitude", Tuple([Num(75.0), Num(0.0), Num(0.0)]))];
    var gps := GpsDict(items);
    assert items[..1][..0] == [];
    assert GpsDict(items[..1]) == map["GPSLatitude" := items[0].1];
    assert items[..|items| - 1] == items[..1];
    assert gps == map["GPSLatitude" := items[0].1, "GPSLongitude" := items[1].1];
    assert ExifLatitude(gps) == Some(100.0);
    assert ExifLongitude(gps) == Some(75.0);
  }

  // ---------------------------------------------------------------------------------
  // `_parse_coordinates_from_text`

  /** `s.replace(' ', '')`. */
  function RemoveSpaces(s: string): (r: string)
    ensures ' ' !in r && |r| <= |s|
    ensures ' ' !in s ==> r == s
  {
    if s == [] then [] else (if s[0] == ' ' then [] else [s[0]]) + RemoveSpaces(s[1..])
  }

  /** Replacing a one-character string by a string without that character removes it. */
  lemma {:induction false} ReplaceAllRemoves(s: string, c: char, rep: string)
    requires c !in rep
    ensures c !in ReplaceAll(s, [c], rep)
    decreases |s|
  {
    if |s| >= 1 {
      ReplaceAllRemoves(s[1..], c, rep);
    }
  }

  /** The clean-up: newlines to spaces, split decimals rejoined, label misreads fixed. */
  function Clean(text: string): (r: string)
    ensures '\n' !in r && '\r' !in r
  {
    var t1 := ReplaceAll(text, "\n", " ");
    ReplaceAllRemoves(text, '\n', " ");
    var t2 := ReplaceAll(t1, "\r", " ");
    ReplaceAllRemoves(t1, '\r', " ");
    assert '\n' !in t2;
    var t3 := RejoinSplitDecimals(t2);
    var t4 := ReplaceAll(t3, "ers:", "GPS:");
    var t5 := ReplaceAll(t4, "ars:", "GPS:");
    ReplaceAll(t5, "tong:", "Long:")
  }

  /**
   * One match, as the `try` block handles it: both groups through `float()`, the leading
   * 9-to-3 repair of a latitude above 90, then the range check. None stands for a
   * ValueError or a failed range check; either way the next pattern is tried.
   */
  function Interpret(g: (string, string)): (r: Option<(real, real)>)
    ensures r.Some? ==> InRange(r.value.0, r.value.1)
    ensures r.Some? ==> ParseDecimal(RemoveSpaces(g.0)).Some?
    ensures r.Some? ==> ParseDecimal(RemoveSpaces(g.1)) == Some(r.value.1)
  {
    var latStr := RemoveSpaces(g.0);
    var lonStr := RemoveSpaces(g.1);
    match ParseDecimal(latStr)
    case None => None
    case Some(lat) =>
      match ParseDecimal(lonStr)
      case None => None
      case Some(lon) =>
        if lat > 90.0 && |latStr| > 0 && latStr[0] == '9' then
          match ParseDecimal("3" + latStr[1..])
          case None => None
          case Some(corrected) =>
            var lat' := if -90.0 <= corrected <= 90.0 then corrected else lat;
            if InRange(lat', lon) then Some((lat', lon)) else None
        else if InRange(lat, lon) then Some((lat, lon))
        else None
  }

  /** What pattern `p` contributes on the cleaned text: its first match, interpreted. */
  function PatternValue(p: Pattern, text: string): Option<(real, real)> {
    match Search(p, text)
    case None => None
    case Some(g) => Interpret(g)
  }

  /** The loop over the patterns: the first one, in list order, whose match validates. */
  function FirstValid(patterns: seq<Pattern>, text: string): (r: Option<(real, real)>)
    ensures r.Some? ==> InRange(r.value.0, r.value.1)
  {
    if patterns == [] then None
    else
      match PatternValue(patterns[0], text)
      case Some(c) => Some(c)
      case None => FirstValid(patterns[1..], text)
  }

  /** `_parse_coordinates_from_text` with the given pattern list. */
  function ParseText(patterns: seq<Pattern>, text: string): (r: Option<(real, real)>)
    ensures text == "" ==> r.None?
    ensures r.Some? ==> InRange(r.value.0, r.value.1)
  {
    if text == "" then None else FirstValid(patterns, Clean(text))
  }

  /** The pattern at index k decides the parse when every earlier pattern yields nothing. */
  lemma {:induction false} FirstValidatingPatternWins(patterns: seq<Pattern>, text: string, k: nat)
    requires k < |patterns| && PatternValue(patterns[k], text).Some?
    requires forall j :: 0 <= j < k ==> PatternValue(patterns[j], text).None?
    ensures FirstValid(patterns, text) == PatternValue(patterns[k], text)
  {
    if k > 0 {
      var rest := patterns[1..];
      assert rest[k - 1] == patterns[k];
      forall j | 0 <= j < k - 1
        ensures PatternValue(rest[j], text).None?
      {
        assert rest[j] == patterns[j + 1];
      }
      FirstValidatingPatternWins(rest, text, k - 1);
      assert PatternValue(patterns[0], text).None?;
    }
  }

  /** Conversely, a parsed pair comes from some pattern, and every earlier pattern yielded nothing. */
  lemma {:induction false} ParsedPairHasOrigin(patterns: seq<Pattern>, text: string)
    requires FirstValid(patterns, text).Some?
    ensures exists k :: 0 <= k < |patterns| && PatternValue(patterns[k], text) == FirstValid(patterns, text)
                        && forall j :: 0 <= j < k ==> PatternValue(patterns[j], text).None?
  {
    if PatternValue(patterns[0], text).None? {
      ParsedPairHasOrigin(patterns[1..], text);
      var k :| 0 <= k < |patterns[1..]| && PatternValue(patterns[1..][k], text) == FirstValid(patterns[1..], text)
               && forall j :: 0 <= j < k ==> PatternValue(patterns[1..][j], text).None?;
      assert forall j :: 0 <= j < k ==> patterns[1..][j] == patterns[j + 1];
      assert PatternValue(patterns[k + 1], text) == FirstValid(patterns, text);
    } else {
      assert PatternValue(patterns[0], text) == FirstValid(patterns, text);
    }
  }

  /**
   * The 9-to-3 repair: a latitude literal that starts with '9' and reads above 90 is kept
   * exactly when it is below 100, and then becomes 60 less (its leading 9 read as 3); with
   * three or more integer digits the repaired value is still out of range and the pair fails.
   */
  lemma {:induction false} NineToThreeRepair(g: (string, string), lat: real, lon: real)
    requires ParseDecimal(RemoveSpaces(g.0)) == Some(lat) && ParseDecimal(RemoveSpaces(g.1)) == Some(lon)
    requires RemoveSpaces(g.0) != [] && RemoveSpaces(g.0)[0] == '9' && lat > 90.0
    ensures Interpret(g) == if lat < 100.0 && -180.0 <= lon <= 180.0 then Some((lat - 60.0, lon)) else None
  {
    var s := RemoveSpaces(g.0);
    LeadingNineReadAsThree(s, lat);
  }

  /** Reading the leading 9 of an unsigned literal above 90 as 3 subtracts 60 below 100, and stays above 90 otherwise. */
  lemma {:induction false} LeadingNineReadAsThree(s: string, lat: real)
    requires s != [] && s[0] == '9' && ParseDecimal(s) == Some(lat) && lat > 90.0
    ensures ParseDecimal("3" + s[1..]).Some?
    ensures lat < 100.0 ==> ParseDecimal("3" + s[1..]).value == lat - 60.0
    ensures lat >= 100.0 ==> ParseDecimal("3" + s[1..]).value > 90.0
  {
    assert ParseUnsigned(s) == Some(lat);
    var k := DigitPrefix(s);
    var p := Pow10(k - 1);
    var s' := "3" + s[1..];
    assert s' == ['3'] + s[1..];
    LeadingDigitSwap(s, '3');
    IntegerValueSwap(s, '3');
    assert ParseDecimal(s') == ParseUnsigned(s');
    var corrected := ParseUnsigned(s').value;
    assert corrected == lat - (6 * p) as real;
    // The integer part starts with 9: it lies in [9p, 10p).
    IntegerPartOfLeadingNine(s);
    if k == 1 {
      assert false;
    } else if k == 2 {
      assert p == 10;
    } else {
      Pow10Grows(k - 1);
    }
  }

  lemma {:induction false} IntegerPartOfLeadingNine(s: string)
    requires s != [] && s[0] == '9'
    ensures DigitPrefix(s) > 0
    ensures 9 * Pow10(DigitPrefix(s) - 1) <= IntegerValue(s) < 10 * Pow10(DigitPrefix(s) - 1)
  {
    var k := DigitPrefix(s);
    assert s[..k] == [s[0]] + s[..k][1..];
    DigitsValuePrepend(s[0], s[..k][1..]);
  }

  lemma {:induction false} Pow10Grows(n: nat)
    requires n >= 2
    ensures Pow10(n) >= 100
  {
    if n > 2 {
      Pow10Grows(n - 1);
    }
  }

  /** No repair below 91: the latitude is taken as parsed and only range-checked. */
  lemma {:induction false} NoRepairWithoutExcess(g: (string, string), lat: real, lon: real)
    requires ParseDecimal(RemoveSpaces(g.0)) == Some(lat) && ParseDecimal(RemoveSpaces(g.1)) == Some(lon)
    requires lat <= 90.0 || RemoveSpaces(g.0) == [] || RemoveSpaces(g.0)[0] != '9'
    ensures Interpret(g) == if InRange(lat, lon) then Some((lat, lon)) else None
  {
  }

  // ---------------------------------------------------------------------------------
  // `_extract_from_ocr`, `_extract_from_patterns`, `extract_gps_coordinates`

  /** The OCR stage on the recognised text: the parsed pair, tagged "ocr" with confidence 0.8. */
  function OcrStage(ocrText: Option<string>): (r: Option<ExtractionResult>)
    ensures r.Some? ==> r.value.source == "ocr" && r.value.confidence == 0.8
    ensures r.Some? ==> InRange(r.value.latitude, r.value.longitude)
  {
    match ocrText
    case None => None
    case Some(text) =>
      match ParseText(PatternList, text)
      case None => None
      case Some(c) => Some(ExtractionResult(c.0, c.1, "ocr", 0.8, OcrNote))
  }

  datatype Region = Top | Bottom

  /** `_extract_coords_from_region`: a placeholder that never detects anything. */
  function ExtractCoordsFromRegion(image: Image, region: Region): Option<ExtractionResult> {
    None
  }

  /** `_extract_from_patterns`: the top band, then the bottom band; it never yields a coordinate. */
  function ExtractFromPatterns(image: Image): (r: Option<ExtractionResult>)
    ensures r.None?
  {
    match ExtractCoordsFromRegion(image, Top)
    case Some(c) => Some(c)
    case None => ExtractCoordsFromRegion(image, Bottom)
  }

  /**
   * `extract_gps_coordinates`: EXIF, then OCR when it is available, then the region
   * patterns; the first result is returned.
   */
  function Extraction(ocrAvailable: bool, image: Image): (r: Option<ExtractionResult>)
    ensures r.Some? ==> (r.value.source == "exif" && r.value.confidence == 0.95)
                        || (r.value.source == "ocr" && r.value.confidence == 0.8)
  {
    match ExifStage(image.exif)
    case Some(e) => Some(e)
    case None =>
      match (if ocrAvailable then OcrStage(image.ocrText) else None)
      case Some(o) => Some(o)
      case None => ExtractFromPatterns(image)
  }

  /** An EXIF result is returned as it is, whatever OCR is available or would read. */
  lemma {:induction false} ExifShortCircuits(ocrAvailable: bool, image: Image, ocrText: Option<string>)
    requires ExifStage(image.exif).Some?
    ensures Extraction(ocrAvailable, image) == ExifStage(image.exif)
    ensures Extraction(ocrAvailable, image) == Extraction(false, Image(image.exif, ocrText))
  {
  }

  /** Without OCR the recognised text is never consulted: only EXIF can give a result. */
  lemma {:induction false} OcrOnlyWhenAvailable(image: Image, ocrText: Option<string>)
    ensures Extraction(false, image) == Extraction(false, Image(image.exif, ocrText))
    ensures Extraction(false, image) == ExifStage(image.exif)
  {
  }

  /** With OCR available and no EXIF result, the outcome is exactly the OCR stage's. */
  lemma {:induction false} OcrSecond(image: Image)
    requires ExifStage(image.exif).None?
    ensures Extraction(true, image) == OcrStage(image.ocrText)
  {
  }

  /** No GPS EXIF and no parsable text: no coordinate is made up. */
  lemma {:induction false} NoEvidenceNoCoordinate(ocrAvailable: bool, image: Image)
    requires ExifStage(image.exif).None?
    requires image.ocrText.None? || ParseText(PatternList, image.ocrText.value).None?
    ensures Extraction(ocrAvailable, image).None?
  {
  }

  /** Every result comes from EXIF or from range-checked OCR text. */
  lemma {:induction false} ResultHasEvidence(ocrAvailable: bool, image: Image)
    requires Extraction(ocrAvailable, image).Some?
    ensures Extraction(ocrAvailable, image) == ExifStage(image.exif)
            || (ocrAvailable && Extraction(ocrAvailable, image) == OcrStage(image.ocrText)
                && InRange(Extraction(ocrAvailable, image).value.latitude,
                           Extraction(ocrAvailable, image).value.longitude))
  {
  }

  // ---------------------------------------------------------------------------------
  // The extractor object

  class GpsExtractor {
    const coordinatePatterns: seq<Pattern> := PatternList
    const ocrAvailable: bool

    /** `__init__`, with the outcome of `_setup_ocr` given. */
    constructor (ocrAvailable: bool)
      ensures this.ocrAvailable == ocrAvailable
    {
      this.ocrAvailable := ocrAvailable;
    }

    method ExtractGpsCoordinates(image: Image) returns (r: Option<ExtractionResult>)
      ensures r == Extraction(ocrAvailable, image)
    {
      var exifResult := ExtractFromExif(image.exif);
      if exifResult.Some? {
        return exifResult;
      }
      if ocrAvailable {
        var ocrResult := ExtractFromOcr(image.ocrText);
        if ocrResult.Some? {
          return ocrResult;
        }
      }
      var patternResult := ExtractFromPatterns(image);
      if patternResult.Some? {
        return patternResult;
      }
      return None;
    }

    method ExtractFromExif(exif: Option<seq<ExifEntry>>) returns (r: Option<ExtractionResult>)
      ensures r == ExifStage(exif)
    {
      if exif.None? || exif.value == [] {
        return None;
      }
      var entries := exif.value;
      var i := 0;
      while i < |entries|
        invariant 0 <= i <= |entries|
        invariant ScanExif(entries[i..]) == ScanExif(entries)
      {
        assert entries[i..][1..] == entries[i + 1..];
        var entry := entries[i];
        if entry.tag == "GPSInfo" {
          if entry.value.OtherValue? {
            return None;
          }
          var gps := CollectGpsData(entry.value.items);
          var lat := ConvertGpsCoordinate(Lookup(gps, "GPSLatitude"), LookupOr(gps, "GPSLatitudeRef", Text("N")));
          var lon := ConvertGpsCoordinate(Lookup(gps, "GPSLongitude"), LookupOr(gps, "GPSLongitudeRef", Text("E")));
          if lat.Some? && lon.Some? {
            return Some(ExtractionResult(lat.value, lon.value, "exif", 0.95, ExifNote));
          }
        }
        i := i + 1;
      }
      return None;
    }

    /** The inner loop that fills `gps_data`. */
    method CollectGpsData(items: seq<(string, GpsValue)>) returns (gps: map<string, GpsValue>)
      ensures gps == GpsDict(items)
    {
      gps := map[];
      var i := 0;
      while i < |items|
        invariant 0 <= i <= |items|
        invariant gps == GpsDict(items[..i])
      {
        assert items[..i + 1][..i] == items[..i];
        gps := gps[items[i].0 := items[i].1];
        i := i + 1;
      }
      assert items[..i] == items;
    }

    method ExtractFromOcr(ocrText: Option<string>) returns (r: Option<ExtractionResult>)
      ensures r == OcrStage(ocrText)
    {
      if ocrText.None? {
        return None;
      }
      var coordinates := ParseCoordinatesFromText(ocrText.value);
      if coordinates.Some? {
        return Some(ExtractionResult(coordinates.value.0, coordinates.value.1, "ocr", 0.8, OcrNote));
      }
      return None;
    }

    method ParseCoordinatesFromText(text: string) returns (r: Option<(real, real)>)
      ensures r == ParseText(coordinatePatterns, text)
    {
      if text == "" {
        return None;
      }
      var t := ReplaceAll(text, "\n", " ");
      t := ReplaceAll(t, "\r", " ");
      t := RejoinSplitDecimals(t);
      t := ReplaceAll(t, "ers:", "GPS:");
      t := ReplaceAll(t, "ars:", "GPS:");
      t := ReplaceAll(t, "tong:", "Long:");
      var i := 0;
      while i < |coordinatePatterns|
        invariant 0 <= i <= |coordinatePatterns|
        invariant FirstValid(coordinatePatterns[i..], t) == FirstValid(coordinatePatterns, t)
      {
        assert coordinatePatterns[i..][1..] == coordinatePatterns[i + 1..];
        var m := Search(coordinatePatterns[i], t);
        if m.Some? {
          var coordinates := TryMatch(m.value);
          if coordinates.Some? {
            return coordinates;
          }
        }
        i := i + 1;
      }
      return None;
    }

    /** The `try` block for one match: the latitude variable is repaired in place, then both are range-checked. */
    method TryMatch(g: (string, string)) returns (r: Option<(real, real)>)
      ensures r == Interpret(g)
    {
      var latStr := RemoveSpaces(g.0);
      var lonStr := RemoveSpaces(g.1);
      var lat := ParseDecimal(latStr);
      var lon := ParseDecimal(lonStr);
      if lat.None? || lon.None? {
        return None;
      }
      var latitude := lat.value;
      if latitude > 90.0 && |latStr| > 0 && latStr[0] == '9' {
        var corrected := ParseDecimal("3" + latStr[1..]);
        if corrected.None? {
          return None;
        }
        if -90.0 <= corrected.value <= 90.0 {
          latitude := corrected.value;
        }
      }
      if InRange(latitude, lon.value) {
        return Some((latitude, lon.value));
      }
      return None;
    }
  }
}
