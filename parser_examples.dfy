/**
 * Worked inputs for the text parser of backend/services/gps_extractor.py: caption lines as
 * the overlay apps print them, and what `_parse_coordinates_from_text` makes of them.
 *
 * Each caption is named by a predicate, and every step of its match is a lemma of its own,
 * so that the verifier expands the characters only where a step asks for them.
 */
module ParserExamples {
  import opened Wrappers
  import opened Decimal
  import opened CoordinatePatterns
  import opened GpsExtractor

  // ---------------------------------------------------------------------------------
  // Decimal literals

  /** Appending a digit to a digit run. */
  lemma {:induction false} DigitsValueSnoc(s: string, d: char)
    requires AllDigits(s) && IsDigit(d)
    ensures AllDigits(s + [d]) && DigitsValue(s + [d]) == 10 * DigitsValue(s) + DigitValue(d)
  {
    assert (s + [d])[..|s|] == s;
  }

  lemma {:induction false} Digits31() ensures DigitsValue("31") == 31 {
    DigitsValueSnoc("", '3'); assert "" + ['3'] == "3";
    DigitsValueSnoc("3", '1'); assert "3" + ['1'] == "31";
  }

  lemma {:induction false} Digits75() ensures DigitsValue("75") == 75 {
    DigitsValueSnoc("", '7'); assert "" + ['7'] == "7";
    DigitsValueSnoc("7", '5'); assert "7" + ['5'] == "75";
  }

  lemma {:induction false} Digits95() ensures DigitsValue("95") == 95 {
    DigitsValueSnoc("", '9'); assert "" + ['9'] == "9";
    DigitsValueSnoc("9", '5'); assert "9" + ['5'] == "95";
  }

  lemma {:induction false} Digits995() ensures DigitsValue("995") == 995 {
    DigitsValueSnoc("", '9'); assert "" + ['9'] == "9";
    DigitsValueSnoc("9", '9'); assert "9" + ['9'] == "99";
    DigitsValueSnoc("99", '5'); assert "99" + ['5'] == "995";
  }

  lemma {:induction false} Digits256577() ensures DigitsValue("256577") == 256577 {
    DigitsValueSnoc("", '2'); assert "" + ['2'] == "2";
    DigitsValueSnoc("2", '5'); assert "2" + ['5'] == "25";
    DigitsValueSnoc("25", '6'); assert "25" + ['6'] == "256";
    DigitsValueSnoc("256", '5'); assert "256" + ['5'] == "2565";
    DigitsValueSnoc("2565", '7'); assert "2565" + ['7'] == "25657";
    DigitsValueSnoc("25657", '7'); assert "25657" + ['7'] == "256577";
  }

  lemma {:induction false} Digits704117() ensures DigitsValue("704117") == 704117 {
    DigitsValueSnoc("", '7'); assert "" + ['7'] == "7";
    DigitsValueSnoc("7", '0'); assert "7" + ['0'] == "70";
    DigitsValueSnoc("70", '4'); assert "70" + ['4'] == "704";
    DigitsValueSnoc("704", '1'); assert "704" + ['1'] == "7041";
    DigitsValueSnoc("7041", '1'); assert "7041" + ['1'] == "70411";
    DigitsValueSnoc("70411", '7'); assert "70411" + ['7'] == "704117";
  }

  lemma {:induction false} Digits2509() ensures DigitsValue("2509") == 2509 {
    DigitsValueSnoc("", '2'); assert "" + ['2'] == "2";
    DigitsValueSnoc("2", '5'); assert "2" + ['5'] == "25";
    DigitsValueSnoc("25", '0'); assert "25" + ['0'] == "250";
    DigitsValueSnoc("250", '9'); assert "250" + ['9'] == "2509";
  }

  lemma {:induction false} Digits7054() ensures DigitsValue("7054") == 7054 {
    DigitsValueSnoc("", '7'); assert "" + ['7'] == "7";
    DigitsValueSnoc("7", '0'); assert "7" + ['0'] == "70";
    DigitsValueSnoc("70", '5'); assert "70" + ['5'] == "705";
    DigitsValueSnoc("705", '4'); assert "705" + ['4'] == "7054";
  }

  lemma {:induction false} OneDigit(c: char, d: nat)
    requires IsDigit(c) && d == DigitValue(c)
    ensures DigitsValue([c]) == d
  {
    DigitsValueSnoc("", c);
    assert "" + [c] == [c];
  }

  lemma {:induction false} Literal31_256577(a: string)
    requires a == "31.256577"
    ensures ParseDecimal(a) == Some(31.256577) && ' ' !in a
  {
    DecimalLiteral("31", "256577");
    assert a == "31" + "." + "256577";
    Digits31();
    Digits256577();
    assert Pow10(6) == 1000000;
  }

  lemma {:induction false} Literal75_704117(b: string)
    requires b == "75.704117"
    ensures ParseDecimal(b) == Some(75.704117) && ' ' !in b
  {
    DecimalLiteral("75", "704117");
    assert b == "75" + "." + "704117";
    Digits75();
    Digits704117();
    assert Pow10(6) == 1000000;
  }

  lemma {:induction false} Literal31_2509(a: string)
    requires a == "31.2509"
    ensures ParseDecimal(a) == Some(31.2509) && ' ' !in a
  {
    DecimalLiteral("31", "2509");
    assert a == "31" + "." + "2509";
    Digits31();
    Digits2509();
    assert Pow10(4) == 10000;
  }

  lemma {:induction false} Literal75_7054(b: string)
    requires b == "75.7054"
    ensures ParseDecimal(b) == Some(75.7054) && ' ' !in b
  {
    DecimalLiteral("75", "7054");
    assert b == "75" + "." + "7054";
    Digits75();
    Digits7054();
    assert Pow10(4) == 10000;
  }

  lemma {:induction false} Literal31_2(a: string)
    requires a == "31.2"
    ensures ParseDecimal(a) == Some(31.2) && ' ' !in a
  {
    DecimalLiteral("31", "2");
    assert a == "31" + "." + "2";
    Digits31();
    OneDigit('2', 2);
  }

  lemma {:induction false} Literal95_2(a: string)
    requires a == "95.2"
    ensures ParseDecimal(a) == Some(95.2) && ' ' !in a
  {
    DecimalLiteral("95", "2");
    assert a == "95" + "." + "2";
    Digits95();
    OneDigit('2', 2);
  }

  lemma {:induction false} Literal995_2(a: string)
    requires a == "995.2"
    ensures ParseDecimal(a) == Some(995.2) && ' ' !in a
  {
    DecimalLiteral("995", "2");
    assert a == "995" + "." + "2";
    Digits995();
    OneDigit('2', 2);
  }

  lemma {:induction false} Literal75_7(a: string)
    requires a == "75.7"
    ensures ParseDecimal(a) == Some(75.7) && ' ' !in a
  {
    DecimalLiteral("75", "7");
    assert a == "75" + "." + "7";
    Digits75();
    OneDigit('7', 7);
  }

  // ---------------------------------------------------------------------------------
  // A bare decimal pair

  predicate IsBareCaption(s: string) { s == "31.256577, 75.704117" }

  /** A bare decimal pair parses to itself, through the third pattern. */
  lemma {:induction false} BarePairExample(s: string)
    requires IsBareCaption(s)
    ensures ParseText(PatternList, s) == Some((31.256577, 75.704117))
  {
    BareCaptionIsClean(s);
    BareCaptionOtherPatternsMiss(s);
    BareCaptionPatternValue(s);
    ThirdPatternDecides(s, (31.256577, 75.704117));
  }

  lemma {:induction false} ThirdPatternDecides(t: string, v: (real, real))
    requires PatternValue(Labeled, t).None? && PatternValue(Abbreviated, t).None?
    requires PatternValue(BareDecimal, t) == Some(v)
    ensures FirstValid(PatternList, t) == Some(v)
  {
    assert PatternList[0] == Labeled && PatternList[1] == Abbreviated && PatternList[2] == BareDecimal;
    assert forall j :: 0 <= j < 2 ==> PatternValue(PatternList[j], t).None?;
    FirstValidatingPatternWins(PatternList, t, 2);
  }

  lemma {:induction false} BareCaptionOtherPatternsMiss(s: string)
    requires IsBareCaption(s)
    ensures PatternValue(Labeled, s).None? && PatternValue(Abbreviated, s).None?
  {
    BareCaptionHasNoLetters(s);
    LetterlessTextMatchesOnlyBarePair(Labeled, s, 0);
    LetterlessTextMatchesOnlyBarePair(Abbreviated, s, 0);
  }

  lemma {:induction false} BareCaptionPatternValue(s: string)
    requires IsBareCaption(s)
    ensures PatternValue(BareDecimal, s) == Some((31.256577, 75.704117))
  {
    BareCaptionMatch(s);
    BareCaptionValue("31.256577", "75.704117");
  }

  lemma {:induction false} BareCaptionCharacters(s: string)
    requires IsBareCaption(s)
    ensures '\n' !in s && '\r' !in s && ':' !in s
    ensures forall k :: 0 <= k < |s| - 1 && s[k] == '.' ==> !IsSpace(s[k + 1])
  {
  }

  lemma {:induction false} BareCaptionIsClean(s: string)
    requires IsBareCaption(s)
    ensures Clean(s) == s
  {
    BareCaptionCharacters(s);
    ReplaceAbsent(s, "\n", " ", '\n');
    ReplaceAbsent(s, "\r", " ", '\r');
    RejoinWithoutSplit(s);
    ReplaceAbsent(s, "ers:", "GPS:", ':');
    ReplaceAbsent(s, "ars:", "GPS:", ':');
    ReplaceAbsent(s, "tong:", "Long:", ':');
  }

  lemma {:induction false} BareCaptionHasNoLetters(s: string)
    requires IsBareCaption(s)
    ensures forall k :: 0 <= k < |s| ==> !IsAsciiLetter(s[k])
  {
  }

  lemma {:induction false} BareCaptionFirstNumber(s: string)
    requires IsBareCaption(s)
    ensures DecimalEnd(s, 0) == Some(9)
  {
    DigitRunEndIs(s, 0, 2);
    DigitRunEndIs(s, 3, 9);
  }

  lemma {:induction false} BareCaptionSecondNumber(s: string)
    requires IsBareCaption(s)
    ensures DecimalEnd(s, 11) == Some(20)
  {
    DigitRunEndIs(s, 11, 13);
    DigitRunEndIs(s, 14, 20);
  }

  lemma {:induction false} BareCaptionMatch(s: string)
    requires IsBareCaption(s)
    ensures Search(BareDecimal, s) == Some(("31.256577", "75.704117"))
  {
    BareCaptionFirstNumber(s);
    BareCaptionSecondNumber(s);
    SpaceRunEndIs(s, 9, 9);
    SpaceRunEndIs(s, 10, 11);
    assert s[0..9] == "31.256577";
    assert s[11..20] == "75.704117";
  }

  lemma {:induction false} BareCaptionValue(a: string, b: string)
    requires a == "31.256577" && b == "75.704117"
    ensures Interpret((a, b)) == Some((31.256577, 75.704117))
  {
    Literal31_256577(a);
    Literal75_704117(b);
    NoRepairWithoutExcess((a, b), 31.256577, 75.704117);
  }

  // ---------------------------------------------------------------------------------
  // A labelled caption

  predicate IsLabelledCaption(s: string) { s == "Latitude 31.2509\U{B0} N Longitude 75.7054\U{B0} E" }

  /** The labelled caption line parses through the first pattern. */
  lemma {:induction false} LabelledExample(s: string)
    requires IsLabelledCaption(s)
    ensures ParseText(PatternList, s) == Some((31.2509, 75.7054))
  {
    LabelledCaptionIsClean(s);
    LabelledCaptionMatch(s);
    LabelledCaptionValue("31.2509", "75.7054");
    assert PatternList[0] == Labeled;
    FirstValidatingPatternWins(PatternList, s, 0);
  }

  lemma {:induction false} LabelledCaptionCharacters(s: string)
    requires IsLabelledCaption(s)
    ensures '\n' !in s && '\r' !in s && ':' !in s
  {
  }

  lemma {:induction false} LabelledCaptionPoints(s: string)
    requires IsLabelledCaption(s)
    ensures forall k :: 0 <= k < |s| - 1 && s[k] == '.' ==> !IsSpace(s[k + 1])
  {
  }

  lemma {:induction false} LabelledCaptionIsClean(s: string)
    requires IsLabelledCaption(s)
    ensures Clean(s) == s
  {
    LabelledCaptionCharacters(s);
    LabelledCaptionPoints(s);
    ReplaceAbsent(s, "\n", " ", '\n');
    ReplaceAbsent(s, "\r", " ", '\r');
    RejoinWithoutSplit(s);
    ReplaceAbsent(s, "ers:", "GPS:", ':');
    ReplaceAbsent(s, "ars:", "GPS:", ':');
    ReplaceAbsent(s, "tong:", "Long:", ':');
  }

  lemma {:induction false} LabelledCaptionFirstNumber(s: string)
    requires IsLabelledCaption(s)
    ensures NumberEnd(s, 9) == Some(16)
  {
    DigitRunEndIs(s, 9, 11);
    DigitRunEndIs(s, 12, 16);
  }

  lemma {:induction false} LabelledCaptionTail(s: string)
    requires IsLabelledCaption(s)
    ensures LatitudeTail(s, 16) == 20
  {
    SpaceRunEndIs(s, 17, 18);
    SpaceRunEndIs(s, 19, 20);
  }

  lemma {:induction false} LabelledCaptionSecondNumber(s: string)
    requires IsLabelledCaption(s)
    ensures NumberEnd(s, 30) == Some(37)
  {
    DigitRunEndIs(s, 30, 32);
    DigitRunEndIs(s, 33, 37);
  }

  lemma {:induction false} LabelledCaptionLabels(s: string)
    requires IsLabelledCaption(s)
    ensures CiWordAt(s, 0, "latitude") && CiWordAt(s, 20, "longitude")
  {
  }

  lemma {:induction false} LabelledCaptionSecondGroup(s: string)
    requires IsLabelledCaption(s)
    ensures LazyFind(Labeled, s, 20) == Some((30, 37))
  {
    LabelledCaptionLabels(s);
    SpaceRunEndIs(s, 29, 30);
    LabelledCaptionSecondNumber(s);
    assert SecondGroupAt(Labeled, s, 20) == Some((30, 37));
  }

  lemma {:induction false} LabelledCaptionPair(s: string)
    requires IsLabelledCaption(s)
    ensures LabelledPairAt(Labeled, s, 9) == Some(("31.2509", "75.7054"))
  {
    LabelledCaptionFirstNumber(s);
    LabelledCaptionTail(s);
    LabelledCaptionSecondGroup(s);
    LabelledCaptionSlices(s);
  }

  lemma {:induction false} LabelledCaptionSlices(s: string)
    requires IsLabelledCaption(s)
    ensures s[9..16] == "31.2509" && s[30..37] == "75.7054"
  {
    forall k | 0 <= k < 7
      ensures s[9..16][k] == "31.2509"[k] && s[30..37][k] == "75.7054"[k]
    {
      assert s[9..16][k] == s[9 + k];
      assert s[30..37][k] == s[30 + k];
    }
  }

  lemma {:induction false} LabelledCaptionMatch(s: string)
    requires IsLabelledCaption(s)
    ensures Search(Labeled, s) == Some(("31.2509", "75.7054"))
  {
    LabelledCaptionLabels(s);
    SpaceRunEndIs(s, 8, 9);
    LabelledCaptionPair(s);
    assert MatchAt(Labeled, s, 0) == LabelledPairAt(Labeled, s, 9);
  }

  lemma {:induction false} LabelledCaptionValue(a: string, b: string)
    requires a == "31.2509" && b == "75.7054"
    ensures Interpret((a, b)) == Some((31.2509, 75.7054))
  {
    Literal31_2509(a);
    Literal75_7054(b);
    NoRepairWithoutExcess((a, b), 31.2509, 75.7054);
  }

  // ---------------------------------------------------------------------------------
  // Clean-up repairs

  /** The split decimal "75. 704117" is rejoined to "75.704117". */
  lemma {:induction false} RejoinExample(s: string)
    requires s == "75. 704117"
    ensures RejoinSplitDecimals(s) == "75.704117"
  {
    assert s == "75" + "." + " " + "704117" + "";
    RejoinSplitDecimal("75", " ", "704117", "");
    assert RejoinSplitDecimals("") == "";
  }

  /** A caption whose longitude label was misread as "tong:". */
  predicate IsMisreadCaption(s: string) { s == "Lat: 31.2 tong: 75.7" }

  predicate IsRepairedCaption(t: string) { t == "Lat: 31.2 Long: 75.7" }

  /** The clean-up turns "tong:" into "Long:", and the repaired line parses through the second pattern. */
  lemma {:induction false} LabelRepairExample(s: string)
    requires IsMisreadCaption(s)
    ensures IsRepairedCaption(Clean(s))
    ensures ParseText(PatternList, s) == Some((31.2, 75.7))
  {
    MisreadCaptionIsRepaired(s);
    var t := Clean(s);
    RepairedCaptionMissesFirstPattern(t);
    RepairedCaptionMatch(t);
    RepairedCaptionValue("31.2", "75.7");
    assert PatternList[0] == Labeled && PatternList[1] == Abbreviated;
    assert forall j :: 0 <= j < 1 ==> PatternValue(PatternList[j], t).None?;
    FirstValidatingPatternWins(PatternList, t, 1);
  }

  lemma {:induction false} MisreadCaptionCharacters(s: string)
    requires IsMisreadCaption(s)
    ensures '\n' !in s && '\r' !in s && 'e' !in s && 'r' !in s
    ensures forall k :: 0 <= k < |s| - 1 && s[k] == '.' ==> !IsSpace(s[k + 1])
  {
  }

  /** No "tong:" starts among the first ten characters. */
  lemma {:induction false} MisreadCaptionPrefix(s: string)
    requires IsMisreadCaption(s)
    ensures forall k :: 0 <= k < 10 ==> !OccursAt(s, k, "tong:")
  {
    forall k | 0 <= k < 10
      ensures !OccursAt(s, k, "tong:")
    {
      NoOccurrenceAt(s, k, "tong:");
    }
  }

  lemma {:induction false} MisreadCaptionLabel(s: string, rep: string)
    requires IsMisreadCaption(s) && rep == "Long:"
    ensures ReplaceAll(s, "tong:", rep) == "Lat: 31.2 Long: 75.7"
  {
    MisreadCaptionPrefix(s);
    ReplaceAllCopiesPrefix(s, 10, "tong:", rep);
    MisreadCaptionHalves(s);
    LabelReplaced(" 75.7", rep);
  }

  lemma {:induction false} MisreadCaptionHalves(s: string)
    requires IsMisreadCaption(s)
    ensures s[..10] == "Lat: 31.2 " && s[10..] == "tong:" + " 75.7"
  {
  }

  lemma {:induction false} LabelReplaced(rest: string, rep: string)
    requires rest == " 75.7"
    ensures ReplaceAll("tong:" + rest, "tong:", rep) == rep + rest
  {
    ReplaceAllAtOccurrence("tong:", rest, rep);
    ReplaceAbsent(rest, "tong:", rep, ':');
  }

  lemma {:induction false} MisreadCaptionIsRepaired(s: string)
    requires IsMisreadCaption(s)
    ensures IsRepairedCaption(Clean(s))
  {
    MisreadCaptionCharacters(s);
    ReplaceAbsent(s, "\n", " ", '\n');
    ReplaceAbsent(s, "\r", " ", '\r');
    RejoinWithoutSplit(s);
    ReplaceAbsent(s, "ers:", "GPS:", 'e');
    ReplaceAbsent(s, "ars:", "GPS:", 'r');
    MisreadCaptionLabel(s, "Long:");
  }

  /** Without an "i" there is no "Latitude" label, so the first pattern finds nothing. */
  lemma {:induction false} NoLatitudeLabel(s: string, i: nat)
    requires i <= |s| && forall k :: 0 <= k < |s| ==> Lower(s[k]) != 'i'
    ensures SearchFrom(Labeled, s, i) == None
    decreases |s| - i
  {
    if i + 8 <= |s| {
      assert Lower(s[i + 3]) != "latitude"[3];
    }
    assert !CiWordAt(s, i, "latitude");
    if i < |s| {
      NoLatitudeLabel(s, i + 1);
    }
  }

  lemma {:induction false} RepairedCaptionMissesFirstPattern(t: string)
    requires IsRepairedCaption(t)
    ensures PatternValue(Labeled, t).None?
  {
    assert forall k :: 0 <= k < |t| ==> Lower(t[k]) != 'i';
    NoLatitudeLabel(t, 0);
  }

  lemma {:induction false} RepairedCaptionFirstNumber(t: string)
    requires IsRepairedCaption(t)
    ensures LatLabelEnd(t, 0) == Some(4) && SpaceRunEnd(t, 4) == 5 && NumberEnd(t, 5) == Some(9)
  {
    assert CiWordAt(t, 0, "lat");
    SpaceRunEndIs(t, 4, 5);
    DigitRunEndIs(t, 5, 7);
    DigitRunEndIs(t, 8, 9);
  }

  lemma {:induction false} RepairedCaptionTail(t: string)
    requires IsRepairedCaption(t)
    ensures LatitudeTail(t, 9) == 10
  {
    SpaceRunEndIs(t, 9, 10);
    SpaceRunEndIs(t, 10, 10);
  }

  lemma {:induction false} RepairedCaptionSecondGroup(t: string)
    requires IsRepairedCaption(t)
    ensures LazyFind(Abbreviated, t, 10) == Some((16, 20))
  {
    assert CiWordAt(t, 10, "long") && t[14] == ':';
    assert LongLabelEnd(t, 10) == Some(15);
    SpaceRunEndIs(t, 15, 16);
    DigitRunEndIs(t, 16, 18);
    DigitRunEndIs(t, 19, 20);
    assert SecondGroupAt(Abbreviated, t, 10) == Some((16, 20));
  }

  lemma {:induction false} RepairedCaptionSlices(t: string)
    requires IsRepairedCaption(t)
    ensures t[5..9] == "31.2" && t[16..20] == "75.7"
  {
  }

  lemma {:induction false} RepairedCaptionMatch(t: string)
    requires IsRepairedCaption(t)
    ensures Search(Abbreviated, t) == Some(("31.2", "75.7"))
  {
    RepairedCaptionFirstNumber(t);
    RepairedCaptionTail(t);
    RepairedCaptionSecondGroup(t);
    RepairedCaptionSlices(t);
    assert LabelledPairAt(Abbreviated, t, 5) == Some(("31.2", "75.7"));
    assert MatchAt(Abbreviated, t, 0) == LabelledPairAt(Abbreviated, t, 5);
  }

  lemma {:induction false} RepairedCaptionValue(a: string, b: string)
    requires a == "31.2" && b == "75.7"
    ensures Interpret((a, b)) == Some((31.2, 75.7))
  {
    Literal31_2(a);
    Literal75_7(b);
    NoRepairWithoutExcess((a, b), 31.2, 75.7);
  }

  // ---------------------------------------------------------------------------------
  // The 9-to-3 repair

  /** "95.2" is read as 35.2; "995.2" is out of range even after the repair, so the pair fails. */
  lemma {:induction false} RepairExamples(a: string, b: string, lon: string)
    requires a == "95.2" && b == "995.2" && lon == "75.7"
    ensures Interpret((a, lon)) == Some((35.2, 75.7))
    ensures Interpret((b, lon)) == None
  {
    Literal95_2(a);
    Literal995_2(b);
    Literal75_7(lon);
    NineToThreeRepair((a, lon), 95.2, 75.7);
    NineToThreeRepair((b, lon), 995.2, 75.7);
  }
}
