/**
 * The text side of the coordinate parser in backend/services/gps_extractor.py: the
 * `str.replace` and `re.sub` clean-up steps, and the four coordinate regexes of
 * `coordinate_patterns` as scanners.
 *
 * Each regex is searched with `re.search(pattern, text, re.IGNORECASE)`. At a fixed start
 * position every one of the four is deterministic: each greedy or optional element is
 * followed by something that the characters it would give back can never match, so the
 * first (greedy) choice is the only one that can succeed, and the lazy `.*?` stops at the
 * first position where the rest of the pattern matches. `MatchAt` computes that match;
 * `Search` takes the leftmost start position, as `re.search` does.
 */
module CoordinatePatterns {
  import opened Wrappers
  import opened Decimal

  /** Python's `\s` on `str` patterns: the Unicode whitespace characters. */
  predicate IsSpace(c: char) {
    || ('\t' <= c <= '\r') || ('\U{1C}' <= c <= '\U{1F}') || c == ' '
    || c == '\U{85}' || c == '\U{A0}' || c == '\U{1680}' || ('\U{2000}' <= c <= '\U{200A}')
    || c == '\U{2028}' || c == '\U{2029}' || c == '\U{202F}' || c == '\U{205F}' || c == '\U{3000}'
  }

  predicate IsAsciiLetter(c: char) { 'a' <= c <= 'z' || 'A' <= c <= 'Z' }

  /** Case folding as `re.IGNORECASE` applies it to ASCII letters. */
  function Lower(c: char): char {
    if 'A' <= c <= 'Z' then (c as int + 32) as char else c
  }

  const Degree: char := '\U{B0}'

  /** `w` (lower case) occurs at position `i` of `s`, ignoring case. */
  predicate CiWordAt(s: string, i: nat, w: string) {
    i + |w| <= |s| && forall k :: 0 <= k < |w| ==> Lower(s[i + k]) == w[k]
  }

  /** The character at `i` is one of the two lower-case letters `a`, `b`, ignoring case. */
  predicate CiOneOfAt(s: string, i: nat, a: char, b: char) {
    i < |s| && (Lower(s[i]) == a || Lower(s[i]) == b)
  }

  /** End of the maximal run of `\d` starting at `i`. */
  function DigitRunEnd(s: string, i: nat): (j: nat)
    requires i <= |s|
    ensures i <= j <= |s|
    ensures forall k :: i <= k < j ==> IsDigit(s[k])
    ensures j < |s| ==> !IsDigit(s[j])
    decreases |s| - i
  {
    if i < |s| && IsDigit(s[i]) then DigitRunEnd(s, i + 1) else i
  }

  /** End of the maximal run of `\s` starting at `i`. */
  function SpaceRunEnd(s: string, i: nat): (j: nat)
    requires i <= |s|
    ensures i <= j <= |s|
    ensures forall k :: i <= k < j ==> IsSpace(s[k])
    ensures j < |s| ==> !IsSpace(s[j])
    decreases |s| - i
  {
    if i < |s| && IsSpace(s[i]) then SpaceRunEnd(s, i + 1) else i
  }

  /** `c?`: skip one `c` if it is there. */
  function OptChar(s: string, i: nat, c: char): (j: nat)
    requires i <= |s|
    ensures j <= |s|
  {
    if i < |s| && s[i] == c then i + 1 else i
  }

  /** `[+-]?\d+\.?\d*`, greedy: the end of the number starting at `i`, if one starts there. */
  function NumberEnd(s: string, i: nat): (r: Option<nat>)
    requires i <= |s|
    ensures r.Some? ==> i < r.value <= |s|
  {
    var a := if i < |s| && (s[i] == '+' || s[i] == '-') then i + 1 else i;
    var b := DigitRunEnd(s, a);
    if b == a then None
    else if b < |s| && s[b] == '.' then Some(DigitRunEnd(s, b + 1))
    else Some(b)
  }

  /** `[+-]?\d+\.\d+`, greedy: the end of the decimal starting at `i`, if one starts there. */
  function DecimalEnd(s: string, i: nat): (r: Option<nat>)
    requires i <= |s|
    ensures r.Some? ==> i < r.value <= |s|
  {
    var a := if i < |s| && (s[i] == '+' || s[i] == '-') then i + 1 else i;
    var b := DigitRunEnd(s, a);
    if b == a || b == |s| || s[b] != '.' then None
    else
      var c := DigitRunEnd(s, b + 1);
      if c == b + 1 then None else Some(c)
  }

  /** The four entries of `coordinate_patterns`, in list order. */
  datatype Pattern =
    | Labeled      // Latitude\s*(num)[°]?\s*[NS]?\s*.*?Longitude\s*(num)[°]?\s*[EW]?
    | Abbreviated  // (?:Lat|at|bat):\s*(num)[°]?\s*[NS]?\s*.*?(?:Long?|ong|tong):\s*(num)[°]?\s*[EW]?
    | BareDecimal  // ([+-]?\d+\.\d+)\s*,\s*([+-]?\d+\.\d+)
    | Hemisphere   // (num)[°]?\s*[NS]\s*,?\s*(num)[°]?\s*[EW]

  const PatternList: seq<Pattern> := [Labeled, Abbreviated, BareDecimal, Hemisphere]

  /** `[°]?\s*[NS]?\s*` after the first number: always matches, greedily. */
  function LatitudeTail(s: string, b: nat): (t: nat)
    requires b <= |s|
    ensures b <= t <= |s|
  {
    var t := SpaceRunEnd(s, OptChar(s, b, Degree));
    var t := if CiOneOfAt(s, t, 'n', 's') then t + 1 else t;
    SpaceRunEnd(s, t)
  }

  /** The position just after the label `(?:Lat|at|bat):` starting at `i`, if there is one. */
  function LatLabelEnd(s: string, i: nat): (r: Option<nat>)
    requires i <= |s|
    ensures r.Some? ==> i < r.value <= |s|
  {
    var h := if CiWordAt(s, i, "lat") || CiWordAt(s, i, "bat") then i + 3
             else if CiWordAt(s, i, "at") then i + 2
             else i;
    if h > i && h < |s| && s[h] == ':' then Some(h + 1) else None
  }

  /** The position just after the label `(?:Long?|ong|tong):` starting at `q`, if there is one. */
  function LongLabelEnd(s: string, q: nat): (r: Option<nat>)
    requires q <= |s|
    ensures r.Some? ==> q < r.value <= |s|
  {
    var h := if CiWordAt(s, q, "long") && q + 4 < |s| && s[q + 4] == ':' then q + 4
             else if CiWordAt(s, q, "lon") then q + 3
             else if CiWordAt(s, q, "ong") then q + 3
             else if CiWordAt(s, q, "tong") then q + 4
             else q;
    if h > q && h < |s| && s[h] == ':' then Some(h + 1) else None
  }

  /** The second label and its number (group 2) matched at `q`, as a span of `s`. */
  function SecondGroupAt(p: Pattern, s: string, q: nat): (r: Option<(nat, nat)>)
    requires q <= |s|
    ensures r.Some? ==> q < r.value.0 < r.value.1 <= |s|
    ensures r.Some? ==> NumberEnd(s, r.value.0) == Some(r.value.1)
  {
    var labelEnd :=
      if p == Labeled then (if CiWordAt(s, q, "longitude") then Some(q + 9) else None)
      else if p == Abbreviated then LongLabelEnd(s, q)
      else None;
    match labelEnd
    case None => None
    case Some(h) =>
      var c := SpaceRunEnd(s, h);
      match NumberEnd(s, c)
      case None => None
      case Some(d) => Some((c, d))
  }

  /** `.*?` followed by the second label: the first position from `q` on, not crossing a newline. */
  function LazyFind(p: Pattern, s: string, q: nat): (r: Option<(nat, nat)>)
    requires q <= |s|
    ensures r.Some? ==> q < r.value.0 < r.value.1 <= |s|
    ensures r.Some? ==> NumberEnd(s, r.value.0) == Some(r.value.1)
    decreases |s| - q
  {
    match SecondGroupAt(p, s, q)
    case Some(g) => Some(g)
    case None => if q < |s| && s[q] != '\n' then LazyFind(p, s, q + 1) else None
  }

  /** The first number at `a`, then the latitude tail, then `.*?` and the second label with its number. */
  function LabelledPairAt(p: Pattern, s: string, a: nat): Option<(string, string)>
    requires a <= |s|
  {
    match NumberEnd(s, a)
    case None => None
    case Some(b) =>
      match LazyFind(p, s, LatitudeTail(s, b))
      case None => None
      case Some(g) => Some((s[a..b], s[g.0..g.1]))
  }

  /** The match of pattern `p` starting exactly at position `i`, as its two captured groups. */
  function MatchAt(p: Pattern, s: string, i: nat): Option<(string, string)>
    requires i <= |s|
  {
    match p
    case Labeled =>
      if CiWordAt(s, i, "latitude") then LabelledPairAt(p, s, SpaceRunEnd(s, i + 8)) else None
    case Abbreviated =>
      (match LatLabelEnd(s, i)
       case None => None
       case Some(h) => LabelledPairAt(p, s, SpaceRunEnd(s, h)))
    case BareDecimal => BarePairAt(s, i)
    case Hemisphere => HemispherePairAt(s, i)
  }

  /** Pattern 3 at `i`: `([+-]?\d+\.\d+)\s*,\s*([+-]?\d+\.\d+)`. */
  function BarePairAt(s: string, i: nat): Option<(string, string)>
    requires i <= |s|
  {
    match DecimalEnd(s, i)
    case None => None
    case Some(b) =>
      var t := SpaceRunEnd(s, b);
      if t == |s| || s[t] != ',' then None
      else
        var c := SpaceRunEnd(s, t + 1);
        match DecimalEnd(s, c)
        case None => None
        case Some(d) => Some((s[i..b], s[c..d]))
  }

  /**
   * Pattern 4 after its `[NS]` letter at `t`: `\s*,?\s*` then the second number, which must
   * be followed by `[°]?\s*[EW]`; the span of that number.
   */
  function EastingAt(s: string, t: nat): (r: Option<(nat, nat)>)
    requires t < |s|
    ensures r.Some? ==> t < r.value.0 < r.value.1 <= |s| && NumberEnd(s, r.value.0) == Some(r.value.1)
  {
    var c := SpaceRunEnd(s, OptChar(s, SpaceRunEnd(s, t + 1), ','));
    match NumberEnd(s, c)
    case None => None
    case Some(d) =>
      var u := SpaceRunEnd(s, OptChar(s, d, Degree));
      if CiOneOfAt(s, u, 'e', 'w') then Some((c, d)) else None
  }

  /** Pattern 4 at `i`: `(num)[°]?\s*[NS]\s*,?\s*(num)[°]?\s*[EW]`. */
  function HemispherePairAt(s: string, i: nat): Option<(string, string)>
    requires i <= |s|
  {
    match NumberEnd(s, i)
    case None => None
    case Some(b) =>
      var t := SpaceRunEnd(s, OptChar(s, b, Degree));
      if !CiOneOfAt(s, t, 'n', 's') then None
      else
        match EastingAt(s, t)
        case None => None
        case Some(g) => Some((s[i..b], s[g.0..g.1]))
  }

  /** `re.search`: the match at the leftmost start position from `i` on. */
  function SearchFrom(p: Pattern, s: string, i: nat): Option<(string, string)>
    requires i <= |s|
    decreases |s| - i
  {
    match MatchAt(p, s, i)
    case Some(g) => Some(g)
    case None => if i < |s| then SearchFrom(p, s, i + 1) else None
  }

  function Search(p: Pattern, s: string): Option<(string, string)> {
    SearchFrom(p, s, 0)
  }

  // ---------------------------------------------------------------------------------
  // Clean-up steps of `_parse_coordinates_from_text`

  /** `s.replace(pat, rep)`: every non-overlapping occurrence, scanning left to right. */
  function ReplaceAll(s: string, pat: string, rep: string): (r: string)
    requires pat != []
    ensures forall c :: c in r ==> c in s || c in rep
    decreases |s|
  {
    if |s| < |pat| then s
    else if s[..|pat|] == pat then rep + ReplaceAll(s[|pat|..], pat, rep)
    else [s[0]] + ReplaceAll(s[1..], pat, rep)
  }

  /**
   * The match of `(\d+)\.\s+(\d+)` at the start of `s`: the index of the point, the start
   * of the second digit run and its end.
   */
  function SplitDecimalAt(s: string): (r: Option<(nat, nat, nat)>)
    ensures r.Some? ==> 0 < r.value.0 < r.value.1 < r.value.2 <= |s|
  {
    var j := DigitRunEnd(s, 0);
    if j == 0 || j == |s| || s[j] != '.' then None
    else
      var k := SpaceRunEnd(s, j + 1);
      if k == j + 1 || k == |s| || !IsDigit(s[k]) then None
      else Some((j, k, DigitRunEnd(s, k)))
  }

  /** `re.sub(r'(\d+)\.\s+(\d+)', r'\1.\2', s)`: drop the whitespace after each such point. */
  function RejoinSplitDecimals(s: string): (r: string)
    ensures forall c :: c in r ==> c in s
    decreases |s|
  {
    if s == [] then []
    else
      match SplitDecimalAt(s)
      case Some((j, k, l)) => s[..j + 1] + s[k..l] + RejoinSplitDecimals(s[l..])
      case None => [s[0]] + RejoinSplitDecimals(s[1..])
  }

  // ---------------------------------------------------------------------------------
  // What the captured groups look like

  /** A captured group that `float()` accepts and that `.replace(' ', '')` leaves alone. */
  predicate IsNumeral(g: string) {
    ParseDecimal(g).Some? && ' ' !in g
  }

  /** The unsigned part `\d+(\.\d*)?` of a number ending at `b` parses. */
  lemma {:induction false} UnsignedCaptureParses(s: string, a: nat, b: nat)
    requires a <= |s| && a < DigitRunEnd(s, a) <= b <= |s|
    requires b == DigitRunEnd(s, a) || (s[DigitRunEnd(s, a)] == '.' && b == DigitRunEnd(s, DigitRunEnd(s, a) + 1))
    ensures ParseUnsigned(s[a..b]).Some? && ' ' !in s[a..b]
  {
    var m := DigitRunEnd(s, a);
    var v := s[a..b];
    assert v[..m - a] == s[a..m];
    DigitPrefixExact(v, m - a);
    if m < b {
      assert v[m - a + 1..] == s[m + 1..b];
    }
  }

  lemma {:induction false} NumberCaptureParses(s: string, i: nat)
    requires i <= |s| && NumberEnd(s, i).Some?
    ensures IsNumeral(s[i..NumberEnd(s, i).value])
  {
    var b := NumberEnd(s, i).value;
    var a := if i < |s| && (s[i] == '+' || s[i] == '-') then i + 1 else i;
    UnsignedCaptureParses(s, a, b);
    if a == i + 1 {
      assert s[i..b][1..] == s[a..b];
    } else {
      assert s[i..b] == s[a..b];
    }
  }

  lemma {:induction false} DecimalCaptureParses(s: string, i: nat)
    requires i <= |s| && DecimalEnd(s, i).Some?
    ensures IsNumeral(s[i..DecimalEnd(s, i).value])
    ensures '.' in s[i..DecimalEnd(s, i).value]
  {
    var b := DecimalEnd(s, i).value;
    var a := if i < |s| && (s[i] == '+' || s[i] == '-') then i + 1 else i;
    var m := DigitRunEnd(s, a);
    UnsignedCaptureParses(s, a, b);
    assert s[i..b][m - i] == '.';
    if a == i + 1 {
      assert s[i..b][1..] == s[a..b];
    } else {
      assert s[i..b] == s[a..b];
    }
  }

  lemma {:induction false} LabelledPairCapturesParse(p: Pattern, s: string, a: nat)
    requires a <= |s| && LabelledPairAt(p, s, a).Some?
    ensures IsNumeral(LabelledPairAt(p, s, a).value.0) && IsNumeral(LabelledPairAt(p, s, a).value.1)
  {
    NumberCaptureParses(s, a);
    var g := LazyFind(p, s, LatitudeTail(s, NumberEnd(s, a).value)).value;
    NumberCaptureParses(s, g.0);
  }

  lemma {:induction false} BarePairCapturesParse(s: string, i: nat)
    requires i <= |s| && BarePairAt(s, i).Some?
    ensures IsNumeral(BarePairAt(s, i).value.0) && IsNumeral(BarePairAt(s, i).value.1)
  {
    var b := DecimalEnd(s, i).value;
    var t := SpaceRunEnd(s, b);
    assert t < |s| && s[t] == ',';
    var c := SpaceRunEnd(s, t + 1);
    var d := DecimalEnd(s, c).value;
    assert BarePairAt(s, i) == Some((s[i..b], s[c..d]));
    DecimalCaptureParses(s, i);
    DecimalCaptureParses(s, c);
  }

  lemma {:induction false} HemispherePairCapturesParse(s: string, i: nat)
    requires i <= |s| && HemispherePairAt(s, i).Some?
    ensures IsNumeral(HemispherePairAt(s, i).value.0) && IsNumeral(HemispherePairAt(s, i).value.1)
  {
    NumberCaptureParses(s, i);
    var t := SpaceRunEnd(s, OptChar(s, NumberEnd(s, i).value, Degree));
    NumberCaptureParses(s, EastingAt(s, t).value.0);
  }

  lemma {:induction false} MatchAtCapturesParse(p: Pattern, s: string, i: nat)
    requires i <= |s| && MatchAt(p, s, i).Some?
    ensures IsNumeral(MatchAt(p, s, i).value.0) && IsNumeral(MatchAt(p, s, i).value.1)
  {
    match p
    case Labeled => LabelledPairCapturesParse(p, s, SpaceRunEnd(s, i + 8));
    case Abbreviated => LabelledPairCapturesParse(p, s, SpaceRunEnd(s, LatLabelEnd(s, i).value));
    case BareDecimal => BarePairCapturesParse(s, i);
    case Hemisphere => HemispherePairCapturesParse(s, i);
  }

  /** Every group any of the four patterns captures is a number `float()` accepts: no ValueError. */
  lemma {:induction false} SearchCapturesParse(p: Pattern, s: string, i: nat)
    requires i <= |s| && SearchFrom(p, s, i).Some?
    ensures IsNumeral(SearchFrom(p, s, i).value.0) && IsNumeral(SearchFrom(p, s, i).value.1)
    decreases |s| - i
  {
    var m := MatchAt(p, s, i);
    if m.Some? {
      assert SearchFrom(p, s, i) == m;
      MatchAtCapturesParse(p, s, i);
    } else {
      assert i < |s| && SearchFrom(p, s, i) == SearchFrom(p, s, i + 1);
      SearchCapturesParse(p, s, i + 1);
    }
  }

  lemma {:induction false} LabelStartsWithLetter(s: string, i: nat, w: string)
    requires CiWordAt(s, i, w) && w != [] && 'a' <= w[0] <= 'z'
    ensures IsAsciiLetter(s[i])
  {
    assert Lower(s[i + 0]) == w[0];
  }

  /** Pattern 4 needs a hemisphere letter after its first number. */
  lemma {:induction false} HemisphereNeedsLetter(s: string, i: nat)
    requires i <= |s|
    requires forall k :: 0 <= k < |s| ==> !IsAsciiLetter(s[k])
    ensures HemispherePairAt(s, i) == None
  {
    match NumberEnd(s, i)
    case None =>
    case Some(b) =>
      var t := SpaceRunEnd(s, OptChar(s, b, Degree));
      if t < |s| {
        assert !IsAsciiLetter(s[t]);
      }
  }

  /** Patterns 1, 2 and 4 need a label or hemisphere letter: on text without letters only the bare pair can match. */
  lemma {:induction false} LetterlessTextMatchesOnlyBarePair(p: Pattern, s: string, i: nat)
    requires i <= |s| && p != BareDecimal
    requires forall k :: 0 <= k < |s| ==> !IsAsciiLetter(s[k])
    ensures SearchFrom(p, s, i) == None
    decreases |s| - i
  {
    assert MatchAt(p, s, i) == None by {
      if p == Labeled && CiWordAt(s, i, "latitude") {
        LabelStartsWithLetter(s, i, "latitude");
      }
      if p == Abbreviated && LatLabelEnd(s, i).Some? {
        if CiWordAt(s, i, "lat") {
          LabelStartsWithLetter(s, i, "lat");
        } else if CiWordAt(s, i, "bat") {
          LabelStartsWithLetter(s, i, "bat");
        } else {
          LabelStartsWithLetter(s, i, "at");
        }
      }
      if p == Hemisphere {
        HemisphereNeedsLetter(s, i);
      }
    }
    if i < |s| {
      LetterlessTextMatchesOnlyBarePair(p, s, i + 1);
    }
  }

  // ---------------------------------------------------------------------------------
  // Steps for working out concrete inputs

  /** A digit run from `i` ending at `j`. */
  lemma {:induction false} DigitRunEndIs(s: string, i: nat, j: nat)
    requires i <= j <= |s| && (forall k :: i <= k < j ==> IsDigit(s[k])) && (j < |s| ==> !IsDigit(s[j]))
    ensures DigitRunEnd(s, i) == j
    decreases j - i
  {
    if i < j {
      DigitRunEndIs(s, i + 1, j);
    }
  }

  /** A whitespace run from `i` ending at `j`. */
  lemma {:induction false} SpaceRunEndIs(s: string, i: nat, j: nat)
    requires i <= j <= |s| && (forall k :: i <= k < j ==> IsSpace(s[k])) && (j < |s| ==> !IsSpace(s[j]))
    ensures SpaceRunEnd(s, i) == j
    decreases j - i
  {
    if i < j {
      SpaceRunEndIs(s, i + 1, j);
    }
  }

  /** A replacement whose pattern holds a character absent from the text changes nothing. */
  lemma {:induction false} ReplaceAbsent(s: string, pat: string, rep: string, c: char)
    requires pat != [] && c in pat && c !in s
    ensures ReplaceAll(s, pat, rep) == s
    decreases |s|
  {
    if |s| >= |pat| {
      assert s[..|pat|] != pat by {
        var k :| 0 <= k < |pat| && pat[k] == c;
        assert s[..|pat|][k] == s[k];
      }
      ReplaceAbsent(s[1..], pat, rep, c);
      assert s == [s[0]] + s[1..];
    }
  }

  /** `pat` occurs in `s` at position `k`. */
  predicate OccursAt(s: string, k: nat, pat: string) {
    k + |pat| <= |s| && s[k..k + |pat|] == pat
  }

  /** An occurrence at the start of the text is replaced, and the scan resumes after it. */
  lemma {:induction false} ReplaceAllAtOccurrence(pat: string, t: string, rep: string)
    requires pat != []
    ensures ReplaceAll(pat + t, pat, rep) == rep + ReplaceAll(t, pat, rep)
  {
    assert (pat + t)[..|pat|] == pat;
    assert (pat + t)[|pat|..] == t;
  }

  /** The first n characters, where no occurrence starts, are copied unchanged. */
  lemma {:induction false} ReplaceAllCopiesPrefix(s: string, n: nat, pat: string, rep: string)
    requires pat != [] && n <= |s|
    requires forall k :: 0 <= k < n ==> !OccursAt(s, k, pat)
    ensures ReplaceAll(s, pat, rep) == s[..n] + ReplaceAll(s[n..], pat, rep)
    decreases n
  {
    if n > 0 {
      var t := s[1..];
      forall k | 0 <= k < n - 1
        ensures !OccursAt(t, k, pat)
      {
        OccursAtShift(s, k, pat);
      }
      calc {
        ReplaceAll(s, pat, rep);
        == { ReplaceAllStep(s, pat, rep); }
        [s[0]] + ReplaceAll(t, pat, rep);
        == { ReplaceAllCopiesPrefix(t, n - 1, pat, rep); }
        [s[0]] + (t[..n - 1] + ReplaceAll(t[n - 1..], pat, rep));
        == { assert t[n - 1..] == s[n..]; assert [s[0]] + t[..n - 1] == s[..n]; }
        s[..n] + ReplaceAll(s[n..], pat, rep);
      }
    }
  }

  /** Where no occurrence starts, the first character is copied. */
  lemma {:induction false} ReplaceAllStep(s: string, pat: string, rep: string)
    requires pat != [] && s != [] && !OccursAt(s, 0, pat)
    ensures ReplaceAll(s, pat, rep) == [s[0]] + ReplaceAll(s[1..], pat, rep)
  {
    if |s| < |pat| {
      assert ReplaceAll(s[1..], pat, rep) == s[1..];
      assert s == [s[0]] + s[1..];
    }
  }

  /** Dropping the first character shifts every occurrence one place to the left. */
  lemma {:induction false} OccursAtShift(s: string, k: nat, pat: string)
    requires s != []
    ensures OccursAt(s[1..], k, pat) <==> OccursAt(s, k + 1, pat)
  {
    if k + 1 + |pat| <= |s| {
      assert s[1..][k..k + |pat|] == s[k + 1..k + 1 + |pat|];
    }
  }

  /** No occurrence starts where the first two characters differ from the pattern's. */
  lemma {:induction false} NoOccurrenceAt(s: string, k: nat, pat: string)
    requires |pat| >= 2 && k + 1 < |s| && (s[k] != pat[0] || s[k + 1] != pat[1])
    ensures !OccursAt(s, k, pat)
  {
    if k + |pat| <= |s| {
      assert s[k..k + |pat|][0] == s[k];
      assert s[k..k + |pat|][1] == s[k + 1];
    }
  }

  /**
   * `re.sub(r'(\d+)\.\s+(\d+)', r'\1.\2', ...)` on a split decimal at the start of the text:
   * the whitespace after the point is dropped, the digits on both sides are kept, and the
   * substitution carries on after the second digit run.
   */
  lemma {:induction false} RejoinSplitDecimal(a: string, w: string, b: string, t: string)
    requires a != [] && AllDigits(a) && b != [] && AllDigits(b)
    requires w != [] && forall k :: 0 <= k < |w| ==> IsSpace(w[k])
    requires t == [] || !IsDigit(t[0])
    ensures RejoinSplitDecimals(a + "." + w + b + t) == a + "." + b + RejoinSplitDecimals(t)
  {
    var s := a + "." + w + b + t;
    var j := |a|;
    var k := j + 1 + |w|;
    var l := k + |b|;
    SplitDecimalShape(a, w, b, t);
    SplitDecimalAtIs(s, j, k, l);
    RejoinAtSplit(s, j, k, l);
  }

  /** One step of the substitution at a split decimal starting the text. */
  lemma {:induction false} RejoinAtSplit(s: string, j: nat, k: nat, l: nat)
    requires SplitDecimalAt(s) == Some((j, k, l))
    ensures RejoinSplitDecimals(s) == s[..j + 1] + s[k..l] + RejoinSplitDecimals(s[l..])
  {
  }

  /** Where the parts of a split decimal sit in the text, and what their characters are. */
  lemma {:induction false} SplitDecimalShape(a: string, w: string, b: string, t: string)
    requires a != [] && AllDigits(a) && b != [] && AllDigits(b)
    requires w != [] && forall k :: 0 <= k < |w| ==> IsSpace(w[k])
    requires t == [] || !IsDigit(t[0])
    ensures var s := a + "." + w + b + t;
            var k := |a| + 1 + |w|;
            && (forall m :: 0 <= m < |a| ==> IsDigit(s[m])) && s[|a|] == '.'
            && (forall m :: |a| + 1 <= m < k ==> IsSpace(s[m]))
            && (forall m :: k <= m < k + |b| ==> IsDigit(s[m]))
            && (k + |b| < |s| ==> !IsDigit(s[k + |b|]))
            && s[..|a| + 1] == a + "." && s[k..k + |b|] == b && s[k + |b|..] == t
  {
    var s := a + "." + w + b + t;
    var k := |a| + 1 + |w|;
    forall m | 0 <= m < |a|
      ensures IsDigit(s[m])
    {
      assert s[m] == a[m];
    }
    forall m | |a| + 1 <= m < k
      ensures IsSpace(s[m])
    {
      assert s[m] == w[m - (|a| + 1)];
    }
    forall m | k <= m < k + |b|
      ensures IsDigit(s[m])
    {
      assert s[m] == b[m - k];
    }
    if k + |b| < |s| {
      assert s[k + |b|] == t[0];
    }
    assert s[..|a| + 1] == a + ".";
    assert s[k..k + |b|] == b;
    assert s[k + |b|..] == t;
  }

  /** The split decimal at the start of `s` has its point at j and its second digit run at [k, l). */
  lemma {:induction false} SplitDecimalAtIs(s: string, j: nat, k: nat, l: nat)
    requires 0 < j && j + 1 < k < l <= |s|
    requires (forall m :: 0 <= m < j ==> IsDigit(s[m])) && s[j] == '.'
    requires forall m :: j + 1 <= m < k ==> IsSpace(s[m])
    requires (forall m :: k <= m < l ==> IsDigit(s[m])) && (l < |s| ==> !IsDigit(s[l]))
    ensures SplitDecimalAt(s) == Some((j, k, l))
  {
    DigitRunEndIs(s, 0, j);
    SpaceRunEndIs(s, j + 1, k);
    DigitRunEndIs(s, k, l);
  }

  /** No point followed by whitespace: the rejoining substitution changes nothing. */
  lemma {:induction false} RejoinWithoutSplit(s: string)
    requires forall k :: 0 <= k < |s| - 1 && s[k] == '.' ==> !IsSpace(s[k + 1])
    ensures RejoinSplitDecimals(s) == s
    decreases |s|
  {
    if s != [] {
      assert SplitDecimalAt(s).None?;
      RejoinWithoutSplit(s[1..]);
      assert s == [s[0]] + s[1..];
    }
  }
}
