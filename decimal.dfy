/**
 * Python's `float(s)` restricted to the strings the coordinate regexes can capture:
 * an optional sign, one or more ASCII digits, an optional point and more digits
 * (`[+-]?\d+\.?\d*`). Everything else is reported as a `ValueError` (None).
 */
module Decimal {
  import opened Wrappers

  predicate IsDigit(c: char) { '0' <= c <= '9' }

  predicate AllDigits(s: string) { forall k :: 0 <= k < |s| ==> IsDigit(s[k]) }

  function DigitValue(c: char): (d: nat)
    requires IsDigit(c)
    ensures d < 10
  {
    c as int - '0' as int
  }

  function Pow10(n: nat): (p: nat)
    ensures p >= 1
  {
    if n == 0 then 1 else 10 * Pow10(n - 1)
  }

  /** The value of a run of digits, most significant digit first; it has at most |s| digits. */
  function DigitsValue(s: string): (v: nat)
    requires AllDigits(s)
    ensures v < Pow10(|s|)
  {
    if s == [] then 0 else 10 * DigitsValue(s[..|s| - 1]) + DigitValue(s[|s| - 1])
  }

  /** Length of the longest run of digits at the start of `s`. */
  function DigitPrefix(s: string): (k: nat)
    ensures k <= |s| && AllDigits(s[..k])
    ensures k < |s| ==> !IsDigit(s[k])
  {
    if s == [] || !IsDigit(s[0]) then 0
    else
      var k := 1 + DigitPrefix(s[1..]);
      assert s[..k] == [s[0]] + s[1..][..k - 1];
      k
  }

  /** The digits after the point, as a fraction in [0, 1). */
  function FractionValue(f: string): (q: real)
    requires AllDigits(f)
    ensures 0.0 <= q < 1.0
  {
    FractionBelowOne(DigitsValue(f), Pow10(|f|));
    DigitsValue(f) as real / Pow10(|f|) as real
  }

  lemma {:induction false} FractionBelowOne(a: nat, b: nat)
    requires a < b
    ensures 0.0 <= a as real / b as real < 1.0
  {
  }

  /** The value of the integer digits at the start of `s`. */
  function IntegerValue(s: string): nat
  {
    DigitsValue(s[..DigitPrefix(s)])
  }

  /** `float()` of an unsigned literal `\d+\.?\d*`: integer digits plus the fraction after the point. */
  function ParseUnsigned(s: string): (r: Option<real>)
    ensures r.Some? ==> 0 < DigitPrefix(s)
    ensures r.Some? ==> IntegerValue(s) as real <= r.value < IntegerValue(s) as real + 1.0
  {
    var k := DigitPrefix(s);
    if k == 0 then None
    else if k == |s| then Some(IntegerValue(s) as real)
    else if s[k] == '.' && AllDigits(s[k + 1..]) then Some(IntegerValue(s) as real + FractionValue(s[k + 1..]))
    else None
  }

  /**
   * `float()` of a captured number: an optional sign, then an unsigned literal.
   * Only a leading '-' can make the value negative.
   */
  function ParseDecimal(s: string): (r: Option<real>)
    ensures r.Some? ==> s != [] && (IsDigit(s[0]) || s[0] == '+' || s[0] == '-')
    ensures r.Some? && s[0] == '-' ==> r.value <= 0.0
    ensures r.Some? && s[0] != '-' ==> 0.0 <= r.value
  {
    if s != [] && (s[0] == '+' || s[0] == '-') then
      match ParseUnsigned(s[1..])
      case None => None
      case Some(v) => Some(if s[0] == '-' then -v else v)
    else ParseUnsigned(s)
  }

  // ---------------------------------------------------------------------------------
  // Literals

  /** A leading '-' negates the unsigned value; a leading '+' keeps it; a bad rest fails. */
  lemma {:induction false} SignedLiteral(u: string)
    ensures ParseDecimal("-" + u) == (if ParseUnsigned(u).Some? then Some(-ParseUnsigned(u).value) else None)
    ensures ParseDecimal("+" + u) == ParseUnsigned(u)
  {
    assert ("-" + u)[1..] == u;
    assert ("+" + u)[1..] == u;
  }

  /** Without a sign, `float()` reads the literal as unsigned. */
  lemma {:induction false} UnsignedIsDecimal(u: string)
    requires u != [] && IsDigit(u[0])
    ensures ParseDecimal(u) == ParseUnsigned(u)
  {
  }

  /** `float()` of a digit run with no point is the integer it spells. */
  lemma {:induction false} IntegerLiteral(ip: string)
    requires ip != [] && AllDigits(ip)
    ensures ParseUnsigned(ip) == Some(DigitsValue(ip) as real)
    ensures ParseDecimal(ip) == Some(DigitsValue(ip) as real)
  {
    assert ip[..|ip|] == ip;
    DigitPrefixExact(ip, |ip|);
    UnsignedIsDecimal(ip);
  }

  /** `float()` of an unsigned literal with a point: the digits before it plus the fraction after it. */
  lemma {:induction false} UnsignedLiteral(ip: string, fp: string)
    requires ip != [] && AllDigits(ip) && AllDigits(fp)
    ensures ParseUnsigned(ip + "." + fp) == Some(DigitsValue(ip) as real + FractionValue(fp))
  {
    var u := ip + "." + fp;
    var k := |ip|;
    assert u[..k] == ip;
    assert u[k] == '.';
    DigitPrefixExact(u, k);
    assert u[k + 1..] == fp;
  }

  /** `float()` of a plain decimal literal `ip.fp`. */
  lemma {:induction false} DecimalLiteral(ip: string, fp: string)
    requires ip != [] && AllDigits(ip) && AllDigits(fp)
    ensures ParseDecimal(ip + "." + fp) == Some(DigitsValue(ip) as real + DigitsValue(fp) as real / Pow10(|fp|) as real)
  {
    var u := ip + "." + fp;
    UnsignedLiteral(ip, fp);
    assert u[0] == ip[0];
    UnsignedIsDecimal(u);
  }

  /** The digit run at the start of `u` is exactly `k` long. */
  lemma {:induction false} DigitPrefixExact(u: string, k: nat)
    requires k <= |u| && AllDigits(u[..k]) && (k < |u| ==> !IsDigit(u[k]))
    ensures DigitPrefix(u) == k
  {
    if k > 0 {
      assert u[1..][..k - 1] == u[1..k];
      assert forall j :: 0 <= j < k - 1 ==> u[1..k][j] == u[..k][j + 1];
      DigitPrefixExact(u[1..], k - 1);
    }
  }

  /** Prepending a digit adds it at the weight of the digits that follow. */
  lemma {:induction false} DigitsValuePrepend(d: char, t: string)
    requires IsDigit(d) && AllDigits(t)
    ensures AllDigits([d] + t)
    ensures DigitsValue([d] + t) == DigitValue(d) * Pow10(|t|) + DigitsValue(t)
  {
    var s := [d] + t;
    if t != [] {
      var t' := t[..|t| - 1];
      assert s[..|s| - 1] == [d] + t';
      DigitsValuePrepend(d, t');
      var a, p, v, l := DigitValue(d), Pow10(|t'|), DigitsValue(t'), DigitValue(t[|t| - 1]);
      assert DigitsValue(s) == 10 * (a * p + v) + l;
      assert DigitsValue(t) == 10 * v + l;
      assert Pow10(|t|) == 10 * p;
      ShiftDigit(a, p, v, l);
    }
  }

  lemma {:induction false} ShiftDigit(a: int, p: int, v: int, l: int)
    ensures 10 * (a * p + v) + l == a * (10 * p) + (10 * v + l)
  {
  }

  /** The integer part of `[e] + s[1..]` differs from that of `s` only in its leading digit. */
  lemma {:induction false} IntegerValueSwap(s: string, e: char)
    requires 0 < DigitPrefix(s) && IsDigit(e)
    ensures DigitPrefix([e] + s[1..]) == DigitPrefix(s)
    ensures IntegerValue([e] + s[1..]) + DigitValue(s[0]) * Pow10(DigitPrefix(s) - 1)
            == IntegerValue(s) + DigitValue(e) * Pow10(DigitPrefix(s) - 1)
  {
    var t := [e] + s[1..];
    var k := DigitPrefix(s);
    assert t[1..] == s[1..];
    assert DigitPrefix(t) == 1 + DigitPrefix(t[1..]);
    assert t[..k] == [e] + s[1..k];
    assert s[..k] == [s[0]] + s[1..k];
    assert AllDigits(s[1..k]) by {
      assert forall j :: 0 <= j < k - 1 ==> s[1..k][j] == s[..k][j + 1];
    }
    DigitsValuePrepend(e, s[1..k]);
    DigitsValuePrepend(s[0], s[1..k]);
  }

  /**
   * Replacing the leading digit `d` of an unsigned literal by `e` shifts its value by
   * (e - d) * 10^(k-1), where k is the number of integer digits; the fraction is untouched.
   */
  lemma {:induction false} LeadingDigitSwap(s: string, e: char)
    requires ParseUnsigned(s).Some? && IsDigit(e)
    ensures ParseUnsigned([e] + s[1..]).Some?
    ensures ParseUnsigned([e] + s[1..]).value - IntegerValue([e] + s[1..]) as real
            == ParseUnsigned(s).value - IntegerValue(s) as real
  {
    var t := [e] + s[1..];
    var k := DigitPrefix(s);
    IntegerValueSwap(s, e);
    if k < |s| {
      assert t[k] == s[k] && t[k + 1..] == s[k + 1..];
    }
  }
}
