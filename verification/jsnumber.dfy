/**
 * The two string-to-number conversions the code uses, restricted to decimal integers:
 * `Number(s)` (whole string, surrounding white space allowed, "" is 0) and
 * `parseInt(s, 10)` (longest digit prefix after white space and a sign).
 * `None` stands for `NaN`.
 */
module JsNumber {
  import opened Wrappers
  import opened Text

  /** A decimal integer literal with an optional sign. */
  predicate IsIntLiteral(t: string)
  {
    || (|t| >= 1 && AllDigits(t))
    || (|t| >= 2 && (t[0] == '+' || t[0] == '-') && AllDigits(t[1..]))
  }

  /** `!isNaN(Number(s))`: blank strings convert to 0, integer literals to their value. */
  predicate IsNumeric(s: string)
  {
    IsBlank(s) || IsIntLiteral(Trim(s))
  }

  /** `Number(s)` for a string. */
  function NumberOf(s: string): (r: Option<int>)
    ensures r.Some? <==> IsNumeric(s)
    ensures IsBlank(s) ==> r == Some(0)
  {
    var t := Trim(s);
    if t == [] then Some(0) else LiteralValue(t)
  }

  /** The value of a trimmed, non-empty string read as a whole as a signed decimal literal. */
  function LiteralValue(t: string): (r: Option<int>)
    ensures r.Some? <==> IsIntLiteral(t)
  {
    if |t| >= 1 && AllDigits(t) then Some(DigitsValue(t))
    else if |t| >= 2 && t[0] == '-' && AllDigits(t[1..]) then Some(-(DigitsValue(t[1..]) as int))
    else if |t| >= 2 && t[0] == '+' && AllDigits(t[1..]) then Some(DigitsValue(t[1..]))
    else None
  }

  /** `Number` reads back what `${n}` prints. */
  lemma NumberOfNatStr(n: nat)
    ensures NumberOf(NatStr(n)) == Some(n)
  {
    var s := NatStr(n);
    assert !IsSpace(s[0]) && !IsSpace(s[|s| - 1]);
  }

  /** The longest prefix of `s` made of digits. */
  function DigitPrefix(s: string): (p: string)
    ensures |p| <= |s| && p == s[..|p|] && AllDigits(p)
    ensures |p| == |s| || !IsDigit(s[|p|])
  {
    if s != [] && IsDigit(s[0]) then [s[0]] + DigitPrefix(s[1..]) else []
  }

  /** `parseInt(s, 10)`: leading white space is skipped, then the rest is read by `ParseSigned`. */
  function ParseInt(s: string): (r: Option<int>)
  {
    if s != [] && IsSpace(s[0]) then ParseInt(s[1..]) else ParseSigned(s)
  }

  /** Skipping the white space one character at a time is reading what `trimStart` leaves. */
  lemma {:induction false} ParseIntTrimStart(s: string)
    ensures ParseInt(s) == ParseSigned(TrimStart(s))
  {
    if s != [] && IsSpace(s[0]) {
      ParseIntTrimStart(s[1..]);
    }
  }

  /** `parseInt` after the leading white space: an optional sign, then the longest digit prefix. */
  function ParseSigned(t: string): (r: Option<int>)
  {
    var negative := t != [] && t[0] == '-';
    var u := if t != [] && (t[0] == '-' || t[0] == '+') then t[1..] else t;
    var d := DigitPrefix(u);
    if d == [] then None
    else if negative then Some(-(DigitsValue(d) as int))
    else Some(DigitsValue(d))
  }

  lemma {:induction false} DigitPrefixOf(d: string, rest: string)
    requires AllDigits(d)
    requires rest == [] || !IsDigit(rest[0])
    ensures DigitPrefix(d + rest) == d
  {
    if d == [] {
      assert d + rest == rest;
    } else {
      assert (d + rest)[1..] == d[1..] + rest;
      DigitPrefixOf(d[1..], rest);
    }
  }

  /** A literal followed by white space (or nothing) reads the same under both conversions. */
  lemma ParseSignedLiteral(r: string, tail: string)
    requires IsIntLiteral(r)
    requires tail == [] || IsSpace(tail[0])
    ensures ParseSigned(r + tail) == LiteralValue(r)
  {
    var t := r + tail;
    assert t[0] == r[0];
    if r[0] == '-' || r[0] == '+' {
      assert !AllDigits(r) by { assert !IsDigit(r[0]); }
      assert t[1..] == r[1..] + tail;
      DigitPrefixOf(r[1..], tail);
    } else {
      DigitPrefixOf(r, tail);
    }
  }

  /** What `trimEnd` removes is white space following what it keeps. */
  lemma TrimEndSplit(t: string)
    ensures t == TrimEnd(t) + t[|TrimEnd(t)|..]
    ensures IsBlank(t[|TrimEnd(t)|..])
  {
    var r := TrimEnd(t);
    assert t == t[..|r|] + t[|r|..];
  }

  /** On a decimal integer literal (with surrounding white space) `parseInt` and `Number` agree,
    * so the catalogue's range bounds and its normalised years and prices are on one scale. */
  lemma ParseIntAgreesWithNumber(s: string)
    requires IsIntLiteral(Trim(s))
    ensures ParseInt(s) == NumberOf(s)
  {
    var r := Trim(s);
    var t := TrimStart(s);
    assert r == TrimEnd(t);
    TrimEndSplit(t);
    var tail := t[|r|..];
    assert tail == [] || IsSpace(tail[0]);
    ParseSignedLiteral(r, tail);
    ParseIntTrimStart(s);
  }
}
