/**
 * Python's `float(str)` for decimal literals, `int(str)` for decimal
 * integer literals, and `int(x)` on a float.
 * Literals `inf`, `infinity`, `nan` and digit-group underscores are not
 * accepted here (see README, "Left out").
 */
module PyFloat {
  import opened Errors
  import opened Strings

  predicate AllDigits(s: string)
  {
    forall i :: 0 <= i < |s| ==> IsDigit(s[i])
  }

  function Pow10(n: nat): (p: nat)
    ensures p >= 1
  {
    if n == 0 then 1 else 10 * Pow10(n - 1)
  }

  /** The number a string of decimal digits denotes. */
  function DigitsValue(s: string): nat
    requires AllDigits(s)
  {
    if s == [] then 0 else 10 * DigitsValue(s[..|s| - 1]) + (s[|s| - 1] as int - '0' as int)
  }

  /** `digits`, `digits.`, `.digits` or `digits.digits`. */
  function ParseMantissa(s: string): Option<real>
  {
    var d := IndexOf(s, '.');
    if d == |s| then
      if s != [] && AllDigits(s) then Some(DigitsValue(s) as real) else None
    else
      var ip, fp := s[..d], s[d + 1..];
      if AllDigits(ip) && AllDigits(fp) && |ip| + |fp| > 0
      then Some(DigitsValue(ip) as real + DigitsValue(fp) as real / Pow10(|fp|) as real)
      else None
  }

  /** An optionally signed, non-empty run of digits. */
  function ParseExponent(s: string): Option<int>
  {
    if s != [] && (s[0] == '+' || s[0] == '-') then
      var t := s[1..];
      if t != [] && AllDigits(t) then Some(if s[0] == '-' then -(DigitsValue(t) as int) else DigitsValue(t) as int) else None
    else if s != [] && AllDigits(s) then Some(DigitsValue(s))
    else None
  }

  function Scale(v: real, e: int): real
  {
    if e >= 0 then v * Pow10(e) as real else v / Pow10(-e) as real
  }

  function IndexOfExponent(s: string): (k: nat)
    ensures k <= |s|
  {
    var a, b := IndexOf(s, 'e'), IndexOf(s, 'E');
    if a < b then a else b
  }

  function ParseUnsigned(s: string): Option<real>
  {
    var k := IndexOfExponent(s);
    if k == |s| then ParseMantissa(s)
    else
      match (ParseMantissa(s[..k]), ParseExponent(s[k + 1..]))
      case (Some(m), Some(e)) => Some(Scale(m, e))
      case _ => None
  }

  /** `float(s)`, `None` where Python raises `ValueError`. */
  function ParseFloat(s: string): Option<real>
  {
    var t := Strip(s);
    if t != [] && (t[0] == '-' || t[0] == '+') then
      match ParseUnsigned(t[1..])
      case Some(v) => Some(if t[0] == '-' then -v else v)
      case None => None
    else ParseUnsigned(t)
  }

  /** `int(s)` in base 10, `None` where Python raises `ValueError`. */
  function ParseInt(s: string): Option<int>
  {
    var t := Strip(s);
    if t != [] && (t[0] == '-' || t[0] == '+') then
      var d := t[1..];
      if d != [] && AllDigits(d) then Some(if t[0] == '-' then -(DigitsValue(d) as int) else DigitsValue(d) as int)
      else None
    else if t != [] && AllDigits(t) then Some(DigitsValue(t) as int)
    else None
  }

  /** `int(x)`: truncation toward zero. */
  function Trunc(x: real): (i: int)
    ensures x >= 0.0 ==> i as real <= x < i as real + 1.0
    ensures x < 0.0 ==> i as real - 1.0 < x <= i as real
  {
    if x >= 0.0 then x.Floor else -((-x).Floor)
  }

  lemma {:induction false} DigitsValueOfNat(n: nat)
    ensures AllDigits(NatToString(n)) && DigitsValue(NatToString(n)) == n
    decreases n
  {
    var s := NatToString(n);
    if n >= 10 {
      DigitsValueOfNat(n / 10);
      assert s[..|s| - 1] == NatToString(n / 10);
    }
  }

  lemma StripPlainDigits(s: string)
    requires s != [] && AllDigits(s)
    ensures Strip(s) == s
  {
  }

  /** `float(str(n)) == n` for every natural number. */
  lemma ParseNatToString(n: nat)
    ensures ParseFloat(NatToString(n)) == Some(n as real)
  {
    var s := NatToString(n);
    DigitsValueOfNat(n);
    StripPlainDigits(s);
    assert IndexOf(s, 'e') == |s| && IndexOf(s, 'E') == |s| && IndexOf(s, '.') == |s| by {
      forall i | 0 <= i < |s| ensures s[i] != 'e' && s[i] != 'E' && s[i] != '.' {
        assert IsDigit(s[i]);
      }
    }
  }

  /** `int(str(i)) == i` for every integer. */
  lemma ParseIntToString(i: int)
    ensures ParseInt(IntToString(i)) == Some(i)
  {
    var n: nat := if i < 0 then -i else i;
    var d := NatToString(n);
    DigitsValueOfNat(n);
    if i < 0 {
      var s := "-" + d;
      assert s[1..] == d;
      assert IsDigit(d[|d| - 1]) && s[|s| - 1] == d[|d| - 1];
      assert Strip(s) == s;
    } else {
      StripPlainDigits(d);
    }
  }

  /** A parsed literal contains at least one digit. */
  lemma ParsedHasDigit(s: string)
    requires ParseMantissa(s).Some?
    ensures exists i :: 0 <= i < |s| && IsDigit(s[i])
  {
    var d := IndexOf(s, '.');
    if d == |s| {
      assert IsDigit(s[0]);
    } else if d > 0 {
      assert IsDigit(s[..d][0]);
    } else {
      assert IsDigit(s[d + 1..][0]);
      assert s[d + 1] == s[d + 1..][0];
    }
  }

  lemma Parse54() ensures ParseFloat("54.0") == Some(54.0)
  {
    Unpadded54();
    Mantissa54();
    assert ParseUnsigned("54.0") == ParseMantissa("54.0");
  }

  lemma Unpadded54() ensures Strip("54.0") == "54.0" && IndexOfExponent("54.0") == 4
  {
    assert IndexOf("54.0", 'e') == 4 && IndexOf("54.0", 'E') == 4;
  }

  lemma Mantissa54() ensures ParseMantissa("54.0") == Some(54.0)
  {
    assert IndexOf("54.0", '.') == 2;
    assert "54.0"[..2] == "54" && "54.0"[3..] == "0";
    assert DigitsValue("54") == 54 by { assert "54"[..1] == "5"; }
    assert DigitsValue("0") == 0 by { assert "0"[..0] == []; }
  }

  /** A run of digits followed by `.xlsx` is not a float literal. */
  lemma DigitsWithSuffixRejected(d: string)
    requires d != [] && AllDigits(d)
    ensures ParseFloat(d + ".xlsx") == None
  {
    var s := d + ".xlsx";
    assert s[0] == d[0] && IsDigit(s[0]);
    assert Strip(s) == s;
    assert forall i :: 0 <= i < |s| ==> s[i] != 'e' && s[i] != 'E' by {
      forall i | 0 <= i < |s| ensures s[i] != 'e' && s[i] != 'E' {
        if i < |d| { assert s[i] == d[i] && IsDigit(d[i]); }
      }
    }
    assert forall i :: 0 <= i < |d| ==> s[i] != '.' by {
      forall i | 0 <= i < |d| ensures s[i] != '.' { assert s[i] == d[i] && IsDigit(d[i]); }
    }
    assert s[|d|] == '.';
    assert IndexOf(s, '.') == |d|;
    assert s[|d| + 1..] == "xlsx";
    assert !IsDigit("xlsx"[0]);
  }
}
