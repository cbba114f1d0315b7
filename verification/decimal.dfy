/** Decimal numbers in text: JavaScript's `parseInt(v, 10)` and the rendering
    of an integer inside a template literal. Both are modelled on unbounded
    integers; IEEE-754 rounding above 2^53 and overflow to Infinity are not
    part of this model. */
module Decimal {
  import opened Wrappers
  import opened Text

  predicate IsDigit(c: char) {
    '0' <= c <= '9'
  }

  predicate AllDigits(s: string) {
    forall i :: 0 <= i < |s| ==> IsDigit(s[i])
  }

  function DigitValue(c: char): nat
    requires IsDigit(c)
  {
    c as int - '0' as int
  }

  function DigitChar(d: nat): (c: char)
    requires d < 10
    ensures IsDigit(c) && DigitValue(c) == d
  {
    ('0' as int + d) as char
  }

  /** The value of a string of decimal digits, most significant digit first. */
  function DigitsValue(ds: string): nat
    requires AllDigits(ds)
    decreases |ds|
  {
    if |ds| == 0 then 0
    else DigitsValue(ds[..|ds| - 1]) * 10 + DigitValue(ds[|ds| - 1])
  }

  /** `String(n)` for a non-negative integer: its digits with no leading zero. */
  function NatToString(n: nat): (r: string)
    ensures |r| >= 1 && AllDigits(r)
    ensures DigitsValue(r) == n
    ensures r[0] == '0' ==> n == 0 && |r| == 1
    decreases n
  {
    if n < 10 then
      var r := [DigitChar(n)];
      assert r[..0] == [];
      r
    else
      var hi := NatToString(n / 10);
      var r := hi + [DigitChar(n % 10)];
      assert r[..|r| - 1] == hi;
      r
  }

  /** `String(i)` for any integer: a minus sign before the digits of a
      negative value. */
  function IntToString(i: int): (r: string)
    ensures |r| >= 1
    ensures r[0] == '-' <==> i < 0
    ensures i >= 0 ==> AllDigits(r) && DigitsValue(r) == i
    ensures i < 0 ==> AllDigits(r[1..]) && |r| >= 2 && DigitsValue(r[1..]) == -i
  {
    if i < 0 then "-" + NatToString(-i) else NatToString(i)
  }

  /** The longest prefix of `s` made of decimal digits. */
  function DigitPrefix(s: string): (r: string)
    ensures r <= s && AllDigits(r)
    ensures |r| < |s| ==> !IsDigit(s[|r|])
  {
    if |s| > 0 && IsDigit(s[0]) then [s[0]] + DigitPrefix(s[1..]) else []
  }

  /** `parseInt(v, 10)`: leading whitespace is skipped, one optional sign is
      read, then the longest run of decimal digits; with no digit the result
      is NaN, here None. */
  function ParseInt(s: string): (r: Option<int>)
    ensures r.Some? ==> exists i :: 0 <= i < |s| && IsDigit(s[i])
    ensures |s| > 0 && IsDigit(s[0]) ==> r.Some? && r.value >= 0
    ensures |s| > 1 && s[0] == '-' && IsDigit(s[1]) ==> r.Some? && r.value <= 0
    ensures r.Some? <==> var t := TrimStart(s);
                         || (|t| > 0 && IsDigit(t[0]))
                         || (|t| > 1 && (t[0] == '-' || t[0] == '+') && IsDigit(t[1]))
  {
    var t := TrimStart(s);
    var r := ParseSigned(t);
    assert r.Some? ==> var k := if IsDigit(t[0]) then 0 else 1; IsDigit(t[k]) && t[k] == s[|s| - |t| + k];
    r
  }

  /** `parseInt` after the whitespace: an optional sign, then digits. It is a
      number exactly when a digit comes first or right after the sign, and it
      is negative only after a minus sign. */
  function ParseSigned(t: string): (r: Option<int>)
    ensures r.Some? <==> || (|t| > 0 && IsDigit(t[0]))
                         || (|t| > 1 && (t[0] == '-' || t[0] == '+') && IsDigit(t[1]))
    ensures r.Some? && r.value < 0 ==> t[0] == '-'
  {
    var negative := |t| > 0 && t[0] == '-';
    var unsigned := if |t| > 0 && (t[0] == '-' || t[0] == '+') then t[1..] else t;
    var ds := DigitPrefix(unsigned);
    if |ds| == 0 then None
    else if negative then Some(-(DigitsValue(ds) as int))
    else Some(DigitsValue(ds))
  }

  lemma TrimStartStops(ws: string, t: string)
    requires IsBlank(ws)
    requires |t| > 0 && !IsJsWhitespace(t[0])
    ensures TrimStart(ws + t) == t
    decreases |ws|
  {
    if |ws| > 0 {
      assert (ws + t)[1..] == ws[1..] + t;
      TrimStartStops(ws[1..], t);
    } else {
      assert ws + t == t;
    }
  }

  lemma {:induction false} DigitPrefixOfDigits(ds: string, rest: string)
    requires AllDigits(ds)
    requires |rest| == 0 || !IsDigit(rest[0])
    ensures DigitPrefix(ds + rest) == ds
    decreases |ds|
  {
    var s := ds + rest;
    if |ds| > 0 {
      assert s[0] == ds[0] && IsDigit(s[0]);
      assert s[1..] == ds[1..] + rest;
      assert AllDigits(ds[1..]) by {
        forall i | 0 <= i < |ds[1..]|
          ensures IsDigit(ds[1..][i])
        {
          assert ds[1..][i] == ds[i + 1];
        }
      }
      DigitPrefixOfDigits(ds[1..], rest);
      assert DigitPrefix(s) == [s[0]] + DigitPrefix(s[1..]);
      assert [ds[0]] + ds[1..] == ds;
    } else {
      assert s == rest;
    }
  }

  /** Round trip between `String(n)` and `parseInt`: any integer written in
      decimal, after any leading whitespace and before any text that does not
      start with a digit, is read back as itself. */
  lemma {:induction false} ParseIntRoundTrip(ws: string, n: int, rest: string)
    requires IsBlank(ws)
    requires |rest| == 0 || !IsDigit(rest[0])
    ensures ParseInt(ws + IntToString(n) + rest) == Some(n)
  {
    var r := IntToString(n);
    assert ws + r + rest == ws + (r + rest);
    TrimStartStops(ws, r + rest);
    if n < 0 {
      ParseSignedNegative(-n, rest);
    } else {
      ParseSignedNatural(n, rest);
    }
  }

  /** A rendered natural number, followed by text that does not start with a
      digit, is read back as itself. */
  lemma ParseSignedNatural(n: nat, rest: string)
    requires |rest| == 0 || !IsDigit(rest[0])
    ensures ParseSigned(IntToString(n) + rest) == Some(n)
  {
    var r := NatToString(n);
    var t := r + rest;
    assert t[0] == r[0] && IsDigit(r[0]);
    DigitPrefixOfDigits(r, rest);
  }

  /** A rendered negative number, followed by text that does not start with a
      digit, is read back as itself. */
  lemma ParseSignedNegative(m: nat, rest: string)
    requires m > 0
    requires |rest| == 0 || !IsDigit(rest[0])
    ensures ParseSigned(IntToString(-(m as int)) + rest) == Some(-(m as int))
  {
    var r := NatToString(m);
    var t := "-" + r + rest;
    assert IntToString(-(m as int)) == "-" + r;
    assert t[0] == '-';
    assert t[1..] == r + rest;
    DigitPrefixOfDigits(r, rest);
  }

  /** `parseInt` reads its number from text of the shape it accepts: any
      leading whitespace, at most one sign, a run of digits, then text that
      does not start with a digit. The value is that of the digits, negated
      after a minus sign; leading zeros and a plus sign change nothing. */
  lemma ParseIntSignedDigits(ws: string, sign: string, ds: string, rest: string)
    requires IsBlank(ws)
    requires |sign| <= 1 && (|sign| == 1 ==> sign[0] == '-' || sign[0] == '+')
    requires |ds| > 0 && AllDigits(ds)
    requires |rest| == 0 || !IsDigit(rest[0])
    ensures ParseInt(ws + sign + ds + rest)
            == Some(if |sign| == 1 && sign[0] == '-' then -(DigitsValue(ds) as int) else DigitsValue(ds))
  {
    var t := sign + ds + rest;
    Regroup(ws, sign, ds, rest);
    SignedDigitsStart(sign, ds, rest);
    TrimStartStops(ws, t);
    ParseIntAfterWhitespace(ws + t, t);
    ParseSignedDigits(sign, ds, rest);
  }

  /** A sign or a digit comes first, which is not whitespace. */
  lemma SignedDigitsStart(sign: string, ds: string, rest: string)
    requires |sign| <= 1 && (|sign| == 1 ==> sign[0] == '-' || sign[0] == '+')
    requires |ds| > 0 && IsDigit(ds[0])
    ensures |sign + ds + rest| > 0 && !IsJsWhitespace((sign + ds + rest)[0])
  {
    assert (sign + ds + rest)[0] == (if |sign| > 0 then sign[0] else ds[0]);
  }

  lemma Regroup(a: string, b: string, c: string, d: string)
    ensures a + b + c + d == a + (b + c + d)
  {
  }

  /** ParseInt reads on from where the whitespace ends. */
  lemma ParseIntAfterWhitespace(s: string, t: string)
    requires TrimStart(s) == t
    ensures ParseInt(s) == ParseSigned(t)
  {
  }

  /** The signed part of ParseIntSignedDigits. */
  lemma ParseSignedDigits(sign: string, ds: string, rest: string)
    requires |sign| <= 1 && (|sign| == 1 ==> sign[0] == '-' || sign[0] == '+')
    requires |ds| > 0 && AllDigits(ds)
    requires |rest| == 0 || !IsDigit(rest[0])
    ensures ParseSigned(sign + ds + rest)
            == Some(if |sign| == 1 && sign[0] == '-' then -(DigitsValue(ds) as int) else DigitsValue(ds))
  {
    var t := sign + ds + rest;
    assert |t| > 0 && (t[0] == '-' <==> |sign| == 1 && sign[0] == '-');
    DigitsAfterSign(sign, ds, rest);
    ParseSignedReads(t, ds);
  }

  /** After at most one sign, the digits read are exactly `ds`. */
  lemma DigitsAfterSign(sign: string, ds: string, rest: string)
    requires |sign| <= 1 && (|sign| == 1 ==> sign[0] == '-' || sign[0] == '+')
    requires |ds| > 0 && AllDigits(ds)
    requires |rest| == 0 || !IsDigit(rest[0])
    ensures var t := sign + ds + rest;
            DigitPrefix(if |t| > 0 && (t[0] == '-' || t[0] == '+') then t[1..] else t) == ds
  {
    var t := sign + ds + rest;
    var u := ds + rest;
    DigitPrefixOfDigits(ds, rest);
    if |sign| > 0 {
      assert t[1..] == u;
    } else {
      assert t == u && IsDigit(u[0]);
    }
  }

  /** ParseSigned in terms of the digits it reads after the sign. */
  lemma ParseSignedReads(t: string, ds: string)
    requires |ds| > 0
    requires DigitPrefix(if |t| > 0 && (t[0] == '-' || t[0] == '+') then t[1..] else t) == ds
    ensures ParseSigned(t) == Some(if t[0] == '-' then -(DigitsValue(ds) as int) else DigitsValue(ds))
  {
  }

  /** Leading zeros and a plus sign: " +007" reads as 7. */
  lemma ParseIntPlusLeadingZeros()
    ensures ParseInt(" +007") == Some(7)
  {
    var ds := "007";
    assert AllDigits(ds);
    assert DigitsValue("0") == 0 by { assert "0"[..0] == ""; }
    assert DigitsValue("00") == 0 by { assert "00"[..1] == "0"; }
    assert DigitsValue(ds) == 7 by { assert ds[..2] == "00"; }
    assert " " + "+" + ds + "" == " +007";
    ParseIntSignedDigits(" ", "+", ds, "");
  }

  /** A hexadecimal prefix is not read: "-0x1" reads as 0. */
  lemma ParseIntStopsAtHexPrefix()
    ensures ParseInt("-0x1") == Some(0)
  {
    assert DigitsValue("0") == 0 by { assert "0"[..0] == ""; }
    assert "" + "-" + "0" + "x1" == "-0x1";
    ParseIntSignedDigits("", "-", "0", "x1");
  }

  /** Text without any decimal digit is not a number. */
  lemma ParseIntNoDigits(s: string)
    requires forall i :: 0 <= i < |s| ==> !IsDigit(s[i])
    ensures ParseInt(s) == None
  {
  }

  /** Distinct integers render differently. */
  lemma IntToStringInjective(a: int, b: int)
    requires IntToString(a) == IntToString(b)
    ensures a == b
  {
    ParseIntRoundTrip([], a, []);
    ParseIntRoundTrip([], b, []);
    assert [] + IntToString(a) + [] == IntToString(a);
    assert [] + IntToString(b) + [] == IntToString(b);
  }
}
