/**
 * The two Number conversions the product search relies on: the global
 * `parseInt(string, 10)` of ECMAScript (ECMA-262, 2022 edition, section
 * 19.2.5) and the decimal text of an integer Number (what `toString()` and a
 * template literal produce for it). Numbers are modelled as unbounded
 * integers, so the precision loss of `parseInt` above 2^53 is not modelled.
 */
module JsNumbers {
  import opened JsStrings

  /** A Number that `parseInt` can return: NaN, or an integer value. */
  datatype IntOrNaN = NaN | Int(value: int)

  /** The radix-10 digits. */
  predicate IsDigit(c: char) {
    '0' <= c <= '9'
  }

  predicate AllDigits(s: string) {
    forall i :: 0 <= i < |s| ==> IsDigit(s[i])
  }

  function DigitValue(c: char): (d: nat)
    requires IsDigit(c)
    ensures d < 10
  {
    c as int - '0' as int
  }

  function DigitChar(d: nat): (c: char)
    requires d < 10
    ensures IsDigit(c) && DigitValue(c) == d
  {
    ('0' as int + d) as char
  }

  /** The value of a run of decimal digits, most significant digit first. */
  function DigitsValue(ds: string): nat
    requires AllDigits(ds)
  {
    if ds == [] then 0 else 10 * DigitsValue(ds[..|ds| - 1]) + DigitValue(ds[|ds| - 1])
  }

  /**
   * parseInt(s, 10): skip leading white space, then read a signed decimal
   * integer. A "-0" result is the integer 0 here.
   */
  function ParseInt(s: string): IntOrNaN {
    ParseSigned(TrimStart(s))
  }

  /**
   * One optional sign, then the longest run of decimal digits; NaN when that
   * run is empty.
   */
  function ParseSigned(t: string): IntOrNaN {
    var sign := if t != [] && t[0] == '-' then -1 else 1;
    var u := if t != [] && (t[0] == '+' || t[0] == '-') then t[1..] else t;
    var z := u[..LeadingRun(u, IsDigit)];
    if z == [] then NaN else Int(sign * DigitsValue(z))
  }

  /** The decimal text of a natural number, without leading zeros. */
  function NaturalToString(n: nat): (r: string)
    ensures r != [] && AllDigits(r)
    ensures r[0] == '0' ==> n == 0 && r == "0"
  {
    if n < 10 then [DigitChar(n)] else NaturalToString(n / 10) + [DigitChar(n % 10)]
  }

  /**
   * The decimal text of an integer Number, as `toString` writes it for
   * magnitudes below 10^21: a '-' exactly when it is negative, then the
   * digits of its magnitude without leading zeros.
   */
  function NumberToString(n: int): (r: string)
    ensures r != [] && !IsWhiteSpace(r[0])
    ensures r[0] == '-' <==> n < 0
    ensures var digits := if n < 0 then r[1..] else r;
      && digits != [] && AllDigits(digits)
      && DigitsValue(digits) == (if n < 0 then -n else n)
      && (digits[0] == '0' ==> digits == "0")
  {
    if n < 0 then
      var ds := NaturalToString(-n);
      DigitsValueOfNaturalToString(-n);
      assert ("-" + ds)[1..] == ds;
      "-" + ds
    else
      DigitsValueOfNaturalToString(n);
      NaturalToString(n)
  }

  /** Reading back the digits of a natural number gives the number. */
  lemma {:induction false} DigitsValueOfNaturalToString(n: nat)
    ensures DigitsValue(NaturalToString(n)) == n
  {
    if n >= 10 {
      var r := NaturalToString(n);
      assert r[..|r| - 1] == NaturalToString(n / 10);
      DigitsValueOfNaturalToString(n / 10);
    }
  }

  /** Leading white-space characters are skipped. */
  lemma TrimStartSkipsWhiteSpace(w: string, s: string)
    requires forall i :: 0 <= i < |w| ==> IsWhiteSpace(w[i])
    requires s == [] || !IsWhiteSpace(s[0])
    ensures TrimStart(w + s) == s
  {
    LeadingRunIs(w + s, IsWhiteSpace, |w|);
    assert (w + s)[|w|..] == s;
  }

  /** A run of digits followed by anything that does not start with a digit is read up to its end. */
  lemma DigitRun(ds: string, rest: string)
    requires AllDigits(ds)
    requires rest == [] || !IsDigit(rest[0])
    ensures LeadingRun(ds + rest, IsDigit) == |ds| && (ds + rest)[..|ds|] == ds
  {
    LeadingRunIs(ds + rest, IsDigit, |ds|);
  }

  /** The signed-integer step: an optional sign and a non-empty digit run read as their signed value. */
  lemma ParseSignedDigits(t: string, sign: string, ds: string, rest: string)
    requires t == sign + ds + rest
    requires sign == "" || sign == "+" || sign == "-"
    requires ds != [] && AllDigits(ds)
    requires rest == [] || !IsDigit(rest[0])
    ensures ParseSigned(t) == Int((if sign == "-" then -1 else 1) * DigitsValue(ds))
  {
    var u := ds + rest;
    if sign == "" {
      assert t == u;
      UnsignedDigits(u, ds, rest);
    } else {
      assert t == [sign[0]] + u;
      SignedDigits(t, u, ds, rest);
    }
  }

  /** Without a sign, the digit run is read as it is. */
  lemma UnsignedDigits(u: string, ds: string, rest: string)
    requires u == ds + rest
    requires ds != [] && AllDigits(ds)
    requires rest == [] || !IsDigit(rest[0])
    ensures ParseSigned(u) == Int(DigitsValue(ds))
  {
    assert u[0] == ds[0];
    DigitRun(ds, rest);
  }

  /** After a '+' or '-', the digit run is read with that sign. */
  lemma SignedDigits(t: string, u: string, ds: string, rest: string)
    requires |t| > 0 && (t[0] == '+' || t[0] == '-') && t[1..] == u
    requires u == ds + rest
    requires ds != [] && AllDigits(ds)
    requires rest == [] || !IsDigit(rest[0])
    ensures ParseSigned(t) == Int((if t[0] == '-' then -1 else 1) * DigitsValue(ds))
  {
    DigitRun(ds, rest);
  }

  /**
   * parseInt in general: white space, an optional sign, a non-empty run of
   * digits (leading zeros allowed, as in "007" or "+5"), then anything that
   * does not start with a digit, reads as the signed value of the digits.
   */
  lemma ParseIntDigits(s: string, w: string, sign: string, ds: string, rest: string)
    requires s == w + (sign + ds) + rest
    requires forall i :: 0 <= i < |w| ==> IsWhiteSpace(w[i])
    requires sign == "" || sign == "+" || sign == "-"
    requires ds != [] && AllDigits(ds)
    requires rest == [] || !IsDigit(rest[0])
    ensures ParseInt(s) == Int((if sign == "-" then -1 else 1) * DigitsValue(ds))
  {
    var t := sign + ds + rest;
    assert s == w + t;
    assert t[0] == if sign == "" then ds[0] else sign[0];
    TrimStartSkipsWhiteSpace(w, t);
    ParseSignedDigits(t, sign, ds, rest);
  }

  /**
   * parseInt reads back the decimal text of any integer, whatever white space
   * precedes it and whatever follows it that does not start with a digit:
   * "  42", "-7", "3.9" (3), "1e3" (1), "12px" (12). `s` is that text.
   */
  lemma ParseIntReadsNumber(s: string, w: string, n: int, rest: string)
    requires s == w + NumberToString(n) + rest
    requires forall i :: 0 <= i < |w| ==> IsWhiteSpace(w[i])
    requires rest == [] || !IsDigit(rest[0])
    ensures ParseInt(s) == Int(n)
  {
    var m: nat := if n < 0 then -n else n;
    var sign := if n < 0 then "-" else "";
    var ds := NaturalToString(m);
    assert NumberToString(n) == sign + ds;
    DigitsValueOfNaturalToString(m);
    ParseIntDigits(s, w, sign, ds, rest);
  }

  /** The decimal text of an integer parses back to it. */
  lemma ParseIntOfNumberToString(n: int)
    ensures ParseInt(NumberToString(n)) == Int(n)
  {
    var m: nat := if n < 0 then -n else n;
    var sign := if n < 0 then "-" else "";
    var ds := NaturalToString(m);
    assert NumberToString(n) == sign + ds == "" + (sign + ds) + "";
    DigitsValueOfNaturalToString(m);
    ParseIntDigits(NumberToString(n), "", sign, ds, "");
  }

  /** Text with no digit after the white space and the optional sign is NaN. */
  lemma ParseIntNoDigits(w: string, sign: string, rest: string)
    requires forall i :: 0 <= i < |w| ==> IsWhiteSpace(w[i])
    requires sign == "" || sign == "+" || sign == "-"
    requires rest == [] || (!IsDigit(rest[0]) && (sign == "" ==> rest[0] != '+' && rest[0] != '-' && !IsWhiteSpace(rest[0])))
    ensures ParseInt(w + (sign + rest)) == NaN
  {
    var x := sign + rest;
    assert x == [] || !IsWhiteSpace(x[0]);
    TrimStartSkipsWhiteSpace(w, x);
    ParseSignedNoDigits(x, sign, rest);
  }

  /** The signed-integer step finds no digit after the optional sign. */
  lemma ParseSignedNoDigits(x: string, sign: string, rest: string)
    requires x == sign + rest
    requires sign == "" || sign == "+" || sign == "-"
    requires rest == [] || (!IsDigit(rest[0]) && (sign == "" ==> rest[0] != '+' && rest[0] != '-'))
    ensures ParseSigned(x) == NaN
  {
    LeadingRunIs(rest, IsDigit, 0);
    if sign != "" {
      assert x[1..] == rest;
    }
  }

}
