/** The decimal subset of JavaScript's `parseInt` and `parseFloat`, as the
    search endpoint applies them to query-string values.

    Both skip leading white space, read an optional sign and then the
    longest numeric prefix, ignoring whatever follows it. Where JavaScript
    would produce NaN (no digits at all) the result is `None`; so it is for
    the forms this model does not cover: a hexadecimal `0x` prefix for
    `parseInt`, and `Infinity` for `parseFloat`. An exponent is read only
    when a digit follows the `e` and its sign. */
module NumberParse {
  import opened Wrappers

  predicate IsDigit(c: char) {
    '0' <= c <= '9'
  }

  predicate AllDigits(s: string) {
    forall i :: 0 <= i < |s| ==> IsDigit(s[i])
  }

  function DigitValue(c: char): (d: nat)
    requires IsDigit(c)
    ensures d < 10
  {
    (c as int) - ('0' as int)
  }

  function DigitChar(d: nat): (c: char)
    requires d < 10
    ensures IsDigit(c) && DigitValue(c) == d
  {
    (('0' as int) + d) as char
  }

  /** The value of a string of decimal digits, most significant first. */
  function DigitsValue(s: string): nat
    requires AllDigits(s)
  {
    if s == [] then 0 else DigitsValue(s[..|s| - 1]) * 10 + DigitValue(s[|s| - 1])
  }

  function Pow10(n: nat): (p: nat)
    ensures p >= 1
  {
    if n == 0 then 1 else 10 * Pow10(n - 1)
  }

  /** The white space `parseInt` and `parseFloat` skip: the ASCII blanks
      and line breaks, no-break space, byte-order mark and the Unicode line
      and paragraph separators. */
  predicate IsJsSpace(c: char) {
    || c == ' ' || c == '\t' || c == '\n' || c == '\r' || c == '\U{B}' || c == '\U{C}'
    || c == '\U{A0}' || c == '\U{FEFF}' || c == '\U{2028}' || c == '\U{2029}'
  }

  function TrimStart(s: string): (t: string)
    ensures |t| <= |s| && t == s[|s| - |t|..]
    ensures forall i :: 0 <= i < |s| - |t| ==> IsJsSpace(s[i])
    ensures t == [] || !IsJsSpace(t[0])
  {
    if s != [] && IsJsSpace(s[0]) then TrimStart(s[1..]) else s
  }

  /** The length of the run of digits that `s` starts with. */
  function DigitRun(s: string): (n: nat)
    ensures n <= |s|
    ensures AllDigits(s[..n])
    ensures n == |s| || !IsDigit(s[n])
  {
    if s != [] && IsDigit(s[0]) then
      var n := 1 + DigitRun(s[1..]);
      assert s[..n] == [s[0]] + s[1..][..n - 1];
      n
    else 0
  }

  /** A leading sign, split off. */
  datatype Signed = Signed(negative: bool, digits: string)

  function SplitSign(s: string): (r: Signed)
    ensures r.digits == if s != [] && (s[0] == '-' || s[0] == '+') then s[1..] else s
    ensures r.negative <==> s != [] && s[0] == '-'
  {
    if s != [] && s[0] == '-' then Signed(true, s[1..])
    else if s != [] && s[0] == '+' then Signed(false, s[1..])
    else Signed(false, s)
  }

  function Negate(negative: bool, x: real): real {
    if negative then -x else x
  }

  function NegateInt(negative: bool, x: int): int {
    if negative then -x else x
  }

  /** Whether the text after the sign is a `0x`/`0X` hexadecimal prefix. */
  predicate HexPrefix(s: string) {
    |s| >= 2 && s[0] == '0' && (s[1] == 'x' || s[1] == 'X')
  }

  /** `parseInt(s)` with no radix. It gives a number exactly when, after
      white space and a sign, the text starts with a decimal digit and is
      not a hexadecimal prefix. */
  function ParseInt(s: string): (r: Option<int>)
    ensures r.Some? <==> var u := SplitSign(TrimStart(s)).digits;
                          u != [] && IsDigit(u[0]) && !HexPrefix(u)
  {
    var u := SplitSign(TrimStart(s));
    var n := DigitRun(u.digits);
    if HexPrefix(u.digits) || n == 0 then None
    else
      Some(NegateInt(u.negative, DigitsValue(u.digits[..n])))
  }

  /** The text after the integer digits: a fraction when it starts with a
      point, and what follows the fraction. */
  datatype Tail = Tail(fraction: string, rest: string)

  function SplitFraction(s: string): (t: Tail)
    ensures AllDigits(t.fraction)
  {
    if s != [] && s[0] == '.' then
      var k := DigitRun(s[1..]);
      Tail(s[1..][..k], s[1..][k..])
    else Tail([], s)
  }

  /** The value of the decimal `whole.fraction`. */
  function DecimalValue(whole: string, fraction: string): real
    requires AllDigits(whole) && AllDigits(fraction)
  {
    DigitsValue(whole) as real + DigitsValue(fraction) as real / Pow10(|fraction|) as real
  }

  /** An exponent part: `e` or `E`, an optional sign and its digits, and
      the text after them. */
  datatype Exponent = Exponent(negative: bool, digits: string, rest: string)

  /** The exponent part `s` starts with, if any. A marker with no digit
      after it (and its sign) is not an exponent and is left unread. */
  function ScanExponent(s: string): (e: Option<Exponent>)
    ensures e.Some? ==> |e.value.digits| >= 1 && AllDigits(e.value.digits)
    ensures e.Some? ==> e.value.rest == [] || !IsDigit(e.value.rest[0])
    ensures e.Some? ==> |s| >= 2 && (s[0] == 'e' || s[0] == 'E')
                        && SplitSign(s[1..]) == Signed(e.value.negative, e.value.digits + e.value.rest)
  {
    if s != [] && (s[0] == 'e' || s[0] == 'E') then
      var u := SplitSign(s[1..]);
      var k := DigitRun(u.digits);
      if k == 0 then None
      else
        assert u.digits == u.digits[..k] + u.digits[k..];
        Some(Exponent(u.negative, u.digits[..k], u.digits[k..]))
    else None
  }

  predicate ExponentNext(s: string) {
    ScanExponent(s).Some?
  }

  /** `v` times ten to the power `e`, or divided by it when the exponent is
      negative. */
  function Scale(v: real, negative: bool, e: nat): real {
    if negative then v / Pow10(e) as real else v * Pow10(e) as real
  }

  /** The unsigned numeric prefix `whole.fraction` of some text, and the
      text after it. */
  datatype Decimal = Decimal(whole: string, fraction: string, rest: string)

  function ScanDecimal(u: string): (d: Decimal)
    ensures AllDigits(d.whole) && AllDigits(d.fraction)
  {
    var n := DigitRun(u);
    var t := SplitFraction(u[n..]);
    Decimal(u[..n], t.fraction, t.rest)
  }

  /** The unsigned part of `parseFloat`: `whole.fraction`, scaled by the
      exponent that follows it if there is one. */
  function ReadUnsignedFloat(u: string): Option<real> {
    var d := ScanDecimal(u);
    if d.whole == [] && d.fraction == [] then None
    else
      match ScanExponent(d.rest)
      case None => Some(DecimalValue(d.whole, d.fraction))
      case Some(x) => Some(Scale(DecimalValue(d.whole, d.fraction), x.negative, DigitsValue(x.digits)))
  }

  /** `parseFloat(s)`. It gives a number exactly when, after white space
      and a sign, the text starts with a digit or with a point and a digit. */
  function ParseFloat(s: string): (r: Option<real>)
    ensures r.Some? <==> StartsNumber(SplitSign(TrimStart(s)).digits)
  {
    var u := SplitSign(TrimStart(s));
    ReadsSomeNumber(u.digits);
    match ReadUnsignedFloat(u.digits)
    case None => None
    case Some(v) => Some(Negate(u.negative, v))
  }

  /** The sign text written in front of a number: none, a minus or a plus. */
  predicate IsSign(sign: string) {
    sign == "" || sign == "-" || sign == "+"
  }

  /** Text that begins with a digit, or with a point and a digit. */
  predicate StartsNumber(u: string) {
    u != [] && (IsDigit(u[0]) || (|u| >= 2 && u[0] == '.' && IsDigit(u[1])))
  }

  lemma ReadsSomeNumber(u: string)
    ensures ReadUnsignedFloat(u).Some? <==> StartsNumber(u)
  {
    var n := DigitRun(u);
    if u != [] && IsDigit(u[0]) {
      assert n >= 1;
    } else {
      assert n == 0 && u[n..] == u;
      if u != [] && u[0] == '.' {
        assert |u| >= 2 && IsDigit(u[1]) <==> DigitRun(u[1..]) >= 1;
      }
    }
  }

  function SignText(negative: bool): (sign: string)
    ensures IsSign(sign) && (sign == "-" <==> negative)
  {
    if negative then "-" else ""
  }

  /** Text starting with a digit or a point, behind an optional sign, is
      neither trimmed nor stripped of anything but that sign. */
  lemma SignedText(sign: string, x: string)
    requires IsSign(sign)
    requires x != [] && (IsDigit(x[0]) || x[0] == '.')
    ensures TrimStart(sign + x) == sign + x
    ensures SplitSign(sign + x) == Signed(sign == "-", x)
  {
    if sign == "" {
      assert |sign| == 0 && sign != "-";
      Unsigned(x);
    } else if sign == "-" {
      WrittenSign('-', x);
    } else {
      WrittenSign('+', x);
    }
  }

  lemma Unsigned(x: string)
    requires x != [] && (IsDigit(x[0]) || x[0] == '.')
    ensures TrimStart("" + x) == "" + x
    ensures SplitSign("" + x) == Signed(false, x)
  {
    assert "" + x == x;
    assert x[0] != '-' && x[0] != '+';
    NothingToTrim(x);
  }

  lemma WrittenSign(c: char, x: string)
    requires c == '-' || c == '+'
    ensures TrimStart([c] + x) == [c] + x
    ensures SplitSign([c] + x) == Signed(c == '-', x)
  {
    var s := [c] + x;
    assert s[0] == c && s[1..] == x;
    NothingToTrim(s);
  }

  lemma NothingToTrim(s: string)
    requires s != [] && !IsJsSpace(s[0])
    ensures TrimStart(s) == s
  {
  }

  /** Appending a digit shifts the value one decimal place. */
  lemma DigitsValueSnoc(s: string, c: char)
    requires AllDigits(s) && IsDigit(c)
    ensures AllDigits(s + [c])
    ensures DigitsValue(s + [c]) == DigitsValue(s) * 10 + DigitValue(c)
  {
    assert (s + [c])[..|s|] == s;
  }

  /** The shortest decimal spelling of a natural number. */
  function FormatNat(n: nat): (s: string)
    ensures |s| >= 1 && AllDigits(s)
    ensures DigitsValue(s) == n
    ensures s[0] == '0' <==> n == 0
    ensures n == 0 ==> s == "0"
  {
    if n < 10 then [DigitChar(n)]
    else
      var p := FormatNat(n / 10);
      DigitsValueSnoc(p, DigitChar(n % 10));
      p + [DigitChar(n % 10)]
  }

  function FormatInt(i: int): string {
    if i < 0 then "-" + FormatNat(-i) else FormatNat(i)
  }

  /** A signed run of digits that is not a hexadecimal prefix reads as its
      value, whatever non-digit text follows (so "2.5" reads as 2). */
  lemma ParseIntReadsLeadingDigits(sign: string, ds: string, rest: string)
    requires IsSign(sign)
    requires |ds| >= 1 && AllDigits(ds)
    requires rest == [] || !IsDigit(rest[0])
    requires !HexPrefix(ds + rest)
    ensures ParseInt(sign + ds + rest) == Some(NegateInt(sign == "-", DigitsValue(ds)))
  {
    var x := ds + rest;
    var s := sign + x;
    assert sign + ds + rest == s;
    assert x[0] == ds[0];
    SignedText(sign, x);
    var u := SplitSign(TrimStart(s));
    assert u == Signed(sign == "-", x);
    DigitRunOfDigits(ds, rest);
    var n := DigitRun(u.digits);
    assert n == |ds|;
    assert x[..|ds|] == ds;
  }

  /** The digit run of digits followed by a non-digit is exactly those digits. */
  lemma {:induction false} DigitRunOfDigits(ds: string, rest: string)
    requires AllDigits(ds)
    requires rest == [] || !IsDigit(rest[0])
    ensures DigitRun(ds + rest) == |ds|
  {
    if ds != [] {
      assert (ds + rest)[1..] == ds[1..] + rest;
      DigitRunOfDigits(ds[1..], rest);
    } else {
      assert ds + rest == rest;
    }
  }

  /** `parseInt` reads back what `FormatInt` writes. */
  lemma ParseIntFormatInt(i: int)
    ensures ParseInt(FormatInt(i)) == Some(i)
  {
    var ds := FormatNat(if i < 0 then -i else i);
    assert FormatInt(i) == SignText(i < 0) + ds + [];
    ParseIntReadsLeadingDigits(SignText(i < 0), ds, []);
  }

  /** A signed decimal `ds.frac` followed by anything that is neither a
      digit nor an exponent marker reads as ds + frac / 10^|frac|. */
  lemma ParseFloatReadsDecimal(sign: string, ds: string, frac: string, rest: string)
    requires IsSign(sign)
    requires AllDigits(ds) && AllDigits(frac)
    requires |ds| + |frac| >= 1
    requires rest == [] || (!IsDigit(rest[0]) && !ExponentNext(rest))
    ensures ParseFloat(sign + ds + "." + frac + rest)
            == Some(Negate(sign == "-", DecimalValue(ds, frac)))
  {
    var x := ds + ("." + frac + rest);
    assert sign + ds + "." + frac + rest == sign + x;
    assert x[0] == if ds == [] then '.' else ds[0];
    SignedText(sign, x);
    ReadPointDecimal(ds, frac, rest);
  }

  lemma ReadPointDecimal(ds: string, frac: string, rest: string)
    requires AllDigits(ds) && AllDigits(frac)
    requires |ds| + |frac| >= 1
    requires rest == [] || (!IsDigit(rest[0]) && !ExponentNext(rest))
    ensures ReadUnsignedFloat(ds + ("." + frac + rest)) == Some(DecimalValue(ds, frac))
  {
    ScanPointDecimal(ds, frac, rest);
  }

  lemma ScanPointDecimal(ds: string, frac: string, rest: string)
    requires AllDigits(ds) && AllDigits(frac)
    requires rest == [] || !IsDigit(rest[0])
    ensures ScanDecimal(ds + ("." + frac + rest)) == Decimal(ds, frac, rest)
  {
    var tail := "." + frac + rest;
    var x := ds + tail;
    DigitRunOfDigits(ds, tail);
    assert x[..|ds|] == ds && x[|ds|..] == tail;
    DigitRunOfDigits(frac, rest);
    assert tail[1..] == frac + rest;
    assert (frac + rest)[..|frac|] == frac && (frac + rest)[|frac|..] == rest;
  }

  /** A signed number, `ds.frac` or bare digits `ds`, followed by an
      exponent part reads as that number scaled by ten to the power of the
      exponent. */
  lemma ParseFloatReadsExponent(sign: string, ds: string, point: string, frac: string,
                                marker: char, expSign: string, es: string, rest: string)
    requires IsSign(sign) && IsSign(expSign)
    requires AllDigits(ds) && AllDigits(frac)
    requires point == "." || (point == "" && frac == [])
    requires |ds| + |frac| >= 1
    requires marker == 'e' || marker == 'E'
    requires |es| >= 1 && AllDigits(es)
    requires rest == [] || !IsDigit(rest[0])
    ensures ParseFloat(sign + ds + point + frac + ([marker] + expSign + es + rest))
            == Some(Negate(sign == "-", Scale(DecimalValue(ds, frac), expSign == "-", DigitsValue(es))))
  {
    var e := [marker] + expSign + es + rest;
    var x := ds + (point + frac + e);
    Regroup(sign, ds, point, frac, e);
    ReadExponent(marker, expSign, es, rest);
    var v := Scale(DecimalValue(ds, frac), expSign == "-", DigitsValue(es));
    if point == "." {
      assert x[0] == if ds == [] then '.' else ds[0];
      ReadPointExponent(ds, frac, e);
    } else {
      NoPoint(ds, point, frac, e);
      ReadWholeExponent(ds, e);
    }
    ParseFloatSigned(sign, x, v);
  }

  /** With no point and no fraction, the number text is just the digits. */
  lemma NoPoint(ds: string, point: string, frac: string, e: string)
    requires |ds| >= 1 && point == "" && frac == []
    ensures ds + (point + frac + e) == ds + e
    ensures (ds + e)[0] == ds[0]
  {
    assert point + frac + e == e;
  }

  /** Concatenation regrouped, in a lemma of its own so that the caller's
      proof stays small. */
  lemma Regroup(a: string, b: string, c: string, d: string, e: string)
    ensures a + b + c + d + e == a + (b + (c + d + e))
  {
  }

  lemma ReadPointExponent(ds: string, frac: string, e: string)
    requires AllDigits(ds) && AllDigits(frac)
    requires |ds| + |frac| >= 1
    requires ScanExponent(e).Some?
    ensures ReadUnsignedFloat(ds + ("." + frac + e))
            == Some(Scale(DecimalValue(ds, frac), ScanExponent(e).value.negative,
                          DigitsValue(ScanExponent(e).value.digits)))
  {
    ScanPointDecimal(ds, frac, e);
  }

  lemma ReadWholeExponent(ds: string, e: string)
    requires |ds| >= 1 && AllDigits(ds)
    requires ScanExponent(e).Some?
    ensures ReadUnsignedFloat(ds + e)
            == Some(Scale(DecimalValue(ds, []), ScanExponent(e).value.negative,
                          DigitsValue(ScanExponent(e).value.digits)))
  {
    ScanWholeNumber(ds, e);
  }

  lemma ReadExponent(marker: char, sign: string, es: string, rest: string)
    requires marker == 'e' || marker == 'E'
    requires IsSign(sign)
    requires |es| >= 1 && AllDigits(es)
    requires rest == [] || !IsDigit(rest[0])
    ensures ScanExponent([marker] + sign + es + rest) == Some(Exponent(sign == "-", es, rest))
  {
    var t := sign + (es + rest);
    assert [marker] + sign + es + rest == [marker] + t;
    SignedText(sign, es + rest);
    ScanMarkedExponent(marker, t, sign == "-", es, rest);
  }

  lemma ScanMarkedExponent(marker: char, t: string, negative: bool, es: string, rest: string)
    requires marker == 'e' || marker == 'E'
    requires |es| >= 1 && AllDigits(es)
    requires rest == [] || !IsDigit(rest[0])
    requires SplitSign(t) == Signed(negative, es + rest)
    ensures ScanExponent([marker] + t) == Some(Exponent(negative, es, rest))
  {
    var m := [marker] + t;
    assert m[1..] == t;
    DigitRunOfDigits(es, rest);
    assert (es + rest)[..|es|] == es && (es + rest)[|es|..] == rest;
  }

  /** A signed run of digits with no point reads as an integer. */
  lemma ParseFloatReadsInteger(sign: string, ds: string, rest: string)
    requires IsSign(sign)
    requires |ds| >= 1 && AllDigits(ds)
    requires rest == [] || (!IsDigit(rest[0]) && !ExponentNext(rest) && rest[0] != '.')
    ensures ParseFloat(sign + ds + rest)
            == Some(Negate(sign == "-", DigitsValue(ds) as real))
  {
    ReadWholeNumber(ds, rest);
    StartsWithDigits(sign, ds, rest);
    ParseFloatSigned(sign, ds + rest, DigitsValue(ds) as real);
  }

  /** Digits then a tail, regrouped behind a sign. */
  lemma StartsWithDigits(sign: string, ds: string, rest: string)
    requires |ds| >= 1
    ensures sign + ds + rest == sign + (ds + rest)
    ensures (ds + rest)[0] == ds[0]
  {
  }

  /** The sign in front of a number that starts with a digit or a point
      negates whatever the unsigned reader gives. */
  lemma ParseFloatSigned(sign: string, x: string, v: real)
    requires IsSign(sign)
    requires x != [] && (IsDigit(x[0]) || x[0] == '.')
    requires ReadUnsignedFloat(x) == Some(v)
    ensures ParseFloat(sign + x) == Some(Negate(sign == "-", v))
  {
    SignedText(sign, x);
  }

  lemma DecimalValueWhole(ds: string)
    requires AllDigits(ds)
    ensures DecimalValue(ds, []) == DigitsValue(ds) as real
  {
    assert DigitsValue([]) == 0;
    assert Pow10(0) == 1;
  }

  lemma ReadWholeNumber(ds: string, rest: string)
    requires |ds| >= 1 && AllDigits(ds)
    requires rest == [] || (!IsDigit(rest[0]) && !ExponentNext(rest) && rest[0] != '.')
    ensures ReadUnsignedFloat(ds + rest) == Some(DigitsValue(ds) as real)
  {
    ScanWholeNumber(ds, rest);
    DecimalValueWhole(ds);
  }

  lemma ScanWholeNumber(ds: string, rest: string)
    requires AllDigits(ds)
    requires rest == [] || (!IsDigit(rest[0]) && rest[0] != '.')
    ensures ScanDecimal(ds + rest) == Decimal(ds, [], rest)
  {
    var x := ds + rest;
    DigitRunOfDigits(ds, rest);
    assert x[..|ds|] == ds && x[|ds|..] == rest;
  }

  /** Leading white space is skipped: both parsers read text behind it as
      they read the text alone. */
  lemma SkipsLeadingSpace(ws: string, s: string)
    requires forall i :: 0 <= i < |ws| ==> IsJsSpace(ws[i])
    ensures ParseInt(ws + s) == ParseInt(s)
    ensures ParseFloat(ws + s) == ParseFloat(s)
  {
    TrimSkipsSpace(ws, s);
  }

  lemma {:induction false} TrimSkipsSpace(ws: string, s: string)
    requires forall i :: 0 <= i < |ws| ==> IsJsSpace(ws[i])
    ensures TrimStart(ws + s) == TrimStart(s)
  {
    if ws == [] {
      assert ws + s == s;
    } else {
      assert (ws + s)[0] == ws[0];
      assert (ws + s)[1..] == ws[1..] + s;
      TrimSkipsSpace(ws[1..], s);
    }
  }

  /** Text that starts with none of a digit, point, sign or white space
      reads as nothing. For `parseInt` that is JavaScript's NaN; so it is
      for `parseFloat` too, except on text starting with `Infinity`. */
  lemma ParseRejectsNonNumeric(s: string)
    requires s != [] && !IsDigit(s[0]) && !IsJsSpace(s[0]) && s[0] != '-' && s[0] != '+' && s[0] != '.'
    ensures ParseInt(s) == None && ParseFloat(s) == None
  {
  }
}
