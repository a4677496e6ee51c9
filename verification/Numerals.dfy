/** Decimal numbers and their invariant-culture text. */
module Numerals {
  import opened Text

  predicate IsDigit(c: char) { '0' <= c <= '9' }

  predicate AllDigits(s: string) {
    forall i :: 0 <= i < |s| ==> IsDigit(s[i])
  }

  function DigitChar(d: nat): char
    requires d < 10
  {
    ('0' as int + d) as char
  }

  function DigitValue(c: char): nat
    requires IsDigit(c)
  {
    c as int - '0' as int
  }

  /** The decimal digits of n, without leading zeros. */
  function Digits(n: nat): (r: string)
    ensures r != "" && AllDigits(r)
  {
    if n < 10 then [DigitChar(n)] else Digits(n / 10) + [DigitChar(n % 10)]
  }

  /** The number a string of digits stands for. */
  function Value(s: string): nat
    requires AllDigits(s)
  {
    if s == "" then 0 else 10 * Value(s[..|s| - 1]) + DigitValue(s[|s| - 1])
  }

  lemma {:induction false} ValueOfDigits(n: nat)
    ensures Value(Digits(n)) == n
  {
    if n >= 10 {
      ValueOfDigits(n / 10);
      assert Digits(n)[..|Digits(n)| - 1] == Digits(n / 10);
    } else {
      assert Digits(n)[..0] == "";
    }
  }

  function Zeros(k: nat): (r: string)
    ensures |r| == k && AllDigits(r)
  {
    if k == 0 then "" else Zeros(k - 1) + "0"
  }

  lemma {:induction false} LeadingZeros(k: nat, s: string)
    requires AllDigits(s)
    ensures AllDigits(Zeros(k) + s) && Value(Zeros(k) + s) == Value(s)
  {
    if s != "" {
      var n := |s| - 1;
      assert (Zeros(k) + s)[..|Zeros(k) + s| - 1] == Zeros(k) + s[..n];
      LeadingZeros(k, s[..n]);
    } else {
      assert Zeros(k) + s == Zeros(k);
      ZerosValue(k);
    }
  }

  lemma {:induction false} ZerosValue(k: nat)
    ensures Value(Zeros(k)) == 0
  {
    if k > 0 {
      ZerosValue(k - 1);
      assert Zeros(k)[..k - 1] == Zeros(k - 1);
    }
  }

  // ----- Decimals -----

  /** A .NET decimal: coeff * 10^-scale. Trailing zeros are part of the number. */
  datatype Dec = Dec(coeff: int, scale: nat)

  function Pow10(k: nat): (r: nat)
    ensures r >= 1
  {
    if k == 0 then 1 else 10 * Pow10(k - 1)
  }

  predicate LessEq(a: Dec, b: Dec) {
    a.coeff * Pow10(b.scale) <= b.coeff * Pow10(a.scale)
  }

  function Abs(n: int): nat { if n < 0 then -n else n }

  /** The digits with as many leading zeros as the decimal point needs. */
  function Body(n: nat, scale: nat): (r: string)
    ensures |r| > scale && AllDigits(r)
  {
    var d := Digits(n);
    if |d| <= scale then Zeros(scale + 1 - |d|) + d else d
  }

  /** decimal.ToString(CultureInfo.InvariantCulture) */
  function Print(d: Dec): string {
    var body := Body(Abs(d.coeff), d.scale);
    var point := |body| - d.scale;
    (if d.coeff < 0 then "-" else "") + body[..point] + (if d.scale == 0 then "" else "." + body[point..])
  }

  /** An unsigned number: digits with at most one decimal point. */
  function ParseUnsigned(s: string): Option<Dec> {
    var point := IndexOf(s, ".", 0);
    var whole := if point < 0 then s else s[..point];
    var fraction := if point < 0 then "" else s[point + 1..];
    if AllDigits(whole) && AllDigits(fraction) && |whole + fraction| > 0
    then Some(Dec(Value(whole + fraction), |fraction|)) else None
  }

  function Negated(d: Option<Dec>): Option<Dec> {
    match d
    case None => None
    case Some(v) => Some(v.(coeff := -v.coeff))
  }

  /** decimal.Parse: an optional sign, digits, an optional fraction. */
  function ParseDecimal(s: string): Option<Dec> {
    if s != "" && s[0] == '-' then Negated(ParseUnsigned(s[1..]))
    else if s != "" && s[0] == '+' then ParseUnsigned(s[1..])
    else ParseUnsigned(s)
  }

  /** decimal.Parse with NumberStyles.Integer: a decimal without a point. */
  function ParseWhole(s: string): Option<Dec> {
    if '.' in s then None else ParseDecimal(s)
  }

  /** int.Parse: a whole number in the 32-bit range. */
  function ParseInt(s: string): Option<Dec> {
    match ParseWhole(s)
    case Some(d) => if -0x8000_0000 <= d.coeff < 0x8000_0000 then Some(d) else None
    case None => None
  }

  lemma BodyValue(n: nat, scale: nat)
    ensures Value(Body(n, scale)) == n
  {
    hide Digits, Value, Zeros;
    ValueOfDigits(n);
    var d := Digits(n);
    if |d| <= scale { LeadingZeros(scale + 1 - |d|, d); }
  }

  lemma NoPoint(s: string)
    requires AllDigits(s)
    ensures IndexOf(s, ".", 0) == -1 && '.' !in s
  {
    forall i | 0 <= i ensures !OccursAt(s, ".", i) { OccursAtChar(s, '.', i); }
    IndexOfNone(s, ".", 0);
  }

  lemma FirstPoint(whole: string, fraction: string)
    requires AllDigits(whole)
    ensures IndexOf(whole + "." + fraction, ".", 0) == |whole|
  {
    var s := whole + "." + fraction;
    forall i | 0 <= i <= |whole| ensures OccursAt(s, ".", i) <==> i == |whole| { OccursAtChar(s, '.', i); }
    IndexOfIs(s, ".", 0, |whole|);
  }

  lemma ParseUnsignedBody(n: nat, scale: nat)
    ensures var b := Body(n, scale);
            var p := |b| - scale;
            ParseUnsigned(b[..p] + (if scale == 0 then "" else "." + b[p..])) == Some(Dec(n, scale))
  {
    var b := Body(n, scale);
    var p := |b| - scale;
    BodyValue(n, scale);
    if scale == 0 {
      assert b[..p] + "" == b && b + "" == b;
      NoPoint(b);
    } else {
      var s := b[..p] + ("." + b[p..]);
      assert s == b[..p] + "." + b[p..];
      FirstPoint(b[..p], b[p..]);
      assert s[..p] == b[..p] && s[p + 1..] == b[p..] && b[..p] + b[p..] == b;
    }
  }

  lemma ReadWithoutPoint(s: string)
    requires '.' !in s
    ensures ParseUnsigned(s) == if s != "" && AllDigits(s) then Some(Dec(Value(s), 0)) else None
  {
    hide Value;
    var point := IndexOf(s, ".", 0);
    if point >= 0 { OccursAtChar(s, '.', point); }
    assert s + "" == s;
  }

  /** Cut at its first point. */
  lemma ReadAtPoint(whole: string, fraction: string)
    requires '.' !in whole
    ensures ParseUnsigned(whole + "." + fraction) ==
            if AllDigits(whole) && AllDigits(fraction) && whole + fraction != ""
            then Some(Dec(Value(whole + fraction), |fraction|)) else None
  {
    hide Value;
    var s := whole + "." + fraction;
    forall i | 0 <= i <= |whole| ensures OccursAt(s, ".", i) <==> i == |whole| { OccursAtChar(s, '.', i); }
    IndexOfIs(s, ".", 0, |whole|);
    assert s[..|whole|] == whole && s[|whole| + 1..] == fraction;
  }

  /** A sign goes before; a minus sign negates. */
  lemma ReadSigned(s: string)
    ensures ParseDecimal("+" + s) == ParseUnsigned(s)
    ensures ParseDecimal("-" + s) == (match ParseUnsigned(s)
                                      case Some(d) => Some(Dec(-d.coeff, d.scale))
                                      case None => None)
    ensures s == "" || (s[0] != '+' && s[0] != '-') ==> ParseDecimal(s) == ParseUnsigned(s)
  {
    hide ParseUnsigned;
    assert ("-" + s)[1..] == s && ("+" + s)[1..] == s;
  }

  /** Printing a decimal and parsing the text gives the same decimal, trailing zeros included. */
  lemma PrintParse(d: Dec)
    ensures ParseDecimal(Print(d)) == Some(d)
  {
    hide Body, ParseUnsigned, IndexOf;
    var u := PrintSigned(d);
    ParseUnsignedBody(Abs(d.coeff), d.scale);
    if d.coeff < 0 { assert ("-" + u)[1..] == u; }
  }

  lemma PrintSigned(d: Dec) returns (u: string)
    ensures var b := Body(Abs(d.coeff), d.scale);
            var p := |b| - d.scale;
            u == b[..p] + (if d.scale == 0 then "" else "." + b[p..])
    ensures u != "" && IsDigit(u[0]) && Print(d) == if d.coeff < 0 then "-" + u else u
  {
    hide Body;
    var b := Body(Abs(d.coeff), d.scale);
    var p := |b| - d.scale;
    var tail := if d.scale == 0 then "" else "." + b[p..];
    u := b[..p] + tail;
    assert u[0] == b[0];
    assert "-" + b[..p] + tail == "-" + u && "" + b[..p] + tail == u;
  }

  lemma PrintCharacters(d: Dec, i: nat)
    requires i < |Print(d)|
    ensures IsDigit(Print(d)[i]) || Print(d)[i] in {'-', '.'}
  {
    var b := Body(Abs(d.coeff), d.scale);
  }

  /** Whole numbers of 32 bits, and only they, are printed so that int.Parse accepts them. */
  lemma PrintParseInt(d: Dec)
    ensures ParseInt(Print(d)) == if d.scale == 0 && -0x8000_0000 <= d.coeff < 0x8000_0000 then Some(d) else None
  {
    PrintParse(d);
    var b := Body(Abs(d.coeff), d.scale);
    var p := |b| - d.scale;
    if d.scale == 0 {
      NoPoint(b);
      assert b[..p] == b;
    } else {
      assert '.' in "." + b[p..];
      assert '.' in Print(d);
    }
  }
}
