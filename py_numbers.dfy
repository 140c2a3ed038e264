/** Python's decimal text of numbers, in exact arithmetic: `str()` of an int
    or of a finite float, `str.strip()`, and the part of `float()` parsing the
    cleaner relies on (an optional sign, decimal digits with at most one
    point, surrounding whitespace). */
module PyNumbers {
  import opened Wrappers

  function Pow10(k: nat): (p: nat)
    ensures p >= 1
  {
    if k == 0 then 1 else 10 * Pow10(k - 1)
  }

  predicate IsDigit(c: char) { '0' <= c <= '9' }

  function DigitValue(c: char): (d: nat)
    requires IsDigit(c)
    ensures d <= 9
  {
    c as int - '0' as int
  }

  function DigitChar(d: nat): (c: char)
    requires d <= 9
    ensures IsDigit(c) && DigitValue(c) == d
  {
    ('0' as int + d) as char
  }

  predicate AllDigits(s: string) {
    forall i | 0 <= i < |s| :: IsDigit(s[i])
  }

  /** The number a string of decimal digits denotes (leading zeros allowed). */
  function DigitsValue(s: string): (n: nat)
    requires AllDigits(s)
    ensures n < Pow10(|s|)
  {
    if s == [] then 0 else 10 * DigitsValue(s[..|s| - 1]) + DigitValue(s[|s| - 1])
  }

  /** `str(n)` for a non-negative int: its shortest decimal digits. */
  function NatToString(n: nat): (s: string)
    ensures |s| >= 1 && AllDigits(s)
    ensures DigitsValue(s) == n
  {
    if n < 10 then [DigitChar(n)]
    else
      var s := NatToString(n / 10) + [DigitChar(n % 10)];
      assert s[..|s| - 1] == NatToString(n / 10);
      s
  }

  /** Exactly `width` digits of `n`, zero-padded on the left: the fraction
      digits of a printed float. */
  function PadDigits(n: nat, width: nat): (s: string)
    requires n < Pow10(width)
    ensures |s| == width && AllDigits(s)
    ensures DigitsValue(s) == n
  {
    if width == 0 then []
    else
      var s := PadDigits(n / 10, width - 1) + [DigitChar(n % 10)];
      assert s[..|s| - 1] == PadDigits(n / 10, width - 1);
      s
  }

  lemma {:induction false} AllDigitsAppend(a: string, b: string)
    requires AllDigits(a) && AllDigits(b)
    ensures AllDigits(a + b)
  {
    forall i | 0 <= i < |a + b| ensures IsDigit((a + b)[i]) {
      if i < |a| { assert (a + b)[i] == a[i]; } else { assert (a + b)[i] == b[i - |a|]; }
    }
  }

  lemma {:induction false} Pow10Monotone(j: nat, k: nat)
    requires j <= k
    ensures Pow10(j) <= Pow10(k)
  {
    if j < k { Pow10Monotone(j, k - 1); }
  }

  /** `str(i)` for a Python int. */
  function IntToString(i: int): string {
    if i < 0 then "-" + NatToString(-i) else NatToString(i)
  }

  function Abs(i: int): nat { if i < 0 then -i else i }

  /** The digits of `n`, zero-padded on the left to at least `minWidth`
      characters. */
  function DigitsAtLeast(n: nat, minWidth: nat): (s: string)
    ensures |s| >= minWidth && |s| >= 1 && AllDigits(s)
    ensures DigitsValue(s) == n
  {
    var w := |NatToString(n)|;
    if w >= minWidth then NatToString(n)
    else
      Pow10Monotone(w, minWidth);
      PadDigits(n, minWidth)
  }

  /** The same number with the trailing zeros of its fraction removed:
      450 / 10^2 becomes 45 / 10^1, 0 / 10^2 becomes 0 / 10^0. */
  function Shortest(mantissa: int, scale: nat): (c: (int, nat))
    ensures c.1 <= scale
    ensures (c.0 < 0) == (mantissa < 0)
    ensures c.1 == 0 || c.0 % 10 != 0
    decreases scale
  {
    if scale > 0 && mantissa % 10 == 0 then Shortest(mantissa / 10, scale - 1)
    else (mantissa, scale)
  }

  /** Removing trailing zeros keeps the value. */
  lemma {:induction false} ShortestValue(mantissa: int, scale: nat)
    ensures Shortest(mantissa, scale).0 as real / Pow10(Shortest(mantissa, scale).1) as real
            == mantissa as real / Pow10(scale) as real
    decreases scale
  {
    if scale > 0 && mantissa % 10 == 0 {
      var q := mantissa / 10;
      ShortestValue(q, scale - 1);
      assert mantissa as real == 10.0 * q as real;
      assert Pow10(scale) as real == 10.0 * Pow10(scale - 1) as real;
      TenfoldRatio(q as real, Pow10(scale - 1) as real);
    }
  }

  lemma TenfoldRatio(q: real, p: real)
    requires p > 0.0
    ensures (10.0 * q) / (10.0 * p) == q / p
  {
  }

  /** `str(x)` for the finite float x = mantissa / 10^scale, written out
      positionally with the shortest fraction that keeps its value, and at
      least one fractional digit ("500.0", "4.5", "-0.05"). */
  function FloatToString(mantissa: int, scale: nat): string {
    var c := Shortest(mantissa, scale);
    var h := FloatHalves(c.0, c.1);
    (if mantissa < 0 then "-" else "") + h.0 + "." + h.1
  }

  /** Trailing zeros are not printed: `str(4.50)` is "4.5" and `str(0.00)`
      is "0.0". */
  lemma ExampleFloatText()
    ensures FloatToString(450, 2) == "4.5"
    ensures FloatToString(0, 2) == "0.0"
  {
    assert Shortest(450, 2) == (45, 1);
    assert DigitsAtLeast(45, 2) == "45" by {
      assert NatToString(45) == "45" by { assert NatToString(4) == "4"; }
    }
    assert "45"[..1] == "4" && "45"[1..] == "5";
    assert FloatHalves(45, 1) == ("4", "5");
    assert Shortest(0, 2) == (0, 0);
    assert DigitsAtLeast(0, 1) == "0";
    assert FloatHalves(0, 0) == ("0", "0");
  }

  /** A parsed decimal number: (-1)^negative * mantissa / 10^scale. */
  datatype Decimal = Decimal(negative: bool, mantissa: nat, scale: nat) {
    function Value(): real {
      var magnitude := mantissa as real / Pow10(scale) as real;
      if negative then -magnitude else magnitude
    }
  }

  /** Index of the first occurrence of `c`, or |s| when there is none. */
  function IndexOf(s: string, c: char): (i: nat)
    ensures i <= |s|
    ensures i < |s| ==> s[i] == c
    ensures forall j | 0 <= j < i :: s[j] != c
  {
    if s == [] then 0 else if s[0] == c then 0 else 1 + IndexOf(s[1..], c)
  }

  /** An unsigned decimal literal as `float()` reads it: digits, or digits
      around a single point with at least one digit on either side ("5",
      "5.", ".5", "4.53"); anything else is not a number. */
  function ParseUnsigned(s: string): Option<Decimal> {
    var i := IndexOf(s, '.');
    if i == |s| then
      if s != [] && AllDigits(s) then Some(Decimal(false, DigitsValue(s), 0)) else None
    else
      var whole, frac := s[..i], s[i + 1..];
      if AllDigits(whole) && AllDigits(frac) && |whole| + |frac| > 0 then
        AllDigitsAppend(whole, frac);
        Some(Decimal(false, DigitsValue(whole + frac), |frac|))
      else None
  }

  /** A decimal literal with an optional leading sign. */
  function ParseSigned(s: string): Option<Decimal> {
    if s != [] && (s[0] == '-' || s[0] == '+') then
      match ParseUnsigned(s[1..])
      case None => None
      case Some(d) => Some(d.(negative := s[0] == '-'))
    else ParseUnsigned(s)
  }

  /** The characters `str.isspace()` accepts, which `strip()` and `float()`
      remove at both ends. */
  predicate IsSpace(c: char) {
    var k := c as int;
    9 <= k <= 13 || 0x1C <= k <= 0x20 || k == 0x85 || k == 0xA0 || k == 0x1680
    || 0x2000 <= k <= 0x200A || k == 0x2028 || k == 0x2029 || k == 0x202F
    || k == 0x205F || k == 0x3000
  }

  function StripLeft(s: string): (r: string)
    ensures |r| <= |s|
  {
    if s != [] && IsSpace(s[0]) then StripLeft(s[1..]) else s
  }

  function StripRight(s: string): (r: string)
    ensures |r| <= |s|
  {
    if s != [] && IsSpace(s[|s| - 1]) then StripRight(s[..|s| - 1]) else s
  }

  /** `str.strip()` with no argument. */
  function Strip(s: string): string {
    StripRight(StripLeft(s))
  }

  /** `float(s)` on the literals modelled here; None stands for the
      ValueError Python raises. */
  function ParseFloat(s: string): Option<Decimal> {
    ParseSigned(Strip(s))
  }

  lemma StripNoSpace(s: string)
    requires forall j | 0 <= j < |s| :: !IsSpace(s[j])
    ensures Strip(s) == s
  {
  }

  /** A text that neither starts nor ends with whitespace is its own strip. */
  lemma StripKeeps(s: string)
    requires s != [] && !IsSpace(s[0]) && !IsSpace(s[|s| - 1])
    ensures Strip(s) == s
  {
  }

  lemma {:induction false} DigitsHaveNoPoint(s: string)
    requires AllDigits(s)
    ensures IndexOf(s, '.') == |s|
  {
  }

  lemma UnsignedOfDigits(n: nat)
    ensures ParseUnsigned(NatToString(n)) == Some(Decimal(false, n, 0))
  {
    DigitsHaveNoPoint(NatToString(n));
  }

  lemma IntTextHasNoSpace(i: int)
    ensures Strip(IntToString(i)) == IntToString(i)
  {
    var t := NatToString(Abs(i));
    assert forall j | 0 <= j < |t| :: !IsSpace(t[j]);
    StripNoSpace(IntToString(i));
  }

  /** Reading back the text `str()` gives a Python int yields that int. */
  lemma {:induction false} IntRoundTrip(i: int)
    ensures ParseFloat(IntToString(i)).Some?
    ensures ParseFloat(IntToString(i)).value.Value() == i as real
  {
    var s := IntToString(i);
    UnsignedOfDigits(Abs(i));
    IntTextHasNoSpace(i);
    if i < 0 {
      assert s[1..] == NatToString(-i);
      assert ParseFloat(s) == Some(Decimal(true, -i, 0));
    } else {
      assert ParseFloat(s) == Some(Decimal(false, i, 0));
    }
  }

  lemma UnsignedOfPointed(whole: string, frac: string)
    requires AllDigits(whole) && AllDigits(frac) && |whole| + |frac| > 0
    ensures AllDigits(whole + frac)
    ensures ParseUnsigned(whole + "." + frac) == Some(Decimal(false, DigitsValue(whole + frac), |frac|))
  {
    AllDigitsAppend(whole, frac);
    var t := whole + "." + frac;
    assert forall j | 0 <= j < |whole| :: t[j] == whole[j];
    assert t[|whole|] == '.';
    assert IndexOf(t, '.') == |whole|;
    assert t[..|whole|] == whole;
    assert t[|whole| + 1..] == frac;
  }

  /** The two halves `FloatToString` prints around the point: read as one
      digit string they give |mantissa|, scaled by 10^scale, except that a
      float with scale 0 is printed with the fraction "0". */
  function FloatHalves(mantissa: int, scale: nat): (h: (string, string))
    ensures AllDigits(h.0) && AllDigits(h.1) && |h.0| >= 1
    ensures AllDigits(h.0 + h.1)
    ensures scale == 0 ==> h.1 == "0" && DigitsValue(h.0 + h.1) == 10 * Abs(mantissa)
    ensures scale > 0 ==> |h.1| == scale && DigitsValue(h.0 + h.1) == Abs(mantissa)
  {
    var digits := DigitsAtLeast(Abs(mantissa), scale + 1);
    var point := |digits| - scale;
    if scale == 0 then
      AppendZero(digits);
      (digits, "0")
    else
      SplitDigits(digits, point);
      (digits[..point], digits[point..])
  }

  lemma AppendZero(digits: string)
    requires AllDigits(digits)
    ensures AllDigits(digits + "0") && DigitsValue(digits + "0") == 10 * DigitsValue(digits)
  {
    var t := digits + "0";
    assert t[..|t| - 1] == digits && t[|t| - 1] == '0';
    AllDigitsAppend(digits, "0");
  }

  lemma SplitDigits(digits: string, point: nat)
    requires AllDigits(digits) && point <= |digits|
    ensures AllDigits(digits[..point]) && AllDigits(digits[point..])
    ensures digits[..point] + digits[point..] == digits
  {
  }

  lemma TenfoldOverTen(n: nat)
    ensures (10 * n) as real / Pow10(1) as real == n as real / Pow10(0) as real
  {
  }

  lemma {:induction false} SignedPointedHasNoSpace(sign: string, whole: string, frac: string)
    requires sign == "" || sign == "-"
    requires AllDigits(whole) && AllDigits(frac)
    ensures Strip(sign + whole + "." + frac) == sign + whole + "." + frac
  {
    var s := sign + whole + "." + frac;
    forall j | 0 <= j < |s| ensures !IsSpace(s[j]) {
      if j < |sign| {
        assert s[j] == '-';
      } else if j < |sign| + |whole| {
        assert s[j] == whole[j - |sign|];
      } else if j > |sign| + |whole| {
        assert s[j] == frac[j - |sign| - |whole| - 1];
      }
    }
    StripNoSpace(s);
  }

  lemma DecimalSign(m: nat, k: nat)
    ensures Decimal(false, m, k).Value() == m as real / Pow10(k) as real
    ensures Decimal(true, m, k).Value() == -(m as real / Pow10(k) as real)
  {
  }

  lemma AbsOverPower(mantissa: int, p: nat)
    requires p >= 1
    ensures mantissa < 0 ==> -(Abs(mantissa) as real / p as real) == mantissa as real / p as real
    ensures mantissa >= 0 ==> Abs(mantissa) as real / p as real == mantissa as real / p as real
  {
  }

  lemma HalvesValue(mantissa: int, scale: nat)
    ensures DigitsValue(FloatHalves(mantissa, scale).0 + FloatHalves(mantissa, scale).1) as real
            / Pow10(|FloatHalves(mantissa, scale).1|) as real
            == Abs(mantissa) as real / Pow10(scale) as real
  {
    if scale == 0 { TenfoldOverTen(Abs(mantissa)); }
  }

  /** A signed decimal literal with a point parses to its sign and to the
      digits on both sides of the point. */
  lemma {:induction false} PointedTextParses(sign: string, whole: string, frac: string)
    requires sign == "" || sign == "-"
    requires AllDigits(whole) && AllDigits(frac) && |whole| >= 1
    ensures AllDigits(whole + frac)
    ensures ParseFloat(sign + whole + "." + frac)
            == Some(Decimal(sign == "-", DigitsValue(whole + frac), |frac|))
  {
    var s := sign + whole + "." + frac;
    SignedPointedHasNoSpace(sign, whole, frac);
    SignedPointedParses(sign, whole, frac);
  }

  lemma {:induction false} SignedPointedParses(sign: string, whole: string, frac: string)
    requires sign == "" || sign == "-"
    requires AllDigits(whole) && AllDigits(frac) && |whole| >= 1
    ensures AllDigits(whole + frac)
    ensures ParseSigned(sign + whole + "." + frac)
            == Some(Decimal(sign == "-", DigitsValue(whole + frac), |frac|))
  {
    var t := whole + "." + frac;
    var s := sign + whole + "." + frac;
    assert s == sign + t;
    UnsignedOfPointed(whole, frac);
    assert t[0] != '-' && t[0] != '+' by { assert t[0] == whole[0]; }
    if sign == "-" {
      assert s[1..] == t;
    } else {
      assert s == t;
    }
  }

  /** The text of a float parses to its sign and to the digits printed on
      both sides of the point. */
  lemma FloatTextParses(mantissa: int, scale: nat)
    ensures var c := Shortest(mantissa, scale); var h := FloatHalves(c.0, c.1);
      ParseFloat(FloatToString(mantissa, scale))
      == Some(Decimal(mantissa < 0, DigitsValue(h.0 + h.1), |h.1|))
  {
    var c := Shortest(mantissa, scale);
    var h := FloatHalves(c.0, c.1);
    var sign := if mantissa < 0 then "-" else "";
    PointedTextParses(sign, h.0, h.1);
  }

  /** Reading back the text `str()` gives a float yields the same number. */
  lemma {:induction false} FloatRoundTrip(mantissa: int, scale: nat)
    ensures ParseFloat(FloatToString(mantissa, scale)).Some?
    ensures ParseFloat(FloatToString(mantissa, scale)).value.Value()
            == (mantissa as real) / (Pow10(scale) as real)
  {
    var c := Shortest(mantissa, scale);
    var h := FloatHalves(c.0, c.1);
    var m := DigitsValue(h.0 + h.1);
    FloatTextParses(mantissa, scale);
    HalvesValue(c.0, c.1);
    DecimalSign(m, |h.1|);
    AbsOverPower(c.0, Pow10(c.1));
    ShortestValue(mantissa, scale);
  }
}
