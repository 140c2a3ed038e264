/** The cleaning stage of data_cleaner.py: `clean_numeric_value`, which turns
    one raw spreadsheet value into a number, and `clean_bilibili_data`, which
    renames the Chinese column headers and cleans the numeric and text
    columns of a whole frame. Reading the spreadsheet, date parsing and the
    progress output are not modelled. */
module DataCleaner {
  import opened Wrappers
  import opened PyNumbers

  /** One cell of a pandas column, as the cleaner sees it. */
  datatype Cell =
    | Missing                            // what `pd.isna` recognises
    | Text(s: string)
    | Int(i: int)
    | Float(mantissa: int, scale: nat)   // the finite float mantissa / 10^scale
  {
    predicate IsNumber() { Int? || Float? }

    function NumValue(): real
      requires IsNumber()
    {
      if Int? then i as real else mantissa as real / Pow10(scale) as real
    }
  }

  /** `str(value)` for a cell. */
  function CellText(c: Cell): string {
    match c
    case Missing => "nan"
    case Text(s) => s
    case Int(i) => IntToString(i)
    case Float(m, k) => FloatToString(m, k)
  }

  /** The "ten thousand" unit: `w`, `W` (the test lower-cases the text) or 万. */
  predicate HasUnitMarker(s: string) {
    'w' in s || 'W' in s || '万' in s
  }

  const TenThousand: nat := 10000

  /** The characters of the pattern `[\d.]+`. */
  predicate IsRunChar(c: char) { IsDigit(c) || c == '.' }

  function SkipToRun(s: string): (r: string)
    ensures |r| <= |s|
  {
    if s != [] && !IsRunChar(s[0]) then SkipToRun(s[1..]) else s
  }

  function TakeRun(s: string): (r: string)
    ensures |r| <= |s|
  {
    if s != [] && IsRunChar(s[0]) then [s[0]] + TakeRun(s[1..]) else []
  }

  /** Where the first match of `[\d.]+` starts (|s| when there is none). */
  function RunStart(s: string): nat {
    |s| - |SkipToRun(s)|
  }

  /** `re.findall(r'[\d.]+', s)[0]`, or [] when the pattern does not match. */
  function FirstRun(s: string): string {
    TakeRun(SkipToRun(s))
  }

  lemma {:induction false} SkipToRunFacts(s: string)
    ensures var r := SkipToRun(s);
      r == s[|s| - |r|..] && (r == [] || IsRunChar(r[0]))
      && forall j | 0 <= j < |s| - |r| :: !IsRunChar(s[j])
  {
    if s != [] && !IsRunChar(s[0]) {
      SkipToRunFacts(s[1..]);
      assert forall j | 1 <= j < |s| :: s[j] == s[1..][j - 1];
    }
  }

  lemma {:induction false} TakeRunFacts(s: string)
    ensures var r := TakeRun(s);
      r == s[..|r|] && (forall j | 0 <= j < |r| :: IsRunChar(r[j]))
      && (|r| == |s| || !IsRunChar(s[|r|]))
  {
    if s != [] && IsRunChar(s[0]) {
      TakeRunFacts(s[1..]);
    }
  }

  /** The first match of `[\d.]+`: the longest run of digits and points
      that starts at the first such character, and empty exactly when the
      text has no such character. */
  lemma FirstRunFacts(s: string)
    ensures var r := FirstRun(s); var st := RunStart(s);
      st + |r| <= |s| && r == s[st..st + |r|]
      && (forall j | 0 <= j < st :: !IsRunChar(s[j]))
      && (forall j | 0 <= j < |r| :: IsRunChar(r[j]))
      && (st + |r| == |s| || !IsRunChar(s[st + |r|]))
      && (r == [] <==> forall j | 0 <= j < |s| :: !IsRunChar(s[j]))
  {
    var t := SkipToRun(s);
    SkipToRunFacts(s);
    TakeRunFacts(t);
    var r := TakeRun(t);
    var st := RunStart(s);
    assert r == s[st..st + |r|];
    if r != [] {
      assert IsRunChar(s[st]) by { assert s[st] == r[0]; }
    }
  }

  /** `int(float(run) * 10000)`, on the run's exact value. */
  function UnitScaled(d: Decimal): int {
    Trunc(d.Value() * TenThousand as real)
  }

  /** `int(x)` on a float: truncation toward zero. */
  function Trunc(x: real): int {
    if x >= 0.0 then x.Floor else -((-x).Floor)
  }

  /** Removes the ASCII comma and the full-width comma. */
  function RemoveCommas(s: string): (r: string)
    ensures forall j | 0 <= j < |r| :: r[j] != ',' && r[j] != '，'
    ensures |r| <= |s|
  {
    if s == [] then []
    else (if s[0] == ',' || s[0] == '，' then [] else [s[0]]) + RemoveCommas(s[1..])
  }

  function FloatOf(d: Decimal): (c: Cell)
    ensures c.Float? && c.NumValue() == d.Value()
  {
    var m: int := d.mantissa;
    Float(if d.negative then -m else m, d.scale)
  }

  /** The unit branch: `float` of the first digit run, times 10000,
      truncated by `int`; `float` raises when the run is not a number. */
  function UnitValue(run: string): (r: Outcome<Cell>)
    ensures r.Returns? ==> r.value.Int?
    ensures r.Raises? ==> r.error == ValueError
  {
    match ParseUnsigned(run)
    case None => Raises(ValueError)
    case Some(d) => Returns(Int(UnitScaled(d)))
  }

  /** The plain branch: commas removed, then `float`, 0 when that fails. */
  function PlainValue(s: string): (r: Cell)
    ensures r.IsNumber()
  {
    match ParseFloat(RemoveCommas(s))
    case None => Int(0)
    case Some(d) => FloatOf(d)
  }

  /** The decision `clean_numeric_value` takes on the stripped text. */
  function CleanText(s: string): (r: Outcome<Cell>)
    ensures r.Returns? ==> r.value.IsNumber()
    ensures r.Raises? ==> r.error == ValueError && HasUnitMarker(s)
  {
    if HasUnitMarker(s) && FirstRun(s) != [] then UnitValue(FirstRun(s))
    else Returns(PlainValue(s))
  }

  /** `clean_numeric_value(value)`: 0 for a missing or empty value; a value
      whose text holds the ten-thousand unit is its first digit run times
      10000, truncated (`float` of that run is outside the `try`, so a run
      that is not a number raises); anything else loses its commas and is
      parsed as a float, 0 when that fails. */
  function CleanNumericValue(v: Cell): (r: Outcome<Cell>)
    ensures r.Returns? ==> r.value.IsNumber()
    ensures r.Raises? ==> r.error == ValueError && v.Text?
  {
    if v.Missing? || v == Text("") then Returns(Int(0))
    else
      NumberTextHasNoMarker(v);
      CleanText(Strip(CellText(v)))
  }

  predicate NumberChar(c: char) { IsDigit(c) || c == '.' || c == '-' }

  lemma {:induction false} SignedPointedChars(sign: string, whole: string, frac: string)
    requires sign == "" || sign == "-"
    requires AllDigits(whole) && AllDigits(frac)
    ensures forall j | 0 <= j < |sign + whole + "." + frac| :: NumberChar((sign + whole + "." + frac)[j])
  {
    var s := sign + whole + "." + frac;
    forall j | 0 <= j < |s| ensures NumberChar(s[j]) {
      if j < |sign| {
        assert s[j] == '-';
      } else if j < |sign| + |whole| {
        assert s[j] == whole[j - |sign|];
      } else if j > |sign| + |whole| {
        assert s[j] == frac[j - |sign| - |whole| - 1];
      }
    }
  }

  /** The text of a number is made of digits, a sign and a point only. */
  lemma NumberTextChars(v: Cell)
    requires v.IsNumber()
    ensures forall j | 0 <= j < |CellText(v)| :: NumberChar(CellText(v)[j])
  {
    if v.Int? {
      var t := NatToString(Abs(v.i));
      assert forall j | 0 <= j < |t| :: NumberChar(t[j]);
      if v.i < 0 {
        assert CellText(v) == "-" + t;
        assert forall j | 1 <= j < |CellText(v)| :: CellText(v)[j] == t[j - 1];
      }
    } else {
      var c := Shortest(v.mantissa, v.scale);
      var h := FloatHalves(c.0, c.1);
      SignedPointedChars(if v.mantissa < 0 then "-" else "", h.0, h.1);
    }
  }

  lemma NumberTextHasNoMarker(v: Cell)
    ensures v.IsNumber() ==> !HasUnitMarker(Strip(CellText(v)))
  {
    if v.IsNumber() {
      NumberTextChars(v);
      var t := CellText(v);
      forall j | 0 <= j < |t| ensures !IsSpace(t[j]) {
        assert NumberChar(t[j]);
      }
      StripNoSpace(t);
      assert forall j | 0 <= j < |t| :: t[j] != 'w' && t[j] != 'W' && t[j] != '万' by {
        forall j | 0 <= j < |t| ensures t[j] != 'w' && t[j] != 'W' && t[j] != '万' {
          assert NumberChar(t[j]);
        }
      }
    }
  }

  lemma RemoveCommasNoComma(s: string)
    requires forall j | 0 <= j < |s| :: s[j] != ',' && s[j] != '，'
    ensures RemoveCommas(s) == s
  {
  }

  /** The text of a number goes through `strip` and the comma removal
      unchanged. */
  lemma NumberTextUntouched(v: Cell)
    requires v.IsNumber()
    ensures Strip(CellText(v)) == CellText(v)
    ensures RemoveCommas(CellText(v)) == CellText(v)
    ensures !HasUnitMarker(CellText(v))
  {
    var t := CellText(v);
    NumberTextChars(v);
    NumberTextHasNoMarker(v);
    forall j | 0 <= j < |t| ensures !IsSpace(t[j]) && t[j] != ',' && t[j] != '，' {
      assert NumberChar(t[j]);
    }
    StripNoSpace(t);
    RemoveCommasNoComma(t);
  }

  /** `float(str(x)) == x` for a number x. */
  lemma NumberTextParses(v: Cell)
    requires v.IsNumber()
    ensures ParseFloat(CellText(v)).Some?
    ensures ParseFloat(CellText(v)).value.Value() == v.NumValue()
  {
    if v.Int? {
      IntRoundTrip(v.i);
    } else {
      FloatRoundTrip(v.mantissa, v.scale);
    }
  }

  /** Idempotence: cleaning a value that is already a number gives back the
      same number (`str` of it is read back by `float`). */
  lemma CleanNumberKeepsValue(v: Cell)
    requires v.IsNumber()
    ensures CleanNumericValue(v).Returns?
    ensures CleanNumericValue(v).value.NumValue() == v.NumValue()
  {
    var t := CellText(v);
    NumberTextUntouched(v);
    NumberTextParses(v);
    var d := ParseFloat(t).value;
    assert CleanNumericValue(v) == Returns(FloatOf(d));
  }

  /** Cleaning what cleaning produced changes nothing: the second pass
      returns the value of the first. */
  lemma CleanTwice(v: Cell)
    requires CleanNumericValue(v).Returns?
    ensures CleanNumericValue(CleanNumericValue(v).value).Returns?
    ensures CleanNumericValue(CleanNumericValue(v).value).value.NumValue()
            == CleanNumericValue(v).value.NumValue()
  {
    CleanNumberKeepsValue(CleanNumericValue(v).value);
  }

  lemma DivSplit(p: real, q: real, r: real)
    requires p > 0.0
    ensures (p * q + r) / p == q + r / p
  {
  }

  lemma FractionBelowOne(r: real, p: real)
    requires 0.0 <= r < p
    ensures 0.0 <= r / p < 1.0
  {
  }

  lemma QuotientNonNegative(a: real, p: real)
    requires a >= 0.0 && p > 0.0
    ensures a / p >= 0.0
  {
  }

  lemma {:induction false} FloorOfQuotient(a: nat, p: nat)
    requires p >= 1
    ensures (a as real / p as real).Floor == a / p
  {
    var q, r := a / p, a % p;
    assert a as real == p as real * q as real + r as real;
    DivSplit(p as real, q as real, r as real);
    FractionBelowOne(r as real, p as real);
  }

  lemma ScaleValue(m: nat, k: nat)
    ensures Decimal(false, m, k).Value() * TenThousand as real
            == (m * TenThousand) as real / Pow10(k) as real
  {
  }

  lemma UnitScaledExact(m: nat, k: nat)
    ensures UnitScaled(Decimal(false, m, k)) == m * TenThousand / Pow10(k)
    ensures m * TenThousand / Pow10(k) >= 0
  {
    var a, p := m * TenThousand, Pow10(k);
    var x := a as real / p as real;
    ScaleValue(m, k);
    assert x >= 0.0 by { QuotientNonNegative(a as real, p as real); }
    FloorOfQuotient(a, p);
    assert Trunc(x) == a / p;
  }

  /** A text carrying the unit and a digit run is, in whole numbers, the run's
      digits times 10000 divided by the power of ten its fraction length
      gives: never negative, since a sign in front of the run is not part of
      it. */
  lemma UnitValueIsScaledRun(s: string)
    requires HasUnitMarker(s) && FirstRun(s) != []
    requires ParseUnsigned(FirstRun(s)).Some?
    ensures var d := ParseUnsigned(FirstRun(s)).value;
      CleanText(s) == Returns(Int(d.mantissa * TenThousand / Pow10(d.scale)))
      && d.mantissa * TenThousand / Pow10(d.scale) >= 0
  {
    var run := FirstRun(s);
    UnitScaledExact(ParseUnsigned(run).value.mantissa, ParseUnsigned(run).value.scale);
    assert CleanText(s) == UnitValue(run);
  }

  /** A present, non-empty value is decided on its stripped text. */
  lemma CleanIsCleanText(v: Cell)
    requires v != Missing && v != Text("")
    ensures CleanNumericValue(v) == CleanText(Strip(CellText(v)))
  {
  }

  predicate AtMostOnePoint(s: string) {
    forall i, j | 0 <= i < |s| && 0 <= j < |s| && s[i] == '.' && s[j] == '.' :: i == j
  }

  /** A run of digits and points is a number for `float` exactly when it
      holds a digit and at most one point. */
  lemma RunParsesIff(run: string)
    requires forall j | 0 <= j < |run| :: IsRunChar(run[j])
    ensures ParseUnsigned(run).Some?
            <==> (exists j | 0 <= j < |run| :: IsDigit(run[j])) && AtMostOnePoint(run)
  {
    var i := IndexOf(run, '.');
    if i == |run| {
      assert AllDigits(run);
      assert AtMostOnePoint(run);
    } else {
      var whole, frac := run[..i], run[i + 1..];
      assert AllDigits(whole);
      assert AllDigits(frac) <==> AtMostOnePoint(run) by {
        if AllDigits(frac) {
          assert forall k | i < k < |run| :: run[k] == frac[k - i - 1];
          assert AtMostOnePoint(run);
        }
        if AtMostOnePoint(run) {
          forall k | 0 <= k < |frac| ensures IsDigit(frac[k]) {
            assert frac[k] == run[i + 1 + k];
          }
        }
      }
      if AllDigits(frac) {
        assert (|whole| + |frac| > 0) <==> exists j | 0 <= j < |run| :: IsDigit(run[j]) by {
          if |whole| > 0 { assert IsDigit(run[0]); }
          else if |frac| > 0 { assert IsDigit(run[i + 1]); }
        }
      }
    }
  }

  /** A text raises exactly when it carries the unit, has a digit/point
      run, and that first run has no digit or more than one point (".w",
      "1.2.3w"). */
  lemma CleanRaisesIff(s: string)
    ensures var run := FirstRun(s);
      CleanText(s).Raises?
      <==> HasUnitMarker(s) && run != []
           && (!(exists j | 0 <= j < |run| :: IsDigit(run[j])) || !AtMostOnePoint(run))
  {
    FirstRunFacts(s);
    RunParsesIff(FirstRun(s));
  }

  // ----- Worked values: the source's own comment and the edge cases -----

  lemma UnitBranchTaken(s: string)
    requires HasUnitMarker(s) && FirstRun(s) != []
    ensures CleanText(s) == UnitValue(FirstRun(s))
  {
  }

  lemma PlainBranchTaken(s: string)
    requires !HasUnitMarker(s) || FirstRun(s) == []
    ensures CleanText(s) == Returns(PlainValue(s))
  {
  }

  /** The first run is read off where it starts and ends. */
  lemma {:induction false} FirstRunIs(s: string, i: nat, j: nat)
    requires i < j <= |s|
    requires forall k | 0 <= k < i :: !IsRunChar(s[k])
    requires forall k | i <= k < j :: IsRunChar(s[k])
    requires j == |s| || !IsRunChar(s[j])
    ensures FirstRun(s) == s[i..j]
  {
    var r := FirstRun(s);
    var st := RunStart(s);
    FirstRunFacts(s);
    assert st == i by {
      assert IsRunChar(s[i]);
      assert IsRunChar(s[st]) by { assert s[st] == r[0]; }
    }
    assert |r| == j - i;
  }

  lemma UnitSuffixRun()
    ensures FirstRun("4.53w") == "4.53"
  {
    var s := "4.53w";
    forall k | 0 <= k < 4 ensures IsRunChar(s[k]) {
      assert k == 0 || k == 1 || k == 2 || k == 3;
    }
    FirstRunIs(s, 0, 4);
    assert s[0..4] == "4.53";
  }

  lemma UnitSuffixScaled()
    ensures UnitValue("4.53") == Returns(Int(45300))
  {
    assert ParseUnsigned("4.53") == Some(Decimal(false, 453, 2)) by {
      assert IndexOf("4.53", '.') == 1;
      assert "4.53"[..1] + "4.53"[2..] == "453";
      assert DigitsValue("453") == 453 by {
        assert "453"[..2] == "45";
        assert "45"[..1] == "4";
      }
    }
  }

  /** "4.53w -> 45300", the conversion the source's comment names. */
  lemma ExampleUnitSuffix()
    ensures CleanNumericValue(Text("4.53w")) == Returns(Int(45300))
  {
    StripKeeps("4.53w");
    assert HasUnitMarker("4.53w") by { assert "4.53w"[4] == 'w'; }
    UnitSuffixRun();
    UnitSuffixScaled();
    CleanIsCleanText(Text("4.53w"));
    UnitBranchTaken("4.53w");
  }

  lemma SignedUnitRun()
    ensures FirstRun("-1.2w") == "1.2"
  {
    var s := "-1.2w";
    assert !IsRunChar(s[0]);
    forall k | 1 <= k < 4 ensures IsRunChar(s[k]) {
      assert k == 1 || k == 2 || k == 3;
    }
    FirstRunIs(s, 1, 4);
    assert s[1..4] == "1.2";
  }

  lemma SignedUnitScaled()
    ensures UnitValue("1.2") == Returns(Int(12000))
  {
    assert ParseUnsigned("1.2") == Some(Decimal(false, 12, 1)) by {
      assert IndexOf("1.2", '.') == 1;
      assert "1.2"[..1] + "1.2"[2..] == "12";
      assert DigitsValue("12") == 12 by {
        assert "12"[..1] == "1";
      }
    }
  }

  /** The unit branch reads only the first run, so the sign is lost. */
  lemma ExampleSignLostInUnitBranch()
    ensures CleanNumericValue(Text("-1.2w")) == Returns(Int(12000))
  {
    StripKeeps("-1.2w");
    assert HasUnitMarker("-1.2w") by { assert "-1.2w"[4] == 'w'; }
    SignedUnitRun();
    SignedUnitScaled();
    CleanIsCleanText(Text("-1.2w"));
    UnitBranchTaken("-1.2w");
  }

  lemma BadRun()
    ensures FirstRun("1.2.3w") == "1.2.3"
  {
    var s := "1.2.3w";
    forall k | 0 <= k < 5 ensures IsRunChar(s[k]) {
      assert k == 0 || k == 1 || k == 2 || k == 3 || k == 4;
    }
    FirstRunIs(s, 0, 5);
    assert s[0..5] == "1.2.3";
  }

  lemma BadRunRaises()
    ensures UnitValue("1.2.3") == Raises(ValueError)
  {
    assert IndexOf("1.2.3", '.') == 1;
    assert "1.2.3"[2..] == "2.3";
    assert !IsDigit("2.3"[1]);
  }

  /** A first run with two points makes `float` raise. */
  lemma ExampleBadRunRaises()
    ensures CleanNumericValue(Text("1.2.3w")) == Raises(ValueError)
  {
    StripKeeps("1.2.3w");
    assert HasUnitMarker("1.2.3w") by { assert "1.2.3w"[5] == 'w'; }
    BadRun();
    BadRunRaises();
    CleanIsCleanText(Text("1.2.3w"));
    UnitBranchTaken("1.2.3w");
  }

  lemma CommaFreeParses()
    ensures ParseFloat("1234") == Some(Decimal(false, 1234, 0))
  {
    StripKeeps("1234");
    assert IndexOf("1234", '.') == 4;
    assert DigitsValue("1234") == 1234 by {
      assert "1234"[..3] == "123";
      assert "123"[..2] == "12";
      assert "12"[..1] == "1";
    }
  }

  /** Outside the unit branch the thousands commas are removed. */
  lemma ExampleCommaNumber()
    ensures CleanNumericValue(Text("1,234")) == Returns(Float(1234, 0))
  {
    StripKeeps("1,234");
    assert !HasUnitMarker("1,234");
    assert RemoveCommas("1,234") == "1234";
    CommaFreeParses();
    CleanIsCleanText(Text("1,234"));
    PlainBranchTaken("1,234");
  }

  lemma CommaRun()
    ensures FirstRun("1,234w") == "1"
  {
    var s := "1,234w";
    assert IsRunChar(s[0]) && !IsRunChar(s[1]);
    FirstRunIs(s, 0, 1);
    assert s[0..1] == "1";
  }

  lemma OneScaled()
    ensures UnitValue("1") == Returns(Int(10000))
  {
    assert ParseUnsigned("1") == Some(Decimal(false, 1, 0)) by {
      assert IndexOf("1", '.') == 1;
    }
    UnitScaledExact(1, 0);
  }

  /** In the unit branch a comma ends the first run: only the digits before
      it are scaled. */
  lemma ExampleCommaSplitsUnit()
    ensures CleanNumericValue(Text("1,234w")) == Returns(Int(10000))
  {
    StripKeeps("1,234w");
    assert HasUnitMarker("1,234w") by { assert "1,234w"[5] == 'w'; }
    CommaRun();
    OneScaled();
    CleanIsCleanText(Text("1,234w"));
    UnitBranchTaken("1,234w");
  }

  /** A lone point is a run, but not a number: the unit branch raises. */
  lemma ExamplePointRaises()
    ensures CleanNumericValue(Text(".w")) == Raises(ValueError)
  {
    var s := ".w";
    StripKeeps(s);
    assert HasUnitMarker(s) by { assert s[1] == 'w'; }
    assert IsRunChar(s[0]) && !IsRunChar(s[1]);
    FirstRunIs(s, 0, 1);
    assert s[0..1] == ".";
    assert IndexOf(".", '.') == 0;
    CleanIsCleanText(Text(s));
    UnitBranchTaken(s);
  }

  /** A unit marker without any digit or point falls through to the plain
      branch, where `float` fails and the value becomes 0. */
  lemma ExampleMarkerWithoutDigits()
    ensures CleanNumericValue(Text("w")) == Returns(Int(0))
  {
    var s := "w";
    StripKeeps(s);
    FirstRunFacts(s);
    assert !IsRunChar(s[0]);
    assert FirstRun(s) == [];
    assert RemoveCommas(s) == s;
    assert IndexOf(s, '.') == 1;
    assert !IsDigit(s[0]);
    CleanIsCleanText(Text(s));
    PlainBranchTaken(s);
  }

  // ----- clean_bilibili_data -----

  /** A frame, column by column: every column holds `height` cells. */
  datatype Frame = Frame(height: nat, columns: map<string, seq<Cell>>) {
    ghost predicate Valid() {
      forall k | k in columns :: |columns[k]| == height
    }
  }

  /** The Chinese spreadsheet headers and the names the code uses, in the
      order of the source's dictionary. */
  const ColumnMapping: seq<(string, string)> := [
    ("榜单类型", "rank_type"), ("创作领域", "domain"), ("时间", "date"),
    ("投币数", "coins"), ("头像", "avatar"), ("涨粉数", "fans_growth"),
    ("等级", "level"), ("获赞数", "likes"), ("mid", "mid"), ("up主", "up_name"),
    ("up主标签", "up_tag"), ("投稿视频数", "video_count"), ("播放数", "plays"),
    ("排名", "rank"), ("性别", "gender"), ("类型", "type"), ("弹幕数", "danmu")]

  /** The new name of header `k` under `pairs`, `k` itself when unmapped. */
  function Lookup(pairs: seq<(string, string)>, k: string): string {
    if pairs == [] then k
    else if pairs[0].0 == k then pairs[0].1
    else Lookup(pairs[1..], k)
  }

  const NumericColumns: seq<string> :=
    ["plays", "coins", "likes", "danmu", "fans_growth", "video_count", "level", "rank"]

  /** The numeric columns cast to int after cleaning (all but `level`). */
  const IntColumns: seq<string> :=
    ["plays", "coins", "likes", "danmu", "fans_growth", "video_count", "rank"]

  const TextColumns: seq<string> :=
    ["up_name", "domain", "gender", "rank_type", "type", "up_tag", "video_title"]

  function NewName(k: string): string {
    Lookup(ColumnMapping, k)
  }

  /** No two columns end up under one name after renaming. */
  predicate RenameIsInjective(f: Frame) {
    forall a, b | a in f.columns && b in f.columns && a != b :: NewName(a) != NewName(b)
  }

  /** The column names after renaming. */
  function RenamedKeys(raw: Frame): set<string> {
    set h | h in raw.columns :: NewName(h)
  }

  /** `df.rename(columns=column_mapping)`. */
  function Renamed(f: Frame): (g: Frame)
    requires RenameIsInjective(f)
    ensures g.height == f.height && g.columns.Keys == RenamedKeys(f)
    ensures forall k | k in f.columns :: g.columns[NewName(k)] == f.columns[k]
  {
    Frame(f.height, map k | k in f.columns :: NewName(k) := f.columns[k])
  }

  /** The synthetic titles `f"{row['up_name']}_视频"`. */
  function Titles(names: seq<Cell>): (t: seq<Cell>)
    ensures |t| == |names|
  {
    seq(|names|, i requires 0 <= i < |names| => Text(CellText(names[i]) + "_视频"))
  }

  /** Adds `video_title` when it is absent; reading `up_name` from a row
      fails when that column is missing too (on a sheet without rows the
      end result is the same, since `up_name` is required below). */
  function AddVideoTitle(f: Frame): Outcome<Frame> {
    if "video_title" in f.columns then Returns(f)
    else if "up_name" in f.columns then
      Returns(f.(columns := f.columns["video_title" := Titles(f.columns["up_name"])]))
    else Raises(KeyError)
  }

  /** `df[col].apply(clean_numeric_value)`: fails when one cell raises. */
  function CleanColumn(cells: seq<Cell>): (r: Outcome<seq<Cell>>)
    ensures r.Returns? <==> forall i | 0 <= i < |cells| :: CleanNumericValue(cells[i]).Returns?
    ensures r.Returns? ==> |r.value| == |cells|
    ensures r.Returns? ==> forall i | 0 <= i < |cells| :: r.value[i] == CleanNumericValue(cells[i]).value
  {
    if cells == [] then Returns([])
    else
      match CleanNumericValue(cells[0])
      case Raises(e) => Raises(e)
      case Returns(c) =>
        match CleanColumn(cells[1..])
        case Raises(e) =>
          assert forall i | 1 <= i < |cells| :: cells[i] == cells[1..][i - 1];
          Raises(e)
        case Returns(rest) =>
          assert forall i | 1 <= i < |cells| :: cells[i] == cells[1..][i - 1];
          Returns([c] + rest)
  }

  /** A numeric column after `apply`, `to_numeric` and, for the count
      columns, `astype(int)`. */
  function NumericResult(name: string, cells: seq<Cell>): (r: seq<Cell>)
    requires CleanColumn(cells).Returns?
    ensures |r| == |cells|
  {
    var cleaned := CleanColumn(cells).value;
    if name in IntColumns then
      seq(|cleaned|, i requires 0 <= i < |cleaned| => Int(Trunc(cleaned[i].NumValue())))
    else cleaned
  }

  /** `df[col].fillna(f'未知{col}').astype(str)`. */
  function TextResult(name: string, cells: seq<Cell>): (r: seq<Cell>)
    ensures |r| == |cells|
  {
    seq(|cells|, i requires 0 <= i < |cells| =>
      if cells[i].Missing? then Text("未知" + name) else Text(CellText(cells[i])))
  }

  predicate NumericCleanFails(f: Frame) {
    exists k | k in f.columns :: k in NumericColumns && CleanColumn(f.columns[k]).Raises?
  }

  /** The columns the closing preview selects: a missing one raises there. */
  const RequiredColumns: seq<string> :=
    ["up_name", "domain", "plays", "coins", "likes", "danmu", "video_title"]

  /** `[col for col in required_columns if col not in df.columns]`. */
  function MissingColumns(required: seq<string>, present: set<string>): (m: seq<string>)
    ensures forall c :: c in m <==> c in required && c !in present
  {
    if required == [] then []
    else (if required[0] in present then [] else [required[0]])
         + MissingColumns(required[1..], present)
  }

  function FinalColumn(name: string, cells: seq<Cell>): (r: seq<Cell>)
    requires name in NumericColumns ==> CleanColumn(cells).Returns?
    ensures |r| == |cells|
  {
    if name in NumericColumns then NumericResult(name, cells)
    else if name in TextColumns then TextResult(name, cells)
    else cells
  }

  /** The frame after renaming and adding the title column. */
  function Titled(raw: Frame): (r: Outcome<Frame>)
    requires RenameIsInjective(raw)
  {
    AddVideoTitle(Renamed(raw))
  }

  /** The numeric and text cleaning, column by column. */
  function Finished(f: Frame): (g: Frame)
    requires !NumericCleanFails(f)
    ensures g.height == f.height && g.columns.Keys == f.columns.Keys
    ensures forall k | k in f.columns :: g.columns[k] == FinalColumn(k, f.columns[k])
  {
    Frame(f.height, map k | k in f.columns :: FinalColumn(k, f.columns[k]))
  }

  predicate HasRequired(f: Frame) {
    MissingColumns(RequiredColumns, f.columns.Keys) == []
  }

  /** What `clean_bilibili_data` returns after reading the sheet: None when
      an exception reached its `except`. */
  function CleanedFrame(raw: Frame): Option<Frame>
    requires RenameIsInjective(raw)
  {
    match Titled(raw)
    case Raises(_) => None
    case Returns(f) =>
      if NumericCleanFails(f) || !HasRequired(f) then None else Some(Finished(f))
  }

  lemma ColumnListsDistinct()
    ensures forall i, j | 0 <= i < j < |NumericColumns| :: NumericColumns[i] != NumericColumns[j]
    ensures forall i, j | 0 <= i < j < |TextColumns| :: TextColumns[i] != TextColumns[j]
    ensures forall i, j | 0 <= i < |NumericColumns| && 0 <= j < |TextColumns| ::
      NumericColumns[i] != TextColumns[j]
  {
  }

  predicate Distinct(cols: seq<string>) {
    forall i, j | 0 <= i < j < |cols| :: cols[i] != cols[j]
  }

  /** The numeric-column loop: each listed column present in the frame is
      cleaned in place; the first cell that raises ends the function. */
  method CleanNumericColumns(base: Frame, cols: seq<string>) returns (r: Option<Frame>)
    requires Distinct(cols)
    ensures r.None? <==> exists k | k in base.columns :: k in cols && CleanColumn(base.columns[k]).Raises?
    ensures r.Some? ==> r.value.height == base.height && r.value.columns.Keys == base.columns.Keys
    ensures r.Some? ==> forall k | k in base.columns ::
      if k in cols then CleanColumn(base.columns[k]).Returns?
                        && r.value.columns[k] == NumericResult(k, base.columns[k])
      else r.value.columns[k] == base.columns[k]
  {
    var df := base;
    for i := 0 to |cols|
      invariant df.height == base.height && df.columns.Keys == base.columns.Keys
      invariant forall k | k in base.columns && k in cols[..i] :: CleanColumn(base.columns[k]).Returns?
      invariant forall k | k in df.columns ::
        df.columns[k] == if k in cols[..i] then NumericResult(k, base.columns[k]) else base.columns[k]
    {
      var col := cols[i];
      assert cols[..i + 1] == cols[..i] + [col];
      if col in df.columns {
        assert col !in cols[..i];
        var cleaned := CleanColumn(df.columns[col]);
        if cleaned.Raises? {
          return None;
        }
        df := df.(columns := df.columns[col := NumericResult(col, df.columns[col])]);
      }
    }
    assert cols[..|cols|] == cols;
    r := Some(df);
  }

  /** The text-column loop: each listed column present in the frame has its
      missing cells filled and every cell turned into text. */
  method CleanTextColumns(base: Frame, cols: seq<string>) returns (df: Frame)
    requires Distinct(cols)
    ensures df.height == base.height && df.columns.Keys == base.columns.Keys
    ensures forall k | k in base.columns ::
      df.columns[k] == if k in cols then TextResult(k, base.columns[k]) else base.columns[k]
  {
    df := base;
    for j := 0 to |cols|
      invariant df.height == base.height && df.columns.Keys == base.columns.Keys
      invariant forall k | k in df.columns ::
        df.columns[k] == if k in cols[..j] then TextResult(k, base.columns[k]) else base.columns[k]
    {
      var col := cols[j];
      assert cols[..j + 1] == cols[..j] + [col];
      if col in df.columns {
        assert col !in cols[..j];
        df := df.(columns := df.columns[col := TextResult(col, df.columns[col])]);
      }
    }
    assert cols[..|cols|] == cols;
  }

  lemma NumericIsNotText(k: string)
    requires k in NumericColumns
    ensures k !in TextColumns
  {
  }

  /** Cleaning the numeric columns and then the text columns gives every
      column its `FinalColumn`. */
  lemma {:induction false} StagesGiveFinalColumns(base: Frame, mid: Frame, df: Frame)
    requires mid.columns.Keys == base.columns.Keys && df.columns.Keys == base.columns.Keys
    requires forall k | k in base.columns ::
      if k in NumericColumns then CleanColumn(base.columns[k]).Returns?
                                  && mid.columns[k] == NumericResult(k, base.columns[k])
      else mid.columns[k] == base.columns[k]
    requires forall k | k in mid.columns ::
      df.columns[k] == if k in TextColumns then TextResult(k, mid.columns[k]) else mid.columns[k]
    ensures !NumericCleanFails(base)
    ensures df.height == base.height ==> df == Finished(base)
  {
    forall k | k in base.columns ensures df.columns[k] == FinalColumn(k, base.columns[k]) {
      if k in NumericColumns {
        NumericIsNotText(k);
      }
    }
  }

  /** `clean_bilibili_data` from the renaming on: the title column is added
      when absent, the numeric columns are cleaned, then the text columns,
      and the closing preview fails when a required column is missing. */
  method CleanBilibiliData(raw: Frame) returns (r: Option<Frame>)
    requires RenameIsInjective(raw)
    ensures r == CleanedFrame(raw)
  {
    ColumnListsDistinct();
    var titled := AddVideoTitle(Renamed(raw));
    if titled.Raises? {
      return None;
    }
    var base := titled.value;
    var numeric := CleanNumericColumns(base, NumericColumns);
    if numeric.None? {
      return None;
    }
    var df := CleanTextColumns(numeric.value, TextColumns);
    StagesGiveFinalColumns(base, numeric.value, df);
    var missing := MissingColumns(RequiredColumns, df.columns.Keys);
    if missing != [] {
      return None;
    }
    r := Some(df);
  }

  // ----- What the cleaned frame holds, in terms of the sheet read -----

  /** Renaming and adding the title column fails only when neither a title
      nor an `up_name` column exists; it keeps the rows and every renamed
      column, and adds the title column when it is missing. */
  lemma TitledFacts(raw: Frame)
    requires RenameIsInjective(raw)
    ensures Titled(raw).Raises? <==> "video_title" !in RenamedKeys(raw) && "up_name" !in RenamedKeys(raw)
    ensures Titled(raw).Returns? ==> var f := Titled(raw).value;
      f.height == raw.height
      && f.columns.Keys == RenamedKeys(raw) + {"video_title"}
      && (raw.Valid() ==> f.Valid())
      && forall h | h in raw.columns :: f.columns[NewName(h)] == raw.columns[h]
  {
  }

  lemma MissingRequired(f: Frame)
    ensures !HasRequired(f) <==> exists c | c in RequiredColumns :: c !in f.columns
  {
    if !HasRequired(f) {
      var m := MissingColumns(RequiredColumns, f.columns.Keys);
      assert m[0] in m;
    }
  }

  /** A numeric cell that raises, found through the renamed column. */
  predicate RawCellRaises(raw: Frame) {
    exists h, i | h in raw.columns && NewName(h) in NumericColumns && 0 <= i < |raw.columns[h]|
      :: CleanNumericValue(raw.columns[h][i]).Raises?
  }

  lemma NumericFailsIff(raw: Frame)
    requires RenameIsInjective(raw) && Titled(raw).Returns?
    ensures NumericCleanFails(Titled(raw).value) <==> RawCellRaises(raw)
  {
    var f := Titled(raw).value;
    if NumericCleanFails(f) {
      var k :| k in f.columns && k in NumericColumns && CleanColumn(f.columns[k]).Raises?;
      RaisingColumnIsRaw(raw, k);
    }
    if RawCellRaises(raw) {
      var h, i :| h in raw.columns && NewName(h) in NumericColumns && 0 <= i < |raw.columns[h]|
         && CleanNumericValue(raw.columns[h][i]).Raises?;
      RawCellFailsColumn(raw, h, i);
    }
  }

  lemma RaisingCell(cells: seq<Cell>)
    requires CleanColumn(cells).Raises?
    ensures exists i | 0 <= i < |cells| :: CleanNumericValue(cells[i]).Raises?
  {
  }

  lemma RaisingColumnIsRaw(raw: Frame, k: string)
    requires RenameIsInjective(raw) && Titled(raw).Returns?
    requires k in Titled(raw).value.columns && k in NumericColumns
    requires CleanColumn(Titled(raw).value.columns[k]).Raises?
    ensures RawCellRaises(raw)
  {
    TitledFacts(raw);
    NumericIsNotText(k);
    assert k != "video_title" by { assert "video_title" in TextColumns; }
    assert k in RenamedKeys(raw);
    var h :| h in raw.columns && NewName(h) == k;
    var cells := raw.columns[h];
    assert Titled(raw).value.columns[NewName(h)] == cells;
    RaisingCell(cells);
  }

  lemma RawCellFailsColumn(raw: Frame, h: string, i: nat)
    requires RenameIsInjective(raw) && Titled(raw).Returns?
    requires h in raw.columns && NewName(h) in NumericColumns && i < |raw.columns[h]|
    requires CleanNumericValue(raw.columns[h][i]).Raises?
    ensures NumericCleanFails(Titled(raw).value)
  {
    TitledFacts(raw);
    assert CleanColumn(Titled(raw).value.columns[NewName(h)]).Raises?;
  }

  lemma RequiredIff(raw: Frame)
    requires RenameIsInjective(raw) && Titled(raw).Returns?
    ensures HasRequired(Titled(raw).value)
            <==> forall c | c in RequiredColumns && c != "video_title" :: c in RenamedKeys(raw)
  {
    TitledFacts(raw);
    MissingRequired(Titled(raw).value);
  }

  /** The cleaning fails (the function returns None) exactly when one of the
      six required columns other than the title is missing after renaming,
      or a cell of a numeric column makes `clean_numeric_value` raise. */
  lemma CleanedFrameFailsIff(raw: Frame)
    requires RenameIsInjective(raw)
    ensures CleanedFrame(raw).None? <==>
      (exists c | c in RequiredColumns && c != "video_title" :: c !in RenamedKeys(raw))
      || RawCellRaises(raw)
  {
    TitledFacts(raw);
    if Titled(raw).Returns? {
      NumericFailsIff(raw);
      RequiredIff(raw);
    } else {
      assert "up_name" in RequiredColumns;
    }
  }

  /** Each renamed column of the result is its `FinalColumn`. */
  lemma CleanedColumn(raw: Frame, h: string)
    requires RenameIsInjective(raw) && CleanedFrame(raw).Some? && h in raw.columns
    ensures NewName(h) in NumericColumns ==> CleanColumn(raw.columns[h]).Returns?
    ensures var g := CleanedFrame(raw).value;
      NewName(h) in g.columns && g.columns[NewName(h)] == FinalColumn(NewName(h), raw.columns[h])
  {
    TitledFacts(raw);
    var f := Titled(raw).value;
    assert f.columns[NewName(h)] == raw.columns[h];
  }

  lemma NumericResultCell(name: string, cells: seq<Cell>, i: nat)
    requires CleanColumn(cells).Returns? && i < |cells|
    ensures CleanNumericValue(cells[i]).Returns?
    ensures var v := CleanNumericValue(cells[i]).value;
      NumericResult(name, cells)[i] == if name in IntColumns then Int(Trunc(v.NumValue())) else v
  {
  }

  /** A numeric column of the result holds, cell by cell, what
      `clean_numeric_value` made of the sheet's cell, truncated to an int in
      every such column but `level`. */
  lemma CleanedNumericCell(raw: Frame, h: string, i: nat)
    requires RenameIsInjective(raw) && raw.Valid() && CleanedFrame(raw).Some?
    requires h in raw.columns && NewName(h) in NumericColumns && i < raw.height
    ensures CleanNumericValue(raw.columns[h][i]).Returns?
    ensures var g := CleanedFrame(raw).value; var k := NewName(h);
      var v := CleanNumericValue(raw.columns[h][i]).value;
      k in g.columns && |g.columns[k]| == raw.height
      && g.columns[k][i] == if k in IntColumns then Int(Trunc(v.NumValue())) else v
  {
    CleanedColumn(raw, h);
    NumericResultCell(NewName(h), raw.columns[h], i);
  }

  /** A text column of the result holds the text of the sheet's cell, and
      `未知<column>` where the cell was empty. */
  lemma CleanedTextCell(raw: Frame, h: string, i: nat)
    requires RenameIsInjective(raw) && raw.Valid() && CleanedFrame(raw).Some?
    requires h in raw.columns && NewName(h) in TextColumns && i < raw.height
    ensures var g := CleanedFrame(raw).value; var k := NewName(h); var c := raw.columns[h][i];
      k in g.columns && |g.columns[k]| == raw.height
      && g.columns[k][i] == if c.Missing? then Text("未知" + k) else Text(CellText(c))
  {
    CleanedColumn(raw, h);
    assert NewName(h) !in NumericColumns by {
      if NewName(h) in NumericColumns { NumericIsNotText(NewName(h)); }
    }
  }

  /** Every other column comes through renamed and otherwise unchanged. */
  lemma UntouchedColumn(raw: Frame, h: string)
    requires RenameIsInjective(raw) && CleanedFrame(raw).Some?
    requires h in raw.columns && NewName(h) !in NumericColumns && NewName(h) !in TextColumns
    ensures var g := CleanedFrame(raw).value;
      NewName(h) in g.columns && g.columns[NewName(h)] == raw.columns[h]
  {
    CleanedColumn(raw, h);
  }

  /** A sheet without a title column gets `<up_name>_视频` titles, built from
      the name before the text cleaning (an empty name reads "nan"). */
  lemma CleanedTitleCell(raw: Frame, h: string, i: nat)
    requires RenameIsInjective(raw) && raw.Valid() && CleanedFrame(raw).Some?
    requires "video_title" !in RenamedKeys(raw)
    requires h in raw.columns && NewName(h) == "up_name" && i < raw.height
    ensures var g := CleanedFrame(raw).value;
      "video_title" in g.columns && |g.columns["video_title"]| == raw.height
      && g.columns["video_title"][i] == Text(CellText(raw.columns[h][i]) + "_视频")
  {
    var names := Renamed(raw).columns["up_name"];
    assert names == raw.columns[h] && |names| == raw.height;
    var titles := Titles(names);
    var f := Titled(raw).value;
    assert f.columns["video_title"] == titles;
    assert "video_title" !in NumericColumns && "video_title" in TextColumns;
    var g := CleanedFrame(raw).value;
    assert g == Finished(f);
    assert g.columns["video_title"] == TextResult("video_title", titles);
    assert titles[i] == Text(CellText(names[i]) + "_视频");
  }

  /** The result keeps the sheet's rows, has every column the same height,
      and has exactly the renamed columns plus the title column, among them
      all the required ones. */
  lemma CleanedFrameShape(raw: Frame)
    requires RenameIsInjective(raw) && raw.Valid() && CleanedFrame(raw).Some?
    ensures var g := CleanedFrame(raw).value;
      g.height == raw.height && g.Valid()
      && g.columns.Keys == RenamedKeys(raw) + {"video_title"}
      && forall c | c in RequiredColumns :: c in g.columns
  {
    TitledFacts(raw);
    MissingRequired(Titled(raw).value);
  }
}
