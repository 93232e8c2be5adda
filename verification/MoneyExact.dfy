/** Exact decimal money: amounts as 64-bit counts of millionths, parsed from and printed as decimal text. */
module MoneyExact {
  import opened Wrappers
  import opened Digits

  const SCALE_DIGITS := 6
  const SCALE := 1_000_000
  const MAX_RAW: int := 0x7FFF_FFFF_FFFF_FFFF

  // Every 64-bit count except the minimum, whose magnitude a 64-bit integer cannot hold.
  type Micros = x: int | -MAX_RAW <= x <= MAX_RAW

  // ---- Decimal text -------------------------------------------------------------------------------

  /** A decimal number as written: an optional sign, digits, and up to six digits behind a point. */
  datatype Decimal = Decimal(sign: string, whole: string, frac: string) {
    predicate Valid() {
      && sign in ["", "+", "-"]
      && whole != "" && AllDigits(whole)
      && AllDigits(frac) && |frac| <= SCALE_DIGITS
    }

    function Render(): string { sign + whole + if frac == "" then "" else "." + frac }

    // The digits of the number of millionths.
    function Normalized(): (s: string)
      requires Valid()
      ensures AllDigits(s)
    {
      whole + frac + Zeros(SCALE_DIGITS - |frac|)
    }

    function Magnitude(): nat
      requires Valid()
    {
      Value(Normalized())
    }

    function Signed(): int
      requires Valid()
    {
      var m: int := Magnitude();
      if sign == "-" then -m else m
    }
  }

  // The end of the run of digits that starts at i.
  function DigitsEnd(s: string, i: nat): (j: nat)
    requires i <= |s|
    ensures i <= j <= |s| && AllDigits(s[i..j]) && (j == |s| || !IsDigit(s[j]))
    decreases |s| - i
  {
    if i < |s| && IsDigit(s[i]) then
      var j := DigitsEnd(s, i + 1);
      assert s[i..j] == [s[i]] + s[i + 1..j];
      j
    else i
  }

  lemma {:induction false} DigitsEndUnique(s: string, i: nat, j: nat)
    requires i <= j <= |s| && AllDigits(s[i..j]) && (j == |s| || !IsDigit(s[j]))
    ensures DigitsEnd(s, i) == j
    decreases j - i
  {
    if i < j {
      assert s[i..j][0] == s[i] && s[i..j][1..] == s[i + 1..j];
      DigitsEndUnique(s, i + 1, j);
    }
  }

  function Split(text: string): Option<Decimal> {
    if text == "" then None
    else
      var start := if text[0] == '+' || text[0] == '-' then 1 else 0;
      var point := DigitsEnd(text, start);
      if point == start then None
      else if point == |text| then Some(Decimal(text[..start], text[start..point], ""))
      else if text[point] != '.' then None
      else
        var end := DigitsEnd(text, point + 1);
        if end == point + 1 || end > point + 1 + SCALE_DIGITS || end != |text| then None
        else Some(Decimal(text[..start], text[start..point], text[point + 1..end]))
  }

  lemma SignOf(text: string)
    requires text != ""
    ensures text[..if text[0] == '+' || text[0] == '-' then 1 else 0] in ["", "+", "-"]
  {
    assert text[..1] == [text[0]];
  }

  lemma CutAndJoined(text: string, start: nat, point: nat)
    requires start <= point <= |text|
    ensures text == text[..start] + text[start..point] + text[point..]
    ensures point < |text| ==> text[point..] == [text[point]] + text[point + 1..]
  {
  }

  lemma SplitSound(text: string)
    requires Split(text).Some?
    ensures Split(text).value.Valid() && Split(text).value.Render() == text
  {
    var start := |Split(text).value.sign|;
    SignOf(text);
    CutAndJoined(text, start, DigitsEnd(text, start));
  }

  // Where the parts of a rendered decimal are.
  lemma RenderParts(d: Decimal)
    requires d.Valid()
    ensures var text, start, point := d.Render(), |d.sign|, |d.sign| + |d.whole|;
            && point <= |text| && text[..start] == d.sign && text[start..point] == d.whole
            && text[0] == (if d.sign == "" then d.whole[0] else d.sign[0])
            && (d.frac == "" ==> point == |text|)
            && (d.frac != "" ==> point < |text| && text[point] == '.' && text[point + 1..] == d.frac)
  {
  }

  lemma SplitComplete(d: Decimal)
    requires d.Valid()
    ensures Split(d.Render()) == Some(d)
  {
    var text := d.Render();
    var start, point := |d.sign|, |d.sign| + |d.whole|;
    RenderParts(d);
    DigitsEndUnique(text, start, point);
    if d.frac != "" {
      assert text[point + 1..|text|] == text[point + 1..];
      DigitsEndUnique(text, point + 1, |text|);
    }
  }

  /** The grammar is unambiguous, and splitting finds the one way to read a text. */
  lemma SplitExact(text: string, d: Decimal)
    ensures Split(text) == Some(d) <==> d.Valid() && d.Render() == text
  {
    if Split(text).Some? {
      SplitSound(text);
    }
    if d.Valid() {
      SplitComplete(d);
    }
  }

  function Parse(text: string): (r: Option<Micros>) {
    var d := Split(text);
    if d.None? then None
    else
      SplitSound(text);
      if d.value.Magnitude() > MAX_RAW then None else Some(d.value.Signed())
  }

  method SkipDigits(text: string, from: nat) returns (pos: nat)
    requires from <= |text|
    ensures pos == DigitsEnd(text, from)
  {
    pos := from;
    while pos < |text| && IsDigit(text[pos])
      invariant from <= pos <= |text| && DigitsEnd(text, from) == DigitsEnd(text, pos)
    {
      pos := pos + 1;
    }
  }

  /** Reads a decimal text; never goes through a floating-point number. */
  method FromDecimalString(text: string) returns (result: Option<Micros>)
    ensures result == Parse(text)
  {
    if |text| == 0 {
      return None;
    }
    var negative := false;
    var intStart := 0;
    if text[0] == '+' || text[0] == '-' {
      negative := text[0] == '-';
      intStart := 1;
    }
    var pos := SkipDigits(text, intStart);
    var intDigits := text[intStart..pos];
    if intDigits == "" {
      return None;
    }
    var fracDigits := "";
    if pos < |text| {
      if text[pos] != '.' {
        return None;
      }
      var fracStart := pos + 1;
      pos := SkipDigits(text, fracStart);
      fracDigits := text[fracStart..pos];
      if fracDigits == "" || |fracDigits| > SCALE_DIGITS {
        return None;
      }
    }
    if pos != |text| {
      return None;
    }
    assert Split(text) == Some(Decimal(text[..intStart], intDigits, fracDigits));
    result := FromDigits(negative, intDigits, fracDigits);
    SignedParts(text, negative);
  }

  // Pads to six fractional digits and reads the whole as one integer, refusing one above 2^63 - 1.
  method FromDigits(negative: bool, intDigits: string, fracDigits: string) returns (result: Option<Micros>)
    requires AllDigits(intDigits) && AllDigits(fracDigits) && |fracDigits| <= SCALE_DIGITS
    ensures var m: int := Value(intDigits + fracDigits + Zeros(SCALE_DIGITS - |fracDigits|));
            result == if m > MAX_RAW then None else Some(if negative then -m else m)
  {
    var normalized := intDigits;
    normalized := normalized + fracDigits;
    normalized := normalized + Zeros(SCALE_DIGITS - |fracDigits|);
    var magnitude: int := Value(normalized);
    if magnitude > MAX_RAW {
      return None;
    }
    return Some(if negative then -magnitude else magnitude);
  }

  lemma SignedParts(text: string, negative: bool)
    requires Split(text).Some? && negative == (text[0] == '-')
    ensures negative == (Split(text).value.sign == "-")
  {
    assert text[..1] == [text[0]];
  }

  function Print(raw: Micros): string {
    var magnitude: nat := if raw < 0 then -raw else raw;
    (if raw < 0 then "-" else "") + ToString(magnitude / SCALE) + "." + SixFraction(magnitude % SCALE)
  }

  lemma SixDigits()
    ensures Power10(SCALE_DIGITS) == SCALE
  {
    assert Power10(3) == 1000;
    assert Power10(6) == 10 * (10 * (10 * Power10(3)));
  }

  lemma FractionFits(n: nat)
    requires n < SCALE
    ensures |ToString(n)| <= SCALE_DIGITS
  {
    SixDigits();
    ToStringLength(n, SCALE_DIGITS);
  }

  // The text of an amount, taken apart.
  function Printed(raw: Micros): (d: Decimal)
    ensures d.Valid() && |d.frac| == SCALE_DIGITS
    ensures d.sign == if raw < 0 then "-" else ""
    ensures |d.whole| > 1 ==> d.whole[0] != '0'
  {
    var magnitude: nat := if raw < 0 then -raw else raw;
    Decimal(if raw < 0 then "-" else "", ToString(magnitude / SCALE), SixFraction(magnitude % SCALE))
  }

  function SixFraction(n: nat): (s: string)
    requires n < SCALE
    ensures |s| == SCALE_DIGITS && AllDigits(s)
  {
    FractionFits(n);
    Zeros(SCALE_DIGITS - |ToString(n)|) + ToString(n)
  }

  lemma PrintedRenders(raw: Micros)
    ensures Printed(raw).Render() == Print(raw)
  {
    var d := Printed(raw);
    assert d.sign + d.whole + ("." + d.frac) == d.sign + d.whole + "." + d.frac;
  }

  lemma SixFractionValue(n: nat)
    requires n < SCALE
    ensures Value(SixFraction(n)) == n
  {
    FractionFits(n);
    ValueZeros(SCALE_DIGITS - |ToString(n)|);
    ValueConcat(Zeros(SCALE_DIGITS - |ToString(n)|), ToString(n));
  }

  // The whole and the fractional digits of a decimal with six fractional digits.
  lemma MagnitudeParts(d: Decimal)
    requires d.Valid() && |d.frac| == SCALE_DIGITS
    ensures d.Magnitude() == Value(d.whole) * SCALE + Value(d.frac)
    ensures d.Magnitude() / SCALE == Value(d.whole) && d.Magnitude() % SCALE == Value(d.frac)
  {
    assert d.Normalized() == d.whole + d.frac;
    ValueConcat(d.whole, d.frac);
    ValueBound(d.frac);
    SixDigits();
    DivideBack(Value(d.whole), Value(d.frac));
  }

  lemma DivideBack(whole: nat, frac: nat)
    requires frac < SCALE
    ensures (whole * SCALE + frac) / SCALE == whole && (whole * SCALE + frac) % SCALE == frac
  {
  }

  lemma PrintedMagnitude(raw: Micros)
    ensures Printed(raw).Signed() == raw
  {
    MagnitudeParts(Printed(raw));
    SixFractionValue((if raw < 0 then -raw else raw) % SCALE);
  }

  /** Printing an amount and parsing the text gives the amount back. */
  lemma ParsePrint(raw: Micros)
    ensures Parse(Print(raw)) == Some(raw)
  {
    PrintedMagnitude(raw);
    PrintedRenders(raw);
    SplitExact(Print(raw), Printed(raw));
  }

  /** Six digits behind the point, no leading zeros, no plus sign, no negative zero. */
  predicate Canonical(d: Decimal) {
    && d.Valid() && |d.frac| == SCALE_DIGITS && d.sign != "+"
    && (|d.whole| > 1 ==> d.whole[0] != '0')
    && (d.sign == "-" ==> d.Magnitude() != 0)
  }

  lemma CanonicalUnique(a: Decimal, b: Decimal)
    requires Canonical(a) && Canonical(b) && a.Signed() == b.Signed()
    ensures a == b
  {
    assert a.Magnitude() == b.Magnitude() && (a.sign == "-" <==> b.sign == "-");
    MagnitudeParts(a);
    MagnitudeParts(b);
    ValueInjective(a.frac, b.frac);
    SameWhole(a.whole, b.whole);
  }

  // Whole numbers without leading zeros are told apart by their value.
  lemma SameWhole(s: string, t: string)
    requires AllDigits(s) && AllDigits(t) && s != "" && t != "" && Value(s) == Value(t)
    requires (|s| > 1 ==> s[0] != '0') && (|t| > 1 ==> t[0] != '0')
    ensures s == t
  {
    ValueBound(s);
    ValueBound(t);
    PowerMonotone(|s|, |t| - 1);
    PowerMonotone(|t|, |s| - 1);
    ValueInjective(s, t);
  }

  /**
    Every accepted text prints as the canonical text of its value, and that text is unchanged by parsing and
    printing; a text is refused exactly when it is not of the grammar or its magnitude is above 2^63 - 1.
   */
  lemma PrintParse(text: string)
    ensures Parse(text).None? <==> forall d: Decimal | d.Valid() && d.Render() == text :: d.Magnitude() > MAX_RAW
    ensures forall d: Decimal | d.Valid() && d.Render() == text && Parse(text).Some? ::
              Parse(text).value == d.Signed() && Canonical(Printed(d.Signed()))
    ensures forall d: Decimal | Canonical(d) && d.Render() == text && Parse(text).Some? ::
              Print(Parse(text).value) == text
  {
    forall d: Decimal ensures Split(text) == Some(d) <==> d.Valid() && d.Render() == text {
      SplitExact(text, d);
    }
    if Parse(text).Some? {
      var d := Split(text).value;
      PrintedMagnitude(d.Signed());
      PrintedRenders(d.Signed());
      assert Canonical(Printed(d.Signed()));
      if Canonical(d) {
        CanonicalUnique(d, Printed(d.Signed()));
      }
    }
  }
}
