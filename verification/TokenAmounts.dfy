/** Base units to display decimals and back, on decimal text. */
module TokenAmounts {

  datatype AmountError = NotInteger | BadDecimals | NotCanonical | TooPrecise | NotPositive
  datatype Result = Text(value: string) | Bad(error: AmountError)

  // ---------------------------------------------------------------------
  // Digit strings
  // ---------------------------------------------------------------------

  predicate IsDigits(s: string) {
    forall i :: 0 <= i < |s| ==> '0' <= s[i] <= '9'
  }

  function Pow10(n: nat): (p: nat)
    ensures p > 0
  {
    if n == 0 then 1 else 10 * Pow10(n - 1)
  }

  function Scale(v: nat, n: nat): nat {
    v * Pow10(n)
  }

  /** The number a digit string denotes, as `BigInt` reads it. */
  function Value(s: string): nat
    requires IsDigits(s)
  {
    if s == "" then 0 else Value(s[..|s| - 1]) * 10 + (s[|s| - 1] - '0') as nat
  }

  /** The digits of a number, as `BigInt` prints it. */
  function Digits(n: nat): string {
    if n < 10 then ['0' + n as char] else Digits(n / 10) + ['0' + (n % 10) as char]
  }

  function Zeros(n: nat): (s: string)
    ensures |s| == n && IsDigits(s) && forall i :: 0 <= i < n ==> s[i] == '0'
  {
    seq(n, _ => '0')
  }

  /** Drop leading zeros, but never the last digit. */
  function StripLeading(s: string): string {
    if |s| > 1 && s[0] == '0' then StripLeading(s[1..]) else s
  }

  function StripTrailing(s: string): string {
    if s != "" && s[|s| - 1] == '0' then StripTrailing(s[..|s| - 1]) else s
  }

  function PadStart(s: string, n: nat): (r: string)
    ensures |r| == if |s| >= n then |s| else n
  {
    if |s| >= n then s else Zeros(n - |s|) + s
  }

  function PadEnd(s: string, n: nat): string
    requires |s| <= n
  {
    s + Zeros(n - |s|)
  }

  // ---------------------------------------------------------------------
  // The two conversions
  // ---------------------------------------------------------------------

  function UpperCase(s: string): string {
    if s == "" then "" else [if 'a' <= s[0] <= 'z' then s[0] - 'a' + 'A' else s[0]] + UpperCase(s[1..])
  }

  const ASSET_DECIMALS: map<string, nat> := map["DEM" := 9, "USDC" := 6, "USDT" := 6, "DAI" := 18, "OS" := 0]

  function DecimalsOf(asset: string): nat {
    var name := UpperCase(asset);
    if name in ASSET_DECIMALS then ASSET_DECIMALS[name] else 0
  }

  function Display(whole: string, fraction: string): string {
    if fraction != "" then whole + "." + fraction else whole
  }

  function ToDecimal(amount: string, decimals: nat): Result {
    if amount == "" || !IsDigits(amount) then Bad(NotInteger)
    else if decimals == 0 then Text(Digits(Value(amount)))
    else
      var padded := PadStart(amount, decimals + 1);
      var whole := StripLeading(padded[..|padded| - decimals]);
      var fraction := StripTrailing(padded[|padded| - decimals..]);
      Text(Display(whole, fraction))
  }

  function BaseAmountToDecimal(amount: string, asset: string): Result {
    ToDecimal(amount, DecimalsOf(asset))
  }

  function PointIndex(s: string): (k: nat)
    ensures k <= |s| && (k < |s| ==> s[k] == '.') && '.' !in s[..k]
  {
    if s == "" || s[0] == '.' then 0 else
      var k := PointIndex(s[1..]);
      assert s[..k + 1] == [s[0]] + s[1..][..k];
      k + 1
  }

  function WholePart(amount: string): string {
    amount[..PointIndex(amount)]
  }

  /** Empty when there is no point. */
  function FractionPart(amount: string): string {
    var k := PointIndex(amount);
    if k == |amount| then "" else amount[k + 1..]
  }

  predicate CanonicalWhole(whole: string) {
    whole != "" && IsDigits(whole) && (whole[0] == '0' ==> whole == "0")
  }

  /** No sign, no leading zeros, and digits after the point if there is one. */
  predicate CanonicalDecimal(amount: string) {
    && CanonicalWhole(WholePart(amount))
    && IsDigits(FractionPart(amount))
    && (PointIndex(amount) < |amount| ==> FractionPart(amount) != "")
  }

  const MAX_DECIMALS := 36

  function DecimalToBaseUnits(amount: string, decimals: int): Result {
    if !(0 <= decimals <= MAX_DECIMALS) then Bad(BadDecimals)
    else if !CanonicalDecimal(amount) then Bad(NotCanonical)
    else
      var whole, fraction := WholePart(amount), FractionPart(amount);
      if |fraction| > decimals then Bad(TooPrecise)
      else
        var value := Scale(Value(whole), decimals) + Value(PadEnd(fraction, decimals));
        if value == 0 then Bad(NotPositive) else Text(Digits(value))
  }

  // ---------------------------------------------------------------------
  // Values of digit strings
  // ---------------------------------------------------------------------

  lemma ScaleStep(v: nat, n: nat)
    ensures Scale(v, n + 1) == 10 * Scale(v, n) && Scale(0, n) == 0 && Scale(v, 0) == v
  {
    assert v * (10 * Pow10(n)) == 10 * (v * Pow10(n));
  }

  lemma {:induction false} ValueOfConcat(a: string, b: string)
    requires IsDigits(a) && IsDigits(b)
    ensures IsDigits(a + b) && Value(a + b) == Scale(Value(a), |b|) + Value(b)
  {
    if b == "" {
      assert a + b == a;
      ScaleStep(Value(a), 0);
    } else {
      var front, last := b[..|b| - 1], b[|b| - 1];
      ValueOfConcat(a, front);
      assert a + b == (a + front) + [last] && b == front + [last];
      hide Scale, Value;
      ScaleStep(Value(a), |front|);
      LastDigit(a + front, last);
      LastDigit(front, last);
    }
  }

  lemma LastDigit(s: string, d: char)
    requires IsDigits(s) && '0' <= d <= '9'
    ensures IsDigits(s + [d]) && Value(s + [d]) == Value(s) * 10 + (d - '0') as nat
  {
    assert (s + [d])[..|s|] == s;
  }

  lemma {:induction false} ValueOfZeros(n: nat)
    ensures Value(Zeros(n)) == 0
  {
    if n > 0 {
      ValueOfZeros(n - 1);
      assert Zeros(n)[..n - 1] == Zeros(n - 1);
    }
  }

  lemma ValueOfPadStart(s: string, n: nat)
    requires IsDigits(s)
    ensures IsDigits(PadStart(s, n)) && Value(PadStart(s, n)) == Value(s)
  {
    if |s| < n {
      ValueOfZeros(n - |s|);
      ValueOfConcat(Zeros(n - |s|), s);
      ScaleStep(0, |s|);
    }
  }

  lemma {:induction false} ValueOfStripLeading(s: string)
    requires IsDigits(s)
    ensures IsDigits(StripLeading(s)) && Value(StripLeading(s)) == Value(s)
    ensures s != "" ==> CanonicalWhole(StripLeading(s))
  {
    if |s| > 1 && s[0] == '0' {
      ValueOfStripLeading(s[1..]);
      assert s == Zeros(1) + s[1..];
      ValueOfZeros(1);
      ValueOfConcat(Zeros(1), s[1..]);
      ScaleStep(0, |s| - 1);
    }
  }

  lemma {:induction false} DigitsOfValue(s: string)
    requires CanonicalWhole(s)
    ensures Digits(Value(s)) == s
  {
    if |s| == 1 {
      assert Value(s[..0]) == 0;
    } else {
      var front, d := s[..|s| - 1], (s[|s| - 1] - '0') as nat;
      DigitsOfValue(front);
      PositiveValue(front);
      assert Value(s) / 10 == Value(front) && Value(s) % 10 == d;
      assert s == front + [s[|s| - 1]];
    }
  }

  lemma {:induction false} PositiveValue(s: string)
    requires s != "" && IsDigits(s) && s[0] != '0'
    ensures Value(s) > 0
  {
    if |s| > 1 {
      PositiveValue(s[..|s| - 1]);
    }
  }

  /** Printing what was read drops the leading zeros and nothing else. */
  lemma DigitsAreStripped(s: string)
    requires s != "" && IsDigits(s)
    ensures Digits(Value(s)) == StripLeading(s)
  {
    ValueOfStripLeading(s);
    DigitsOfValue(StripLeading(s));
  }

  lemma {:induction false} PadBack(f: string)
    ensures |StripTrailing(f)| <= |f| && PadEnd(StripTrailing(f), |f|) == f
    ensures IsDigits(f) ==> IsDigits(StripTrailing(f))
  {
    if f != "" && f[|f| - 1] == '0' {
      var front := f[..|f| - 1];
      PadBack(front);
      assert Zeros(|f| - |StripTrailing(front)|) == Zeros(|front| - |StripTrailing(front)|) + "0";
      assert f == front + "0";
    }
  }

  lemma {:induction false} StripPadded(f: string, n: nat)
    requires |f| <= n
    ensures StripTrailing(PadEnd(f, n)) == StripTrailing(f)
  {
    var padded := PadEnd(f, n);
    if n == |f| {
      assert padded == f;
    } else {
      StripPadded(f, n - 1);
      assert padded[..n - 1] == PadEnd(f, n - 1) && padded[n - 1] == '0';
    }
  }

  lemma NoPointInDigits(s: string)
    requires IsDigits(s)
    ensures '.' !in s
  {
  }

  lemma {:induction false} PointAfter(whole: string, rest: string)
    requires '.' !in whole && (rest == "" || rest[0] == '.')
    ensures PointIndex(whole + rest) == |whole|
  {
    if whole == "" {
      assert whole + rest == rest;
    } else {
      assert (whole + rest)[0] == whole[0] && (whole + rest)[1..] == whole[1..] + rest;
      PointAfter(whole[1..], rest);
    }
  }

  lemma PartsOfSplit(whole: string, fraction: string)
    requires IsDigits(whole)
    ensures var text := Display(whole, fraction);
            WholePart(text) == whole && FractionPart(text) == fraction && (PointIndex(text) < |text| ==> fraction != "")
  {
    NoPointInDigits(whole);
    if fraction != "" {
      assert whole + "." + fraction == whole + ("." + fraction);
      PointAfter(whole, "." + fraction);
    } else {
      assert whole + "" == whole;
      PointAfter(whole, "");
    }
  }

  // ---------------------------------------------------------------------
  // What the units are worth
  // ---------------------------------------------------------------------

  /** An accepted amount is turned into exactly its value times ten to the decimals. */
  lemma UnitsAreExact(amount: string, decimals: int)
    requires DecimalToBaseUnits(amount, decimals).Text?
    ensures var units, fraction := DecimalToBaseUnits(amount, decimals).value, FractionPart(amount);
            && CanonicalWhole(units) && |fraction| <= decimals
            && Value(units) == Scale(Value(WholePart(amount)), decimals) + Scale(Value(fraction), decimals - |fraction|)
  {
    var whole, fraction := WholePart(amount), FractionPart(amount);
    hide Value, Scale, StripLeading, WholePart, FractionPart, PointIndex, Digits;
    var s := whole + PadEnd(fraction, decimals);
    UnitsAsText(amount, decimals);
    ValueOfStripLeading(s);
    ValueOfConcat(whole, PadEnd(fraction, decimals));
    ValueOfConcat(fraction, Zeros(decimals - |fraction|));
    ValueOfZeros(decimals - |fraction|);
  }

  lemma PadEndFills(f: string, n: nat)
    requires |f| <= n
    ensures |PadEnd(f, n)| == n && (IsDigits(f) ==> IsDigits(PadEnd(f, n)))
  {
  }

  /** The units are the whole digits followed by the fraction filled up with zeros. */
  lemma UnitsAsText(amount: string, decimals: int)
    requires 0 <= decimals <= MAX_DECIMALS && CanonicalDecimal(amount) && |FractionPart(amount)| <= decimals
    ensures var s := WholePart(amount) + PadEnd(FractionPart(amount), decimals);
            && s != "" && IsDigits(s)
            && DecimalToBaseUnits(amount, decimals) == if Value(s) == 0 then Bad(NotPositive) else Text(StripLeading(s))
  {
    hide Value, Scale, StripLeading, WholePart, FractionPart, PointIndex, Digits, PadEnd;
    var whole, filled := WholePart(amount), PadEnd(FractionPart(amount), decimals);
    PadEndFills(FractionPart(amount), decimals);
    ValueOfConcat(whole, filled);
    DigitsAreStripped(whole + filled);
  }

  // ---------------------------------------------------------------------
  // Round trips
  // ---------------------------------------------------------------------

  /** Base units survive the trip through display text, up to leading zeros, exactly when they are positive. */
  lemma UnitsRoundTrip(amount: string, decimals: nat)
    requires amount != "" && IsDigits(amount) && decimals <= MAX_DECIMALS
    ensures ToDecimal(amount, decimals).Text?
    ensures DecimalToBaseUnits(ToDecimal(amount, decimals).value, decimals) ==
            if Value(amount) == 0 then Bad(NotPositive) else Text(StripLeading(amount))
  {
    DigitsAreStripped(amount);
    ValueOfStripLeading(amount);
    if decimals == 0 {
      var whole := StripLeading(amount);
      PartsOfSplit(whole, "");
      UnitsAsText(whole, 0);
      assert whole + PadEnd("", 0) == whole;
      assert StripLeading(whole) == whole;
    } else {
      SplitRoundTrip(amount, decimals);
    }
  }

  lemma SplitRoundTrip(amount: string, decimals: nat)
    requires amount != "" && IsDigits(amount) && 0 < decimals <= MAX_DECIMALS
    ensures DecimalToBaseUnits(ToDecimal(amount, decimals).value, decimals) ==
            if Value(amount) == 0 then Bad(NotPositive) else Text(StripLeading(amount))
  {
    var w, f := SplitOfUnits(amount, decimals);
    hide ToDecimal, DecimalToBaseUnits, Display, Value, StripLeading, StripTrailing, Digits;
    DisplayToUnits(w, f);
    DigitsAreStripped(w + f);
    DigitsAreStripped(amount);
  }

  lemma SplitOfUnits(amount: string, decimals: nat) returns (w: string, f: string)
    requires amount != "" && IsDigits(amount) && decimals > 0
    ensures w != "" && |f| == decimals && IsDigits(w) && IsDigits(f) && IsDigits(w + f) && Value(w + f) == Value(amount)
    ensures ToDecimal(amount, decimals) == Text(Display(StripLeading(w), StripTrailing(f)))
  {
    hide Display, Value, StripLeading, StripTrailing, Digits;
    var padded := PadStart(amount, decimals + 1);
    ValueOfPadStart(amount, decimals + 1);
    w, f := padded[..|padded| - decimals], padded[|padded| - decimals..];
    assert padded == w + f;
  }

  /** Display text made of stripped parts is worth what the parts are. */
  lemma DisplayToUnits(w: string, f: string)
    requires w != "" && IsDigits(w) && IsDigits(f) && |f| <= MAX_DECIMALS
    ensures IsDigits(w + f)
    ensures DecimalToBaseUnits(Display(StripLeading(w), StripTrailing(f)), |f|) ==
            if Value(w + f) == 0 then Bad(NotPositive) else Text(StripLeading(w + f))
  {
    var whole, fraction := StripLeading(w), StripTrailing(f);
    var text := Display(whole, fraction);
    ValueOfStripLeading(w);
    PadBack(f);
    PartsOfSplit(whole, fraction);
    SameValue(w, f);
    assert CanonicalDecimal(text);
    hide Value, StripLeading, StripTrailing, WholePart, FractionPart, CanonicalWhole, PointIndex, Digits, DecimalToBaseUnits, Display, PadEnd;
    UnitsAsText(text, |f|);
  }

  lemma SameValue(w: string, f: string)
    requires w != "" && IsDigits(w) && IsDigits(f)
    ensures IsDigits(w + f) && IsDigits(StripLeading(w) + f)
    ensures Value(StripLeading(w) + f) == Value(w + f) && StripLeading(StripLeading(w) + f) == StripLeading(w + f)
  {
    ValueOfStripLeading(w);
    var whole := StripLeading(w);
    hide Value, Scale, StripLeading, Digits;
    ValueOfConcat(w, f);
    ValueOfConcat(whole, f);
    DigitsAreStripped(whole + f);
    DigitsAreStripped(w + f);
  }

  /** The same amount without trailing fraction zeros. */
  function Trimmed(amount: string): string {
    Display(WholePart(amount), StripTrailing(FractionPart(amount)))
  }

  /** Display text survives the trip through base units, up to trailing fraction zeros. */
  lemma DecimalRoundTrip(amount: string, decimals: int)
    requires DecimalToBaseUnits(amount, decimals).Text?
    ensures ToDecimal(DecimalToBaseUnits(amount, decimals).value, decimals) == Text(Trimmed(amount))
  {
    var whole, filled := WholePart(amount), PadEnd(FractionPart(amount), decimals);
    UnitsAsText(amount, decimals);
    StripPadded(FractionPart(amount), decimals);
    hide DecimalToBaseUnits, Value, StripTrailing, WholePart, FractionPart, PointIndex, Digits;
    UnitsToDisplay(whole, filled, decimals);
  }

  lemma UnitsToDisplay(whole: string, filled: string, decimals: nat)
    requires CanonicalWhole(whole) && IsDigits(filled) && |filled| == decimals
    ensures ToDecimal(StripLeading(whole + filled), decimals) == Text(Display(whole, StripTrailing(filled)))
  {
    var s := whole + filled;
    ValueOfStripLeading(s);
    assert StripLeading(whole) == whole;
    if decimals == 0 {
      assert s == whole;
      DigitsOfValue(whole);
    } else {
      hide Value, StripLeading, StripTrailing, Digits;
      RefillLeading(whole, filled);
      assert s[..|s| - decimals] == whole && s[|s| - decimals..] == filled;
    }
  }

  /** Filling the stripped units up again gives the digits they came from. */
  lemma RefillLeading(whole: string, filled: string)
    requires CanonicalWhole(whole) && IsDigits(filled)
    ensures PadStart(StripLeading(whole + filled), |filled| + 1) == whole + filled
  {
    var s := whole + filled;
    if whole == "0" {
      PadStripped(s);
    } else {
      assert s[0] == whole[0] != '0';
    }
  }

  lemma PadOnce(stripped: string, s: string)
    requires |stripped| <= |s| && PadStart(stripped, |s|) == s
    ensures PadStart(stripped, |s| + 1) == "0" + s
  {
    var n := |s| - |stripped|;
    assert Zeros(n) + stripped == s;
    assert Zeros(n + 1) == "0" + Zeros(n);
    assert Zeros(n + 1) + stripped == "0" + (Zeros(n) + stripped);
  }

  lemma {:induction false} PadStripped(s: string)
    ensures |StripLeading(s)| <= |s| && PadStart(StripLeading(s), |s|) == s
  {
    if |s| > 1 && s[0] == '0' {
      PadStripped(s[1..]);
      PadOnce(StripLeading(s[1..]), s[1..]);
      assert s == "0" + s[1..];
    }
  }

  /** Both trips for every listed asset. */
  lemma AssetsRoundTrip(amount: string, asset: string)
    requires amount != "" && IsDigits(amount) && Value(amount) > 0
    ensures BaseAmountToDecimal(amount, asset).Text?
    ensures DecimalToBaseUnits(BaseAmountToDecimal(amount, asset).value, DecimalsOf(asset)) == Text(StripLeading(amount))
  {
    UnitsRoundTrip(amount, DecimalsOf(asset));
  }
}
