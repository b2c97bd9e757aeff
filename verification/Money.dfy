/** Token amounts: decimal text to base units and back, for the four independent implementations
    in the repository. Base units are texts of digits, as in the original; errors are HTTP statuses. */
module Money {
  import opened Common
  import opened Digits

  datatype Parsed = Parsed(amount: string, amountBaseUnits: string, decimals: nat)

  predicate ValidDecimals(d: int) { 0 <= d <= 18 }

  /** The characters JavaScript's trim removes. */
  predicate IsSpace(c: char) {
    c in " \t\n\r\U{0B}\U{0C}\U{A0}\U{1680}\U{2028}\U{2029}\U{202F}\U{205F}\U{3000}\U{FEFF}" || '\U{2000}' <= c <= '\U{200A}'
  }

  function Trim(s: string): (r: string)
    ensures |s| > 0 && !IsSpace(s[0]) && !IsSpace(s[|s| - 1]) ==> r == s
  {
    if s == [] then s
    else if IsSpace(s[0]) then Trim(s[1..])
    else if IsSpace(s[|s| - 1]) then Trim(s[..|s| - 1])
    else s
  }

  /** Position of the first dot, or the length. */
  function FirstDot(s: string): (k: nat)
    ensures k <= |s| && (k < |s| ==> s[k] == '.') && forall i :: 0 <= i < k ==> s[i] != '.'
  {
    if s == [] || s[0] == '.' then 0 else 1 + FirstDot(s[1..])
  }

  function Join(whole: string, fraction: string): string {
    if fraction == [] then whole else whole + "." + fraction
  }

  /** The groups of the pattern for a canonical whole part with an optional fraction. */
  function MatchDecimal(s: string): Option<(string, string)> {
    var k := FirstDot(s);
    if !Canonical(s[..k]) then None
    else if k == |s| then Some((s, ""))
    else if IsDigits(s[k + 1..]) then Some((s[..k], s[k + 1..])) else None
  }

  /** slice(0, -n): for n = 0 the argument is zero and the slice is empty. */
  function SliceToMinus(s: string, n: nat): string
    requires n <= |s|
  {
    if n == 0 then "" else s[..|s| - n]
  }

  function FormatTokenAmount(units: string, decimals: int): Result<string, nat> {
    if !ValidDecimals(decimals) || !IsDigits(units) then Err(400) else
    var padded := PadStart(units, decimals + 1);
    var prefix := SliceToMinus(padded, decimals);
    var whole := if prefix == "" then "0" else prefix;
    if decimals == 0 then Ok(whole) else
    Ok(Join(whole, StripEnd(padded[|padded| - decimals..])))
  }

  function ParseTokenAmount(amount: string, decimals: int): Result<Parsed, nat> {
    if !ValidDecimals(decimals) then Err(400) else
    match MatchDecimal(Trim(amount))
    case None => Err(400)
    case Some((whole, fraction)) =>
      if |fraction| > decimals then Err(400) else
      var base := StripLead(whole + PadEnd(fraction, decimals));
      if !AllDigits(base) || Value(base) == 0 then Err(400) else
      match FormatTokenAmount(base, decimals)
      case Err(status) => Err(status)
      case Ok(text) => Ok(Parsed(text, base, decimals))
  }

  /** BigInt division is exact where it is used, so the sign of the units does not matter. */
  function ScaleBaseUnits(units: int, fromDecimals: int, toDecimals: int): Result<int, nat> {
    if !ValidDecimals(fromDecimals) || !ValidDecimals(toDecimals) then Err(400)
    else if toDecimals == fromDecimals then Ok(units)
    else if toDecimals > fromDecimals then Ok(units * Pow10(toDecimals - fromDecimals))
    else
      var divisor := Pow10(fromDecimals - toDecimals);
      if units % divisor != 0 then Err(409) else Ok(units / divisor)
  }

  function CompareBaseUnits(left: int, right: int): int {
    if left == right then 0 else if left > right then 1 else -1
  }

  const STROOPS: nat := 10_000_000

  /** The public evidence page: null for anything but digits. */
  function FormatUsdcAmount(units: string): Option<string> {
    if !IsDigits(units) then None else
    var v := Value(units);
    Some(Join(Show(v / STROOPS), StripEnd(PadStart(Show(v % STROOPS), 7))))
  }

  /** The relayer's human summary keeps all seven places. */
  function FormatStellarAmount(units: nat): string {
    Show(units / STROOPS) + "." + PadStart(Show(units % STROOPS), 7)
  }

  /** The pilot's settlement check: null unless digits with at most seven decimals. */
  function DecimalToBaseUnits(s: string): Option<nat> {
    var k := FirstDot(s);
    if !IsDigits(s[..k]) then None
    else if k == |s| then Some(Value(s[..k]) * STROOPS)
    else
      var fraction := s[k + 1..];
      if !IsDigits(fraction) || |fraction| > 7 then None
      else Some(Value(s[..k]) * STROOPS + FractionValue(fraction))
  }

  function FractionValue(fraction: string): nat
    requires AllDigits(fraction) && |fraction| <= 7
  {
    Value(PadEnd(fraction, 7))
  }

  // ---------- what is refused ----------

  /** The characters of ECMAScript's white space and line terminators, by code point. */
  lemma SpacesByCodePoint(c: char)
    ensures IsSpace(c) <==>
              || c as int in {9, 10, 11, 12, 13, 32, 160, 5760, 8232, 8233, 8239, 8287, 12288, 65279}
              || 8192 <= c as int <= 8202
  {
  }

  /** Trimming takes spaces off both ends, all of them and nothing else. */
  lemma {:induction false} TrimIsExact(s: string) returns (a: nat, b: nat)
    ensures a + |Trim(s)| + b == |s| && Trim(s) == s[a..a + |Trim(s)|]
    ensures forall i :: 0 <= i < a ==> IsSpace(s[i])
    ensures forall i :: |s| - b <= i < |s| ==> IsSpace(s[i])
    ensures Trim(s) != "" ==> !IsSpace(Trim(s)[0]) && !IsSpace(Trim(s)[|Trim(s)| - 1])
  {
    hide IsSpace;
    a, b := 0, 0;
    if s != [] && IsSpace(s[0]) {
      a, b := TrimIsExact(s[1..]);
      a := a + 1;
      assert forall i :: 1 <= i < |s| ==> s[i] == s[1..][i - 1];
    } else if s != [] && IsSpace(s[|s| - 1]) {
      a, b := TrimIsExact(s[..|s| - 1]);
      b := b + 1;
    }
  }

  /** Formatting answers exactly for digit strings at 0 to 18 decimals, and none of the three answers outside those. */
  lemma RefusedExactly(text: string, n: int, d: int, d': int)
    ensures FormatTokenAmount(text, d).Ok? <==>
              0 <= d <= 18 && text != "" && forall i :: 0 <= i < |text| ==> '0' <= text[i] <= '9'
    ensures FormatTokenAmount(text, d).Err? ==> FormatTokenAmount(text, d) == Err(400)
    ensures !(0 <= d <= 18) ==> ParseTokenAmount(text, d) == Err(400)
    ensures ParseTokenAmount(text, d).Err? ==> ParseTokenAmount(text, d) == Err(400)
    ensures !(0 <= d <= 18 && 0 <= d' <= 18) ==> ScaleBaseUnits(n, d, d') == Err(400)
  {
    hide Trim, Value, StripEnd, StripLead, Pow10, MatchDecimal, PadStart, PadEnd;
  }

  lemma ComparisonIsTheOrder(left: int, right: int)
    ensures CompareBaseUnits(left, right) == 0 <==> left == right
    ensures CompareBaseUnits(left, right) == 1 <==> left > right
    ensures CompareBaseUnits(left, right) == -1 <==> left < right
  {
  }

  // ---------- what formatting means ----------

  lemma CutPadded(u: string, d: nat)
    requires d >= 1 && Canonical(u)
    ensures |PadStart(u, d + 1)| > d && Canonical(PadStart(u, d + 1)[..|PadStart(u, d + 1)| - d])
  {
  }

  lemma CutValue(p: string, d: nat)
    requires |p| > d && AllDigits(p)
    ensures Value(p[|p| - d..]) < Pow10(d) && Value(p) == Shift(Value(p[..|p| - d]), d) + Value(p[|p| - d..])
  {
    var w, f := p[..|p| - d], p[|p| - d..];
    assert p == w + f;
    ValueOfConcat(w, f);
    ValueIsBounded(f);
  }

  /** At 1 to 18 decimals the text is the whole units, then the remaining units without trailing zeros. */
  lemma FormatSplits(n: nat, d: nat, w: nat, r: nat)
    requires 1 <= d <= 18 && n == Shift(w, d) + r && r < Pow10(d)
    ensures FormatTokenAmount(Show(n), d) == Ok(Join(Show(w), StripEnd(PadStart(Show(r), d))))
  {
    hide Show, StripEnd, Value, FormatTokenAmount, PadStart, Shift, Pow10, Join;
    ShowIsCanonical(n);
    var u := Show(n);
    PadStartKeepsValue(u, d + 1);
    CutPadded(u, d);
    CutParts(PadStart(u, d + 1), d, w, r);
    FormatCuts(u, d);
  }

  lemma FormatCuts(u: string, d: nat)
    requires IsDigits(u) && 1 <= d <= 18 && |PadStart(u, d + 1)| > d
    ensures var p := PadStart(u, d + 1); FormatTokenAmount(u, d) == Ok(Join(p[..|p| - d], StripEnd(p[|p| - d..])))
  {
  }

  lemma CutParts(p: string, d: nat, w: nat, r: nat)
    requires |p| > d >= 1 && AllDigits(p) && Canonical(p[..|p| - d]) && Value(p) == Shift(w, d) + r && r < Pow10(d)
    ensures p[..|p| - d] == Show(w) && p[|p| - d..] == PadStart(Show(r), d)
  {
    hide Show, Value;
    var whole, fraction := p[..|p| - d], p[|p| - d..];
    CutValue(p, d);
    UniqueSplit(d, w, r, Value(whole), Value(fraction));
    CanonicalIsShow(whole);
    FixedWidth(r, d);
    ValueDeterminesDigits(fraction, PadStart(Show(r), d));
  }

  lemma SplitAtDot(whole: string, fraction: string)
    requires AllDigits(whole)
    ensures FirstDot(whole + "." + fraction) == |whole| && FirstDot(whole) == |whole|
    ensures (whole + "." + fraction)[..|whole|] == whole && (whole + "." + fraction)[|whole| + 1..] == fraction
  {
    var s := whole + "." + fraction;
    assert s[|whole|] == '.';
  }

  lemma TrimKeepsDecimals(whole: string, fraction: string)
    requires IsDigits(whole) && AllDigits(fraction)
    ensures Trim(Join(whole, fraction)) == Join(whole, fraction)
  {
    hide Trim;
    var s := Join(whole, fraction);
    assert IsDigit(s[0]) && IsDigit(s[|s| - 1]);
  }

  /** A decimal text: canonical whole part, optional non-empty fraction. */
  lemma MatchOfJoin(whole: string, fraction: string)
    requires Canonical(whole) && AllDigits(fraction)
    ensures MatchDecimal(Join(whole, fraction)) == Some((whole, fraction))
    ensures Trim(Join(whole, fraction)) == Join(whole, fraction)
  {
    hide Trim, FirstDot;
    SplitAtDot(whole, fraction);
    assert whole[..|whole|] == whole;
    TrimKeepsDecimals(whole, fraction);
  }

  lemma JoinOfMatch(s: string)
    requires MatchDecimal(s).Some?
    ensures var (whole, fraction) := MatchDecimal(s).value;
            Canonical(whole) && AllDigits(fraction) && s == Join(whole, fraction)
  {
    var k := FirstDot(s);
    assert s[..|s|] == s;
    if k < |s| { assert s == s[..k] + "." + s[k + 1..]; }
  }

  // ---------- round trips ----------

  function UnitsOf(whole: string, fraction: string, d: nat): nat
    requires AllDigits(whole) && AllDigits(fraction) && |fraction| <= d
  {
    Shift(Value(whole), d) + Shift(Value(fraction), d - |fraction|)
  }

  lemma BaseUnitsOf(whole: string, fraction: string, d: nat)
    requires Canonical(whole) && AllDigits(fraction) && |fraction| <= d
    ensures StripLead(whole + PadEnd(fraction, d)) == Show(UnitsOf(whole, fraction, d))
    ensures var n := UnitsOf(whole, fraction, d); IsDigits(Show(n)) && Value(Show(n)) == n
  {
    hide Show, StripLead, Value;
    PadEndScales(fraction, d);
    ValueOfConcat(whole, PadEnd(fraction, d));
    StripLeadIsShow(whole + PadEnd(fraction, d));
    ShowIsCanonical(UnitsOf(whole, fraction, d));
  }

  lemma StrippedFraction(fraction: string, d: nat)
    requires |fraction| <= d
    ensures StripEnd(PadEnd(fraction, d)) == StripEnd(fraction)
  {
    StripEndIgnoresZeros(fraction, d - |fraction|);
    assert fraction + Zeros(0) == fraction;
  }

  /** Formatting the units of a decimal text drops the trailing zeros of its fraction and nothing else. */
  lemma FormatOfUnits(whole: string, fraction: string, d: nat)
    requires Canonical(whole) && AllDigits(fraction) && |fraction| <= d && 1 <= d <= 18
    ensures FormatTokenAmount(Show(UnitsOf(whole, fraction, d)), d) == Ok(Join(whole, StripEnd(fraction)))
  {
    hide Show, FormatTokenAmount, StripEnd, Value;
    var f := PadEnd(fraction, d);
    PadEndScales(fraction, d);
    StrippedFraction(fraction, d);
    FormatOfPadded(UnitsOf(whole, fraction, d), whole, f, d);
  }

  lemma FormatOfPadded(n: nat, whole: string, f: string, d: nat)
    requires Canonical(whole) && AllDigits(f) && |f| == d && 1 <= d <= 18 && n == Shift(Value(whole), d) + Value(f)
    ensures FormatTokenAmount(Show(n), d) == Ok(Join(whole, StripEnd(f)))
  {
    hide Show, FormatTokenAmount, StripEnd, Value;
    ValueIsBounded(f);
    FormatSplits(n, d, Value(whole), Value(f));
    CanonicalIsShow(whole);
    PaddedShow(f);
  }

  lemma PaddedShow(f: string)
    requires IsDigits(f)
    ensures PadStart(Show(Value(f)), |f|) == f
  {
    ValueIsBounded(f);
    FixedWidth(Value(f), |f|);
    ValueDeterminesDigits(f, PadStart(Show(Value(f)), |f|));
  }

  /** parse accepts exactly the positive decimal texts with at most d decimals, and then returns their
      canonical form and their units: format after parse is canonicalisation. */
  lemma ParseMeansCanonicalise(amount: string, d: nat)
    requires 1 <= d <= 18
    ensures ParseTokenAmount(amount, d).Ok? <==>
              exists whole, fraction :: && Canonical(whole) && AllDigits(fraction) && |fraction| <= d
                                        && Trim(amount) == Join(whole, fraction) && UnitsOf(whole, fraction, d) > 0
    ensures forall whole, fraction :: && Canonical(whole) && AllDigits(fraction) && |fraction| <= d
                                      && Trim(amount) == Join(whole, fraction) && UnitsOf(whole, fraction, d) > 0
              ==> ParseTokenAmount(amount, d)
                    == Ok(Parsed(Join(whole, StripEnd(fraction)), Show(UnitsOf(whole, fraction, d)), d))
  {
    hide Show, Shift, Value, StripLead, FormatTokenAmount;
    if MatchDecimal(Trim(amount)).Some? {
      var (whole, fraction) := MatchDecimal(Trim(amount)).value;
      JoinOfMatch(Trim(amount));
      if |fraction| <= d {
        BaseUnitsOf(whole, fraction, d);
        FormatOfUnits(whole, fraction, d);
      }
    }
    forall whole, fraction | Canonical(whole) && AllDigits(fraction) && Trim(amount) == Join(whole, fraction)
      ensures MatchDecimal(Trim(amount)) == Some((whole, fraction))
    {
      MatchOfJoin(whole, fraction);
    }
  }

  /** parse after format returns the number it started from, for every positive number. */
  lemma ParseUndoesFormat(n: nat, d: nat)
    requires 1 <= d <= 18 && n > 0
    ensures var text := FormatTokenAmount(Show(n), d);
            text.Ok? && ParseTokenAmount(text.value, d) == Ok(Parsed(text.value, Show(n), d))
  {
    hide Show, StripEnd, FormatTokenAmount, ParseTokenAmount;
    SplitByDivision(n, d);
    var w, r := n / Pow10(d), n % Pow10(d);
    if w < 0 { ShiftGap(w, 0, d); }
    FormatSplits(n, d, w, r);
    FixedWidth(r, d);
    ShowIsCanonical(w);
    ParseOfPadded(Show(w), PadStart(Show(r), d), d);
  }

  lemma ParseOfPadded(whole: string, padded: string, d: nat)
    requires Canonical(whole) && AllDigits(padded) && |padded| == d && 1 <= d <= 18
    requires Shift(Value(whole), d) + Value(padded) > 0
    ensures var text := Join(whole, StripEnd(padded));
            ParseTokenAmount(text, d) == Ok(Parsed(text, Show(Shift(Value(whole), d) + Value(padded)), d))
  {
    hide Show, Shift, Value, StripLead, FirstDot, ParseTokenAmount, Trim;
    var fraction := StripEnd(padded);
    MatchOfJoin(whole, fraction);
    PadEndUndoesStripEnd(padded);
    PadEndScales(fraction, d);
    assert StripEnd(fraction) == fraction;
    ParseMeansCanonicalise(Join(whole, fraction), d);
    assert UnitsOf(whole, fraction, d) == Shift(Value(whole), d) + Value(padded);
  }

  /** With zero decimals format answers "0" whatever the amount, so the round trip holds exactly from one decimal up. */
  lemma RoundTripExactlyFromOneDecimal(n: nat, d: nat)
    requires d <= 18 && n > 0
    ensures (exists text :: && FormatTokenAmount(Show(n), d) == Ok(text)
                            && ParseTokenAmount(text, d) == Ok(Parsed(text, Show(n), d))) <==> d >= 1
    ensures d == 0 ==> FormatTokenAmount(Show(n), d) == Ok("0") && ParseTokenAmount("0", d) == Err(400)
  {
    ShowIsCanonical(n);
    if d >= 1 {
      ParseUndoesFormat(n, d);
    } else {
      assert FormatTokenAmount(Show(n), 0) == Ok("0");
      assert Canonical("0") && Value("0") == 0 by { assert "0"[..0] == ""; }
      MatchOfJoin("0", "");
      assert "0" + PadEnd("", 0) == "0";
    }
  }

  // ---------- scaling ----------

  lemma ScaleUp(n: int, a: nat, b: nat, m: int)
    requires a <= b <= 18
    ensures ScaleBaseUnits(n, a, b) == Ok(Shift(n, b - a))
    ensures m == Shift(n, b - a) <==> Shift(m, a) == Shift(n, b)
  {
    ShiftIsProduct(n, b - a);
    ShiftAdds(n, b - a, a);
    if Shift(m, a) == Shift(n, b) { ShiftIsInjective(m, Shift(n, b - a), a); }
  }

  lemma ScaleDown(n: int, a: nat, b: nat, m: int, q: int, r: int)
    requires b < a <= 18 && n == Shift(q, a - b) + r && 0 <= r < Pow10(a - b)
    ensures m == q && r == 0 <==> Shift(m, a) == Shift(n, b)
  {
    ShiftAdds(m, a - b, b);
    if Shift(m, a) == Shift(n, b) {
      ShiftIsInjective(Shift(m, a - b), n, b);
      UniqueSplit(a - b, m, 0, q, r);
    }
  }

  /** Scaling answers m exactly when m at the target precision is the same amount, and fails with 409
      exactly when no such m exists. */
  lemma ScaleIsExact(n: int, a: nat, b: nat, m: int)
    requires a <= 18 && b <= 18
    ensures ScaleBaseUnits(n, a, b) == Ok(m) <==> Shift(m, a) == Shift(n, b)
    ensures ScaleBaseUnits(n, a, b).Err? ==> ScaleBaseUnits(n, a, b) == Err(409)
  {
    if b >= a {
      ScaleUp(n, a, b, m);
    } else {
      SplitByDivision(n, a - b);
      ScaleDown(n, a, b, m, n / Pow10(a - b), n % Pow10(a - b));
    }
  }

  /** Going up k decimals appends k zeros, which formatting strips again. */
  lemma FormatIgnoresScaleUp(n: nat, a: nat, k: nat)
    requires 1 <= a && a + k <= 18
    ensures Shift(n, k) >= 0 && FormatTokenAmount(Show(Shift(n, k)), a + k) == FormatTokenAmount(Show(n), a)
  {
    hide Show, FormatTokenAmount, StripEnd;
    SplitByDivision(n, a);
    var w, r := n / Pow10(a), n % Pow10(a);
    if w < 0 { ShiftGap(w, 0, a); }
    ShiftOfSum(Shift(w, a), r, k);
    ShiftAdds(w, a, k);
    FormatOfShifted(Shift(n, k), w, r, a, k);
    FormatSplits(n, a, w, r);
  }

  lemma FormatOfShifted(m: nat, w: nat, r: nat, a: nat, k: nat)
    requires 1 <= a && a + k <= 18 && r < Pow10(a) && m == Shift(w, a + k) + Shift(r, k)
    ensures FormatTokenAmount(Show(m), a + k) == Ok(Join(Show(w), StripEnd(PadStart(Show(r), a))))
  {
    hide Show, StripEnd, FormatTokenAmount;
    FixedWidth(r, a);
    ShowIsCanonical(w);
    ShiftedUnits(m, Show(w), PadStart(Show(r), a), k);
  }

  lemma ShiftedUnits(m: nat, whole: string, fraction: string, k: nat)
    requires Canonical(whole) && IsDigits(fraction) && |fraction| + k <= 18
    requires m == Shift(Value(whole), |fraction| + k) + Shift(Value(fraction), k)
    ensures FormatTokenAmount(Show(m), |fraction| + k) == Ok(Join(whole, StripEnd(fraction)))
  {
    hide Show, StripEnd, FormatTokenAmount, Value;
    FormatOfUnits(whole, fraction, |fraction| + k);
    assert m == UnitsOf(whole, fraction, |fraction| + k);
  }

  /** Whenever scaling succeeds the amount reads the same before and after. */
  lemma ScalingLeavesFormatUnchanged(n: nat, a: nat, b: nat)
    requires 1 <= a <= 18 && 1 <= b <= 18 && ScaleBaseUnits(n, a, b).Ok?
    ensures ScaleBaseUnits(n, a, b).value >= 0
    ensures FormatTokenAmount(Show(ScaleBaseUnits(n, a, b).value), b) == FormatTokenAmount(Show(n), a)
  {
    hide Show, Shift, FormatTokenAmount;
    var m := ScaleBaseUnits(n, a, b).value;
    if b >= a {
      ShiftIsProduct(n, b - a);
      FormatIgnoresScaleUp(n, a, b - a);
    } else {
      SplitByDivision(n, a - b);
      FormatIgnoresScaleUp(m, b, a - b);
    }
  }

  /** Two amounts compare the same before and after both are scaled. */
  lemma ComparisonSurvivesScaling(n: int, n': int, a: nat, b: nat)
    requires a <= 18 && b <= 18 && ScaleBaseUnits(n, a, b).Ok? && ScaleBaseUnits(n', a, b).Ok?
    ensures CompareBaseUnits(ScaleBaseUnits(n, a, b).value, ScaleBaseUnits(n', a, b).value) == CompareBaseUnits(n, n')
  {
    hide Shift, ScaleBaseUnits;
    var m, m' := ScaleBaseUnits(n, a, b).value, ScaleBaseUnits(n', a, b).value;
    ScaleIsExact(n, a, b, m);
    ScaleIsExact(n', a, b, m');
    if n < n' { ShiftGap(n, n', b); } else if n' < n { ShiftGap(n', n, b); }
    if m < m' { ShiftGap(m, m', a); } else if m' < m { ShiftGap(m', m, a); }
  }

  // ---------- the four implementations agree ----------

  lemma SevenDecimals()
    ensures Pow10(7) == STROOPS
  {
    assert Pow10(4) == 10_000;
    assert Pow10(7) == 1_000 * Pow10(4);
  }

  /** At seven decimals the general formatter and the evidence page print the same text, except on
      long inputs with superfluous leading zeros, which only the evidence page drops. */
  lemma UsdcFormattersAgree(units: string)
    requires IsDigits(units)
    ensures FormatUsdcAmount(units).Some? && FormatTokenAmount(units, 7).Ok?
    ensures FormatUsdcAmount(units).value == FormatTokenAmount(units, 7).value <==> |units| <= 8 || units[0] != '0'
  {
    SevenDecimals();
    var p := PadStart(units, 8);
    PadStartKeepsValue(units, 8);
    var w, f := p[..|p| - 7], p[|p| - 7..];
    var v := Value(units);
    assert p == w + f;
    ValueOfConcat(w, f);
    ValueIsBounded(f);
    SplitByDivision(v, 7);
    UniqueSplit(7, Value(w), Value(f), v / STROOPS, v % STROOPS);
    FixedWidth(v % STROOPS, 7);
    ValueDeterminesDigits(f, PadStart(Show(v % STROOPS), 7));
    ShowIsCanonical(Value(w));
    SplitAtDot(w, StripEnd(f));
    SplitAtDot(Show(Value(w)), StripEnd(f));
    if |units| <= 8 || units[0] != '0' {
      CanonicalIsShow(w);
    } else {
      assert !Canonical(w);
    }
  }

  /** The settlement check reads back what each formatter prints at seven decimals. */
  lemma SettlementCheckReadsFormattedAmounts(n: nat)
    ensures FormatTokenAmount(Show(n), 7).Ok? && DecimalToBaseUnits(FormatTokenAmount(Show(n), 7).value) == Some(n)
    ensures DecimalToBaseUnits(FormatStellarAmount(n)) == Some(n)
  {
    SevenDecimals();
    SplitByDivision(n, 7);
    FormatSplits(n, 7, n / STROOPS, n % STROOPS);
    PrintedParts(n, n / STROOPS, n % STROOPS);
  }

  lemma PrintedParts(n: nat, w: nat, r: nat)
    requires n == w * STROOPS + r && r < STROOPS
    ensures var f := PadStart(Show(r), 7);
            && DecimalToBaseUnits(Join(Show(w), StripEnd(f))) == Some(n)
            && DecimalToBaseUnits(Show(w) + "." + f) == Some(n)
  {
    hide Show, StripEnd, DecimalToBaseUnits, Value;
    SevenDecimals();
    ShowIsCanonical(w);
    FixedWidth(r, 7);
    ReadsBackStripped(Show(w), PadStart(Show(r), 7));
  }

  lemma ReadsBackStripped(whole: string, f: string)
    requires IsDigits(whole) && AllDigits(f) && |f| == 7
    ensures DecimalToBaseUnits(whole + "." + f) == Some(Value(whole) * STROOPS + Value(f))
    ensures DecimalToBaseUnits(Join(whole, StripEnd(f))) == Some(Value(whole) * STROOPS + Value(f))
  {
    PadEndUndoesStripEnd(f);
    ReadsBackPadded(whole, StripEnd(f), f);
    ReadsBackPadded(whole, f, f);
  }

  lemma ReadsBackPadded(whole: string, fraction: string, f: string)
    requires IsDigits(whole) && AllDigits(fraction) && AllDigits(f) && |fraction| <= 7 && PadEnd(fraction, 7) == f
    ensures DecimalToBaseUnits(Join(whole, fraction)) == Some(Value(whole) * STROOPS + Value(f))
  {
    hide Value, FirstDot, Zeros, DecimalToBaseUnits, PadEnd;
    if fraction == [] {
      ReadsWhole(whole);
      PaddedNothing(7);
    } else {
      ReadsBack(whole, fraction);
    }
  }

  lemma PaddedNothing(d: nat)
    ensures AllDigits(PadEnd("", d)) && Value(PadEnd("", d)) == 0
  {
    hide Value;
    assert PadEnd("", d) == Zeros(d);
    ValueOfZeros(d);
  }

  lemma ReadsWhole(whole: string)
    requires IsDigits(whole)
    ensures DecimalToBaseUnits(whole) == Some(Value(whole) * STROOPS)
  {
    hide Value, FirstDot;
    SplitAtDot(whole, "");
    assert whole[..|whole|] == whole;
  }

  lemma ReadsBack(whole: string, fraction: string)
    requires IsDigits(whole) && IsDigits(fraction) && |fraction| <= 7
    ensures DecimalToBaseUnits(whole + "." + fraction) == Some(Value(whole) * STROOPS + FractionValue(fraction))
  {
    hide Value, FirstDot, PadEnd;
    SplitAtDot(whole, fraction);
  }
}
