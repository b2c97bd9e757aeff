/** Decimal digit strings: what BigInt(text), toString, padStart, padEnd and the zero-stripping
    replacements compute, and the facts that tie them together. */
module Digits {

  predicate IsDigit(c: char) { '0' <= c <= '9' }

  /** Zero or more digits. */
  predicate AllDigits(s: string) { forall i :: 0 <= i < |s| ==> IsDigit(s[i]) }

  /** The pattern of one or more digits. */
  predicate IsDigits(s: string) { s != [] && AllDigits(s) }

  /** Digits without superfluous leading zeros. */
  predicate Canonical(s: string) { IsDigits(s) && (|s| > 1 ==> s[0] != '0') }

  function DigitValue(c: char): (d: nat)
    requires IsDigit(c)
    ensures d < 10
  {
    c as int - '0' as int
  }

  function DigitChar(d: nat): (c: char)
    requires d < 10
    ensures IsDigit(c) && DigitValue(c) == d
  {
    ('0' as int + d) as char
  }

  /** BigInt of a digit string. */
  function Value(s: string): nat
    requires AllDigits(s)
  {
    if s == [] then 0 else 10 * Value(s[..|s| - 1]) + DigitValue(s[|s| - 1])
  }

  /** BigInt.toString. */
  function Show(n: nat): (s: string) {
    if n < 10 then [DigitChar(n)] else Show(n / 10) + [DigitChar(n % 10)]
  }

  /** v times ten to the k. */
  function Shift(v: int, k: nat): (r: int)
    ensures v == 0 <==> r == 0
    ensures v > 0 <==> r > 0
  {
    if k == 0 then v else 10 * Shift(v, k - 1)
  }

  /** The BigInt power 10n ** k. */
  function Pow10(k: nat): (p: nat)
    ensures p > 0
  {
    Shift(1, k)
  }

  function Zeros(k: nat): (s: string)
    ensures |s| == k && forall i :: 0 <= i < k ==> s[i] == '0'
  {
    seq(k, _ => '0')
  }

  function PadStart(s: string, width: nat): string {
    if |s| >= width then s else Zeros(width - |s|) + s
  }

  function PadEnd(s: string, width: nat): string {
    if |s| >= width then s else s + Zeros(width - |s|)
  }

  /** Removes a trailing run of zeros. */
  function StripEnd(s: string): (r: string)
    ensures r <= s && (r == [] || r[|r| - 1] != '0')
  {
    if s != [] && s[|s| - 1] == '0' then StripEnd(s[..|s| - 1]) else s
  }

  /** Removes leading zeros that are followed by another digit. */
  function StripLead(s: string): string {
    if |s| > 1 && s[0] == '0' && IsDigit(s[1]) then StripLead(s[1..]) else s
  }

  lemma {:induction false} ValueOfConcat(a: string, b: string)
    requires AllDigits(a) && AllDigits(b)
    ensures AllDigits(a + b) && Value(a + b) == Shift(Value(a), |b|) + Value(b)
  {
    if b == [] {
      assert a + b == a;
    } else {
      var init, last := b[..|b| - 1], b[|b| - 1];
      ValueOfConcat(a, init);
      assert (a + b)[..|a + b| - 1] == a + init && (a + b)[|a + b| - 1] == last;
    }
  }

  lemma {:induction false} ValueOfZeros(k: nat)
    ensures Value(Zeros(k)) == 0
  {
    if k > 0 {
      assert Zeros(k)[..k - 1] == Zeros(k - 1);
      ValueOfZeros(k - 1);
    }
  }

  lemma {:induction false} ValueIsBounded(s: string)
    requires AllDigits(s)
    ensures Value(s) < Pow10(|s|)
    ensures s != [] && s[0] != '0' ==> Pow10(|s| - 1) <= Value(s)
  {
    if s != [] {
      ValueIsBounded(s[..|s| - 1]);
      assert s[0] != '0' && |s| > 1 ==> s[..|s| - 1][0] != '0';
    }
  }

  lemma {:induction false} ShiftGap(v: int, w: int, k: nat)
    requires v < w
    ensures Shift(v, k) + Pow10(k) <= Shift(w, k) && Pow10(k) > 0
  {
    if k > 0 { ShiftGap(v, w, k - 1); }
  }

  lemma {:induction false} ShiftAdds(v: int, a: nat, b: nat)
    ensures Shift(Shift(v, a), b) == Shift(v, a + b)
  {
    if b > 0 { ShiftAdds(v, a, b - 1); }
  }

  lemma {:induction false} ShiftOfSum(v: int, w: int, k: nat)
    ensures Shift(v + w, k) == Shift(v, k) + Shift(w, k)
  {
    if k > 0 { ShiftOfSum(v, w, k - 1); }
  }

  lemma {:induction false} ShiftIsProduct(v: int, k: nat)
    ensures Shift(v, k) == v * Pow10(k) && Pow10(k) > 0
  {
    if k > 0 { ShiftIsProduct(v, k - 1); }
  }

  /** Splitting at the k-th digit from the right is unique. */
  lemma UniqueSplit(k: nat, w: int, f: int, w': int, f': int)
    requires Shift(w, k) + f == Shift(w', k) + f' && 0 <= f < Pow10(k) && 0 <= f' < Pow10(k)
    ensures w == w' && f == f'
  {
    if w < w' { ShiftGap(w, w', k); } else if w' < w { ShiftGap(w', w, k); }
  }

  lemma ShiftIsInjective(v: int, w: int, k: nat)
    requires Shift(v, k) == Shift(w, k)
    ensures v == w
  {
    if v < w { ShiftGap(v, w, k); } else if w < v { ShiftGap(w, v, k); }
  }

  lemma SplitByDivision(n: int, k: nat)
    ensures Pow10(k) > 0 && n == Shift(n / Pow10(k), k) + n % Pow10(k) && 0 <= n % Pow10(k) < Pow10(k)
  {
    ShiftIsProduct(1, k);
    DivMod(n, Pow10(k));
    ShiftIsProduct(n / Pow10(k), k);
  }

  lemma DivMod(n: int, p: nat)
    requires p > 0
    ensures n == (n / p) * p + n % p
  {
  }

  lemma {:induction false} Pow10Monotone(a: nat, b: nat)
    requires a <= b
    ensures 0 < Pow10(a) <= Pow10(b)
  {
    ShiftGap(0, 1, a);
    if a < b { Pow10Monotone(a, b - 1); }
  }

  /** Digit strings of one length are told apart by their value. */
  lemma {:induction false} ValueDeterminesDigits(a: string, b: string)
    requires AllDigits(a) && AllDigits(b) && |a| == |b| && Value(a) == Value(b)
    ensures a == b
  {
    if a != [] {
      var n := |a| - 1;
      assert DigitValue(a[n]) == Value(a) % 10 == DigitValue(b[n]);
      ValueDeterminesDigits(a[..n], b[..n]);
      assert a == a[..n] + [a[n]] && b == b[..n] + [b[n]];
    }
  }

  lemma {:induction false} ShowIsCanonical(n: nat)
    ensures Canonical(Show(n)) && Value(Show(n)) == n
  {
    if n < 10 {
      assert Show(n)[..0] == [];
    } else {
      ShowIsCanonical(n / 10);
      assert Show(n)[..|Show(n)| - 1] == Show(n / 10);
      ValueIsBounded(Show(n / 10));
    }
  }

  /** A canonical string is the toString of its value. */
  lemma CanonicalIsShow(s: string)
    requires Canonical(s)
    ensures s == Show(Value(s))
  {
    var t := Show(Value(s));
    ShowIsCanonical(Value(s));
    SameLength(s, t);
    ValueDeterminesDigits(s, t);
  }

  lemma SameLength(a: string, b: string)
    requires Canonical(a) && Canonical(b) && Value(a) == Value(b)
    ensures |a| == |b|
  {
    if |a| < |b| { Shorter(a, b); } else if |b| < |a| { Shorter(b, a); }
  }

  lemma Shorter(a: string, b: string)
    requires Canonical(a) && Canonical(b) && |a| < |b|
    ensures Value(a) < Value(b)
  {
    ValueIsBounded(a);
    ValueIsBounded(b);
    Pow10Monotone(|a|, |b| - 1);
  }

  lemma PadStartKeepsValue(s: string, width: nat)
    requires AllDigits(s)
    ensures AllDigits(PadStart(s, width)) && Value(PadStart(s, width)) == Value(s)
  {
    if |s| < width {
      ValueOfZeros(width - |s|);
      ValueOfConcat(Zeros(width - |s|), s);
    }
  }

  lemma LongNumbersAreLarge(n: nat, width: nat)
    requires width > 0 && |Show(n)| > width
    ensures n >= Pow10(width)
  {
    ShowIsCanonical(n);
    ValueIsBounded(Show(n));
    Pow10Monotone(width, |Show(n)| - 1);
  }

  /** padStart of a number to a width it fits in has exactly that width. */
  lemma FixedWidth(n: nat, width: nat)
    requires width > 0 && n < Pow10(width)
    ensures var s := PadStart(Show(n), width); |s| == width && AllDigits(s) && Value(s) == n
  {
    ShowIsCanonical(n);
    PadStartKeepsValue(Show(n), width);
    if |Show(n)| > width { LongNumbersAreLarge(n, width); }
  }

  lemma PadEndScales(s: string, width: nat)
    requires AllDigits(s) && |s| <= width
    ensures AllDigits(PadEnd(s, width)) && Value(PadEnd(s, width)) == Shift(Value(s), width - |s|)
  {
    ValueOfZeros(width - |s|);
    ValueOfConcat(s, Zeros(width - |s|));
    assert |s| == width ==> s + Zeros(0) == s;
  }

  lemma {:induction false} PadEndUndoesStripEnd(s: string)
    ensures PadEnd(StripEnd(s), |s|) == s
  {
    if s != [] && s[|s| - 1] == '0' {
      var t := s[..|s| - 1];
      PadEndUndoesStripEnd(t);
      assert PadEnd(StripEnd(t), |s|) == PadEnd(StripEnd(t), |t|) + "0";
    }
  }

  lemma {:induction false} StripEndIgnoresZeros(s: string, k: nat)
    ensures StripEnd(s + Zeros(k)) == StripEnd(s)
  {
    if k == 0 {
      assert s + Zeros(0) == s;
    } else {
      assert (s + Zeros(k))[..|s| + k - 1] == s + Zeros(k - 1);
      StripEndIgnoresZeros(s, k - 1);
    }
  }

  lemma {:induction false} StripLeadIsShow(s: string)
    requires IsDigits(s)
    ensures StripLead(s) == Show(Value(s))
    decreases |s|
  {
    if |s| > 1 && s[0] == '0' {
      StripLeadIsShow(s[1..]);
      assert s == Zeros(1) + s[1..];
      ValueOfZeros(1);
      ValueOfConcat(Zeros(1), s[1..]);
    } else {
      CanonicalIsShow(s);
    }
  }
}
