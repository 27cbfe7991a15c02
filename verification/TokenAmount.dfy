/** Exact decimal rendering of token amounts. */
module TokenAmount {
  import opened Basics
  import opened Decimal

  function Pow10(d: nat): (p: nat)
    ensures p > 0
  {
    if d == 0 then 1 else 10 * Pow10(d - 1)
  }

  function Times(a: nat, b: nat): nat {
    a * b
  }

  /** Python's `divmod` of a non-negative number. */
  function DivMod(n: nat, scale: nat): (r: (nat, nat))
    requires scale > 0
    ensures n == Times(r.0, scale) + r.1 && r.1 < scale
  {
    (n / scale, n % scale)
  }

  lemma UniqueQuotient(n: nat, scale: nat, q: nat, r: nat)
    requires scale > 0 && n == Times(q, scale) + r && r < scale
    ensures DivMod(n, scale) == (q, r)
  {
    var s := DivMod(n, scale);
    if s.0 > q {
      TimesMore(q, s.0, scale);
    } else if s.0 < q {
      TimesMore(s.0, q, scale);
    }
  }

  lemma TimesMore(a: nat, b: nat, scale: nat)
    requires a < b
    ensures Times(b, scale) >= Times(a, scale) + scale
  {
    TimesSum(a, b - a, scale);
    TimesAtLeast(b - a, scale);
    hide Times;
  }

  lemma TimesSum(a: nat, b: nat, scale: nat)
    ensures Times(a + b, scale) == Times(a, scale) + Times(b, scale)
  {
  }

  lemma TimesAtLeast(a: nat, scale: nat)
    requires a > 0
    ensures Times(a, scale) >= scale
  {
    TimesSum(a - 1, 1, scale);
  }

  lemma Cancel(a: nat, b: nat, scale: nat)
    requires scale > 0 && Times(a, scale) == Times(b, scale)
    ensures a == b
  {
    hide Times;
    if a < b {
      TimesMore(a, b, scale);
    } else if b < a {
      TimesMore(b, a, scale);
    }
  }

  // ----- text helpers

  function ZeroDigits(n: nat): (s: string)
    ensures |s| == n && AllDigits(s)
  {
    seq(n, i => '0')
  }

  /** Python's `f"{n:0{width}d}"` for a non-negative n already rendered as `s`. */
  function ZeroPadded(s: string, width: nat): (t: string)
    ensures AllDigits(s) ==> AllDigits(t)
  {
    if |s| < width then ZeroDigits(width - |s|) + s else s
  }

  /** Python's `s.rstrip("0")`. */
  function StripZeros(s: string): (t: string)
    ensures t <= s && (AllDigits(s) ==> AllDigits(t))
    ensures t == [] || t[|t| - 1] != '0'
  {
    if s != [] && s[|s| - 1] == '0' then StripZeros(s[..|s| - 1]) else s
  }

  function FractionText(fraction: nat, decimals: nat): (t: string)
    ensures AllDigits(t)
  {
    StripZeros(ZeroPadded(Show(fraction), decimals))
  }

  /** The text of a non-negative amount; `None` for a raw text that is not an integer, and for
      missing or unusable decimals. */
  function FormatTokenAmount(rawAmount: Option<nat>, decimals: Option<int>): Option<string> {
    if decimals.None? || decimals.value < 0 || decimals.value > 255 then None
    else if rawAmount.None? then None
    else if decimals.value == 0 then Some(Show(rawAmount.value))
    else
      var (whole, fraction) := DivMod(rawAmount.value, Pow10(decimals.value));
      if fraction == 0 then Some(Show(whole))
      else Some(Show(whole) + "." + FractionText(fraction, decimals.value))
  }

  /** What is printed: every integer at a scale from 0 to 255. */
  lemma PrintedExactly(rawAmount: Option<nat>, decimals: Option<int>)
    ensures FormatTokenAmount(rawAmount, decimals).Some? <==>
              rawAmount.Some? && decimals.Some? && 0 <= decimals.value <= 255
  {
    hide FractionText, Show;
  }

  // ----- the reference: reading a decimal text at a scale

  function PointAt(s: string): (p: nat)
    ensures p <= |s| && (p < |s| ==> s[p] == '.') && '.' !in s[..p]
  {
    if s == [] || s[0] == '.' then 0
    else
      var p := PointAt(s[1..]);
      assert s[..p + 1] == [s[0]] + s[1..][..p];
      p + 1
  }

  /** The integer a decimal text denotes in units of 10^-decimals; `None` when it is malformed or
      finer than that. */
  function ParseScaled(s: string, decimals: nat): Option<nat> {
    var p := PointAt(s);
    var whole := s[..p];
    if whole == [] || !AllDigits(whole) then None
    else if p == |s| then Some(Times(Read(whole), Pow10(decimals)))
    else
      var fraction := s[p + 1..];
      if fraction == [] || !AllDigits(fraction) || |fraction| > decimals then None
      else Some(Times(Read(whole), Pow10(decimals)) + Times(Read(fraction), Pow10(decimals - |fraction|)))
  }

  // ----- digits

  lemma {:induction false} ReadZeros(n: nat, s: string)
    requires AllDigits(s)
    ensures Read(ZeroDigits(n) + s) == Read(s)
    decreases |s|, n
  {
    var t := ZeroDigits(n) + s;
    if s != [] {
      assert t[..|t| - 1] == ZeroDigits(n) + s[..|s| - 1];
      ReadZeros(n, s[..|s| - 1]);
    } else if n > 0 {
      assert t[..|t| - 1] == ZeroDigits(n - 1) + s;
      ReadZeros(n - 1, s);
    } else {
      assert t == s;
    }
  }

  lemma TenTimes(a: nat, p: nat)
    ensures Times(a, 10 * p) == 10 * Times(a, p)
  {
  }

  lemma {:induction false} ReadStripped(s: string)
    requires AllDigits(s)
    ensures Read(s) == Times(Read(StripZeros(s)), Pow10(|s| - |StripZeros(s)|))
  {
    if s != [] && s[|s| - 1] == '0' {
      var init := s[..|s| - 1];
      ReadStripped(init);
      var k := |init| - |StripZeros(init)|;
      assert Pow10(k + 1) == 10 * Pow10(k);
      TenTimes(Read(StripZeros(init)), Pow10(k));
    }
  }

  lemma {:induction false} ShowFits(n: nat, d: nat)
    requires d > 0 && n < Pow10(d)
    ensures |Show(n)| <= d
    decreases d
  {
    if n >= 10 {
      assert Pow10(d) == 10 * Pow10(d - 1);
      assert d > 1;
      ShowFits(n / 10, d - 1);
    }
  }

  lemma PadReads(n: nat, d: nat)
    requires d > 0 && n < Pow10(d)
    ensures |ZeroPadded(Show(n), d)| == d && Read(ZeroPadded(Show(n), d)) == n
  {
    hide Show, Read, Pow10;
    ShowFits(n, d);
    ReadShow(n);
    ReadZeros(d - |Show(n)|, Show(n));
  }

  lemma {:induction false} StrippedOfZeroOnly(s: string)
    requires AllDigits(s) && StripZeros(s) == []
    ensures Read(s) == 0
  {
    ReadStripped(s);
  }

  lemma FractionReads(fraction: nat, d: nat)
    requires d > 0 && 0 < fraction < Pow10(d)
    ensures var t := FractionText(fraction, d);
            0 < |t| <= d && t[|t| - 1] != '0' && Times(Read(t), Pow10(d - |t|)) == fraction
  {
    PadReads(fraction, d);
    var padded := ZeroPadded(Show(fraction), d);
    ReadStripped(padded);
    if StripZeros(padded) == [] {
      StrippedOfZeroOnly(padded);
    }
  }

  // ----- the point

  lemma {:induction false} PointAfterDigits(whole: string, rest: string)
    requires AllDigits(whole)
    ensures PointAt(whole) == |whole|
    ensures PointAt(whole + "." + rest) == |whole|
  {
    if whole != [] {
      PointAfterDigits(whole[1..], rest);
      assert (whole + "." + rest)[1..] == whole[1..] + "." + rest;
    }
  }

  /** The text of an amount, split at its point. */
  lemma FormatShape(amount: nat, decimals: nat) returns (whole: nat, fraction: nat)
    requires decimals <= 255
    ensures amount == Times(whole, Pow10(decimals)) + fraction && fraction < Pow10(decimals)
    ensures (whole, fraction) == DivMod(amount, Pow10(decimals))
    ensures var t := FormatTokenAmount(Some(amount), Some(decimals));
            && t.Some?
            && (fraction == 0 ==> t.value == Show(whole))
            && (fraction > 0 ==> decimals > 0 && t.value == Show(whole) + "." + FractionText(fraction, decimals))
  {
    hide Times, DivMod, FractionText, Show;
    var r := DivMod(amount, Pow10(decimals));
    whole, fraction := r.0, r.1;
    if decimals == 0 {
      OneScale(whole);
    }
  }

  lemma OneScale(a: nat)
    ensures Pow10(0) == 1 && Times(a, Pow10(0)) == a
  {
  }

  /** Parsing the printed text and scaling recovers the raw integer. */
  lemma FormatRoundTrip(amount: nat, decimals: nat)
    requires decimals <= 255
    ensures var t := FormatTokenAmount(Some(amount), Some(decimals));
            t.Some? && ParseScaled(t.value, decimals) == Some(amount)
  {
    hide FormatTokenAmount, Times, DivMod, Pow10, Show, Read, FractionText;
    var whole, fraction := FormatShape(amount, decimals);
    var t := FormatTokenAmount(Some(amount), Some(decimals)).value;
    ReadShow(whole);
    if fraction == 0 {
      PointAfterDigits(t, "");
      assert t[..|t|] == t;
    } else {
      var text := FractionText(fraction, decimals);
      FractionReads(fraction, decimals);
      PointAfterDigits(Show(whole), text);
      assert t[..|Show(whole)|] == Show(whole) && t[|Show(whole)| + 1..] == text;
    }
  }

  /** No bare point and no trailing fractional zero. */
  lemma FormatIsTidy(amount: nat, decimals: nat)
    requires decimals <= 255
    ensures var t := FormatTokenAmount(Some(amount), Some(decimals)).value;
            var p := PointAt(t);
            && p > 0 && AllDigits(t[..p]) && (p > 1 ==> t[0] != '0')
            && (p < |t| ==> p + 1 < |t| && AllDigits(t[p + 1..]) && t[|t| - 1] != '0')
  {
    hide FormatTokenAmount, Times, DivMod, Pow10, Show, Read, FractionText;
    var whole, fraction := FormatShape(amount, decimals);
    var t := FormatTokenAmount(Some(amount), Some(decimals)).value;
    NoLeadingZero(whole);
    if fraction == 0 {
      PointAfterDigits(t, "");
      assert t[..|t|] == t;
    } else {
      var text := FractionText(fraction, decimals);
      FractionReads(fraction, decimals);
      PointAfterDigits(Show(whole), text);
      assert t[..|Show(whole)|] == Show(whole) && t[|Show(whole)| + 1..] == text;
    }
  }

  lemma {:induction false} NoLeadingZero(n: nat)
    ensures |Show(n)| > 1 ==> Show(n)[0] != '0'
    ensures n > 0 ==> Show(n)[0] != '0'
  {
    if n >= 10 {
      NoLeadingZero(n / 10);
    }
  }

  /** For fixed decimals, different amounts print differently. */
  lemma FormatInjective(a: nat, b: nat, decimals: nat)
    requires decimals <= 255
    ensures FormatTokenAmount(Some(a), Some(decimals)) == FormatTokenAmount(Some(b), Some(decimals)) <==> a == b
  {
    hide FormatTokenAmount, ParseScaled;
    FormatRoundTrip(a, decimals);
    FormatRoundTrip(b, decimals);
  }

  // ----- one text per value, whatever the decimals

  lemma PadOneMore(f: nat, d: nat)
    requires d > 0 && 0 < f < Pow10(d)
    ensures ZeroPadded(Show(10 * f), d + 1) == ZeroPadded(Show(f), d) + "0"
  {
    ShowFits(f, d);
    assert Show(10 * f) == Show(f) + [DigitChar(0)];
    assert DigitChar(0) == '0';
  }

  lemma ScaledDivMod(amount: nat, d: nat)
    ensures var r := DivMod(amount, Pow10(d)); DivMod(10 * amount, Pow10(d + 1)) == (r.0, 10 * r.1)
  {
    assert Pow10(d + 1) == 10 * Pow10(d);
    hide Times, DivMod, Pow10;
    var r := DivMod(amount, Pow10(d));
    TenTimes(r.0, Pow10(d));
    UniqueQuotient(10 * amount, Pow10(d + 1), r.0, 10 * r.1);
  }

  lemma ScaleStep(amount: nat, d: nat)
    requires d < 255
    ensures FormatTokenAmount(Some(10 * amount), Some(d + 1)) == FormatTokenAmount(Some(amount), Some(d))
  {
    hide FormatTokenAmount, Times, DivMod, Pow10, Show, Read, FractionText;
    var whole, fraction := FormatShape(amount, d);
    var whole', fraction' := FormatShape(10 * amount, d + 1);
    ScaledDivMod(amount, d);
    if fraction > 0 {
      FractionOneMore(fraction, d);
    }
  }

  lemma FractionOneMore(f: nat, d: nat)
    requires d > 0 && 0 < f < Pow10(d)
    ensures FractionText(10 * f, d + 1) == FractionText(f, d)
  {
    PadOneMore(f, d);
    var padded := ZeroPadded(Show(f), d);
    assert (padded + "0")[..|padded|] == padded;
  }

  lemma NextPow10(k: nat)
    requires k > 0
    ensures Pow10(k) == 10 * Pow10(k - 1)
  {
  }

  lemma {:induction false} ScaleMany(amount: nat, d: nat, k: nat)
    requires d + k <= 255
    ensures FormatTokenAmount(Some(Times(amount, Pow10(k))), Some(d + k)) == FormatTokenAmount(Some(amount), Some(d))
  {
    hide FormatTokenAmount, Times, Pow10;
    if k == 0 {
      OneScale(amount);
    } else {
      ScaleMany(amount, d, k - 1);
      NextPow10(k);
      TenTimes(amount, Pow10(k - 1));
      ScaleStep(Times(amount, Pow10(k - 1)), d + k - 1);
    }
  }

  lemma {:induction false} Pow10Adds(amount: nat, a: nat, b: nat)
    ensures Times(amount, Pow10(a + b)) == Times(Times(amount, Pow10(a)), Pow10(b))
  {
    OneScale(Times(amount, Pow10(a)));
    if b > 0 {
      assert Pow10(b) == 10 * Pow10(b - 1) && Pow10(a + b) == 10 * Pow10(a + b - 1);
      hide Times, Pow10;
      Pow10Adds(amount, a, b - 1);
      TenTimes(amount, Pow10(a + b - 1));
      TenTimes(Times(amount, Pow10(a)), Pow10(b - 1));
    }
  }

  /** Two amounts print alike exactly when they are the same number: a·10^-d = b·10^-e. */
  lemma FormatIsCanonical(a: nat, d: nat, b: nat, e: nat)
    requires d <= e <= 255
    ensures FormatTokenAmount(Some(a), Some(d)) == FormatTokenAmount(Some(b), Some(e)) <==>
            Times(a, Pow10(e)) == Times(b, Pow10(d))
  {
    hide FormatTokenAmount, Times, Pow10;
    var k := e - d;
    ScaleMany(a, d, k);
    Pow10Adds(a, k, d);
    if Times(a, Pow10(e)) == Times(b, Pow10(d)) {
      Cancel(Times(a, Pow10(k)), b, Pow10(d));
    }
    if FormatTokenAmount(Some(a), Some(d)) == FormatTokenAmount(Some(b), Some(e)) {
      FormatInjective(Times(a, Pow10(k)), b, e);
    }
  }
}
