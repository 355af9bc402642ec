/**
 JavaScript `Number(text)` as the payment form uses it on the value of a
 number input: the empty text reads as 0, a decimal numeral (optional sign,
 digits, optional fraction) reads as its value, anything else as NaN.
 Numbers are exact reals here: floating-point rounding is not modelled.
 */
module JsNumber {
  import opened JsString

  datatype Number = NaN | Finite(value: real)

  function Pow10(k: nat): (r: nat)
    ensures r >= 1
  {
    if k == 0 then 1 else 10 * Pow10(k - 1)
  }

  /** The index of the first `c` in `s`, or `|s|` when there is none. */
  function IndexOf(s: string, c: char): (i: nat)
    ensures i <= |s|
    ensures i < |s| ==> s[i] == c
    ensures c !in s[..i]
    decreases |s|
  {
    if s == [] then 0
    else if s[0] == c then 0
    else
      var j := IndexOf(s[1..], c);
      assert s[..1 + j] == [s[0]] + s[1..][..j];
      1 + j
  }

  /** The characters a decimal numeral may contain. */
  predicate IsNumeralChar(c: char)
  {
    IsDigit(c) || c == '.' || c == '-' || c == '+'
  }

  /** Digits with an optional fractional part, read as an unsigned value. */
  function UnsignedValue(body: string): (r: Number)
    ensures IsDigits(body) && body != "" ==> r == Finite(DigitsValue(body) as real)
    ensures (exists i :: 0 <= i < |body| && !IsNumeralChar(body[i])) ==> r == NaN
    ensures r.Finite? ==> r.value >= 0.0
  {
    var dot := IndexOf(body, '.');
    var whole := body[..dot];
    var fraction := if dot < |body| then body[dot + 1..] else "";
    if IsDigits(whole) && IsDigits(fraction) && |whole| + |fraction| > 0 then
      NumeralPieces(body, dot);
      assert IsDigits(body) ==> dot == |body| && whole == body && fraction == "";
      var scale := Pow10(|fraction|) as real;
      assert DigitsValue(fraction) as real / scale >= 0.0;
      Finite(DigitsValue(whole) as real + DigitsValue(fraction) as real / scale)
    else NaN
  }

  /** When the text before and after the first dot are both digits, every character but that dot is a digit. */
  lemma NumeralPieces(body: string, dot: nat)
    requires dot <= |body| && (dot < |body| ==> body[dot] == '.')
    requires IsDigits(body[..dot])
    requires IsDigits(if dot < |body| then body[dot + 1..] else "")
    ensures forall i :: 0 <= i < |body| && i != dot ==> IsDigit(body[i])
    ensures forall i :: 0 <= i < |body| ==> IsNumeralChar(body[i])
  {
    forall i | 0 <= i < |body| && i != dot
      ensures IsDigit(body[i])
    {
      if i < dot {
        assert body[i] == body[..dot][i];
      } else {
        assert body[i] == body[dot + 1..][i - dot - 1];
      }
    }
  }

  /** The first `c` after a `c`-free prefix is at the end of that prefix. */
  lemma {:induction false} IndexOfAfter(a: string, c: char, b: string)
    requires c !in a
    ensures IndexOf(a + [c] + b, c) == |a|
    decreases |a|
  {
    if a != [] {
      IndexOfAfter(a[1..], c, b);
      assert (a + [c] + b)[1..] == a[1..] + [c] + b;
    }
  }

  /**
   An unsigned body with a value holds at least one digit, and every
   character but its first dot is a digit.
   */
  lemma UnsignedShape(body: string)
    requires UnsignedValue(body).Finite?
    ensures exists i :: 0 <= i < |body| && IsDigit(body[i])
    ensures forall i :: 0 <= i < |body| && i != IndexOf(body, '.') ==> IsDigit(body[i])
  {
    var dot := IndexOf(body, '.');
    var whole := body[..dot];
    var fraction := if dot < |body| then body[dot + 1..] else "";
    NumeralPieces(body, dot);
    if |whole| > 0 {
      assert IsDigit(body[0]) by { assert body[0] == whole[0]; }
    } else {
      assert IsDigit(body[dot + 1]) by { assert body[dot + 1] == fraction[0]; }
    }
  }

  /** `Number(text)` on the text of a number input. */
  function ParseNumber(s: string): (r: Number)
    ensures s == "" ==> r == Finite(0.0)
    ensures IsDigits(s) && s != "" ==> r == Finite(DigitsValue(s) as real)
    ensures (exists i :: 0 <= i < |s| && !IsNumeralChar(s[i])) ==> r == NaN
    ensures s != "" && s[0] == '-' && r.Finite? ==> r.value <= 0.0
  {
    if s == "" then Finite(0.0)
    else if s[0] == '-' || s[0] == '+' then
      assert forall i :: 1 <= i < |s| ==> s[i] == s[1..][i - 1];
      match UnsignedValue(s[1..])
      case NaN => NaN
      case Finite(v) => if s[0] == '-' then Finite(-v) else Finite(v)
    else UnsignedValue(s)
  }

  /** The characters after an optional leading sign. */
  function UnsignedPart(s: string): string
  {
    if s != "" && (s[0] == '-' || s[0] == '+') then s[1..] else s
  }

  /**
   A text with a value has a digit, and after its optional sign every
   character but the first dot is a digit.
   */
  lemma FiniteShape(s: string)
    requires s != "" && ParseNumber(s).Finite?
    ensures var k := |s| - |UnsignedPart(s)|;
      && (k == 1 <==> s[0] == '-' || s[0] == '+')
      && (exists i :: k <= i < |s| && IsDigit(s[i]))
      && (forall i :: k <= i < |s| && i != k + IndexOf(UnsignedPart(s), '.') ==> IsDigit(s[i]))
      && (k + IndexOf(UnsignedPart(s), '.') < |s| ==> s[k + IndexOf(UnsignedPart(s), '.')] == '.')
  {
    var body := UnsignedPart(s);
    var k := |s| - |body|;
    UnsignedShape(body);
    var j :| 0 <= j < |body| && IsDigit(body[j]);
    assert s[k + j] == body[j];
    forall i | k <= i < |s| && i != k + IndexOf(body, '.')
      ensures IsDigit(s[i])
    {
      assert s[i] == body[i - k];
    }
  }

  /** `w.f` for digit strings reads as the whole digits plus the fraction digits scaled down. */
  lemma DecimalValue(w: string, f: string)
    requires IsDigits(w) && IsDigits(f) && |w| + |f| > 0
    ensures ParseNumber(w + "." + f) == Finite(DigitsValue(w) as real + DigitsValue(f) as real / Pow10(|f|) as real)
  {
    var s := w + "." + f;
    assert s[0] != '-' && s[0] != '+' by {
      if w != "" {
        assert s[0] == w[0] && IsDigit(w[0]);
      }
    }
    assert ParseNumber(s) == UnsignedValue(s);
    DigitsExclude(w, '.');
    IndexOfAfter(w, '.', f);
    var dot := IndexOf(s, '.');
    assert dot == |w| < |s|;
    assert s[..dot] == w;
    assert s[dot + 1..] == f;
  }

  /** A sign before an unsigned numeral: `-` negates its value, `+` keeps it; without a value the signed text has none either. */
  lemma SignedValue(sign: char, t: string)
    requires sign == '-' || sign == '+'
    requires t != "" && t[0] != '-' && t[0] != '+'
    ensures ParseNumber([sign] + t) ==
      match ParseNumber(t)
      case NaN => NaN
      case Finite(v) => if sign == '-' then Finite(-v) else Finite(v)
  {
    assert ([sign] + t)[1..] == t;
  }

  /** In a text with a value, a non-digit after the optional sign is the one dot of the numeral. */
  lemma FiniteNonDigit(s: string, i: nat)
    requires i < |s| && ParseNumber(s).Finite? && !IsDigit(s[i])
    requires i >= 1 || (s[0] != '-' && s[0] != '+')
    ensures s[i] == '.'
    ensures i == |s| - |UnsignedPart(s)| + IndexOf(UnsignedPart(s), '.')
  {
    FiniteShape(s);
  }

  /** A second dot makes the text NaN. */
  lemma SecondDotIsNaN(s: string, i: nat, j: nat)
    requires i < j < |s| && s[i] == '.' && s[j] == '.'
    ensures ParseNumber(s) == NaN
  {
    if ParseNumber(s).Finite? {
      FiniteNonDigit(s, i);
      FiniteNonDigit(s, j);
    }
  }

  /** A sign anywhere but first makes the text NaN. */
  lemma LateSignIsNaN(s: string, i: nat)
    requires 1 <= i < |s| && (s[i] == '-' || s[i] == '+')
    ensures ParseNumber(s) == NaN
  {
    if ParseNumber(s).Finite? {
      FiniteNonDigit(s, i);
    }
  }

  /** Non-empty text without a digit (such as `.`, `-` or `+`) is NaN. */
  lemma NoDigitIsNaN(s: string)
    requires s != ""
    requires forall i :: 0 <= i < |s| ==> !IsDigit(s[i])
    ensures ParseNumber(s) == NaN
  {
    if ParseNumber(s).Finite? {
      FiniteShape(s);
    }
  }
}
