/**
 * Strings as the program builds and reads them: Python's `str(n)` for the
 * integers in cache keys, `int(text)` and `float(text)` for request values,
 * `text.split(":")[1]` for product keys, `startswith` for key patterns, and
 * Python's `<` on strings (code-point lexicographic order) used by `sorted`.
 */
module Text {
  import opened Wrappers

  predicate IsDigit(c: char) { '0' <= c <= '9' }

  predicate AllDigits(s: string) { forall i :: 0 <= i < |s| ==> IsDigit(s[i]) }

  function DigitChar(d: nat): (c: char)
    requires d < 10
    ensures IsDigit(c) && c as int - '0' as int == d
  {
    ('0' as int + d) as char
  }

  /** Decimal digits of a natural number, most significant first, no leading zeros. */
  function NatToStr(n: nat): (s: string)
    ensures |s| > 0 && AllDigits(s)
    decreases n
  {
    if n < 10 then [DigitChar(n)] else NatToStr(n / 10) + [DigitChar(n % 10)]
  }

  /** Python's `str(n)` for an `int`. */
  function IntToStr(n: int): (s: string)
    ensures |s| > 0
    ensures n >= 0 ==> AllDigits(s)
    ensures n < 0 ==> s[0] == '-' && AllDigits(s[1..])
  {
    if n < 0 then "-" + NatToStr(-n) else NatToStr(n)
  }

  /** The number a non-empty run of ASCII digits denotes (leading zeros allowed). */
  function DigitsValue(s: string): nat
    requires AllDigits(s)
    decreases |s|
  {
    if s == [] then 0 else 10 * DigitsValue(s[..|s| - 1]) + (s[|s| - 1] as int - '0' as int)
  }

  /**
   * Python's `int(text)`: an optional sign followed by at least one ASCII digit.
   * None stands for the ValueError Python raises on anything else.
   */
  function ParseInt(s: string): Option<int>
  {
    if |s| > 1 && (s[0] == '-' || s[0] == '+') && AllDigits(s[1..]) then
      var v: int := DigitsValue(s[1..]);
      Some(if s[0] == '-' then -v else v)
    else if |s| > 0 && AllDigits(s) then
      Some(DigitsValue(s))
    else
      None
  }

  lemma {:induction false} DigitsOfNat(n: nat)
    ensures DigitsValue(NatToStr(n)) == n
    decreases n
  {
    if n >= 10 {
      var s := NatToStr(n);
      assert s[..|s| - 1] == NatToStr(n / 10);
      DigitsOfNat(n / 10);
    }
  }

  /** The decimal digits of `n` start with a zero only when `n` is zero, and are then just "0". */
  lemma {:induction false} NatToStrLeading(n: nat)
    ensures NatToStr(n)[0] == '0' <==> n == 0
    ensures n == 0 ==> NatToStr(n) == "0"
    decreases n
  {
    if n >= 10 {
      NatToStrLeading(n / 10);
      assert NatToStr(n)[0] == NatToStr(n / 10)[0];
    }
  }

  /** `str(n)` has no leading zeros: "0" alone, otherwise its first digit (after a `-`) is not zero. */
  lemma IntToStrCanonical(n: int)
    ensures n == 0 ==> IntToStr(n) == "0"
    ensures n > 0 ==> IntToStr(n)[0] != '0'
    ensures n < 0 ==> |IntToStr(n)| > 1 && IntToStr(n)[1] != '0'
  {
    if n < 0 {
      NatToStrLeading(-n);
      assert IntToStr(n)[1] == NatToStr(-n)[0];
    } else {
      NatToStrLeading(n);
    }
  }

  /** `int(str(n)) == n`: formatting an integer and parsing it back is the identity. */
  lemma ParseIntToStr(n: int)
    ensures ParseInt(IntToStr(n)) == Some(n)
  {
    if n < 0 {
      assert IntToStr(n)[1..] == NatToStr(-n);
      DigitsOfNat(-n);
    } else {
      DigitsOfNat(n);
    }
  }

  /** Distinct integers give distinct decimal strings, so distinct cache keys. */
  lemma IntToStrInjective(a: int, b: int)
    requires IntToStr(a) == IntToStr(b)
    ensures a == b
  {
    ParseIntToStr(a);
    ParseIntToStr(b);
  }

  function Pow10(k: nat): (p: nat)
    ensures p > 0
  {
    if k == 0 then 1 else 10 * Pow10(k - 1)
  }

  /** Index of the first occurrence of `c` in `s`, or `|s|` when there is none. */
  function FindChar(s: string, c: char): (i: nat)
    ensures i <= |s|
    ensures i < |s| ==> s[i] == c
    ensures forall j :: 0 <= j < i ==> s[j] != c
  {
    if s == [] then 0 else if s[0] == c then 0 else 1 + FindChar(s[1..], c)
  }

  /** The number `whole.frac` denotes in decimal notation. */
  function DecimalValue(whole: string, frac: string): real
    requires AllDigits(whole) && AllDigits(frac)
  {
    DigitsValue(whole) as real + DigitsValue(frac) as real / Pow10(|frac|) as real
  }

  /** Digits with at most one '.', and at least one digit: "12", "3.25", ".5", "7.". */
  function UnsignedDecimal(s: string): (r: Option<real>)
    ensures |s| > 0 && AllDigits(s) ==> r == Some(DigitsValue(s) as real)
  {
    var dot := FindChar(s, '.');
    assert AllDigits(s) ==> s[..dot] == s;
    var whole := s[..dot];
    var frac := if dot < |s| then s[dot + 1..] else [];
    if AllDigits(whole) && AllDigits(frac) && |whole| + |frac| > 0 then
      Some(DecimalValue(whole, frac))
    else
      None
  }

  /** The first dot of `whole + "." + frac` is the one after the whole digits. */
  lemma DotAfterWhole(whole: string, frac: string)
    requires AllDigits(whole)
    ensures FindChar(whole + "." + frac, '.') == |whole|
  {
    var s := whole + "." + frac;
    var dot := FindChar(s, '.');
    assert s[|whole|] == '.';
    assert forall j :: 0 <= j < |whole| ==> s[j] == whole[j];
  }

  /** Any decimal text `whole.frac` with at least one digit denotes `whole` plus `frac` over ten to the power of its length. */
  lemma UnsignedDecimalText(whole: string, frac: string)
    requires AllDigits(whole) && AllDigits(frac) && |whole| + |frac| > 0
    ensures UnsignedDecimal(whole + "." + frac) == Some(DecimalValue(whole, frac))
  {
    var s := whole + "." + frac;
    DotAfterWhole(whole, frac);
    assert s[..|whole|] == whole;
    assert s[|whole| + 1..] == frac;
  }

  /** A character that is neither a digit nor the dot makes the unsigned decimal invalid. */
  lemma UnsignedRejects(s: string, k: int)
    requires 0 <= k < |s| && !IsDigit(s[k]) && s[k] != '.'
    ensures UnsignedDecimal(s) == None
  {
    var dot := FindChar(s, '.');
    if k < dot {
      assert s[..dot][k] == s[k];
    } else {
      assert s[dot + 1..][k - dot - 1] == s[k];
    }
  }

  /**
   * Python's `float(text)` restricted to plain decimal notation with an
   * optional sign.  None stands for the ValueError Python raises.
   */
  function ParseDecimal(s: string): (r: Option<real>)
    ensures s == [] ==> r == None
    ensures |s| > 0 && AllDigits(s) ==> r == Some(DigitsValue(s) as real)
  {
    if |s| > 0 && (s[0] == '-' || s[0] == '+') then
      match UnsignedDecimal(s[1..])
      case Some(v) => Some(if s[0] == '-' then -v else v)
      case None => None
    else
      UnsignedDecimal(s)
  }

  predicate HasPrefix(s: string, prefix: string)
  {
    |prefix| <= |s| && s[..|prefix|] == prefix
  }

  /**
   * Python's `s.split(":")[1]`: the text between the first and the second
   * colon (or the end).  None stands for the IndexError when `s` has no colon.
   */
  function SecondField(s: string): (r: Option<string>)
    ensures r.Some? <==> ':' in s
    ensures r.Some? ==> ':' !in r.value
  {
    var i := FindChar(s, ':');
    if i == |s| then
      None
    else
      var rest := s[i + 1..];
      Some(rest[..FindChar(rest, ':')])
  }

  /**
   * The value of `s.split(":")[1]`: when the first colon is at `i` and `v`,
   * which has no colon, runs from there to the second colon or the end of `s`,
   * the field is `v`.
   */
  lemma SecondFieldValue(s: string, i: int, v: string)
    requires 0 <= i < |s| && s[i] == ':' && ':' !in s[..i]
    requires i + 1 + |v| <= |s| && s[i + 1..i + 1 + |v|] == v && ':' !in v
    requires i + 1 + |v| == |s| || s[i + 1 + |v|] == ':'
    ensures SecondField(s) == Some(v)
  {
    assert forall j :: 0 <= j < i ==> s[..i][j] == s[j];
    var rest := s[i + 1..];
    assert forall j :: 0 <= j < |v| ==> rest[j] == v[j];
    assert |v| < |rest| ==> rest[|v|] == ':';
    assert rest[..|v|] == v;
  }

  /** Python's `a < b` on strings: lexicographic by code point, a proper prefix first. */
  predicate StrLess(a: string, b: string)
    decreases |a|
  {
    if a == [] then b != []
    else if b == [] then false
    else if a[0] != b[0] then a[0] < b[0]
    else StrLess(a[1..], b[1..])
  }

  lemma {:induction false} StrLessIrreflexive(a: string)
    ensures !StrLess(a, a)
    decreases |a|
  {
    if a != [] {
      StrLessIrreflexive(a[1..]);
    }
  }

  lemma {:induction false} StrLessAsymmetric(a: string, b: string)
    requires StrLess(a, b)
    ensures !StrLess(b, a)
    decreases |a|
  {
    if a != [] && b != [] && a[0] == b[0] {
      StrLessAsymmetric(a[1..], b[1..]);
    }
  }

  lemma {:induction false} StrLessTotal(a: string, b: string)
    ensures a == b || StrLess(a, b) || StrLess(b, a)
    decreases |a|
  {
    if a != [] && b != [] && a[0] == b[0] {
      StrLessTotal(a[1..], b[1..]);
      if a[1..] == b[1..] {
        assert a == [a[0]] + a[1..] && b == [b[0]] + b[1..];
      }
    }
  }

  lemma {:induction false} StrLessTransitive(a: string, b: string, c: string)
    requires StrLess(a, b) && StrLess(b, c)
    ensures StrLess(a, c)
    decreases |a|
  {
    if a != [] && a[0] == b[0] && b[0] == c[0] {
      StrLessTransitive(a[1..], b[1..], c[1..]);
    }
  }
}
