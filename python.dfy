/**
 * The few Python value conversions the order code relies on, stated on
 * exact numbers: truthiness of the user id, `int(x)` and `float(x)` on
 * request values, truncation of a quantity, and list slicing `s[:n]`.
 */
module Python {
  import opened Wrappers
  import opened Text

  /** A value taken from an order request: `None`, an int, a float or a string. */
  datatype Raw = Null | Int(i: int) | Float(f: real) | Str(s: string)

  /** `not user_id` is False: None and 0 are the falsy user ids. */
  predicate Truthy(userId: Option<int>)
  {
    userId.Some? && userId.value != 0
  }

  /** Python's `int(r)` for a float: truncation toward zero. */
  function Trunc(r: real): (n: int)
    ensures r >= 0.0 ==> n == r.Floor
    ensures r >= 0.0 ==> n as real <= r < n as real + 1.0
    ensures r < 0.0 ==> n as real - 1.0 < r <= n as real
    ensures -1.0 < r < 1.0 ==> n == 0
  {
    if r >= 0.0 then r.Floor else -((-r).Floor)
  }

  /** Python's `int(x)`; None stands for the ValueError or TypeError it raises. */
  function ToInt(x: Raw): (r: Option<int>)
    ensures x.Null? ==> r == None
    ensures x.Int? ==> r == Some(x.i)
    ensures x.Float? ==> r.Some? && -1.0 < x.f - r.value as real < 1.0 && (x.f >= 0.0 ==> r.value as real <= x.f) && (x.f < 0.0 ==> x.f <= r.value as real)
    ensures x == Str([]) ==> r == None
  {
    match x
    case Null => None
    case Int(i) => Some(i)
    case Float(f) => Some(Trunc(f))
    case Str(s) => ParseInt(s)
  }

  /** Python's `float(x)`; None stands for the ValueError or TypeError it raises. */
  function ToReal(x: Raw): (r: Option<real>)
    ensures x.Null? ==> r == None
    ensures x.Int? ==> r == Some(x.i as real)
    ensures x.Float? ==> r == Some(x.f)
    ensures x == Str([]) ==> r == None
  {
    match x
    case Null => None
    case Int(i) => Some(i as real)
    case Float(f) => Some(f)
    case Str(s) => ParseDecimal(s)
  }

  /** `int(str(n)) == n`: the decimal text of an integer converts back to it. */
  lemma ToIntOfText(n: int)
    ensures ToInt(Str(IntToStr(n))) == Some(n)
  {
    ParseIntToStr(n);
  }

  /** `int(text)` raises when a character other than a leading sign is not a digit. */
  lemma ToIntRejects(s: string, k: int)
    requires 0 <= k < |s| && !IsDigit(s[k])
    requires !(k == 0 && |s| > 1 && (s[0] == '-' || s[0] == '+'))
    ensures ToInt(Str(s)) == None
  {
    if k > 0 {
      assert s[1..][k - 1] == s[k];
    }
  }

  /** `float(text)` and `int(text)` agree on integer text. */
  lemma ToRealOfIntText(s: string)
    requires ToInt(Str(s)).Some?
    ensures ToReal(Str(s)) == Some(ToInt(Str(s)).value as real)
  {
    if |s| > 1 && (s[0] == '-' || s[0] == '+') && AllDigits(s[1..]) {
      assert !IsDigit(s[0]);
    }
  }

  /** `float(text)` raises on a character that is neither a digit, nor the one dot, nor a leading sign. */
  lemma ToRealRejects(s: string, k: int)
    requires 0 <= k < |s| && !IsDigit(s[k]) && s[k] != '.'
    requires !(k == 0 && (s[0] == '-' || s[0] == '+'))
    ensures ToReal(Str(s)) == None
  {
    if |s| > 0 && (s[0] == '-' || s[0] == '+') {
      assert s[1..][k - 1] == s[k];
      UnsignedRejects(s[1..], k - 1);
    } else {
      UnsignedRejects(s, k);
    }
  }

  /** `float(text)` of unsigned decimal text `whole.frac` is the number it denotes. */
  lemma ToRealOfDecimal(whole: string, frac: string)
    requires AllDigits(whole) && AllDigits(frac) && |whole| + |frac| > 0
    ensures ToReal(Str(whole + "." + frac)) == Some(DecimalValue(whole, frac))
  {
    var s := whole + "." + frac;
    UnsignedDecimalText(whole, frac);
    if |whole| > 0 {
      assert s[0] == whole[0];
    } else {
      assert s[0] == '.';
    }
  }

  /**
   * `float(sign + text)` for text that does not itself start with a sign: a
   * leading `-` negates `float(text)`, a leading `+` keeps it, and either
   * raises exactly when `float(text)` does.
   */
  lemma ToRealSigned(sign: char, t: string)
    requires sign == '-' || sign == '+'
    requires t == [] || (t[0] != '-' && t[0] != '+')
    ensures ToReal(Str([sign] + t)) ==
      match ToReal(Str(t))
      case Some(v) => Some(if sign == '-' then -v else v)
      case None => None
  {
    assert ([sign] + t)[1..] == t;
  }

  /** `float("3.25")` is 3.25. */
  lemma ToRealOfDecimalText()
    ensures ToReal(Str("3.25")) == Some(3.25)
  {
    var s := "3.25";
    assert FindChar(s, '.') == 1;
    assert s[..1] == "3" && s[2..] == "25";
    assert DigitsValue("25") == 25 by { assert "25"[..1] == "2"; }
    assert Pow10(2) == 100;
    assert DecimalValue("3", "25") == 3.25;
  }

  /** Python's `s[:n]`: a negative bound counts from the end. */
  function Take<T>(s: seq<T>, n: int): (r: seq<T>)
    ensures n >= 0 ==> |r| == if n < |s| then n else |s|
    ensures n < 0 ==> |r| == if -n < |s| then |s| + n else 0
    ensures forall i :: 0 <= i < |r| ==> r[i] == s[i]
  {
    if n >= |s| then s
    else if n >= 0 then s[..n]
    else if -n < |s| then s[..|s| + n]
    else []
  }
}
