/** Character-level helpers: decimal digits as Python's str()/int() read and
    write them, Python slicing, the whitespace stripping that fixed-width
    reading applies to each field, and plain decimal numbers. */
module Text {
  import opened Wrappers

  predicate IsDigit(c: char) { '0' <= c <= '9' }

  predicate AllDigits(s: string) { forall i :: 0 <= i < |s| ==> IsDigit(s[i]) }

  function DigitValue(c: char): (d: nat)
    requires IsDigit(c)
    ensures d < 10
  {
    c as int - '0' as int
  }

  function DigitChar(d: nat): (c: char)
    requires d < 10
    ensures IsDigit(c) && DigitValue(c) == d
  {
    ('0' as int + d) as char
  }

  function Pow10(w: nat): (p: nat)
    ensures p >= 1
  {
    if w == 0 then 1 else 10 * Pow10(w - 1)
  }

  /** The number a non-empty or empty run of decimal digits denotes, most
      significant digit first (leading zeros allowed, as int() allows them). */
  function DigitsValue(s: string): (n: nat)
    requires AllDigits(s)
    ensures n < Pow10(|s|)
  {
    if s == [] then 0 else 10 * DigitsValue(s[..|s| - 1]) + DigitValue(s[|s| - 1])
  }

  /** int(s) restricted to unsigned digit strings: a non-empty run of digits
      reads as the number it denotes: the one number below 10^|s| that,
      written back at the string's width (leading zeros kept), gives the
      string again. */
  function ParseNat(s: string): (r: Option<nat>)
    ensures r.Some? <==> s != [] && AllDigits(s)
    ensures r.Some? ==> r.value < Pow10(|s|) && Digits(r.value, |s|) == s
  {
    if s != [] && AllDigits(s) then DigitsOfValue(s); Some(DigitsValue(s)) else None
  }

  /** `int()` of a natural zero-padded to a width it fits in reads back
      that natural. */
  lemma ParseNatOfDigits(n: nat, w: nat)
    requires w >= 1 && n < Pow10(w)
    ensures ParseNat(Digits(n, w)) == Some(n)
  {
    DigitsRoundTrip(n, w);
  }

  /** The w low-order decimal digits of n, zero-padded to exactly w characters. */
  function Digits(n: nat, w: nat): (s: string)
    ensures |s| == w && AllDigits(s)
  {
    if w == 0 then [] else Digits(n / 10, w - 1) + [DigitChar(n % 10)]
  }

  /** str(n) for a non-negative integer: shortest decimal form, no leading zero. */
  function DecimalString(n: nat): (s: string)
    ensures |s| >= 1 && AllDigits(s)
    ensures s[0] == '0' <==> n == 0
  {
    if n < 10 then [DigitChar(n)] else DecimalString(n / 10) + [DigitChar(n % 10)]
  }

  lemma {:induction false} DigitsRoundTrip(n: nat, w: nat)
    requires n < Pow10(w)
    ensures DigitsValue(Digits(n, w)) == n
  {
    if w > 0 {
      var q, r := n / 10, n % 10;
      assert n == 10 * q + r && r < 10;
      assert Pow10(w) == 10 * Pow10(w - 1);
      assert q < Pow10(w - 1);
      DigitsRoundTrip(q, w - 1);
      var s := Digits(n, w);
      assert s == Digits(q, w - 1) + [DigitChar(r)];
      assert s[..|s| - 1] == Digits(q, w - 1) && s[|s| - 1] == DigitChar(r);
      assert DigitsValue(s) == 10 * DigitsValue(Digits(q, w - 1)) + DigitValue(DigitChar(r));
    }
  }

  /** Reading back a digit string rebuilds it when rendered at its own width. */
  lemma {:induction false} DigitsOfValue(s: string)
    requires AllDigits(s)
    ensures Digits(DigitsValue(s), |s|) == s
  {
    if s != [] {
      var init, last := s[..|s| - 1], s[|s| - 1];
      DigitsOfValue(init);
      var v, d := DigitsValue(init), DigitValue(last);
      var n := DigitsValue(s);
      assert n == 10 * v + d;
      assert n / 10 == v && n % 10 == d;
      assert DigitChar(d) == last;
      calc {
        Digits(n, |s|);
        Digits(n / 10, |s| - 1) + [DigitChar(n % 10)];
        init + [last];
      }
      assert init + [last] == s;
    }
  }

  lemma {:induction false} DecimalStringRoundTrip(n: nat)
    ensures ParseNat(DecimalString(n)) == Some(n)
  {
    var s := DecimalString(n);
    if n >= 10 {
      DecimalStringRoundTrip(n / 10);
      assert s[..|s| - 1] == DecimalString(n / 10);
    }
  }

  /** Python's s[i:j] for non-negative bounds: ends past the string are clamped. */
  function Slice(s: string, i: nat, j: nat): (r: string)
    ensures |r| == if i < j && i < |s| then (if j < |s| then j else |s|) - i else 0
    ensures forall k :: 0 <= k < |r| ==> r[k] == s[i + k]
  {
    var hi := if j < |s| then j else |s|;
    if i < hi then s[i..hi] else []
  }

  /** The padding characters stripped from every fixed-width field. */
  predicate IsPad(c: char) { c == ' ' || c == '\t' || c == '\r' || c == '\n' }

  predicate Trimmed(s: string) { s == [] || (!IsPad(s[0]) && !IsPad(s[|s| - 1])) }

  function TrimStart(s: string): (r: string)
    ensures |r| <= |s| && r == s[|s| - |r|..]
    ensures r == [] || !IsPad(r[0])
    ensures forall k :: 0 <= k < |s| - |r| ==> IsPad(s[k])
  {
    if s != [] && IsPad(s[0]) then
      var r := TrimStart(s[1..]);
      assert forall k :: 1 <= k < |s| - |r| ==> s[k] == s[1..][k - 1];
      r
    else s
  }

  function TrimEnd(s: string): (r: string)
    ensures |r| <= |s| && r == s[..|r|]
    ensures r == [] || !IsPad(r[|r| - 1])
    ensures forall k :: |r| <= k < |s| ==> IsPad(s[k])
  {
    if s != [] && IsPad(s[|s| - 1]) then
      var r := TrimEnd(s[..|s| - 1]);
      assert forall k :: |r| <= k < |s| - 1 ==> s[k] == s[..|s| - 1][k];
      r
    else s
  }

  /** Leading and trailing padding removed, and nothing else: the result is
      a run of `s` with only padding before and after it, and it has no
      padding at either end; a string with none is returned unchanged. */
  function Strip(s: string): (r: string)
    ensures Trimmed(r) && |r| <= |s|
    ensures Trimmed(s) ==> r == s
    ensures exists i :: PaddedBy(s, i, r)
  {
    var t := TrimStart(s);
    var r := TrimEnd(t);
    assert PaddedBy(s, |s| - |t|, r);
    r
  }

  /** `s` is `r` with only padding before it (the first `i` characters) and
      after it. */
  predicate PaddedBy(s: string, i: nat, r: string)
  {
    && i + |r| <= |s| && s[i..i + |r|] == r
    && (forall k :: 0 <= k < i ==> IsPad(s[k]))
    && (forall k :: i + |r| <= k < |s| ==> IsPad(s[k]))
  }

  function IndexOf(s: string, c: char): (r: Option<nat>)
    ensures r.None? <==> c !in s
    ensures r.Some? ==> r.value < |s| && s[r.value] == c && c !in s[..r.value]
  {
    if s == [] then None
    else if s[0] == c then Some(0)
    else match IndexOf(s[1..], c)
      case None => None
      case Some(k) => assert s[..k + 1] == [s[0]] + s[1..][..k]; Some(k + 1)
  }

  /** Unsigned decimal: digits with at most one decimal point and at least one digit. */
  function ParseUnsigned(s: string): Option<real>
  {
    match IndexOf(s, '.')
    case None =>
      if s != [] && AllDigits(s) then Some(DigitsValue(s) as real) else None
    case Some(dot) =>
      var whole, frac := s[..dot], s[dot + 1..];
      if (whole == [] && frac == []) || !AllDigits(whole) || !AllDigits(frac) then None
      else Some(DigitsValue(whole) as real + Fraction(frac))
  }

  /** n / 10^w as an exact rational. */
  function Scaled(n: nat, w: nat): real
  {
    if w == 0 then n as real else Scaled(n, w - 1) / 10.0
  }

  /** Shifting the point w places is dividing by 10^w. */
  lemma {:induction false} ScaledIsQuotient(n: nat, w: nat)
    ensures Scaled(n, w) == n as real / Pow10(w) as real
  {
    if w > 0 {
      ScaledIsQuotient(n, w - 1);
      assert Pow10(w) as real == 10.0 * Pow10(w - 1) as real;
    }
  }

  /** The value of the digits after a decimal point. */
  function Fraction(frac: string): real
    requires AllDigits(frac)
  {
    Scaled(DigitsValue(frac), |frac|)
  }

  /** pd.to_numeric(..., errors='coerce') on one token, restricted to plain
      decimal notation with an optional sign: None stands for the NaN that
      an unparseable token is coerced to. */
  function ParseDecimal(tok: string): Option<real>
  {
    if tok != [] && (tok[0] == '-' || tok[0] == '+') then
      match ParseUnsigned(tok[1..])
      case None => None
      case Some(x) => Some(if tok[0] == '-' then -x else x)
    else ParseUnsigned(tok)
  }

  predicate IsNumberChar(c: char) { IsDigit(c) || c == '.' || c == '-' || c == '+' }

  /** A token holding any character that cannot occur in a number (a letter,
      a flag, an embedded blank) is coerced to missing. */
  lemma ParseDecimalRejects(tok: string, k: nat)
    requires k < |tok| && !IsNumberChar(tok[k])
    ensures ParseDecimal(tok) == None
  {
    var s := if tok != [] && (tok[0] == '-' || tok[0] == '+') then tok[1..] else tok;
    assert k > 0 ==> s[k - (|tok| - |s|)] == tok[k];
    assert ParseUnsigned(s) == None by {
      var j := k - (|tok| - |s|);
      assert 0 <= j < |s| && !IsNumberChar(s[j]);
      match IndexOf(s, '.')
      case None =>
        assert !IsDigit(s[j]);
      case Some(dot) =>
        if j < dot {
          assert s[..dot][j] == s[j];
        } else {
          assert j != dot;
          assert s[dot + 1..][j - dot - 1] == s[j];
        }
    }
  }

  /** The decimal point after a run of digits is the first one. */
  lemma PointAfterDigits(a: string, b: string)
    requires AllDigits(a)
    ensures IndexOf(a + "." + b, '.') == Some(|a|)
  {
    var s := a + "." + b;
    assert '.' !in a by {
      forall i | 0 <= i < |a| ensures a[i] != '.' { assert IsDigit(a[i]); }
    }
    assert s[..|a|] == a;
    assert s[|a|] == '.';
  }

  lemma ParseUnsignedPoint(a: string, b: string)
    requires a != [] && AllDigits(a) && AllDigits(b)
    ensures ParseUnsigned(a + "." + b) == Some(DigitsValue(a) as real + Fraction(b))
  {
    var s := a + "." + b;
    PointAfterDigits(a, b);
    var whole, frac := s[..|a|], s[|a| + 1..];
    assert whole == a;
    assert frac == b;
    assert !(whole == [] && frac == []);
    assert AllDigits(whole) && AllDigits(frac);
  }

  /** A token of digits, a point and fraction digits reads as their value. */
  lemma ParseDecimalPoint(a: string, b: string)
    requires a != [] && AllDigits(a) && AllDigits(b)
    ensures ParseDecimal(a + "." + b) == Some(DigitsValue(a) as real + Fraction(b))
  {
    var s := a + "." + b;
    assert s[0] == a[0];
    assert IsDigit(s[0]);
    ParseUnsignedPoint(a, b);
  }

  /** `whole` in `ww` digits, a point, and `frac` in `fw` digits. */
  function PointNumber(whole: nat, ww: nat, frac: nat, fw: nat): (tok: string)
    ensures |tok| == ww + 1 + fw
  {
    Digits(whole, ww) + "." + Digits(frac, fw)
  }

  /** A number written as digits, a point and fraction digits reads back as
      its exact value: whole + frac / 10^fw. */
  lemma {:induction false} ParseDecimalOfDigits(whole: nat, ww: nat, frac: nat, fw: nat)
    requires ww >= 1 && whole < Pow10(ww) && frac < Pow10(fw)
    ensures ParseDecimal(PointNumber(whole, ww, frac, fw))
         == Some(whole as real + Scaled(frac, fw))
  {
    var a, b := Digits(whole, ww), Digits(frac, fw);
    var x := whole as real + Scaled(frac, fw);
    assert DigitsValue(a) as real + Fraction(b) == x by {
      DigitsRoundTrip(whole, ww);
      DigitsRoundTrip(frac, fw);
      assert |b| == fw && DigitsValue(b) == frac;
      assert Fraction(b) == Scaled(frac, fw);
    }
    ParseDecimalPoint(a, b);
  }
}
