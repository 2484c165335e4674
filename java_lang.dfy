/**
 * The parts of java.lang that SchemeItem calls on raw parameter values:
 * `Integer.valueOf` and `Long.valueOf` (radix 10) and `String.toLowerCase`,
 * restricted to ASCII. A decimal formatter is the parser's inverse.
 */
module JavaLang {
  import opened Wrappers

  const INT_MIN: int := -0x8000_0000
  const INT_MAX: int := 0x7fff_ffff
  const LONG_MIN: int := -0x8000_0000_0000_0000
  const LONG_MAX: int := 0x7fff_ffff_ffff_ffff

  predicate IsDigit(c: char) { '0' <= c <= '9' }

  predicate AllDigits(s: string) { forall i :: 0 <= i < |s| ==> IsDigit(s[i]) }

  /** The value of a run of decimal digits, most significant digit first. */
  function DigitsValue(s: string): nat
    requires AllDigits(s)
    decreases |s|
  {
    if s == [] then 0 else DigitsValue(s[..|s| - 1]) * 10 + (s[|s| - 1] as int - '0' as int)
  }

  /**
   * Radix-10 parse as `Integer.valueOf` / `Long.valueOf` do it: an optional
   * leading '-' or '+', then at least one digit, and the signed value must lie
   * in [lo, hi]. `None` is the NumberFormatException.
   */
  function ParseDecimal(s: string, lo: int, hi: int): (r: Option<int>)
    ensures r.Some? ==> lo <= r.value <= hi
    ensures r.Some? ==> s != [] && IsDigit(s[|s| - 1])
  {
    var signed := |s| > 0 && (s[0] == '-' || s[0] == '+');
    var digits := if signed then s[1..] else s;
    if digits == [] || !AllDigits(digits) then None
    else
      var n: int := if signed && s[0] == '-' then -(DigitsValue(digits) as int) else DigitsValue(digits);
      if lo <= n <= hi then Some(n) else None
  }

  /** `Integer.valueOf(String)`. */
  function ParseInt(s: string): Option<int> { ParseDecimal(s, INT_MIN, INT_MAX) }

  /** `Long.valueOf(String)`. */
  function ParseLong(s: string): Option<int> { ParseDecimal(s, LONG_MIN, LONG_MAX) }

  function DigitChar(d: nat): char
    requires d < 10
  {
    ('0' as int + d) as char
  }

  /** Shortest decimal spelling of a natural number. */
  function FormatNat(n: nat): (s: string)
    ensures |s| > 0 && AllDigits(s)
    decreases n
  {
    if n < 10 then [DigitChar(n)] else FormatNat(n / 10) + [DigitChar(n % 10)]
  }

  /** Decimal spelling of an integer, `Integer.toString` style. */
  function FormatDecimal(n: int): string
  {
    if n < 0 then "-" + FormatNat(-n) else FormatNat(n)
  }

  lemma {:induction false} DigitsValueOfFormat(n: nat)
    ensures DigitsValue(FormatNat(n)) == n
  {
    if n >= 10 {
      var s := FormatNat(n);
      assert s[..|s| - 1] == FormatNat(n / 10);
      DigitsValueOfFormat(n / 10);
    }
  }

  /** Parsing the decimal spelling of any in-range value gives that value back. */
  lemma ParseFormat(n: int, lo: int, hi: int)
    requires lo <= n <= hi
    ensures ParseDecimal(FormatDecimal(n), lo, hi) == Some(n)
  {
    var s := FormatDecimal(n);
    if n < 0 {
      DigitsValueOfFormat(-n);
      assert s[0] == '-' && s[1..] == FormatNat(-n);
    } else {
      DigitsValueOfFormat(n);
      assert IsDigit(s[0]);
    }
  }

  function Zeros(k: nat): string { seq(k, _ => '0') }

  /**
   * The spellings of `n` that `Integer.valueOf` accepts: an optional sign
   * ('-' only when `n <= 0`), any number of leading zeros, then the shortest
   * spelling of `|n|`.
   */
  ghost predicate SpellsDecimal(s: string, n: int)
  {
    var magnitude := FormatNat(if n < 0 then -n else n);
    exists k: nat ::
      || (n >= 0 && s == Zeros(k) + magnitude)
      || (n >= 0 && s == "+" + (Zeros(k) + magnitude))
      || (n <= 0 && s == "-" + (Zeros(k) + magnitude))
  }

  /** Leading zeros do not change the value of a run of digits. */
  lemma {:induction false} DigitsValueZeros(k: nat, t: string)
    requires AllDigits(t)
    ensures AllDigits(Zeros(k) + t)
    ensures DigitsValue(Zeros(k) + t) == DigitsValue(t)
    decreases |t|, k
  {
    var d := Zeros(k) + t;
    if t == [] {
      if k > 0 {
        assert d[..|d| - 1] == Zeros(k - 1) + [];
        DigitsValueZeros(k - 1, []);
      }
    } else {
      assert d[..|d| - 1] == Zeros(k) + t[..|t| - 1];
      DigitsValueZeros(k, t[..|t| - 1]);
    }
  }

  /** Appending a digit to the spelling of a positive number spells ten times it plus that digit. */
  lemma FormatNatStep(q: nat, c: char)
    requires q > 0 && IsDigit(c)
    ensures FormatNat(q * 10 + (c as int - '0' as int)) == FormatNat(q) + [c]
  {
    var r := c as int - '0' as int;
    var n := q * 10 + r;
    assert n / 10 == q && n % 10 == r;
    assert DigitChar(r) == c;
  }

  /** `d` is some zeros followed by `t`. */
  predicate ZerosThen(d: string, t: string)
  {
    |t| <= |d| && d == Zeros(|d| - |t|) + t
  }

  lemma ZerosThenExtend(d: string, t: string, c: char)
    requires ZerosThen(d, t)
    ensures ZerosThen(d + [c], t + [c])
  {
    assert d + [c] == Zeros(|d| - |t|) + (t + [c]);
  }

  lemma ZerosThenAfterZero(d: string, c: char)
    requires ZerosThen(d, "0")
    ensures ZerosThen(d + [c], [c])
  {
    assert Zeros(|d|) == Zeros(|d| - 1) + "0";
  }

  /** Every run of digits is some zeros followed by the shortest spelling of its value. */
  lemma {:induction false} DigitsCanonical(d: string)
    requires d != [] && AllDigits(d)
    ensures ZerosThen(d, FormatNat(DigitsValue(d)))
    decreases |d|
  {
    var init := d[..|d| - 1];
    var c := d[|d| - 1];
    var r := c as int - '0' as int;
    var q := DigitsValue(init);
    assert d == init + [c];
    assert DigitsValue(d) == q * 10 + r;
    if init == [] {
      assert FormatNat(r) == [c] by { assert DigitChar(r) == c; }
      assert ZerosThen([c], [c]);
    } else {
      DigitsCanonical(init);
      if q == 0 {
        assert FormatNat(r) == [c] by { assert DigitChar(r) == c; }
        ZerosThenAfterZero(init, c);
      } else {
        FormatNatStep(q, c);
        ZerosThenExtend(init, FormatNat(q), c);
      }
    }
  }

  /** `ParseDecimal` on an explicit sign followed by a run of digits whose signed value is `n`. */
  lemma ParseSigned(sign: string, digits: string, n: int, lo: int, hi: int)
    requires sign == "" || sign == "+" || sign == "-"
    requires digits != [] && AllDigits(digits)
    requires n == if sign == "-" then -(DigitsValue(digits) as int) else DigitsValue(digits)
    ensures ParseDecimal(sign + digits, lo, hi) == if lo <= n <= hi then Some(n) else None
  {
    var s := sign + digits;
    if sign == "" {
      assert s == digits && IsDigit(s[0]);
    } else {
      assert s[0] == sign[0] && s[1..] == digits;
    }
  }

  /** A sign followed by any run of digits spells the value it is read as. */
  lemma SpellsSigned(sign: string, digits: string)
    requires sign == "" || sign == "+" || sign == "-"
    requires digits != [] && AllDigits(digits)
    ensures SpellsDecimal(sign + digits, if sign == "-" then -(DigitsValue(digits) as int) else DigitsValue(digits))
  {
    var v := DigitsValue(digits);
    DigitsCanonical(digits);
    var k := |digits| - |FormatNat(v)|;
    assert digits == Zeros(k) + FormatNat(v);
    if sign == "" {
      assert sign + digits == digits;
    }
  }

  /** Every value `ParseDecimal` returns is spelled in the accepted form. */
  lemma ParseSpellingSound(s: string, n: int, lo: int, hi: int)
    requires ParseDecimal(s, lo, hi) == Some(n)
    ensures SpellsDecimal(s, n)
  {
    var signed := |s| > 0 && (s[0] == '-' || s[0] == '+');
    var sign := if signed then s[..1] else "";
    var digits := if signed then s[1..] else s;
    assert s == sign + digits;
    SpellsSigned(sign, digits);
  }

  /** A sign, `k` zeros and a run of digits worth `|n|` parse as `n`. */
  lemma ParseZerosThen(s: string, n: int, k: nat, t: string, lo: int, hi: int)
    requires t != [] && AllDigits(t) && DigitsValue(t) == (if n < 0 then -n else n)
    requires lo <= n <= hi
    requires || (n >= 0 && s == Zeros(k) + t)
             || (n >= 0 && s == "+" + (Zeros(k) + t))
             || (n <= 0 && s == "-" + (Zeros(k) + t))
    ensures ParseDecimal(s, lo, hi) == Some(n)
  {
    var digits := Zeros(k) + t;
    DigitsValueZeros(k, t);
    if n >= 0 && s == digits {
      assert s == "" + digits;
      ParseSigned("", digits, n, lo, hi);
    } else if n >= 0 && s == "+" + digits {
      ParseSigned("+", digits, n, lo, hi);
    } else {
      ParseSigned("-", digits, n, lo, hi);
    }
  }

  /** Every accepted spelling of an in-range value parses to that value. */
  lemma ParseSpellingComplete(s: string, n: int, lo: int, hi: int)
    requires lo <= n <= hi && SpellsDecimal(s, n)
    ensures ParseDecimal(s, lo, hi) == Some(n)
  {
    var u: nat := if n < 0 then -n else n;
    var magnitude := FormatNat(u);
    var k: nat :|
      || (n >= 0 && s == Zeros(k) + magnitude)
      || (n >= 0 && s == "+" + (Zeros(k) + magnitude))
      || (n <= 0 && s == "-" + (Zeros(k) + magnitude));
    DigitsValueOfFormat(u);
    ParseZerosThen(s, n, k, magnitude, lo, hi);
  }

  /**
   * `Integer.valueOf` / `Long.valueOf` succeed exactly on the accepted
   * spellings of an in-range value, and return that value.
   */
  lemma ParseSpelling(s: string, n: int, lo: int, hi: int)
    ensures ParseDecimal(s, lo, hi) == Some(n) <==> lo <= n <= hi && SpellsDecimal(s, n)
  {
    if ParseDecimal(s, lo, hi) == Some(n) {
      ParseSpellingSound(s, n, lo, hi);
    }
    if lo <= n <= hi && SpellsDecimal(s, n) {
      ParseSpellingComplete(s, n, lo, hi);
    }
  }

  /** A sign, leading zeros and "-0" are accepted; a bare sign, a blank or a doubled sign are not. */
  lemma ParseExamples()
    ensures ParseInt("+42") == Some(42) && ParseInt("007") == Some(7) && ParseInt("-0") == Some(0)
    ensures ParseInt("").None? && ParseInt("+").None? && ParseInt(" 1").None? && ParseInt("+-1").None?
  {
    assert ParseInt("+42") == Some(42) by {
      assert "+42"[1..] == "42" && "42"[..1] == "4" && "4"[..0] == "";
    }
    assert ParseInt("007") == Some(7) by {
      assert "007"[..2] == "00" && "00"[..1] == "0" && "0"[..0] == "";
    }
    assert ParseInt("-0") == Some(0) by {
      assert "-0"[1..] == "0" && "0"[..0] == "";
    }
    assert ParseInt("+").None? by { assert "+"[1..] == ""; }
    assert ParseInt(" 1").None? by { assert !IsDigit(" 1"[0]); }
    assert ParseInt("+-1").None? by { assert !IsDigit("+-1"[1..][0]); }
  }

  /** `Character.toLowerCase` on the ASCII range; every other character is kept. */
  function LowerChar(c: char): char
  {
    if 'A' <= c <= 'Z' then (c as int + 32) as char else c
  }

  /** `String.toLowerCase`, ASCII case folding. */
  function ToLowerCase(s: string): (r: string)
    ensures |r| == |s|
    ensures forall i :: 0 <= i < |s| ==> r[i] == LowerChar(s[i])
  {
    if s == [] then [] else [LowerChar(s[0])] + ToLowerCase(s[1..])
  }
}
