/**
 * `Integer.parseInt` in radix 10 over ASCII digits, and `Integer.toString` as its partner.
 */
module JavaIntegers {
  import opened Wrappers

  const MIN_VALUE: int := -0x8000_0000
  const MAX_VALUE: int := 0x7FFF_FFFF

  /** A value that fits a Java `int`. */
  predicate IsInt32(n: int) {
    MIN_VALUE <= n <= MAX_VALUE
  }

  predicate IsDigit(c: char) {
    '0' <= c <= '9'
  }

  predicate AllDigits(s: string) {
    forall i :: 0 <= i < |s| ==> IsDigit(s[i])
  }

  function DigitValue(c: char): nat
    requires IsDigit(c)
  {
    c as int - '0' as int
  }

  function DigitChar(d: nat): char
    requires d < 10
  {
    ('0' as int + d) as char
  }

  /** The value of a run of decimal digits, most significant first. */
  function DigitsValue(s: string): nat
    requires AllDigits(s)
  {
    if s == [] then 0 else DigitsValue(s[..|s| - 1]) * 10 + DigitValue(s[|s| - 1])
  }

  /**
   * `Integer.parseInt(s)`: an optional leading '-' or '+', then at least one decimal digit
   * and nothing else, with a value inside the `int` range; anything else is `None`
   * (a `NumberFormatException`).
   */
  function ParseInt(s: string): (r: Option<int>)
    ensures r.Some? ==> IsInt32(r.value)
  {
    if |s| == 0 then None
    else
      var digits := if s[0] == '-' || s[0] == '+' then s[1..] else s;
      if |digits| == 0 || !AllDigits(digits) then None
      else
        var v: int := if s[0] == '-' then -(DigitsValue(digits) as int) else DigitsValue(digits);
        if IsInt32(v) then Some(v) else None
  }

  /** The decimal digits of `n` without leading zeros. */
  function FormatNat(n: nat): (s: string)
    ensures |s| > 0 && AllDigits(s)
  {
    if n < 10 then [DigitChar(n)] else FormatNat(n / 10) + [DigitChar(n % 10)]
  }

  /** `Integer.toString(n)`. */
  function FormatInt(n: int): string {
    if n < 0 then "-" + FormatNat(-n) else FormatNat(n)
  }

  lemma {:induction false} DigitsValueOfFormatNat(n: nat)
    ensures DigitsValue(FormatNat(n)) == n
  {
    var s := FormatNat(n);
    if n >= 10 {
      DigitsValueOfFormatNat(n / 10);
      assert s[..|s| - 1] == FormatNat(n / 10);
    }
  }

  /** Every `int` survives printing and parsing back. */
  lemma ParseFormatRoundTrip(n: int)
    requires IsInt32(n)
    ensures ParseInt(FormatInt(n)) == Some(n)
  {
    var s := FormatInt(n);
    if n < 0 {
      DigitsValueOfFormatNat(-n);
      assert s[1..] == FormatNat(-n);
    } else {
      DigitsValueOfFormatNat(n);
      assert IsDigit(s[0]);
    }
  }

  /** The optional sign in front of the digits. */
  datatype Sign = Unsigned | Plus | Minus

  function SignText(sign: Sign): string {
    match sign
    case Unsigned => ""
    case Plus => "+"
    case Minus => "-"
  }

  /** No sign or '+' may precede a value `>= 0`, '-' a value `<= 0`. */
  predicate SignFits(sign: Sign, v: int) {
    if sign == Minus then v <= 0 else v >= 0
  }

  /** A run of `n` '0' characters. */
  function Zeros(n: nat): (s: string)
    ensures |s| == n && AllDigits(s)
  {
    if n == 0 then [] else ['0'] + Zeros(n - 1)
  }

  function Abs(v: int): nat {
    if v < 0 then -v else v
  }

  /** `s` writes `v` as an allowed sign, any number of leading zeros, then the digits of `|v|`. */
  ghost predicate Spells(s: string, v: int) {
    exists sign: Sign, z: nat :: SignFits(sign, v) && s == SignText(sign) + (Zeros(z) + FormatNat(Abs(v)))
  }

  /** A leading '0' does not change the value of a run of digits. */
  lemma {:induction false} LeadingZeroValue(t: string)
    requires AllDigits(t)
    ensures AllDigits(['0'] + t) && DigitsValue(['0'] + t) == DigitsValue(t)
  {
    var d := ['0'] + t;
    if t != [] {
      var init := t[..|t| - 1];
      LeadingZeroValue(init);
      assert d[..|d| - 1] == ['0'] + init;
      assert d[|d| - 1] == t[|t| - 1];
    }
  }

  lemma {:induction false} ZerosValue(z: nat, t: string)
    requires AllDigits(t)
    ensures AllDigits(Zeros(z) + t) && DigitsValue(Zeros(z) + t) == DigitsValue(t)
  {
    if z == 0 {
      assert Zeros(z) + t == t;
    } else {
      ZerosValue(z - 1, t);
      assert Zeros(z) + t == ['0'] + (Zeros(z - 1) + t);
      LeadingZeroValue(Zeros(z - 1) + t);
    }
  }

  /** Digits without a leading zero are exactly how `FormatNat` writes their value. */
  lemma {:induction false} CanonicalDigits(d: string)
    requires |d| > 0 && AllDigits(d) && d[0] != '0'
    ensures DigitsValue(d) > 0 && FormatNat(DigitsValue(d)) == d
  {
    var n := DigitsValue(d);
    if |d| == 1 {
      assert d[..0] == [];
    } else {
      var init, last := d[..|d| - 1], d[|d| - 1];
      CanonicalDigits(init);
      var m := DigitsValue(init);
      assert n == m * 10 + DigitValue(last);
      assert n / 10 == m && n % 10 == DigitValue(last);
      assert d == init + [last];
    }
  }

  /** One more leading zero. */
  lemma ZerosCons(z: nat, t: string)
    ensures ['0'] + (Zeros(z) + t) == Zeros(z + 1) + t
  {
    assert Zeros(z + 1) == ['0'] + Zeros(z);
  }

  /** Every run of digits is some leading zeros followed by `FormatNat` of its value. */
  lemma {:induction false} DigitsForm(d: string) returns (z: nat)
    requires |d| > 0 && AllDigits(d)
    ensures d == Zeros(z) + FormatNat(DigitsValue(d))
  {
    z := 0;
    if d[0] != '0' {
      CanonicalDigits(d);
      assert Zeros(0) + d == d;
    } else if |d| == 1 {
      assert d[..0] == [];
      assert DigitsValue(d) == 0;
      assert FormatNat(0) == d;
      assert Zeros(0) + d == d;
    } else {
      var rest := d[1..];
      var z' := DigitsForm(rest);
      var f := FormatNat(DigitsValue(rest));
      assert d == ['0'] + rest;
      LeadingZeroValue(rest);
      assert DigitsValue(d) == DigitsValue(rest);
      ZerosCons(z', f);
      z := z' + 1;
    }
  }

  /** The value a sign and a run of digits denote, before the range check. */
  function SignedValue(sign: Sign, d: string): int
    requires AllDigits(d)
  {
    if sign == Minus then -(DigitsValue(d) as int) else DigitsValue(d)
  }

  /** Parsing a sign followed by digits: their signed value, when it fits an `int`. */
  lemma ParseSigned(sign: Sign, d: string)
    requires |d| > 0 && AllDigits(d)
    ensures ParseInt(SignText(sign) + d)
            == (if IsInt32(SignedValue(sign, d)) then Some(SignedValue(sign, d)) else None)
  {
    var s := SignText(sign) + d;
    assert IsDigit(d[0]);
    if sign == Unsigned {
      assert s == d;
    } else {
      assert s[0] == SignText(sign)[0] && s[1..] == d;
    }
  }

  /** A written value parses back to itself when it fits an `int`. */
  lemma ParseSpelled(sign: Sign, z: nat, v: int)
    requires IsInt32(v) && SignFits(sign, v)
    ensures ParseInt(SignText(sign) + (Zeros(z) + FormatNat(Abs(v)))) == Some(v)
  {
    var f := FormatNat(Abs(v));
    var d := Zeros(z) + f;
    ZerosValue(z, f);
    DigitsValueOfFormatNat(Abs(v));
    assert DigitsValue(d) == Abs(v);
    assert SignedValue(sign, d) == v;
    ParseSigned(sign, d);
  }

  /** A string that parses is a sign, leading zeros and the digits of the value. */
  lemma ParsedIsSpelled(s: string)
    requires ParseInt(s).Some?
    ensures Spells(s, ParseInt(s).value)
  {
    var v := ParseInt(s).value;
    var sign := if s[0] == '-' then Minus else if s[0] == '+' then Plus else Unsigned;
    var digits := if sign == Unsigned then s else s[1..];
    assert s == SignText(sign) + digits;
    ParseSigned(sign, digits);
    assert v == SignedValue(sign, digits);
    var z := DigitsForm(digits);
    assert SignFits(sign, v) && Abs(v) == DigitsValue(digits);
    assert s == SignText(sign) + (Zeros(z) + FormatNat(Abs(v)));
  }

  /**
   * `Integer.parseInt(s)` returns `v` exactly when `v` is an `int` and `s` is an optional sign
   * ('+' only for `v >= 0`, '-' only for `v <= 0`), any number of '0's, then the decimal digits
   * of `|v|`. Every other string (empty, a bare sign, spaces, any other character, a value out
   * of range) throws.
   */
  lemma ParseIntCharacterized(s: string, v: int)
    ensures ParseInt(s) == Some(v) ==> IsInt32(v) && Spells(s, v)
    ensures IsInt32(v) && Spells(s, v) ==> ParseInt(s) == Some(v)
  {
    if ParseInt(s) == Some(v) {
      ParsedIsSpelled(s);
    }
    if IsInt32(v) && Spells(s, v) {
      var sign: Sign, z: nat :| SignFits(sign, v) && s == SignText(sign) + (Zeros(z) + FormatNat(Abs(v)));
      ParseSpelled(sign, z, v);
    }
  }

  /** How `Integer.parseInt` treats signs, leading zeros, spaces and other characters. */
  lemma ParseIntEdges()
    ensures ParseInt("+7") == Some(7) && ParseInt("007") == Some(7) && ParseInt("-0") == Some(0)
    ensures ParseInt("") == None && ParseInt("-") == None && ParseInt("+") == None
    ensures ParseInt(" 7") == None && ParseInt("7 ") == None && ParseInt("1e3") == None
  {
    assert "007"[..2] == "00" && "00"[..1] == "0" && "0"[..0] == [] && "7"[..0] == [];
    assert "+7"[1..] == "7" && "-0"[1..] == "0";
  }

  /** Appending a digit multiplies the value by ten and adds the digit. */
  lemma DigitsSnoc(s: string, c: char)
    requires AllDigits(s) && IsDigit(c)
    ensures AllDigits(s + [c]) && DigitsValue(s + [c]) == DigitsValue(s) * 10 + DigitValue(c)
  {
    assert (s + [c])[..|s|] == s;
  }

  /** The first nine digits of both ends of the `int` range. */
  lemma LeadingNineDigits()
    ensures AllDigits("214748364") && DigitsValue("214748364") == 214748364
  {
    DigitsSnoc("", '2');
    assert "2" == "" + ['2'];
    DigitsSnoc("2", '1');
    assert "21" == "2" + ['1'];
    DigitsSnoc("21", '4');
    assert "214" == "21" + ['4'];
    DigitsSnoc("214", '7');
    assert "2147" == "214" + ['7'];
    DigitsSnoc("2147", '4');
    assert "21474" == "2147" + ['4'];
    DigitsSnoc("21474", '8');
    assert "214748" == "21474" + ['8'];
    DigitsSnoc("214748", '3');
    assert "2147483" == "214748" + ['3'];
    DigitsSnoc("2147483", '6');
    assert "21474836" == "2147483" + ['6'];
    DigitsSnoc("21474836", '4');
    assert "214748364" == "21474836" + ['4'];
  }

  /** The largest `int` parses. */
  lemma ParseIntMax()
    ensures ParseInt("2147483647") == Some(MAX_VALUE)
  {
    LeadingNineDigits();
    DigitsSnoc("214748364", '7');
    var top := "214748364" + ['7'];
    ParseSigned(Unsigned, top);
    assert SignText(Unsigned) + top == "2147483647";
  }

  /** The smallest `int` parses. */
  lemma ParseIntMin()
    ensures ParseInt("-2147483648") == Some(MIN_VALUE)
  {
    LeadingNineDigits();
    DigitsSnoc("214748364", '8');
    var past := "214748364" + ['8'];
    ParseSigned(Minus, past);
    assert SignText(Minus) + past == "-2147483648";
  }

  /** One past the largest `int` throws. */
  lemma ParseIntOverflow()
    ensures ParseInt("2147483648") == None
  {
    LeadingNineDigits();
    DigitsSnoc("214748364", '8');
    var past := "214748364" + ['8'];
    ParseSigned(Unsigned, past);
    assert SignText(Unsigned) + past == "2147483648";
  }
}
