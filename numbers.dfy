/**
 * Number coercion used by the concept lookup: thousands separators are
 * removed and what remains is read as a decimal number. The grammar is a
 * restriction of Python's float(): an optional sign, decimal digits and an
 * optional fractional part, with at least one digit in all.
 */
module Numbers {
  import opened Wrappers

  /** The string with every ',' removed, other characters kept in order. */
  function StripCommas(s: string): (r: string)
    ensures ',' !in r
    ensures |r| <= |s|
    ensures forall c :: c != ',' ==> (c in r <==> c in s)
  {
    if s == [] then []
    else if s[0] == ',' then StripCommas(s[1..])
    else [s[0]] + StripCommas(s[1..])
  }

  predicate IsDigit(c: char) {
    '0' <= c <= '9'
  }

  predicate AllDigits(s: string) {
    forall i :: 0 <= i < |s| ==> IsDigit(s[i])
  }

  function DigitValue(c: char): nat
    requires IsDigit(c)
  {
    c as int - '0' as int
  }

  /** The value of a string of decimal digits, most significant first. */
  function DigitsValue(s: string): nat
    requires AllDigits(s)
  {
    if s == [] then 0 else DigitsValue(s[..|s| - 1]) * 10 + DigitValue(s[|s| - 1])
  }

  function Pow10(n: nat): (r: nat)
    ensures r > 0
  {
    if n == 0 then 1 else 10 * Pow10(n - 1)
  }

  /** Position of the first '.', or |s| when there is none. */
  function DotIndex(s: string): (k: nat)
    ensures k <= |s|
    ensures k < |s| ==> s[k] == '.'
    ensures forall i :: 0 <= i < k ==> s[i] != '.'
  {
    if s == [] then 0 else if s[0] == '.' then 0 else 1 + DotIndex(s[1..])
  }

  /** Digits, optionally followed by '.' and more digits; at least one digit in all. */
  function ParseUnsigned(s: string): Option<real> {
    var k := DotIndex(s);
    var whole := s[..k];
    var frac := if k < |s| then s[k + 1..] else "";
    if AllDigits(whole) && AllDigits(frac) && |whole| + |frac| > 0 then
      Some(DigitsValue(whole) as real + DigitsValue(frac) as real / Pow10(|frac|) as real)
    else
      None
  }

  /** An optional '+' or '-' followed by an unsigned decimal number. */
  function ParseNumber(s: string): Option<real> {
    if |s| > 0 && (s[0] == '-' || s[0] == '+') then
      match ParseUnsigned(s[1..])
      case None => None
      case Some(v) => Some(if s[0] == '-' then -v else v)
    else
      ParseUnsigned(s)
  }

  lemma StripExample()
    ensures StripCommas("1,234.5") == "1234.5"
  {
  }

  lemma DigitsExample()
    ensures DigitsValue("1234") == 1234
  {
    assert DigitsValue("1") == 1 by { assert "1"[..0] == ""; }
    assert DigitsValue("12") == 12 by { assert "12"[..1] == "1"; }
    assert DigitsValue("123") == 123 by { assert "123"[..2] == "12"; }
    assert "1234"[..3] == "123";
  }

  lemma ParseExample()
    ensures ParseNumber("1234.5") == Some(1234.5)
  {
    assert DotIndex("1234.5") == 4;
    assert "1234.5"[..4] == "1234";
    assert "1234.5"[5..] == "5";
    DigitsExample();
    assert DigitsValue("5") == 5 by { assert "5"[..0] == ""; }
  }

  lemma RejectExample()
    ensures ParseNumber("N/A") == None
  {
    assert DotIndex("N/A") == 3;
    assert !IsDigit("N/A"[0]);
  }

  // Rendering used to state the parser's round trips.

  function DigitChar(d: nat): (c: char)
    requires d < 10
    ensures IsDigit(c) && DigitValue(c) == d
  {
    ('0' as int + d) as char
  }

  /** The shortest decimal spelling of a natural number. */
  function NatDigits(n: nat): (s: string)
    ensures |s| > 0 && AllDigits(s)
  {
    if n < 10 then [DigitChar(n)] else NatDigits(n / 10) + [DigitChar(n % 10)]
  }

  /** Digits grouped in threes from the right, separated by ','. */
  function GroupThousands(ds: string): string
    decreases |ds|
  {
    if |ds| <= 3 then ds else GroupThousands(ds[..|ds| - 3]) + "," + ds[|ds| - 3..]
  }

  lemma {:induction false} DigitsValueOfNatDigits(n: nat)
    ensures DigitsValue(NatDigits(n)) == n
  {
    if n >= 10 {
      var s := NatDigits(n);
      DigitsValueOfNatDigits(n / 10);
      assert s[..|s| - 1] == NatDigits(n / 10);
    }
  }

  lemma DotIndexOfDigits(a: string, rest: string)
    requires AllDigits(a)
    requires rest == [] || rest[0] == '.'
    ensures DotIndex(a + rest) == |a|
  {
    assert forall i :: 0 <= i < |a| ==> (a + rest)[i] == a[i] && a[i] != '.';
    assert |a| < |a + rest| ==> (a + rest)[|a|] == '.';
  }

  /** A digit string with an optional fractional part reads back as its value. */
  lemma {:induction false} ParseDecimal(whole: string, frac: string)
    requires AllDigits(whole) && AllDigits(frac) && |whole| + |frac| > 0
    ensures ParseNumber(whole + "." + frac)
         == Some(DigitsValue(whole) as real + DigitsValue(frac) as real / Pow10(|frac|) as real)
    ensures |whole| > 0 ==> ParseNumber(whole) == Some(DigitsValue(whole) as real)
  {
    var s := whole + "." + frac;
    DotIndexOfDigits(whole, "." + frac);
    assert s == whole + ("." + frac);
    assert s[..|whole|] == whole;
    assert s[|whole| + 1..] == frac;
    if |s| > 0 && (s[0] == '-' || s[0] == '+') {
      assert |whole| > 0 ==> IsDigit(s[0]);
    }
    if |whole| > 0 {
      DotIndexOfDigits(whole, "");
      assert whole + "" == whole;
      assert IsDigit(whole[0]);
    }
  }

  lemma {:induction false} StripCommasAppend(a: string, b: string)
    ensures StripCommas(a + b) == StripCommas(a) + StripCommas(b)
  {
    if a == [] {
      assert a + b == b;
    } else {
      assert (a + b)[1..] == a[1..] + b;
      StripCommasAppend(a[1..], b);
    }
  }

  lemma StripCommasNoCommas(s: string)
    requires ',' !in s
    ensures StripCommas(s) == s
  {
  }

  /** Removing the separators undoes thousands grouping. */
  lemma {:induction false} StripGroupThousands(ds: string)
    requires ',' !in ds
    ensures StripCommas(GroupThousands(ds)) == ds
    decreases |ds|
  {
    if |ds| <= 3 {
      StripCommasNoCommas(ds);
    } else {
      var hi, lo := ds[..|ds| - 3], ds[|ds| - 3..];
      assert ',' !in hi && ',' !in lo by {
        assert forall c :: c in hi ==> c in ds;
        assert forall c :: c in lo ==> c in ds;
      }
      StripGroupThousands(hi);
      StripCommasAppend(GroupThousands(hi) + ",", lo);
      StripCommasAppend(GroupThousands(hi), ",");
      StripCommasNoCommas(lo);
      assert StripCommas(",") == "";
      assert hi + lo == ds;
    }
  }

  /**
   * The coercion applied to a fact's text reads a comma-grouped natural
   * number, with or without a leading minus sign, back as that number.
   */
  lemma {:induction false} CoerceGroupedNatural(n: nat)
    ensures ParseNumber(StripCommas(GroupThousands(NatDigits(n)))) == Some(n as real)
    ensures ParseNumber("-" + StripCommas(GroupThousands(NatDigits(n)))) == Some(-(n as real))
    ensures ParseNumber(StripCommas(NatDigits(n))) == Some(n as real)
  {
    var ds := NatDigits(n);
    assert ',' !in ds by {
      forall i | 0 <= i < |ds| ensures ds[i] != ',' { assert IsDigit(ds[i]); }
    }
    StripGroupThousands(ds);
    StripCommasNoCommas(ds);
    DigitsValueOfNatDigits(n);
    ParseDecimal(ds, "");
    var m := "-" + ds;
    assert m[1..] == ds;
  }
}
