/** Digits and integers in text: the decimal form of a natural number (what a
    template literal prints) and the global `parseInt` with no radix argument. */
module Decimal {
  import opened Outcomes
  import opened Text

  predicate IsDigit(c: char) {
    '0' <= c <= '9'
  }

  predicate AllDigits(s: string) {
    forall i :: 0 <= i < |s| ==> IsDigit(s[i])
  }

  predicate NoDigits(s: string) {
    forall i :: 0 <= i < |s| ==> !IsDigit(s[i])
  }

  /** The value of a character read as a digit of radix up to 36; 36 for a
      character that is a digit of no radix. */
  function DigitValue(c: char): (d: nat)
    ensures d <= 36
    ensures IsDigit(c) <==> d < 10
  {
    if '0' <= c <= '9' then c as int - '0' as int
    else if 'a' <= c <= 'z' then c as int - 'a' as int + 10
    else if 'A' <= c <= 'Z' then c as int - 'A' as int + 10
    else 36
  }

  predicate IsRadixDigit(c: char, radix: nat) {
    DigitValue(c) < radix
  }

  predicate AllRadixDigits(s: string, radix: nat) {
    forall i :: 0 <= i < |s| ==> IsRadixDigit(s[i], radix)
  }

  /** The number a string of digits of the given radix denotes, most significant first. */
  function RadixValue(ds: string, radix: nat): nat
    requires AllRadixDigits(ds, radix)
  {
    if ds == [] then 0
    else RadixValue(ds[..|ds| - 1], radix) * radix + DigitValue(ds[|ds| - 1])
  }

  /** The number a string of decimal digits denotes. */
  function DecimalValue(ds: string): nat
    requires AllDigits(ds)
  {
    RadixValue(ds, 10)
  }

  function DigitChar(d: nat): (c: char)
    requires d < 10
    ensures IsDigit(c) && DigitValue(c) == d
  {
    ('0' as int + d) as char
  }

  /** `${n}` for a natural number: a non-empty string of decimal digits without
      a leading zero, whose value is n. */
  function DecimalString(n: nat): (r: string)
    ensures r != [] && AllDigits(r)
    ensures DecimalValue(r) == n
    ensures n > 0 ==> r[0] != '0'
  {
    if n < 10 then
      var r := [DigitChar(n)];
      assert r[..0] == [];
      assert DecimalValue(r) == RadixValue(r[..0], 10) * 10 + DigitValue(r[0]);
      r
    else
      var r := DecimalString(n / 10) + [DigitChar(n % 10)];
      assert r[..|r| - 1] == DecimalString(n / 10);
      r
  }

  /** Different numbers print differently. */
  lemma DecimalStringInjective(a: nat, b: nat)
    requires DecimalString(a) == DecimalString(b)
    ensures a == b
  {
    assert DecimalValue(DecimalString(a)) == a;
  }

  /** `s.replace(/[^0-9]/g, '')`: the digit characters of `s`, in order. */
  function Digits(s: string): (r: string)
    ensures AllDigits(r) && |r| <= |s|
  {
    if s == [] then []
    else if IsDigit(s[0]) then [s[0]] + Digits(s[1..])
    else Digits(s[1..])
  }

  /** A string without digit characters has no digits to keep. */
  lemma {:induction false} DigitsOfNoDigits(s: string)
    requires NoDigits(s)
    ensures Digits(s) == []
  {
    if s != [] {
      DigitsOfNoDigits(s[1..]);
    }
  }

  /** A string of digit characters is kept whole. */
  lemma {:induction false} DigitsOfAllDigits(s: string)
    requires AllDigits(s)
    ensures Digits(s) == s
  {
    if s != [] {
      DigitsOfAllDigits(s[1..]);
    }
  }

  /** Taking the digits of a concatenation is concatenating the digits. */
  lemma {:induction false} DigitsOfConcat(a: string, b: string)
    ensures Digits(a + b) == Digits(a) + Digits(b)
    decreases |a|
  {
    if a == [] {
      assert a + b == b;
    } else {
      assert (a + b)[0] == a[0] && (a + b)[1..] == a[1..] + b;
      DigitsOfConcat(a[1..], b);
    }
  }

  /** The longest prefix of `s` made of digits of the given radix. */
  function RadixPrefix(s: string, radix: nat): (r: string)
    ensures |r| <= |s| && r == s[..|r|] && AllRadixDigits(r, radix)
    ensures |r| < |s| ==> !IsRadixDigit(s[|r|], radix)
  {
    if s != [] && IsRadixDigit(s[0], radix) then
      var r := [s[0]] + RadixPrefix(s[1..], radix);
      assert forall i :: 1 <= i < |r| ==> r[i] == RadixPrefix(s[1..], radix)[i - 1];
      r
    else []
  }

  /** A string made of digits of the radix is its own longest such prefix. */
  lemma RadixPrefixOfDigits(s: string, radix: nat)
    requires AllRadixDigits(s, radix)
    ensures RadixPrefix(s, radix) == s
  {
  }

  /** The value of the longest run of digits of the radix at the start of `s`;
      None when `s` does not start with such a digit. */
  function LeadingNumber(s: string, radix: nat): (r: Option<nat>)
    ensures r.None? <==> s == [] || !IsRadixDigit(s[0], radix)
  {
    var ds := RadixPrefix(s, radix);
    if ds == [] then None else Some(RadixValue(ds, radix))
  }

  /** `parseInt(s)` with no radix argument; None stands for NaN. Leading whitespace
      is skipped, an optional sign is read, a "0x" or "0X" prefix selects radix 16,
      and the longest run of digits that follows is the value; no digits is NaN.
      On a non-empty string of decimal digits the result is its decimal value,
      and a string without any digit is NaN. */
  function ParseInt(s: string): (r: Option<int>)
    ensures s != [] && AllDigits(s) ==> r == Some(DecimalValue(s))
    ensures NoDigits(s) ==> r == None
  {
    var t := TrimStart(s);
    var negative := |t| > 0 && t[0] == '-';
    var unsigned := if |t| > 0 && (t[0] == '-' || t[0] == '+') then t[1..] else t;
    var hex := |unsigned| >= 2 && unsigned[0] == '0' && (unsigned[1] == 'x' || unsigned[1] == 'X');
    var magnitude := if hex then LeadingNumber(unsigned[2..], 16) else LeadingNumber(unsigned, 10);
    assert s != [] && AllDigits(s) ==> magnitude == Some(DecimalValue(s)) && !negative by {
      if s != [] && AllDigits(s) {
        assert !IsSpace(s[0]);
        assert t == s;
        assert AllRadixDigits(s, 10);
        RadixPrefixOfDigits(s, 10);
      }
    }
    assert NoDigits(s) ==> magnitude == None by {
      if NoDigits(s) {
        TrimStartIsSuffix(s);
        if unsigned != [] {
          assert unsigned[0] == s[|s| - |unsigned|];
          assert !IsRadixDigit(unsigned[0], 10);
        }
      }
    }
    match magnitude
    case None => None
    case Some(m) => var value: int := m; if negative then Some(-value) else Some(value)
  }

  /** parseInt reads back what a template literal prints. */
  lemma ParseIntOfDecimalString(n: nat)
    ensures ParseInt(DecimalString(n)) == Some(n)
  {
  }
}
