/** Decimal integers, as `strconv` prints and reads them in base 10. */
module Decimal {
  import opened Options

  const MIN_INT32 := -0x8000_0000
  const MAX_INT32 := 0x7fff_ffff
  const MIN_INT64 := -0x8000_0000_0000_0000
  const MAX_INT64 := 0x7fff_ffff_ffff_ffff

  type Int32 = x: int | MIN_INT32 <= x <= MAX_INT32
  type Int64 = x: int | MIN_INT64 <= x <= MAX_INT64

  predicate IsDigit(c: char) {
    '0' <= c <= '9'
  }

  function Digits(n: nat): (s: string)
    ensures |s| > 0 && forall c | c in s :: IsDigit(c)
    ensures s[0] == '0' ==> n == 0 && |s| == 1
  {
    if n < 10 then [('0' as int + n) as char] else Digits(n / 10) + [('0' as int + n % 10) as char]
  }

  function Itoa(n: int): (s: string) {
    if n < 0 then "-" + Digits(-n) else Digits(n)
  }

  function ParseDigits(s: string): Option<nat> {
    if s == [] || !IsDigit(s[|s| - 1]) then
      None
    else
      var d := s[|s| - 1] as int - '0' as int;
      if |s| == 1 then Some(d) else
      match ParseDigits(s[..|s| - 1])
      case None => None
      case Some(h) => Some(h * 10 + d)
  }

  /** `strconv.ParseInt(s, 10, bits)`, the range of the width given by its two bounds. */
  function ParseInt(s: string, lo: int, hi: int): (r: Option<int>)
    ensures r.Some? ==> lo <= r.value <= hi
  {
    if s == [] then None else
    var signed := s[0] == '-' || s[0] == '+';
    var u := ParseDigits(if signed then s[1..] else s);
    if u.None? then None else
    var n := (if s[0] == '-' then -1 else 1) * u.value;
    if lo <= n <= hi then Some(n) else None
  }

  lemma {:induction false} DigitsRoundTrip(n: nat)
    ensures ParseDigits(Digits(n)) == Some(n)
  {
    if n >= 10 {
      DigitsRoundTrip(n / 10);
      assert Digits(n)[..|Digits(n)| - 1] == Digits(n / 10);
    }
  }

  /** Every integer of the width is read back from its printed form. */
  lemma ItoaRoundTrip(n: int, lo: int, hi: int)
    requires lo <= n <= hi
    ensures ParseInt(Itoa(n), lo, hi) == Some(n)
  {
    var s := Itoa(n);
    DigitsRoundTrip(if n < 0 then -n else n);
    if n < 0 {
      assert s[1..] == Digits(-n) && s[0] == '-';
    } else {
      FirstIsDigit(n);
    }
    hide Digits, ParseDigits, Itoa;
  }

  lemma FirstIsDigit(n: nat)
    ensures Itoa(n) == Digits(n) && IsDigit(Digits(n)[0])
  {
    assert Digits(n)[0] in Digits(n);
  }

  lemma ItoaInjective(a: int, b: int)
    requires Itoa(a) == Itoa(b)
    ensures a == b
  {
    var lo, hi := if a < b then a else b, if a < b then b else a;
    ItoaRoundTrip(a, lo, hi);
    ItoaRoundTrip(b, lo, hi);
  }

  predicate AllDigits(s: string) {
    forall c | c in s :: IsDigit(c)
  }

  function Pow10(k: nat): nat {
    if k == 0 then 1 else 10 * Pow10(k - 1)
  }

  /** The number that a row of digits stands for, each digit by its place. */
  function NumberOf(s: string): int
    requires AllDigits(s)
  {
    if s == [] then 0 else
    assert s[0] in s && forall c | c in s[1..] :: c in s;
    (s[0] as int - '0' as int) * Pow10(|s| - 1) + NumberOf(s[1..])
  }

  lemma {:induction false} NumberAppend(s: string, c: char)
    requires AllDigits(s) && IsDigit(c)
    ensures AllDigits(s + [c]) && NumberOf(s + [c]) == NumberOf(s) * 10 + (c as int - '0' as int)
  {
    var t := s + [c];
    if s == [] {
      assert t[1..] == [];
    } else {
      assert AllDigits(s[1..]) && t[1..] == s[1..] + [c] && AllDigits(t[1..]);
      NumberAppend(s[1..], c);
      var d, p := s[0] as int - '0' as int, Pow10(|s| - 1);
      assert d * (10 * p) == d * p * 10;
    }
  }

  lemma {:induction false} NumberIsNat(s: string)
    requires AllDigits(s)
    ensures NumberOf(s) >= 0
  {
    if s != [] {
      assert s[|s| - 1] in s;
      NumberSplit(s);
      NumberIsNat(s[..|s| - 1]);
    }
  }

  /** The front and the last digit of a row of digits. */
  lemma NumberSplit(s: string)
    requires s != [] && AllDigits(s)
    ensures AllDigits(s[..|s| - 1]) && NumberOf(s) == NumberOf(s[..|s| - 1]) * 10 + (s[|s| - 1] as int - '0' as int)
  {
    var init := s[..|s| - 1];
    assert s[|s| - 1] in s && AllDigits(init);
    assert s == init + [s[|s| - 1]];
    NumberAppend(init, s[|s| - 1]);
  }

  /** The printed digits stand for the number. */
  lemma {:induction false} DigitsMean(n: nat)
    ensures AllDigits(Digits(n)) && NumberOf(Digits(n)) == n
  {
    NumberSplit(Digits(n));
    if n >= 10 {
      DigitsMean(n / 10);
      assert Digits(n)[..|Digits(n)| - 1] == Digits(n / 10);
    } else {
      assert Digits(n)[..0] == [];
    }
  }

  /** No other row without a leading zero does. */
  lemma {:induction false} DigitsAreUnique(s: string)
    requires s != [] && AllDigits(s) && (s[0] == '0' ==> |s| == 1)
    ensures NumberOf(s) >= 0 && Digits(NumberOf(s)) == s
  {
    var init, d := s[..|s| - 1], s[|s| - 1] as int - '0' as int;
    assert s[|s| - 1] in s;
    NumberIsNat(s);
    NumberSplit(s);
    if |s| == 1 {
      assert init == [] && s == [s[0]] && NumberOf(s) == d;
    } else {
      assert init[0] == s[0];
      DigitsAreUnique(init);
      assert NumberOf(init) > 0;
      assert s == init + [s[|s| - 1]];
    }
  }

  /** Digits are read as the number that they stand for, and nothing else is read. */
  lemma {:induction false} ParseDigitsIs(s: string)
    ensures ParseDigits(s) == if s != [] && AllDigits(s) then Some(NumberOf(s)) else None
  {
    if s != [] {
      var init, last := s[..|s| - 1], s[|s| - 1];
      assert s == init + [last] && last in s;
      ParseDigitsIs(init);
      assert AllDigits(s) <==> AllDigits(init) && IsDigit(last);
      if AllDigits(s) {
        NumberSplit(s);
      }
      hide NumberOf, AllDigits;
    }
  }

  predicate IsSigned(s: string) {
    s != [] && (s[0] == '-' || s[0] == '+')
  }

  /** The text is the number `n` in digits, perhaps with a sign and leading zeros. */
  predicate IsNumeral(s: string, n: int) {
    var digits := if IsSigned(s) then s[1..] else s;
    digits != [] && AllDigits(digits) && n == if s[0] == '-' then -NumberOf(digits) else NumberOf(digits)
  }

  /** Exactly the numerals of the width are read, as their number. */
  lemma ParseIntIff(s: string, lo: int, hi: int, n: int)
    ensures ParseInt(s, lo, hi) == Some(n) <==> lo <= n <= hi && IsNumeral(s, n)
  {
    if s != [] {
      ParseDigitsIs(if IsSigned(s) then s[1..] else s);
    }
    hide ParseDigits, NumberOf;
  }

  /** A printed integer is its digits, without leading zeros, and a minus sign in front of a negative one. */
  lemma ItoaIff(n: int, s: string)
    ensures s == Itoa(n) <==>
              var digits := if n < 0 && s != [] && s[0] == '-' then s[1..] else s;
              && digits != [] && AllDigits(digits) && (digits[0] == '0' ==> |digits| == 1)
              && (n < 0 ==> s[0] == '-')
              && NumberOf(digits) == if n < 0 then -n else n
  {
    var digits := if n < 0 && s != [] && s[0] == '-' then s[1..] else s;
    DigitsMean(if n < 0 then -n else n);
    if digits != [] && AllDigits(digits) && (digits[0] == '0' ==> |digits| == 1) {
      DigitsAreUnique(digits);
      assert n < 0 && s[0] == '-' ==> s == "-" + digits;
    }
    assert n < 0 && s == Itoa(n) ==> s[1..] == Digits(-n);
  }
}
