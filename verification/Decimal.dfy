/** Decimal text: the "%d" verb and strconv.Atoi on 64-bit integers. */
module Decimal {
  import opened Wrappers

  const INT_BOUND: int := 0x8000_0000_0000_0000

  predicate IsInt64(n: int) { -INT_BOUND <= n < INT_BOUND }

  predicate IsDigit(c: char) { '0' <= c <= '9' }

  function DigitValue(c: char): nat
    requires IsDigit(c)
  {
    c as int - '0' as int
  }

  function Digits(n: nat): (r: string)
    ensures |r| >= 1 && forall c :: c in r ==> IsDigit(c)
  {
    var d := ['0' + (n % 10) as char];
    if n < 10 then d else Digits(n / 10) + d
  }

  function Itoa(n: int): string {
    if n < 0 then "-" + Digits(-n) else Digits(n)
  }

  /** The number a text of digits denotes. */
  function Value(s: string): nat
    requires forall c :: c in s ==> IsDigit(c)
  {
    if s == "" then 0 else 10 * Value(s[..|s| - 1]) + DigitValue(s[|s| - 1])
  }

  /** strconv.Atoi: an optional sign, at least one digit, nothing else, in range. */
  function Atoi(s: string): Option<int> {
    var negative := s != "" && s[0] == '-';
    var digits := if negative || (s != "" && s[0] == '+') then s[1..] else s;
    if digits == "" || exists c :: c in digits && !IsDigit(c) then None
    else
      var n: int := if negative then -(Value(digits) as int) else Value(digits);
      if IsInt64(n) then Some(n) else None
  }

  lemma {:induction false} ValueDigits(n: nat)
    ensures Value(Digits(n)) == n
  {
    if n >= 10 {
      ValueDigits(n / 10);
      var r := Digits(n);
      assert r[..|r| - 1] == Digits(n / 10);
    } else {
      assert Digits(n)[..0] == "";
    }
  }

  function Zeros(k: nat): string {
    seq(k, i => '0')
  }

  /** The digits of a number, possibly after zeros. */
  ghost predicate Padded(d: string, n: nat) {
    exists k: nat :: d == Zeros(k) + Digits(n)
  }

  lemma {:induction false} DigitsPadded(d: string)
    requires d != "" && forall c :: c in d ==> IsDigit(c)
    ensures Padded(d, Value(d))
  {
    var init, c := d[..|d| - 1], d[|d| - 1];
    var n := Value(d);
    assert d == init + [c];
    assert n == 10 * Value(init) + DigitValue(c);
    if init == "" {
      DigitsOf(0, c);
      assert Value(init) == 0 && Zeros(0) == "";
      assert d == Zeros(0) + Digits(n);
    } else {
      DigitsPadded(init);
      var v := Value(init);
      var k: nat :| init == Zeros(k) + Digits(v);
      DigitsOf(v, c);
      OneMoreDigit(d, k, v, c);
    }
  }

  lemma DigitsOf(v: nat, c: char)
    requires IsDigit(c)
    ensures Digits(10 * v + DigitValue(c)) == (if v == 0 then "" else Digits(v)) + [c]
  {
    var n := 10 * v + DigitValue(c);
    assert n / 10 == v && n % 10 == DigitValue(c);
    assert '0' + DigitValue(c) as char == c;
  }

  lemma OneMoreDigit(d: string, k: nat, v: nat, c: char)
    requires d == Zeros(k) + Digits(v) + [c] && IsDigit(c)
    requires Digits(10 * v + DigitValue(c)) == (if v == 0 then "" else Digits(v)) + [c]
    ensures Padded(d, 10 * v + DigitValue(c))
  {
    var n := 10 * v + DigitValue(c);
    if v == 0 {
      assert Digits(0) == "0";
      assert d == Zeros(k + 1) + Digits(n);
    } else {
      assert d == Zeros(k) + Digits(n);
    }
  }

  lemma {:induction false} ValuePadded(k: nat, d: string)
    requires forall c :: c in d ==> IsDigit(c)
    ensures Value(Zeros(k) + d) == Value(d)
  {
    var s := Zeros(k) + d;
    if d != "" {
      assert s[..|s| - 1] == Zeros(k) + d[..|d| - 1];
      ValuePadded(k, d[..|d| - 1]);
    } else if k > 0 {
      assert s[..|s| - 1] == Zeros(k - 1) + d;
      ValuePadded(k - 1, d);
    }
  }

  lemma PaddedIff(d: string, n: nat)
    ensures Padded(d, n) <==> d != "" && (forall c :: c in d ==> IsDigit(c)) && Value(d) == n
  {
    if d != "" && forall c :: c in d ==> IsDigit(c) {
      DigitsPadded(d);
    }
    if Padded(d, n) {
      var k: nat :| d == Zeros(k) + Digits(n);
      ValuePadded(k, Digits(n));
      ValueDigits(n);
    }
  }

  /** A text parses as a number exactly when it is that number's digits, possibly after zeros, with
      an optional plus or a minus as its sign says, and the number is in range. */
  lemma AtoiIff(s: string, n: int)
    ensures Atoi(s) == Some(n) <==>
            && IsInt64(n)
            && (|| (n >= 0 && (Padded(s, n) || (s != "" && s[0] == '+' && Padded(s[1..], n))))
                || (n <= 0 && s != "" && s[0] == '-' && Padded(s[1..], -n)))
  {
    if n >= 0 {
      PaddedIff(s, n);
    }
    if s != "" {
      assert s[0] in s && !IsDigit('-') && !IsDigit('+');
      PaddedIff(s[1..], if n < 0 then -n else n);
    }
  }

  /** In base ten: */
  lemma Printed()
    ensures Itoa(8090) == "8090" && Itoa(-15) == "-15" && Itoa(0) == "0"
  {
    assert Digits(8) == "8" && Digits(80) == "80" && Digits(809) == "809";
    assert Digits(1) == "1" && Digits(15) == "15";
  }

  lemma ItoaInjective(m: int, n: int)
    requires Itoa(m) == Itoa(n)
    ensures m == n
  {
    ValueDigits(if m < 0 then -m else m);
    ValueDigits(if n < 0 then -n else n);
    assert IsDigit(Digits(if m < 0 then -m else m)[0]) && IsDigit(Digits(if n < 0 then -n else n)[0]);
    if m < 0 { assert Itoa(m)[1..] == Digits(-m); }
    if n < 0 { assert Itoa(n)[1..] == Digits(-n); }
  }

  /** Printing and parsing back is the identity on every machine integer. */
  lemma AtoiItoa(n: int)
    requires IsInt64(n)
    ensures Atoi(Itoa(n)) == Some(n)
    ensures '_' !in Itoa(n)
  {
    ValueDigits(if n < 0 then -n else n);
    if n < 0 {
      assert Itoa(n)[1..] == Digits(-n);
    } else {
      assert IsDigit(Digits(n)[0]);
    }
  }
}
