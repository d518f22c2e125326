/** Decimal numerals: what strconv.Atoi reads, said without reading. */
module Numbers {
  import opened Text

  function Digit(d: nat): byte
    requires d < 10
  {
    (d + '0' as int) as char
  }

  /** The usual decimal text of a number. */
  function Digits(n: nat): Str {
    if n < 10 then [Digit(n)] else Digits(n / 10) + [Digit(n % 10)]
  }

  function Zeros(k: nat): Str { if k == 0 then [] else Zeros(k - 1) + "0" }

  /** Leading zeros are allowed. */
  ghost predicate Unsigned(s: Str, n: nat) {
    exists k: nat :: s == Zeros(k) + Digits(n)
  }

  /** A numeral of this number, with or without a sign. */
  ghost predicate Spells(s: Str, n: int) {
    || (n >= 0 && Unsigned(s, n))
    || (n >= 0 && s != [] && s[0] == '+' && Unsigned(s[1..], n))
    || (n <= 0 && s != [] && s[0] == '-' && Unsigned(s[1..], -n))
  }

  lemma SnocValue(s: Str, d: nat)
    requires AllDigits(s) && d < 10
    ensures AllDigits(s + [Digit(d)]) && DecimalValue(s + [Digit(d)]) == 10 * DecimalValue(s) + d
  {
    var t := s + [Digit(d)];
    assert t[..|t| - 1] == s && t[|t| - 1] == Digit(d);
  }

  lemma {:induction false} DigitsValue(n: nat)
    ensures Digits(n) != [] && AllDigits(Digits(n)) && DecimalValue(Digits(n)) == n
  {
    if n < 10 {
      SnocValue([], n);
      assert [] + [Digit(n)] == [Digit(n)];
    } else {
      DigitsValue(n / 10);
      SnocValue(Digits(n / 10), n % 10);
    }
  }

  lemma {:induction false} ZerosOnly(k: nat)
    ensures AllDigits(Zeros(k)) && DecimalValue(Zeros(k)) == 0
  {
    if k > 0 {
      ZerosOnly(k - 1);
      SnocValue(Zeros(k - 1), 0);
      assert [Digit(0)] == "0";
    }
  }

  lemma {:induction false} ZerosValue(k: nat, s: Str)
    requires AllDigits(s)
    ensures AllDigits(Zeros(k) + s) && DecimalValue(Zeros(k) + s) == DecimalValue(s)
    decreases |s|
  {
    ZerosOnly(k);
    if s == [] {
      assert Zeros(k) + s == Zeros(k);
    } else {
      var t, d := s[..|s| - 1], s[|s| - 1] as int - '0' as int;
      ZerosValue(k, t);
      SnocValue(t, d);
      SnocValue(Zeros(k) + t, d);
      assert s == t + [Digit(d)] && Zeros(k) + s == Zeros(k) + t + [Digit(d)];
    }
  }

  /** Every text of digits is a numeral of its value. */
  lemma {:induction false} ValueSpelled(s: Str)
    requires AllDigits(s) && s != []
    ensures Unsigned(s, DecimalValue(s))
  {
    var t, d := s[..|s| - 1], s[|s| - 1] as int - '0' as int;
    assert s == t + [Digit(d)];
    SnocValue(t, d);
    if t == [] {
      assert s == Zeros(0) + Digits(d);
    } else {
      ValueSpelled(t);
      SnocSpelled(t, DecimalValue(t), d);
    }
  }

  lemma SnocSpelled(t: Str, v: nat, d: nat)
    requires Unsigned(t, v) && d < 10
    ensures Unsigned(t + [Digit(d)], 10 * v + d)
  {
    var k: nat :| t == Zeros(k) + Digits(v);
    if v == 0 {
      assert t + [Digit(d)] == Zeros(k + 1) + Digits(d);
    } else {
      assert Digits(10 * v + d) == Digits(v) + [Digit(d)];
      assert t + [Digit(d)] == Zeros(k) + Digits(10 * v + d);
    }
  }

  lemma UnsignedExact(s: Str, n: nat)
    ensures Unsigned(s, n) <==> s != [] && AllDigits(s) && DecimalValue(s) == n
  {
    if Unsigned(s, n) {
      var k: nat :| s == Zeros(k) + Digits(n);
      DigitsValue(n);
      ZerosValue(k, Digits(n));
    } else if s != [] && AllDigits(s) {
      ValueSpelled(s);
    }
  }

  /** Atoi reads exactly the numerals of the numbers that fit 64 bits. */
  lemma AtoiExact(s: Str, n: int)
    ensures Atoi(s) == Some(n) <==> Spells(s, n) && -TWO_63 <= n < TWO_63
  {
    UnsignedExact(s, if n >= 0 then n else -n);
    if s != [] {
      UnsignedExact(s[1..], if n >= 0 then n else -n);
    }
  }

  /** A text is a numeral of one number at most. */
  lemma SpellsOne(s: Str, m: int, n: int)
    requires Spells(s, m) && Spells(s, n)
    ensures m == n
  {
    UnsignedExact(s, if m >= 0 then m else -m);
    UnsignedExact(s, if n >= 0 then n else -n);
    if s != [] {
      UnsignedExact(s[1..], if m >= 0 then m else -m);
      UnsignedExact(s[1..], if n >= 0 then n else -n);
    }
  }
}
