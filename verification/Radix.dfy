/** Big-endian positional numbers: what math/big's SetBytes, Bytes and DivMod loops compute. */
module Radix {
  // Horner's rule, most significant digit first.
  function Value(digits: seq<int>, base: nat): int {
    if digits == [] then 0 else Value(digits[..|digits| - 1], base) * base + digits[|digits| - 1]
  }

  lemma MulMonotone(a: nat, b: nat, c: nat)
    requires a <= b
    ensures a * c <= b * c
  {
    assert b * c == a * c + (b - a) * c;
  }

  lemma QuotientShrinks(n: nat, base: nat)
    requires n > 0 && base >= 2
    ensures 0 <= n / base < n && n == n / base * base + n % base
  {
    MulMonotone(2, base, n / base);
    assert n / base * base == base * (n / base);
  }

  // The digits of n with no leading zero; none for 0.
  function Digits(n: nat, base: nat): (ds: seq<int>)
    requires base >= 2
    ensures forall i :: 0 <= i < |ds| ==> 0 <= ds[i] < base
    decreases n
  {
    if n == 0 then []
    else
      QuotientShrinks(n, base);
      Digits(n / base, base) + [n % base]
  }

  ghost predicate IsDigits(ds: seq<int>, base: nat) {
    forall i :: 0 <= i < |ds| ==> 0 <= ds[i] < base
  }

  lemma {:induction false} ValueNonNegative(ds: seq<int>, base: nat)
    requires IsDigits(ds, base)
    ensures Value(ds, base) >= 0
  {
    if ds != [] {
      ValueNonNegative(ds[..|ds| - 1], base);
    }
  }

  lemma {:induction false} ValueOfDigits(n: nat, base: nat)
    requires base >= 2
    ensures Value(Digits(n, base), base) == n
    decreases n
  {
    if n > 0 {
      QuotientShrinks(n, base);
      ValueOfDigits(n / base, base);
      var ds := Digits(n / base, base) + [n % base];
      assert ds[..|ds| - 1] == Digits(n / base, base);
    }
  }

  lemma DivModUnique(n: nat, q: nat, r: nat, base: nat)
    requires r < base && n == q * base + r
    ensures n / base == q && n % base == r
  {
    var q', r' := n / base, n % base;
    assert n == q' * base + r';
    if q < q' {
      MulMonotone(q + 1, q', base);
    } else if q' < q {
      MulMonotone(q' + 1, q, base);
    }
  }

  // Appending a digit to a number, unless both are 0.
  lemma NextDigit(v: nat, last: nat, base: nat)
    requires 2 <= base && last < base && (v > 0 || last > 0)
    ensures v * base + last > 0 && Digits(v * base + last, base) == Digits(v, base) + [last]
  {
    if v > 0 {
      MulMonotone(1, v, base);
    }
    DivModUnique(v * base + last, v, last, base);
  }

  // A digit string with no leading zero is the digit string of its value.
  lemma {:induction false} DigitsOfValue(ds: seq<int>, base: nat)
    requires base >= 2 && IsDigits(ds, base)
    requires ds == [] || ds[0] != 0
    ensures Value(ds, base) >= 0 && Digits(Value(ds, base), base) == ds
    ensures ds != [] ==> Value(ds, base) > 0
  {
    if ds != [] {
      var init, last := ds[..|ds| - 1], ds[|ds| - 1];
      DigitsOfValue(init, base);
      NextDigit(Value(init, base), last, base);
      assert ds == init + [last];
    }
  }

  function Zeros(n: nat): (z: seq<int>)
    ensures |z| == n && forall i :: 0 <= i < n ==> z[i] == 0
  {
    seq(n, _ => 0)
  }

  lemma {:induction false} ValueOfPadded(n: nat, ds: seq<int>, base: nat)
    ensures Value(Zeros(n) + ds, base) == Value(ds, base)
    decreases n + |ds|
  {
    var all := Zeros(n) + ds;
    if ds != [] {
      assert all[..|all| - 1] == Zeros(n) + ds[..|ds| - 1];
      ValueOfPadded(n, ds[..|ds| - 1], base);
    } else if n > 0 {
      assert all[..n - 1] == Zeros(n - 1) + ds;
      ValueOfPadded(n - 1, ds, base);
    }
  }

  function Power(base: nat, k: nat): nat {
    if k == 0 then 1 else Power(base, k - 1) * base
  }

  lemma Distribute(a: int, b: int, c: int, d: int)
    ensures (a * b + c) * d == a * (b * d) + c * d
  {
  }

  // The value of a number written in two parts: digits weigh by powers of the base.
  lemma {:induction false} ValueConcat(x: seq<int>, y: seq<int>, base: nat)
    ensures Value(x + y, base) == Value(x, base) * Power(base, |y|) + Value(y, base)
    decreases |y|
  {
    if y == [] {
      assert x + y == x;
    } else {
      var init, last := y[..|y| - 1], y[|y| - 1];
      assert (x + y)[..|x + y| - 1] == x + init;
      ValueConcat(x, init, base);
      Distribute(Value(x, base), Power(base, |init|), Value(init, base), base);
    }
  }

  // k digits are enough for a number below base^k.
  lemma {:induction false} DigitsBound(n: nat, base: nat, k: nat)
    requires base >= 2 && n < Power(base, k)
    ensures |Digits(n, base)| <= k
    decreases k
  {
    if n > 0 {
      QuotientShrinks(n, base);
      if Power(base, k - 1) <= n / base {
        MulMonotone(Power(base, k - 1), n / base, base);
      }
      DigitsBound(n / base, base, k - 1);
    }
  }

  // How many leading elements equal z.
  function Leading(ds: seq<int>, z: int): (n: nat)
    ensures n <= |ds|
    ensures forall i :: 0 <= i < n ==> ds[i] == z
    ensures n < |ds| ==> ds[n] != z
  {
    if ds == [] || ds[0] != z then 0 else 1 + Leading(ds[1..], z)
  }

  // Leading zeros, then the canonical digits: every digit string has this shape.
  lemma CanonicalSplit(ds: seq<int>, base: nat)
    requires base >= 2 && IsDigits(ds, base)
    ensures Value(ds, base) >= 0
    ensures ds == Zeros(Leading(ds, 0)) + Digits(Value(ds, base), base)
  {
    var n := Leading(ds, 0);
    assert ds == Zeros(n) + ds[n..];
    ValueOfPadded(n, ds[n..], base);
    DigitsOfValue(ds[n..], base);
  }
}
