/** Numbers written in a base, most significant digit first, as the printers here write them. */
module Numerals {

  lemma Scale(a: nat, b: nat, base: nat)
    requires a <= b
    ensures base * a <= base * b
  {
  }

  lemma Quotient(n: nat, base: nat)
    requires base >= 2
    ensures n == base * (n / base) + n % base
    ensures n >= base ==> 0 < n / base < n
  {
    if n >= base {
      assert 2 * (n / base) <= base * (n / base) by {
        Scale(2, base, n / base);
      }
    }
  }

  function Digits(n: nat, base: nat): (digits: seq<nat>)
    requires base >= 2
    ensures digits != [] && forall k | 0 <= k < |digits| :: digits[k] < base
    decreases n
  {
    if n < base then [n]
    else
      Quotient(n, base);
      Digits(n / base, base) + [n % base]
  }

  function Value(digits: seq<nat>, base: nat): nat {
    if digits == [] then 0 else Value(digits[..|digits| - 1], base) * base + digits[|digits| - 1]
  }

  /** Zero is one digit; any other number does not start with one. */
  predicate Canonical(digits: seq<nat>, base: nat) {
    && digits != [] && (forall k | 0 <= k < |digits| :: digits[k] < base)
    && (|digits| > 1 ==> digits[0] != 0)
  }

  function Power(base: nat, k: nat): nat {
    if k == 0 then 1 else base * Power(base, k - 1)
  }

  lemma {:induction false} DigitsEvaluate(n: nat, base: nat)
    requires base >= 2
    ensures Value(Digits(n, base), base) == n
    decreases n
  {
    if n >= base {
      var front := Digits(n / base, base);
      Quotient(n, base);
      DigitsEvaluate(n / base, base);
      assert (front + [n % base])[..|front|] == front;
    } else {
      assert [n][..0] == [];
      ZeroTimes(base);
    }
  }

  lemma ZeroTimes(base: nat)
    ensures 0 * base == 0
  {
  }

  lemma {:induction false} DigitsCanonical(n: nat, base: nat)
    requires base >= 2
    ensures Canonical(Digits(n, base), base) && (n > 0 ==> Digits(n, base)[0] != 0)
    decreases n
  {
    if n >= base {
      Quotient(n, base);
      DigitsCanonical(n / base, base);
    }
  }

  lemma DivMod(q: nat, r: nat, base: nat)
    requires base >= 2 && r < base
    ensures (q * base + r) / base == q && (q * base + r) % base == r
  {
    var n := q * base + r;
    Quotient(n, base);
    var p := n / base;
    if p > q {
      Scale(q + 1, p, base);
    } else if p < q {
      Scale(p + 1, q, base);
    }
  }

  lemma {:induction false} ValuePositive(digits: seq<nat>, base: nat)
    requires base >= 2 && Canonical(digits, base) && digits[0] != 0
    ensures Value(digits, base) > 0
  {
    if |digits| > 1 {
      var front := digits[..|digits| - 1];
      ValuePositive(front, base);
      assert Value(front, base) * base >= 1;
    }
  }

  /** A canonical numeral is the one that is printed. */
  lemma {:induction false} CanonicalIsPrinted(digits: seq<nat>, base: nat)
    requires base >= 2 && Canonical(digits, base)
    ensures Digits(Value(digits, base), base) == digits
  {
    var front, last := digits[..|digits| - 1], digits[|digits| - 1];
    if |digits| == 1 {
      ZeroTimes(base);
      assert front == [];
    } else {
      CanonicalIsPrinted(front, base);
      ValuePositive(front, base);
      DivMod(Value(front, base), last, base);
      AtLeastOne(Value(front, base), base);
      assert front + [last] == digits;
    }
  }

  lemma AtLeastOne(q: nat, base: nat)
    requires q > 0
    ensures q * base >= base
  {
  }

  /** A number below a power of the base has at most that many digits. */
  lemma {:induction false} DigitsBound(n: nat, base: nat, k: nat)
    requires base >= 2 && k > 0 && n < Power(base, k)
    ensures |Digits(n, base)| <= k
    decreases k
  {
    if n >= base {
      Quotient(n, base);
      if k == 1 {
        assert Power(base, 0) == 1;
      } else {
        QuotientBelow(n, base, Power(base, k - 1));
        DigitsBound(n / base, base, k - 1);
      }
    }
  }

  lemma QuotientBelow(n: nat, base: nat, bound: nat)
    requires base >= 2 && n < base * bound
    ensures n / base < bound
  {
    Quotient(n, base);
    if n / base >= bound {
      Scale(bound, n / base, base);
    }
  }
}
