/** The directory name of a project: a slug of its path, with a hash once the path is long. */
module Slug {
  import opened Numerals
  import opened Sequences

  /** A UTF-16 code unit of the normalized path. */
  type Unit = u: int | 0 <= u < 0x1_0000

  const SLUG_LIMIT: nat := 200

  const MODULUS: int := 0x1_0000_0000

  /** The signed 32-bit value that wraps around to `x`. */
  function Wrap(x: int): (w: int)
    ensures -0x8000_0000 <= w < 0x8000_0000
  {
    (x + 0x8000_0000) % MODULUS - 0x8000_0000
  }

  predicate IsAlphanumeric(c: char) {
    '0' <= c <= '9' || 'A' <= c <= 'Z' || 'a' <= c <= 'z'
  }

  function SlugChar(unit: Unit): char {
    if unit < 256 && IsAlphanumeric(unit as char) then unit as char else '-'
  }

  function Slugged(units: seq<Unit>): string {
    seq(|units|, i requires 0 <= i < |units| => SlugChar(units[i]))
  }

  /** Shift left by five, subtract, add: each step wraps. */
  function HashStep(hash: int, unit: Unit): int {
    Wrap(Wrap(Wrap(hash * 32) - hash) + unit)
  }

  function Hash(units: seq<Unit>): int {
    if units == [] then 0 else HashStep(Hash(units[..|units| - 1]), units[|units| - 1])
  }

  function Magnitude(x: int): nat {
    if x < 0 then -x else x
  }

  function DigitChar36(d: nat): char
    requires d < 36
  {
    if d < 10 then ('0' as int + d) as char else ('a' as int + d - 10) as char
  }

  function Base36(n: nat): string {
    var digits := Digits(n, 36);
    seq(|digits|, i requires 0 <= i < |digits| => DigitChar36(digits[i]))
  }

  function ProjectSlug(units: seq<Unit>): string {
    if |units| <= SLUG_LIMIT then Slugged(units)
    else Slugged(units)[..SLUG_LIMIT] + ['-'] + Base36(Magnitude(Hash(units)))
  }

  function Reversed(s: string): string {
    if s == [] then [] else Reversed(s[1..]) + [s[0]]
  }

  lemma {:induction false} ReversedPush(s: string, c: char)
    ensures Reversed(s + [c]) == [c] + Reversed(s)
  {
    if s == [] {
      assert s + [c] == [c];
    } else {
      assert (s + [c])[1..] == s[1..] + [c];
      ReversedPush(s[1..], c);
    }
  }

  lemma Base36Step(n: nat)
    ensures n >= 36 ==> Base36(n) == Base36(n / 36) + [DigitChar36(n % 36)]
    ensures n < 36 ==> Base36(n) == [DigitChar36(n)]
  {
  }

  /** Digits come out last first and are turned around at the end. */
  method PrintBase36(n: nat) returns (s: string)
    ensures s == Base36(n)
  {
    var value, digits: string := n, [];
    while true
      invariant Base36(n) == Base36(value) + Reversed(digits)
      decreases value
    {
      Base36Step(value);
      ReversedPush(digits, DigitChar36(value % 36));
      digits := digits + [DigitChar36(value % 36)];
      if value / 36 == 0 {
        return Reversed(digits);
      }
      value := value / 36;
    }
  }

  // ---- What the name is --------------------------------------------------------------------

  /** The base-31 polynomial of the units, without any bound. */
  function Polynomial(units: seq<Unit>): int {
    if units == [] then 0 else Polynomial(units[..|units| - 1]) * 31 + units[|units| - 1]
  }

  lemma WrapShift(x: int, k: int)
    ensures Wrap(x + k * MODULUS) == Wrap(x)
  {
    assert (x + k * MODULUS + 0x8000_0000) % MODULUS == (x + 0x8000_0000) % MODULUS;
  }

  lemma WrapCongruent(x: int) returns (k: int)
    ensures Wrap(x) == x + k * MODULUS
  {
    k := -((x + 0x8000_0000) / MODULUS);
  }

  /** One wrapping step from a wrapped value is the wrapped polynomial step. */
  lemma StepWraps(p: int, unit: Unit)
    ensures HashStep(Wrap(p), unit) == Wrap(p * 31 + unit)
  {
    var a := WrapCongruent(p);
    var h := Wrap(p);
    var b := WrapCongruent(h * 32);
    var shifted := Wrap(h * 32);
    var c := WrapCongruent(shifted - h);
    var k := 31 * a + b + c;
    assert Wrap(shifted - h) + unit == p * 31 + unit + k * MODULUS;
    WrapShift(p * 31 + unit, k);
  }

  /** The wrapping fold is the polynomial modulo 2^32, read as a signed number. */
  lemma {:induction false} HashIsPolynomial(units: seq<Unit>)
    ensures Hash(units) == Wrap(Polynomial(units))
  {
    if units != [] {
      var front := units[..|units| - 1];
      HashIsPolynomial(front);
      StepWraps(Polynomial(front), units[|units| - 1]);
    }
  }

  lemma HashModulo(units: seq<Unit>) returns (k: int)
    ensures Hash(units) == Polynomial(units) + k * MODULUS && -0x8000_0000 <= Hash(units) < 0x8000_0000
  {
    HashIsPolynomial(units);
    k := WrapCongruent(Polynomial(units));
  }

  function DigitValue36(c: char): nat {
    if '0' <= c <= '9' then c as int - '0' as int else if 'a' <= c <= 'z' then c as int - 'a' as int + 10 else 0
  }

  function Read36(s: string): nat {
    if s == [] then 0 else Read36(s[..|s| - 1]) * 36 + DigitValue36(s[|s| - 1])
  }

  lemma {:induction false} ReadDigits(digits: seq<nat>, s: string)
    requires |s| == |digits| && forall i | 0 <= i < |s| :: digits[i] < 36 && s[i] == DigitChar36(digits[i])
    ensures Read36(s) == Value(digits, 36)
  {
    if s != [] {
      ReadDigits(digits[..|digits| - 1], s[..|s| - 1]);
    }
  }

  /** The printed digits evaluate back, without a leading zero, in at most six places for 32 bits. */
  lemma Base36Reads(n: nat)
    ensures Read36(Base36(n)) == n && Base36(n) != []
    ensures n > 0 ==> Base36(n)[0] != '0'
    ensures n == 0 ==> Base36(n) == ['0']
    ensures n < MODULUS / 2 + 1 ==> |Base36(n)| <= 6
  {
    DigitsEvaluate(n, 36);
    DigitsCanonical(n, 36);
    ReadDigits(Digits(n, 36), Base36(n));
    if n < MODULUS / 2 + 1 {
      PowerSix();
      DigitsBound(n, 36, 6);
    }
  }

  lemma PowerSix()
    ensures Power(36, 6) == 2176782336
  {
    assert Power(36, 1) == 36;
    assert Power(36, 2) == 1296;
    assert Power(36, 3) == 46656;
    assert Power(36, 4) == 1679616;
    assert Power(36, 5) == 60466176;
  }

  /**
   No path has a name of more than 207 characters, all of them letters, digits and dashes; a short
   path keeps one character for each unit, and a long one ends in the magnitude of its hash.
   */
  lemma NamesAreShort(units: seq<Unit>)
    ensures var name := ProjectSlug(units);
            && |name| <= 207 && (forall i | 0 <= i < |name| :: IsNameChar(name[i]))
            && (|units| <= SLUG_LIMIT ==> |name| == |units|)
            && (|units| > SLUG_LIMIT ==> && name[..SLUG_LIMIT] == Slugged(units[..SLUG_LIMIT])
                                         && name[SLUG_LIMIT] == '-'
                                         && Read36(name[SLUG_LIMIT + 1..]) == Magnitude(Wrap(Polynomial(units))))
  {
    if |units| > SLUG_LIMIT {
      LongName(units);
    }
    forall i | 0 <= i < |ProjectSlug(units)| ensures IsNameChar(ProjectSlug(units)[i]) {
      NameChars(units, i);
    }
  }

  predicate IsNameChar(c: char) {
    IsAlphanumeric(c) || c == '-'
  }

  lemma NameChars(units: seq<Unit>, i: nat)
    requires i < |ProjectSlug(units)|
    ensures IsNameChar(ProjectSlug(units)[i])
  {
    if i > SLUG_LIMIT {
      var printed := Base36(Magnitude(Hash(units)));
      assert ProjectSlug(units)[i] == printed[i - SLUG_LIMIT - 1];
    } else if |units| > SLUG_LIMIT && i < SLUG_LIMIT {
      assert ProjectSlug(units)[i] == Slugged(units)[i];
    }
  }

  lemma LongName(units: seq<Unit>)
    requires |units| > SLUG_LIMIT
    ensures var name := ProjectSlug(units);
            && SLUG_LIMIT + 1 < |name| <= 207 && name[..SLUG_LIMIT] == Slugged(units[..SLUG_LIMIT])
            && name[SLUG_LIMIT] == '-' && Read36(name[SLUG_LIMIT + 1..]) == Magnitude(Wrap(Polynomial(units)))
  {
    var head, printed := Slugged(units)[..SLUG_LIMIT], Base36(Magnitude(Hash(units)));
    HashIsPolynomial(units);
    Base36Reads(Magnitude(Hash(units)));
    Parts(head + ['-'], printed);
    assert head == Slugged(units[..SLUG_LIMIT]);
    assert ProjectSlug(units)[..SLUG_LIMIT] == head;
  }
}
