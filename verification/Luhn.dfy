/** The Luhn check of card-number candidates (Annex B of ISO/IEC 7812-1). */
module Luhn {
  newtype Digit = d: int | 0 <= d <= 9

  /** The contribution of a digit: doubled with its digits added, or as it is. */
  function Weight(d: Digit, doubled: bool): (w: int)
    ensures 0 <= w <= 9
  {
    var n := d as int;
    if !doubled then n else if 2 * n > 9 then 2 * n - 9 else 2 * n
  }

  /** The sum from the right; `doubled` says whether the rightmost digit is doubled. */
  function Sum(digits: seq<Digit>, doubled: bool): int {
    if digits == [] then 0
    else Weight(digits[|digits| - 1], doubled) + Sum(digits[..|digits| - 1], !doubled)
  }

  predicate Valid(digits: seq<Digit>) {
    13 <= |digits| <= 19 && Sum(digits, false) % 10 == 0
  }

  function Flips(doubled: bool, n: nat): bool {
    if n % 2 == 0 then doubled else !doubled
  }

  lemma {:induction false} SumSplits(a: seq<Digit>, b: seq<Digit>, doubled: bool)
    ensures Sum(a + b, doubled) == Sum(b, doubled) + Sum(a, Flips(doubled, |b|))
  {
    if b == [] {
      assert a + b == a;
    } else {
      var init := b[..|b| - 1];
      assert (a + b)[..|a + b| - 1] == a + init;
      SumSplits(a, init, !doubled);
    }
  }

  method LuhnValid(digits: seq<Digit>) returns (valid: bool)
    ensures valid <==> Valid(digits)
  {
    if |digits| < 13 || |digits| > 19 {
      return false;
    }
    var sum := 0;
    var alt := false;
    var i := |digits| - 1;
    assert digits[..i + 1] == digits;
    while i >= 0
      invariant -1 <= i < |digits|
      invariant alt == Flips(false, |digits| - 1 - i)
      invariant sum + Sum(digits[..i + 1], alt) == Sum(digits, false)
    {
      assert digits[..i + 1][..i] == digits[..i];
      var n := digits[i] as int;
      if alt {
        n := n * 2;
        if n > 9 {
          n := n - 9;
        }
      }
      sum := sum + n;
      alt := !alt;
      i := i - 1;
    }
    return sum % 10 == 0;
  }

  lemma SumLast(front: seq<Digit>, d: Digit, doubled: bool)
    ensures Sum(front + [d], doubled) == Weight(d, doubled) + Sum(front, !doubled)
  {
    assert (front + [d])[..|front|] == front;
  }

  /** From the right: every other digit counts the digits of its double. */
  lemma SumFromTheRight(front: seq<Digit>, d: Digit)
    ensures Sum(front + [d], false) == d as int + Sum(front, true)
    ensures Sum(front + [d], true) == 2 * d as int / 10 + 2 * d as int % 10 + Sum(front, false)
    ensures Sum([], true) == Sum([], false) == 0
  {
    SumLast(front, d, false);
    SumLast(front, d, true);
  }

  /** The check digit itself counts once. */
  lemma ValidIs(front: seq<Digit>, d: Digit)
    ensures Valid(front + [d]) <==> 12 <= |front| <= 18 && (d as int + Sum(front, true)) % 10 == 0
  {
    SumFromTheRight(front, d);
  }

  lemma SumPieces(front: seq<Digit>, d: Digit, back: seq<Digit>, doubled: bool)
    requires doubled == Flips(false, |back|)
    ensures Sum(front + [d] + back, false) == Sum(back, false) + Weight(d, doubled) + Sum(front, !doubled)
  {
    SumSplits(front + [d], back, false);
    SumLast(front, d, doubled);
  }

  lemma SumAround(digits: seq<Digit>, i: nat)
    requires i < |digits|
    ensures var doubled := Flips(false, |digits| - 1 - i);
      Sum(digits, false) == Sum(digits[i + 1..], false) + Weight(digits[i], doubled) + Sum(digits[..i], !doubled)
  {
    assert digits == digits[..i] + [digits[i]] + digits[i + 1..];
    SumPieces(digits[..i], digits[i], digits[i + 1..], Flips(false, |digits| - 1 - i));
  }

  lemma WeightsDiffer(a: Digit, b: Digit, doubled: bool)
    requires a != b
    ensures (Weight(a, doubled) - Weight(b, doubled)) % 10 != 0
  {
  }

  lemma SameRemainder(x: int, y: int)
    requires x % 10 == 0
    ensures y % 10 == 0 <==> (y - x) % 10 == 0
  {
  }

  /** Every substitution of a single digit in a valid number is detected. */
  lemma SubstitutionIsDetected(digits: seq<Digit>, i: nat, d: Digit)
    requires Valid(digits) && i < |digits| && d != digits[i]
    ensures !Valid(digits[i := d])
  {
    var other := digits[i := d];
    SumAround(digits, i);
    SumAround(other, i);
    assert other[i + 1..] == digits[i + 1..] && other[..i] == digits[..i];
    SameRemainder(Sum(digits, false), Sum(other, false));
    WeightsDiffer(d, digits[i], Flips(false, |digits| - 1 - i));
  }

  predicate ZeroAndNine(a: Digit, b: Digit) {
    (a == 0 && b == 9) || (a == 9 && b == 0)
  }

  /** What doubling adds to a digit. */
  lemma Doubling(d: Digit)
    ensures Weight(d, true) - Weight(d, false) == if d < 5 then d as int else d as int - 9
  {
  }

  lemma SwapWeights(a: Digit, b: Digit, doubled: bool)
    ensures (Weight(a, doubled) + Weight(b, !doubled) - Weight(b, doubled) - Weight(a, !doubled)) % 10 == 0
      <==> a == b || ZeroAndNine(a, b)
  {
    Doubling(a);
    Doubling(b);
  }

  /** A swap of neighbours in a valid number goes unnoticed exactly for equal digits and for 0 and 9. */
  lemma TranspositionIsDetectedIff(digits: seq<Digit>, i: nat)
    requires Valid(digits) && i + 1 < |digits|
    ensures var a, b := digits[i], digits[i + 1];
      Valid(digits[i := b][i + 1 := a]) <==> a == b || ZeroAndNine(a, b)
  {
    var a, b := digits[i], digits[i + 1];
    var other := digits[i := b][i + 1 := a];
    TwoAround(digits, i);
    TwoAround(other, i);
    assert other[i + 2..] == digits[i + 2..] && other[..i] == digits[..i];
    SameRemainder(Sum(digits, false), Sum(other, false));
    SwapWeights(a, b, Flips(false, |digits| - 2 - i));
  }

  lemma TwoPieces(front: seq<Digit>, a: Digit, b: Digit, back: seq<Digit>, doubled: bool)
    requires doubled == Flips(false, |back|)
    ensures Sum(front + [a] + [b] + back, false)
         == Sum(back, false) + Weight(b, doubled) + Weight(a, !doubled) + Sum(front, doubled)
  {
    SumPieces(front + [a], b, back, doubled);
    SumLast(front, a, !doubled);
  }

  lemma TwoAround(digits: seq<Digit>, i: nat)
    requires i + 1 < |digits|
    ensures var doubled := Flips(false, |digits| - 2 - i);
      Sum(digits, false) == Sum(digits[i + 2..], false)
        + Weight(digits[i + 1], doubled) + Weight(digits[i], !doubled) + Sum(digits[..i], doubled)
  {
    assert digits == digits[..i] + [digits[i]] + [digits[i + 1]] + digits[i + 2..];
    TwoPieces(digits[..i], digits[i], digits[i + 1], digits[i + 2..], Flips(false, |digits| - 2 - i));
  }

  function CheckDigit(prefix: seq<Digit>): Digit {
    ((10 - Sum(prefix, true) % 10) % 10) as Digit
  }

  /** Each prefix of a fitting length is completed by exactly one check digit. */
  lemma CheckDigitIsUnique(prefix: seq<Digit>, c: Digit)
    requires 12 <= |prefix| <= 18
    ensures Valid(prefix + [c]) <==> c == CheckDigit(prefix)
  {
  }
}
