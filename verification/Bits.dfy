/** The bitwise operators of a 64-bit machine word, digit by binary digit. */
module Bits {
  const WIDTH := 64

  /** `1 << k`. */
  function Pow2(k: nat): (r: nat)
    ensures r > 0
  {
    if k == 0 then 1 else 2 * Pow2(k - 1)
  }

  function AndDigits(a: nat, b: nat, width: nat): nat {
    if width == 0 then 0
    else 2 * AndDigits(a / 2, b / 2, width - 1) + (if a % 2 == 1 && b % 2 == 1 then 1 else 0)
  }

  function OrDigits(a: nat, b: nat, width: nat): nat {
    if width == 0 then 0
    else 2 * OrDigits(a / 2, b / 2, width - 1) + (if a % 2 == 1 || b % 2 == 1 then 1 else 0)
  }

  function NotDigits(a: nat, width: nat): nat {
    if width == 0 then 0 else 2 * NotDigits(a / 2, width - 1) + (1 - a % 2)
  }

  function And(a: nat, b: nat): nat {
    AndDigits(a, b, WIDTH)
  }

  function Or(a: nat, b: nat): nat {
    OrDigits(a, b, WIDTH)
  }

  function Not(a: nat): nat {
    NotDigits(a, WIDTH)
  }

  predicate Digit(w: nat, k: nat) {
    if k == 0 then w % 2 == 1 else Digit(w / 2, k - 1)
  }

  lemma {:induction false} DigitOfAnd(a: nat, b: nat, width: nat, k: nat)
    ensures Digit(AndDigits(a, b, width), k) <==> k < width && Digit(a, k) && Digit(b, k)
  {
    if width == 0 {
      DigitOfZero(k);
    } else if k > 0 {
      DigitOfAnd(a / 2, b / 2, width - 1, k - 1);
    }
  }

  lemma {:induction false} DigitOfOr(a: nat, b: nat, width: nat, k: nat)
    ensures Digit(OrDigits(a, b, width), k) <==> k < width && (Digit(a, k) || Digit(b, k))
  {
    if width == 0 {
      DigitOfZero(k);
    } else if k > 0 {
      DigitOfOr(a / 2, b / 2, width - 1, k - 1);
    }
  }

  lemma {:induction false} DigitOfNot(a: nat, width: nat, k: nat)
    ensures Digit(NotDigits(a, width), k) <==> k < width && !Digit(a, k)
  {
    if width == 0 {
      DigitOfZero(k);
    } else if k > 0 {
      DigitOfNot(a / 2, width - 1, k - 1);
    }
  }

  lemma {:induction false} DigitOfZero(k: nat)
    ensures !Digit(0, k)
  {
    if k > 0 {
      DigitOfZero(k - 1);
    }
  }

  lemma {:induction false} DigitOfPow2(i: nat, k: nat)
    ensures Digit(Pow2(i), k) <==> i == k
  {
    if i == 0 {
      if k > 0 { DigitOfZero(k - 1); }
    } else if k > 0 {
      DigitOfPow2(i - 1, k - 1);
    }
  }

  lemma {:induction false} AndWithZero(a: nat, width: nat)
    ensures AndDigits(a, 0, width) == 0
  {
    if width > 0 {
      AndWithZero(a / 2, width - 1);
    }
  }

  lemma {:induction false} AndWithPow2(w: nat, k: nat, width: nat)
    requires k < width
    ensures AndDigits(w, Pow2(k), width) == if Digit(w, k) then Pow2(k) else 0
  {
    if k == 0 {
      AndWithZero(w / 2, width - 1);
    } else {
      AndWithPow2(w / 2, k - 1, width - 1);
    }
  }

  /** `w & (1 << k) != 0` tests digit `k`. */
  lemma TestIsDigit(w: nat, k: nat)
    requires k < WIDTH
    ensures And(w, Pow2(k)) != 0 <==> Digit(w, k)
  {
    AndWithPow2(w, k, WIDTH);
  }

  /** `w | (1 << i)` changes the answer of that test for digit `i` only. */
  lemma TestAfterSet(w: nat, i: nat, k: nat)
    requires i < WIDTH && k < WIDTH
    ensures And(Or(w, Pow2(i)), Pow2(k)) != 0 <==> i == k || And(w, Pow2(k)) != 0
  {
    TestIsDigit(Or(w, Pow2(i)), k);
    TestIsDigit(w, k);
    DigitOfOr(w, Pow2(i), WIDTH, k);
    DigitOfPow2(i, k);
  }

  /** `w & !(1 << i)` changes the answer of that test for digit `i` only. */
  lemma TestAfterUnset(w: nat, i: nat, k: nat)
    requires i < WIDTH && k < WIDTH
    ensures And(And(w, Not(Pow2(i))), Pow2(k)) != 0 <==> i != k && And(w, Pow2(k)) != 0
  {
    TestIsDigit(And(w, Not(Pow2(i))), k);
    TestIsDigit(w, k);
    DigitOfAnd(w, Not(Pow2(i)), WIDTH, k);
    DigitOfNot(Pow2(i), WIDTH, k);
    DigitOfPow2(i, k);
  }

  lemma ZeroTest(k: nat)
    requires k < WIDTH
    ensures And(0, Pow2(k)) == 0
  {
    TestIsDigit(0, k);
    DigitOfZero(k);
  }
}
