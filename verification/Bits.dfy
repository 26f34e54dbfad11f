/** Shifts, bitwise or and rounded division on unsigned words of any width, next to the bitwise
    and of `RingIndex`. */
module Bits {
  import opened RingIndex

  /** Bitwise or of two unsigned words of any width. */
  function BitOr(a: nat, b: nat): nat
    decreases a + b
  {
    if a == 0 then b
    else if b == 0 then a
    else (if a % 2 == 1 || b % 2 == 1 then 1 else 0) + 2 * BitOr(a / 2, b / 2)
  }

  function Shl(a: nat, k: nat): nat {
    if k == 0 then a else 2 * Shl(a, k - 1)
  }

  function Shr(a: nat, k: nat): nat {
    if k == 0 then a else Shr(a, k - 1) / 2
  }

  lemma {:induction false} ShlMultiplies(a: nat, k: nat)
    ensures Shl(a, k) == a * Pow2(k)
  {
    if k != 0 {
      ShlMultiplies(a, k - 1);
      assert a * Pow2(k) == 2 * (a * Pow2(k - 1));
    }
  }

  lemma {:induction false} ShrDivides(a: nat, k: nat)
    ensures Shr(a, k) == a / Pow2(k)
  {
    if k != 0 {
      ShrDivides(a, k - 1);
      DivTwice(a, Pow2(k - 1));
    }
  }

  lemma DivTwice(a: nat, d: nat)
    requires 0 < d
    ensures (a / d) / 2 == a / (2 * d)
  {
    var q, r := a / d, a % d;
    var h, odd := q / 2, q % 2;
    assert q * d == h * (2 * d) + odd * d;
    assert odd * d + r < 2 * d by {
      assert odd == 0 || odd == 1;
    }
    DivModUnique(a, 2 * d, h, odd * d + r);
  }

  /** Or-ing a shifted word with one that fits below the shift adds them. */
  lemma {:induction false} OrOfDisjoint(a: nat, b: nat, k: nat)
    requires b < Pow2(k)
    ensures BitOr(Shl(a, k), b) == Shl(a, k) + b
    decreases k
  {
    if a == 0 {
      ShlMultiplies(a, k);
    } else if k != 0 {
      OrOfDisjoint(a, b / 2, k - 1);
    }
  }

  /** Shifting down and masking `width` bits reads a field. */
  lemma FieldAt(word: nat, shift: nat, width: nat)
    ensures BitAnd(Shr(word, shift), Pow2(width) - 1) == (word / Pow2(shift)) % Pow2(width)
  {
    ShrDivides(word, shift);
    MaskIsSlot(Shr(word, shift), width);
  }

  lemma {:induction false} PowerOfSum(a: nat, b: nat)
    ensures Pow2(a + b) == Pow2(a) * Pow2(b)
  {
    if a != 0 {
      PowerOfSum(a - 1, b);
    }
  }

  /** How many steps of size `s` cover `x`. */
  function Ceil(x: nat, s: nat): nat
    requires 0 < s
  {
    (x + (s - 1)) / s
  }

  lemma CeilBounds(x: nat, s: nat)
    requires 0 < s
    ensures x <= Ceil(x, s) * s < x + s
    ensures forall c: nat :: x <= c * s ==> Ceil(x, s) <= c
  {
    forall c: nat | x <= c * s ensures Ceil(x, s) <= c {
      if c < Ceil(x, s) {
        MulGap(c, Ceil(x, s), s);
      }
    }
  }
}
