/** Positions of the fixed-capacity rings and the slots they map to.

    Every ring of the runtime keeps ever-growing positions and stores position `p`
    in slot `p & (capacity - 1)`, with a capacity that is a power of two.
 */
module RingIndex {

  /** The slot of a position. `MaskIsSlot` ties it to the mask the code uses. */
  function Slot(position: nat, capacity: nat): (slot: nat)
    requires 0 < capacity
    ensures slot < capacity && slot <= position
    ensures position < capacity ==> slot == position
  {
    position % capacity
  }

  /** Two positions less than one lap apart never share a slot. */
  lemma SlotInjective(a: nat, b: nat, capacity: nat)
    requires 0 < capacity && a <= b < a + capacity
    requires Slot(a, capacity) == Slot(b, capacity)
    ensures a == b
  {
    var qa, qb := a / capacity, b / capacity;
    if qa < qb {
      MulGap(qa, qb, capacity);
    } else if qb < qa {
      MulGap(qb, qa, capacity);
    }
  }

  /** With two slots or more, neighbouring positions have different slots. */
  lemma NeighboursDiffer(position: nat, capacity: nat)
    requires 2 <= capacity
    ensures 0 < position ==> Slot(position - 1, capacity) != Slot(position, capacity)
  {
    if 0 < position && Slot(position - 1, capacity) == Slot(position, capacity) {
      SlotInjective(position - 1, position, capacity);
    }
  }

  /** One lap later the same slot comes round again. */
  lemma SlotNextLap(position: nat, capacity: nat)
    requires 0 < capacity
    ensures Slot(position + capacity, capacity) == Slot(position, capacity)
  {
    var q, r := position / capacity, position % capacity;
    assert position + capacity == (q + 1) * capacity + r;
    DivModUnique(position + capacity, capacity, q + 1, r);
  }

  /** Distinct positions of one window occupy distinct slots: the form the ring proofs use. */
  lemma WindowDistinct(first: nat, capacity: nat, position: nat)
    requires 0 < capacity && first <= position < first + capacity
    ensures forall k: nat :: first <= k < first + capacity && k != position ==>
              Slot(k, capacity) != Slot(position, capacity)
  {
    forall k: nat | first <= k < first + capacity && k != position
      ensures Slot(k, capacity) != Slot(position, capacity)
    {
      if Slot(k, capacity) == Slot(position, capacity) {
        if k < position {
          SlotInjective(k, position, capacity);
        } else {
          SlotInjective(position, k, capacity);
        }
      }
    }
  }

  lemma MulGap(a: int, b: int, d: nat)
    requires a < b
    ensures a * d + d <= b * d
  {
    var gap := b - a - 1;
    assert b * d == a * d + d + gap * d;
  }

  lemma DivModUnique(n: nat, d: nat, q: nat, r: nat)
    requires 0 < d && r < d && n == q * d + r
    ensures n / d == q && n % d == r
  {
    if q < n / d {
      MulGap(q, n / d, d);
    } else if n / d < q {
      MulGap(n / d, q, d);
    }
  }

  function Pow2(k: nat): (p: nat)
    ensures p > 0
  {
    if k == 0 then 1 else 2 * Pow2(k - 1)
  }

  /** Bitwise and of two unsigned words of any width, bit by bit. */
  function BitAnd(a: nat, b: nat): nat
    decreases a
  {
    if a == 0 || b == 0 then 0 else (a % 2) * (b % 2) + 2 * BitAnd(a / 2, b / 2)
  }

  /** `p & (capacity - 1)` is the slot of `p` when the capacity is a power of two. */
  lemma {:induction false} MaskIsSlot(position: nat, k: nat)
    ensures BitAnd(position, Pow2(k) - 1) == Slot(position, Pow2(k))
  {
    if position != 0 && k != 0 {
      MaskIsSlot(position / 2, k - 1);
      SlotHalves(position, Pow2(k - 1));
      var mask := Pow2(k) - 1;
      assert mask % 2 == 1 && mask / 2 == Pow2(k - 1) - 1;
    }
  }

  lemma SlotHalves(position: nat, half: nat)
    requires 0 < half
    ensures Slot(position, 2 * half) == position % 2 + 2 * Slot(position / 2, half)
  {
    var q, r := (position / 2) / half, (position / 2) % half;
    assert position == q * (2 * half) + (2 * r + position % 2) by {
      assert position / 2 == q * half + r;
      assert q * (2 * half) == 2 * (q * half);
    }
    DivModUnique(position, 2 * half, q, 2 * r + position % 2);
  }

  /** A cyclic scan: `attempt` places after `start` among `capacity`. */
  function Probe(start: nat, attempt: nat, capacity: nat): (i: nat)
    requires 0 < capacity
    ensures i < capacity
  {
    (start + attempt) % capacity
  }

  /** A cyclic scan visits every place. */
  lemma ProbeReaches(start: nat, capacity: nat, i: nat)
    requires start < capacity && i < capacity
    ensures exists attempt: nat :: attempt < capacity && Probe(start, attempt, capacity) == i
  {
    var attempt := if start <= i then i - start else capacity - start + i;
    if start > i {
      DivModUnique(start + attempt, capacity, 1, i);
    } else {
      DivModUnique(start + attempt, capacity, 0, i);
    }
    assert Probe(start, attempt, capacity) == i;
  }

  function Min(a: nat, b: nat): nat {
    if a <= b then a else b
  }
}
