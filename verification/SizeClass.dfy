/** The size classes of the arena heap: sixteen levels, one for each power of two from 32 bytes
    to 1 MiB, each cut into eight equal steps.
 */
module SizeClass {
  import opened Bits
  import opened RingIndex

  const MIN_BLOCK: nat := 32
  const MAX_BLOCK: nat := 0x10_0000
  const SUBDIV: nat := 8
  const LEVELS: nat := 16
  const BUCKETS: nat := LEVELS * SUBDIV
  /** The bucket of a 1 MiB request; the seven buckets above it are never asked for. */
  const LAST_BUCKET: nat := 120
  const INVALID_BUCKET: nat := 0xFFFF_FFFF
  const POINTER_SIZE: nat := 8
  const U32: nat := 0x1_0000_0000
  const SIZE_MAX: nat := 0xFFFF_FFFF_FFFF_FFFF

  // ----- the source's arithmetic -----

  /** `x & ~mask` on unsigned words: the bits of `x` outside `mask`. */
  function AndNot(x: nat, mask: nat): int {
    x - BitAnd(x, mask)
  }

  /** The request rounded up to its alignment, or 0 for one that is refused. */
  function NormalizedRequestSize(size: nat, align: nat, maxAlign: nat): int {
    if align == 0 || maxAlign < align || BitAnd(align, align - 1) != 0 then 0 else
    var mask := align - 1;
    if SIZE_MAX - mask < size then 0 else
    var aligned := AndNot(size + mask, mask);
    if aligned < POINTER_SIZE then POINTER_SIZE else aligned
  }

  function HighestBit(v: nat): nat
    requires 0 < v
  {
    if v == 1 then 0 else 1 + HighestBit(v / 2)
  }

  function BucketIndexFor(req: nat): int {
    if req < MIN_BLOCK then 0
    else if MAX_BLOCK < req then INVALID_BUCKET
    else
      var hb := HighestBit(req);
      var base := Pow2(hb);
      var shift := hb - HighestBit(SUBDIV);
      if shift < 0 || req < base then INVALID_BUCKET else  // neither can happen: `IndexOfLevel`
      var sub := Shr(req - base + (Pow2(shift) - 1), shift);
      (hb - HighestBit(MIN_BLOCK)) * SUBDIV + sub
  }

  function BucketReqSize(bucket: nat): nat {
    var base := Shl(MIN_BLOCK, bucket / SUBDIV);
    var step := if base / SUBDIV != 0 then base / SUBDIV else 1;
    base + (bucket % SUBDIV) * step
  }

  function BucketSizeFor(req: nat): int {
    var n := if req % U32 < MIN_BLOCK then MIN_BLOCK else req % U32;
    if MAX_BLOCK < n then 0 else
    var base := Pow2(HighestBit(n));
    var floor := if base < MIN_BLOCK then MIN_BLOCK else base;
    var step := if floor / SUBDIV == 0 then 1 else floor / SUBDIV;
    var rounded := AndNot(n + (step - 1), step - 1);
    if floor * 2 <= rounded then (if MAX_BLOCK < floor * 2 then 0 else floor * 2) else rounded
  }

  // ----- rounding to powers of two -----

  lemma {:induction false} HighestBitBounds(v: nat)
    requires 0 < v
    ensures Pow2(HighestBit(v)) <= v < 2 * Pow2(HighestBit(v))
  {
    if v != 1 {
      HighestBitBounds(v / 2);
    }
  }

  lemma {:induction false} HighestBitUnique(v: nat, k: nat)
    requires Pow2(k) <= v < 2 * Pow2(k)
    ensures HighestBit(v) == k
  {
    if k != 0 {
      HighestBitUnique(v / 2, k - 1);
    }
  }

  /** `a & (a - 1)` is zero exactly for the powers of two. */
  lemma {:induction false} PowerTest(a: nat)
    requires 0 < a
    ensures BitAnd(a, a - 1) == 0 <==> a == Pow2(HighestBit(a))
  {
    if a != 1 {
      PowerTest(a / 2);
      if a % 2 == 1 {
        AndSelf(a / 2);
      }
    }
  }

  lemma {:induction false} AndSelf(a: nat)
    ensures BitAnd(a, a) == a
  {
    if a != 0 {
      AndSelf(a / 2);
    }
  }

  /** Masking after adding rounds up to a multiple. */
  lemma MaskRoundsUp(x: nat, k: nat)
    ensures AndNot(x + (Pow2(k) - 1), Pow2(k) - 1) == Ceil(x, Pow2(k)) * Pow2(k)
  {
    hide Pow2, BitAnd;
    var p := Pow2(k);
    var y := x + (p - 1);
    MaskIsSlot(y, k);
    assert y == (y / p) * p + y % p;
  }

  lemma {:induction false} PowerMonotone(a: nat, b: nat)
    requires a <= b
    ensures Pow2(a) <= Pow2(b)
  {
    if a < b {
      PowerMonotone(a, b - 1);
    }
  }

  lemma Eighth(k: nat)
    requires 3 <= k
    ensures Pow2(k) == 8 * Pow2(k - 3)
  {
    assert Pow2(k) == 2 * Pow2(k - 1);
    assert Pow2(k - 1) == 2 * Pow2(k - 2);
  }

  lemma Literals()
    ensures Pow2(0) == 1 && Pow2(1) == 2 && Pow2(2) == 4 && Pow2(3) == 8 && Pow2(4) == 16
    ensures Pow2(5) == 32 && Pow2(19) == 0x8_0000 && Pow2(20) == MAX_BLOCK && Pow2(21) == 2 * MAX_BLOCK
  {
    assert Pow2(5) == 32;
    PowerOfSum(5, 5);
    PowerOfSum(9, 10);
    assert Pow2(9) == 512;
  }

  /** The accepted requests, and the least multiple of the alignment they are rounded to. */
  lemma NormalizedMeaning(size: nat, align: nat, maxAlign: nat)
    requires 0 < size
    ensures var r := NormalizedRequestSize(size, align, maxAlign);
            && (r != 0 <==> 0 < align <= maxAlign && align == Pow2(HighestBit(align))
                            && size + align <= SIZE_MAX + 1)
            && (r != 0 ==>
                  && size <= r && POINTER_SIZE <= r <= SIZE_MAX && r % align == 0
                  && (forall m: nat :: size <= m && POINTER_SIZE <= m && m % align == 0 ==> r <= m))
  {
    hide Pow2, AndNot, BitAnd, HighestBit;
    if 0 < align <= maxAlign && size + align <= SIZE_MAX + 1 {
      PowerTest(align);
      if align == Pow2(HighestBit(align)) {
        RoundingMeaning(size, HighestBit(align));
      }
    }
  }

  /** `c` steps of `align`, the fewest that cover `size`, make its least covering multiple. */
  lemma LeastMultiple(size: nat, align: nat)
    requires 0 < align
    ensures var r := Ceil(size, align) * align;
            && size <= r < size + align && r % align == 0
            && (forall m: nat :: size <= m && m % align == 0 ==> r <= m)
  {
    CeilBounds(size, align);
    var c := Ceil(size, align);
    DivModUnique(c * align, align, c, 0);
    forall m: nat | size <= m && m % align == 0 ensures c * align <= m {
      MultipleCovers(size, align, m, c);
    }
  }

  lemma MultipleCovers(size: nat, align: nat, m: nat, c: nat)
    requires 0 < align && size <= m && m % align == 0 && c * align < size + align
    ensures c * align <= m
  {
    var q := m / align;
    assert m == q * align;
    if q < c {
      MulGap(q, c, align);
    }
  }

  lemma SmallRemainder(r: nat, d: nat)
    requires 0 < r < d
    ensures r % d != 0
  {
    DivModUnique(r, d, 0, r);
  }

  /** Alignments below the pointer size divide it, and no other rounds to less than it. */
  lemma SmallAlign(k: nat, r: nat)
    requires 0 < r < POINTER_SIZE && r % Pow2(k) == 0
    ensures POINTER_SIZE % Pow2(k) == 0
  {
    Literals();
    hide Pow2;
    if 3 <= k {
      PowerMonotone(3, k);
      SmallRemainder(r, Pow2(k));
    } else {
      assert k == 0 || k == 1 || k == 2;
    }
  }

  lemma RoundingMeaning(size: nat, k: nat)
    requires 0 < size && size + Pow2(k) <= SIZE_MAX + 1
    ensures var align := Pow2(k);
            var aligned := AndNot(size + (align - 1), align - 1);
            var r := if aligned < POINTER_SIZE then POINTER_SIZE else aligned;
            && size <= r <= SIZE_MAX && r % align == 0
            && (forall m: nat :: size <= m && POINTER_SIZE <= m && m % align == 0 ==> r <= m)
  {
    hide Pow2, AndNot, Ceil;
    var align := Pow2(k);
    MaskRoundsUp(size, k);
    LeastMultiple(size, align);
    var r := Ceil(size, align) * align;
    if r < POINTER_SIZE {
      SmallAlign(k, r);
    }
  }

  // ----- the classes -----

  lemma ReqSizeAt(level: nat, sub: nat)
    requires sub < SUBDIV
    ensures BucketReqSize(level * SUBDIV + sub) == Pow2(level + 5) + sub * Pow2(level + 2)
  {
    hide Pow2;
    var bucket := level * SUBDIV + sub;
    assert bucket / SUBDIV == level && bucket % SUBDIV == sub;
    ShlMultiplies(MIN_BLOCK, level);
    Literals();
    PowerOfSum(level, 5);
    Eighth(level + 5);
  }

  /** The level of a request: the power of two at or below it. */
  lemma LevelBounds(n: nat)
    requires MIN_BLOCK <= n <= MAX_BLOCK
    ensures var hb := HighestBit(n);
            && 5 <= hb <= 20 && Pow2(hb) == 8 * Pow2(hb - 3) && Pow2(hb) <= n < 2 * Pow2(hb)
            && (hb < 20 ==> Pow2(hb) <= 0x8_0000) && (hb == 20 ==> n == Pow2(hb))
            && MIN_BLOCK <= Pow2(hb) <= MAX_BLOCK
  {
    hide Pow2, HighestBit;
    var hb := HighestBit(n);
    Literals();
    HighestBitBounds(n);
    if hb < 5 {
      PowerMonotone(hb, 4);
    } else {
      PowerMonotone(5, hb);
      Eighth(hb);
    }
    if 20 < hb {
      PowerMonotone(21, hb);
    } else {
      PowerMonotone(hb, 20);
    }
    if hb < 20 {
      PowerMonotone(hb, 19);
    }
  }

  /** The eighths of its level a request needs beyond the power of two. */
  ghost function Eighths(n: nat): nat
    requires MIN_BLOCK <= n <= MAX_BLOCK
  {
    LevelBounds(n);
    Ceil(n - Pow2(HighestBit(n)), Pow2(HighestBit(n) - 3))
  }

  /** Both size computations and the index, in terms of the level and the eighths. */
  lemma LevelOf(n: nat)
    requires MIN_BLOCK <= n <= MAX_BLOCK
    ensures var hb, sub := HighestBit(n), Eighths(n);
            && 5 <= hb <= 20 && sub <= SUBDIV && (hb == 20 ==> sub == 0)
            && BucketIndexFor(n) == (hb - 5) * SUBDIV + sub
            && BucketReqSize((hb - 5) * SUBDIV + sub) == Pow2(hb) + sub * Pow2(hb - 3)
            && BucketSizeFor(n) == Pow2(hb) + sub * Pow2(hb - 3)
  {
    hide Pow2, HighestBit, Eighths, BucketReqSize, BucketIndexFor, BucketSizeFor;
    var hb, sub := HighestBit(n), Eighths(n);
    LevelBounds(n);
    EighthsBounds(n);
    IndexOfLevel(n);
    SizeOfLevel(n);
    if sub < SUBDIV {
      ReqSizeAt(hb - 5, sub);
    } else {
      ReqSizeAt(hb - 4, 0);
      PowerOfSum(1, hb);
      Literals();
      assert (hb - 5) * SUBDIV + sub == (hb - 4) * SUBDIV + 0;
    }
  }

  lemma EighthsBounds(n: nat)
    requires MIN_BLOCK <= n <= MAX_BLOCK
    ensures var hb, sub := HighestBit(n), Eighths(n);
            && 5 <= hb <= 20 && sub <= SUBDIV && (hb == 20 ==> sub == 0)
            && n <= Pow2(hb) + sub * Pow2(hb - 3) < n + Pow2(hb - 3)
  {
    hide Pow2, HighestBit, Ceil;
    LevelBounds(n);
    var base, step := Pow2(HighestBit(n)), Pow2(HighestBit(n) - 3);
    CeilBounds(n - base, step);
    assert n - base <= 8 * step;
    assert HighestBit(n) == 20 ==> n - base <= 0 * step;
  }

  lemma IndexOfLevel(n: nat)
    requires MIN_BLOCK <= n <= MAX_BLOCK
    ensures HighestBit(n) >= 5 && BucketIndexFor(n) == (HighestBit(n) - 5) * SUBDIV + Eighths(n)
  {
    hide BucketIndexFor, HighestBit, Shr, Pow2;
    LevelBounds(n);
    IndexUnfolded(n);
    var hb := HighestBit(n);
    ShrDivides(n - Pow2(hb) + (Pow2(hb - 3) - 1), hb - 3);
  }

  lemma IndexUnfolded(n: nat)
    requires MIN_BLOCK <= n <= MAX_BLOCK && 3 <= HighestBit(n) && Pow2(HighestBit(n)) <= n
    ensures var hb := HighestBit(n);
            BucketIndexFor(n) == (hb - 5) * SUBDIV + Shr(n - Pow2(hb) + (Pow2(hb - 3) - 1), hb - 3)
  {
    hide Shr, Pow2;
    assert HighestBit(SUBDIV) == 3 && HighestBit(MIN_BLOCK) == 5;
  }

  lemma SizeOfLevel(n: nat)
    requires MIN_BLOCK <= n <= MAX_BLOCK
    ensures 5 <= HighestBit(n)
    ensures BucketSizeFor(n) == Pow2(HighestBit(n)) + Eighths(n) * Pow2(HighestBit(n) - 3)
  {
    hide BucketSizeFor, Pow2, AndNot, HighestBit, Eighths;
    LevelBounds(n);
    EighthsBounds(n);
    SizeUnfolded(n);
    RoundedUp(n);
    WholeLevel(Eighths(n), Pow2(HighestBit(n) - 3));
  }

  lemma WholeLevel(sub: nat, step: nat)
    requires sub <= SUBDIV && 0 < step
    ensures sub < SUBDIV ==> sub * step < 8 * step
    ensures sub == SUBDIV ==> sub * step == 8 * step
  {
  }

  lemma SizeUnfolded(n: nat)
    requires MIN_BLOCK <= n <= MAX_BLOCK && 3 <= HighestBit(n)
    requires MIN_BLOCK <= Pow2(HighestBit(n)) == 8 * Pow2(HighestBit(n) - 3)
    ensures var base, step := Pow2(HighestBit(n)), Pow2(HighestBit(n) - 3);
            var rounded := AndNot(n + (step - 1), step - 1);
            BucketSizeFor(n) == if 2 * base <= rounded then (if MAX_BLOCK < 2 * base then 0 else 2 * base)
                                else rounded
  {
    hide Pow2, AndNot, HighestBit;
  }

  lemma RoundedUp(n: nat)
    requires MIN_BLOCK <= n <= MAX_BLOCK
    ensures 3 <= HighestBit(n)
    ensures var base, step := Pow2(HighestBit(n)), Pow2(HighestBit(n) - 3);
            AndNot(n + (step - 1), step - 1) == base + Eighths(n) * step
  {
    hide Pow2, AndNot, Ceil, HighestBit;
    LevelBounds(n);
    var hb, sub := HighestBit(n), Eighths(n);
    var base, step := Pow2(hb), Pow2(hb - 3);
    MaskRoundsUp(n, hb - 3);
    CeilShift(n - base, step, 8);
    assert (sub + 8) * step == base + sub * step;
  }

  lemma CeilShift(x: nat, s: nat, c: nat)
    requires 0 < s
    ensures Ceil(x + c * s, s) == Ceil(x, s) + c
  {
    var y := x + (s - 1);
    assert y == (y / s) * s + y % s;
    assert (y / s) * s + c * s == (y / s + c) * s;
    DivModUnique(y + c * s, s, y / s + c, y % s);
  }

  lemma Smallest()
    ensures BucketReqSize(0) == MIN_BLOCK
  {
    ReqSizeAt(0, 0);
    Literals();
  }

  /** The next bucket is one step larger. */
  lemma NextReqSize(k: nat)
    ensures BucketReqSize(k) < BucketReqSize(k + 1)
  {
    hide BucketReqSize, Pow2;
    var level, sub := k / SUBDIV, k % SUBDIV;
    assert k == level * SUBDIV + sub;
    ReqSizeAt(level, sub);
    Eighth(level + 5);
    if sub + 1 < SUBDIV {
      ReqSizeAt(level, sub + 1);
      assert (sub + 1) * Pow2(level + 2) == sub * Pow2(level + 2) + Pow2(level + 2);
    } else {
      ReqSizeAt(level + 1, 0);
      Eighth(level + 6);
      Eighth(level + 5);
      PowerOfSum(1, level + 2);
      Literals();
    }
  }

  lemma {:induction false} ReqSizeMonotone(j: nat, k: nat)
    requires j <= k
    ensures BucketReqSize(j) <= BucketReqSize(k)
  {
    hide BucketReqSize;
    if j < k {
      ReqSizeMonotone(j, k - 1);
      NextReqSize(k - 1);
    }
  }

  /** The class of a request is large enough, and the class before it would not be. */
  lemma IndexIsLeast(n: nat)
    requires 0 < n <= MAX_BLOCK
    ensures var i := BucketIndexFor(n);
            && 0 <= i <= LAST_BUCKET
            && n <= BucketReqSize(i)
            && (0 < i ==> BucketReqSize(i - 1) < n)
  {
    hide BucketReqSize, BucketIndexFor, BucketSizeFor, Eighths, HighestBit, Pow2;
    Smallest();
    if MIN_BLOCK <= n {
      LevelOf(n);
      LevelBounds(n);
      EighthsBounds(n);
      var hb, sub := HighestBit(n), Eighths(n);
      var i, step := (hb - 5) * SUBDIV + sub, Pow2(hb - 3);
      if 0 < sub {
        ReqSizeAt(hb - 5, sub - 1);
        assert (sub - 1) * step == sub * step - step;
      } else if 5 < hb {
        NextReqSize(i - 1);
        assert sub * step == 0;
      }
    } else {
      SmallIndex(n);
    }
  }

  lemma SmallIndex(n: nat)
    requires n < MIN_BLOCK
    ensures BucketIndexFor(n) == 0 && BucketSizeFor(n) == BucketSizeFor(MIN_BLOCK)
  {
  }

  /** A request fits into bucket `k` exactly when its own bucket is `k` or an earlier one. */
  lemma Adjunction(n: nat, k: nat)
    requires 0 < n <= MAX_BLOCK
    ensures BucketIndexFor(n) <= k <==> n <= BucketReqSize(k)
  {
    hide BucketReqSize, BucketIndexFor;
    IndexIsLeast(n);
    var i := BucketIndexFor(n);
    if i <= k {
      ReqSizeMonotone(i, k);
    } else {
      ReqSizeMonotone(k, i - 1);
    }
  }

  /** The two independently written size computations agree, and waste stays under an eighth. */
  lemma {:induction false} SizesAgree(n: nat)
    requires 0 < n <= MAX_BLOCK
    decreases MAX_BLOCK - n
    ensures var i := BucketIndexFor(n);
            && 0 <= i <= LAST_BUCKET
            && BucketSizeFor(n) == BucketReqSize(i)
            && (MIN_BLOCK <= n ==> 8 * (BucketReqSize(i) - n) < n)
  {
    hide BucketReqSize, BucketIndexFor, BucketSizeFor, Eighths, HighestBit, Pow2;
    IndexIsLeast(n);
    Smallest();
    if MIN_BLOCK <= n {
      LevelOf(n);
      LevelBounds(n);
      EighthsBounds(n);
    } else {
      SmallIndex(n);
      SizesAgree(MIN_BLOCK);
      Adjunction(MIN_BLOCK, 0);
    }
  }

  lemma LastSize()
    ensures BucketReqSize(LAST_BUCKET) == MAX_BLOCK
  {
    ReqSizeAt(15, 0);
    Literals();
  }

  /** Growing a bucket uses blocks of exactly the bucket's size, and the buckets above 1 MiB
      never grow. */
  lemma GrowSize(bucket: nat)
    requires bucket < BUCKETS
    ensures MIN_BLOCK <= BucketReqSize(bucket) <= MAX_BLOCK <==> bucket <= LAST_BUCKET
    ensures BucketSizeFor(BucketReqSize(bucket)) == if bucket <= LAST_BUCKET then BucketReqSize(bucket) else 0
  {
    hide BucketReqSize, BucketIndexFor;
    LastSize();
    Smallest();
    ReqSizeMonotone(0, bucket);
    if bucket <= LAST_BUCKET {
      hide BucketSizeFor;
      ReqSizeMonotone(bucket, LAST_BUCKET);
      SizesAgree(BucketReqSize(bucket));
      OwnIndex(bucket);
    } else {
      ReqSizeMonotone(LAST_BUCKET + 1, bucket);
      NextReqSize(LAST_BUCKET);
      ReqSizeMonotone(bucket, BUCKETS - 1);
      ReqSizeAt(15, 7);
      Literals();
    }
  }

  /** Asking for exactly a bucket's size leads back to the bucket. */
  lemma OwnIndex(bucket: nat)
    requires bucket <= LAST_BUCKET
    ensures BucketReqSize(bucket) <= MAX_BLOCK && BucketIndexFor(BucketReqSize(bucket)) == bucket
  {
    hide BucketReqSize, BucketIndexFor;
    LastSize();
    Smallest();
    ReqSizeMonotone(0, bucket);
    ReqSizeMonotone(bucket, LAST_BUCKET);
    var n := BucketReqSize(bucket);
    Adjunction(n, bucket);
    IndexIsLeast(n);
    if 0 < bucket {
      NextReqSize(bucket - 1);
      Adjunction(n, bucket - 1);
    }
  }

  // ----- alignment -----

  /** A class that serves requests of several alignments suits each of them. */
  lemma ClassKeepsAlignment(n: nat, k: nat)
    requires 0 < n <= MAX_BLOCK && n % Pow2(k) == 0
    ensures 0 <= BucketIndexFor(n) && BucketReqSize(BucketIndexFor(n)) % Pow2(k) == 0
  {
    hide BucketReqSize, BucketIndexFor, BucketSizeFor, Eighths, HighestBit, Pow2;
    IndexIsLeast(n);
    Smallest();
    Literals();
    if MIN_BLOCK <= n {
      LevelOf(n);
      LevelBounds(n);
      EighthsBounds(n);
      var hb, sub := HighestBit(n), Eighths(n);
      var step := Pow2(hb - 3);
      if hb - 3 <= k {
        FinerStep(n, k, hb, sub);
      } else {
        CoarserStep(k, hb, sub);
      }
    } else {
      SmallIndex(n);
      if 5 <= k {
        PowerMonotone(5, k);
        SmallRemainder(n, Pow2(k));
      } else {
        PowerDivides(k, 5);
      }
      assert BucketReqSize(BucketIndexFor(n)) == MIN_BLOCK;
    }
  }

  /** Steps no larger than the alignment: the request is a whole number of steps already. */
  lemma FinerStep(n: nat, k: nat, hb: nat, sub: nat)
    requires 3 <= hb <= k + 3 && n % Pow2(k) == 0
    requires Pow2(hb) == 8 * Pow2(hb - 3)
    requires n <= Pow2(hb) + sub * Pow2(hb - 3) < n + Pow2(hb - 3)
    ensures n == Pow2(hb) + sub * Pow2(hb - 3)
  {
    hide Pow2;
    var step := Pow2(hb - 3);
    PowerDivides(hb - 3, k);
    DividesTrans(n, Pow2(k), step);
    assert (8 + sub) * step == Pow2(hb) + sub * step;
    ExactMultiple(n, step, 8 + sub);
  }

  /** Steps that are multiples of the alignment: so is every size of the level. */
  lemma CoarserStep(k: nat, hb: nat, sub: nat)
    requires k + 3 < hb && Pow2(hb) == 8 * Pow2(hb - 3)
    ensures (Pow2(hb) + sub * Pow2(hb - 3)) % Pow2(k) == 0
  {
    hide Pow2;
    var step := Pow2(hb - 3);
    PowerDivides(k, hb - 3);
    var q := step / Pow2(k);
    var c := (8 + sub) * q;
    assert Pow2(hb) + sub * step == (8 + sub) * step;
    assert (8 + sub) * (q * Pow2(k)) == c * Pow2(k);
    DivModUnique(c * Pow2(k), Pow2(k), c, 0);
  }

  lemma PowerDivides(a: nat, b: nat)
    requires a <= b
    ensures Pow2(b) % Pow2(a) == 0 && Pow2(b) == (Pow2(b) / Pow2(a)) * Pow2(a)
  {
    hide Pow2;
    PowerOfSum(b - a, a);
    DivModUnique(Pow2(b), Pow2(a), Pow2(b - a), 0);
  }

  lemma DividesTrans(n: nat, a: nat, b: nat)
    requires 0 < a && 0 < b && n % a == 0 && a % b == 0
    ensures n % b == 0
  {
    var q, r := n / a, a / b;
    assert n == q * a && a == r * b;
    assert n == q * (r * b) == (q * r) * b;
    DivModUnique(n, b, q * r, 0);
  }

  /** A multiple of the step is its own rounding. */
  lemma ExactMultiple(n: nat, step: nat, c: nat)
    requires 0 < step && n % step == 0 && n <= c * step < n + step
    ensures n == c * step
  {
    MultipleCovers(n, step, n, c);
  }

}
