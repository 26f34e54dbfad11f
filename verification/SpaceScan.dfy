/** The eight-bytes-at-a-time search for a byte that may be white space.

    A word is loaded little-endian; subtracting 0x21 from every byte at once sets the high bit
    of the bytes below 0x21, and a borrow can spoil a byte only above the first of those. The
    proof follows the bytes of a word of any length; the code uses eight.
 */
module SpaceScan {
  import opened RingIndex

  type Byte = b: nat | b < 256

  const SPACE: Byte := 0x20
  const WORD_BYTES: nat := 8

  predicate CanBeSpace(c: Byte) {
    c <= SPACE
  }

  predicate IsSpace(c: Byte) {
    c == 0x20 || c == 0x0A || c == 0x0D || c == 0x09 || c == 0x0C || c == 0x0B
  }

  /** White space is tab to carriage return, and blank; no other byte under 0x21 counts. */
  lemma WhiteSpaceMeaning(c: Byte)
    ensures IsSpace(c) <==> 0x09 <= c <= 0x0D || c == 0x20
    ensures IsSpace(c) ==> CanBeSpace(c)
  {
  }

  // ----- words of n bytes -----

  /** The bytes as a little-endian load puts them: the first in the lowest place. */
  function Load(b: seq<Byte>): nat {
    if b == [] then 0 else b[0] + 256 * Load(b[1..])
  }

  /** The number of words of `n` bytes, 2^(8n). */
  function Words(n: nat): (w: nat)
    ensures 0 < w
  {
    if n == 0 then 1 else 256 * Words(n - 1)
  }

  /** The word with the same byte everywhere. */
  function Repeat(c: Byte, n: nat): (w: nat)
    ensures w < Words(n)
  {
    if n == 0 then 0 else c + 256 * Repeat(c, n - 1)
  }

  /** Unsigned subtraction with wrap-around. */
  function Minus(a: nat, c: nat, n: nat): int {
    if c <= a then a - c else a - c + Words(n)
  }

  /** Bitwise complement. */
  function Not(a: nat, n: nat): int {
    Words(n) - 1 - a
  }

  function CandidateMask(word: nat, n: nat): nat
    requires word < Words(n)
  {
    BitAnd(BitAnd(Minus(word, Repeat(0x21, n), n), Not(word, n)), Repeat(0x80, n))
  }

  /** The number of zero bits below the lowest one bit. */
  function TrailingZeros(mask: nat): nat
    requires 0 < mask
  {
    if mask % 2 == 1 then 0 else 1 + TrailingZeros(mask / 2)
  }

  /** The constants of the code. */
  lemma Constants()
    ensures Words(8) == 0x1_0000_0000_0000_0000
    ensures Repeat(0x21, 8) == 0x2121_2121_2121_2121 && Repeat(0x80, 8) == 0x8080_8080_8080_8080
  {
    assert Words(4) == 0x1_0000_0000;
    assert Repeat(0x21, 4) == 0x2121_2121;
    assert Repeat(0x80, 4) == 0x8080_8080;
    assert Words(6) == 0x1_0000_0000_0000;
    assert Repeat(0x21, 6) == 0x2121_2121_2121;
    assert Repeat(0x80, 6) == 0x8080_8080_8080;
  }

  lemma {:induction false} LoadFits(b: seq<Byte>)
    ensures Load(b) < Words(|b|)
  {
    if b != [] {
      LoadFits(b[1..]);
    }
  }

  // ----- bitwise and, part by part -----

  /** Bits above and below a boundary do not meet. */
  lemma {:induction false} AndSplit(a0: nat, a1: nat, c0: nat, c1: nat, k: nat)
    requires a0 < Pow2(k) && c0 < Pow2(k)
    ensures BitAnd(a0 + Pow2(k) * a1, c0 + Pow2(k) * c1) == BitAnd(a0, c0) + Pow2(k) * BitAnd(a1, c1)
    decreases k
  {
    hide BitAnd;
    if k == 0 {
      AndZero(0, 0);
    } else {
      var p := Pow2(k - 1);
      AndSplit(a0 / 2, a1, c0 / 2, c1, k - 1);
      var pa, pc, r := p * a1, p * c1, p * BitAnd(a1, c1);
      Doubled(p, a1);
      Doubled(p, c1);
      Doubled(p, BitAnd(a1, c1));
      AndHalves(a0 + 2 * pa, c0 + 2 * pc);
      AndHalves(a0, c0);
      HalfOf(a0, pa);
      HalfOf(c0, pc);
    }
  }

  lemma Doubled(p: nat, a: nat)
    ensures (2 * p) * a == 2 * (p * a)
  {
  }

  lemma HalfOf(a: nat, b: nat)
    ensures (a + 2 * b) / 2 == a / 2 + b && (a + 2 * b) % 2 == a % 2
  {
  }

  lemma AndHalves(a: nat, c: nat)
    ensures BitAnd(a, c) == (a % 2) * (c % 2) + 2 * BitAnd(a / 2, c / 2)
  {
    if a == 0 || c == 0 {
      AndZero(a / 2, c / 2);
    }
  }

  lemma AndZero(a: nat, c: nat)
    ensures a == 0 || c == 0 ==> BitAnd(a, c) == 0
  {
  }

  lemma {:induction false} AndAtMost(a: nat, c: nat)
    ensures BitAnd(a, c) <= a
    decreases a
  {
    if a != 0 && c != 0 {
      AndAtMost(a / 2, c / 2);
    }
  }

  /** Only the top bits of two bytes survive the mask 0x80. */
  lemma TopBits(x: Byte, y: Byte)
    ensures BitAnd(BitAnd(x, y), 0x80) == if 0x80 <= x && 0x80 <= y then 0x80 else 0
  {
    hide BitAnd, Pow2;
    EightBits(0);
    OneBit(x / 128, y / 128);
    var low := BitAnd(x % 128, y % 128);
    AndSplit(x % 128, x / 128, y % 128, y / 128, 7);
    AndAtMost(x % 128, y % 128);
    AndSplit(low, BitAnd(x / 128, y / 128), 0, 1, 7);
    AndZero(low, 0);
  }

  lemma OneBit(a: nat, c: nat)
    requires a < 2 && c < 2
    ensures BitAnd(a, c) == a * c && BitAnd(BitAnd(a, c), 1) == a * c
  {
  }

  lemma EightBits(n: nat)
    ensures Pow2(7) == 128 && Pow2(8) == 256
    ensures Repeat(0x80, n + 1) == 0x80 + 256 * Repeat(0x80, n)
  {
  }

  /** The flags of a word, from those of its lowest byte and of the rest. */
  lemma MaskSplit(x: Byte, x': nat, y: Byte, y': nat, n: nat)
    ensures BitAnd(BitAnd(x + 256 * x', y + 256 * y'), Repeat(0x80, n + 1))
         == (if 0x80 <= x && 0x80 <= y then 0x80 else 0) + 256 * BitAnd(BitAnd(x', y'), Repeat(0x80, n))
  {
    hide BitAnd, Pow2, Repeat;
    EightBits(n);
    AndSplit(x, x', y, y', 8);
    AndAtMost(x, y);
    AndSplit(BitAnd(x, y), BitAnd(x', y'), 0x80, Repeat(0x80, n), 8);
    TopBits(x, y);
  }

  // ----- the mask finds the first candidate -----

  /** A first byte that can be a space is flagged; otherwise nothing is borrowed, and the rest
      of the mask is the mask of the rest. */
  lemma MaskStep(b: seq<Byte>)
    requires b != []
    ensures Load(b) < Words(|b|) && Load(b[1..]) < Words(|b| - 1)
    ensures CanBeSpace(b[0]) ==> CandidateMask(Load(b), |b|) % 256 == 0x80
    ensures !CanBeSpace(b[0]) ==>
              CandidateMask(Load(b), |b|) == 256 * CandidateMask(Load(b[1..]), |b| - 1)
  {
    hide BitAnd, Load, Words, Repeat, Minus, Not;
    LoadFits(b);
    LoadFits(b[1..]);
    LoadUnfolded(b);
    var n := |b| - 1;
    var rest, limit := Load(b[1..]), Repeat(0x21, n);
    RepeatUnfolded(n);
    NotStep(b[0], rest, n);
    if CanBeSpace(b[0]) {
      var high := MinusBorrow(b[0], rest, limit, n);
      MaskSplit(b[0] + (256 - 0x21), high, 255 - b[0], Not(rest, n), n);
    } else {
      MinusStep(b[0], rest, limit, n);
      MaskSplit(b[0] - 0x21, Minus(rest, limit, n), 255 - b[0], Not(rest, n), n);
    }
  }

  lemma RepeatUnfolded(n: nat)
    ensures Repeat(0x21, n + 1) == 0x21 + 256 * Repeat(0x21, n)
  {
  }

  lemma NotStep(b: Byte, rest: nat, n: nat)
    requires rest < Words(n)
    ensures 0 <= Not(rest, n) && Not(b + 256 * rest, n + 1) == (255 - b) + 256 * Not(rest, n)
  {
  }

  /** A byte of at least 0x21 borrows nothing from the bytes above. */
  lemma MinusStep(b: Byte, rest: nat, limit: nat, n: nat)
    requires rest < Words(n) && limit < Words(n) && 0x21 <= b
    ensures 0 <= Minus(rest, limit, n)
    ensures Minus(b + 256 * rest, 0x21 + 256 * limit, n + 1) == (b - 0x21) + 256 * Minus(rest, limit, n)
  {
  }

  /** A lower byte borrows, and gets its high bit. */
  lemma MinusBorrow(b: Byte, rest: nat, limit: nat, n: nat) returns (high: nat)
    requires rest < Words(n) && limit < Words(n) && b < 0x21
    ensures Minus(b + 256 * rest, 0x21 + 256 * limit, n + 1) == (b + (256 - 0x21)) + 256 * high
  {
    high := if limit + 1 <= rest then rest - limit - 1 else rest - limit - 1 + Words(n);
  }

  lemma LoadUnfolded(b: seq<Byte>)
    requires b != []
    ensures Load(b) == b[0] + 256 * Load(b[1..])
  {
  }

  lemma ZerosOfByte(m: nat)
    requires 0 < m
    ensures m % 256 == 0x80 ==> TrailingZeros(m) == 7
    ensures m % 256 == 0 ==> TrailingZeros(m) == 8 + TrailingZeros(m / 256)
  {
    hide TrailingZeros;
    var m4 := m / 16;
    assert m % 16 == 0 ==> TrailingZeros(m) == 4 + TrailingZeros(m4) by {
      FourZeros(m);
    }
    assert m % 256 == 0 ==> TrailingZeros(m4) == 4 + TrailingZeros(m4 / 16) by {
      if m % 256 == 0 {
        FourZeros(m4);
      }
    }
    assert m % 256 == 0x80 ==> TrailingZeros(m4) == 3 by {
      if m % 256 == 0x80 {
        ThreeZeros(m4);
      }
    }
  }

  lemma ThreeZeros(m: nat)
    requires 0 < m
    ensures m % 16 == 8 ==> TrailingZeros(m) == 3
  {
    if m % 16 == 8 {
      var q := m / 16;
      ZerosOf(m, 8 * q + 4);
      ZerosOf(8 * q + 4, 4 * q + 2);
      ZerosOf(4 * q + 2, 2 * q + 1);
    }
  }

  lemma ZerosOf(m: nat, half: nat)
    requires 0 < half && m == 2 * half
    ensures TrailingZeros(m) == 1 + TrailingZeros(half)
  {
  }

  lemma FourZeros(m: nat)
    requires 0 < m
    ensures m % 16 == 0 ==> TrailingZeros(m) == 4 + TrailingZeros(m / 16)
  {
  }

  /** The index of the first byte that can be a space, or the number of bytes. */
  ghost function FirstIn(b: seq<Byte>): (k: nat)
    ensures k <= |b|
  {
    if b == [] || CanBeSpace(b[0]) then 0 else 1 + FirstIn(b[1..])
  }

  lemma {:induction false} FirstInMeaning(b: seq<Byte>)
    ensures forall i :: 0 <= i < FirstIn(b) ==> !CanBeSpace(b[i])
    ensures FirstIn(b) < |b| ==> CanBeSpace(b[FirstIn(b)])
  {
    if b != [] && !CanBeSpace(b[0]) {
      FirstInMeaning(b[1..]);
      assert forall i :: 0 < i < |b| ==> b[i] == b[1..][i - 1];
    }
  }

  /** The lowest flag of the mask is the first byte that can be a space, whatever borrows do
      to the flags above it. */
  lemma {:induction false} LowestFlag(b: seq<Byte>)
    ensures Load(b) < Words(|b|)
    ensures CandidateMask(Load(b), |b|) == 0 <==> FirstIn(b) == |b|
    ensures CandidateMask(Load(b), |b|) != 0 ==> TrailingZeros(CandidateMask(Load(b), |b|)) / 8 == FirstIn(b)
    decreases |b|
  {
    hide CandidateMask, Load, TrailingZeros, CanBeSpace, Words;
    LoadFits(b);
    if b == [] {
      EmptyMask();
    } else {
      MaskStep(b);
      LowestFlag(b[1..]);
      if CandidateMask(Load(b), |b|) != 0 {
        ZerosOfByte(CandidateMask(Load(b), |b|));
      }
    }
  }

  lemma EmptyMask()
    ensures Load([]) < Words(0) && CandidateMask(Load([]), 0) == 0
  {
    AndZero(BitAnd(Minus(0, 0, 0), Not(0, 0)), 0);
  }

  // ----- the search -----

  /** The first index from `pos` on whose byte can be a space, or the length. */
  ghost function FirstCandidate(text: seq<Byte>, pos: nat): (r: nat)
    requires pos <= |text|
    ensures pos <= r <= |text| && (r < |text| ==> CanBeSpace(text[r]))
    ensures forall i :: pos <= i < r ==> !CanBeSpace(text[i])
    decreases |text| - pos
  {
    if pos == |text| || CanBeSpace(text[pos]) then pos else FirstCandidate(text, pos + 1)
  }

  lemma {:induction false} CandidateIs(text: seq<Byte>, pos: nat, r: nat)
    requires pos <= r <= |text| && (r < |text| ==> CanBeSpace(text[r]))
    requires forall i :: pos <= i < r ==> !CanBeSpace(text[i])
    ensures FirstCandidate(text, pos) == r
    decreases r - pos
  {
    if pos < r {
      CandidateIs(text, pos + 1, r);
    }
  }

  /** Words first, then the last few bytes one by one: the same as looking at every byte. */
  method FindAsciiSpaceCandidate(text: seq<Byte>, start: nat) returns (pos: nat)
    requires start <= |text|
    ensures pos == FirstCandidate(text, start)
  {
    hide CandidateMask, Load, TrailingZeros, CanBeSpace, Words, FirstCandidate, FirstIn;
    pos := start;
    while pos + WORD_BYTES <= |text|
      invariant start <= pos <= |text|
      invariant forall i :: start <= i < pos ==> !CanBeSpace(text[i])
    {
      var bytes := text[pos..pos + WORD_BYTES];
      LowestFlag(bytes);
      FirstInMeaning(bytes);
      assert forall i :: pos <= i < pos + WORD_BYTES ==> text[i] == bytes[i - pos];
      var mask := CandidateMask(Load(bytes), WORD_BYTES);
      if mask != 0 {
        pos := pos + TrailingZeros(mask) / 8;
        CandidateIs(text, start, pos);
        return;
      }
      pos := pos + WORD_BYTES;
    }
    while pos < |text| && !CanBeSpace(text[pos])
      invariant start <= pos <= |text|
      invariant forall i :: start <= i < pos ==> !CanBeSpace(text[i])
    {
      pos := pos + 1;
    }
    CandidateIs(text, start, pos);
  }
}
