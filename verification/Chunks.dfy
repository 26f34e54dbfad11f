/** Cutting a row of units into overlapping chunks: the scanning loops against the closed form. */
module Chunks {
  import opened Bits
  import opened Options
  import opened RingIndex
  import opened SpaceScan
  import opened TextUnits

  const U32: nat := 0x1_0000_0000
  const NO_TOKEN: nat := 0xFFFF_FFFF

  datatype ChunkRange = ChunkRange(documentId: nat, chunkId: nat, groupId: nat,
                                   byteBegin: nat, byteEnd: nat, tokenBegin: nat, tokenEnd: nat)

  datatype Status = Ok | NoMemory

  ghost predicate ValidDesc(desc: Chunker) {
    desc.overlapUnits < desc.maxUnits < U32
  }

  function TextRange(desc: Chunker, chunkId: nat, begin: nat, end: nat): ChunkRange {
    ChunkRange(desc.documentId, chunkId, desc.groupId, begin, end, NO_TOKEN, NO_TOKEN)
  }

  function TokenRange(desc: Chunker, chunkId: nat, begin: nat, end: nat): ChunkRange {
    ChunkRange(desc.documentId, chunkId, desc.groupId, 0, 0, begin, end)
  }

  /** A range of bytes, field by field: it names no tokens. */
  ghost predicate IsTextRange(desc: Chunker, r: ChunkRange, chunkId: nat, begin: nat, end: nat) {
    && r.documentId == desc.documentId && r.groupId == desc.groupId && r.chunkId == chunkId
    && r.byteBegin == begin && r.byteEnd == end
    && r.tokenBegin == r.tokenEnd == 0xFFFF_FFFF
  }

  /** A range of tokens, field by field: it names no bytes. */
  ghost predicate IsTokenRange(desc: Chunker, r: ChunkRange, chunkId: nat, begin: nat, end: nat) {
    && r.documentId == desc.documentId && r.groupId == desc.groupId && r.chunkId == chunkId
    && r.byteBegin == r.byteEnd == 0
    && r.tokenBegin == begin && r.tokenEnd == end
  }

  // ----- how many chunks -----

  function Stride(desc: Chunker): nat
    requires ValidDesc(desc)
  {
    desc.maxUnits - desc.overlapUnits
  }

  /** The count as the code computes it, in 32-bit arithmetic. */
  function TokenChunkCountFast(desc: Chunker, count: nat): nat
    requires ValidDesc(desc)
  {
    if count == 0 then 0
    else if count <= desc.maxUnits then 1
    else
      var remaining := count - desc.maxUnits;
      (1 + ((remaining + Stride(desc) - 1) % U32) / Stride(desc)) % U32
  }

  /** Chunk `k` reaches the last of `n` units. */
  ghost predicate Reaches(desc: Chunker, n: nat, k: nat)
    requires ValidDesc(desc)
  {
    n <= k * Stride(desc) + desc.maxUnits
  }

  /** The count never wraps, and it is the least number of chunks that reaches the last unit. */
  lemma CountIsLeast(desc: Chunker, n: nat)
    requires ValidDesc(desc) && n < U32
    ensures TokenChunkCountFast(desc, n) == 0 <==> n == 0
    ensures n != 0 ==> Reaches(desc, n, TokenChunkCountFast(desc, n) - 1)
    ensures forall k: nat :: k + 1 < TokenChunkCountFast(desc, n) ==> !Reaches(desc, n, k)
  {
    hide TokenChunkCountFast, Stride, Ceil;
    CountIsCeil(desc, n);
    if desc.maxUnits < n {
      var stride, remaining := Stride(desc), n - desc.maxUnits;
      CeilBounds(remaining, stride);
      var c := Ceil(remaining, stride);
      forall k: nat | k + 1 < 1 + c ensures !Reaches(desc, n, k) {
        assert k * stride < remaining;
      }
    }
  }

  /** The count without its 32-bit cuts. */
  lemma CountIsCeil(desc: Chunker, n: nat)
    requires ValidDesc(desc) && n < U32
    ensures 0 < Stride(desc)
    ensures TokenChunkCountFast(desc, n)
         == if n == 0 then 0 else if n <= desc.maxUnits then 1
            else 1 + Ceil(n - desc.maxUnits, Stride(desc))
  {
    hide Ceil;
    if desc.maxUnits < n {
      var remaining, stride := n - desc.maxUnits, Stride(desc);
      CeilAtMost(remaining, stride);
      CeilIs(remaining, stride);
      Uncut(remaining + stride - 1);
      Uncut(1 + Ceil(remaining, stride));
    }
  }

  lemma CeilIs(x: nat, s: nat)
    requires 0 < s
    ensures (x + s - 1) / s == Ceil(x, s)
  {
  }

  lemma Uncut(x: nat)
    requires x < U32
    ensures x % U32 == x
  {
  }

  lemma CeilAtMost(x: nat, s: nat)
    requires 0 < s && 0 < x
    ensures 0 < Ceil(x, s) <= x
  {
    CeilBounds(x, s);
    assert x <= x * s;
  }

  /** Chunks are never empty, also when one starts in the overlap at the very end. */
  lemma ChunkStarts(desc: Chunker, n: nat, k: nat)
    requires ValidDesc(desc) && n < U32 && 0 < n
    requires k == 0 || !Reaches(desc, n, k - 1)
             || (desc.overlapUnits != 0 && n == (k - 1) * Stride(desc) + desc.maxUnits)
    ensures k * Stride(desc) < n
  {
    if k != 0 {
      assert k * Stride(desc) == (k - 1) * Stride(desc) + Stride(desc);
    }
  }

  // ----- token chunks -----

  ghost function TokenChunk(desc: Chunker, n: nat, k: nat): ChunkRange
    requires ValidDesc(desc)
  {
    TokenRange(desc, k, k * Stride(desc), Min(k * Stride(desc) + desc.maxUnits, n))
  }

  /** What the code writes for chunk `k`: its sums are cut to 32 bits. */
  ghost function WrittenToken(desc: Chunker, n: nat, k: nat): ChunkRange
    requires ValidDesc(desc)
  {
    var begin := k * Stride(desc);
    TokenRange(desc, k, begin, Min((begin + desc.maxUnits) % U32, n))
  }

  /** A written range is the right one exactly when its begin plus the chunk size fits 32 bits;
      otherwise it ends before it begins. */
  lemma TokenRangeExact(desc: Chunker, n: nat, k: nat)
    requires ValidDesc(desc) && n < U32 && k < TokenChunkCountFast(desc, n)
    ensures k * Stride(desc) < n
    ensures WrittenToken(desc, n, k) == TokenChunk(desc, n, k) <==> k * Stride(desc) + desc.maxUnits < U32
    ensures k * Stride(desc) + desc.maxUnits >= U32 ==>
              WrittenToken(desc, n, k).tokenEnd < WrittenToken(desc, n, k).tokenBegin
  {
    hide TokenChunkCountFast, Reaches, Stride;
    CountIsLeast(desc, n);
    ChunkStarts(desc, n, k);
    var begin := k * Stride(desc);
    EndWraps(begin, desc.maxUnits, n);
    hide Min;
    assert WrittenToken(desc, n, k) == TokenRange(desc, k, begin, Min((begin + desc.maxUnits) % U32, n));
    assert TokenChunk(desc, n, k) == TokenRange(desc, k, begin, Min(begin + desc.maxUnits, n));
  }

  lemma EndWraps(begin: nat, size: nat, n: nat)
    requires begin < n < U32 && size < U32
    ensures Min((begin + size) % U32, n) == Min(begin + size, n) <==> begin + size < U32
    ensures U32 <= begin + size ==> Min((begin + size) % U32, n) < begin
  {
  }

  ghost function WrittenTokens(desc: Chunker, n: nat, count: nat): (ranges: seq<ChunkRange>)
    requires ValidDesc(desc)
    ensures |ranges| == count && forall k: nat :: k < count ==> ranges[k] == WrittenToken(desc, n, k)
  {
    if count == 0 then [] else WrittenTokens(desc, n, count - 1) + [WrittenToken(desc, n, count - 1)]
  }

  /** The buffer with the ranges written over it, as far as it goes. */
  ghost predicate Filled(out: seq<ChunkRange>, was: seq<ChunkRange>, ranges: seq<ChunkRange>) {
    && |out| == |was|
    && (forall k :: 0 <= k < |out| ==> out[k] == if k < |ranges| then ranges[k] else was[k])
  }

  lemma FilledFurther(out: seq<ChunkRange>, was: seq<ChunkRange>, ranges: seq<ChunkRange>, x: ChunkRange)
    requires Filled(out, was, ranges)
    ensures |ranges| < |out| ==> Filled(out[|ranges| := x], was, ranges + [x])
    ensures |out| <= |ranges| ==> Filled(out, was, ranges + [x])
  {
  }

  method EmitTokenChunks(desc: Chunker, tokenCount: nat, out: array?<ChunkRange>)
      returns (status: Status, count: nat)
    requires ValidDesc(desc) && tokenCount < U32
    modifies if out == null then {} else {out}
    ensures count == TokenChunkCountFast(desc, tokenCount)
    ensures status == NoMemory <==> out != null && out.Length < count
    ensures out != null ==> Filled(out[..], old(out[..]), WrittenTokens(desc, tokenCount, count))
    ensures out != null ==> forall k: nat :: k < count && k < out.Length ==>
              IsTokenRange(desc, out[k], k, k * (desc.maxUnits - desc.overlapUnits),
                           Min((k * (desc.maxUnits - desc.overlapUnits) + desc.maxUnits) % U32, tokenCount))
  {
    hide Filled, TokenChunkCountFast, WrittenToken, WrittenTokens, WrappedBegin;
    count := TokenChunkCountFast(desc, tokenCount);
    var writable := if out == null then 0 else Min(out.Length, count);
    var stride := Stride(desc);
    var begin := 0;
    ghost var was := if out == null then [] else out[..];
    TokensStart(desc, tokenCount);
    NothingFilled(was);
    for chunkId := 0 to writable
      invariant begin == WrappedBegin(desc, chunkId)
      invariant out != null ==> Filled(out[..], was, WrittenTokens(desc, tokenCount, chunkId))
    {
      TokenStep(desc, tokenCount, chunkId);
      var end := (begin + desc.maxUnits) % U32;
      if tokenCount < end {
        end := tokenCount;
      }
      FilledFurther(out[..], was, WrittenTokens(desc, tokenCount, chunkId), TokenRange(desc, chunkId, begin, end));
      ghost var before := out[..];
      out[chunkId] := TokenRange(desc, chunkId, begin, end);
      assert out[..] == before[chunkId := TokenRange(desc, chunkId, begin, end)];
      begin := (begin + stride) % U32;
    }
    status := if out != null && out.Length < count then NoMemory else Ok;
    if out != null {
      TokensPrefix(desc, tokenCount, writable, count);
      AllFilled(out[..], was, WrittenTokens(desc, tokenCount, writable), WrittenTokens(desc, tokenCount, count));
      TokenFields(desc, tokenCount, out[..], was, count);
    }
  }

  lemma TokenFields(desc: Chunker, n: nat, out: seq<ChunkRange>, was: seq<ChunkRange>, count: nat)
    requires ValidDesc(desc) && Filled(out, was, WrittenTokens(desc, n, count))
    ensures forall k: nat :: k < count && k < |out| ==>
              IsTokenRange(desc, out[k], k, k * (desc.maxUnits - desc.overlapUnits),
                           Min((k * (desc.maxUnits - desc.overlapUnits) + desc.maxUnits) % U32, n))
  {
    forall k: nat | k < count && k < |out|
      ensures IsTokenRange(desc, out[k], k, k * (desc.maxUnits - desc.overlapUnits),
                           Min((k * (desc.maxUnits - desc.overlapUnits) + desc.maxUnits) % U32, n))
    {
      assert out[k] == WrittenToken(desc, n, k);
    }
  }

  /** The running begin, cut to 32 bits at every step. */
  ghost function WrappedBegin(desc: Chunker, k: nat): nat
    requires ValidDesc(desc)
  {
    (k * Stride(desc)) % U32
  }

  lemma TokensStart(desc: Chunker, n: nat)
    requires ValidDesc(desc)
    ensures WrappedBegin(desc, 0) == 0 && WrittenTokens(desc, n, 0) == []
  {
  }

  lemma TokensPrefix(desc: Chunker, n: nat, j: nat, k: nat)
    requires ValidDesc(desc) && j <= k
    ensures WrittenTokens(desc, n, j) <= WrittenTokens(desc, n, k)
  {
    hide WrittenToken;
  }

  /** One more chunk: its begin has not wrapped, its end may have. */
  lemma TokenStep(desc: Chunker, n: nat, k: nat)
    requires ValidDesc(desc) && n < U32 && k < TokenChunkCountFast(desc, n)
    ensures var begin := WrappedBegin(desc, k);
            && WrittenTokens(desc, n, k + 1) == WrittenTokens(desc, n, k)
                                               + [TokenRange(desc, k, begin, Min((begin + desc.maxUnits) % U32, n))]
            && WrappedBegin(desc, k + 1) == (begin + Stride(desc)) % U32
  {
    hide TokenChunkCountFast, WrittenTokens, WrappedBegin;
    TokenRangeExact(desc, n, k);
    TokensUnfolded(desc, n, k);
    BeginStep(desc, k);
    BeginFits(desc, k, n);
  }

  lemma TokensUnfolded(desc: Chunker, n: nat, k: nat)
    requires ValidDesc(desc)
    ensures WrittenTokens(desc, n, k + 1) == WrittenTokens(desc, n, k) + [WrittenToken(desc, n, k)]
  {
    hide WrittenToken;
  }

  lemma BeginStep(desc: Chunker, k: nat)
    requires ValidDesc(desc)
    ensures WrappedBegin(desc, k + 1) == (WrappedBegin(desc, k) + Stride(desc)) % U32
  {
    assert (k + 1) * Stride(desc) == k * Stride(desc) + Stride(desc);
    WrapLater(k * Stride(desc), Stride(desc));
  }

  lemma WrapLater(a: nat, b: nat)
    ensures (a + b) % U32 == (a % U32 + b) % U32
  {
  }

  lemma BeginFits(desc: Chunker, k: nat, n: nat)
    requires ValidDesc(desc) && k * Stride(desc) < n < U32
    ensures WrappedBegin(desc, k) == k * Stride(desc)
  {
  }

  lemma NothingFilled(was: seq<ChunkRange>)
    ensures Filled(was, was, [])
  {
  }

  /** What does not fit any more does not matter. */
  lemma AllFilled(out: seq<ChunkRange>, was: seq<ChunkRange>, some: seq<ChunkRange>, all: seq<ChunkRange>)
    requires Filled(out, was, some) && some <= all && (|some| == |all| || |out| <= |some|)
    ensures Filled(out, was, all)
  {
  }

  // ----- text chunks -----

  /** Chunk `k` spans the units from `k * stride` on, up to the chunk size or the last unit. */
  ghost function TextChunk(desc: Chunker, units: seq<Unit>, k: nat): ChunkRange
    requires ValidDesc(desc)
  {
    var first := k * Stride(desc);
    if |units| <= first then TextRange(desc, k, 0, 0)
    else TextRange(desc, k, units[first].begin, units[Min(first + desc.maxUnits, |units|) - 1].end)
  }

  /** The first `count` chunks of the closed form. */
  ghost function TextChunks(desc: Chunker, units: seq<Unit>, count: nat): (ranges: seq<ChunkRange>)
    requires ValidDesc(desc)
    ensures |ranges| == count && forall k: nat :: k < count ==> ranges[k] == TextChunk(desc, units, k)
  {
    if count == 0 then [] else TextChunks(desc, units, count - 1) + [TextChunk(desc, units, count - 1)]
  }

  /** Words with overlap, a last chunk that ends exactly with the last word, and white space
      after it: then one more chunk repeats the words of the overlap. */
  ghost predicate Redundant(desc: Chunker, text: seq<Byte>)
    requires ValidDesc(desc)
  {
    var n := |Units(desc, text, 0)|;
    && desc.mode.Word? && HasTail(desc, text) && desc.overlapUnits != 0
    && desc.maxUnits <= n && (n - desc.maxUnits) % Stride(desc) == 0
  }

  ghost function Emitted(desc: Chunker, text: seq<Byte>): nat
    requires ValidDesc(desc)
  {
    TokenChunkCountFast(desc, |Units(desc, text, 0)|) + if Redundant(desc, text) then 1 else 0
  }

  /** Sentences with overlap and something left after the last one: the loop never ends. */
  ghost predicate Endless(desc: Chunker, text: seq<Byte>) {
    desc.mode.Sentence? && desc.overlapUnits != 0 && HasTail(desc, text)
  }

  lemma {:induction false} FewUnits(desc: Chunker, text: seq<Byte>, pos: nat)
    requires pos <= |text|
    ensures |Units(desc, text, pos)| <= |text| - pos
    decreases |text| - pos
  {
    hide NextUnit;
    if NextUnit(desc, text, pos).Some? {
      FewUnits(desc, text, NextUnit(desc, text, pos).value.end);
    }
  }

  /** The chunk that reaches the last unit first is the last of the count. */
  lemma CountAt(desc: Chunker, n: nat, k: nat)
    requires ValidDesc(desc) && 0 < n < U32
    requires Reaches(desc, n, k) && (k == 0 || !Reaches(desc, n, k - 1))
    ensures TokenChunkCountFast(desc, n) == k + 1
  {
    hide TokenChunkCountFast;
    CountIsLeast(desc, n);
    var c := TokenChunkCountFast(desc, n) - 1;
    if c < k {
      ReachesOn(desc, n, c, k - 1);
    }
  }

  lemma ReachesOn(desc: Chunker, n: nat, j: nat, k: nat)
    requires ValidDesc(desc) && Reaches(desc, n, j) && j <= k
    ensures Reaches(desc, n, k)
  {
    if j < k {
      MulGap(j, k, Stride(desc));
    }
  }

  /** When the last chunk of the count ends exactly with the last unit. */
  lemma ExactFit(desc: Chunker, n: nat, k: nat)
    requires ValidDesc(desc) && Reaches(desc, n, k) && (k == 0 || !Reaches(desc, n, k - 1))
    ensures n == k * Stride(desc) + desc.maxUnits
       <==> desc.maxUnits <= n && (n - desc.maxUnits) % Stride(desc) == 0
  {
    var stride := Stride(desc);
    if n == k * stride + desc.maxUnits {
      DivModUnique(n - desc.maxUnits, stride, k, 0);
    } else if desc.maxUnits <= n && (n - desc.maxUnits) % stride == 0 {
      var q := (n - desc.maxUnits) / stride;
      assert n - desc.maxUnits == q * stride;
      assert k * stride - stride == (k - 1) * stride;
      if q < k - 1 {
        MulGap(q, k - 1, stride);
      } else if k <= q {
        if k < q {
          MulGap(k, q, stride);
        }
      }
    }
  }

  /** The state of the loop between chunks: either chunk `k` is still to come, or all are out. */
  ghost predicate Pending(desc: Chunker, text: seq<Byte>, pos: nat, k: nat)
    requires ValidDesc(desc) && pos <= |text|
  {
    var units := Units(desc, text, 0);
    && k * Stride(desc) < |units| && Units(desc, text, pos) == units[k * Stride(desc)..]
    && (k == 0 || !Reaches(desc, |units|, k - 1)
        || (Redundant(desc, text) && |units| == (k - 1) * Stride(desc) + desc.maxUnits
            && k == TokenChunkCountFast(desc, |units|)))
  }

  ghost predicate Finished(desc: Chunker, text: seq<Byte>, pos: nat, k: nat)
    requires ValidDesc(desc) && pos <= |text|
  {
    Units(desc, text, pos) == [] && k == Emitted(desc, text)
  }

  /** How many units chunk `k` takes. */
  ghost function Taken(desc: Chunker, n: nat, i: nat): nat
    requires i <= n
  {
    Min(desc.maxUnits, n - i)
  }

  /** Where the scan stands after a chunk: after words that ran out, at the end of the text. */
  ghost function ScanAfter(desc: Chunker, text: seq<Byte>, i: nat): nat
    requires ValidDesc(desc) && i < |Units(desc, text, 0)|
  {
    var units := Units(desc, text, 0);
    var c := Taken(desc, |units|, i);
    if c < desc.maxUnits && desc.mode.Word? then |text| else units[i + c - 1].end
  }

  /** Where the overlap with the next chunk begins, if the chunk got that far. */
  ghost function OverlapBegin(desc: Chunker, text: seq<Byte>, i: nat): nat
    requires ValidDesc(desc) && i < |Units(desc, text, 0)|
  {
    var units := Units(desc, text, 0);
    if desc.overlapUnits != 0 && Stride(desc) < Taken(desc, |units|, i)
    then units[i + Stride(desc)].begin else units[i].begin
  }

  ghost function NextPos(desc: Chunker, text: seq<Byte>, i: nat): nat
    requires ValidDesc(desc) && i < |Units(desc, text, 0)|
  {
    if desc.overlapUnits != 0 then OverlapBegin(desc, text, i) else ScanAfter(desc, text, i)
  }

  lemma LastEnds(desc: Chunker, text: seq<Byte>, j: nat)
    requires j < |Units(desc, text, 0)|
    ensures Units(desc, text, 0)[j].begin < Units(desc, text, 0)[j].end <= |text|
    ensures j + 1 < |Units(desc, text, 0)| ==> Units(desc, text, 0)[j].end < |text|
    ensures j + 1 == |Units(desc, text, 0)| ==> (Units(desc, text, 0)[j].end < |text| <==> HasTail(desc, text))
  {
    hide Units;
    UnitsFrom(desc, text, 0, j);
    if j + 1 < |Units(desc, text, 0)| {
      UnitsOrdered(desc, text, j, j + 1);
      UnitsFrom(desc, text, 0, j + 1);
    }
  }

  lemma StrideIs(desc: Chunker)
    requires ValidDesc(desc)
    ensures Stride(desc) == desc.maxUnits - desc.overlapUnits
  {
  }

  /** A chunk that does not reach the last unit is followed by another one. */
  lemma MoreToCome(desc: Chunker, text: seq<Byte>, pos: nat, k: nat)
    requires ValidDesc(desc) && |text| < U32 && pos <= |text| && Pending(desc, text, pos, k)
    requires !Reaches(desc, |Units(desc, text, 0)|, k)
    ensures ScanAfter(desc, text, k * Stride(desc)) < |text|
    ensures Units(desc, text, 0)[k * Stride(desc)].begin < NextPos(desc, text, k * Stride(desc)) <= |text|
    ensures Pending(desc, text, NextPos(desc, text, k * Stride(desc)), k + 1)
  {
    hide Units, Redundant, TokenChunkCountFast, Stride, HasTail, NextUnit, ScanAfter, NextPos;
    StrideIs(desc);
    var i, stride := k * Stride(desc), Stride(desc);
    assert (k + 1) * stride == i + stride;
    FullChunk(desc, text, i);
    UnitsFrom(desc, text, 0, i + stride);
    UnitsOrdered(desc, text, i, i + stride);
    if desc.overlapUnits == 0 {
      UnitsFrom(desc, text, 0, i + desc.maxUnits - 1);
    }
  }

  /** Where a chunk that is full and not the last leads to. */
  lemma FullChunk(desc: Chunker, text: seq<Byte>, i: nat)
    requires ValidDesc(desc) && i + desc.maxUnits < |Units(desc, text, 0)|
    ensures var units := Units(desc, text, 0);
            && ScanAfter(desc, text, i) == units[i + desc.maxUnits - 1].end < |text|
            && units[i].begin < units[i + desc.maxUnits - 1].end
            && NextPos(desc, text, i) == if desc.overlapUnits != 0 then units[i + Stride(desc)].begin
                                         else units[i + desc.maxUnits - 1].end
  {
    hide Units, HasTail, NextUnit;
    LastEnds(desc, text, i);
    LastEnds(desc, text, i + desc.maxUnits - 1);
    if 1 < desc.maxUnits {
      UnitsOrdered(desc, text, i, i + desc.maxUnits - 1);
    }
  }

  /** A chunk that reaches the last unit is the last one, unless it is followed by a repetition
      of its overlap. */
  ghost predicate Repeats(desc: Chunker, text: seq<Byte>, n: nat, i: nat) {
    desc.mode.Word? && HasTail(desc, text) && desc.overlapUnits != 0 && n == i + desc.maxUnits
  }

  lemma EmittedAt(desc: Chunker, text: seq<Byte>, pos: nat, k: nat)
    requires ValidDesc(desc) && |text| < U32 && pos <= |text| && Pending(desc, text, pos, k)
    requires Reaches(desc, |Units(desc, text, 0)|, k)
    ensures var repeats := Repeats(desc, text, |Units(desc, text, 0)|, k * Stride(desc));
            && Emitted(desc, text) == k + 1 + (if repeats then 1 else 0)
            && (repeats ==> Redundant(desc, text) && k + 1 == TokenChunkCountFast(desc, |Units(desc, text, 0)|))
  {
    hide Units, TokenChunkCountFast, HasTail;
    var n := |Units(desc, text, 0)|;
    FewUnits(desc, text, 0);
    if k == 0 || !Reaches(desc, n, k - 1) {
      CountAt(desc, n, k);
      ExactFit(desc, n, k);
    } else {
      assert k * Stride(desc) == (k - 1) * Stride(desc) + Stride(desc);
    }
  }

  /** After a chunk that reaches the last unit the loop ends, finds nothing more, or repeats. */
  lemma AllOut(desc: Chunker, text: seq<Byte>, pos: nat, k: nat)
    requires ValidDesc(desc) && |text| < U32 && pos <= |text| && Pending(desc, text, pos, k)
    requires Reaches(desc, |Units(desc, text, 0)|, k) && !Endless(desc, text)
    ensures k * Stride(desc) < |Units(desc, text, 0)|
    ensures |text| <= ScanAfter(desc, text, k * Stride(desc)) ==> k + 1 == Emitted(desc, text)
    ensures ScanAfter(desc, text, k * Stride(desc)) < |text| ==>
              && Units(desc, text, 0)[k * Stride(desc)].begin < NextPos(desc, text, k * Stride(desc)) <= |text|
              && (Pending(desc, text, NextPos(desc, text, k * Stride(desc)), k + 1)
                  || Finished(desc, text, NextPos(desc, text, k * Stride(desc)), k + 1))
  {
    hide Units, TokenChunkCountFast, Redundant, HasTail, Finished, Emitted;
    EmittedAt(desc, text, pos, k);
    var i := k * Stride(desc);
    var n := |Units(desc, text, 0)|;
    TailMeaning(desc, text);
    LastEnds(desc, text, n - 1);
    UnitsFrom(desc, text, 0, i);
    assert i + Taken(desc, n, i) == n;
    if Repeats(desc, text, n, i) {
      RepeatComes(desc, text, k);
    } else if ScanAfter(desc, text, i) < |text| {
      NothingComes(desc, text, k);
    }
  }

  lemma RepeatComes(desc: Chunker, text: seq<Byte>, k: nat)
    requires ValidDesc(desc) && k * Stride(desc) < |Units(desc, text, 0)|
    requires Repeats(desc, text, |Units(desc, text, 0)|, k * Stride(desc))
    requires Redundant(desc, text) && k + 1 == TokenChunkCountFast(desc, |Units(desc, text, 0)|)
    ensures Units(desc, text, 0)[k * Stride(desc)].begin < NextPos(desc, text, k * Stride(desc)) <= |text|
    ensures Pending(desc, text, NextPos(desc, text, k * Stride(desc)), k + 1)
  {
    hide Units, TokenChunkCountFast, Redundant, HasTail;
    var i := k * Stride(desc);
    assert (k + 1) * Stride(desc) == i + Stride(desc);
    UnitsFrom(desc, text, 0, i);
    UnitsFrom(desc, text, 0, i + Stride(desc));
    UnitsOrdered(desc, text, i, i + Stride(desc));
  }

  lemma NothingComes(desc: Chunker, text: seq<Byte>, k: nat)
    requires ValidDesc(desc) && k * Stride(desc) < |Units(desc, text, 0)|
    requires Reaches(desc, |Units(desc, text, 0)|, k) && desc.overlapUnits == 0
    requires k + 1 == Emitted(desc, text) && ScanAfter(desc, text, k * Stride(desc)) < |text|
    ensures Units(desc, text, 0)[k * Stride(desc)].begin < NextPos(desc, text, k * Stride(desc)) <= |text|
    ensures Finished(desc, text, NextPos(desc, text, k * Stride(desc)), k + 1)
  {
    hide Units, TokenChunkCountFast, Redundant, HasTail, Emitted;
    var i, n := k * Stride(desc), |Units(desc, text, 0)|;
    UnitsFrom(desc, text, 0, n - 1);
    UnitsFrom(desc, text, 0, i);
    if i < n - 1 {
      UnitsOrdered(desc, text, i, n - 1);
    }
  }

  /** Takes up to `maxUnits` units from the first on, and notes where the overlap begins. The
      loops for words and for the other units differ in one point: after words that ran out the
      scan stays at the end of the text, otherwise it goes back behind the last unit. */
  method Gather(desc: Chunker, text: seq<Byte>, first: Unit, ghost i: nat)
      returns (scan: nat, chunkEnd: nat, overlapBegin: nat)
    requires ValidDesc(desc) && i < |Units(desc, text, 0)| && first == Units(desc, text, 0)[i]
    ensures var units := Units(desc, text, 0);
            && chunkEnd == units[i + Taken(desc, |units|, i) - 1].end
            && scan == ScanAfter(desc, text, i)
            && overlapBegin == OverlapBegin(desc, text, i)
  {
    hide Units, NextUnit;
    ghost var all := Units(desc, text, 0);
    UnitsFrom(desc, text, 0, i);
    scan, chunkEnd, overlapBegin := first.end, first.end, first.begin;
    var units := 1;
    while units < desc.maxUnits
      invariant 1 <= units <= desc.maxUnits && i + units <= |all|
      invariant scan == chunkEnd == all[i + units - 1].end <= |text|
      invariant Units(desc, text, scan) == all[i + units..]
      invariant overlapBegin == if desc.overlapUnits != 0 && Stride(desc) < units
                                then all[i + Stride(desc)].begin else first.begin
    {
      var before := scan;
      var found, next, unit := FindNextUnit(desc, text, scan);
      NextIsFirst(desc, text, scan);
      scan := next;
      if !found {
        if !desc.mode.Word? {
          scan := before;
        }
        break;
      }
      UnitsFrom(desc, text, 0, i + units);
      if desc.overlapUnits != 0 && (units + desc.overlapUnits) % U32 == desc.maxUnits {
        overlapBegin := unit.begin;
      }
      chunkEnd := unit.end;
      units := units + 1;
    }
  }

  lemma NextIsFirst(desc: Chunker, text: seq<Byte>, pos: nat)
    requires pos <= |text|
    ensures NextUnit(desc, text, pos)
         == if Units(desc, text, pos) == [] then None else Some(Units(desc, text, pos)[0])
  {
    hide NextUnit;
  }

  /** All ranges a text is answered with. */
  ghost function AnswerFor(desc: Chunker, text: seq<Byte>): seq<ChunkRange>
    requires ValidDesc(desc)
  {
    if desc.mode.Whole? then (if text != [] || desc.keepEmpty then [TextRange(desc, 0, 0, |text|)] else [])
    else TextChunks(desc, Units(desc, text, 0), Emitted(desc, text))
  }

  /** The count is the same for every buffer, and each range is the closed form's. */
  method EmitTextChunks(desc: Chunker, text: seq<Byte>, out: array?<ChunkRange>)
      returns (status: Status, count: nat)
    requires ValidDesc(desc) && |text| < U32 && !desc.mode.Token? && !Endless(desc, text)
    modifies if out == null then {} else {out}
    ensures count == |AnswerFor(desc, text)|
    ensures status == NoMemory <==> out != null && out.Length < count
    ensures out != null ==> Filled(out[..], old(out[..]), AnswerFor(desc, text))
    ensures desc.mode.Whole? ==> count == if text != [] || desc.keepEmpty then 1 else 0
    ensures out != null ==>
              forall k: nat :: k < count && k < out.Length ==> IsAnswer(desc, text, out[k], k)
  {
    hide Units, Pending, Finished, Redundant, TokenChunkCountFast, NextUnit, Filled, ScanAfter, NextPos,
      OverlapBegin, Endless, Taken, Reaches, Round, FirstChunk, Onward, TextChunks, Emitted;
    count := 0;
    ghost var was := if out == null then [] else out[..];
    NothingFilled(was);
    if desc.mode.Whole? {
      if text != [] || desc.keepEmpty {
        count := 1;
        FilledFurther(was, was, [], TextRange(desc, 0, 0, |text|));
        assert [] + [TextRange(desc, 0, 0, |text|)] == AnswerFor(desc, text);
        if out != null && out.Length != 0 {
          out[0] := TextRange(desc, 0, 0, |text|);
          assert out[..] == was[0 := TextRange(desc, 0, 0, |text|)];
        }
      }
    } else {
      ghost var units := Units(desc, text, 0);
      var pos, stop := 0, false;
      AtStart(desc, text);
      while pos < |text| && !stop
        invariant pos <= |text|
        invariant stop ==> count == Emitted(desc, text)
        invariant !stop ==> Pending(desc, text, pos, count) || Finished(desc, text, pos, count)
        invariant out != null ==> Filled(out[..], was, TextChunks(desc, units, count))
        decreases |text| - pos, !stop
      {
        LoopStep(desc, text, pos, count);
        ghost var before := if out == null then [] else out[..];
        if out != null && Units(desc, text, pos) != [] {
          FilledFurther(before, was, TextChunks(desc, units, count), FirstChunk(desc, text, pos, count));
        }
        stop, pos, count := NextChunk(desc, text, pos, count, out);
      }
      if !stop {
        Where(desc, text, pos, count);
      }
    }
    status := if out != null && out.Length < count then NoMemory else Ok;
    if out != null {
      AnswerFields(desc, text, out[..], was);
    }
  }

  /** A range of the answer, field by field: the whole text, or from the first of the chunk's units to
      the last, which is never empty. */
  ghost predicate IsAnswer(desc: Chunker, text: seq<Byte>, r: ChunkRange, k: nat)
    requires ValidDesc(desc)
  {
    if desc.mode.Whole? then IsTextRange(desc, r, k, 0, |text|) && k == 0
    else
      var units := Units(desc, text, 0);
      var first := k * (desc.maxUnits - desc.overlapUnits);
      && first < |units|
      && IsTextRange(desc, r, k, units[first].begin, units[Min(first + desc.maxUnits, |units|) - 1].end)
      && r.byteBegin < r.byteEnd <= |text|
  }

  lemma AnswerFields(desc: Chunker, text: seq<Byte>, out: seq<ChunkRange>, was: seq<ChunkRange>)
    requires ValidDesc(desc) && |text| < U32 && Filled(out, was, AnswerFor(desc, text))
    ensures forall k: nat :: k < |AnswerFor(desc, text)| && k < |out| ==> IsAnswer(desc, text, out[k], k)
  {
    hide Units, Emitted, IsAnswer;
    forall k: nat | k < |AnswerFor(desc, text)| && k < |out| ensures IsAnswer(desc, text, out[k], k) {
      AnswerIs(desc, text, k);
    }
  }

  /** What the `k`-th range of the answer says. */
  lemma AnswerIs(desc: Chunker, text: seq<Byte>, k: nat)
    requires ValidDesc(desc) && |text| < U32 && k < |AnswerFor(desc, text)|
    ensures IsAnswer(desc, text, AnswerFor(desc, text)[k], k)
  {
    hide Units, Emitted, TextChunks;
    if !desc.mode.Whole? {
      var units := Units(desc, text, 0);
      EmittedStarts(desc, text, k);
      SpanOrdered(desc, text, k * Stride(desc));
      assert AnswerFor(desc, text)[k] == TextChunk(desc, units, k);
    }
  }

  /** From the first unit of a chunk to its last is a stretch of the text that is not empty. */
  lemma SpanOrdered(desc: Chunker, text: seq<Byte>, first: nat)
    requires ValidDesc(desc) && first < |Units(desc, text, 0)|
    ensures var units := Units(desc, text, 0);
            units[first].begin < units[Min(first + desc.maxUnits, |units|) - 1].end <= |text|
  {
    hide Units, HasTail;
    var last := Min(first + desc.maxUnits, |Units(desc, text, 0)|) - 1;
    LastEnds(desc, text, first);
    LastEnds(desc, text, last);
    if first < last {
      UnitsOrdered(desc, text, first, last);
    }
  }

  /** Every chunk that is emitted has a first unit, the redundant one too. */
  lemma EmittedStarts(desc: Chunker, text: seq<Byte>, k: nat)
    requires ValidDesc(desc) && |text| < U32 && k < Emitted(desc, text)
    ensures k * Stride(desc) < |Units(desc, text, 0)|
  {
    hide Units, TokenChunkCountFast, HasTail, Reaches;
    var n := |Units(desc, text, 0)|;
    FewUnits(desc, text, 0);
    CountIsLeast(desc, n);
    var count := TokenChunkCountFast(desc, n);
    if k == count {
      ExactFit(desc, n, k - 1);
    }
    ChunkStarts(desc, n, k);
  }

  /** One round of the loop, on any text: it writes the chunk from `start` on and goes where
      `Round` says. */
  method NextChunk(desc: Chunker, text: seq<Byte>, start: nat, done: nat, out: array?<ChunkRange>)
      returns (stop: bool, pos: nat, count: nat)
    requires ValidDesc(desc) && |text| < U32 && start < |text| && Onward(desc, text, start)
    modifies if out == null then {} else {out}
    ensures start <= pos <= |text| && Onward(desc, text, pos)
    ensures Round(desc, text, start) == if stop then None else Some(pos)
    ensures count == if Units(desc, text, start) == [] then done else done + 1
    ensures out != null ==>
              out[..] == if Units(desc, text, start) != [] && done < out.Length
                         then old(out[..])[done := FirstChunk(desc, text, start, done)] else old(out[..])
    ensures out != null && Units(desc, text, start) != [] && done < out.Length ==>
              var units := Units(desc, text, start);
              IsTextRange(desc, out[done], done, units[0].begin, units[Min(desc.maxUnits, |units|) - 1].end)
  {
    hide Units, NextUnit, ScanAfter, NextPos, OverlapBegin, Round, FirstChunk, Taken, Onward;
    stop, pos, count := true, start, done;
    var found, scan, first := FindNextUnit(desc, text, pos);
    NextIsFirst(desc, text, pos);
    if !found {
      NoRound(desc, text, pos);
      return;
    }
    ghost var i := OnwardAt(desc, text, pos);
    RoundIs(desc, text, pos, i, count);
    var chunkEnd, overlapBegin;
    scan, chunkEnd, overlapBegin := Gather(desc, text, first, i);
    if out != null && count < out.Length {
      out[count] := TextRange(desc, count, first.begin, chunkEnd);
      FirstChunkFields(desc, text, start, done);
    }
    count := count + 1;
    if scan < |text| {
      stop := false;
      PosIs(desc, text, i);
      pos := if desc.overlapUnits != 0 then overlapBegin else scan;
    }
  }

  /** The loop for a given number of rounds, on any text: where it stands, and whether it has
      ended. In the endless case it has not, however many rounds there were. */
  method EmitRounds(desc: Chunker, text: seq<Byte>, rounds: nat, out: array?<ChunkRange>)
      returns (stop: bool, pos: nat, count: nat)
    requires ValidDesc(desc) && |text| < U32
    modifies if out == null then {} else {out}
    ensures After(desc, text, rounds) == if stop then None else Some(pos)
    ensures Endless(desc, text) ==> !stop && count == rounds
  {
    hide Units, Round, Onward, Endless, Suffix, After;
    stop, pos, count := false, 0, 0;
    BeforeRounds(desc, text);
    for m := 0 to rounds
      invariant pos <= |text| && Onward(desc, text, pos)
      invariant After(desc, text, m) == if stop then None else Some(pos)
      invariant Endless(desc, text) ==> !stop && count == m
    {
      RoundAfter(desc, text, m);
      if Endless(desc, text) {
        EndlessNeverEnds(desc, text, m);
        SuffixGoesOn(desc, text, pos);
        EndlessNeverEnds(desc, text, m + 1);
      }
      if pos < |text| && !stop {
        stop, pos, count := NextChunk(desc, text, pos, count, out);
      } else {
        NoRoundAtEnd(desc, text);
        stop := true;
      }
    }
  }

  lemma BeforeRounds(desc: Chunker, text: seq<Byte>)
    requires ValidDesc(desc)
    ensures After(desc, text, 0) == Some(0) && Onward(desc, text, 0)
  {
    hide Units;
    assert Units(desc, text, 0)[0..] == Units(desc, text, 0);
  }

  lemma RoundAfter(desc: Chunker, text: seq<Byte>, m: nat)
    requires ValidDesc(desc)
    ensures var before := After(desc, text, m);
            After(desc, text, m + 1) == if before.None? then None else Round(desc, text, before.value)
  {
  }

  lemma SuffixGoesOn(desc: Chunker, text: seq<Byte>, pos: nat)
    requires Suffix(desc, text, pos)
    ensures pos < |text| && Units(desc, text, pos) != []
  {
    hide NextUnit;
    NextIsFirst(desc, text, pos);
  }

  lemma NoRoundAtEnd(desc: Chunker, text: seq<Byte>)
    requires ValidDesc(desc)
    ensures Round(desc, text, |text|) == None
  {
  }

  lemma NoRound(desc: Chunker, text: seq<Byte>, pos: nat)
    requires ValidDesc(desc) && pos <= |text| && Units(desc, text, pos) == []
    ensures Round(desc, text, pos) == None
  {
  }

  /** One round of the loop as a step on its position: none if the loop ends there. */
  ghost function Round(desc: Chunker, text: seq<Byte>, pos: nat): (next: Option<nat>)
    requires ValidDesc(desc) && pos <= |text|
    ensures next.Some? ==> next.value <= |text|
  {
    hide Units;
    var units := Units(desc, text, pos);
    if pos == |text| || units == [] then None else
    var c := Min(desc.maxUnits, |units|);
    var scan := if c < desc.maxUnits && desc.mode.Word? then |text| else units[c - 1].end;
    if |text| <= scan then None
    else if desc.overlapUnits == 0 then Some(scan)
    else
      var next := units[if Stride(desc) < c then Stride(desc) else 0];
      Some(next.begin)
  }

  /** The range of the chunk that begins with the first unit from `pos` on. */
  ghost function FirstChunk(desc: Chunker, text: seq<Byte>, pos: nat, k: nat): ChunkRange
    requires ValidDesc(desc) && pos <= |text| && Units(desc, text, pos) != []
  {
    var units := Units(desc, text, pos);
    TextRange(desc, k, units[0].begin, units[Min(desc.maxUnits, |units|) - 1].end)
  }

  lemma FirstChunkFields(desc: Chunker, text: seq<Byte>, pos: nat, k: nat)
    requires ValidDesc(desc) && pos <= |text| && Units(desc, text, pos) != []
    ensures var units := Units(desc, text, pos);
            IsTextRange(desc, FirstChunk(desc, text, pos, k), k, units[0].begin,
                        units[Min(desc.maxUnits, |units|) - 1].end)
  {
    hide Units;
  }

  /** The units from a position on are the last ones of the text. */
  ghost predicate Onward(desc: Chunker, text: seq<Byte>, pos: nat) {
    pos <= |text|
    && exists i: nat :: i <= |Units(desc, text, 0)| && Units(desc, text, pos) == Units(desc, text, 0)[i..]
  }

  lemma OnwardAt(desc: Chunker, text: seq<Byte>, pos: nat) returns (i: nat)
    requires Onward(desc, text, pos) && Units(desc, text, pos) != []
    ensures i < |Units(desc, text, 0)| && Units(desc, text, pos) == Units(desc, text, 0)[i..]
    ensures pos < |text|
  {
    hide NextUnit, Units;
    i :| i <= |Units(desc, text, 0)| && Units(desc, text, pos) == Units(desc, text, 0)[i..];
    NextIsFirst(desc, text, pos);
  }

  lemma IsOnward(desc: Chunker, text: seq<Byte>, pos: nat, i: nat)
    requires pos <= |text| && i <= |Units(desc, text, 0)| && Units(desc, text, pos) == Units(desc, text, 0)[i..]
    ensures Onward(desc, text, pos)
  {
    hide Units;
  }

  /** A round from unit `i` on, in terms of all units of the text. */
  lemma RoundIs(desc: Chunker, text: seq<Byte>, pos: nat, i: nat, k: nat)
    requires ValidDesc(desc) && pos < |text| && i < |Units(desc, text, 0)|
    requires Units(desc, text, pos) == Units(desc, text, 0)[i..]
    ensures var units := Units(desc, text, 0);
            && FirstChunk(desc, text, pos, k)
               == TextRange(desc, k, units[i].begin, units[i + Taken(desc, |units|, i) - 1].end)
            && Round(desc, text, pos)
               == (if |text| <= ScanAfter(desc, text, i) then None else Some(NextPos(desc, text, i)))
            && pos <= NextPos(desc, text, i)
            && (ScanAfter(desc, text, i) < |text| ==> Onward(desc, text, NextPos(desc, text, i)))
  {
    hide Units, Onward, Stride, NextPos, ScanAfter, Round;
    RoundGoes(desc, text, pos, i);
    NextSteps(desc, text, pos, i);
    if ScanAfter(desc, text, i) < |text| {
      NextOnward(desc, text, i);
    }
  }

  lemma RoundGoes(desc: Chunker, text: seq<Byte>, pos: nat, i: nat)
    requires ValidDesc(desc) && pos < |text| && i < |Units(desc, text, 0)|
    requires Units(desc, text, pos) == Units(desc, text, 0)[i..]
    ensures Round(desc, text, pos)
         == if |text| <= ScanAfter(desc, text, i) then None else Some(NextPos(desc, text, i))
  {
    hide Units, Stride;
  }

  lemma NextOnward(desc: Chunker, text: seq<Byte>, i: nat)
    requires ValidDesc(desc) && i < |Units(desc, text, 0)| && ScanAfter(desc, text, i) < |text|
    ensures Onward(desc, text, NextPos(desc, text, i))
  {
    hide Units, Onward, Stride;
    var units := Units(desc, text, 0);
    var c := Taken(desc, |units|, i);
    if desc.overlapUnits == 0 {
      UnitsFrom(desc, text, 0, i + c - 1);
      IsOnward(desc, text, units[i + c - 1].end, i + c);
    } else {
      var next := if Stride(desc) < c then i + Stride(desc) else i;
      UnitsFrom(desc, text, 0, next);
      IsOnward(desc, text, units[next].begin, next);
    }
  }

  lemma NextSteps(desc: Chunker, text: seq<Byte>, pos: nat, i: nat)
    requires ValidDesc(desc) && pos < |text| && i < |Units(desc, text, 0)|
    requires Units(desc, text, pos) == Units(desc, text, 0)[i..]
    ensures pos <= NextPos(desc, text, i)
  {
    hide Units, Stride;
    var units, us := Units(desc, text, 0), Units(desc, text, pos);
    var c := Taken(desc, |units|, i);
    assert us[c - 1] in us && us[0] in us;
    assert Stride(desc) < c ==> us[Stride(desc)] in us;
  }

  /** What one round does to the state of the loop. */
  lemma LoopStep(desc: Chunker, text: seq<Byte>, pos: nat, k: nat)
    requires ValidDesc(desc) && |text| < U32 && pos < |text| && !Endless(desc, text)
    requires Pending(desc, text, pos, k) || Finished(desc, text, pos, k)
    ensures Onward(desc, text, pos)
    ensures Units(desc, text, pos) == [] ==> k == Emitted(desc, text) && Round(desc, text, pos) == None
    ensures Units(desc, text, pos) != [] ==>
              var units := Units(desc, text, 0);
              && TextChunks(desc, units, k + 1) == TextChunks(desc, units, k) + [FirstChunk(desc, text, pos, k)]
              && (Round(desc, text, pos).None? ==> k + 1 == Emitted(desc, text))
              && (Round(desc, text, pos).Some? ==>
                    var next := Round(desc, text, pos).value;
                    pos < next && (Pending(desc, text, next, k + 1) || Finished(desc, text, next, k + 1)))
  {
    hide Units, NextUnit, ScanAfter, NextPos, Round, FirstChunk, TextChunks, Endless, Emitted, Onward, Taken;
    NextIsFirst(desc, text, pos);
    Where(desc, text, pos, k);
    WhereOnward(desc, text, pos, k);
    if Units(desc, text, pos) == [] {
      NoRound(desc, text, pos);
    } else {
      var i := RoundFacts(desc, text, pos, k);
      RoundIs(desc, text, pos, i, k);
    }
  }

  lemma WhereOnward(desc: Chunker, text: seq<Byte>, pos: nat, k: nat)
    requires ValidDesc(desc) && pos <= |text|
    requires Pending(desc, text, pos, k) || Finished(desc, text, pos, k)
    ensures Onward(desc, text, pos)
  {
    hide Units, Redundant, TokenChunkCountFast, Reaches;
    var units := Units(desc, text, 0);
    if Units(desc, text, pos) == [] {
      assert units[|units|..] == [];
      IsOnward(desc, text, pos, |units|);
    } else {
      IsOnward(desc, text, pos, k * Stride(desc));
    }
  }

  /** All that a round that emits chunk `k` needs: its first unit is unit `i`. */
  lemma RoundFacts(desc: Chunker, text: seq<Byte>, pos: nat, k: nat) returns (i: nat)
    requires ValidDesc(desc) && |text| < U32 && pos <= |text| && NextUnit(desc, text, pos).Some?
    requires !Endless(desc, text)
    requires Pending(desc, text, pos, k) || Finished(desc, text, pos, k)
    ensures var units := Units(desc, text, 0);
            && i < |units| && NextUnit(desc, text, pos).value == units[i] && pos <= units[i].begin
            && Units(desc, text, pos) == units[i..]
            && TextChunks(desc, units, k + 1)
               == TextChunks(desc, units, k)
                  + [TextRange(desc, k, units[i].begin, units[i + Taken(desc, |units|, i) - 1].end)]
            && (|text| <= ScanAfter(desc, text, i) ==> k + 1 == Emitted(desc, text))
            && (ScanAfter(desc, text, i) < |text| ==>
                  && units[i].begin < NextPos(desc, text, i) <= |text|
                  && (Pending(desc, text, NextPos(desc, text, i), k + 1)
                      || Finished(desc, text, NextPos(desc, text, i), k + 1)))
  {
    hide Units, Pending, Finished, Redundant, NextUnit, ScanAfter, NextPos, Endless, Reaches, Emitted;
    Where(desc, text, pos, k);
    RoundsOn(desc, text, pos, k);
    PendingUnits(desc, text, pos, k);
    i := k * Stride(desc);
  }

  lemma PendingUnits(desc: Chunker, text: seq<Byte>, pos: nat, k: nat)
    requires ValidDesc(desc) && pos <= |text| && Pending(desc, text, pos, k)
    ensures k * Stride(desc) < |Units(desc, text, 0)|
    ensures Units(desc, text, pos) == Units(desc, text, 0)[k * Stride(desc)..]
  {
    hide Units, Redundant, TokenChunkCountFast, Reaches;
  }

  lemma PosIs(desc: Chunker, text: seq<Byte>, i: nat)
    requires ValidDesc(desc) && i < |Units(desc, text, 0)|
    ensures NextPos(desc, text, i)
         == if desc.overlapUnits != 0 then OverlapBegin(desc, text, i) else ScanAfter(desc, text, i)
  {
  }

  /** The round that emits chunk `k`, whether it reaches the last unit or not. */
  lemma RoundsOn(desc: Chunker, text: seq<Byte>, pos: nat, k: nat)
    requires ValidDesc(desc) && |text| < U32 && pos <= |text| && Pending(desc, text, pos, k)
    requires !Endless(desc, text)
    ensures k * Stride(desc) < |Units(desc, text, 0)|
    ensures |text| <= ScanAfter(desc, text, k * Stride(desc)) ==> k + 1 == Emitted(desc, text)
    ensures ScanAfter(desc, text, k * Stride(desc)) < |text| ==>
              && Units(desc, text, 0)[k * Stride(desc)].begin < NextPos(desc, text, k * Stride(desc)) <= |text|
              && (Pending(desc, text, NextPos(desc, text, k * Stride(desc)), k + 1)
                  || Finished(desc, text, NextPos(desc, text, k * Stride(desc)), k + 1))
  {
    hide Units, Redundant, Finished, ScanAfter, NextPos, Endless, Reaches;
    if Reaches(desc, |Units(desc, text, 0)|, k) {
      AllOut(desc, text, pos, k);
    } else {
      MoreToCome(desc, text, pos, k);
    }
  }

  lemma AtStart(desc: Chunker, text: seq<Byte>)
    requires ValidDesc(desc)
    ensures Pending(desc, text, 0, 0) || Finished(desc, text, 0, 0)
  {
    hide NextUnit;
  }

  /** What the first look of an iteration finds. */
  lemma Where(desc: Chunker, text: seq<Byte>, pos: nat, k: nat)
    requires ValidDesc(desc) && pos <= |text|
    requires Pending(desc, text, pos, k) || Finished(desc, text, pos, k)
    ensures NextUnit(desc, text, pos).None? ==> k == Emitted(desc, text)
    ensures NextUnit(desc, text, pos).Some? ==>
              && Pending(desc, text, pos, k)
              && k * Stride(desc) < |Units(desc, text, 0)|
              && NextUnit(desc, text, pos).value == Units(desc, text, 0)[k * Stride(desc)]
              && pos <= NextUnit(desc, text, pos).value.begin
    ensures pos == |text| ==> NextUnit(desc, text, pos).None?
  {
    hide NextUnit, Units, Redundant, TokenChunkCountFast, Reaches;
    NextIsFirst(desc, text, pos);
    var units := Units(desc, text, 0);
    assert Pending(desc, text, pos, k) ==> units[k * Stride(desc)..] != [];
  }

  // ----- what the closed form means -----

  /** The chunks of the count cover every unit, each starts `stride` units after the one before,
      and neighbours share exactly the overlap, or what is left of it at the end. */
  lemma ChunksCover(desc: Chunker, n: nat, j: nat) returns (k: nat)
    requires ValidDesc(desc) && j < n < U32
    ensures k < TokenChunkCountFast(desc, n)
    ensures k * Stride(desc) <= j < Min(k * Stride(desc) + desc.maxUnits, n)
  {
    hide TokenChunkCountFast, Stride;
    CountIsLeast(desc, n);
    StrideBounds(desc);
    k := QuotientUpTo(j, Stride(desc), TokenChunkCountFast(desc, n) - 1);
  }

  lemma StrideBounds(desc: Chunker)
    requires ValidDesc(desc)
    ensures 0 < Stride(desc) <= desc.maxUnits
  {
  }

  /** The step that `j` falls into, or the last one if that comes before. */
  lemma QuotientUpTo(j: nat, d: nat, last: nat) returns (k: nat)
    requires 0 < d
    ensures k <= last && k * d <= j && (j < k * d + d || k == last)
  {
    k := if j / d <= last then j / d else last;
    Quotient(j, d);
    if last < j / d {
      MulGap(last, j / d, d);
    }
  }

  lemma Quotient(j: nat, d: nat)
    requires 0 < d
    ensures (j / d) * d <= j < (j / d) * d + d
  {
  }

  lemma NeighboursShare(desc: Chunker, n: nat, k: nat)
    requires ValidDesc(desc) && n < U32 && k + 1 < TokenChunkCountFast(desc, n)
    ensures Min(k * Stride(desc) + desc.maxUnits, n) - (k + 1) * Stride(desc) == desc.overlapUnits
  {
    hide TokenChunkCountFast;
    CountIsLeast(desc, n);
    assert !Reaches(desc, n, k);
    assert (k + 1) * Stride(desc) == k * Stride(desc) + Stride(desc);
  }

  /** The text loop gives the same ranges for every mode as the closed form over its units: the
      plain count, and one more exactly for words with overlap and trailing white space whose
      last full chunk ends with the last word. */
  lemma CountForWords(desc: Chunker, text: seq<Byte>)
    requires ValidDesc(desc) && |text| < U32
    ensures desc.mode.Char? ==> Emitted(desc, text) == TokenChunkCountFast(desc, |Units(desc, text, 0)|)
    ensures desc.mode.Word? ==>
              var n := |Units(desc, text, 0)|;
              (Emitted(desc, text) != TokenChunkCountFast(desc, n)
               <==> text != [] && IsSpace(text[|text| - 1]) && desc.overlapUnits != 0
                    && desc.maxUnits <= n && (n - desc.maxUnits) % Stride(desc) == 0)
  {
    hide TokenChunkCountFast, Units;
    TailMeaning(desc, text);
    FewUnits(desc, text, 0);
  }

  // ----- where the loop does not end -----

  /** The position after `m` rounds. */
  ghost function After(desc: Chunker, text: seq<Byte>, m: nat): (pos: Option<nat>)
    requires ValidDesc(desc)
    ensures pos.Some? ==> pos.value <= |text|
  {
    if m == 0 then Some(0)
    else
      var before := After(desc, text, m - 1);
      if before.None? then None else Round(desc, text, before.value)
  }

  /** Sentences with overlap and something after the last of them: whatever the number of
      rounds, there is another one. */
  lemma {:induction false} EndlessNeverEnds(desc: Chunker, text: seq<Byte>, m: nat)
    requires ValidDesc(desc) && Endless(desc, text)
    ensures After(desc, text, m).Some?
    ensures Suffix(desc, text, After(desc, text, m).value)
  {
    hide Units, Round, Suffix;
    if m == 0 {
      WholeSuffix(desc, text);
    } else {
      EndlessNeverEnds(desc, text, m - 1);
      EndlessRound(desc, text, After(desc, text, m - 1).value);
    }
  }

  /** The units from a position on are the last ones of the text, at least one. */
  ghost predicate Suffix(desc: Chunker, text: seq<Byte>, pos: nat) {
    pos <= |text|
    && exists i: nat :: i < |Units(desc, text, 0)| && Units(desc, text, pos) == Units(desc, text, 0)[i..]
  }

  lemma WholeSuffix(desc: Chunker, text: seq<Byte>)
    requires HasTail(desc, text)
    ensures Suffix(desc, text, 0)
  {
    hide Units;
    assert Units(desc, text, 0)[0..] == Units(desc, text, 0);
  }

  lemma EndlessRound(desc: Chunker, text: seq<Byte>, pos: nat)
    requires ValidDesc(desc) && Endless(desc, text) && Suffix(desc, text, pos)
    ensures Round(desc, text, pos).Some? && Suffix(desc, text, Round(desc, text, pos).value)
  {
    hide Units, NextUnit, HasTail, Round;
    var all := Units(desc, text, 0);
    var i: nat :| i < |all| && Units(desc, text, pos) == all[i..];
    NextIsFirst(desc, text, pos);
    SuffixRound(desc, text, pos, i);
  }

  lemma SuffixRound(desc: Chunker, text: seq<Byte>, pos: nat, i: nat)
    requires ValidDesc(desc) && Endless(desc, text) && pos < |text|
    requires i < |Units(desc, text, 0)| && Units(desc, text, pos) == Units(desc, text, 0)[i..]
    ensures Round(desc, text, pos).Some? && Suffix(desc, text, Round(desc, text, pos).value)
  {
    hide Units, HasTail;
    var all := Units(desc, text, 0);
    var c := Min(desc.maxUnits, |all| - i);
    var next := if Stride(desc) < c then i + Stride(desc) else i;
    hide Stride;
    LastEnds(desc, text, i + c - 1);
    UnitsFrom(desc, text, 0, next);
    assert Round(desc, text, pos) == Some(all[next].begin);
  }

  // ----- concrete inputs -----

  function Plain(mode: Mode, maxUnits: nat, overlapUnits: nat): Chunker {
    Chunker(mode, maxUnits, overlapUnits, [], false, 0, 0)
  }

  const WORDS_TEXT: seq<Byte> := ['a' as nat, ' ' as nat, 'b' as nat, ' ' as nat]
  const SENTENCE_TEXT: seq<Byte> := ['H' as nat, 'i' as nat, '.' as nat, ' ' as nat]

  /** "a b " in chunks of two words with an overlap of one: one chunk holds both words, and a
      second one repeats the last. */
  lemma RedundantExample()
    ensures var desc := Plain(Word, 2, 1);
            && Redundant(desc, WORDS_TEXT)
            && AnswerFor(desc, WORDS_TEXT) == [ChunkRange(0, 0, 0, 0, 3, 0xFFFF_FFFF, 0xFFFF_FFFF),
                                            ChunkRange(0, 1, 0, 2, 3, 0xFFFF_FFFF, 0xFFFF_FFFF)]
  {
    var desc, text := Plain(Word, 2, 1), WORDS_TEXT;
    SkipSpaceIs(text, 0, 0);
    WordEndIs(text, 0, 1);
    SkipSpaceIs(text, 1, 2);
    WordEndIs(text, 2, 3);
    SkipSpaceIs(text, 3, 4);
    assert Units(desc, text, 3) == [];
    assert Units(desc, text, 1) == [Unit(2, 3)];
    assert Units(desc, text, 0) == [Unit(0, 1), Unit(2, 3)];
    var units := Units(desc, text, 0);
    assert TextChunks(desc, units, 1) == [TextRange(desc, 0, 0, 3)];
    assert TextChunks(desc, units, 2) == [TextRange(desc, 0, 0, 3), TextRange(desc, 1, 2, 3)];
  }

  /** "Hi. " in chunks of two sentences with an overlap of one: every number of rounds leaves
      another one, always at the start of the text. */
  lemma EndlessExample(m: nat)
    ensures var desc := Plain(Sentence, 2, 1);
            Endless(desc, SENTENCE_TEXT) && After(desc, SENTENCE_TEXT, m) == Some(0)
  {
    var desc, text := Plain(Sentence, 2, 1), SENTENCE_TEXT;
    SentenceExampleUnits();
    hide Units;
    if m != 0 {
      EndlessExample(m - 1);
    }
  }

  lemma SentenceExampleUnits()
    ensures Units(Plain(Sentence, 2, 1), SENTENCE_TEXT, 0) == [Unit(0, 3)]
  {
    var desc, text := Plain(Sentence, 2, 1), SENTENCE_TEXT;
    SkipSpaceIs(text, 0, 0);
    SkipSpaceIs(text, 3, 4);
    Utf8StepMeaning(text, 0);
    Utf8StepMeaning(text, 1);
    Utf8StepMeaning(text, 2);
    assert SentenceEnd(desc, text, 2) == 3;
    assert SentenceEnd(desc, text, 1) == 3;
    assert SentenceEnd(desc, text, 0) == 3;
    assert Units(desc, text, 3) == [];
  }

  /** The largest token count in chunks of 2^31 with an overlap of 2: the end of the third range
      wraps around and comes before its begin. */
  lemma WrappedTokenExample()
    ensures var desc := Plain(Token, 0x8000_0000, 2);
            && ValidDesc(desc) && TokenChunkCountFast(desc, 0xFFFF_FFFF) == 3
            && WrittenToken(desc, 0xFFFF_FFFF, 2) == ChunkRange(0, 2, 0, 0, 0, 0xFFFF_FFFC, 0x7FFF_FFFC)
            && TokenChunk(desc, 0xFFFF_FFFF, 2) == ChunkRange(0, 2, 0, 0, 0, 0xFFFF_FFFC, 0xFFFF_FFFF)
  {
  }
}
