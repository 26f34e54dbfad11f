/** The blocks of the arena heap and the free lists they move between, as a transition system
    whose steps are the sections the code runs under one bucket lock or on one thread's cache.

    Owner 0 stands for the shared free lists, owner `t + 1` for the cache of thread `t`. A block
    in no list is out: handed to a caller, or in the hands of the thread that is moving it.
 */
module ArenaState {
  import opened RingIndex
  import opened SizeClass

  const SHARED: nat := 0
  const LOCAL_REFILL: nat := 32
  const LOCAL_MAX: nat := 64
  const LOCAL_FLUSH: nat := 32
  const FIRST_GROW: nat := 32
  const GROW_LIMIT: nat := 1024

  datatype Place = Out | In(owner: nat)

  datatype Block = Block(bucket: nat, place: Place)

  /** A stretch of the arena that a thread has reserved for a bucket and not yet linked in. */
  datatype Chunk = NoChunk | Chunk(start: nat, count: nat)

  /** `lists[o][b]` is the free list of owner `o` for bucket `b`, head first. A bucket with a
      chunk under way is locked. */
  datatype State = State(base: nat, size: nat, used: nat, committed: nat, vmBacked: bool,
                         grow: seq<nat>, growing: seq<Chunk>,
                         lists: seq<seq<seq<nat>>>, blocks: map<nat, Block>)

  // ----- the invariant -----

  ghost predicate NoDuplicates(l: seq<nat>) {
    forall i, j :: 0 <= i < j < |l| ==> l[i] != l[j]
  }

  /** A list holds exactly the blocks whose place it is. */
  ghost predicate Fits(l: seq<nat>, o: nat, b: nat, blocks: map<nat, Block>) {
    && NoDuplicates(l)
    && (forall a :: a in l <==> a in blocks && blocks[a] == Block(b, In(o)))
  }

  ghost predicate Conserved(lists: seq<seq<seq<nat>>>, blocks: map<nat, Block>) {
    && 0 < |lists|
    && (forall o :: 0 <= o < |lists| ==> |lists[o]| == BUCKETS)
    && (forall o, b :: 0 <= o < |lists| && 0 <= b < BUCKETS ==> Fits(lists[o][b], o, b, blocks))
    && (forall a :: a in blocks && blocks[a].place.In? ==>
          blocks[a].place.owner < |lists| && blocks[a].bucket < BUCKETS)
  }

  /** Fit for every alignment up to `maxAlign` that divides the block size. */
  ghost predicate Aligned(a: nat, b: nat, maxAlign: nat) {
    forall k: nat :: Pow2(k) <= maxAlign && BucketReqSize(b) % Pow2(k) == 0 ==> a % Pow2(k) == 0
  }

  ghost predicate Placed(a: nat, b: nat, base: nat, used: nat, maxAlign: nat) {
    b <= LAST_BUCKET && 0 < base <= a && a + BucketReqSize(b) <= base + used && Aligned(a, b, maxAlign)
  }

  ghost predicate Disjoint(a: nat, b: nat, a': nat, b': nat) {
    a + BucketReqSize(b) <= a' || a' + BucketReqSize(b') <= a
  }

  ghost predicate Laid(blocks: map<nat, Block>, base: nat, used: nat, maxAlign: nat) {
    && (forall a :: a in blocks ==> Placed(a, blocks[a].bucket, base, used, maxAlign))
    && (forall a, a' :: a in blocks && a' in blocks && a != a' ==>
          Disjoint(a, blocks[a].bucket, a', blocks[a'].bucket))
  }

  /** No block reaches into a stretch of addresses. */
  ghost predicate Clear(blocks: map<nat, Block>, low: nat, high: nat) {
    forall a :: a in blocks ==> a + BucketReqSize(blocks[a].bucket) <= low || high <= a
  }

  ghost function ChunkEnd(c: Chunk, b: nat): nat
    requires c.Chunk?
  {
    c.start + c.count * BucketReqSize(b)
  }

  /** A chunk under way is aligned, in the used part, and holds no block yet. */
  ghost predicate ChunkFits(c: Chunk, b: nat, blocks: map<nat, Block>, base: nat, used: nat, maxAlign: nat)
    requires 0 < maxAlign
  {
    c.Chunk? ==>
      && b <= LAST_BUCKET && 0 < c.count && 0 < base <= c.start && c.start % maxAlign == 0
      && ChunkEnd(c, b) <= base + used
      && Clear(blocks, c.start, ChunkEnd(c, b))
  }

  /** No chunk under way reaches into a stretch of addresses. */
  ghost predicate Apart(growing: seq<Chunk>, low: nat, high: nat) {
    forall b: nat :: b < |growing| && growing[b].Chunk? ==> ChunkEnd(growing[b], b) <= low || high <= growing[b].start
  }

  ghost predicate ChunksFit(growing: seq<Chunk>, blocks: map<nat, Block>, base: nat, used: nat, maxAlign: nat)
    requires 0 < maxAlign
  {
    && |growing| == BUCKETS
    && (forall b: nat :: b < BUCKETS ==> ChunkFits(growing[b], b, blocks, base, used, maxAlign))
    && (forall b: nat :: b < BUCKETS && growing[b].Chunk? ==>
          Apart(growing[b := NoChunk], growing[b].start, ChunkEnd(growing[b], b)))
  }

  /** Nothing is left for another block of the bucket. */
  ghost predicate Spent(base: nat, size: nat, used: nat, b: nat, maxAlign: nat)
    requires 0 < maxAlign
  {
    base + size < AlignUp(base + used, maxAlign) + BucketReqSize(b)
  }

  /** Growth counts double from 32 to 1024; one that was cut short is the bucket's last. */
  ghost predicate Grown(count: nat, spent: bool) {
    count <= GROW_LIMIT
    && (spent || count == 0 || count == 32 || count == 64 || count == 128 || count == 256 || count == 512
        || count == GROW_LIMIT)
  }

  ghost predicate Bounded(s: State, maxAlign: nat)
    requires 0 < maxAlign
  {
    && s.used <= s.committed <= s.size && |s.grow| == |s.growing| == BUCKETS
    && (forall b: nat :: b < BUCKETS ==> Grown(s.grow[b], Spent(s.base, s.size, s.used, b, maxAlign)))
    && (forall b: nat :: b < BUCKETS && s.growing[b].Chunk? ==>
          Grown(s.growing[b].count, Spent(s.base, s.size, s.used, b, maxAlign)))
  }

  ghost predicate Inv(s: State, maxAlign: nat)
    requires 0 < maxAlign
  {
    && Bounded(s, maxAlign) && Conserved(s.lists, s.blocks) && Laid(s.blocks, s.base, s.used, maxAlign)
    && ChunksFit(s.growing, s.blocks, s.base, s.used, maxAlign)
  }

  function AlignUp(v: nat, align: nat): int
    requires 0 < align
  {
    AndNot(v + (align - 1), align - 1)
  }

  // ----- moving one block -----

  ghost function SetList(s: State, o: nat, b: nat, l: seq<nat>): State
    requires o < |s.lists| && b < |s.lists[o]|
  {
    s.(lists := s.lists[o := s.lists[o][b := l]])
  }

  ghost predicate CanPop(s: State, o: nat, b: nat) {
    o < |s.lists| && b < |s.lists[o]| && s.lists[o][b] != []
  }

  /** Unlinks the head of a list. */
  ghost function Pop(s: State, o: nat, b: nat): State
    requires CanPop(s, o, b)
  {
    var l := s.lists[o][b];
    SetList(s, o, b, l[1..]).(blocks := s.blocks[l[0] := Block(b, Out)])
  }

  ghost predicate CanPush(s: State, o: nat, b: nat, a: nat) {
    o < |s.lists| && b < |s.lists[o]| && a in s.blocks && s.blocks[a] == Block(b, Out)
  }

  /** Links a block in at the head of a list. */
  ghost function Push(s: State, o: nat, b: nat, a: nat): State
    requires CanPush(s, o, b, a)
  {
    SetList(s, o, b, [a] + s.lists[o][b]).(blocks := s.blocks[a := Block(b, In(o))])
  }

  ghost function Move(s: State, from: nat, to: nat, b: nat): State {
    if CanPop(s, from, b) && CanPush(Pop(s, from, b), to, b, s.lists[from][b][0])
    then Push(Pop(s, from, b), to, b, s.lists[from][b][0])
    else s
  }

  /** Up to `n` heads of one list move over, one by one. */
  ghost function MoveMany(s: State, from: nat, to: nat, b: nat, n: nat): State
    decreases n
  {
    if n == 0 || !CanPop(s, from, b) then s else MoveMany(Move(s, from, to, b), from, to, b, n - 1)
  }

  lemma PopFits(l: seq<nat>, o: nat, b: nat, blocks: map<nat, Block>)
    requires Fits(l, o, b, blocks) && l != []
    ensures Fits(l[1..], o, b, blocks[l[0] := Block(b, Out)])
  {
    var blocks' := blocks[l[0] := Block(b, Out)];
    forall a ensures a in l[1..] <==> a in blocks' && blocks'[a] == Block(b, In(o)) {
      assert a in l <==> a == l[0] || a in l[1..];
      assert a in l <==> a in blocks && blocks[a] == Block(b, In(o));
    }
  }

  lemma PushFits(l: seq<nat>, o: nat, b: nat, blocks: map<nat, Block>, a: nat)
    requires Fits(l, o, b, blocks) && a in blocks && blocks[a].place == Out
    ensures Fits([a] + l, o, b, blocks[a := Block(b, In(o))])
  {
    var blocks' := blocks[a := Block(b, In(o))];
    assert a !in l;
    forall x ensures x in [a] + l <==> x in blocks' && blocks'[x] == Block(b, In(o)) {
      assert x in l <==> x in blocks && blocks[x] == Block(b, In(o));
    }
  }

  /** A list is not concerned by a block that neither was nor is in it. */
  lemma OtherFits(l: seq<nat>, o: nat, b: nat, blocks: map<nat, Block>, a: nat, block: Block)
    requires Fits(l, o, b, blocks) && a !in l && block != Block(b, In(o))
    ensures Fits(l, o, b, blocks[a := block])
  {
    forall x ensures x in l <==> x in blocks[a := block] && blocks[a := block][x] == Block(b, In(o)) {
      assert x in l <==> x in blocks && blocks[x] == Block(b, In(o));
    }
  }

  lemma PopConserves(s: State, o: nat, b: nat)
    requires Conserved(s.lists, s.blocks) && CanPop(s, o, b)
    ensures Conserved(Pop(s, o, b).lists, Pop(s, o, b).blocks)
  {
    hide Fits, NoDuplicates;
    var a, s' := s.lists[o][b][0], Pop(s, o, b);
    PopFits(s.lists[o][b], o, b, s.blocks);
    HeadPlace(s.lists[o][b], o, b, s.blocks);
    forall o', b' | 0 <= o' < |s.lists| && 0 <= b' < BUCKETS
      ensures Fits(s'.lists[o'][b'], o', b', s'.blocks)
    {
      assert Fits(s.lists[o'][b'], o', b', s.blocks);
      if o' != o || b' != b {
        Elsewhere(s.lists[o'][b'], o', b', s.blocks, a);
        OtherFits(s.lists[o'][b'], o', b', s.blocks, a, Block(b, Out));
      }
    }
  }

  lemma HeadPlace(l: seq<nat>, o: nat, b: nat, blocks: map<nat, Block>)
    requires Fits(l, o, b, blocks) && l != []
    ensures l[0] in blocks && blocks[l[0]] == Block(b, In(o))
  {
    assert l[0] in l;
  }

  lemma Elsewhere(l: seq<nat>, o: nat, b: nat, blocks: map<nat, Block>, a: nat)
    requires Fits(l, o, b, blocks)
    ensures a in l <==> a in blocks && blocks[a] == Block(b, In(o))
  {
  }

  lemma PushConserves(s: State, o: nat, b: nat, a: nat)
    requires Conserved(s.lists, s.blocks) && CanPush(s, o, b, a)
    ensures Conserved(Push(s, o, b, a).lists, Push(s, o, b, a).blocks)
  {
    hide Fits, NoDuplicates;
    var s' := Push(s, o, b, a);
    forall o', b' | 0 <= o' < |s.lists| && 0 <= b' < BUCKETS
      ensures Fits(s'.lists[o'][b'], o', b', s'.blocks)
    {
      assert Fits(s.lists[o'][b'], o', b', s.blocks);
      if o' != o || b' != b {
        Elsewhere(s.lists[o'][b'], o', b', s.blocks, a);
        OtherFits(s.lists[o'][b'], o', b', s.blocks, a, Block(b, In(o)));
      } else {
        PushFits(s.lists[o][b], o, b, s.blocks, a);
      }
    }
  }

  /** Where a block is does not matter to the layout. */
  lemma Relaid(blocks: map<nat, Block>, a: nat, place: Place, base: nat, used: nat, maxAlign: nat)
    requires Laid(blocks, base, used, maxAlign) && a in blocks
    ensures Laid(blocks[a := Block(blocks[a].bucket, place)], base, used, maxAlign)
  {
    hide Placed, Disjoint;
  }

  lemma ChunksKept(growing: seq<Chunk>, blocks: map<nat, Block>, a: nat, place: Place, base: nat, used: nat,
                   maxAlign: nat)
    requires 0 < maxAlign && ChunksFit(growing, blocks, base, used, maxAlign) && a in blocks
    ensures ChunksFit(growing, blocks[a := Block(blocks[a].bucket, place)], base, used, maxAlign)
  {
    hide Apart, ChunkEnd, BucketReqSize;
    forall b: nat | b < BUCKETS
      ensures ChunkFits(growing[b], b, blocks[a := Block(blocks[a].bucket, place)], base, used, maxAlign)
    {
      assert ChunkFits(growing[b], b, blocks, base, used, maxAlign);
    }
  }

  lemma PopKeeps(s: State, o: nat, b: nat, maxAlign: nat)
    requires 0 < maxAlign && Inv(s, maxAlign) && CanPop(s, o, b)
    ensures Inv(Pop(s, o, b), maxAlign)
  {
    hide Placed, Disjoint, Laid, Fits, NoDuplicates, ChunksFit, Grown, Spent;
    PopConserves(s, o, b);
    assert Fits(s.lists[o][b], o, b, s.blocks);
    HeadPlace(s.lists[o][b], o, b, s.blocks);
    Relaid(s.blocks, s.lists[o][b][0], Out, s.base, s.used, maxAlign);
    ChunksKept(s.growing, s.blocks, s.lists[o][b][0], Out, s.base, s.used, maxAlign);
  }

  lemma PushKeeps(s: State, o: nat, b: nat, a: nat, maxAlign: nat)
    requires 0 < maxAlign && Inv(s, maxAlign) && CanPush(s, o, b, a)
    ensures Inv(Push(s, o, b, a), maxAlign)
  {
    hide Placed, Disjoint, Laid, Fits, NoDuplicates, ChunksFit, Grown, Spent;
    PushConserves(s, o, b, a);
    Relaid(s.blocks, a, In(o), s.base, s.used, maxAlign);
    ChunksKept(s.growing, s.blocks, a, In(o), s.base, s.used, maxAlign);
  }

  lemma MoveKeeps(s: State, from: nat, to: nat, b: nat, maxAlign: nat)
    requires 0 < maxAlign && Inv(s, maxAlign)
    ensures Inv(Move(s, from, to, b), maxAlign)
  {
    hide Inv, Conserved, Fits, Laid;
    if CanPop(s, from, b) {
      PopKeeps(s, from, b, maxAlign);
      var s' := Pop(s, from, b);
      if CanPush(s', to, b, s.lists[from][b][0]) {
        PushKeeps(s', to, b, s.lists[from][b][0], maxAlign);
      }
    }
  }

  lemma {:induction false} MoveManyKeeps(s: State, from: nat, to: nat, b: nat, n: nat, maxAlign: nat)
    requires 0 < maxAlign && Inv(s, maxAlign)
    ensures Inv(MoveMany(s, from, to, b, n), maxAlign)
    decreases n
  {
    hide Inv, Move;
    if n != 0 && CanPop(s, from, b) {
      MoveKeeps(s, from, to, b, maxAlign);
      MoveManyKeeps(Move(s, from, to, b), from, to, b, n - 1, maxAlign);
    }
  }

  /** Blocks that are out stay out, in their bucket. */
  ghost predicate OutKept(blocks: map<nat, Block>, blocks': map<nat, Block>) {
    forall a :: a in blocks && blocks[a].place == Out ==> a in blocks' && blocks'[a] == blocks[a]
  }

  lemma {:induction false} MoveManyKeepsOut(s: State, from: nat, to: nat, b: nat, n: nat, maxAlign: nat)
    requires 0 < maxAlign && Inv(s, maxAlign)
    ensures OutKept(s.blocks, MoveMany(s, from, to, b, n).blocks)
    decreases n
  {
    hide Fits, Laid;
    if n != 0 && CanPop(s, from, b) {
      assert Fits(s.lists[from][b], from, b, s.blocks);
      HeadPlace(s.lists[from][b], from, b, s.blocks);
      MoveKeeps(s, from, to, b, maxAlign);
      MoveManyKeepsOut(Move(s, from, to, b), from, to, b, n - 1, maxAlign);
    }
  }

  // ----- growing a bucket -----

  function GrowCount(grown: nat): nat {
    if grown == 0 then FIRST_GROW else if grown < GROW_LIMIT then grown * 2 else GROW_LIMIT
  }

  /** The commit size after doubling until `required` is covered or the region is used up. */
  function CommitTarget(target: nat, required: nat, size: nat): nat
    decreases if target < size then size - target else 0
  {
    if required <= target then target else
    var next := if target <= size / 2 then target * 2 else size;
    if next <= target then target else CommitTarget(next, required, size)
  }

  /** Doubling covers any requirement inside the region as soon as anything at all is committed. */
  lemma {:induction false} CommitTargetMeaning(target: nat, required: nat, size: nat)
    requires target <= size && required <= size
    ensures target <= CommitTarget(target, required, size) <= size
    ensures required <= CommitTarget(target, required, size) <==> 0 < target || required == 0
    decreases size - target
  {
    if target < required {
      var next := if target <= size / 2 then target * 2 else size;
      if target < next {
        CommitTargetMeaning(next, required, size);
      }
    }
  }

  /** What a growth takes from the arena: `count` blocks from `start`, or nothing. */
  datatype Plan = Plan(start: nat, count: nat, used: nat, committed: nat)

  function Bytes(count: nat, blockSize: nat): nat {
    count * blockSize
  }

  /** As many blocks as fit, up to `wanted`. */
  function Fitting(available: nat, blockSize: nat, wanted: nat): (count: nat)
    requires 0 < blockSize
    ensures Bytes(count, blockSize) <= available && count <= wanted
    ensures count < wanted ==> available < Bytes(count + 1, blockSize)
  {
    var most := available / blockSize;
    assert available == most * blockSize + available % blockSize;
    assert (most + 1) * blockSize == most * blockSize + blockSize;
    if most < wanted then most else (MultiplesGrow(wanted, most, blockSize); wanted)
  }

  lemma MultiplesGrow(a: nat, b: nat, d: nat)
    requires a <= b
    ensures a * d <= b * d
  {
    if a < b {
      MulGap(a, b, d);
    }
  }

  function PlanGrowth(s: State, blockSize: nat, grown: nat, commits: bool, maxAlign: nat): Plan
    requires 0 < blockSize && 0 < maxAlign
  {
    var nothing := Plan(0, 0, s.used, s.committed);
    var cursor := AlignUp(s.base + s.used, maxAlign);
    if cursor < s.base then nothing else
    var off := cursor - s.base;
    var available := if off < s.size then s.size - off else 0;
    var count := Fitting(available, blockSize, GrowCount(grown));
    var required := off + Bytes(count, blockSize);
    var target := CommitTarget(s.committed, required, s.size);
    var committed := if s.committed < required && s.vmBacked && required <= target && commits
                     then target else s.committed;
    if count != 0 && required <= committed then Plan(cursor, count, required, committed) else nothing
  }

  /** Adds a new block to the shared list of its bucket. */
  ghost function Add(s: State, b: nat, a: nat): State
    requires 0 < |s.lists| && b < |s.lists[SHARED]|
  {
    Push(s.(blocks := s.blocks[a := Block(b, Out)]), SHARED, b, a)
  }

  /** Cuts the first `count` blocks of a chunk, lowest address first. */
  ghost function Carve(s: State, b: nat, start: nat, count: nat): (s': State)
    requires 0 < |s.lists| && b < |s.lists[SHARED]|
    ensures |s'.lists| == |s.lists| && |s'.lists[SHARED]| == |s.lists[SHARED]|
    ensures s' == s.(lists := s'.lists, blocks := s'.blocks)
    decreases count
  {
    if count == 0 then s
    else Add(Carve(s, b, start, count - 1), b, start + (count - 1) * BucketReqSize(b))
  }

  /** A bucket that may grow: its shared list is empty and nobody is growing it. */
  ghost predicate MayGrow(s: State, b: nat) {
    && s.base != 0 && b < BUCKETS && b < |s.grow| && b < |s.growing| && s.growing[b].NoChunk?
    && 0 < |s.lists| && b < |s.lists[SHARED]| && s.lists[SHARED][b] == []
    && 0 < BucketSizeFor(BucketReqSize(b))
  }

  /** The section under the arena lock, with the bucket's lock held. */
  ghost function Reserve(s: State, b: nat, commits: bool, maxAlign: nat): State
    requires 0 < maxAlign
  {
    if !MayGrow(s, b) then s else
    var plan := PlanGrowth(s, BucketSizeFor(BucketReqSize(b)), s.grow[b], commits, maxAlign);
    if plan.count == 0 then s else
    s.(used := plan.used, committed := plan.committed, growing := s.growing[b := Chunk(plan.start, plan.count)])
  }

  /** Then the blocks of the chunk are linked in, and the bucket is unlocked. */
  ghost function Link(s: State, b: nat): State {
    if b >= |s.growing| || b >= |s.grow| || s.growing[b].NoChunk? || |s.lists| == 0 || b >= |s.lists[SHARED]|
    then s
    else
      var chunk := s.growing[b];
      Carve(s.(growing := s.growing[b := NoChunk]), b, chunk.start, chunk.count)
        .(grow := s.grow[b := chunk.count])
  }

  /** A growth that nothing comes between. */
  ghost function Grow(s: State, b: nat, commits: bool, maxAlign: nat): State
    requires 0 < maxAlign
  {
    Link(Reserve(s, b, commits, maxAlign), b)
  }

  lemma NewBlockLaid(blocks: map<nat, Block>, b: nat, a: nat, base: nat, used: nat, maxAlign: nat)
    requires Laid(blocks, base, used, maxAlign) && Clear(blocks, a, a + BucketReqSize(b))
    requires Placed(a, b, base, used, maxAlign)
    ensures a !in blocks
    ensures Laid(blocks[a := Block(b, Out)], base, used, maxAlign)
  {
    hide Aligned, BucketReqSize;
    SizePositive(b);
    forall x | x in blocks ensures x != a && Disjoint(x, blocks[x].bucket, a, b) {
      SizePositive(blocks[x].bucket);
    }
  }

  /** A stretch behind a new block stays clear. */
  lemma StaysClear(blocks: map<nat, Block>, b: nat, a: nat, place: Place, low: nat, high: nat)
    requires Clear(blocks, low, high) && (a + BucketReqSize(b) <= low || high <= a)
    ensures Clear(blocks[a := Block(b, place)], low, high)
  {
    hide BucketReqSize;
  }

  lemma NewBlockChunks(growing: seq<Chunk>, blocks: map<nat, Block>, b: nat, a: nat, base: nat, used: nat,
                       maxAlign: nat)
    requires 0 < maxAlign && ChunksFit(growing, blocks, base, used, maxAlign)
    requires Apart(growing, a, a + BucketReqSize(b))
    ensures ChunksFit(growing, blocks[a := Block(b, Out)], base, used, maxAlign)
  {
    hide Clear, ChunkEnd, BucketReqSize;
    forall c: nat | c < BUCKETS
      ensures ChunkFits(growing[c], c, blocks[a := Block(b, Out)], base, used, maxAlign)
    {
      assert ChunkFits(growing[c], c, blocks, base, used, maxAlign);
      if growing[c].Chunk? {
        StaysClear(blocks, b, a, Out, growing[c].start, ChunkEnd(growing[c], c));
      }
    }
  }

  lemma SizePositive(b: nat)
    ensures MIN_BLOCK <= BucketReqSize(b)
  {
    Smallest();
    ReqSizeMonotone(0, b);
  }

  lemma NewBlockConserved(s: State, b: nat, a: nat)
    requires Conserved(s.lists, s.blocks) && a !in s.blocks && b < BUCKETS
    ensures Conserved(s.lists, s.blocks[a := Block(b, Out)])
  {
    hide Fits, NoDuplicates;
    forall o', b' | 0 <= o' < |s.lists| && 0 <= b' < BUCKETS
      ensures Fits(s.lists[o'][b'], o', b', s.blocks[a := Block(b, Out)])
    {
      Elsewhere(s.lists[o'][b'], o', b', s.blocks, a);
      OtherFits(s.lists[o'][b'], o', b', s.blocks, a, Block(b, Out));
    }
  }

  lemma AddKeeps(s: State, b: nat, a: nat, maxAlign: nat)
    requires 0 < maxAlign && Inv(s, maxAlign) && Placed(a, b, s.base, s.used, maxAlign)
    requires Clear(s.blocks, a, a + BucketReqSize(b)) && Apart(s.growing, a, a + BucketReqSize(b))
    ensures b < |s.lists[SHARED]| && a !in s.blocks && Inv(Add(s, b, a), maxAlign)
    ensures Add(s, b, a).blocks == s.blocks[a := Block(b, In(SHARED))] && Add(s, b, a).growing == s.growing
  {
    hide Fits, NoDuplicates, Laid, Placed, Disjoint, BucketReqSize, Clear, Apart, ChunksFit, Grown, Spent;
    assert b <= LAST_BUCKET by {
      PlacedBucket(a, b, s.base, s.used, maxAlign);
    }
    NewBlockLaid(s.blocks, b, a, s.base, s.used, maxAlign);
    NewBlockConserved(s, b, a);
    NewBlockChunks(s.growing, s.blocks, b, a, s.base, s.used, maxAlign);
    var s1 := s.(blocks := s.blocks[a := Block(b, Out)]);
    PushKeeps(s1, SHARED, b, a, maxAlign);
    assert s1.blocks[a := Block(b, In(SHARED))] == s.blocks[a := Block(b, In(SHARED))];
  }

  lemma PlacedBucket(a: nat, b: nat, base: nat, used: nat, maxAlign: nat)
    requires Placed(a, b, base, used, maxAlign)
    ensures b <= LAST_BUCKET
  {
  }

  /** Of a stretch that is clear of blocks and chunks, a part is too. */
  lemma PartClear(blocks: map<nat, Block>, growing: seq<Chunk>, low: nat, high: nat, low': nat, high': nat)
    requires Clear(blocks, low, high) && Apart(growing, low, high) && low <= low' && high' <= high
    ensures Clear(blocks, low', high') && Apart(growing, low', high')
  {
    hide BucketReqSize, ChunkEnd;
  }

  lemma {:induction false} CarveKeeps(s: State, b: nat, start: nat, count: nat, wanted: nat, e: nat)
    requires Inv(s, Pow2(e)) && b <= LAST_BUCKET && count <= wanted
    requires 0 < s.base <= start && start % Pow2(e) == 0
    requires start + wanted * BucketReqSize(b) <= s.base + s.used
    requires Clear(s.blocks, start, start + wanted * BucketReqSize(b))
    requires Apart(s.growing, start, start + wanted * BucketReqSize(b))
    ensures b < |s.lists[SHARED]| && Inv(Carve(s, b, start, count), Pow2(e))
    ensures Clear(Carve(s, b, start, count).blocks, start + count * BucketReqSize(b),
                  start + wanted * BucketReqSize(b))
    ensures OutKept(s.blocks, Carve(s, b, start, count).blocks)
    decreases count
  {
    hide Fits, NoDuplicates, Laid, Disjoint, BucketReqSize, Clear, Apart, ChunksFit, Conserved, Add, Pow2, Aligned,
      Grown, Spent;
    HasShared(s);
    if count != 0 {
      var size, a := BucketReqSize(b), start + (count - 1) * BucketReqSize(b);
      CarveKeeps(s, b, start, count - 1, wanted, e);
      NextBlock(s, Carve(s, b, start, count - 1), b, start, count - 1, wanted, e);
    }
  }

  /** The next block of a chunk. */
  lemma NextBlock(s: State, carved: State, b: nat, start: nat, i: nat, wanted: nat, e: nat)
    requires Inv(carved, Pow2(e)) && b <= LAST_BUCKET && i < wanted
    requires carved.base == s.base && carved.used == s.used && carved.growing == s.growing
    requires 0 < s.base <= start && start % Pow2(e) == 0
    requires start + wanted * BucketReqSize(b) <= s.base + s.used
    requires Clear(carved.blocks, start + i * BucketReqSize(b), start + wanted * BucketReqSize(b))
    requires Apart(s.growing, start, start + wanted * BucketReqSize(b))
    ensures var size, a := BucketReqSize(b), start + i * BucketReqSize(b);
            && Placed(a, b, s.base, s.used, Pow2(e))
            && Clear(carved.blocks, a, a + size) && Apart(s.growing, a, a + size)
            && b < |carved.lists[SHARED]| && Inv(Add(carved, b, a), Pow2(e))
            && start + (i + 1) * size == a + size
            && Clear(Add(carved, b, a).blocks, a + size, start + wanted * size)
            && OutKept(carved.blocks, Add(carved, b, a).blocks)
  {
    hide Fits, NoDuplicates, Laid, Disjoint, BucketReqSize, Clear, Apart, ChunksFit, Conserved, Add, Pow2, Aligned,
      Grown, Spent;
    HasShared(carved);
    var size, a := BucketReqSize(b), start + i * BucketReqSize(b);
    assert (i + 1) * size == i * size + size;
    MultiplesGrow(i + 1, wanted, size);
    BlockAligned(start, b, i, e);
    EarlierApart(s.growing, start, a, start + wanted * size);
    PartClear(carved.blocks, s.growing, a, start + wanted * size, a, a + size);
    AddKeeps(carved, b, a, Pow2(e));
    PartClear(carved.blocks, s.growing, a, start + wanted * size, a + size, start + wanted * size);
    StaysClear(carved.blocks, b, a, In(SHARED), a + size, start + wanted * size);
  }

  lemma EarlierApart(growing: seq<Chunk>, low: nat, middle: nat, high: nat)
    requires Apart(growing, low, high) && low <= middle
    ensures Apart(growing, middle, high)
  {
    hide ChunkEnd;
  }

  lemma HasShared(s: State)
    requires Conserved(s.lists, s.blocks)
    ensures 0 < |s.lists| && |s.lists[SHARED]| == BUCKETS
  {
  }

  /** Blocks of one size laid end to end from an aligned start suit every alignment that
      divides the size. */
  lemma BlockAligned(start: nat, b: nat, i: nat, e: nat)
    requires start % Pow2(e) == 0
    ensures Aligned(start + i * BucketReqSize(b), b, Pow2(e))
  {
    hide BucketReqSize, Pow2;
    var size := BucketReqSize(b);
    forall k: nat | Pow2(k) <= Pow2(e) && size % Pow2(k) == 0
      ensures (start + i * size) % Pow2(k) == 0
    {
      PowerOrder(k, e);
      PowerDivides(k, e);
      DividesTrans(start, Pow2(e), Pow2(k));
      SumOfMultiples(start, i, size, Pow2(k));
    }
  }

  lemma PowerOrder(k: nat, e: nat)
    requires Pow2(k) <= Pow2(e)
    ensures k <= e
  {
    if e < k {
      PowerMonotone(e + 1, k);
    }
  }

  lemma SumOfMultiples(x: nat, i: nat, y: nat, d: nat)
    requires 0 < d && x % d == 0 && y % d == 0
    ensures (x + i * y) % d == 0
  {
    var p, q := x / d, y / d;
    assert x == p * d && y == q * d;
    assert i * y == i * (q * d) == (i * q) * d;
    assert x + i * y == (p + i * q) * d;
    DivModUnique(x + i * y, d, p + i * q, 0);
  }

  lemma AlignUpMeaning(v: nat, e: nat)
    ensures var r := AlignUp(v, Pow2(e));
            && v <= r < v + Pow2(e) && r % Pow2(e) == 0
            && (forall m: nat :: v <= m && m % Pow2(e) == 0 ==> r <= m)
  {
    hide AndNot, Pow2;
    MaskRoundsUp(v, e);
    LeastMultiple(v, Pow2(e));
  }

  /** A plan takes the next aligned, unused and committed stretch, and there is none exactly when
      not one block fits or the pages it needs cannot be committed. */
  lemma PlanMeaning(s: State, blockSize: nat, grown: nat, commits: bool, e: nat)
    requires 0 < blockSize && s.used <= s.committed <= s.size
    ensures var plan := PlanGrowth(s, blockSize, grown, commits, Pow2(e));
            var start := AlignUp(s.base + s.used, Pow2(e));
            var room := s.base + s.size - start;
            && plan.count <= GrowCount(grown)
            && (plan.count != 0 ==>
                  && plan.start == start && s.base + s.used <= start && start % Pow2(e) == 0
                  && s.base + plan.used == start + plan.count * blockSize
                  && s.used <= plan.used <= plan.committed <= s.size && s.committed <= plan.committed)
            && (0 < plan.count < GrowCount(grown) ==>
                  s.base + s.size < start + plan.count * blockSize + blockSize)
            && (plan.count == 0 ==> plan.used == s.used && plan.committed == s.committed)
            && (plan.count == 0 <==>
                  room < blockSize
                  || (!(s.vmBacked && commits && 0 < s.committed)
                      && s.base + s.committed < start + Fitting(room, blockSize, GrowCount(grown)) * blockSize))
  {
    hide Pow2, AlignUp, CommitTarget;
    AlignUpMeaning(s.base + s.used, e);
    var off := AlignUp(s.base + s.used, Pow2(e)) - s.base;
    var available := if off < s.size then s.size - off else 0;
    var count := Fitting(available, blockSize, GrowCount(grown));
    var required := off + Bytes(count, blockSize);
    hide Fitting;
    FittingNone(available, blockSize, GrowCount(grown));
    assert Bytes(count + 1, blockSize) == count * blockSize + blockSize;
    if count != 0 {
      CommitTargetMeaning(s.committed, required, s.size);
    }
  }

  lemma FittingNone(available: nat, blockSize: nat, wanted: nat)
    requires 0 < blockSize && 0 < wanted
    ensures Fitting(available, blockSize, wanted) == 0 <==> available < blockSize
  {
    var count := Fitting(available, blockSize, wanted);
    hide Fitting;
    if count != 0 {
      MultiplesGrow(1, count, blockSize);
    }
  }

  lemma WiderLaid(blocks: map<nat, Block>, base: nat, used: nat, used': nat, maxAlign: nat)
    requires Laid(blocks, base, used, maxAlign) && used <= used'
    ensures Laid(blocks, base, used', maxAlign)
    ensures forall low: nat, high: nat :: base + used <= low ==> Clear(blocks, low, high)
  {
    hide Aligned, BucketReqSize;
  }

  /** What is behind the used part is apart from all chunks under way. */
  lemma WiderChunks(growing: seq<Chunk>, blocks: map<nat, Block>, base: nat, used: nat, used': nat, maxAlign: nat)
    requires 0 < maxAlign && ChunksFit(growing, blocks, base, used, maxAlign) && used <= used'
    ensures ChunksFit(growing, blocks, base, used', maxAlign)
    ensures forall low: nat, high: nat :: base + used <= low ==> Apart(growing, low, high)
  {
    hide ChunkEnd, Clear, BucketReqSize;
    forall b: nat | b < BUCKETS
      ensures ChunkFits(growing[b], b, blocks, base, used', maxAlign)
      ensures growing[b].Chunk? ==> ChunkEnd(growing[b], b) <= base + used
    {
      assert ChunkFits(growing[b], b, blocks, base, used, maxAlign);
    }
  }

  /** A new chunk behind the used part joins the chunks under way. */
  lemma NewChunkFits(growing: seq<Chunk>, blocks: map<nat, Block>, base: nat, used: nat, b: nat, c: Chunk,
                     maxAlign: nat)
    requires 0 < maxAlign && ChunksFit(growing, blocks, base, used, maxAlign)
    requires b < BUCKETS && growing[b].NoChunk? && c.Chunk? && ChunkFits(c, b, blocks, base, used, maxAlign)
    requires Apart(growing, c.start, ChunkEnd(c, b))
    ensures ChunksFit(growing[b := c], blocks, base, used, maxAlign)
  {
    hide ChunkEnd, Clear, BucketReqSize, ChunkFits;
    var growing' := growing[b := c];
    forall d: nat | d < BUCKETS && growing'[d].Chunk?
      ensures Apart(growing'[d := NoChunk], growing'[d].start, ChunkEnd(growing'[d], d))
    {
      if d == b {
        assert growing'[d := NoChunk] == growing;
      } else {
        assert Apart(growing[d := NoChunk], growing[d].start, ChunkEnd(growing[d], d));
        var others := growing'[d := NoChunk];
        forall x: nat | x < |others| && others[x].Chunk?
          ensures ChunkEnd(others[x], x) <= growing[d].start || ChunkEnd(growing[d], d) <= others[x].start
        {
          assert x != b ==> others[x] == growing[d := NoChunk][x];
        }
      }
    }
  }

  /** Taking a chunk out again leaves the rest apart from it. */
  lemma ChunkTaken(growing: seq<Chunk>, blocks: map<nat, Block>, base: nat, used: nat, b: nat, maxAlign: nat)
    requires 0 < maxAlign && ChunksFit(growing, blocks, base, used, maxAlign)
    requires b < BUCKETS && growing[b].Chunk?
    ensures ChunkFits(growing[b], b, blocks, base, used, maxAlign)
    ensures ChunksFit(growing[b := NoChunk], blocks, base, used, maxAlign)
    ensures Apart(growing[b := NoChunk], growing[b].start, ChunkEnd(growing[b], b))
  {
    hide ChunkEnd, Clear, BucketReqSize, ChunkFits;
    var rest := growing[b := NoChunk];
    forall d: nat | d < BUCKETS ensures ChunkFits(rest[d], d, blocks, base, used, maxAlign) {
      if d == b {
        NoChunkFits(d, blocks, base, used, maxAlign);
      }
    }
    forall d: nat | d < BUCKETS && rest[d].Chunk?
      ensures Apart(rest[d := NoChunk], rest[d].start, ChunkEnd(rest[d], d))
    {
      assert Apart(growing[d := NoChunk], growing[d].start, ChunkEnd(growing[d], d));
      var others := rest[d := NoChunk];
      forall x: nat | x < |others| && others[x].Chunk?
        ensures ChunkEnd(others[x], x) <= rest[d].start || ChunkEnd(rest[d], d) <= others[x].start
      {
        assert others[x] == growing[d := NoChunk][x];
      }
    }
  }

  lemma NoChunkFits(b: nat, blocks: map<nat, Block>, base: nat, used: nat, maxAlign: nat)
    requires 0 < maxAlign
    ensures ChunkFits(NoChunk, b, blocks, base, used, maxAlign)
  {
  }

  /** What is spent stays spent: `used` only grows. */
  lemma SpentStays(base: nat, size: nat, used: nat, used': nat, e: nat)
    requires used <= used'
    ensures forall b: nat :: Spent(base, size, used, b, Pow2(e)) ==> Spent(base, size, used', b, Pow2(e))
  {
    hide AlignUp, Pow2, BucketReqSize;
    AlignUpMeaning(base + used, e);
    AlignUpMeaning(base + used', e);
  }

  /** A count that is taken is on the doubling ladder, or has left less than one more block. */
  lemma TakenIsGrown(base: nat, size: nat, used: nat, b: nat, grown: nat, count: nat, used': nat, e: nat)
    requires Grown(grown, false) && 0 < count <= GrowCount(grown)
    requires count < GrowCount(grown) ==> base + size < base + used' + BucketReqSize(b)
    ensures Grown(count, Spent(base, size, used', b, Pow2(e)))
  {
    hide AlignUp, Pow2, BucketReqSize;
    AlignUpMeaning(base + used', e);
  }

  lemma ReserveKeeps(s: State, b: nat, commits: bool, e: nat)
    requires Inv(s, Pow2(e))
    ensures Inv(Reserve(s, b, commits, Pow2(e)), Pow2(e))
    ensures OutKept(s.blocks, Reserve(s, b, commits, Pow2(e)).blocks)
  {
    hide Fits, NoDuplicates, Laid, Conserved, BucketReqSize, BucketSizeFor, Pow2, Carve, PlanGrowth, AlignUp,
      Spent, Clear, Apart, ChunksFit, Grown, GrowCount;
    if MayGrow(s, b) {
      GrowSize(b);
      var size := BucketSizeFor(BucketReqSize(b));
      var plan := PlanGrowth(s, size, s.grow[b], commits, Pow2(e));
      PlanMeaning(s, size, s.grow[b], commits, e);
      if plan.count != 0 {
        WiderLaid(s.blocks, s.base, s.used, plan.used, Pow2(e));
        WiderChunks(s.growing, s.blocks, s.base, s.used, plan.used, Pow2(e));
        NewChunkFits(s.growing, s.blocks, s.base, plan.used, b, Chunk(plan.start, plan.count), Pow2(e));
        SpentStays(s.base, s.size, s.used, plan.used, e);
        ReservedCounts(s, b, plan, e);
      }
    }
  }

  lemma ReservedCounts(s: State, b: nat, plan: Plan, e: nat)
    requires Bounded(s, Pow2(e)) && b < BUCKETS && s.growing[b].NoChunk?
    requires 0 < plan.count <= GrowCount(s.grow[b]) && s.used <= plan.used <= plan.committed <= s.size
    requires AlignUp(s.base + s.used, Pow2(e)) + BucketReqSize(b) <= s.base + s.size
    requires plan.count < GrowCount(s.grow[b]) ==> s.base + s.size < s.base + plan.used + BucketReqSize(b)
    ensures Bounded(s.(used := plan.used, committed := plan.committed,
                       growing := s.growing[b := Chunk(plan.start, plan.count)]), Pow2(e))
  {
    hide AlignUp, Pow2, BucketReqSize, GrowCount;
    assert !Spent(s.base, s.size, s.used, b, Pow2(e));
    assert Grown(s.grow[b], Spent(s.base, s.size, s.used, b, Pow2(e)));
    TakenIsGrown(s.base, s.size, s.used, b, s.grow[b], plan.count, plan.used, e);
    SpentStays(s.base, s.size, s.used, plan.used, e);
    hide Spent;
    forall c: nat | c < BUCKETS ensures Grown(s.grow[c], Spent(s.base, s.size, plan.used, c, Pow2(e))) {
      assert Grown(s.grow[c], Spent(s.base, s.size, s.used, c, Pow2(e)));
    }
    forall c: nat | c < BUCKETS && c != b && s.growing[c].Chunk?
      ensures Grown(s.growing[c].count, Spent(s.base, s.size, plan.used, c, Pow2(e)))
    {
      assert Grown(s.growing[c].count, Spent(s.base, s.size, s.used, c, Pow2(e)));
    }
  }

  lemma LinkKeeps(s: State, b: nat, e: nat)
    requires Inv(s, Pow2(e))
    ensures Inv(Link(s, b), Pow2(e))
    ensures OutKept(s.blocks, Link(s, b).blocks)
  {
    hide Fits, NoDuplicates, Laid, Conserved, BucketReqSize, Pow2, Carve, Spent, Clear, Apart, ChunksFit, Grown;
    if b < |s.growing| && b < |s.grow| && s.growing[b].Chunk? {
      var chunk := s.growing[b];
      ChunkTaken(s.growing, s.blocks, s.base, s.used, b, Pow2(e));
      var s1 := s.(growing := s.growing[b := NoChunk]);
      CarveKeeps(s1, b, chunk.start, chunk.count, chunk.count, e);
    }
  }

  lemma GrowKeeps(s: State, b: nat, commits: bool, e: nat)
    requires Inv(s, Pow2(e))
    ensures Inv(Grow(s, b, commits, Pow2(e)), Pow2(e))
    ensures OutKept(s.blocks, Grow(s, b, commits, Pow2(e)).blocks)
  {
    hide Inv, Reserve, Link, Pow2;
    ReserveKeeps(s, b, commits, e);
    LinkKeeps(Reserve(s, b, commits, Pow2(e)), b, e);
  }

  // ----- runs -----

  /** A growth is two steps: between reserving a chunk and linking it in, others may come. */
  datatype Action =
    | Reset
    | InitFixed(base: nat, size: nat)
    | InitVm(base: nat, reserved: nat, committed: nat)
    | Allocate(thread: nat, bucket: nat)
    | Free(thread: nat, block: nat)
    | Refill(thread: nat, bucket: nat)
    | Flush(thread: nat, bucket: nat)
    | ReserveChunk(bucket: nat, commits: bool)
    | LinkChunk(bucket: nat)

  ghost function Empty(base: nat, size: nat, committed: nat, vmBacked: bool, owners: nat): State {
    State(base, size, 0, committed, vmBacked, seq(BUCKETS, _ => 0), seq(BUCKETS, _ => NoChunk),
          seq(owners, _ => seq(BUCKETS, _ => [])), map[])
  }

  /** Whether the bucket's lock is free: it is held from reserving a chunk to linking it. */
  ghost predicate Unlocked(s: State, b: nat) {
    b < |s.growing| ==> s.growing[b].NoChunk?
  }

  /** A thread frees only what is out; a heap is set up only over as much as is reserved. */
  ghost function Step(s: State, a: Action, maxAlign: nat): State
    requires 0 < maxAlign
  {
    match a
    case Reset => Empty(0, 0, 0, false, |s.lists|)
    case InitFixed(base, size) => Empty(base, size, size, false, |s.lists|)
    case InitVm(base, reserved, committed) =>
      if reserved < committed then s else Empty(base, reserved, committed, true, |s.lists|)
    case Allocate(t, b) => if CanPop(s, t + 1, b) then Pop(s, t + 1, b) else s
    case Free(t, a) =>
      if a in s.blocks && CanPush(s, t + 1, s.blocks[a].bucket, a) then Push(s, t + 1, s.blocks[a].bucket, a)
      else s
    case Refill(t, b) => if Unlocked(s, b) then MoveMany(s, SHARED, t + 1, b, LOCAL_REFILL) else s
    case Flush(t, b) => if Unlocked(s, b) then MoveMany(s, t + 1, SHARED, b, LOCAL_FLUSH) else s
    case ReserveChunk(b, commits) => Reserve(s, b, commits, maxAlign)
    case LinkChunk(b) => Link(s, b)
  }

  ghost function Run(s: State, actions: seq<Action>, maxAlign: nat): State
    requires 0 < maxAlign
    decreases |actions|
  {
    if |actions| == 0 then s else Run(Step(s, actions[0], maxAlign), actions[1..], maxAlign)
  }

  lemma EmptyInv(base: nat, size: nat, committed: nat, vmBacked: bool, owners: nat, maxAlign: nat)
    requires committed <= size && 0 < owners && 0 < maxAlign
    ensures Inv(Empty(base, size, committed, vmBacked, owners), maxAlign)
  {
    hide BucketReqSize, Aligned, AlignUp;
  }

  lemma StepKeeps(s: State, a: Action, e: nat)
    requires Inv(s, Pow2(e))
    ensures Inv(Step(s, a, Pow2(e)), Pow2(e))
  {
    hide Inv, Conserved, Fits, Laid, Pop, Push, MoveMany, Reserve, Link, Empty, Pow2;
    assert 0 < |s.lists| by {
      InvShape(s, Pow2(e));
    }
    match a
    case Reset => EmptyInv(0, 0, 0, false, |s.lists|, Pow2(e));
    case InitFixed(base, size) => EmptyInv(base, size, size, false, |s.lists|, Pow2(e));
    case InitVm(base, reserved, committed) =>
      if committed <= reserved {
        EmptyInv(base, reserved, committed, true, |s.lists|, Pow2(e));
      }
    case Allocate(t, b) =>
      if CanPop(s, t + 1, b) {
        PopKeeps(s, t + 1, b, Pow2(e));
      }
    case Free(t, a) =>
      if a in s.blocks && CanPush(s, t + 1, s.blocks[a].bucket, a) {
        PushKeeps(s, t + 1, s.blocks[a].bucket, a, Pow2(e));
      }
    case Refill(t, b) => MoveManyKeeps(s, SHARED, t + 1, b, LOCAL_REFILL, Pow2(e));
    case Flush(t, b) => MoveManyKeeps(s, t + 1, SHARED, b, LOCAL_FLUSH, Pow2(e));
    case ReserveChunk(b, commits) => ReserveKeeps(s, b, commits, e);
    case LinkChunk(b) => LinkKeeps(s, b, e);
  }

  lemma InvShape(s: State, maxAlign: nat)
    requires 0 < maxAlign && Inv(s, maxAlign)
    ensures 0 < |s.lists| && |s.grow| == BUCKETS
    ensures forall o :: 0 <= o < |s.lists| ==> |s.lists[o]| == BUCKETS
  {
  }

  lemma {:induction false} RunKeeps(s: State, actions: seq<Action>, e: nat)
    requires Inv(s, Pow2(e))
    ensures Inv(Run(s, actions, Pow2(e)), Pow2(e))
    decreases |actions|
  {
    hide Inv, Step, Pow2;
    if |actions| != 0 {
      StepKeeps(s, actions[0], e);
      RunKeeps(Step(s, actions[0], Pow2(e)), actions[1..], e);
    }
  }

  // ----- what runs keep -----

  /** The heap before anything is set up, shared by `threads` threads. */
  ghost function Fresh(threads: nat): State {
    Empty(0, 0, 0, false, threads + 1)
  }

  /** Every block that was cut is out or in exactly one place of exactly one free list, and the
      lists hold nothing else: nothing of an earlier epoch, in particular. */
  lemma EveryBlockInOnePlace(threads: nat, run: seq<Action>, e: nat, a: nat, o: nat, b: nat)
    ensures var s := Run(Fresh(threads), run, Pow2(e));
            o < |s.lists| && b < |s.lists[o]| ==>
              && (a in s.lists[o][b] <==> a in s.blocks && s.blocks[a] == Block(b, In(o)))
              && (forall i, j :: 0 <= i < j < |s.lists[o][b]| ==> s.lists[o][b][i] != s.lists[o][b][j])
    ensures var s := Run(Fresh(threads), run, Pow2(e));
            a in s.blocks ==>
              || s.blocks[a].place == Out
              || (s.blocks[a].place.owner < |s.lists|
                  && s.blocks[a].bucket < |s.lists[s.blocks[a].place.owner]|
                  && a in s.lists[s.blocks[a].place.owner][s.blocks[a].bucket])
  {
    hide Pow2, Run, Laid, Empty;
    EmptyInv(0, 0, 0, false, threads + 1, Pow2(e));
    RunKeeps(Fresh(threads), run, e);
    var s := Run(Fresh(threads), run, Pow2(e));
    if o < |s.lists| && b < |s.lists[o]| {
      assert Fits(s.lists[o][b], o, b, s.blocks);
    }
    if a in s.blocks && s.blocks[a].place.In? {
      assert Fits(s.lists[s.blocks[a].place.owner][s.blocks[a].bucket],
                  s.blocks[a].place.owner, s.blocks[a].bucket, s.blocks);
    }
  }

  /** Blocks lie inside the used, committed part of the region and never overlap. */
  lemma BlocksApart(threads: nat, run: seq<Action>, e: nat, a: nat, a': nat)
    ensures var s := Run(Fresh(threads), run, Pow2(e));
            && s.used <= s.committed <= s.size
            && (a in s.blocks ==>
                  0 < s.base <= a && a + BucketReqSize(s.blocks[a].bucket) <= s.base + s.used)
            && (a in s.blocks && a' in s.blocks && a < a' ==> a + BucketReqSize(s.blocks[a].bucket) <= a')
  {
    hide Pow2, Run, Conserved, Empty, Aligned, BucketReqSize;
    EmptyInv(0, 0, 0, false, threads + 1, Pow2(e));
    RunKeeps(Fresh(threads), run, e);
    var s := Run(Fresh(threads), run, Pow2(e));
    if a in s.blocks && a' in s.blocks && a < a' {
      SizePositive(s.blocks[a].bucket);
      SizePositive(s.blocks[a'].bucket);
      assert Disjoint(a, s.blocks[a].bucket, a', s.blocks[a'].bucket);
    }
  }

  /** Growth counts never exceed 1024: a count that is cut short is the last of its bucket. */
  lemma GrowthIsBounded(threads: nat, run: seq<Action>, e: nat, b: nat)
    requires b < BUCKETS
    ensures var s := Run(Fresh(threads), run, Pow2(e));
            && |s.grow| == BUCKETS && s.grow[b] <= GROW_LIMIT
            && (s.grow[b] in {0, 32, 64, 128, 256, 512, GROW_LIMIT}
                || s.base + s.size < AlignUp(s.base + s.used, Pow2(e)) + BucketReqSize(b))
  {
    hide Pow2, Run, Laid, Conserved, ChunksFit, Empty, BucketReqSize, AlignUp;
    EmptyInv(0, 0, 0, false, threads + 1, Pow2(e));
    RunKeeps(Fresh(threads), run, e);
    var s := Run(Fresh(threads), run, Pow2(e));
    assert Grown(s.grow[b], Spent(s.base, s.size, s.used, b, Pow2(e)));
  }

  /** A block of the bucket that a request is sent to suits the request: it is large enough
      and aligned, although one bucket serves requests of different alignments. */
  lemma BlockSuitsRequest(threads: nat, run: seq<Action>, e: nat, a: nat, size: nat, align: nat)
    requires 0 < size && NormalizedRequestSize(size, align, Pow2(e)) != 0
    ensures var s := Run(Fresh(threads), run, Pow2(e));
            var request := NormalizedRequestSize(size, align, Pow2(e));
            0 < align && (a in s.blocks && 0 < request && BucketIndexFor(request) == s.blocks[a].bucket ==>
              a % align == 0 && size <= BucketReqSize(s.blocks[a].bucket))
  {
    hide Pow2, Run, Inv, Empty, BucketReqSize, BucketIndexFor, NormalizedRequestSize, HighestBit;
    EmptyInv(0, 0, 0, false, threads + 1, Pow2(e));
    RunKeeps(Fresh(threads), run, e);
    NormalizedMeaning(size, align, Pow2(e));
    var s := Run(Fresh(threads), run, Pow2(e));
    if a in s.blocks && BucketIndexFor(NormalizedRequestSize(size, align, Pow2(e))) == s.blocks[a].bucket {
      Suits(s, e, a, size, align);
    }
  }

  lemma Suits(s: State, e: nat, a: nat, size: nat, align: nat)
    requires Inv(s, Pow2(e)) && a in s.blocks
    requires 0 < size && 0 < NormalizedRequestSize(size, align, Pow2(e))
    requires BucketIndexFor(NormalizedRequestSize(size, align, Pow2(e))) == s.blocks[a].bucket
    ensures 0 < align && a % align == 0 && size <= BucketReqSize(s.blocks[a].bucket)
  {
    hide Pow2, Conserved, Disjoint, BucketReqSize, BucketIndexFor, NormalizedRequestSize, HighestBit;
    NormalizedMeaning(size, align, Pow2(e));
    var b := s.blocks[a].bucket;
    assert Placed(a, b, s.base, s.used, Pow2(e));
    RequestFits(NormalizedRequestSize(size, align, Pow2(e)), b, HighestBit(align));
  }

  lemma RequestFits(request: nat, b: nat, k: nat)
    requires 0 < request && BucketIndexFor(request) == b <= LAST_BUCKET && request % Pow2(k) == 0
    ensures request <= BucketReqSize(b) && BucketReqSize(b) % Pow2(k) == 0
  {
    assert request <= MAX_BLOCK;
    IndexIsLeast(request);
    ClassKeepsAlignment(request, k);
  }
}
