/** The arena heap as the code keeps it: free lists threaded through the free blocks
    themselves, shared heads per bucket, and a cache of heads and counts per thread. */
module ArenaHeap {
  import opened ArenaState
  import opened RingIndex
  import opened SizeClass

  const NULL: nat := 0

  datatype Bucket = Bucket(freeList: nat, grow: nat)

  datatype Cache = Cache(epoch: nat, heads: seq<nat>, counts: seq<nat>)

  /** The heads or the counts of an empty cache. */
  function Zeros(): (zeros: seq<nat>)
    ensures |zeros| == BUCKETS && forall b :: 0 <= b < BUCKETS ==> zeros[b] == 0
  {
    seq(BUCKETS, _ => 0)
  }

  // ----- lists threaded through memory -----

  /** From `head`, the first words of the blocks lead through `l` to null. */
  ghost predicate Linked(memory: map<nat, nat>, head: nat, l: seq<nat>)
    decreases |l|
  {
    if l == [] then head == NULL
    else head == l[0] != NULL && head in memory && Linked(memory, memory[head], l[1..])
  }

  lemma {:induction false} LinkedKept(memory: map<nat, nat>, head: nat, l: seq<nat>, a: nat, word: nat)
    requires Linked(memory, head, l) && a !in l
    ensures Linked(memory[a := word], head, l)
    decreases |l|
  {
    if l != [] {
      assert l[0] in l;
      assert forall x :: x in l[1..] ==> x in l;
      LinkedKept(memory, memory[head], l[1..], a, word);
    }
  }

  ghost predicate AllLinked(memory: map<nat, nat>, heads: seq<seq<nat>>, lists: seq<seq<seq<nat>>>) {
    && |heads| == |lists|
    && (forall o :: 0 <= o < |heads| ==> |heads[o]| == |lists[o]| == BUCKETS)
    && (forall o, b :: 0 <= o < |heads| && 0 <= b < BUCKETS ==> Linked(memory, heads[o][b], lists[o][b]))
  }

  ghost function SetHead(heads: seq<seq<nat>>, o: nat, b: nat, head: nat): seq<seq<nat>>
    requires o < |heads| && b < |heads[o]|
  {
    var row: seq<nat> := heads[o][b := head];
    heads[o := row]
  }

  /** The head of a list is null exactly when the list is empty. */
  lemma HeadOf(memory: map<nat, nat>, head: nat, l: seq<nat>)
    requires Linked(memory, head, l)
    ensures head == NULL <==> l == []
    ensures l != [] ==> head == l[0] && head in memory && Linked(memory, memory[head], l[1..])
  {
  }

  lemma PopLinked(memory: map<nat, nat>, heads: seq<seq<nat>>, s: State, o: nat, b: nat)
    requires AllLinked(memory, heads, s.lists) && CanPop(s, o, b)
    ensures heads[o][b] in memory
    ensures AllLinked(memory, SetHead(heads, o, b, memory[heads[o][b]]), Pop(s, o, b).lists)
  {
    hide Linked;
    HeadOf(memory, heads[o][b], s.lists[o][b]);
  }

  lemma PushLinked(memory: map<nat, nat>, heads: seq<seq<nat>>, s: State, o: nat, b: nat, a: nat)
    requires AllLinked(memory, heads, s.lists) && Conserved(s.lists, s.blocks)
    requires CanPush(s, o, b, a) && a != NULL
    ensures AllLinked(memory[a := heads[o][b]], SetHead(heads, o, b, a), Push(s, o, b, a).lists)
  {
    hide Linked, Fits;
    var memory' := memory[a := heads[o][b]];
    forall o', b' | 0 <= o' < |heads| && 0 <= b' < BUCKETS
      ensures Linked(memory', heads[o'][b'], s.lists[o'][b'])
    {
      Elsewhere(s.lists[o'][b'], o', b', s.blocks, a);
      LinkedKept(memory, heads[o'][b'], s.lists[o'][b'], a, heads[o][b]);
    }
    NewHead(memory', a, s.lists[o][b]);
  }

  lemma NewHead(memory: map<nat, nat>, a: nat, l: seq<nat>)
    requires a in memory && a != NULL && Linked(memory, memory[a], l)
    ensures Linked(memory, a, [a] + l)
  {
    assert ([a] + l)[1..] == l;
  }

  /** Whatever a caller writes into a block it holds, no list notices. */
  lemma OutBlockIsFree(memory: map<nat, nat>, heads: seq<seq<nat>>, s: State, a: nat, word: nat)
    requires AllLinked(memory, heads, s.lists) && Conserved(s.lists, s.blocks)
    requires a in s.blocks && s.blocks[a].place == Out
    ensures AllLinked(memory[a := word], heads, s.lists)
  {
    hide Linked, Fits;
    forall o, b | 0 <= o < |heads| && 0 <= b < BUCKETS
      ensures Linked(memory[a := word], heads[o][b], s.lists[o][b])
    {
      Elsewhere(s.lists[o][b], o, b, s.blocks, a);
      LinkedKept(memory, heads[o][b], s.lists[o][b], a, word);
    }
  }

  // ----- what the operations do to the blocks -----

  /** Only the heads of one thread's cache changed. */
  ghost predicate HeadsOnly(was: seq<Cache>, now: seq<Cache>, t: nat) {
    && t < |was| == |now|
    && (forall u :: 0 <= u < |was| && u != t ==> now[u] == was[u])
    && now[t].epoch == was[t].epoch && now[t].counts == was[t].counts
  }

  /** One head moved from one list to another, and no other list changed. */
  ghost predicate Moved(was: State, now: State, from: nat, to: nat, b: nat) {
    && HasList(was, from, b) && HasList(was, to, b) && HasList(now, from, b) && HasList(now, to, b)
    && was.lists[from][b] != []
    && now.lists[from][b] == was.lists[from][b][1..]
    && now.lists[to][b] == [was.lists[from][b][0]] + was.lists[to][b]
    && OnlyRows(was.lists, now.lists, from, to, b)
    && now == was.(lists := now.lists, blocks := now.blocks)
  }

  /** Only two owners' lists of one bucket changed. */
  ghost predicate OnlyRows(was: seq<seq<seq<nat>>>, now: seq<seq<seq<nat>>>, from: nat, to: nat, b: nat) {
    && |was| == |now|
    && (forall o :: 0 <= o < |was| ==> |now[o]| == |was[o]|)
    && (forall o, c :: 0 <= o < |was| && 0 <= c < |was[o]| && ((o != from && o != to) || c != b) ==>
          now[o][c] == was[o][c])
  }

  ghost predicate HasList(s: State, o: nat, b: nat) {
    o < |s.lists| && b < |s.lists[o]|
  }

  ghost predicate ListEmpty(s: State, o: nat, b: nat) {
    HasList(s, o, b) ==> s.lists[o][b] == []
  }

  /** One thread on its own: the cache, then the shared list, then a growth of the bucket. */
  ghost function Filled(s: State, t: nat, b: nat, commits: bool, maxAlign: nat): State
    requires 0 < maxAlign
  {
    if !ListEmpty(s, t + 1, b) then s else
    var refilled := MoveMany(s, SHARED, t + 1, b, LOCAL_REFILL);
    if !ListEmpty(refilled, t + 1, b) then refilled
    else MoveMany(Grow(refilled, b, commits, maxAlign), SHARED, t + 1, b, LOCAL_REFILL)
  }

  ghost function Allocated(s: State, t: nat, b: nat, commits: bool, maxAlign: nat): State
    requires 0 < maxAlign
  {
    var filled := Filled(s, t, b, commits, maxAlign);
    if CanPop(filled, t + 1, b) then Pop(filled, t + 1, b) else filled
  }

  /** A growth of an empty bucket finds room for a block, and memory for what it takes. */
  ghost predicate CanGrow(s: State, b: nat, commits: bool, maxAlign: nat)
    requires 0 < maxAlign
  {
    && b <= LAST_BUCKET && b < |s.grow| && 0 < BucketReqSize(b)
    && PlanGrowth(s, BucketReqSize(b), s.grow[b], commits, maxAlign).count != 0
  }

  /** The bucket a request is sent to. */
  ghost function RequestBucket(size: nat, align: nat, maxAlign: nat): nat {
    var request := NormalizedRequestSize(size, align, maxAlign);
    if 0 < request && 0 <= BucketIndexFor(request) then BucketIndexFor(request) else INVALID_BUCKET
  }

  /** No heap, nothing asked for, a bad alignment, or more than 1 MiB. */
  ghost predicate Refused(base: nat, heapSize: nat, size: nat, align: nat, maxAlign: nat) {
    base == 0 || heapSize == 0 || size == 0 || NormalizedRequestSize(size, align, maxAlign) == 0
    || MAX_BLOCK < NormalizedRequestSize(size, align, maxAlign)
  }

  lemma RequestPositive(size: nat, align: nat, e: nat)
    ensures 0 <= NormalizedRequestSize(size, align, Pow2(e))
  {
    if size == 0 && 0 < align {
      AndSelf(align - 1);
    } else if 0 < size {
      hide NormalizedRequestSize, Pow2;
      NormalizedMeaning(size, align, Pow2(e));
    }
  }

  lemma IndexRange(request: int)
    requires 0 < request
    ensures BucketIndexFor(request) == INVALID_BUCKET <==> MAX_BLOCK < request
    ensures BucketIndexFor(request) != INVALID_BUCKET ==> 0 <= BucketIndexFor(request) <= LAST_BUCKET
  {
    if request <= MAX_BLOCK {
      hide BucketIndexFor, BucketReqSize;
      IndexIsLeast(request);
    }
  }

  /** What `deallocate` passes over: null, no heap, a bad alignment, or more than 1 MiB. */
  ghost predicate Ignored(base: nat, ptr: nat, size: nat, align: nat, maxAlign: nat) {
    ptr == NULL || base == 0 || NormalizedRequestSize(size, align, maxAlign) == 0
    || MAX_BLOCK < NormalizedRequestSize(size, align, maxAlign)
  }

  lemma InvHolds(bs: seq<Bucket>, cs: seq<Cache>, epoch: nat, memory: map<nat, nat>, s: State,
                 maxAlign: nat)
    requires Represents(bs, cs, epoch, memory, s, maxAlign)
    ensures Inv(s, maxAlign)
  {
  }

  lemma NothingMoves(s: State, t: nat, b: nat, n: nat)
    requires ListEmpty(s, SHARED, b)
    ensures MoveMany(s, SHARED, t + 1, b, n) == s
  {
  }

  lemma FilledKeeps(s: State, t: nat, b: nat, commits: bool, e: nat)
    requires Inv(s, Pow2(e))
    ensures Inv(Filled(s, t, b, commits, Pow2(e)), Pow2(e))
    ensures OutKept(s.blocks, Filled(s, t, b, commits, Pow2(e)).blocks)
  {
    hide Inv, MoveMany, Grow, Pow2;
    if ListEmpty(s, t + 1, b) {
      var refilled := MoveMany(s, SHARED, t + 1, b, LOCAL_REFILL);
      MoveManyKeeps(s, SHARED, t + 1, b, LOCAL_REFILL, Pow2(e));
      MoveManyKeepsOut(s, SHARED, t + 1, b, LOCAL_REFILL, Pow2(e));
      if ListEmpty(refilled, t + 1, b) {
        GrowKeeps(refilled, b, commits, e);
        MoveManyKeeps(Grow(refilled, b, commits, Pow2(e)), SHARED, t + 1, b, LOCAL_REFILL, Pow2(e));
        MoveManyKeepsOut(Grow(refilled, b, commits, Pow2(e)), SHARED, t + 1, b, LOCAL_REFILL, Pow2(e));
      }
    }
  }

  /** The block an allocation hands out was not out before, and keeps every other one out. */
  lemma AllocatedIsNew(s: State, t: nat, b: nat, commits: bool, e: nat)
    requires Inv(s, Pow2(e)) && CanPop(Filled(s, t, b, commits, Pow2(e)), t + 1, b)
    ensures var p := Filled(s, t, b, commits, Pow2(e)).lists[t + 1][b][0];
            var s' := Allocated(s, t, b, commits, Pow2(e));
            && Inv(s', Pow2(e)) && p in s'.blocks && s'.blocks[p] == Block(b, Out)
            && !(p in s.blocks && s.blocks[p].place == Out)
            && OutKept(s.blocks, s'.blocks)
  {
    hide Laid, Fits, Filled, Pow2;
    FilledKeeps(s, t, b, commits, e);
    var filled := Filled(s, t, b, commits, Pow2(e));
    assert Fits(filled.lists[t + 1][b], t + 1, b, filled.blocks);
    HeadPlace(filled.lists[t + 1][b], t + 1, b, filled.blocks);
    PopKeeps(filled, t + 1, b, Pow2(e));
  }

  lemma AllocatedKeepsOut(s: State, t: nat, b: nat, commits: bool, e: nat)
    requires Inv(s, Pow2(e))
    ensures OutKept(s.blocks, Allocated(s, t, b, commits, Pow2(e)).blocks)
  {
    hide Inv, Filled, Pow2, Pop;
    if CanPop(Filled(s, t, b, commits, Pow2(e)), t + 1, b) {
      AllocatedIsNew(s, t, b, commits, e);
    } else {
      FilledKeeps(s, t, b, commits, e);
    }
  }

  lemma AlreadyFilled(s: State, t: nat, b: nat, commits: bool, maxAlign: nat)
    requires 0 < maxAlign && !ListEmpty(s, t + 1, b)
    ensures Filled(s, t, b, commits, maxAlign) == s
  {
  }

  ghost function Freed(s: State, t: nat, b: nat, a: nat): State {
    if !CanPush(s, t + 1, b, a) then s else
    var cached := Push(s, t + 1, b, a);
    if |cached.lists[t + 1][b]| < LOCAL_MAX then cached
    else MoveMany(cached, t + 1, SHARED, b, LOCAL_FLUSH)
  }

  // ----- the fields that hold the lists -----

  /** The list heads of every owner; a cache left from an earlier epoch counts as empty. */
  ghost function Heads(bs: seq<Bucket>, cs: seq<Cache>, epoch: nat): (heads: seq<seq<nat>>)
    ensures |heads| == |cs| + 1 && |heads[SHARED]| == |bs|
    ensures forall b :: 0 <= b < |bs| ==> heads[SHARED][b] == bs[b].freeList
    ensures forall t :: 0 <= t < |cs| ==>
              heads[t + 1] == if cs[t].epoch == epoch then cs[t].heads else Zeros()
  {
    [seq(|bs|, b requires 0 <= b < |bs| => bs[b].freeList)]
    + seq(|cs|, t requires 0 <= t < |cs| =>
        if cs[t].epoch == epoch then cs[t].heads else Zeros())
  }

  ghost predicate CachesOk(cs: seq<Cache>, epoch: nat) {
    forall t :: 0 <= t < |cs| ==>
      |cs[t].heads| == |cs[t].counts| == BUCKETS && cs[t].epoch <= epoch
  }

  /** No growth is under way. */
  ghost predicate Settled(s: State) {
    forall b: nat :: b < |s.growing| ==> s.growing[b].NoChunk?
  }

  /** Heads and memory represent the lists of a sound state. */
  ghost predicate Represents(bs: seq<Bucket>, cs: seq<Cache>, epoch: nat, memory: map<nat, nat>,
                             s: State, maxAlign: nat) {
    && |bs| == BUCKETS && |s.lists| == |cs| + 1 && CachesOk(cs, epoch)
    && 0 < maxAlign && Inv(s, maxAlign) && Settled(s)
    && (forall b :: 0 <= b < BUCKETS ==> bs[b].grow == s.grow[b])
    && AllLinked(memory, Heads(bs, cs, epoch), s.lists)
  }

  ghost function WithHead(c: Cache, b: nat, head: nat): Cache
    requires b < |c.heads|
  {
    var heads: seq<nat> := c.heads[b := head];
    c.(heads := heads)
  }

  function WithCount(c: Cache, b: nat, count: nat): Cache
    requires b < |c.counts|
  {
    var counts: seq<nat> := c.counts[b := count];
    c.(counts := counts)
  }

  lemma SharedHeadMoves(bs: seq<Bucket>, cs: seq<Cache>, epoch: nat, b: nat, head: nat)
    requires b < |bs|
    ensures Heads(bs[b := bs[b].(freeList := head)], cs, epoch) == SetHead(Heads(bs, cs, epoch), SHARED, b, head)
  {
    hide Heads;
    var bs' := bs[b := bs[b].(freeList := head)];
    var h, h' := Heads(bs, cs, epoch), Heads(bs', cs, epoch);
    var row: seq<nat> := h[SHARED][b := head];
    assert h'[SHARED] == row by {
      forall c | 0 <= c < |bs| ensures h'[SHARED][c] == row[c] {
      }
    }
    SameRows(h[SHARED := row], h', cs, epoch);
  }

  /** Two lists of heads agree when the shared rows do and every cache shows its own. */
  lemma SameRows(g: seq<seq<nat>>, h: seq<seq<nat>>, cs: seq<Cache>, epoch: nat)
    requires |g| == |h| == |cs| + 1 && g[SHARED] == h[SHARED]
    requires forall t :: 0 <= t < |cs| ==> g[t + 1] == if cs[t].epoch == epoch then cs[t].heads else Zeros()
    requires forall t :: 0 <= t < |cs| ==> h[t + 1] == if cs[t].epoch == epoch then cs[t].heads else Zeros()
    ensures g == h
  {
    forall o | 0 <= o < |h| ensures h[o] == g[o] {
      if o != SHARED {
        var t := o - 1;
        assert h[t + 1] == if cs[t].epoch == epoch then cs[t].heads else Zeros();
      }
    }
  }

  lemma CacheHeadMoves(bs: seq<Bucket>, cs: seq<Cache>, epoch: nat, t: nat, b: nat, head: nat)
    requires t < |cs| && cs[t].epoch == epoch && b < |cs[t].heads|
    ensures b < |Heads(bs, cs, epoch)[t + 1]|
    ensures Heads(bs, cs[t := WithHead(cs[t], b, head)], epoch)
         == SetHead(Heads(bs, cs, epoch), t + 1, b, head)
  {
    hide Heads;
    var cs' := cs[t := WithHead(cs[t], b, head)];
    var h, h' := Heads(bs, cs, epoch), Heads(bs, cs', epoch);
    assert h'[SHARED] == h[SHARED] by {
      forall c | 0 <= c < |bs| ensures h'[SHARED][c] == h[SHARED][c] {
      }
    }
    SameRows(SetHead(h, t + 1, b, head), h', cs', epoch);
  }

  /** What a thread reads off the shared list. */
  lemma SharedList(bs: seq<Bucket>, cs: seq<Cache>, epoch: nat, memory: map<nat, nat>, s: State,
                   maxAlign: nat, b: nat)
    requires Represents(bs, cs, epoch, memory, s, maxAlign) && b < BUCKETS
    ensures |bs| == BUCKETS && HasList(s, SHARED, b)
    ensures bs[b].freeList == NULL <==> s.lists[SHARED][b] == []
    ensures s.lists[SHARED][b] != [] ==> bs[b].freeList == s.lists[SHARED][b][0] && bs[b].freeList in memory
  {
    hide Linked, Inv;
    assert Inv(s, maxAlign);
    HeadOf(memory, Heads(bs, cs, epoch)[SHARED][b], s.lists[SHARED][b]);
  }

  /** What a thread reads off its own cache. */
  lemma CacheList(bs: seq<Bucket>, cs: seq<Cache>, epoch: nat, memory: map<nat, nat>, s: State,
                  maxAlign: nat, t: nat, b: nat)
    requires Represents(bs, cs, epoch, memory, s, maxAlign) && b < BUCKETS && t < |cs|
    ensures |cs[t].heads| == |cs[t].counts| == BUCKETS && HasList(s, t + 1, b)
    ensures cs[t].epoch != epoch ==> s.lists[t + 1][b] == []
    ensures cs[t].epoch == epoch ==>
              && (cs[t].heads[b] == NULL <==> s.lists[t + 1][b] == [])
              && (s.lists[t + 1][b] != [] ==>
                    cs[t].heads[b] == s.lists[t + 1][b][0] && cs[t].heads[b] in memory)
  {
    hide Linked, Inv;
    HeadOf(memory, Heads(bs, cs, epoch)[t + 1][b], s.lists[t + 1][b]);
  }

  lemma StaleIsEmpty(bs: seq<Bucket>, cs: seq<Cache>, epoch: nat, memory: map<nat, nat>, s: State,
                     maxAlign: nat, t: nat)
    requires Represents(bs, cs, epoch, memory, s, maxAlign) && t < |cs| && cs[t].epoch != epoch
    ensures |s.lists| == |cs| + 1 && |s.lists[t + 1]| == BUCKETS
    ensures var row := s.lists[t + 1]; forall b :: 0 <= b < BUCKETS ==> row[b] == []
  {
    hide Linked, Inv;
    var row := s.lists[t + 1];
    forall b | 0 <= b < BUCKETS ensures row[b] == [] {
      CacheList(bs, cs, epoch, memory, s, maxAlign, t, b);
    }
  }

  /** The head of the shared list moves to a cache: two words and two heads change. */
  lemma RefillRepresents(bs: seq<Bucket>, cs: seq<Cache>, epoch: nat, memory: map<nat, nat>, s: State,
                         maxAlign: nat, t: nat, b: nat)
    requires Represents(bs, cs, epoch, memory, s, maxAlign) && CanPop(s, SHARED, b)
    requires t < |cs| && cs[t].epoch == epoch
    ensures b < |bs| && b < |cs[t].heads| && bs[b].freeList in memory
    ensures Represents(bs[b := bs[b].(freeList := memory[bs[b].freeList])],
                       cs[t := WithHead(cs[t], b, bs[b].freeList)], epoch,
                       memory[bs[b].freeList := cs[t].heads[b]], Move(s, SHARED, t + 1, b), maxAlign)
    ensures Moved(s, Move(s, SHARED, t + 1, b), SHARED, t + 1, b)
  {
    hide Represents, Inv;
    InRange(bs, cs, epoch, memory, s, maxAlign, SHARED, b);
    SharedList(bs, cs, epoch, memory, s, maxAlign, b);
    CacheList(bs, cs, epoch, memory, s, maxAlign, t, b);
    PopShared(bs, cs, epoch, memory, s, maxAlign, b);
    PushCache(bs[b := bs[b].(freeList := memory[bs[b].freeList])], cs, epoch, memory,
              Pop(s, SHARED, b), maxAlign, t, b, bs[b].freeList);
  }

  /** The head of a cache's list moves to the shared list. */
  lemma FlushRepresents(bs: seq<Bucket>, cs: seq<Cache>, epoch: nat, memory: map<nat, nat>, s: State,
                        maxAlign: nat, t: nat, b: nat)
    requires Represents(bs, cs, epoch, memory, s, maxAlign) && CanPop(s, t + 1, b)
    requires t < |cs| && cs[t].epoch == epoch
    ensures b < |bs| && b < |cs[t].heads| && cs[t].heads[b] in memory
    ensures Represents(bs[b := bs[b].(freeList := cs[t].heads[b])],
                       cs[t := WithHead(cs[t], b, memory[cs[t].heads[b]])], epoch,
                       memory[cs[t].heads[b] := bs[b].freeList], Move(s, t + 1, SHARED, b), maxAlign)
    ensures Moved(s, Move(s, t + 1, SHARED, b), t + 1, SHARED, b)
  {
    hide Represents, Inv;
    InRange(bs, cs, epoch, memory, s, maxAlign, t + 1, b);
    SharedList(bs, cs, epoch, memory, s, maxAlign, b);
    CacheList(bs, cs, epoch, memory, s, maxAlign, t, b);
    PopCache(bs, cs, epoch, memory, s, maxAlign, t, b);
    PushShared(bs, cs[t := WithHead(cs[t], b, memory[cs[t].heads[b]])], epoch, memory,
               Pop(s, t + 1, b), maxAlign, b, cs[t].heads[b]);
  }

  lemma InRange(bs: seq<Bucket>, cs: seq<Cache>, epoch: nat, memory: map<nat, nat>, s: State,
                maxAlign: nat, o: nat, b: nat)
    requires Represents(bs, cs, epoch, memory, s, maxAlign) && CanPop(s, o, b)
    ensures b < BUCKETS
  {
    hide Linked, Inv;
  }

  lemma PopShared(bs: seq<Bucket>, cs: seq<Cache>, epoch: nat, memory: map<nat, nat>, s: State,
                  maxAlign: nat, b: nat)
    requires Represents(bs, cs, epoch, memory, s, maxAlign) && CanPop(s, SHARED, b)
    ensures b < |bs| && bs[b].freeList in memory
    ensures Represents(bs[b := bs[b].(freeList := memory[bs[b].freeList])], cs, epoch, memory,
                       Pop(s, SHARED, b), maxAlign)
  {
    hide Linked, Inv, Heads;
    HeadShape(bs, cs, epoch, b);
    PopLinked(memory, Heads(bs, cs, epoch), s, SHARED, b);
    PopKeeps(s, SHARED, b, maxAlign);
    SharedHeadMoves(bs, cs, epoch, b, memory[bs[b].freeList]);
  }

  lemma HeadShape(bs: seq<Bucket>, cs: seq<Cache>, epoch: nat, b: nat)
    requires b < |bs|
    ensures |Heads(bs, cs, epoch)| == |cs| + 1 && |Heads(bs, cs, epoch)[SHARED]| == |bs|
    ensures Heads(bs, cs, epoch)[SHARED][b] == bs[b].freeList
    ensures forall t :: 0 <= t < |cs| && cs[t].epoch == epoch ==> Heads(bs, cs, epoch)[t + 1] == cs[t].heads
  {
  }

  lemma PushShared(bs: seq<Bucket>, cs: seq<Cache>, epoch: nat, memory: map<nat, nat>, s: State,
                   maxAlign: nat, b: nat, a: nat)
    requires Represents(bs, cs, epoch, memory, s, maxAlign) && CanPush(s, SHARED, b, a)
    ensures b < |bs|
    ensures Represents(bs[b := bs[b].(freeList := a)], cs, epoch, memory[a := bs[b].freeList],
                       Push(s, SHARED, b, a), maxAlign)
  {
    hide Linked, Inv, Heads;
    NotNull(s, a, maxAlign);
    HeadShape(bs, cs, epoch, b);
    PushLinked(memory, Heads(bs, cs, epoch), s, SHARED, b, a);
    PushKeeps(s, SHARED, b, a, maxAlign);
    SharedHeadMoves(bs, cs, epoch, b, a);
  }

  lemma PopCache(bs: seq<Bucket>, cs: seq<Cache>, epoch: nat, memory: map<nat, nat>, s: State,
                 maxAlign: nat, t: nat, b: nat)
    requires Represents(bs, cs, epoch, memory, s, maxAlign) && CanPop(s, t + 1, b)
    requires t < |cs| && cs[t].epoch == epoch
    ensures b < |cs[t].heads| && cs[t].heads[b] in memory
    ensures Represents(bs, cs[t := WithHead(cs[t], b, memory[cs[t].heads[b]])], epoch, memory,
                       Pop(s, t + 1, b), maxAlign)
  {
    hide Linked, Inv, Heads;
    HeadShape(bs, cs, epoch, b);
    PopLinked(memory, Heads(bs, cs, epoch), s, t + 1, b);
    PopKeeps(s, t + 1, b, maxAlign);
    CacheHeadMoves(bs, cs, epoch, t, b, memory[cs[t].heads[b]]);
  }

  lemma PushCache(bs: seq<Bucket>, cs: seq<Cache>, epoch: nat, memory: map<nat, nat>, s: State,
                  maxAlign: nat, t: nat, b: nat, a: nat)
    requires Represents(bs, cs, epoch, memory, s, maxAlign) && CanPush(s, t + 1, b, a)
    requires t < |cs| && cs[t].epoch == epoch
    ensures b < |cs[t].heads|
    ensures Represents(bs, cs[t := WithHead(cs[t], b, a)], epoch, memory[a := cs[t].heads[b]],
                       Push(s, t + 1, b, a), maxAlign)
  {
    hide Linked, Inv, Heads;
    NotNull(s, a, maxAlign);
    HeadShape(bs, cs, epoch, b);
    PushLinked(memory, Heads(bs, cs, epoch), s, t + 1, b, a);
    PushKeeps(s, t + 1, b, a, maxAlign);
    CacheHeadMoves(bs, cs, epoch, t, b, a);
  }

  lemma NotNull(s: State, a: nat, maxAlign: nat)
    requires 0 < maxAlign && Inv(s, maxAlign) && a in s.blocks
    ensures a != NULL && Conserved(s.lists, s.blocks)
  {
    hide Aligned, Disjoint, Fits;
  }

  lemma AddShared(bs: seq<Bucket>, cs: seq<Cache>, epoch: nat, memory: map<nat, nat>, s: State,
                  maxAlign: nat, b: nat, a: nat)
    requires Represents(bs, cs, epoch, memory, s, maxAlign)
    requires Clear(s.blocks, a, a + BucketReqSize(b)) && Placed(a, b, s.base, s.used, maxAlign)
    ensures b < |bs| && 0 < |s.lists| && b < |s.lists[SHARED]|
    ensures Represents(bs[b := bs[b].(freeList := a)], cs, epoch, memory[a := bs[b].freeList],
                       Add(s, b, a), maxAlign)
  {
    hide Linked, Fits, NoDuplicates, Laid, Placed, Disjoint, BucketReqSize, Heads, Clear, ChunksFit, Grown, Spent;
    AddKeeps(s, b, a, maxAlign);
    NewBlockLaid(s.blocks, b, a, s.base, s.used, maxAlign);
    NewBlockConserved(s, b, a);
    NewBlockChunks(s.growing, s.blocks, b, a, s.base, s.used, maxAlign);
    PushShared(bs, cs, epoch, memory, s.(blocks := s.blocks[a := Block(b, Out)]), maxAlign, b, a);
  }

  /** Nothing is represented by empty buckets and caches of earlier epochs. */
  lemma EmptyRepresents(bs: seq<Bucket>, cs: seq<Cache>, epoch: nat, memory: map<nat, nat>,
                        base: nat, size: nat, committed: nat, vmBacked: bool, maxAlign: nat)
    requires |bs| == BUCKETS && (forall b :: 0 <= b < BUCKETS ==> bs[b] == Bucket(NULL, 0))
    requires CachesOk(cs, epoch) && (forall t :: 0 <= t < |cs| ==> cs[t].epoch != epoch)
    requires committed <= size && 0 < maxAlign
    ensures Represents(bs, cs, epoch, memory, Empty(base, size, committed, vmBacked, |cs| + 1), maxAlign)
  {
    hide Inv;
    EmptyInv(base, size, committed, vmBacked, |cs| + 1, maxAlign);
    var heads := Heads(bs, cs, epoch);
    forall o, b | 0 <= o < |heads| && 0 <= b < BUCKETS ensures heads[o][b] == NULL && |heads[o]| == BUCKETS {
      assert o != SHARED ==> heads[(o - 1) + 1] == Zeros();
    }
  }

  lemma CountsRepresent(bs: seq<Bucket>, cs: seq<Cache>, epoch: nat, memory: map<nat, nat>, s: State,
                        maxAlign: nat, t: nat, counts: seq<nat>)
    requires Represents(bs, cs, epoch, memory, s, maxAlign) && t < |cs| && |counts| == BUCKETS
    ensures Represents(bs, cs[t := cs[t].(counts := counts)], epoch, memory, s, maxAlign)
  {
    hide Inv, AllLinked;
    SameHeads(bs, cs, epoch, t, cs[t].(counts := counts));
  }

  lemma TouchRepresents(bs: seq<Bucket>, cs: seq<Cache>, epoch: nat, memory: map<nat, nat>, s: State,
                        maxAlign: nat, t: nat)
    requires Represents(bs, cs, epoch, memory, s, maxAlign) && t < |cs| && cs[t].epoch != epoch
    ensures Represents(bs, cs[t := Cache(epoch, Zeros(), Zeros())], epoch, memory, s, maxAlign)
  {
    hide Inv, AllLinked;
    SameHeads(bs, cs, epoch, t, Cache(epoch, Zeros(), Zeros()));
  }

  lemma SameHeads(bs: seq<Bucket>, cs: seq<Cache>, epoch: nat, t: nat, c: Cache)
    requires t < |cs|
    requires (if c.epoch == epoch then c.heads else Zeros())
          == (if cs[t].epoch == epoch then cs[t].heads else Zeros())
    ensures Heads(bs, cs[t := c], epoch) == Heads(bs, cs, epoch)
  {
    hide Heads;
    var cs' := cs[t := c];
    var h, h' := Heads(bs, cs, epoch), Heads(bs, cs', epoch);
    assert h[SHARED] == h'[SHARED] by {
      forall b | 0 <= b < |bs| ensures h'[SHARED][b] == h[SHARED][b] {
      }
    }
    forall u | 0 <= u < |cs| ensures h'[u + 1] == if cs[u].epoch == epoch then cs[u].heads else Zeros() {
      assert cs'[u] == if u == t then c else cs[u];
    }
    SameRows(h, h', cs, epoch);
  }

  /** A current cache knows the lengths of its lists, and none holds 64 blocks. */
  ghost predicate CountsOk(cs: seq<Cache>, epoch: nat, lists: seq<seq<seq<nat>>>) {
    forall t, b :: 0 <= t < |cs| && 0 <= b < |cs[t].counts| && t + 1 < |lists| && b < |lists[t + 1]|
                   && cs[t].epoch == epoch ==>
      cs[t].counts[b] == |lists[t + 1][b]| < LOCAL_MAX
  }

  lemma UsedRepresents(bs: seq<Bucket>, cs: seq<Cache>, epoch: nat, memory: map<nat, nat>, s: State,
                       e: nat, used: nat, committed: nat)
    requires Represents(bs, cs, epoch, memory, s, Pow2(e)) && s.used <= used <= committed <= s.size
    ensures Represents(bs, cs, epoch, memory, s.(used := used, committed := committed), Pow2(e))
    ensures forall low: nat, high: nat :: s.base + s.used <= low ==> Clear(s.blocks, low, high)
  {
    hide Linked, Fits, NoDuplicates, Placed, Disjoint, Heads, Laid, Clear, ChunksFit, Grown, Spent, Pow2;
    WiderLaid(s.blocks, s.base, s.used, used, Pow2(e));
    WiderChunks(s.growing, s.blocks, s.base, s.used, used, Pow2(e));
    SpentStays(s.base, s.size, s.used, used, e);
    forall b: nat | b < BUCKETS ensures Grown(s.grow[b], Spent(s.base, s.size, used, b, Pow2(e))) {
      assert Grown(s.grow[b], Spent(s.base, s.size, s.used, b, Pow2(e)));
      GrownStays(s.grow[b], Spent(s.base, s.size, s.used, b, Pow2(e)), Spent(s.base, s.size, used, b, Pow2(e)));
    }
  }

  lemma GrownStays(count: nat, spent: bool, spent': bool)
    requires Grown(count, spent) && (spent ==> spent')
    ensures Grown(count, spent')
  {
  }

  lemma GrowRepresents(bs: seq<Bucket>, cs: seq<Cache>, epoch: nat, memory: map<nat, nat>, s: State,
                       maxAlign: nat, b: nat, count: nat)
    requires Represents(bs, cs, epoch, memory, s, maxAlign) && b < BUCKETS
    requires Grown(count, Spent(s.base, s.size, s.used, b, maxAlign))
    ensures b < |bs| && b < |s.grow|
    ensures Represents(bs[b := bs[b].(grow := count)], cs, epoch, memory,
                       s.(grow := s.grow[b := count]), maxAlign)
  {
    hide AllLinked, Conserved, Laid, ChunksFit, Grown, Spent;
    var bs' := bs[b := bs[b].(grow := count)];
    SameFreeLists(bs, bs', cs, epoch);
  }

  /** A growth in one go, spelled out. */
  lemma GrowUnfolded(s: State, b: nat, commits: bool, maxAlign: nat)
    requires 0 < maxAlign && Settled(s) && b < |s.grow| == |s.growing|
    ensures !MayGrow(s, b) ==> Grow(s, b, commits, maxAlign) == s
    ensures MayGrow(s, b) ==>
              var plan := PlanGrowth(s, BucketSizeFor(BucketReqSize(b)), s.grow[b], commits, maxAlign);
              Grow(s, b, commits, maxAlign)
              == if plan.count == 0 then s
                 else Carve(s.(used := plan.used, committed := plan.committed), b, plan.start, plan.count)
                        .(grow := s.grow[b := plan.count])
  {
    hide PlanGrowth, Carve, BucketSizeFor, BucketReqSize;
    if MayGrow(s, b) {
      var plan := PlanGrowth(s, BucketSizeFor(BucketReqSize(b)), s.grow[b], commits, maxAlign);
      assert s.growing[b := Chunk(plan.start, plan.count)][b := NoChunk] == s.growing;
    }
  }

  lemma OutOfRange(s: State, b: nat, commits: bool, maxAlign: nat)
    requires 0 < maxAlign && |s.grow| == |s.growing| == BUCKETS <= b
    ensures Grow(s, b, commits, maxAlign) == s
  {
  }

  lemma BoundedUse(s: State, maxAlign: nat)
    requires 0 < maxAlign && Bounded(s, maxAlign)
    ensures s.used <= s.committed <= s.size
  {
  }

  lemma SettledApart(s: State, low: nat, high: nat)
    requires Settled(s)
    ensures Apart(s.growing, low, high)
  {
  }

  /** The count of a growth is a proper growth count for what is then left. */
  lemma GrownNext(s: State, b: nat, count: nat, start: nat, used: nat, blockSize: nat, e: nat)
    requires Bounded(s, Pow2(e)) && b < BUCKETS && blockSize == BucketReqSize(b)
    requires 0 < count <= GrowCount(s.grow[b])
    requires start == AlignUp(s.base + s.used, Pow2(e)) && start + blockSize <= s.base + s.size
    requires s.base + used == start + count * blockSize
    requires count < GrowCount(s.grow[b]) ==> s.base + s.size < start + count * blockSize + blockSize
    ensures Grown(count, Spent(s.base, s.size, used, b, Pow2(e)))
  {
    hide AlignUp, Pow2, BucketReqSize, GrowCount;
    assert Grown(s.grow[b], Spent(s.base, s.size, s.used, b, Pow2(e)));
    TakenIsGrown(s.base, s.size, s.used, b, s.grow[b], count, used, e);
  }

  lemma SameFreeLists(bs: seq<Bucket>, bs': seq<Bucket>, cs: seq<Cache>, epoch: nat)
    requires |bs| == |bs'| && forall b :: 0 <= b < |bs| ==> bs[b].freeList == bs'[b].freeList
    ensures Heads(bs, cs, epoch) == Heads(bs', cs, epoch)
  {
    hide Heads;
    var h, h' := Heads(bs, cs, epoch), Heads(bs', cs, epoch);
    assert h[SHARED] == h'[SHARED] by {
      forall c | 0 <= c < |bs| ensures h'[SHARED][c] == h[SHARED][c] {
      }
    }
    SameRows(h, h', cs, epoch);
  }

  lemma CachesShape(bs: seq<Bucket>, cs: seq<Cache>, epoch: nat, memory: map<nat, nat>, s: State,
                    maxAlign: nat)
    requires Represents(bs, cs, epoch, memory, s, maxAlign)
    ensures |bs| == BUCKETS && |s.lists| == |cs| + 1 && CachesOk(cs, epoch)
    ensures forall o :: 0 <= o < |s.lists| ==> |s.lists[o]| == BUCKETS
  {
    hide Inv, Linked;
  }

  lemma ScalarsRepresented(bs: seq<Bucket>, cs: seq<Cache>, epoch: nat, memory: map<nat, nat>, s: State,
                           maxAlign: nat)
    requires Represents(bs, cs, epoch, memory, s, maxAlign)
    ensures s.used <= s.committed <= s.size && |bs| == BUCKETS == |s.grow|
    ensures |s.lists| == |cs| + 1 && |s.lists[SHARED]| == BUCKETS
    ensures forall b :: 0 <= b < BUCKETS ==> bs[b].grow == s.grow[b]
    ensures Settled(s) && |s.growing| == BUCKETS && Bounded(s, maxAlign)
  {
    hide AllLinked, Laid, Grown, Spent, ChunksFit;
  }

  lemma AddRow(s: State, b: nat, a: nat)
    requires HasList(s, SHARED, b)
    ensures var s' := Add(s, b, a);
            && HasList(s', SHARED, b) && |s'.lists[SHARED][b]| == |s.lists[SHARED][b]| + 1
            && OnlyRows(s.lists, s'.lists, SHARED, SHARED, b)
            && s' == s.(lists := s'.lists, blocks := s'.blocks)
  {
  }

  /** Taking the head of its own list changes one list of one thread. */
  lemma PopRow(s: State, o: nat, b: nat)
    requires CanPop(s, o, b)
    ensures var s' := Pop(s, o, b);
            && HasList(s', o, b) && s'.lists[o][b] == s.lists[o][b][1..]
            && OnlyRows(s.lists, s'.lists, o, o, b) && s' == s.(lists := s'.lists, blocks := s'.blocks)
  {
    ListSet(s, o, b, s.lists[o][b][1..]);
  }

  lemma PushRow(s: State, o: nat, b: nat, a: nat)
    requires CanPush(s, o, b, a)
    ensures var s' := Push(s, o, b, a);
            && HasList(s', o, b) && s'.lists[o][b] == [a] + s.lists[o][b]
            && OnlyRows(s.lists, s'.lists, o, o, b) && s' == s.(lists := s'.lists, blocks := s'.blocks)
  {
    var l := [a] + s.lists[o][b];
    ListSet(s, o, b, l);
    assert Push(s, o, b, a) == SetList(s, o, b, l).(blocks := s.blocks[a := Block(b, In(o))]);
    assert Push(s, o, b, a).lists == s.lists[o := s.lists[o][b := l]];
  }

  /** Replacing one list. */
  lemma ListSet(s: State, o: nat, b: nat, l: seq<nat>)
    requires HasList(s, o, b)
    ensures var lists := s.lists[o := s.lists[o][b := l]];
            |lists[o]| == |s.lists[o]| && lists[o][b] == l && OnlyRows(s.lists, lists, o, o, b)
  {
    var row: seq<seq<nat>> := s.lists[o][b := l];
    assert row[b] == l;
  }

  /** With the count of the changed list set right, all counts are right. */
  lemma CountsFollow(cs: seq<Cache>, cs': seq<Cache>, epoch: nat, lists: seq<seq<seq<nat>>>,
                     lists': seq<seq<seq<nat>>>, t: nat, b: nat)
    requires CountsOk(cs, epoch, lists) && CachesOk(cs, epoch) && |lists| == |cs| + 1
    requires t < |cs| == |cs'| && b < BUCKETS && cs[t].epoch == cs'[t].epoch == epoch
    requires forall u :: 0 <= u < |cs| && u != t ==> cs'[u] == cs[u]
    requires |cs'[t].counts| == BUCKETS
    requires forall c :: 0 <= c < BUCKETS && c != b ==> cs'[t].counts[c] == cs[t].counts[c]
    requires OnlyRows(lists, lists', SHARED, t + 1, b) && b < |lists'[t + 1]|
    requires cs'[t].counts[b] == |lists'[t + 1][b]| < LOCAL_MAX
    ensures CountsOk(cs', epoch, lists')
  {
    forall u, c | 0 <= u < |cs'| && 0 <= c < |cs'[u].counts| && u + 1 < |lists'| && c < |lists'[u + 1]|
                  && cs'[u].epoch == epoch
      ensures cs'[u].counts[c] == |lists'[u + 1][c]| < LOCAL_MAX
    {
      if u != t || c != b {
        assert |lists'[u + 1]| == |lists[u + 1]| && lists'[u + 1][c] == lists[u + 1][c];
        assert cs'[u].counts[c] == cs[u].counts[c];
      }
    }
  }

  /** As `CountsOk`, except that the list of thread `t` for bucket `b` may have reached 64. */
  ghost predicate CountsWithin(cs: seq<Cache>, epoch: nat, lists: seq<seq<seq<nat>>>, t: nat, b: nat) {
    forall u, c :: 0 <= u < |cs| && 0 <= c < |cs[u].counts| && u + 1 < |lists| && c < |lists[u + 1]|
                   && cs[u].epoch == epoch ==>
      && cs[u].counts[c] == |lists[u + 1][c]|
      && (if u == t && c == b then |lists[u + 1][c]| <= LOCAL_MAX else |lists[u + 1][c]| < LOCAL_MAX)
  }

  lemma WithinCount(cs: seq<Cache>, epoch: nat, lists: seq<seq<seq<nat>>>, t: nat, b: nat)
    requires CountsWithin(cs, epoch, lists, t, b) && CachesOk(cs, epoch) && |lists| == |cs| + 1
    requires t < |cs| && cs[t].epoch == epoch && b < BUCKETS && b < |lists[t + 1]|
    ensures cs[t].counts[b] == |lists[t + 1][b]| <= LOCAL_MAX
  {
  }

  lemma CountsBack(cs: seq<Cache>, epoch: nat, lists: seq<seq<seq<nat>>>, t: nat, b: nat)
    requires CountsWithin(cs, epoch, lists, t, b) && |lists| == |cs| + 1
    requires t < |cs| && b < |lists[t + 1]|
    ensures |lists[t + 1][b]| < LOCAL_MAX ==> CountsOk(cs, epoch, lists)
  {
  }

  lemma CountsReach(cs: seq<Cache>, cs': seq<Cache>, epoch: nat, lists: seq<seq<seq<nat>>>,
                    lists': seq<seq<seq<nat>>>, t: nat, b: nat)
    requires CountsOk(cs, epoch, lists) && CachesOk(cs, epoch) && |lists| == |cs| + 1
    requires t < |cs| == |cs'| && b < BUCKETS && cs[t].epoch == cs'[t].epoch == epoch
    requires forall u :: 0 <= u < |cs| && u != t ==> cs'[u] == cs[u]
    requires |cs'[t].counts| == BUCKETS
    requires forall c :: 0 <= c < BUCKETS && c != b ==> cs'[t].counts[c] == cs[t].counts[c]
    requires OnlyRows(lists, lists', t + 1, t + 1, b) && b < |lists'[t + 1]|
    requires cs'[t].counts[b] == |lists'[t + 1][b]| <= LOCAL_MAX
    ensures CountsWithin(cs', epoch, lists', t, b)
  {
  }

  lemma CountsStay(cs: seq<Cache>, cs': seq<Cache>, epoch: nat, lists: seq<seq<seq<nat>>>,
                   lists': seq<seq<seq<nat>>>, t: nat, b: nat)
    requires CountsWithin(cs, epoch, lists, t, b) && CachesOk(cs, epoch) && |lists| == |cs| + 1
    requires t < |cs| == |cs'| && b < BUCKETS && cs[t].epoch == cs'[t].epoch == epoch
    requires forall u :: 0 <= u < |cs| && u != t ==> cs'[u] == cs[u]
    requires |cs'[t].counts| == BUCKETS
    requires forall c :: 0 <= c < BUCKETS && c != b ==> cs'[t].counts[c] == cs[t].counts[c]
    requires OnlyRows(lists, lists', t + 1, SHARED, b) && b < |lists'[t + 1]|
    requires cs'[t].counts[b] == |lists'[t + 1][b]| <= LOCAL_MAX
    ensures CountsWithin(cs', epoch, lists', t, b)
  {
  }

  lemma CountOf(cs: seq<Cache>, epoch: nat, lists: seq<seq<seq<nat>>>, t: nat, b: nat)
    requires CountsOk(cs, epoch, lists) && CachesOk(cs, epoch) && |lists| == |cs| + 1
    requires t < |cs| && cs[t].epoch == epoch && b < BUCKETS && b < |lists[t + 1]|
    ensures cs[t].counts[b] == |lists[t + 1][b]| < LOCAL_MAX
  {
  }

  lemma RowsCompose(x: seq<seq<seq<nat>>>, y: seq<seq<seq<nat>>>, z: seq<seq<seq<nat>>>,
                    o: nat, o': nat, p: nat, p': nat, b: nat, t: nat)
    requires OnlyRows(x, y, o, o', b) && OnlyRows(y, z, p, p', b)
    requires {o, o', p, p'} <= {SHARED, t + 1}
    ensures OnlyRows(x, z, SHARED, t + 1, b)
  {
    assert o in {o, o', p, p'} && o' in {o, o', p, p'} && p in {o, o', p, p'} && p' in {o, o', p, p'};
  }

  /** The steps of `ArenaState` that an allocation is made of. */
  ghost function AllocationSteps(s: State, t: nat, b: nat, commits: bool): seq<Action> {
    if !ListEmpty(s, t + 1, b) then [Action.Allocate(t, b)]
    else if !ListEmpty(MoveMany(s, SHARED, t + 1, b, LOCAL_REFILL), t + 1, b)
    then [Action.Refill(t, b), Action.Allocate(t, b)]
    else [Action.Refill(t, b), Action.ReserveChunk(b, commits), Action.LinkChunk(b), Action.Refill(t, b),
          Action.Allocate(t, b)]
  }

  ghost function FreeSteps(s: State, t: nat, b: nat, a: nat): seq<Action> {
    if !CanPush(s, t + 1, b, a) then []
    else if |Push(s, t + 1, b, a).lists[t + 1][b]| < LOCAL_MAX then [Action.Free(t, a)]
    else [Action.Free(t, a), Action.Flush(t, b)]
  }

  /** Calls are runs of the steps between which other threads may come. */
  lemma CallsAreRuns(s: State, t: nat, b: nat, commits: bool, a: nat, maxAlign: nat)
    requires 0 < maxAlign && Settled(s)
    ensures Run(s, AllocationSteps(s, t, b, commits), maxAlign) == Allocated(s, t, b, commits, maxAlign)
    ensures Run(s, FreeSteps(s, t, b, a), maxAlign) == Freed(s, t, b, a)
  {
    hide MoveMany, Reserve, Link, Push, Pop;
    MovesSettled(s, SHARED, t + 1, b, LOCAL_REFILL);
    GrowSettled(MoveMany(s, SHARED, t + 1, b, LOCAL_REFILL), b, commits, maxAlign);
    RunPrefix(s, AllocationSteps(s, t, b, commits), maxAlign);
    RunPrefix(s, FreeSteps(s, t, b, a), maxAlign);
    if CanPush(s, t + 1, b, a) {
      PushRow(s, t + 1, b, a);
    }
  }

  lemma {:induction false} MovesSettled(s: State, from: nat, to: nat, b: nat, n: nat)
    requires Settled(s)
    ensures Settled(MoveMany(s, from, to, b, n)) && MoveMany(s, from, to, b, n).growing == s.growing
    decreases n
  {
    if n != 0 && CanPop(s, from, b) {
      MovesSettled(Move(s, from, to, b), from, to, b, n - 1);
    }
  }

  lemma GrowSettled(s: State, b: nat, commits: bool, maxAlign: nat)
    requires 0 < maxAlign && Settled(s)
    ensures Settled(Grow(s, b, commits, maxAlign))
  {
    hide PlanGrowth, Carve, BucketSizeFor, BucketReqSize;
  }

  ghost function TwoSteps(s: State, a: Action, a': Action, maxAlign: nat): State
    requires 0 < maxAlign
  {
    Step(Step(s, a, maxAlign), a', maxAlign)
  }

  /** Runs of one, two and five steps, spelled out. */
  lemma RunPrefix(s: State, steps: seq<Action>, maxAlign: nat)
    requires 0 < maxAlign && |steps| <= 5
    ensures |steps| == 0 ==> Run(s, steps, maxAlign) == s
    ensures |steps| == 1 ==> Run(s, steps, maxAlign) == Step(s, steps[0], maxAlign)
    ensures |steps| == 2 ==> Run(s, steps, maxAlign) == TwoSteps(s, steps[0], steps[1], maxAlign)
    ensures |steps| == 3 ==>
              Run(s, steps, maxAlign) == Step(TwoSteps(s, steps[0], steps[1], maxAlign), steps[2], maxAlign)
    ensures var run := Run(s, steps, maxAlign);
            |steps| == 5 ==>
              run == TwoSteps(Step(TwoSteps(s, steps[0], steps[1], maxAlign), steps[2], maxAlign),
                              steps[3], steps[4], maxAlign)
    decreases |steps|
  {
    hide Step;
    if 1 <= |steps| {
      RunPrefix(Step(s, steps[0], maxAlign), steps[1..], maxAlign);
      if 2 <= |steps| {
        RunPrefix(TwoSteps(s, steps[0], steps[1], maxAlign), steps[2..], maxAlign);
        assert steps[1..][1..] == steps[2..];
      }
    }
  }

  class ArenaHeap {
    const alignBits: nat
    var base: nat
    var size: nat
    var used: nat
    var committed: nat
    var epoch: nat
    var vmBacked: bool
    const buckets: array<Bucket>
    const caches: array<Cache>
    var memory: map<nat, nat>
    ghost var state: State

    function MaxAlign(): (a: nat)
      ensures 0 < a
    {
      Pow2(alignBits)
    }

    ghost predicate Shows()
      reads this
    {
      && state.base == base && state.size == size && state.used == used
      && state.committed == committed && state.vmBacked == vmBacked
    }

    ghost predicate ListsFit()
      reads this, buckets, caches
    {
      Shows() && Represents(buckets[..], caches[..], epoch, memory, state, MaxAlign())
    }

    ghost predicate Valid()
      reads this, buckets, caches
    {
      ListsFit() && CountsOk(caches[..], epoch, state.lists)
    }

    constructor (alignBits: nat, threads: nat)
      ensures Valid() && this.alignBits == alignBits && caches.Length == threads
      ensures state == Fresh(threads)
      ensures fresh(buckets) && fresh(caches)
    {
      this.alignBits := alignBits;
      base, size, used, committed, epoch, vmBacked := 0, 0, 0, 0, 1, false;
      buckets := new Bucket[BUCKETS](_ => Bucket(NULL, 0));
      caches := new Cache[threads](_ => Cache(0, Zeros(), Zeros()));
      memory := map[];
      state := Fresh(threads);
      new;
      EmptyRepresents(buckets[..], caches[..], epoch, memory, 0, 0, 0, false, MaxAlign());
    }

    /** Ends an epoch: nothing that was handed out or cached before is known any more. */
    method Reset()
      requires Valid()
      modifies this, buckets
      ensures Valid() && epoch == old(epoch) + 1
      ensures state == Step(old(state), Action.Reset, MaxAlign())
      ensures base == size == used == committed == 0 && !vmBacked
      ensures forall b :: 0 <= b < buckets.Length ==> buckets[b] == Bucket(NULL, 0)
    {
      hide Inv, AllLinked;
      epoch := epoch + 1;
      base, size, used, committed, vmBacked := 0, 0, 0, 0, false;
      for i := 0 to BUCKETS
        invariant forall b :: 0 <= b < i ==> buckets[b] == Bucket(NULL, 0)
        modifies buckets
      {
        buckets[i] := Bucket(NULL, 0);
      }
      state := Empty(0, 0, 0, false, |state.lists|);
      EmptyRepresents(buckets[..], caches[..], epoch, memory, 0, 0, 0, false, MaxAlign());
    }

    /** A region that is committed from the start. */
    method InitFixed(base: nat, size: nat)
      requires Valid()
      modifies this, buckets
      ensures Valid() && epoch == old(epoch) + 1
      ensures state == Step(old(state), Action.InitFixed(base, size), MaxAlign())
      ensures this.base == base && this.size == committed == size && used == 0 && !vmBacked
    {
      hide Inv, AllLinked;
      Reset();
      this.base, this.size, used, committed, vmBacked := base, size, 0, size, false;
      state := Empty(base, size, size, false, |state.lists|);
      SetUp();
    }

    /** A reserved region of which a first part is committed. */
    method InitVm(base: nat, reserved: nat, committed: nat)
      requires Valid() && committed <= reserved
      modifies this, buckets
      ensures Valid() && epoch == old(epoch) + 1
      ensures state == Step(old(state), Action.InitVm(base, reserved, committed), MaxAlign())
      ensures this.base == base && size == reserved && this.committed == committed && used == 0 && vmBacked
    {
      hide Inv, AllLinked;
      Reset();
      this.base, size, used, this.committed, vmBacked := base, reserved, 0, committed, true;
      state := Empty(base, reserved, committed, true, |state.lists|);
      SetUp();
    }

    lemma SetUp()
      requires Shows() && committed <= size && state == Empty(base, size, committed, vmBacked, caches.Length + 1)
      requires buckets.Length == BUCKETS && CachesOk(caches[..], epoch)
      requires forall b :: 0 <= b < buckets.Length ==> buckets[b] == Bucket(NULL, 0)
      requires forall t :: 0 <= t < caches.Length ==> caches[t].epoch != epoch
      ensures Valid()
    {
      hide Inv, AllLinked;
      EmptyRepresents(buckets[..], caches[..], epoch, memory, base, size, committed, vmBacked, MaxAlign());
    }

    /** Access to a thread's cache; one left from an earlier epoch is emptied first. */
    method Touch(t: nat)
      requires Valid() && t < caches.Length
      modifies caches
      ensures Valid() && caches[t].epoch == epoch
    {
      hide Inv, AllLinked, Represents;
      if caches[t].epoch != epoch {
        ghost var cs := caches[..];
        TouchRepresents(buckets[..], cs, epoch, memory, state, MaxAlign(), t);
        StaleIsEmpty(buckets[..], cs, epoch, memory, state, MaxAlign(), t);
        caches[t] := Cache(epoch, Zeros(), Zeros());
        assert caches[..] == cs[t := Cache(epoch, Zeros(), Zeros())];
      }
    }

    /** Moves up to 32 blocks from the shared list to the thread's, under the bucket lock. */
    method Refill(t: nat, b: nat) returns (moved: nat)
      requires ListsFit() && t < caches.Length && b < BUCKETS && caches[t].epoch == epoch
      modifies this`memory, this`state, buckets, caches
      ensures ListsFit() && caches[t].epoch == epoch
      ensures state == MoveMany(old(state), SHARED, t + 1, b, LOCAL_REFILL)
      ensures HasList(old(state), SHARED, b) && HasList(old(state), t + 1, b) && HasList(state, t + 1, b)
      ensures moved <= LOCAL_REFILL && |state.lists[t + 1][b]| == |old(state).lists[t + 1][b]| + moved
      ensures moved == 0 <==> old(state).lists[SHARED][b] == []
      ensures HeadsOnly(old(caches[..]), caches[..], t)
      ensures OnlyRows(old(state).lists, state.lists, SHARED, t + 1, b)
    {
      hide Represents, Inv, Move;
      SharedList(buckets[..], caches[..], epoch, memory, state, MaxAlign(), b);
      CacheList(buckets[..], caches[..], epoch, memory, state, MaxAlign(), t, b);
      var node := buckets[b].freeList;
      moved := 0;
      while node != NULL && moved < LOCAL_REFILL
        decreases LOCAL_REFILL - moved
        invariant moved <= LOCAL_REFILL && buckets.Length == BUCKETS && node == buckets[b].freeList
        invariant ListsFit() && caches[t].epoch == epoch
        invariant MoveMany(state, SHARED, t + 1, b, LOCAL_REFILL - moved)
               == MoveMany(old(state), SHARED, t + 1, b, LOCAL_REFILL)
        invariant HasList(state, SHARED, b) && HasList(state, t + 1, b)
        invariant |state.lists[t + 1][b]| == |old(state).lists[t + 1][b]| + moved
        invariant moved == 0 ==> state == old(state)
        invariant moved != 0 ==> old(state).lists[SHARED][b] != []
        invariant node == NULL <==> state.lists[SHARED][b] == []
        invariant HeadsOnly(old(caches[..]), caches[..], t)
        invariant OnlyRows(old(state).lists, state.lists, SHARED, t + 1, b)
      {
        ghost var bs, cs := buckets[..], caches[..];
        RefillRepresents(bs, cs, epoch, memory, state, MaxAlign(), t, b);
        var next := memory[node];
        buckets[b] := buckets[b].(freeList := next);
        memory := memory[node := caches[t].heads[b]];
        caches[t] := caches[t].(heads := caches[t].heads[b := node]);
        assert buckets[..] == bs[b := bs[b].(freeList := next)];
        assert caches[..] == cs[t := WithHead(cs[t], b, node)];
        state := Move(state, SHARED, t + 1, b);
        node := next;
        moved := moved + 1;
        SharedList(buckets[..], caches[..], epoch, memory, state, MaxAlign(), b);
      }
    }

    /** Takes the next stretch for `wanted` blocks, or for as many as fit, committing pages by
        doubling; the section under the arena lock. `commits` is the answer of the system. */
    method TakeChunk(blockSize: nat, grown: nat, commits: bool) returns (chunk: nat, count: nat)
      requires Shows() && 0 < blockSize && used <= committed <= size
      modifies `used, `committed
      ensures var plan := PlanGrowth(state, blockSize, grown, commits, MaxAlign());
              && count == plan.count && used == plan.used && committed == plan.committed
              && (count != 0 ==> chunk == plan.start)
    {
      hide AlignUp, CommitTarget, Pow2;
      AlignUpMeaning(base + used, alignBits);
      var cursor := AlignUp(base + used, MaxAlign());
      var off := cursor - base;
      var available := if off < size then size - off else 0;
      count := Fitting(available, blockSize, GrowCount(grown));
      chunk := NULL;
      if count != 0 {
        var required := off + Bytes(count, blockSize);
        CommitFor(required, commits);
        if required <= committed {
          chunk := cursor;
          used := required;
        } else {
          count := 0;
        }
      }
    }

    /** Commits what doubling reaches, if that is enough and the system agrees. */
    method CommitFor(required: nat, commits: bool)
      modifies `committed
      ensures committed == if old(committed) < required && vmBacked && commits
                              && required <= CommitTarget(old(committed), required, size)
                           then CommitTarget(old(committed), required, size) else old(committed)
    {
      hide CommitTarget;
      if committed < required && vmBacked {
        var target := Doubled(committed, required);
        if required <= target && commits {
          committed := target;
        }
      }
    }

    /** The commit size that doubling reaches. */
    method Doubled(start: nat, required: nat) returns (target: nat)
      ensures target == CommitTarget(start, required, size)
    {
      target := start;
      while target < required
        invariant CommitTarget(target, required, size) == CommitTarget(start, required, size)
        decreases if target < size then size - target else 0
      {
        var next := if target <= size / 2 then target * 2 else size;
        if next <= target {
          break;
        }
        target := next;
      }
    }

    /** Cuts new blocks for a bucket whose shared list is empty. */
    method GrowBucket(b: nat, commits: bool) returns (ok: bool)
      requires ListsFit() && base != 0
      modifies this`memory, this`state, this`used, this`committed, buckets
      ensures ListsFit()
      ensures state == Grow(old(state), b, commits, MaxAlign())
      ensures ok <==> b <= LAST_BUCKET
                      && (!ListEmpty(old(state), SHARED, b) || CanGrow(old(state), b, commits, MaxAlign()))
      ensures ok ==> HasList(state, SHARED, b) && state.lists[SHARED][b] != []
      ensures !ok ==> state == old(state)
      ensures OnlyRows(old(state).lists, state.lists, SHARED, SHARED, b)
      ensures Settled(state)
    {
      hide Represents, Inv, Bounded, Grow, Carve, PlanGrowth, BucketSizeFor, BucketReqSize, Add, Placed, Clear, Pow2,
        Grown, Spent, GrowCount;
      ghost var was := state;
      ScalarsRepresented(buckets[..], caches[..], epoch, memory, state, MaxAlign());
      if BUCKETS <= b {
        OutOfRange(was, b, commits, MaxAlign());
        return false;
      }
      GrowUnfolded(was, b, commits, MaxAlign());
      GrowSize(b);
      var blockSize := BucketSizeFor(BucketReqSize(b));
      if blockSize == 0 {
        return false;
      }
      SharedList(buckets[..], caches[..], epoch, memory, state, MaxAlign(), b);
      if buckets[b].freeList != NULL {
        return true;
      }
      BoundedUse(state, MaxAlign());
      PlanMeaning(state, blockSize, buckets[b].grow, commits, alignBits);
      var chunk, count := TakeChunk(blockSize, buckets[b].grow, commits);
      if count == 0 {
        return false;
      }
      GrownNext(was, b, count, chunk, used, blockSize, alignBits);
      UsedRepresents(buckets[..], caches[..], epoch, memory, state, alignBits, used, committed);
      state := state.(used := used, committed := committed);
      CutBlocks(b, chunk, count, blockSize);
      GrowRepresents(buckets[..], caches[..], epoch, memory, state, MaxAlign(), b, count);
      ghost var bs := buckets[..];
      buckets[b] := buckets[b].(grow := count);
      assert buckets[..] == bs[b := bs[b].(grow := count)];
      state := state.(grow := state.grow[b := count]);
      ok := true;
    }

    /** Links one new block into the shared list. */
    method LinkNew(b: nat, node: nat)
      requires ListsFit() && Placed(node, b, base, used, MaxAlign())
      requires Clear(state.blocks, node, node + BucketReqSize(b))
      modifies this`memory, this`state, buckets
      ensures ListsFit() && HasList(old(state), SHARED, b) && HasList(state, SHARED, b)
      ensures state == Add(old(state), b, node)
      ensures OnlyRows(old(state).lists, state.lists, SHARED, SHARED, b)
      ensures |state.lists[SHARED][b]| == |old(state).lists[SHARED][b]| + 1
      ensures forall c :: 0 <= c < buckets.Length ==> buckets[c].grow == old(buckets[c].grow)
    {
      hide Represents, Inv, Add, BucketReqSize, Placed, Clear, Pow2;
      ghost var bs := buckets[..];
      AddShared(bs, caches[..], epoch, memory, state, MaxAlign(), b, node);
      AddRow(state, b, node);
      memory := memory[node := buckets[b].freeList];
      buckets[b] := buckets[b].(freeList := node);
      assert buckets[..] == bs[b := bs[b].(freeList := node)];
      state := Add(state, b, node);
    }

    /** Links the blocks of a chunk into the shared list, one after the other. */
    method CutBlocks(b: nat, chunk: nat, count: nat, blockSize: nat)
      requires ListsFit() && 0 < base <= chunk && b <= LAST_BUCKET && blockSize == BucketReqSize(b)
      requires Clear(state.blocks, chunk, chunk + count * blockSize) && chunk % MaxAlign() == 0
      requires chunk + count * blockSize <= base + used
      modifies this`memory, this`state, buckets
      ensures ListsFit() && HasList(old(state), SHARED, b)
      ensures state == Carve(old(state), b, chunk, count)
      ensures OnlyRows(old(state).lists, state.lists, SHARED, SHARED, b)
      ensures |state.lists[SHARED][b]| == |old(state).lists[SHARED][b]| + count
      ensures forall c :: 0 <= c < buckets.Length ==> buckets[c].grow == old(buckets[c].grow)
    {
      hide Represents, Inv, Bounded, Add, BucketReqSize, Placed, Clear, Apart, Settled, Pow2;
      ghost var was := state;
      ScalarsRepresented(buckets[..], caches[..], epoch, memory, state, MaxAlign());
      SettledApart(was, chunk, chunk + count * blockSize);
      for i := 0 to count
        invariant ListsFit() && buckets.Length == BUCKETS && |state.lists| == caches.Length + 1
        invariant HasList(state, SHARED, b) && state == Carve(old(state), b, chunk, i)
        invariant Clear(state.blocks, chunk + i * blockSize, chunk + count * blockSize)
        invariant OnlyRows(old(state).lists, state.lists, SHARED, SHARED, b)
        invariant |state.lists[SHARED][b]| == |old(state).lists[SHARED][b]| + i
        invariant forall c :: 0 <= c < BUCKETS ==> buckets[c].grow == old(buckets[c].grow)
      {
        var node := chunk + i * blockSize;
        InvHolds(buckets[..], caches[..], epoch, memory, state, MaxAlign());
        NextBlock(was, state, b, chunk, i, count, alignBits);
        LinkNew(b, node);
      }
    }

    /** Fills the empty list of the thread, growing the bucket if nothing is shared either. */
    method Fill(t: nat, b: nat, commits: bool) returns (moved: nat)
      requires ListsFit() && t < caches.Length && b < BUCKETS && caches[t].epoch == epoch && base != 0
      requires ListEmpty(state, t + 1, b)
      modifies this`memory, this`state, this`used, this`committed, buckets, caches
      ensures ListsFit() && caches[t].epoch == epoch && HasList(state, t + 1, b)
      ensures state == Filled(old(state), t, b, commits, MaxAlign())
      ensures moved == |state.lists[t + 1][b]| <= LOCAL_REFILL
      ensures moved == 0 <==>
                ListEmpty(old(state), SHARED, b) && !(b <= LAST_BUCKET && CanGrow(old(state), b, commits, MaxAlign()))
      ensures HeadsOnly(old(caches[..]), caches[..], t)
      ensures OnlyRows(old(state).lists, state.lists, SHARED, t + 1, b)
    {
      hide Represents, Inv, MoveMany, Grow, CanGrow, Pow2;
      ghost var was := state;
      moved := Refill(t, b);
      if moved == 0 {
        NothingMoves(was, t, b, LOCAL_REFILL);
        var ok := GrowBucket(b, commits);
        if !ok {
          return;
        }
        ghost var grown := state;
        CacheList(buckets[..], caches[..], epoch, memory, state, MaxAlign(), t, b);
        moved := Refill(t, b);
        RowsCompose(was.lists, grown.lists, state.lists, SHARED, SHARED, SHARED, t + 1, b, t);
      }
    }

    /** The slow path: fill the thread's list, then take its head. */
    method AllocateSlow(t: nat, b: nat, commits: bool) returns (p: nat)
      requires Valid() && t < caches.Length && b < BUCKETS && caches[t].epoch == epoch && base != 0
      requires ListEmpty(state, t + 1, b)
      modifies this`memory, this`state, this`used, this`committed, buckets, caches
      ensures Valid() && caches[t].epoch == epoch
      ensures state == Allocated(old(state), t, b, commits, MaxAlign())
      ensures p == NULL <==>
                ListEmpty(old(state), SHARED, b) && !(b <= LAST_BUCKET && CanGrow(old(state), b, commits, MaxAlign()))
      ensures p != NULL ==> CanPop(Filled(old(state), t, b, commits, MaxAlign()), t + 1, b)
                            && p == Filled(old(state), t, b, commits, MaxAlign()).lists[t + 1][b][0]
    {
      hide Represents, Inv, Filled, CanGrow, Pow2, CountsOk;
      ScalarsRepresented(buckets[..], caches[..], epoch, memory, state, MaxAlign());
      ghost var was, cs := state, caches[..];
      CachesShape(buckets[..], cs, epoch, memory, state, MaxAlign());
      CacheList(buckets[..], caches[..], epoch, memory, state, MaxAlign(), t, b);
      var moved := Fill(t, b, commits);
      if moved == 0 {
        p := NULL;
        CountOf(cs, epoch, was.lists, t, b);
        CountsFollow(cs, caches[..], epoch, was.lists, state.lists, t, b);
        return;
      }
      SetCount(t, b, moved - 1);
      p := TakeHead(t, b);
      CountsFollow(cs, caches[..], epoch, was.lists, state.lists, t, b);
    }

    method SetCount(t: nat, b: nat, count: nat)
      requires ListsFit() && t < caches.Length && b < BUCKETS && caches[t].epoch == epoch
      modifies caches
      ensures ListsFit() && b < |old(caches[t]).counts|
      ensures caches[..] == old(caches[..])[t := WithCount(old(caches[t]), b, count)]
    {
      hide Represents, Inv;
      CacheList(buckets[..], caches[..], epoch, memory, state, MaxAlign(), t, b);
      ghost var cs := caches[..];
      CountsRepresent(buckets[..], cs, epoch, memory, state, MaxAlign(), t, WithCount(caches[t], b, count).counts);
      caches[t] := WithCount(caches[t], b, count);
      assert caches[..] == cs[t := WithCount(cs[t], b, count)];
      assert WithCount(cs[t], b, count) == cs[t].(counts := WithCount(cs[t], b, count).counts);
    }

    /** Unlinks the head of the thread's own list. */
    method TakeHead(t: nat, b: nat) returns (p: nat)
      requires ListsFit() && t < caches.Length && caches[t].epoch == epoch && CanPop(state, t + 1, b)
      modifies this`state, caches
      ensures ListsFit() && state == Pop(old(state), t + 1, b)
      ensures p == old(state).lists[t + 1][b][0] && p != NULL
      ensures HeadsOnly(old(caches[..]), caches[..], t)
    {
      hide Represents, Inv, Pop;
      ghost var cs := caches[..];
      InRange(buckets[..], cs, epoch, memory, state, MaxAlign(), t + 1, b);
      CacheList(buckets[..], cs, epoch, memory, state, MaxAlign(), t, b);
      PopCache(buckets[..], cs, epoch, memory, state, MaxAlign(), t, b);
      PopRow(state, t + 1, b);
      p := caches[t].heads[b];
      caches[t] := caches[t].(heads := caches[t].heads[b := memory[p]]);
      assert caches[..] == cs[t := WithHead(cs[t], b, memory[p])];
      state := Pop(state, t + 1, b);
    }

    /** Hands out a block of the request's class, from the thread's cache if it has one. Called
        by one thread at a time, it fails on an acceptable request only when the thread and the
        bucket have nothing free and the arena has no room, or no memory, for another block. */
    method Allocate(t: nat, size: nat, align: nat, commits: bool) returns (p: nat)
      requires Valid() && t < caches.Length
      modifies this`memory, this`state, this`used, this`committed, buckets, caches
      ensures Valid()
      ensures Refused(old(base), old(this.size), size, align, MaxAlign()) ==> p == NULL && state == old(state)
      ensures !Refused(old(base), old(this.size), size, align, MaxAlign()) ==>
                var b := RequestBucket(size, align, MaxAlign());
                && state == Allocated(old(state), t, b, commits, MaxAlign())
                && (p == NULL <==>
                      && ListEmpty(old(state), t + 1, b) && ListEmpty(old(state), SHARED, b)
                      && !CanGrow(old(state), b, commits, MaxAlign()))
      ensures p != NULL ==>
                && 0 < align && p % align == 0
                && p in state.blocks && state.blocks[p].place == Out
                && size <= BucketReqSize(state.blocks[p].bucket)
                && !(p in old(state).blocks && old(state).blocks[p].place == Out)
      ensures OutKept(old(state).blocks, state.blocks)
    {
      hide Represents, Inv, CanGrow, Pow2, Filled, CountsOk, BucketReqSize, BucketIndexFor, NormalizedRequestSize;
      if base == 0 || this.size == 0 || size == 0 {
        return NULL;
      }
      var request := NormalizedRequestSize(size, align, MaxAlign());
      RequestPositive(size, align, alignBits);
      if request == 0 {
        return NULL;
      }
      IndexRange(request);
      var b := BucketIndexFor(request);
      if b == INVALID_BUCKET {
        return NULL;
      }
      Touch(t);
      ghost var was := state;
      InvHolds(buckets[..], caches[..], epoch, memory, was, MaxAlign());
      CacheList(buckets[..], caches[..], epoch, memory, was, MaxAlign(), t, b);
      if caches[t].heads[b] != NULL {
        AlreadyFilled(was, t, b, commits, MaxAlign());
        p := TakeCached(t, b);
      } else {
        p := AllocateSlow(t, b, commits);
      }
      if p != NULL {
        AllocatedIsNew(was, t, b, commits, alignBits);
        Suits(state, alignBits, p, size, align);
      }
      AllocatedKeepsOut(was, t, b, commits, alignBits);
    }

    /** The fast path: the head of the thread's own list, and one off its count. */
    method TakeCached(t: nat, b: nat) returns (p: nat)
      requires Valid() && t < caches.Length && caches[t].epoch == epoch && CanPop(state, t + 1, b)
      modifies this`state, caches
      ensures Valid() && state == Pop(old(state), t + 1, b)
      ensures p == old(state).lists[t + 1][b][0] && p != NULL
    {
      hide Represents, Inv, CountsOk, Pop;
      ghost var was, cs := state, caches[..];
      CachesShape(buckets[..], cs, epoch, memory, state, MaxAlign());
      InRange(buckets[..], cs, epoch, memory, state, MaxAlign(), t + 1, b);
      CountOf(cs, epoch, was.lists, t, b);
      p := TakeHead(t, b);
      SetCount(t, b, caches[t].counts[b] - 1);
      PopRow(was, t + 1, b);
      CountsFollow(cs, caches[..], epoch, was.lists, state.lists, t, b);
    }

    /** A caller may write what it likes into a block it holds: blocks have no headers, and
        free lists run through free blocks only. */
    method WriteBlock(a: nat, word: nat)
      requires Valid() && a in state.blocks && state.blocks[a].place == Out
      modifies `memory
      ensures Valid() && memory == old(memory)[a := word]
    {
      hide Linked, Heads;
      OutBlockIsFree(memory, Heads(buckets[..], caches[..], epoch), state, a, word);
      memory := memory[a := word];
    }

    /** Links a block into the thread's own list and counts it. */
    method GiveBack(t: nat, b: nat, a: nat)
      requires Valid() && t < caches.Length && caches[t].epoch == epoch && CanPush(state, t + 1, b, a)
      modifies this`memory, this`state, caches
      ensures ListsFit() && state == Push(old(state), t + 1, b, a) && b < BUCKETS && HasList(state, t + 1, b)
      ensures caches[t].epoch == epoch && CountsWithin(caches[..], epoch, state.lists, t, b)
    {
      hide Represents, Inv, CountsOk, CountsWithin, Push;
      ghost var was, cs := state, caches[..];
      CachesShape(buckets[..], cs, epoch, memory, was, MaxAlign());
      CacheList(buckets[..], cs, epoch, memory, was, MaxAlign(), t, b);
      PushCache(buckets[..], cs, epoch, memory, was, MaxAlign(), t, b, a);
      CountOf(cs, epoch, was.lists, t, b);
      PushRow(was, t + 1, b, a);
      memory := memory[a := caches[t].heads[b]];
      caches[t] := caches[t].(heads := caches[t].heads[b := a]);
      assert caches[..] == cs[t := WithHead(cs[t], b, a)];
      state := Push(state, t + 1, b, a);
      SetCount(t, b, caches[t].counts[b] + 1);
      CountsReach(cs, caches[..], epoch, was.lists, state.lists, t, b);
    }

    /** Hands 32 blocks of a full cache list on to the shared list, under the bucket lock. */
    method FlushCache(t: nat, b: nat)
      requires ListsFit() && t < caches.Length && b < BUCKETS && caches[t].epoch == epoch
      requires HasList(state, t + 1, b) && |state.lists[t + 1][b]| == LOCAL_MAX
      requires CountsWithin(caches[..], epoch, state.lists, t, b)
      modifies this`memory, this`state, buckets, caches
      ensures Valid() && state == MoveMany(old(state), t + 1, SHARED, b, LOCAL_FLUSH)
    {
      hide Represents, Inv, CountsOk, CountsWithin, Move;
      ghost var was := state;
      var moved := 0;
      CachesShape(buckets[..], caches[..], epoch, memory, state, MaxAlign());
      CacheList(buckets[..], caches[..], epoch, memory, state, MaxAlign(), t, b);
      while caches[t].heads[b] != NULL && moved < LOCAL_FLUSH
        decreases LOCAL_FLUSH - moved
        invariant moved <= LOCAL_FLUSH && buckets.Length == BUCKETS && |caches[t].heads| == BUCKETS
        invariant ListsFit() && caches[t].epoch == epoch && HasList(state, t + 1, b)
        invariant |state.lists[t + 1][b]| == LOCAL_MAX - moved
        invariant caches[t].heads[b] == NULL <==> state.lists[t + 1][b] == []
        invariant MoveMany(state, t + 1, SHARED, b, LOCAL_FLUSH - moved)
               == MoveMany(was, t + 1, SHARED, b, LOCAL_FLUSH)
        invariant CountsWithin(caches[..], epoch, state.lists, t, b)
      {
        MoveOut(t, b);
        moved := moved + 1;
      }
      CachesShape(buckets[..], caches[..], epoch, memory, state, MaxAlign());
      CountsBack(caches[..], epoch, state.lists, t, b);
    }

    /** Moves the head of the thread's list to the shared list and counts it off. */
    method MoveOut(t: nat, b: nat)
      requires ListsFit() && t < caches.Length && caches[t].epoch == epoch && CanPop(state, t + 1, b)
      requires CountsWithin(caches[..], epoch, state.lists, t, b)
      modifies this`memory, this`state, buckets, caches
      ensures ListsFit() && buckets.Length == BUCKETS && b < BUCKETS && |caches[t].heads| == BUCKETS
      ensures caches[t].epoch == epoch && HasList(state, t + 1, b)
      ensures state == Move(old(state), t + 1, SHARED, b)
      ensures |state.lists[t + 1][b]| == |old(state).lists[t + 1][b]| - 1
      ensures caches[t].heads[b] == NULL <==> state.lists[t + 1][b] == []
      ensures CountsWithin(caches[..], epoch, state.lists, t, b)
    {
      hide Represents, Inv, CountsWithin, Move;
      ghost var was, bs, cs := state, buckets[..], caches[..];
      CachesShape(bs, cs, epoch, memory, was, MaxAlign());
      InRange(bs, cs, epoch, memory, was, MaxAlign(), t + 1, b);
      CacheList(bs, cs, epoch, memory, was, MaxAlign(), t, b);
      FlushRepresents(bs, cs, epoch, memory, was, MaxAlign(), t, b);
      WithinCount(cs, epoch, was.lists, t, b);
      var node := caches[t].heads[b];
      caches[t] := caches[t].(heads := caches[t].heads[b := memory[node]]);
      memory := memory[node := buckets[b].freeList];
      buckets[b] := buckets[b].(freeList := node);
      assert buckets[..] == bs[b := bs[b].(freeList := node)];
      assert caches[..] == cs[t := WithHead(cs[t], b, caches[t].heads[b])];
      state := Move(state, t + 1, SHARED, b);
      SetCount(t, b, caches[t].counts[b] - 1);
      CountsStay(cs, caches[..], epoch, was.lists, state.lists, t, b);
      CacheList(buckets[..], caches[..], epoch, memory, state, MaxAlign(), t, b);
    }

    /** Takes a block back into the thread's cache, and hands 32 blocks on when it holds 64.
        The caller gives back what it was handed, with a size and alignment of the same class. */
    method Deallocate(t: nat, ptr: nat, size: nat, align: nat)
      requires Valid() && t < caches.Length
      requires !Ignored(base, ptr, size, align, MaxAlign()) ==>
                 CanPush(state, t + 1, RequestBucket(size, align, MaxAlign()), ptr)
      modifies this`memory, this`state, buckets, caches
      ensures Valid()
      ensures state == if Ignored(base, ptr, size, align, MaxAlign()) then old(state)
                       else Freed(old(state), t, RequestBucket(size, align, MaxAlign()), ptr)
    {
      hide Represents, Inv, Pow2, CountsOk, BucketReqSize, BucketIndexFor, NormalizedRequestSize, Push, Pop;
      if ptr == NULL || base == 0 {
        return;
      }
      var request := NormalizedRequestSize(size, align, MaxAlign());
      if request == 0 {
        return;
      }
      RequestPositive(size, align, alignBits);
      IndexRange(request);
      var b := BucketIndexFor(request);
      if b == INVALID_BUCKET {
        return;
      }
      Touch(t);
      ghost var was := state;
      InvHolds(buckets[..], caches[..], epoch, memory, was, MaxAlign());
      GiveBack(t, b, ptr);
      ghost var cached := state;
      CachesShape(buckets[..], caches[..], epoch, memory, cached, MaxAlign());
      WithinCount(caches[..], epoch, cached.lists, t, b);
      CountsBack(caches[..], epoch, cached.lists, t, b);
      if caches[t].counts[b] < LOCAL_MAX {
        return;
      }
      FlushCache(t, b);
    }
  }
}
