/** What the heap's operations mean for a caller: which requests it serves and from which class,
    which blocks move where, when a heap that was just set up can grow, and that a released block
    comes back. */
module ArenaCallers {
  import opened RingIndex
  import opened SizeClass
  import opened ArenaState
  import opened ArenaHeap

  // ----- requests -----

  /** A request the heap can serve: at most 1 MiB, at a power-of-two alignment of at most that. */
  ghost predicate Servable(size: nat, align: nat, maxAlign: nat) {
    && 0 < align <= maxAlign && align == Pow2(HighestBit(align))
    && align <= MAX_BLOCK && size <= MAX_BLOCK
  }

  lemma NormalizedServable(size: nat, align: nat, maxAlign: nat)
    requires 0 < size
    ensures var r := NormalizedRequestSize(size, align, maxAlign);
            0 < r <= MAX_BLOCK <==> Servable(size, align, maxAlign)
  {
    hide Pow2, HighestBit, NormalizedRequestSize;
    NormalizedMeaning(size, align, maxAlign);
    var r := NormalizedRequestSize(size, align, maxAlign);
    if r != 0 {
      var k := HighestBit(align);
      SmallestMultiple(r, align);
      if align <= MAX_BLOCK && size <= MAX_BLOCK {
        Literals();
        if 20 < k {
          PowerMonotone(21, k);
        }
        PowerDivides(k, 20);
        assert MAX_BLOCK % align == 0;
      }
    }
  }

  lemma SmallestMultiple(r: int, d: nat)
    requires 0 < r && 0 < d && r % d == 0
    ensures d <= r
  {
  }

  /** `allocate` turns away exactly a heap that is not set up, an empty request, and what is not
      servable. */
  lemma RefusedMeaning(base: nat, heapSize: nat, size: nat, align: nat, e: nat)
    ensures Refused(base, heapSize, size, align, Pow2(e))
       <==> base == 0 || heapSize == 0 || size == 0 || !Servable(size, align, Pow2(e))
  {
    hide Pow2, HighestBit, NormalizedRequestSize, Servable;
    if 0 < size {
      NormalizedServable(size, align, Pow2(e));
      RequestPositive(size, align, e);
    }
  }

  /** `deallocate` passes over exactly null, a heap that is not set up, and what is not servable; a
      size of 0 counts as the smallest, at any alignment the heap knows. */
  lemma IgnoredMeaning(base: nat, ptr: nat, size: nat, align: nat, e: nat)
    ensures 0 < size ==>
              (Ignored(base, ptr, size, align, Pow2(e))
               <==> ptr == NULL || base == 0 || !Servable(size, align, Pow2(e)))
    ensures size == 0 ==>
              (Ignored(base, ptr, size, align, Pow2(e))
               <==> ptr == NULL || base == 0
                    || !(0 < align <= Pow2(e) && align <= SIZE_MAX + 1 && align == Pow2(HighestBit(align))))
  {
    if size == 0 && 0 < align {
      AndSelf(align - 1);
      PowerTest(align);
    }
    if 0 < size {
      hide Pow2, HighestBit, NormalizedRequestSize, Servable;
      NormalizedServable(size, align, Pow2(e));
      RequestPositive(size, align, e);
    }
  }

  /** A request goes to the least class whose blocks hold it and are a multiple of its alignment. */
  lemma RequestBucketMeaning(size: nat, align: nat, e: nat, c: nat)
    requires 0 < size && Servable(size, align, Pow2(e))
    ensures var b := RequestBucket(size, align, Pow2(e));
            && b <= LAST_BUCKET
            && size <= BucketReqSize(b) && BucketReqSize(b) % align == 0
            && (size <= BucketReqSize(c) && BucketReqSize(c) % align == 0 ==> b <= c)
  {
    hide Pow2, HighestBit, NormalizedRequestSize, BucketReqSize, BucketIndexFor;
    NormalizedMeaning(size, align, Pow2(e));
    NormalizedServable(size, align, Pow2(e));
    var r := NormalizedRequestSize(size, align, Pow2(e));
    IndexIsLeast(r);
    ClassKeepsAlignment(r, HighestBit(align));
    var b := BucketIndexFor(r);
    if size <= BucketReqSize(c) && BucketReqSize(c) % align == 0 {
      SizePositive(c);
      assert r <= BucketReqSize(c);
      if c < b {
        ReqSizeMonotone(c, b - 1);
      }
    }
  }

  // ----- setting up -----

  /** Nothing is used, no block exists, and no list holds anything. */
  ghost predicate Untouched(s: State) {
    && s.used == 0 && s.blocks == map[]
    && (forall o, b :: 0 <= o < |s.lists| && 0 <= b < |s.lists[o]| ==> s.lists[o][b] == [])
  }

  /** The first stretch of a region that suits every alignment holds a block of the class. */
  ghost predicate OneBlockFits(base: nat, size: nat, b: nat, maxAlign: nat)
    requires 0 < maxAlign
  {
    AlignUp(base, maxAlign) + BucketReqSize(b) <= base + size
  }

  /** When a bucket can grow: a block fits behind the used part, and what is taken is committed or
      can be. */
  lemma CanGrowMeaning(s: State, b: nat, commits: bool, e: nat)
    requires s.used <= s.committed <= s.size && b < |s.grow|
    ensures var start := AlignUp(s.base + s.used, Pow2(e));
            var size := BucketReqSize(b);
            && 0 < size
            && (CanGrow(s, b, commits, Pow2(e)) <==>
                  && b <= LAST_BUCKET && start + size <= s.base + s.size
                  && ((s.vmBacked && commits && 0 < s.committed)
                      || start + Fitting(s.base + s.size - start, size, GrowCount(s.grow[b])) * size
                         <= s.base + s.committed))
  {
    hide Pow2, AlignUp, BucketReqSize, PlanGrowth, Fitting, GrowCount;
    SizePositive(b);
    PlanMeaning(s, BucketReqSize(b), s.grow[b], commits, e);
  }

  /** A reserved region of which a first part is committed: nothing is used, and with the system
      committing, a bucket can grow exactly when one block of its class fits the region. */
  lemma VmHeapGrows(s: State, base: nat, reserved: nat, committed: nat, b: nat, e: nat)
    requires committed <= reserved
    ensures 0 < BucketReqSize(b)
    ensures var vm := Step(s, Action.InitVm(base, reserved, committed), Pow2(e));
            && Untouched(vm) && |vm.lists| == |s.lists|
            && vm.base == base && vm.size == reserved && vm.committed == committed
            && (0 < committed ==>
                  (CanGrow(vm, b, true, Pow2(e)) <==> b <= LAST_BUCKET && OneBlockFits(base, reserved, b, Pow2(e))))
            && (CanGrow(vm, b, false, Pow2(e)) <==>
                  && b <= LAST_BUCKET && OneBlockFits(base, reserved, b, Pow2(e))
                  && AlignUp(base, Pow2(e))
                     + Fitting(base + reserved - AlignUp(base, Pow2(e)), BucketReqSize(b), FIRST_GROW)
                       * BucketReqSize(b) <= base + committed)
  {
    hide Pow2, AlignUp, BucketReqSize, Fitting;
    var vm := Step(s, Action.InitVm(base, reserved, committed), Pow2(e));
    SizePositive(b);
    if b < |vm.grow| {
      CanGrowMeaning(vm, b, true, e);
      CanGrowMeaning(vm, b, false, e);
      hide CanGrow;
    }
  }

  /** A region that is committed from the start: the same, whatever the system says. */
  lemma FixedHeapGrows(s: State, base: nat, size: nat, b: nat, commits: bool, e: nat)
    ensures var fixed := Step(s, Action.InitFixed(base, size), Pow2(e));
            && Untouched(fixed) && |fixed.lists| == |s.lists|
            && fixed.base == base && fixed.size == fixed.committed == size
            && (CanGrow(fixed, b, commits, Pow2(e)) <==> b <= LAST_BUCKET && OneBlockFits(base, size, b, Pow2(e)))
  {
    hide Pow2, AlignUp, BucketReqSize, Fitting;
    var fixed := Step(s, Action.InitFixed(base, size), Pow2(e));
    SizePositive(b);
    if b < |fixed.grow| {
      CanGrowMeaning(fixed, b, commits, e);
      hide CanGrow;
      var room := base + size - AlignUp(base, Pow2(e));
      if 0 <= room {
        FittingFits(room, BucketReqSize(b), FIRST_GROW);
      }
    }
  }

  lemma FittingFits(available: nat, blockSize: nat, wanted: nat)
    requires 0 < blockSize
    ensures Fitting(available, blockSize, wanted) * blockSize <= available
  {
    hide Fitting;
    assert Bytes(Fitting(available, blockSize, wanted), blockSize) <= available;
  }

  /** After a reset there is no heap. */
  lemma ResetForgets(s: State, maxAlign: nat)
    requires 0 < maxAlign
    ensures var none := Step(s, Action.Reset, maxAlign);
            Untouched(none) && none.base == none.size == none.committed == 0 && |none.lists| == |s.lists|
  {
  }

  // ----- committing and growing -----

  /** The commit size is the least doubling of what is committed that covers the requirement, cut
      off at the size of the region. */
  lemma {:induction false} DoublingIsLeast(target: nat, required: nat, size: nat) returns (k: nat)
    requires 0 < target <= size && required <= size
    ensures CommitTarget(target, required, size) == Min(target * Pow2(k), size)
    ensures required <= target * Pow2(k) || size <= target * Pow2(k)
    ensures k != 0 ==> target * Pow2(k - 1) < required
    decreases size - target
  {
    hide Pow2;
    k := 0;
    PowerStep(target, 0);
    if target < required {
      if target <= size / 2 {
        k := DoublingIsLeast(target * 2, required, size);
        PowerStep(target, k);
        if k != 0 {
          PowerStep(target, k - 1);
        }
      }
      k := k + 1;
    }
  }

  lemma PowerStep(x: nat, k: nat)
    ensures x * Pow2(k + 1) == x * 2 * Pow2(k) && x * Pow2(0) == x
  {
    assert Pow2(k + 1) == 2 * Pow2(k);
  }

  /** What a growth commits: nothing more if the stretch is committed already, and otherwise what
      doubling reaches. */
  lemma GrowthCommits(s: State, blockSize: nat, grown: nat, commits: bool, e: nat)
    requires 0 < blockSize && s.used <= s.committed <= s.size
    ensures var plan := PlanGrowth(s, blockSize, grown, commits, Pow2(e));
            plan.committed == if plan.used <= s.committed then s.committed
                              else CommitTarget(s.committed, plan.used, s.size)
  {
    hide Pow2, AlignUp, CommitTarget, Fitting, GrowCount;
    AlignUpMeaning(s.base + s.used, e);
  }

  /** The number of blocks wanted by the `n`-th growth of a bucket that always got what it wanted. */
  ghost function Wanted(n: nat): nat {
    GrowCount(if n == 0 then 0 else Wanted(n - 1))
  }

  /** It doubles from 32 up to 1024. */
  lemma {:induction false} WantedDoubles(n: nat)
    ensures Wanted(n) == FIRST_GROW * Pow2(Min(n, 5))
  {
    assert Pow2(0) == 1 && Pow2(1) == 2 && Pow2(2) == 4 && Pow2(3) == 8 && Pow2(4) == 16 && Pow2(5) == 32;
    if n != 0 {
      WantedDoubles(n - 1);
    }
  }

  // ----- moving blocks -----

  function Reversed(l: seq<nat>): (r: seq<nat>)
    ensures |r| == |l|
  {
    seq(|l|, i requires 0 <= i < |l| => l[|l| - 1 - i])
  }

  lemma MoveMoves(s: State, from: nat, to: nat, b: nat)
    requires from != to && HasList(s, to, b) && CanPop(s, from, b)
    ensures Moved(s, Move(s, from, to, b), from, to, b)
  {
    PopRow(s, from, b);
    PoppedOut(s, from, b);
    var popped, a := Pop(s, from, b), s.lists[from][b][0];
    PushRow(popped, to, b, a);
    assert Move(s, from, to, b) == Push(popped, to, b, a);
    hide Pop, Push, Move;
  }

  lemma PoppedOut(s: State, o: nat, b: nat)
    requires CanPop(s, o, b)
    ensures s.lists[o][b][0] in Pop(s, o, b).blocks && Pop(s, o, b).blocks[s.lists[o][b][0]] == Block(b, Out)
  {
  }

  /** Moving up to `n` heads takes them off one list and puts them on the other in reverse, and
      touches no other list. */
  lemma {:induction false} MovesHeads(s: State, from: nat, to: nat, b: nat, n: nat)
    requires from != to && HasList(s, from, b) && HasList(s, to, b)
    ensures var s', l := MoveMany(s, from, to, b, n), s.lists[from][b];
            var m := Min(n, |l|);
            && HasList(s', from, b) && HasList(s', to, b)
            && s'.lists[from][b] == l[m..] && s'.lists[to][b] == Reversed(l[..m]) + s.lists[to][b]
            && OnlyRows(s.lists, s'.lists, from, to, b)
            && s' == s.(lists := s'.lists, blocks := s'.blocks)
    decreases n
  {
    hide Move;
    var l := s.lists[from][b];
    if n != 0 && l != [] {
      MoveMoves(s, from, to, b);
      MovesHeads(Move(s, from, to, b), from, to, b, n - 1);
      var m := Min(n, |l|);
      assert l[1..][m - 1..] == l[m..];
      ReversedNext(l, m);
      assert Reversed(l[1..][..m - 1]) + ([l[0]] + s.lists[to][b])
          == (Reversed(l[1..][..m - 1]) + [l[0]]) + s.lists[to][b];
    } else {
      assert Reversed(l[..0]) + s.lists[to][b] == s.lists[to][b];
    }
  }

  lemma ReversedNext(l: seq<nat>, m: nat)
    requires 0 < m <= |l|
    ensures Reversed(l[..m]) == Reversed(l[1..][..m - 1]) + [l[0]]
  {
    var all, rest := Reversed(l[..m]), Reversed(l[1..][..m - 1]);
    forall i | 0 <= i < m ensures all[i] == (rest + [l[0]])[i] {
      if i < m - 1 {
        assert rest[i] == l[1..][..m - 1][m - 2 - i] == l[m - 1 - i];
      }
    }
  }

  // ----- releasing and allocating again -----

  /** A released block is on its thread's list, or among the 32 that a full list hands on; no other
      bucket's or thread's list changes, and no other block that is out comes in. */
  lemma FreedMeaning(s: State, t: nat, b: nat, a: nat, e: nat)
    requires Inv(s, Pow2(e)) && CanPush(s, t + 1, b, a)
    ensures var s' := Freed(s, t, b, a);
            var own, shared := [a] + s.lists[t + 1][b], s.lists[SHARED][b];
            var n := if |own| < LOCAL_MAX then 0 else Min(LOCAL_FLUSH, |own|);
            && Inv(s', Pow2(e)) && HasList(s', t + 1, b) && HasList(s', SHARED, b)
            && s'.lists[t + 1][b] == own[n..] && s'.lists[SHARED][b] == Reversed(own[..n]) + shared
            && OnlyRows(s.lists, s'.lists, SHARED, t + 1, b)
            && a in s'.blocks && s'.blocks[a].place != Out && s'.blocks[a].bucket == b
            && (forall p :: p in s.blocks && p != a && s.blocks[p].place == Out ==>
                  p in s'.blocks && s'.blocks[p] == s.blocks[p])
            && s'.used == s.used && s'.committed == s.committed && s'.grow == s.grow
  {
    hide Pow2, Inv, MoveMany, Push;
    InvShape(s, Pow2(e));
    PushKeeps(s, t + 1, b, a, Pow2(e));
    PushRow(s, t + 1, b, a);
    Pushed(s, t + 1, b, a);
    var cached := Push(s, t + 1, b, a);
    var own := [a] + s.lists[t + 1][b];
    assert Reversed(own[..0]) + s.lists[SHARED][b] == s.lists[SHARED][b];
    if LOCAL_MAX <= |own| {
      MovesHeads(cached, t + 1, SHARED, b, LOCAL_FLUSH);
      MoveManyKeeps(cached, t + 1, SHARED, b, LOCAL_FLUSH, Pow2(e));
      MoveManyKeepsOut(cached, t + 1, SHARED, b, LOCAL_FLUSH, Pow2(e));
      StaysListed(cached, t + 1, SHARED, b, LOCAL_FLUSH, a, e);
    }
  }

  lemma Pushed(s: State, o: nat, b: nat, a: nat)
    requires CanPush(s, o, b, a)
    ensures Push(s, o, b, a).blocks == s.blocks[a := Block(b, In(o))]
  {
  }

  /** A block on a list from which heads move is on that list or the other afterwards. */
  lemma StaysListed(s: State, from: nat, to: nat, b: nat, n: nat, a: nat, e: nat)
    requires from != to && HasList(s, from, b) && HasList(s, to, b) && b < BUCKETS
    requires Inv(s, Pow2(e)) && a in s.lists[from][b]
    requires Inv(MoveMany(s, from, to, b, n), Pow2(e))
    ensures var s' := MoveMany(s, from, to, b, n);
            a in s'.blocks && s'.blocks[a].place != Out && s'.blocks[a].bucket == b
  {
    hide Pow2, MoveMany, Laid, Bounded, ChunksFit;
    MovesHeads(s, from, to, b, n);
    var s', l := MoveMany(s, from, to, b, n), s.lists[from][b];
    var m := Min(n, |l|);
    var i :| 0 <= i < |l| && l[i] == a;
    assert Fits(s'.lists[from][b], from, b, s'.blocks) && Fits(s'.lists[to][b], to, b, s'.blocks);
    if i < m {
      assert s'.lists[to][b][m - 1 - i] == a;
      assert a in s'.lists[to][b];
    } else {
      assert s'.lists[from][b][i - m] == a;
      assert a in s'.lists[from][b];
    }
  }

  /** What an allocation takes when the thread or the bucket has something: the head of the thread's
      list, or, after up to 32 shared blocks have moved over in reverse, the last of them. */
  lemma AllocatedMeaning(s: State, t: nat, b: nat, commits: bool, e: nat)
    requires HasList(s, t + 1, b) && HasList(s, SHARED, b)
    ensures var s' := Allocated(s, t, b, commits, Pow2(e));
            var own, shared := s.lists[t + 1][b], s.lists[SHARED][b];
            var m := Min(LOCAL_REFILL, |shared|);
            && (own != [] ==> s' == Pop(s, t + 1, b) && s'.lists[t + 1][b] == own[1..]
                              && own[0] in s'.blocks && s'.blocks[own[0]].place == Out)
            && (own == [] && shared != [] ==>
                  && HasList(s', t + 1, b) && HasList(s', SHARED, b)
                  && s'.lists[SHARED][b] == shared[m..] && s'.lists[t + 1][b] == Reversed(shared[..m - 1])
                  && shared[m - 1] in s'.blocks && s'.blocks[shared[m - 1]].place == Out)
  {
    hide Pow2, MoveMany;
    var own, shared := s.lists[t + 1][b], s.lists[SHARED][b];
    var m := Min(LOCAL_REFILL, |shared|);
    if own == [] && shared != [] {
      MovesHeads(s, SHARED, t + 1, b, LOCAL_REFILL);
      var refilled := MoveMany(s, SHARED, t + 1, b, LOCAL_REFILL);
      assert refilled.lists[t + 1][b] == Reversed(shared[..m]);
      assert Reversed(shared[..m])[1..] == Reversed(shared[..m - 1]);
    }
  }

  /** Release and allocation undo each other: unless the release filled the list, the next
      allocation of the class on the thread hands the same block out again, and the heap is as
      before. */
  lemma ReleasedComesBack(s: State, t: nat, b: nat, a: nat, commits: bool, e: nat)
    requires CanPush(s, t + 1, b, a) && |s.lists[t + 1][b]| + 1 < LOCAL_MAX
    ensures var freed := Freed(s, t, b, a);
            && HasList(freed, t + 1, b) && freed.lists[t + 1][b] != [] && freed.lists[t + 1][b][0] == a
            && Allocated(freed, t, b, commits, Pow2(e)) == s
  {
    hide Pow2;
    var freed := Freed(s, t, b, a);
    var own := s.lists[t + 1][b];
    assert freed == Push(s, t + 1, b, a);
    assert freed.lists[t + 1][b] == [a] + own && ([a] + own)[1..] == own;
    PopAfterPush(s, t + 1, b, a);
  }

  lemma PopAfterPush(s: State, o: nat, b: nat, a: nat)
    requires CanPush(s, o, b, a)
    ensures CanPop(Push(s, o, b, a), o, b) && Pop(Push(s, o, b, a), o, b) == s
  {
    var s' := Push(s, o, b, a);
    var row := s.lists[o];
    assert ([a] + row[b])[1..] == row[b];
    assert row[b := [a] + row[b]][b := row[b]] == row;
    assert s.lists[o := row[b := [a] + row[b]]][o := row] == s.lists;
    assert s.blocks[a := Block(b, In(o))][a := Block(b, Out)] == s.blocks;
  }

  /** The blocks a growth links in, highest address first. */
  lemma {:induction false} CarvedList(s: State, b: nat, start: nat, count: nat)
    requires 0 < |s.lists| && b < |s.lists[SHARED]|
    ensures Carve(s, b, start, count).lists[SHARED][b]
         == seq(count, i requires 0 <= i < count => start + (count - 1 - i) * BucketReqSize(b)) + s.lists[SHARED][b]
    ensures OnlyRows(s.lists, Carve(s, b, start, count).lists, SHARED, SHARED, b)
    decreases count
  {
    hide BucketReqSize;
    if count != 0 {
      CarvedList(s, b, start, count - 1);
      var size := BucketReqSize(b);
      var fewer := seq(count - 1, i requires 0 <= i < count - 1 => start + (count - 2 - i) * size);
      assert [start + (count - 1) * size] + fewer
          == seq(count, i requires 0 <= i < count => start + (count - 1 - i) * size);
    }
  }

  /** A growth in one go: the next aligned stretch becomes blocks laid end to end, all on the shared
      list of the bucket, and no other list changes. */
  lemma GrownMeaning(s: State, b: nat, commits: bool, e: nat)
    requires Inv(s, Pow2(e)) && Settled(s) && MayGrow(s, b) && CanGrow(s, b, commits, Pow2(e))
    ensures var s', start, size := Grow(s, b, commits, Pow2(e)), AlignUp(s.base + s.used, Pow2(e)), BucketReqSize(b);
            && |s'.grow| == BUCKETS && HasList(s', SHARED, b)
            && 0 < s'.grow[b] <= GrowCount(s.grow[b])
            && (s'.grow[b] < GrowCount(s.grow[b]) ==> s.base + s.size < start + s'.grow[b] * size + size)
            && s'.lists[SHARED][b]
               == seq(s'.grow[b], i requires 0 <= i < s'.grow[b] => start + (s'.grow[b] - 1 - i) * size)
            && s.base + s'.used == start + s'.grow[b] * size
            && OnlyRows(s.lists, s'.lists, SHARED, SHARED, b)
  {
    hide Pow2, AlignUp, BucketReqSize, BucketSizeFor, PlanGrowth, Carve, Grow, Laid, ChunksFit, Conserved, GrowCount, Grown, Spent;
    GrowSize(b);
    GrowUnfolded(s, b, commits, Pow2(e));
    PlanMeaning(s, BucketReqSize(b), s.grow[b], commits, e);
    var plan := PlanGrowth(s, BucketReqSize(b), s.grow[b], commits, Pow2(e));
    CarvedList(s.(used := plan.used, committed := plan.committed), b, plan.start, plan.count);
  }

  /** With nothing cached and nothing shared, an allocation is the same as after a growth. */
  lemma GrowsThenTakes(s: State, t: nat, b: nat, commits: bool, e: nat)
    requires Inv(s, Pow2(e)) && Settled(s) && MayGrow(s, b) && CanGrow(s, b, commits, Pow2(e))
    requires HasList(s, t + 1, b) && s.lists[t + 1][b] == []
    ensures Allocated(s, t, b, commits, Pow2(e))
         == Allocated(Grow(s, b, commits, Pow2(e)), t, b, commits, Pow2(e))
  {
    GrownMeaning(s, b, commits, e);
    hide Pow2, Inv, Grow, MayGrow, CanGrow, AlignUp, BucketReqSize, GrowCount;
    NothingMoves(s, t, b, LOCAL_REFILL);
    var grown := Grow(s, b, commits, Pow2(e));
    assert grown.lists[t + 1][b] == s.lists[t + 1][b];
    MovesHeads(grown, SHARED, t + 1, b, LOCAL_REFILL);
    hide MoveMany;
  }
}
