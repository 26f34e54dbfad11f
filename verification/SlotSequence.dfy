/** The per-slot sequence numbers shared by the sequence-numbered rings. */
module SlotSequence {
  import opened RingIndex

  /** A slot's sequence number says whose turn it is: that of the enqueuer with ticket `seq`, or of
      the dequeuer with ticket `seq - 1`. */
  ghost predicate SlotOk(v: nat, i: nat, capacity: nat)
    requires 0 < capacity
  {
    Slot(v, capacity) == i || (0 < v && Slot(v - 1, capacity) == i)
  }

  /** Enqueue ticket `p` has been published in its slot. */
  predicate Published(seqs: seq<nat>, p: nat)
    requires 0 < |seqs|
  {
    p < seqs[Slot(p, |seqs|)]
  }

  /** Dequeue ticket `p` has released its slot. */
  predicate Released(seqs: seq<nat>, p: nat)
    requires 0 < |seqs|
  {
    p + 1 < seqs[Slot(p, |seqs|)]
  }

  /** Publishing ticket `pos` changes its own status only. With one slot it would also release
      ticket `pos - 1`: this is where the capacity has to be at least 2. */
  lemma PublishFlags(seqs: seq<nat>, pos: nat)
    requires 2 <= |seqs| && seqs[Slot(pos, |seqs|)] == pos
    ensures forall p: nat :: Published(seqs[Slot(pos, |seqs|) := pos + 1], p) <==> Published(seqs, p) || p == pos
    ensures forall p: nat :: Released(seqs[Slot(pos, |seqs|) := pos + 1], p) <==> Released(seqs, p)
  {
    NeighboursDiffer(pos, |seqs|);
    hide Slot;
    var seqs' := seqs[Slot(pos, |seqs|) := pos + 1];
    forall p: nat
      ensures Published(seqs', p) <==> Published(seqs, p) || p == pos
      ensures Released(seqs', p) <==> Released(seqs, p)
    {
      assert seqs'[Slot(p, |seqs|)] == if Slot(p, |seqs|) == Slot(pos, |seqs|) then pos + 1 else seqs[Slot(p, |seqs|)];
    }
  }

  /** Releasing ticket `pos` changes its own status only. */
  lemma ReleaseFlags(seqs: seq<nat>, pos: nat)
    requires 2 <= |seqs| && seqs[Slot(pos, |seqs|)] == pos + 1
    ensures var seqs' := seqs[Slot(pos, |seqs|) := pos + |seqs|];
            && (forall p: nat :: Published(seqs', p) <==> Published(seqs, p))
            && (forall p: nat :: Released(seqs', p) <==> Released(seqs, p) || p == pos)
            && (forall p: nat :: seqs'[Slot(p, |seqs|)] == p + 1 ==> seqs[Slot(p, |seqs|)] == p + 1 && p != pos)
  {
    WindowDistinct(pos, |seqs|, pos);
    hide Slot;
    var seqs' := seqs[Slot(pos, |seqs|) := pos + |seqs|];
    forall p: nat
      ensures Published(seqs', p) <==> Published(seqs, p)
      ensures Released(seqs', p) <==> Released(seqs, p) || p == pos
      ensures seqs'[Slot(p, |seqs|)] == p + 1 ==> seqs[Slot(p, |seqs|)] == p + 1 && p != pos
    {
      assert seqs'[Slot(p, |seqs|)] == if Slot(p, |seqs|) == Slot(pos, |seqs|) then pos + |seqs| else seqs[Slot(p, |seqs|)];
    }
  }

  lemma NextSlotOk(pos: nat, capacity: nat)
    requires 0 < capacity
    ensures SlotOk(pos + 1, Slot(pos, capacity), capacity)
  {
    hide Slot;
  }

  /** Storing a sequence number that belongs to its slot keeps the slots well formed. */
  lemma SequenceSlots(seqs: seq<nat>, pos: nat, v: nat)
    requires 0 < |seqs| && SlotOk(v, Slot(pos, |seqs|), |seqs|)
    requires forall i: nat :: i < |seqs| ==> SlotOk(seqs[i], i, |seqs|)
    ensures var seqs' := seqs[Slot(pos, |seqs|) := v]; forall i: nat :: i < |seqs| ==> SlotOk(seqs'[i], i, |seqs|)
  {
    hide SlotOk;
  }

  /** A sequence number behind the position's turn is at least a lap behind. */
  lemma EarlierLap(v: nat, pos: nat, capacity: nat)
    requires 2 <= capacity && v < pos && SlotOk(v, Slot(pos, capacity), capacity)
    ensures capacity <= pos && v <= pos - capacity + 1
  {
    var u := if Slot(v, capacity) == Slot(pos, capacity) then v else v - 1;
    if pos < u + capacity {
      SlotInjective(u, pos, capacity);
    }
  }
}
