/** The memory of a sequence-numbered ring with one consumer, and that consumer's `pop`.

    Both multi-producer rings share it; they differ in how producers reserve positions.
 */
module SlotRing {
  import opened RingIndex
  import opened SlotSequence

  /** Where the consumer is in `pop`. */
  datatype Consumer<T> =
    | Ready
    | LoadSeq(pos: nat)             // dequeue position loaded; about to load the slot's sequence
    | Read(pos: nat)                // about to read slot.data
    | Release(pos: nat, out: T)     // about to store pos + capacity
    | Advance(pos: nat, out: T)     // about to store the dequeue position

  /** `items[p]` is what position `p` was reserved for; `popped` is what `pop` has taken out. */
  datatype Ring<T> = Ring(
    enqueuePos: nat, dequeuePos: nat, seqs: seq<nat>, data: seq<T>, consumer: Consumer<T>,
    items: seq<T>, popped: seq<T>)

  predicate WellSized<T>(r: Ring<T>) {
    0 < |r.seqs| == |r.data|
  }

  function Fresh<T>(data: seq<T>): Ring<T> {
    Ring(0, 0, seq(|data|, i => i), data, Ready, [], [])
  }

  // ---------------------------------------------------------------- memory operations

  /** Reserve |xs| consecutive positions. */
  function Reserve<T>(r: Ring<T>, xs: seq<T>): Ring<T> {
    r.(enqueuePos := r.enqueuePos + |xs|, items := r.items + xs)
  }

  function Turn<T>(r: Ring<T>, pos: nat): nat
    requires WellSized(r)
  {
    r.seqs[Slot(pos, |r.seqs|)]
  }

  function WriteData<T>(r: Ring<T>, pos: nat, x: T): Ring<T>
    requires WellSized(r)
  {
    r.(data := r.data[Slot(pos, |r.seqs|) := x])
  }

  function StoreSeq<T>(r: Ring<T>, pos: nat, v: nat): Ring<T>
    requires WellSized(r)
  {
    r.(seqs := r.seqs[Slot(pos, |r.seqs|) := v])
  }

  /** The consumer's next load or store; a `pop` that finds its slot unpublished returns false. */
  function ConsumerStep<T>(r: Ring<T>): (r': Ring<T>)
    requires WellSized(r)
    ensures WellSized(r') && |r'.seqs| == |r.seqs| && r'.enqueuePos == r.enqueuePos && r'.items == r.items
  {
    match r.consumer
    case Ready => r.(consumer := LoadSeq(r.dequeuePos))
    case LoadSeq(pos) => r.(consumer := if Turn(r, pos) == pos + 1 then Read(pos) else Ready)
    case Read(pos) => r.(consumer := Release(pos, r.data[Slot(pos, |r.seqs|)]))
    case Release(pos, out) => StoreSeq(r, pos, pos + |r.seqs|).(consumer := Advance(pos, out), popped := r.popped + [out])
    case Advance(pos, out) => r.(dequeuePos := pos + 1, consumer := Ready)
  }

  // ---------------------------------------------------------------- the invariant

  ghost predicate Positions<T>(r: Ring<T>) {
    && WellSized(r) && 2 <= |r.seqs| && |r.items| == r.enqueuePos
    && (forall i: nat :: i < |r.seqs| ==> SlotOk(r.seqs[i], i, |r.seqs|))
    && (forall p: nat :: r.enqueuePos <= p ==> !Published(r.seqs, p))
    && (forall p: nat :: Released(r.seqs, p) <==> p < |r.popped|)
  }

  ghost predicate Cursor<T>(r: Ring<T>)
    requires WellSized(r)
  {
    && |r.popped| <= |r.items| && r.popped == r.items[..|r.popped|]
    && |r.popped| == r.dequeuePos + (if r.consumer.Advance? then 1 else 0)
    && (!r.consumer.Ready? ==> r.consumer.pos == r.dequeuePos)
    && (r.consumer.Read? || r.consumer.Release? ==> Turn(r, r.consumer.pos) == r.consumer.pos + 1)
    && (r.consumer.Release? ==> r.consumer.pos < |r.items| && r.consumer.out == r.items[r.consumer.pos])
    && (r.consumer.Advance? ==> r.consumer.out == r.popped[r.consumer.pos])
  }

  /** A published, unreleased slot holds the item its position was reserved for. */
  ghost predicate Contents<T>(r: Ring<T>)
    requires WellSized(r)
  {
    forall p: nat :: Turn(r, p) == p + 1 ==> p < |r.items| && r.data[Slot(p, |r.seqs|)] == r.items[p]
  }

  ghost predicate Inv<T>(r: Ring<T>) {
    Positions(r) && Cursor(r) && Contents(r)
  }

  lemma StartsGood<T>(data: seq<T>)
    requires 2 <= |data|
    ensures Inv(Fresh(data))
  {
    var r := Fresh(data);
    assert forall p: nat :: r.seqs[Slot(p, |data|)] <= p;
    hide Slot;
  }

  lemma ReserveKeeps<T>(r: Ring<T>, xs: seq<T>)
    requires Inv(r)
    ensures Inv(Reserve(r, xs))
  {
    hide Slot, SlotOk, Released;
  }

  lemma WriteKeeps<T>(r: Ring<T>, pos: nat, x: T)
    requires Inv(r) && Turn(r, pos) == pos
    ensures Inv(WriteData(r, pos, x))
  {
    NeighboursDiffer(pos, |r.seqs|);
    hide Slot, SlotOk, Released, Published;
  }

  lemma PublishKeeps<T>(r: Ring<T>, pos: nat)
    requires Inv(r) && Turn(r, pos) == pos && pos < |r.items| && r.data[Slot(pos, |r.seqs|)] == r.items[pos]
    ensures Inv(StoreSeq(r, pos, pos + 1))
  {
    hide Slot, SlotOk;
    var r' := StoreSeq(r, pos, pos + 1);
    NeighboursDiffer(pos, |r.seqs|);
    PublishPositions(r, pos);
    hide Positions;
    assert Cursor(r') by {
      if r.consumer.Read? || r.consumer.Release? {
        assert Slot(r.consumer.pos, |r.seqs|) != Slot(pos, |r.seqs|);
      }
    }
    forall p: nat | Turn(r', p) == p + 1
      ensures p < |r'.items| && r'.data[Slot(p, |r'.seqs|)] == r'.items[p]
    {
      if Slot(p, |r.seqs|) != Slot(pos, |r.seqs|) {
        assert Turn(r, p) == p + 1;
      }
    }
  }

  /** Publishing a position disturbs no other producer's turn. */
  lemma PublishFrame<T>(r: Ring<T>, pos: nat)
    requires Positions(r) && Turn(r, pos) == pos
    ensures forall p: nat :: Published(StoreSeq(r, pos, pos + 1).seqs, p) <==> Published(r.seqs, p) || p == pos
    ensures forall p: nat :: p != pos && Turn(r, p) == p ==> Turn(StoreSeq(r, pos, pos + 1), p) == p
    ensures forall p: nat :: Turn(r, p) <= Turn(StoreSeq(r, pos, pos + 1), p)
  {
    hide Slot, SlotOk;
    PublishFlags(r.seqs, pos);
    var r' := StoreSeq(r, pos, pos + 1);
    assert WellSized(r) && r'.seqs == r.seqs[Slot(pos, |r.seqs|) := pos + 1];
    forall p: nat
      ensures Published(r'.seqs, p) <==> Published(r.seqs, p) || p == pos
      ensures p != pos && Turn(r, p) == p ==> Turn(r', p) == p
      ensures Turn(r, p) <= Turn(r', p)
    {
      assert Slot(p, |r.seqs|) == Slot(pos, |r.seqs|) ==> Turn(r, p) == pos;
    }
  }

  lemma PublishPositions<T>(r: Ring<T>, pos: nat)
    requires Positions(r) && Turn(r, pos) == pos && pos < |r.items|
    ensures Positions(StoreSeq(r, pos, pos + 1))
  {
    hide Slot, SlotOk;
    PublishFlags(r.seqs, pos);
    NextSlotOk(pos, |r.seqs|);
    SequenceSlots(r.seqs, pos, pos + 1);
    hide Published, Released;
    var r' := StoreSeq(r, pos, pos + 1);
    forall p: nat | r.enqueuePos <= p ensures !Published(r'.seqs, p) {
      assert !Published(r.seqs, p);
    }
    forall p: nat ensures Released(r'.seqs, p) <==> p < |r'.popped| {
      assert Released(r.seqs, p) <==> p < |r.popped|;
    }
  }

  lemma ReleasePositions<T>(r: Ring<T>)
    requires Positions(r) && Cursor(r) && r.consumer.Release?
    ensures Positions(ConsumerStep(r))
  {
    var pos := r.consumer.pos;
    SlotNextLap(pos, |r.seqs|);
    hide Slot;
    ReleaseFlags(r.seqs, pos);
    SequenceSlots(r.seqs, pos, pos + |r.seqs|);
    hide Published, Released, SlotOk;
    var r' := ConsumerStep(r);
    forall p: nat | r.enqueuePos <= p ensures !Published(r'.seqs, p) {
      assert !Published(r.seqs, p);
    }
    forall p: nat ensures Released(r'.seqs, p) <==> p < |r'.popped| {
      assert Released(r.seqs, p) <==> p < |r.popped|;
    }
  }

  lemma ReleaseKeeps<T>(r: Ring<T>)
    requires Inv(r) && r.consumer.Release?
    ensures Inv(ConsumerStep(r))
  {
    var r' := ConsumerStep(r);
    ReleasePositions(r);
    WindowDistinct(r.consumer.pos, |r.seqs|, r.consumer.pos);
    hide Slot, Positions;
    assert Cursor(r');
    var pos := r.consumer.pos;
    forall p: nat | Turn(r', p) == p + 1
      ensures p < |r'.items| && r'.data[Slot(p, |r'.seqs|)] == r'.items[p]
    {
      if Slot(p, |r.seqs|) != Slot(pos, |r.seqs|) {
        assert Turn(r, p) == p + 1;
      }
    }
  }

  lemma OtherKeeps<T>(r: Ring<T>)
    requires Inv(r) && !r.consumer.Release?
    ensures Inv(ConsumerStep(r))
  {
    hide Slot, SlotOk, Published, Released;
  }

  lemma ConsumerKeeps<T>(r: Ring<T>)
    requires Inv(r)
    ensures Inv(ConsumerStep(r))
  {
    if r.consumer.Release? { ReleaseKeeps(r); } else { OtherKeeps(r); }
  }

  /** The consumer disturbs no slot whose turn is a producer's. */
  lemma ConsumerFrame<T>(r: Ring<T>)
    requires Inv(r)
    ensures forall p: nat :: Published(ConsumerStep(r).seqs, p) <==> Published(r.seqs, p)
    ensures forall p: nat :: Turn(r, p) == p ==> Turn(ConsumerStep(r), p) == p
    ensures forall p: nat :: Turn(r, p) <= Turn(ConsumerStep(r), p)
    ensures ConsumerStep(r).data == r.data
  {
    var r' := ConsumerStep(r);
    if r.consumer.Release? {
      var pos := r.consumer.pos;
      assert Turn(r, pos) == pos + 1;
      hide Slot, SlotOk, Contents, Cursor;
      ReleaseFlags(r.seqs, pos);
      forall p: nat
        ensures Published(r'.seqs, p) <==> Published(r.seqs, p)
        ensures Turn(r, p) == p ==> Turn(r', p) == p
        ensures Turn(r, p) <= Turn(r', p)
      {
        NeighboursDiffer(p, |r.seqs|);
      }
    }
  }

  // ---------------------------------------------------------------- a whole pop

  function ConsumerSteps<T>(r: Ring<T>, n: nat): (r': Ring<T>)
    requires WellSized(r)
    ensures WellSized(r') && |r'.seqs| == |r.seqs|
    decreases n
  {
    if n == 0 then r else ConsumerStep(ConsumerSteps(r, n - 1))
  }

  /** A pop alone: two loads if the oldest position is unpublished, and otherwise five steps that
      hand its item out and advance. */
  lemma WholePop<T>(r: Ring<T>)
    requires Inv(r) && r.consumer.Ready?
    ensures WellSized(r) && |r.popped| <= |r.items|
    ensures !Published(r.seqs, |r.popped|) ==> ConsumerSteps(r, 2) == r
    ensures Published(r.seqs, |r.popped|) ==>
              && |r.popped| < |r.items|
              && ConsumerSteps(r, 4).consumer == Advance(|r.popped|, r.items[|r.popped|])
              && ConsumerSteps(r, 5).consumer.Ready?
              && ConsumerSteps(r, 5).popped == r.popped + [r.items[|r.popped|]]
              && ConsumerSteps(r, 5).items == r.items
  {
    var pos := r.dequeuePos;
    assert !Released(r.seqs, pos);
    assert Published(r.seqs, pos) ==> pos < |r.items|;
    assert Published(r.seqs, pos) <==> Turn(r, pos) == pos + 1;
    assert Turn(r, pos) == pos + 1 ==> r.data[Slot(pos, |r.seqs|)] == r.items[pos];
    hide Inv, Positions, Contents, Slot, Published, ConsumerSteps;
    ConsumerNext(r, 0);
    ConsumerNext(r, 1);
    assert ConsumerSteps(r, 1) == r.(consumer := LoadSeq(pos));
    if Turn(r, pos) == pos + 1 {
      assert ConsumerSteps(r, 2) == r.(consumer := Read(pos));
      ConsumerNext(r, 2);
      assert ConsumerSteps(r, 3) == r.(consumer := Release(pos, r.items[pos]));
      ConsumerNext(r, 3);
      ConsumerNext(r, 4);
    }
  }

  lemma ConsumerNext<T>(r: Ring<T>, n: nat)
    requires WellSized(r)
    ensures ConsumerSteps(r, n + 1) == ConsumerStep(ConsumerSteps(r, n))
    ensures ConsumerSteps(r, 0) == r
  {
  }

  // ---------------------------------------------------------------- in place

  /** The ring's memory, updated in place one load or store at a time. */
  class Memory<T> {
    var enqueuePos: nat
    var dequeuePos: nat
    const seqs: array<nat>
    const data: array<T>
    var consumer: Consumer<T>
    ghost var items: seq<T>
    ghost var popped: seq<T>

    ghost predicate Valid() {
      0 < seqs.Length == data.Length && seqs as object != data
    }

    ghost function View(): Ring<T>
      reads this, seqs, data
    {
      Ring(enqueuePos, dequeuePos, seqs[..], data[..], consumer, items, popped)
    }

    constructor (initial: seq<T>)
      requires 2 <= |initial|
      ensures Valid() && fresh(seqs) && fresh(data) && View() == Fresh(initial)
    {
      enqueuePos, dequeuePos, consumer, items, popped := 0, 0, Ready, [], [];
      seqs := new nat[|initial|](i => i);
      data := new T[|initial|](i requires 0 <= i < |initial| => initial[i]);
      new;
      assert data[..] == initial;
      assert seqs[..] == seq(|initial|, i => i);
    }

    method ReservePositions(count: nat, ghost xs: seq<T>)
      requires Valid() && count == |xs|
      modifies this
      ensures View() == Reserve(old(View()), xs)
    {
      enqueuePos := enqueuePos + count;
      items := items + xs;
    }

    method WriteSlot(pos: nat, x: T)
      requires Valid()
      modifies data
      ensures View() == WriteData(old(View()), pos, x)
    {
      data[Slot(pos, seqs.Length)] := x;
    }

    method StoreSequence(pos: nat, v: nat)
      requires Valid()
      modifies seqs
      ensures View() == StoreSeq(old(View()), pos, v)
    {
      seqs[Slot(pos, seqs.Length)] := v;
    }

    method Consume()
      requires Valid()
      modifies this, seqs
      ensures View() == ConsumerStep(old(View()))
    {
      match consumer {
        case Ready => consumer := LoadSeq(dequeuePos);
        case LoadSeq(pos) => consumer := if seqs[Slot(pos, seqs.Length)] == pos + 1 then Read(pos) else Ready;
        case Read(pos) => consumer := Release(pos, data[Slot(pos, seqs.Length)]);
        case Release(pos, out) =>
          seqs[Slot(pos, seqs.Length)] := pos + seqs.Length;
          consumer := Advance(pos, out);
          popped := popped + [out];
        case Advance(pos, out) =>
          dequeuePos := pos + 1;
          consumer := Ready;
      }
    }

    /** One whole `pop`: false exactly when the oldest position is unpublished, else its item. */
    method Pop(stale: T) returns (ok: bool, out: T)
      requires Valid() && Inv(View()) && consumer.Ready?
      modifies this, seqs
      ensures Inv(View()) && consumer.Ready? && items == old(items) && enqueuePos == old(enqueuePos)
      ensures ok <==> Published(old(seqs[..]), |old(popped)|)
      ensures ok ==> |old(popped)| < |items| && out == items[|old(popped)|] && popped == old(popped) + [out]
      ensures !ok ==> popped == old(popped) && seqs[..] == old(seqs[..])
    {
      out := stale;
      NextAccess();
      assert !Released(seqs[..], |popped|);
      NextAccess();
      if consumer.Ready? {
        return false, stale;
      }
      NextAccess();
      out := consumer.out;
      NextAccess();
      NextAccess();
      ok := true;
    }

    method NextAccess()
      requires Valid() && Inv(View())
      modifies this, seqs
      ensures Inv(View()) && View() == ConsumerStep(old(View()))
    {
      ConsumerKeeps(View());
      Consume();
    }
  }
}
