/** The CAS-based multi-producer single-consumer ring.

    `try_push` loads the enqueue position, loads the slot's sequence number, and reserves the position
    by compare-exchange, which may fail spuriously; then it writes the slot and publishes it. Any
    number of producers and the consumer interleave step by step.
 */
module MpscRing {
  import opened RingIndex
  import opened SlotSequence
  import opened CallHistory
  import R = SlotRing

  /** Where a producer is in `try_push`; `last` is what its previous call returned. */
  datatype Producer<T> =
    | Idle(last: bool)
    | LoadPos(item: T)
    | LoadSeq(item: T, pos: nat)
    | Cas(item: T, pos: nat)
    | Write(item: T, pos: nat)
    | Publish(item: T, pos: nat)

  /** `owners[p]` is the producer whose CAS reserved position `p`. */
  datatype State<T> = State(ring: R.Ring<T>, producers: seq<Producer<T>>, owners: seq<nat>)

  datatype Action<T> =
    | TryPush(producer: nat, item: T)
    | Continue(producer: nat, spurious: bool)
    | Pop

  function Fresh<T>(data: seq<T>, producers: nat): State<T> {
    State(R.Fresh(data), seq(producers, i => Idle(true)), [])
  }

  function Resume<T>(s: State<T>, t: nat, spurious: bool): State<T>
    requires R.WellSized(s.ring) && t < |s.producers|
  {
    var r := s.ring;
    match s.producers[t]
    case Idle(_) => s
    case LoadPos(item) => Goto(s, t, LoadSeq(item, r.enqueuePos))
    case LoadSeq(item, pos) =>
      if R.Turn(r, pos) == pos then Goto(s, t, Cas(item, pos))
      else if R.Turn(r, pos) < pos then Goto(s, t, Idle(false))
      else Goto(s, t, LoadPos(item))
    case Cas(item, pos) =>
      if r.enqueuePos == pos && !spurious
      then State(R.Reserve(r, [item]), s.producers[t := Write(item, pos)], s.owners + [t])
      else Goto(s, t, LoadSeq(item, r.enqueuePos))
    case Write(item, pos) => State(R.WriteData(r, pos, item), s.producers[t := Publish(item, pos)], s.owners)
    case Publish(item, pos) => State(R.StoreSeq(r, pos, pos + 1), s.producers[t := Idle(true)], s.owners)
  }

  function Goto<T>(s: State<T>, t: nat, pc: Producer<T>): State<T>
    requires t < |s.producers|
  {
    s.(producers := s.producers[t := pc])
  }

  function Step<T>(s: State<T>, a: Action<T>): (s': State<T>)
    requires R.WellSized(s.ring)
    ensures R.WellSized(s'.ring) && |s'.ring.seqs| == |s.ring.seqs| && |s'.producers| == |s.producers|
  {
    match a
    case TryPush(t, item) =>
      if t < |s.producers| && s.producers[t].Idle? then Goto(s, t, LoadPos(item)) else s
    case Continue(t, spurious) => if t < |s.producers| then Resume(s, t, spurious) else s
    case Pop => s.(ring := R.ConsumerStep(s.ring))
  }

  function Run<T>(data: seq<T>, producers: nat, schedule: seq<Action<T>>): (s: State<T>)
    requires 0 < |data|
    ensures R.WellSized(s.ring) && |s.ring.seqs| == |data| && |s.producers| == producers
  {
    if schedule == [] then Fresh(data, producers)
    else Step(Run(data, producers, schedule[..|schedule| - 1]), schedule[|schedule| - 1])
  }

  // ---------------------------------------------------------------- the invariant

  predicate Reserved<T>(pc: Producer<T>) { pc.Write? || pc.Publish? }

  /** An unpublished position is held by the producer that reserved it. */
  ghost predicate Held<T>(r: R.Ring<T>, producers: seq<Producer<T>>, p: nat, t: nat)
    requires R.WellSized(r)
  {
    t < |producers| && (!Published(r.seqs, p) ==> Reserved(producers[t]) && producers[t].pos == p)
  }

  ghost predicate ProducerOk<T>(r: R.Ring<T>, owners: seq<nat>, pc: Producer<T>, t: nat)
    requires R.WellSized(r)
  {
    && (pc.LoadSeq? || pc.Cas? ==> pc.pos <= |owners|)
    && (pc.Cas? ==> pc.pos <= R.Turn(r, pc.pos))
    && (Reserved(pc) ==>
          && pc.pos < |owners| == |r.items| && owners[pc.pos] == t
          && r.items[pc.pos] == pc.item && R.Turn(r, pc.pos) == pc.pos)
    && (pc.Publish? ==> r.data[Slot(pc.pos, |r.seqs|)] == pc.item)
  }

  ghost predicate Inv<T>(s: State<T>) {
    && R.Inv(s.ring) && |s.owners| == |s.ring.items|
    && |s.ring.items| <= |s.ring.popped| + |s.ring.seqs|
    && (forall p: nat :: p < |s.owners| ==> Held(s.ring, s.producers, p, s.owners[p]))
    && (forall t: nat :: t < |s.producers| ==> ProducerOk(s.ring, s.owners, s.producers[t], t))
  }

  lemma StartsGood<T>(data: seq<T>, producers: nat)
    requires 2 <= |data|
    ensures Inv(Fresh(data, producers))
  {
    R.StartsGood(data);
  }

  /** A CAS that succeeds does so on its own turn: the sequence number read before it still holds. */
  lemma CasHasItsTurn<T>(s: State<T>, t: nat)
    requires Inv(s) && t < |s.producers| && s.producers[t].Cas? && s.producers[t].pos == s.ring.enqueuePos
    ensures R.Turn(s.ring, s.ring.enqueuePos) == s.ring.enqueuePos
    ensures |s.ring.items| < |s.ring.popped| + |s.ring.seqs|
  {
    assert ProducerOk(s.ring, s.owners, s.producers[t], t);
    var pos, capacity := s.ring.enqueuePos, |s.ring.seqs|;
    assert !Published(s.ring.seqs, pos);
    if capacity <= pos {
      SlotNextLap(pos - capacity, capacity);
      assert Released(s.ring.seqs, pos - capacity);
    }
  }

  lemma MoveKeeps<T>(s: State<T>, t: nat, pc: Producer<T>)
    requires Inv(s) && t < |s.producers| && !Reserved(s.producers[t])
    requires !Reserved(pc) && ProducerOk(s.ring, s.owners, pc, t)
    ensures Inv(Goto(s, t, pc))
  {
    assert R.WellSized(s.ring);
    hide R.Inv, R.Turn, Slot, Published;
    var s' := Goto(s, t, pc);
    forall p: nat | p < |s'.owners| ensures Held(s'.ring, s'.producers, p, s'.owners[p]) {
      assert Held(s.ring, s.producers, p, s.owners[p]);
    }
    forall u: nat | u < |s'.producers| ensures ProducerOk(s'.ring, s'.owners, s'.producers[u], u) {
      assert ProducerOk(s.ring, s.owners, s.producers[u], u);
    }
  }

  lemma ReserveKeeps<T>(s: State<T>, t: nat)
    requires Inv(s) && t < |s.producers| && s.producers[t].Cas? && s.producers[t].pos == s.ring.enqueuePos
    ensures Inv(Resume(s, t, false))
  {
    var s' := Resume(s, t, false);
    CasHasItsTurn(s, t);
    R.ReserveKeeps(s.ring, [s.producers[t].item]);
    hide Slot, Published, R.Inv;
    forall p: nat | p < |s'.owners| ensures Held(s'.ring, s'.producers, p, s'.owners[p]) {
      assert p < |s.owners| ==> Held(s.ring, s.producers, p, s.owners[p]);
    }
    forall u: nat | u < |s'.producers| ensures ProducerOk(s'.ring, s'.owners, s'.producers[u], u) {
      assert ProducerOk(s.ring, s.owners, s.producers[u], u);
    }
  }

  lemma WriteKeeps<T>(s: State<T>, t: nat)
    requires Inv(s) && t < |s.producers| && s.producers[t].Write?
    ensures Inv(Resume(s, t, false))
  {
    var s' := Resume(s, t, false);
    assert ProducerOk(s.ring, s.owners, s.producers[t], t);
    R.WriteKeeps(s.ring, s.producers[t].pos, s.producers[t].item);
    hide Slot, Published, R.Inv;
    forall p: nat | p < |s'.owners| ensures Held(s'.ring, s'.producers, p, s'.owners[p]) {
      assert Held(s.ring, s.producers, p, s.owners[p]);
    }
    forall u: nat | u < |s'.producers| ensures ProducerOk(s'.ring, s'.owners, s'.producers[u], u) {
      assert ProducerOk(s.ring, s.owners, s.producers[u], u);
    }
  }

  /** What the invariant says of a producer about to publish. */
  lemma Publishing<T>(s: State<T>, t: nat)
    requires Inv(s) && t < |s.producers| && s.producers[t].Publish?
    ensures var pos := s.producers[t].pos;
            && R.WellSized(s.ring) && R.Inv(s.ring) && R.Positions(s.ring) && R.Turn(s.ring, pos) == pos
            && pos < |s.ring.items| && s.ring.data[Slot(pos, |s.ring.seqs|)] == s.ring.items[pos]
            && pos < |s.owners| && s.owners[pos] == t
  {
    assert ProducerOk(s.ring, s.owners, s.producers[t], t);
    hide Slot, Held, R.Inv;
  }

  lemma PublishHeld<T>(s: State<T>, t: nat, p: nat)
    requires Inv(s) && t < |s.producers| && s.producers[t].Publish? && p < |s.owners|
    ensures Held(Resume(s, t, false).ring, Resume(s, t, false).producers, p, s.owners[p])
  {
    hide R.Inv, R.Positions, R.Turn, Slot, Published, ProducerOk;
    Publishing(s, t);
    R.PublishFrame(s.ring, s.producers[t].pos);
    assert Held(s.ring, s.producers, p, s.owners[p]);
    assert Published(Resume(s, t, false).ring.seqs, p) <==> Published(s.ring.seqs, p) || p == s.producers[t].pos;
  }

  lemma PublishOk<T>(s: State<T>, t: nat, u: nat)
    requires Inv(s) && t < |s.producers| && s.producers[t].Publish? && u < |s.producers|
    ensures ProducerOk(Resume(s, t, false).ring, s.owners, Resume(s, t, false).producers[u], u)
  {
    hide R.Inv, R.Positions, R.Turn, Slot, Published, Held;
    Publishing(s, t);
    var pos, pc := s.producers[t].pos, s.producers[u];
    R.PublishFrame(s.ring, pos);
    assert ProducerOk(s.ring, s.owners, pc, u);
    if !pc.Idle? && !pc.LoadPos? {
      assert R.Turn(s.ring, pc.pos) <= R.Turn(R.StoreSeq(s.ring, pos, pos + 1), pc.pos);
    }
  }

  lemma PublishKeeps<T>(s: State<T>, t: nat)
    requires Inv(s) && t < |s.producers| && s.producers[t].Publish?
    ensures Inv(Resume(s, t, false))
  {
    hide R.Inv, R.Positions, R.Turn, Slot, Published, Held, ProducerOk;
    Publishing(s, t);
    R.PublishKeeps(s.ring, s.producers[t].pos);
    forall p: nat | p < |s.owners| ensures Held(Resume(s, t, false).ring, Resume(s, t, false).producers, p, s.owners[p]) {
      PublishHeld(s, t, p);
    }
    forall u: nat | u < |s.producers| ensures ProducerOk(Resume(s, t, false).ring, s.owners, Resume(s, t, false).producers[u], u) {
      PublishOk(s, t, u);
    }
  }

  lemma PopKeeps<T>(s: State<T>)
    requires Inv(s)
    ensures Inv(Step(s, Pop))
  {
    var s' := Step(s, Pop);
    R.ConsumerKeeps(s.ring);
    R.ConsumerFrame(s.ring);
    assert |s.ring.popped| <= |s'.ring.popped|;
    hide Slot, Published, R.Inv, R.Turn, R.ConsumerStep;
    forall p: nat | p < |s'.owners| ensures Held(s'.ring, s'.producers, p, s'.owners[p]) {
      assert Held(s.ring, s.producers, p, s.owners[p]);
      assert Published(s'.ring.seqs, p) <==> Published(s.ring.seqs, p);
    }
    forall u: nat | u < |s'.producers| ensures ProducerOk(s'.ring, s'.owners, s'.producers[u], u) {
      assert ProducerOk(s.ring, s.owners, s.producers[u], u);
      if !s.producers[u].Idle? && !s.producers[u].LoadPos? {
        assert R.Turn(s.ring, s.producers[u].pos) <= R.Turn(s'.ring, s.producers[u].pos);
      }
    }
  }

  lemma StepKeeps<T>(s: State<T>, a: Action<T>)
    requires Inv(s)
    ensures Inv(Step(s, a))
  {
    match a
    case Pop => PopKeeps(s);
    case TryPush(t, item) =>
      if t < |s.producers| && s.producers[t].Idle? { MoveKeeps(s, t, LoadPos(item)); }
    case Continue(t, spurious) =>
      if t < |s.producers| {
        var pc := s.producers[t];
        assert ProducerOk(s.ring, s.owners, pc, t);
        if pc.Write? { WriteKeeps(s, t); }
        else if pc.Publish? { PublishKeeps(s, t); }
        else if pc.Cas? && pc.pos == s.ring.enqueuePos && !spurious { ReserveKeeps(s, t); }
        else if !pc.Idle? { MoveKeeps(s, t, Resume(s, t, spurious).producers[t]); }
      }
  }

  lemma {:induction false} RunKeeps<T>(data: seq<T>, producers: nat, schedule: seq<Action<T>>)
    requires 2 <= |data|
    ensures Inv(Run(data, producers, schedule))
  {
    if schedule == [] {
      StartsGood(data, producers);
    } else {
      RunKeeps(data, producers, schedule[..|schedule| - 1]);
      StepKeeps(Run(data, producers, schedule[..|schedule| - 1]), schedule[|schedule| - 1]);
    }
  }

  // ---------------------------------------------------------------- a bounded FIFO

  /** The abstract queue: reserved positions whose slots `pop` has not released, in CAS order. */
  function Queue<T>(s: State<T>): seq<T>
    requires |s.ring.popped| <= |s.ring.items|
  {
    s.ring.items[|s.ring.popped|..]
  }

  /** A step that appends the item of a successful CAS to a queue with room. */
  ghost predicate Appends<T>(s: State<T>, a: Action<T>, s': State<T>)
    requires |s.ring.popped| <= |s.ring.items| && |s'.ring.popped| <= |s'.ring.items|
  {
    && a.Continue? && a.producer < |s.producers| && s.producers[a.producer].Cas?
    && |Queue(s)| < |s.ring.seqs| && Queue(s') == Queue(s) + [s.producers[a.producer].item]
    && s'.ring.popped == s.ring.popped
  }

  /** A step that takes the head of the queue and hands it to the consumer. */
  ghost predicate TakesHead<T>(s: State<T>, a: Action<T>, s': State<T>)
    requires |s.ring.popped| <= |s.ring.items| && |s'.ring.popped| <= |s'.ring.items|
  {
    && a.Pop? && s.ring.consumer.Release? && Queue(s) != [] && s.ring.consumer.out == Queue(s)[0]
    && Queue(s') == Queue(s)[1..] && s'.ring.popped == s.ring.popped + [Queue(s)[0]]
  }

  /** Every run refines a FIFO of the ring's capacity: each step leaves the queue alone, appends one
      item to a queue with room, or takes the head. */
  lemma RefinesBoundedFifo<T>(data: seq<T>, producers: nat, schedule: seq<Action<T>>, a: Action<T>)
    requires 2 <= |data|
    ensures var s := Run(data, producers, schedule);
            var s' := Step(s, a);
            && Inv(s) && Inv(s') && |Queue(s)| <= |data|
            && ((Queue(s') == Queue(s) && s'.ring.popped == s.ring.popped) || Appends(s, a, s') || TakesHead(s, a, s'))
  {
    RunKeeps(data, producers, schedule);
    var s := Run(data, producers, schedule);
    StepKeeps(s, a);
    if a.Pop? {
      PopTakesHead(s);
    } else {
      PushAppends(s, a);
    }
  }

  lemma PopTakesHead<T>(s: State<T>)
    requires R.WellSized(s.ring) && R.Cursor(s.ring) && R.Cursor(Step(s, Pop).ring)
    ensures s.ring.consumer.Release? ==> TakesHead(s, Pop, Step(s, Pop))
    ensures !s.ring.consumer.Release? ==> Step(s, Pop).ring.popped == s.ring.popped
    ensures !s.ring.consumer.Release? ==> Queue(Step(s, Pop)) == Queue(s)
  {
    hide Slot;
  }

  lemma PushAppends<T>(s: State<T>, a: Action<T>)
    requires Inv(s) && R.Cursor(Step(s, a).ring) && !a.Pop?
    ensures Step(s, a).ring.popped == s.ring.popped
    ensures Queue(Step(s, a)) == Queue(s) || Appends(s, a, Step(s, a))
  {
    if a.Continue? && a.producer < |s.producers| && s.producers[a.producer].Cas?
      && s.producers[a.producer].pos == s.ring.enqueuePos {
      CasHasItsTurn(s, a.producer);
    }
    hide Slot, Held, ProducerOk, R.Positions, R.Contents, R.Turn;
  }

  /** `try_push` gives up only when the ring is full at its sequence load; and when the position it
      loaded is still current, it gives up exactly then. */
  lemma RefusedWhenFull<T>(s: State<T>, t: nat)
    requires Inv(s) && t < |s.producers| && s.producers[t].LoadSeq?
    ensures var refused := Resume(s, t, false).producers[t] == Idle(false);
            && (refused ==> |Queue(s)| == |s.ring.seqs|)
            && (s.producers[t].pos == s.ring.enqueuePos ==> (refused <==> |Queue(s)| == |s.ring.seqs|))
  {
    var r, pos, capacity := s.ring, s.producers[t].pos, |s.ring.seqs|;
    var i := Slot(pos, capacity);
    var v := r.seqs[i];
    assert ProducerOk(s.ring, s.owners, s.producers[t], t);
    if v < pos {
      EarlierLap(v, pos, capacity);
      SlotNextLap(pos - capacity, capacity);
      assert !Released(r.seqs, pos - capacity);
    }
    if pos == r.enqueuePos && |Queue(s)| == capacity {
      SlotNextLap(pos - capacity, capacity);
      assert Released(r.seqs, pos - capacity) <==> pos - capacity < |r.popped|;
    }
  }

  /** `pop` returns false exactly when the oldest unreleased position is not yet published. */
  lemma PopRefusedWhenUnpublished<T>(s: State<T>)
    requires Inv(s) && s.ring.consumer.LoadSeq?
    ensures R.ConsumerStep(s.ring).consumer.Ready? <==> !Published(s.ring.seqs, |s.ring.popped|)
    ensures Queue(s) == [] ==> R.ConsumerStep(s.ring).consumer.Ready?
  {
    assert !Released(s.ring.seqs, |s.ring.popped|);
  }

  // ---------------------------------------------------------------- a call alone

  /** `n` steps of one producer's call, with no spurious failure. */
  function Steps<T>(s: State<T>, t: nat, n: nat): (s': State<T>)
    requires R.WellSized(s.ring)
    ensures R.WellSized(s'.ring) && |s'.ring.seqs| == |s.ring.seqs| && |s'.producers| == |s.producers|
    decreases n
  {
    if n == 0 then s else Step(Steps(s, t, n - 1), Continue(t, false))
  }

  lemma {:induction false} StepsKeep<T>(s: State<T>, t: nat, n: nat)
    requires Inv(s) && R.WellSized(s.ring)
    ensures Inv(Steps(s, t, n))
  {
    hide Inv, Step;
    if n != 0 {
      StepsKeep(s, t, n - 1);
      StepKeeps(Steps(s, t, n - 1), Continue(t, false));
    }
  }

  /** A call that nothing interrupts returns false after two loads if the ring is full, and otherwise
      appends and publishes its item and returns true in five steps. */
  lemma PushAlone<T>(s: State<T>, t: nat, item: T)
    requires Inv(s) && t < |s.producers| && s.producers[t].Idle?
    ensures R.WellSized(s.ring) && |s.ring.popped| <= |s.ring.items|
    ensures var begun := Step(s, TryPush(t, item));
            if |Queue(s)| == |s.ring.seqs|
            then Steps(begun, t, 2) == s.(producers := s.producers[t := Idle(false)])
            else
              var s' := Steps(begun, t, 5);
              && s'.producers == s.producers[t := Idle(true)] && s'.owners == s.owners + [t]
              && s'.ring.items == s.ring.items + [item] && s'.ring.popped == s.ring.popped
              && Published(s'.ring.seqs, |s.ring.items|)
  {
    hide Inv, Step, R.Inv;
    Cursors(s);
    var begun := Step(s, TryPush(t, item));
    StepKeeps(s, TryPush(t, item));
    StepsKeep(begun, t, 5);
    StepsKeep(begun, t, 1);
    FirstSteps(s, t, item);
    if |Queue(s)| != |s.ring.seqs| {
      LastSteps(begun, t);
      PublishedThen(Steps(begun, t, 5), |s.ring.items|, t);
    }
  }

  lemma Cursors<T>(s: State<T>)
    requires Inv(s)
    ensures R.WellSized(s.ring) && |s.ring.popped| <= |s.ring.items| == s.ring.enqueuePos == |s.owners|
    ensures |s.ring.items| <= |s.ring.popped| + |s.ring.seqs|
  {
    hide Slot, R.Contents, Held, ProducerOk;
  }

  /** The two loads: the position is current, so the sequence decides. */
  lemma FirstSteps<T>(s: State<T>, t: nat, item: T)
    requires Inv(s) && t < |s.producers| && s.producers[t].Idle? && R.WellSized(s.ring)
    requires |s.ring.popped| <= |s.ring.items|
    requires Inv(Steps(Step(s, TryPush(t, item)), t, 1))
    ensures Steps(Step(s, TryPush(t, item)), t, 2)
         == s.(producers := s.producers[t := if |Queue(s)| == |s.ring.seqs| then Idle(false)
                                             else Cas(item, s.ring.enqueuePos)])
  {
    var loaded := s.(producers := s.producers[t := LoadSeq(item, s.ring.enqueuePos)]);
    assert Steps(Step(s, TryPush(t, item)), t, 0) == Step(s, TryPush(t, item));
    assert Steps(Step(s, TryPush(t, item)), t, 1) == loaded;
    RefusedWhenFull(loaded, t);
    assert !Published(s.ring.seqs, s.ring.enqueuePos);
    hide Inv, Slot;
  }

  lemma LastSteps<T>(s: State<T>, t: nat)
    requires R.WellSized(s.ring) && t < |s.producers|
    requires var r := Steps(s, t, 2); r.producers[t].Cas? && r.producers[t].pos == r.ring.enqueuePos
    ensures var r, s' := Steps(s, t, 2), Steps(s, t, 5);
            && s'.producers == r.producers[t := Idle(true)] && s'.owners == r.owners + [t]
            && s'.ring.items == r.ring.items + [r.producers[t].item] && s'.ring.popped == r.ring.popped
  {
    hide Slot, Steps;
    StepsNext(s, t, 2);
    StepsNext(s, t, 3);
    StepsNext(s, t, 4);
  }

  lemma StepsNext<T>(s: State<T>, t: nat, n: nat)
    requires R.WellSized(s.ring)
    ensures Steps(s, t, n + 1) == Step(Steps(s, t, n), Continue(t, false))
  {
  }

  lemma PublishedThen<T>(s: State<T>, p: nat, t: nat)
    requires Inv(s) && p < |s.owners| && s.owners[p] == t && t < |s.producers| && s.producers[t].Idle?
    ensures R.WellSized(s.ring) && Published(s.ring.seqs, p)
  {
    assert Held(s.ring, s.producers, p, t);
  }

  // ---------------------------------------------------------------- what callers are told

  /** The items that producer `t` has called `try_push` with: a call begins when none is under way. */
  ghost function CallsOf<T>(data: seq<T>, producers: nat, schedule: seq<Action<T>>, t: nat): seq<T>
    requires 0 < |data| && t < producers
    decreases |schedule|
  {
    if |schedule| == 0 then [] else
    var before, a := schedule[..|schedule| - 1], schedule[|schedule| - 1];
    CallsOf(data, producers, before, t)
    + if a.TryPush? && a.producer == t && Run(data, producers, before).producers[t].Idle? then [a.item] else []
  }

  /** What these calls have returned so far. */
  ghost function AnswersOf<T>(data: seq<T>, producers: nat, schedule: seq<Action<T>>, t: nat): seq<bool>
    requires 0 < |data| && t < producers
    decreases |schedule|
  {
    if |schedule| == 0 then [] else
    var before := schedule[..|schedule| - 1];
    var now := Run(data, producers, schedule).producers[t];
    AnswersOf(data, producers, before, t)
    + if !Run(data, producers, before).producers[t].Idle? && now.Idle? then [now.last] else []
  }

  /** The callers' view of a state: the positions of producer `t` hold the items of its calls that
      were answered true, then that of a call past its reservation; and what a returned call
      reserved is published. */
  ghost predicate Told<T>(s: State<T>, t: nat, calls: seq<T>, answers: seq<bool>)
    requires R.WellSized(s.ring) && t < |s.producers|
  {
    var pc := s.producers[t];
    && |s.owners| == |s.ring.items|
    && |calls| == |answers| + (if pc.Idle? then 0 else 1)
    && (!pc.Idle? ==> pc.item == calls[|answers|])
    && OwnedBy(s.ring.items, s.owners, t) == Accepted(calls, answers) + (if Reserved(pc) then [pc.item] else [])
  }

  /** What one step does to producer `t` and its positions. */
  lemma StepTells<T>(s: State<T>, a: Action<T>, t: nat)
    requires Inv(s) && t < |s.producers|
    ensures var s', pc := Step(s, a), s.producers[t];
            var pc' := s'.producers[t];
            && |s'.owners| == |s'.ring.items|
            && OwnedBy(s'.ring.items, s'.owners, t)
               == OwnedBy(s.ring.items, s.owners, t) + (if !Reserved(pc) && Reserved(pc') then [pc'.item] else [])
            && (pc.Idle? && !pc'.Idle? <==> pc.Idle? && a.TryPush? && a.producer == t)
            && (pc.Idle? && !pc'.Idle? ==> pc'.item == a.item && !Reserved(pc'))
            && (!pc.Idle? && !pc'.Idle? ==> pc'.item == pc.item && (Reserved(pc) ==> Reserved(pc')))
            && (!pc.Idle? && pc'.Idle? ==> pc'.last == Reserved(pc))
  {
    var s' := Step(s, a);
    if a.Continue? && a.producer < |s.producers| && s'.owners != s.owners {
      OwnedByMore(s.ring.items, s.owners, s.producers[a.producer].item, a.producer, t);
    }
    hide R.Inv, Slot, Held, ProducerOk, Published, OwnedBy;
  }

  lemma ToldNext<T>(s: State<T>, a: Action<T>, t: nat, calls: seq<T>, answers: seq<bool>)
    requires Inv(s) && t < |s.producers| && R.WellSized(s.ring) && Told(s, t, calls, answers)
    ensures var s', pc := Step(s, a), s.producers[t];
            var pc' := s'.producers[t];
            Told(s', t, calls + (if pc.Idle? && a.TryPush? && a.producer == t then [a.item] else []),
                 answers + (if !pc.Idle? && pc'.Idle? then [pc'.last] else []))
  {
    hide Inv, Step, OwnedBy, Accepted;
    StepTells(s, a, t);
    var pc, pc' := s.producers[t], Step(s, a).producers[t];
    assert calls + [] == calls && answers + [] == answers;
    if pc.Idle? && !pc'.Idle? {
      AcceptedMore(calls, answers, [a.item]);
    } else if !pc.Idle? && pc'.Idle? {
      AcceptedNext(calls, answers, pc'.last);
    }
  }

  /** In every run, each call of a producer that returned true has its item in the queue's history
      once, in call order, none that returned false has, and nothing else of that producer's is
      there but the item of a call past its reservation. */
  lemma {:induction false} AnswersAreTrue<T>(data: seq<T>, producers: nat, schedule: seq<Action<T>>, t: nat)
    requires 2 <= |data| && t < producers
    ensures Told(Run(data, producers, schedule), t, CallsOf(data, producers, schedule, t),
                 AnswersOf(data, producers, schedule, t))
    decreases |schedule|
  {
    hide Inv, Step, Told;
    if |schedule| == 0 {
      ToldAtStart(data, producers, t);
    } else {
      var before, a := schedule[..|schedule| - 1], schedule[|schedule| - 1];
      AnswersAreTrue(data, producers, before, t);
      RunKeeps(data, producers, before);
      ToldNext(Run(data, producers, before), a, t, CallsOf(data, producers, before, t),
               AnswersOf(data, producers, before, t));
    }
  }

  lemma ToldAtStart<T>(data: seq<T>, producers: nat, t: nat)
    requires 0 < |data| && t < producers
    ensures Told(Fresh(data, producers), t, [], [])
  {
  }

  lemma {:induction false} HistoriesGrow<T>(data: seq<T>, producers: nat, before: seq<Action<T>>,
                                            during: seq<Action<T>>, t: nat)
    requires 0 < |data| && t < producers
    ensures CallsOf(data, producers, before, t) <= CallsOf(data, producers, before + during, t)
    ensures AnswersOf(data, producers, before, t) <= AnswersOf(data, producers, before + during, t)
    decreases |during|
  {
    hide Run;
    if |during| == 0 {
      assert before + during == before;
    } else {
      HistoriesGrow(data, producers, before, during[..|during| - 1], t);
      assert (before + during)[..|before + during| - 1] == before + during[..|during| - 1];
    }
  }

  /** One call: between its start and its return its producer's items grow by the call's item if
      the call returned true, and by nothing if it returned false. */
  lemma OneCall<T>(data: seq<T>, producers: nat, before: seq<Action<T>>, during: seq<Action<T>>, t: nat, item: T)
    requires 2 <= |data| && t < producers
    requires Run(data, producers, before).producers[t].Idle?
    requires var run := before + [TryPush(t, item)] + during;
             && Run(data, producers, run).producers[t].Idle?
             && |AnswersOf(data, producers, run, t)| == |AnswersOf(data, producers, before, t)| + 1
    ensures var run := before + [TryPush(t, item)] + during;
            var s, s' := Run(data, producers, before), Run(data, producers, run);
            var answers := AnswersOf(data, producers, run, t);
            && |s.owners| == |s.ring.items| && |s'.owners| == |s'.ring.items| && answers != []
            && OwnedBy(s'.ring.items, s'.owners, t)
               == OwnedBy(s.ring.items, s.owners, t) + if answers[|answers| - 1] then [item] else []
  {
    hide Run, CallsOf, AnswersOf, Told, OwnedBy;
    var begun := before + [TryPush(t, item)];
    CallBegins(data, producers, before, t, item);
    HistoriesGrow(data, producers, begun, during, t);
    HistoriesGrow(data, producers, before, [TryPush(t, item)] + during, t);
    assert begun + during == before + ([TryPush(t, item)] + during);
    AnswersAreTrue(data, producers, before, t);
    AnswersAreTrue(data, producers, begun + during, t);
    ToldOnce(Run(data, producers, before), Run(data, producers, begun + during), t,
             CallsOf(data, producers, before, t), AnswersOf(data, producers, before, t),
             CallsOf(data, producers, begun + during, t), AnswersOf(data, producers, begun + during, t), item);
  }

  lemma CallBegins<T>(data: seq<T>, producers: nat, before: seq<Action<T>>, t: nat, item: T)
    requires 0 < |data| && t < producers && Run(data, producers, before).producers[t].Idle?
    ensures CallsOf(data, producers, before + [TryPush(t, item)], t) == CallsOf(data, producers, before, t) + [item]
  {
    hide Run;
    assert (before + [TryPush(t, item)])[..|before|] == before;
  }

  lemma ToldOnce<T>(s: State<T>, s': State<T>, t: nat, calls: seq<T>, answers: seq<bool>,
                    calls': seq<T>, answers': seq<bool>, item: T)
    requires R.WellSized(s.ring) && t < |s.producers| && s.producers[t].Idle? && Told(s, t, calls, answers)
    requires R.WellSized(s'.ring) && t < |s'.producers| && s'.producers[t].Idle? && Told(s', t, calls', answers')
    requires calls + [item] <= calls' && answers <= answers' && |answers'| == |answers| + 1
    ensures |s.owners| == |s.ring.items| && |s'.owners| == |s'.ring.items|
    ensures OwnedBy(s'.ring.items, s'.owners, t)
         == OwnedBy(s.ring.items, s.owners, t) + if answers'[|answers|] then [item] else []
  {
    hide OwnedBy, Accepted;
    assert calls' == calls + [item] && answers' == answers + [answers'[|answers|]];
    AcceptedNext(calls + [item], answers, answers'[|answers|]);
    AcceptedMore(calls, answers, [item]);
  }

  /** When a call has returned, whatever its producer has reserved is published. */
  lemma ReturnedIsPublished<T>(data: seq<T>, producers: nat, schedule: seq<Action<T>>, p: nat)
    requires 2 <= |data|
    ensures var s := Run(data, producers, schedule);
            p < |s.owners| ==>
              s.owners[p] < producers
              && (s.producers[s.owners[p]].Idle? ==> Published(s.ring.seqs, p))
  {
    hide Run;
    RunKeeps(data, producers, schedule);
    var s := Run(data, producers, schedule);
    if p < |s.owners| {
      assert Held(s.ring, s.producers, p, s.owners[p]);
    }
  }

  // ---------------------------------------------------------------- in place

  /** The ring and the producers at work on it, updated in place one step at a time. */
  class Ring<T> {
    const memory: R.Memory<T>
    const producers: array<Producer<T>>
    ghost var owners: seq<nat>

    ghost predicate Valid()
      reads this, memory
    {
      && memory.Valid() && producers as object != memory
      && producers as object != memory.seqs && producers as object != memory.data
    }

    ghost function View(): State<T>
      reads this, memory, memory.seqs, memory.data, producers
    {
      State(memory.View(), producers[..], owners)
    }

    constructor (initial: seq<T>, producerCount: nat)
      requires 2 <= |initial|
      ensures Valid() && fresh(memory) && fresh(memory.seqs) && fresh(memory.data) && fresh(producers)
      ensures View() == Fresh(initial, producerCount)
    {
      memory := new R.Memory(initial);
      producers := new Producer<T>[producerCount](i => Idle(true));
      owners := [];
      new;
      assert producers[..] == seq(producerCount, i => Idle(true));
    }

    /** Call `try_push` on producer `t`. */
    method TryPush(t: nat, item: T)
      requires Valid() && t < producers.Length && producers[t].Idle?
      modifies producers
      ensures Valid() && View() == Step(old(View()), Action.TryPush(t, item))
    {
      producers[t] := LoadPos(item);
    }

    /** The next load, CAS or store of the call in progress on producer `t`. */
    method Proceed(t: nat, spurious: bool)
      requires Valid() && t < producers.Length
      modifies this, memory, memory.seqs, memory.data, producers
      ensures Valid() && View() == Step(old(View()), Continue(t, spurious))
    {
      match producers[t] {
        case Idle(_) =>
        case LoadPos(item) => producers[t] := LoadSeq(item, memory.enqueuePos);
        case LoadSeq(item, pos) =>
          var turn := memory.seqs[Slot(pos, memory.seqs.Length)];
          producers[t] := if turn == pos then Cas(item, pos) else if turn < pos then Idle(false) else LoadPos(item);
        case Cas(item, pos) =>
          if memory.enqueuePos == pos && !spurious {
            memory.ReservePositions(1, [item]);
            owners := owners + [t];
            producers[t] := Write(item, pos);
          } else {
            producers[t] := LoadSeq(item, memory.enqueuePos);
          }
        case Write(item, pos) =>
          memory.WriteSlot(pos, item);
          producers[t] := Publish(item, pos);
        case Publish(item, pos) =>
          memory.StoreSequence(pos, pos + 1);
          producers[t] := Idle(true);
      }
    }

    /** The consumer's next load or store. */
    method Pop()
      requires Valid()
      modifies memory, memory.seqs
      ensures Valid() && View() == Step(old(View()), Action.Pop)
    {
      memory.Consume();
    }
  }
}
