/** The ticketed multi-producer single-consumer ring.

    `push_batch_wait` reserves a run of positions with one fetch_add and then fills them one by one,
    waiting for each slot's turn; `push_wait` is the same with one item. Any number of producers and
    the consumer interleave step by step.
 */
module TicketRing {
  import opened RingIndex
  import opened SlotSequence
  import R = SlotRing

  /** Where a producer is: filling position `first + i` of its batch. */
  datatype Producer<T> =
    | Idle
    | Wait(first: nat, batch: seq<T>, i: nat)       // loads the slot's sequence until it is its turn
    | Write(first: nat, batch: seq<T>, i: nat)      // writes slot.data
    | Publish(first: nat, batch: seq<T>, i: nat)    // stores the next sequence number

  /** `owners[p]` is the producer of position `p`; `batches` lists the batches in reservation order. */
  datatype State<T> = State(ring: R.Ring<T>, producers: seq<Producer<T>>, owners: seq<nat>, batches: seq<seq<T>>)

  datatype Action<T> =
    | Push(producer: nat, batch: seq<T>)    // the fetch_add of push_wait or push_batch_wait
    | Continue(producer: nat)
    | Pop

  function Fresh<T>(data: seq<T>, producers: nat): State<T> {
    State(R.Fresh(data), seq(producers, i => Idle), [], [])
  }

  function Begin<T>(s: State<T>, t: nat, batch: seq<T>): State<T>
    requires t < |s.producers|
  {
    State(R.Reserve(s.ring, batch), s.producers[t := Wait(s.ring.enqueuePos, batch, 0)],
          s.owners + seq(|batch|, k => t), s.batches + [batch])
  }

  function Resume<T>(s: State<T>, t: nat): State<T>
    requires R.WellSized(s.ring) && t < |s.producers|
  {
    match s.producers[t]
    case Idle => s
    case Wait(first, batch, i) =>
      if R.Turn(s.ring, first + i) == first + i then s.(producers := s.producers[t := Write(first, batch, i)]) else s
    case Write(first, batch, i) =>
      if i < |batch|
      then s.(ring := R.WriteData(s.ring, first + i, batch[i]), producers := s.producers[t := Publish(first, batch, i)])
      else s
    case Publish(first, batch, i) =>
      s.(ring := R.StoreSeq(s.ring, first + i, first + i + 1),
         producers := s.producers[t := if i + 1 < |batch| then Wait(first, batch, i + 1) else Idle])
  }

  function Step<T>(s: State<T>, a: Action<T>): (s': State<T>)
    requires R.WellSized(s.ring)
    ensures R.WellSized(s'.ring) && |s'.ring.seqs| == |s.ring.seqs| && |s'.producers| == |s.producers|
  {
    match a
    case Push(t, batch) =>
      if t < |s.producers| && s.producers[t].Idle? && batch != [] then Begin(s, t, batch) else s
    case Continue(t) => if t < |s.producers| then Resume(s, t) else s
    case Pop => s.(ring := R.ConsumerStep(s.ring))
  }

  function Run<T>(data: seq<T>, producers: nat, schedule: seq<Action<T>>): (s: State<T>)
    requires 0 < |data|
    ensures R.WellSized(s.ring) && |s.ring.seqs| == |data| && |s.producers| == producers
  {
    if schedule == [] then Fresh(data, producers)
    else Step(Run(data, producers, schedule[..|schedule| - 1]), schedule[|schedule| - 1])
  }

  // ---------------------------------------------------------------- the invariant

  /** An unpublished position is still ahead of the producer that reserved it. */
  ghost predicate Held<T>(seqs: seq<nat>, producers: seq<Producer<T>>, p: nat, t: nat)
    requires 0 < |seqs|
  {
    t < |producers| &&
    (!Published(seqs, p) ==>
       !producers[t].Idle? && producers[t].first + producers[t].i <= p < producers[t].first + |producers[t].batch|)
  }

  /** A batch is what its positions were reserved for, and they are all its producer's. */
  ghost predicate Claims<T>(items: seq<T>, owners: seq<nat>, first: nat, batch: seq<T>, t: nat) {
    && first + |batch| <= |items| == |owners|
    && items[first..first + |batch|] == batch
    && forall p: nat :: first <= p < first + |batch| ==> owners[p] == t
  }

  ghost predicate Ahead(seqs: seq<nat>, from: nat, to: nat)
    requires 0 < |seqs|
  {
    forall p: nat :: from <= p < to ==> !Published(seqs, p)
  }

  ghost predicate ProducerOk<T>(r: R.Ring<T>, owners: seq<nat>, pc: Producer<T>, t: nat)
    requires R.WellSized(r)
  {
    !pc.Idle? ==>
      && pc.i < |pc.batch|
      && Claims(r.items, owners, pc.first, pc.batch, t)
      && Ahead(r.seqs, pc.first + pc.i, pc.first + |pc.batch|)
      && (!pc.Wait? ==> R.Turn(r, pc.first + pc.i) == pc.first + pc.i)
      && (pc.Publish? ==> r.data[Slot(pc.first + pc.i, |r.seqs|)] == pc.batch[pc.i])
  }

  function Flatten<T>(batches: seq<seq<T>>): seq<T> {
    if batches == [] then [] else Flatten(batches[..|batches| - 1]) + batches[|batches| - 1]
  }

  ghost predicate AllHeld<T>(seqs: seq<nat>, producers: seq<Producer<T>>, owners: seq<nat>)
    requires 0 < |seqs|
  {
    forall p: nat :: p < |owners| ==> Held(seqs, producers, p, owners[p])
  }

  ghost predicate AllOk<T>(r: R.Ring<T>, producers: seq<Producer<T>>, owners: seq<nat>)
    requires R.WellSized(r)
  {
    forall t: nat :: t < |producers| ==> ProducerOk(r, owners, producers[t], t)
  }

  ghost predicate Inv<T>(s: State<T>) {
    && R.WellSized(s.ring) && R.Inv(s.ring) && |s.owners| == |s.ring.items|
    && s.ring.items == Flatten(s.batches)
    && AllHeld(s.ring.seqs, s.producers, s.owners)
    && AllOk(s.ring, s.producers, s.owners)
  }

  lemma StartsGood<T>(data: seq<T>, producers: nat)
    requires 2 <= |data|
    ensures Inv(Fresh(data, producers))
  {
    R.StartsGood(data);
  }

  // ---------------------------------------------------------------- reserving

  lemma BeginHeld<T>(s: State<T>, t: nat, batch: seq<T>)
    requires Inv(s) && t < |s.producers| && s.producers[t].Idle?
    ensures AllHeld(s.ring.seqs, Begin(s, t, batch).producers, Begin(s, t, batch).owners)
  {
    var s' := Begin(s, t, batch);
    hide Slot, Published, R.Inv, AllOk, Flatten;
    forall p: nat | p < |s'.owners| ensures Held(s.ring.seqs, s'.producers, p, s'.owners[p]) {
      assert p < |s.owners| ==> Held(s.ring.seqs, s.producers, p, s.owners[p]);
    }
  }

  lemma BeginOk<T>(s: State<T>, t: nat, batch: seq<T>)
    requires Inv(s) && t < |s.producers| && batch != []
    ensures AllOk(Begin(s, t, batch).ring, Begin(s, t, batch).producers, Begin(s, t, batch).owners)
  {
    var s' := Begin(s, t, batch);
    assert Ahead(s.ring.seqs, s.ring.enqueuePos, s.ring.enqueuePos + |batch|);
    assert |s.ring.items| == s.ring.enqueuePos == |s.owners|;
    hide Slot, R.Inv, R.Turn, Ahead, Flatten, AllHeld, Claims;
    ClaimsNew(s.ring.items, s.owners, batch, t);
    forall u: nat | u < |s'.producers| ensures ProducerOk(s'.ring, s'.owners, s'.producers[u], u) {
      var pc := s.producers[u];
      assert ProducerOk(s.ring, s.owners, pc, u);
      if !pc.Idle? {
        ClaimsKept(s.ring.items, s.owners, pc.first, pc.batch, u, batch, t);
      }
    }
  }

  lemma ClaimsNew<T>(items: seq<T>, owners: seq<nat>, batch: seq<T>, t: nat)
    requires |items| == |owners|
    ensures Claims(items + batch, owners + seq(|batch|, k => t), |items|, batch, t)
  {
  }

  lemma ClaimsKept<T>(items: seq<T>, owners: seq<nat>, first: nat, own: seq<T>, u: nat, batch: seq<T>, t: nat)
    requires Claims(items, owners, first, own, u)
    ensures Claims(items + batch, owners + seq(|batch|, k => t), first, own, u)
  {
    assert (items + batch)[first..first + |own|] == items[first..first + |own|];
  }

  lemma BeginKeeps<T>(s: State<T>, t: nat, batch: seq<T>)
    requires Inv(s) && t < |s.producers| && s.producers[t].Idle? && batch != []
    ensures Inv(Begin(s, t, batch))
  {
    BeginHeld(s, t, batch);
    BeginOk(s, t, batch);
    hide R.Inv, AllHeld, AllOk;
    R.ReserveKeeps(s.ring, batch);
    assert (s.batches + [batch])[..|s.batches|] == s.batches;
  }

  // ---------------------------------------------------------------- waiting and writing

  /** A producer that stays at the same position of the same batch holds what it held. */
  lemma SameWorkHeld<T>(seqs: seq<nat>, producers: seq<Producer<T>>, owners: seq<nat>, t: nat, pc: Producer<T>)
    requires 0 < |seqs| && AllHeld(seqs, producers, owners) && t < |producers| && !producers[t].Idle? && !pc.Idle?
    requires pc.first == producers[t].first && pc.batch == producers[t].batch && pc.i == producers[t].i
    ensures AllHeld(seqs, producers[t := pc], owners)
  {
    hide Published;
    forall p: nat | p < |owners| ensures Held(seqs, producers[t := pc], p, owners[p]) {
      assert Held(seqs, producers, p, owners[p]);
    }
  }

  lemma WaitKeeps<T>(s: State<T>, t: nat)
    requires Inv(s) && t < |s.producers| && s.producers[t].Wait?
    ensures Inv(Resume(s, t))
  {
    var s' := Resume(s, t);
    hide R.Inv, AllHeld, Flatten, Claims, Ahead;
    if s' != s {
      SameWorkHeld(s.ring.seqs, s.producers, s.owners, t, s'.producers[t]);
      WaitOk(s, t);
    }
  }

  lemma WaitOk<T>(s: State<T>, t: nat)
    requires R.WellSized(s.ring) && AllOk(s.ring, s.producers, s.owners) && t < |s.producers| && s.producers[t].Wait?
    ensures AllOk(s.ring, Resume(s, t).producers, s.owners)
  {
    hide Slot, Claims, Ahead;
    var s' := Resume(s, t);
    forall u: nat | u < |s'.producers| ensures ProducerOk(s.ring, s.owners, s'.producers[u], u) {
      assert ProducerOk(s.ring, s.owners, s.producers[u], u);
    }
  }

  /** What the invariant says of a producer at work. */
  lemma Working<T>(s: State<T>, t: nat)
    requires Inv(s) && t < |s.producers| && !s.producers[t].Idle?
    ensures ProducerOk(s.ring, s.owners, s.producers[t], t)
    ensures R.WellSized(s.ring) && R.Inv(s.ring) && R.Positions(s.ring)
    ensures var pc := s.producers[t];
            && pc.i < |pc.batch| && pc.first + |pc.batch| <= |s.ring.items|
            && s.ring.items[pc.first + pc.i] == pc.batch[pc.i]
            && (!pc.Wait? ==> R.Turn(s.ring, pc.first + pc.i) == pc.first + pc.i)
            && (pc.Publish? ==> s.ring.data[Slot(pc.first + pc.i, |s.ring.seqs|)] == pc.batch[pc.i])
  {
    var pc := s.producers[t];
    assert ProducerOk(s.ring, s.owners, pc, t);
    hide Slot, AllHeld, AllOk, Flatten, R.Turn, Ahead;
    ClaimedItem(s.ring.items, s.owners, pc.first, pc.batch, t, pc.i);
  }

  /** Two producers never fill the same position: it has one owner. */
  lemma DistinctWork<T>(s: State<T>, t: nat, u: nat)
    requires Inv(s) && t < |s.producers| && u < |s.producers| && t != u
    requires !s.producers[t].Idle? && !s.producers[u].Idle?
    ensures var pos := s.producers[t].first + s.producers[t].i;
            !(s.producers[u].first <= pos < s.producers[u].first + |s.producers[u].batch|)
  {
    var pos := s.producers[t].first + s.producers[t].i;
    assert ProducerOk(s.ring, s.owners, s.producers[t], t) && ProducerOk(s.ring, s.owners, s.producers[u], u);
    hide R.Inv, AllHeld, Flatten, Ahead, Slot;
    assert s.owners[pos] == t;
  }

  lemma WriteRing<T>(s: State<T>, t: nat)
    requires Inv(s) && t < |s.producers| && s.producers[t].Write?
    ensures R.Inv(Resume(s, t).ring)
  {
    hide Inv, R.Inv, R.Positions, ProducerOk, R.Turn, Slot;
    Working(s, t);
    R.WriteKeeps(s.ring, s.producers[t].first + s.producers[t].i, s.producers[t].batch[s.producers[t].i]);
  }

  lemma WriteHeld<T>(s: State<T>, t: nat)
    requires Inv(s) && t < |s.producers| && s.producers[t].Write?
    ensures AllHeld(Resume(s, t).ring.seqs, Resume(s, t).producers, s.owners)
  {
    hide R.Inv, AllHeld, AllOk, Flatten;
    Working(s, t);
    SameWorkHeld(s.ring.seqs, s.producers, s.owners, t, Resume(s, t).producers[t]);
  }

  lemma WriteOther<T>(s: State<T>, t: nat, u: nat)
    requires Inv(s) && t < |s.producers| && s.producers[t].Write? && u < |s.producers|
    ensures ProducerOk(Resume(s, t).ring, s.owners, Resume(s, t).producers[u], u)
  {
    hide Inv, R.Inv, R.Positions, ProducerOk, R.Turn, Slot;
    var pc := s.producers[t];
    Working(s, t);
    if u == t {
      WriteOwn(s.ring, s.owners, pc, t);
    } else if s.producers[u].Idle? {
      IdleOk(Resume(s, t).ring, s.owners, s.producers[u], u);
    } else {
      Working(s, u);
      DistinctWork(s, t, u);
      WriteElsewhere(s.ring, s.owners, pc.first + pc.i, pc.batch[pc.i], s.producers[u], u);
    }
  }

  lemma IdleOk<T>(r: R.Ring<T>, owners: seq<nat>, pc: Producer<T>, u: nat)
    requires R.WellSized(r) && pc.Idle?
    ensures ProducerOk(r, owners, pc, u)
  {
  }

  lemma WriteKeeps<T>(s: State<T>, t: nat)
    requires Inv(s) && t < |s.producers| && s.producers[t].Write?
    ensures Inv(Resume(s, t))
  {
    hide R.Inv, AllHeld, Flatten, ProducerOk;
    Working(s, t);
    WriteRing(s, t);
    WriteHeld(s, t);
    forall u: nat | u < |s.producers| ensures ProducerOk(Resume(s, t).ring, s.owners, Resume(s, t).producers[u], u) {
      WriteOther(s, t, u);
    }
  }

  lemma WriteOwn<T>(r: R.Ring<T>, owners: seq<nat>, pc: Producer<T>, t: nat)
    requires R.WellSized(r) && pc.Write? && ProducerOk(r, owners, pc, t)
    ensures ProducerOk(R.WriteData(r, pc.first + pc.i, pc.batch[pc.i]), owners, Publish(pc.first, pc.batch, pc.i), t)
  {
    hide Slot, Claims, Ahead;
  }

  lemma WriteElsewhere<T>(r: R.Ring<T>, owners: seq<nat>, pos: nat, x: T, pc: Producer<T>, u: nat)
    requires R.WellSized(r) && R.Turn(r, pos) == pos && ProducerOk(r, owners, pc, u) && !pc.Idle?
    requires !(pc.first <= pos < pc.first + |pc.batch|)
    ensures ProducerOk(R.WriteData(r, pos, x), owners, pc, u)
  {
    hide Slot, Claims, Ahead;
  }

  // ---------------------------------------------------------------- publishing

  /** Publishing `pos` leaves every other unpublished position so. */
  lemma StillAhead<T>(r: R.Ring<T>, pos: nat, from: nat, to: nat)
    requires R.Positions(r) && R.Turn(r, pos) == pos && Ahead(r.seqs, from, to) && !(from <= pos < to)
    ensures Ahead(R.StoreSeq(r, pos, pos + 1).seqs, from, to)
  {
    R.PublishFrame(r, pos);
    hide Slot, Published, R.Turn;
    var r' := R.StoreSeq(r, pos, pos + 1);
    forall p: nat | from <= p < to ensures !Published(r'.seqs, p) {
      assert Published(r'.seqs, p) <==> Published(r.seqs, p) || p == pos;
    }
  }

  lemma PublishElsewhere<T>(r: R.Ring<T>, owners: seq<nat>, pos: nat, pc: Producer<T>, u: nat)
    requires R.Positions(r) && R.Turn(r, pos) == pos && ProducerOk(r, owners, pc, u) && !pc.Idle?
    requires !(pc.first <= pos < pc.first + |pc.batch|)
    ensures ProducerOk(R.StoreSeq(r, pos, pos + 1), owners, pc, u)
  {
    StillAhead(r, pos, pc.first + pc.i, pc.first + |pc.batch|);
    R.PublishFrame(r, pos);
    hide Slot, Claims, Ahead, R.Turn, R.Positions;
    assert R.Turn(r, pc.first + pc.i) == pc.first + pc.i ==>
        R.Turn(R.StoreSeq(r, pos, pos + 1), pc.first + pc.i) == pc.first + pc.i;
  }

  lemma PublishNext<T>(r: R.Ring<T>, owners: seq<nat>, pc: Producer<T>, t: nat)
    requires R.Positions(r) && pc.Publish? && ProducerOk(r, owners, pc, t)
    ensures var pos := pc.first + pc.i;
            ProducerOk(R.StoreSeq(r, pos, pos + 1), owners,
                       if pc.i + 1 < |pc.batch| then Wait(pc.first, pc.batch, pc.i + 1) else Idle, t)
  {
    var pos := pc.first + pc.i;
    assert Ahead(r.seqs, pos + 1, pc.first + |pc.batch|);
    StillAhead(r, pos, pos + 1, pc.first + |pc.batch|);
    hide Slot, Claims, Ahead, R.Turn, R.Positions;
  }

  lemma PublishRing<T>(s: State<T>, t: nat)
    requires Inv(s) && t < |s.producers| && s.producers[t].Publish?
    ensures R.Inv(Resume(s, t).ring)
  {
    hide Inv, R.Inv, R.Positions, ProducerOk, R.Turn, Slot;
    Working(s, t);
    R.PublishKeeps(s.ring, s.producers[t].first + s.producers[t].i);
  }

  lemma ClaimedItem<T>(items: seq<T>, owners: seq<nat>, first: nat, batch: seq<T>, t: nat, i: nat)
    requires Claims(items, owners, first, batch, t) && i < |batch|
    ensures first + i < |items| && items[first + i] == batch[i]
  {
    assert items[first + i] == items[first..first + |batch|][i];
  }

  lemma PublishKeeps<T>(s: State<T>, t: nat)
    requires Inv(s) && t < |s.producers| && s.producers[t].Publish?
    ensures Inv(Resume(s, t))
  {
    hide R.Inv, AllHeld, Flatten, AllOk;
    PublishRing(s, t);
    PublishHeld(s, t);
    PublishOk(s, t);
  }

  lemma PublishOther<T>(s: State<T>, t: nat, u: nat)
    requires Inv(s) && t < |s.producers| && s.producers[t].Publish? && u < |s.producers|
    ensures ProducerOk(Resume(s, t).ring, s.owners, Resume(s, t).producers[u], u)
  {
    hide Inv, R.Inv, R.Positions, ProducerOk, R.Turn, Slot;
    var pc := s.producers[t];
    Working(s, t);
    if u == t {
      PublishNext(s.ring, s.owners, pc, t);
    } else if s.producers[u].Idle? {
      IdleOk(Resume(s, t).ring, s.owners, s.producers[u], u);
    } else {
      Working(s, u);
      DistinctWork(s, t, u);
      PublishElsewhere(s.ring, s.owners, pc.first + pc.i, s.producers[u], u);
    }
  }

  lemma PublishOk<T>(s: State<T>, t: nat)
    requires Inv(s) && t < |s.producers| && s.producers[t].Publish?
    ensures AllOk(Resume(s, t).ring, Resume(s, t).producers, Resume(s, t).owners)
  {
    hide R.Inv, AllHeld, Flatten, ProducerOk;
    forall u: nat | u < |s.producers| ensures ProducerOk(Resume(s, t).ring, s.owners, Resume(s, t).producers[u], u) {
      PublishOther(s, t, u);
    }
  }

  lemma PublishHeld<T>(s: State<T>, t: nat)
    requires Inv(s) && t < |s.producers| && s.producers[t].Publish?
    ensures AllHeld(Resume(s, t).ring.seqs, Resume(s, t).producers, s.owners)
  {
    hide R.Inv, R.Positions, AllHeld, AllOk, Flatten, ProducerOk, R.Turn, Slot, Published;
    var pc := s.producers[t];
    var pos := pc.first + pc.i;
    Working(s, t);
    R.PublishFrame(s.ring, pos);
    NextWorkHeld(s.ring.seqs, R.StoreSeq(s.ring, pos, pos + 1).seqs, s.producers, s.owners, t,
                 if pc.i + 1 < |pc.batch| then Wait(pc.first, pc.batch, pc.i + 1) else Idle);
  }

  /** A producer that has published its position and moves on holds the rest. */
  lemma NextWorkHeld<T>(seqs: seq<nat>, seqs': seq<nat>, producers: seq<Producer<T>>, owners: seq<nat>, t: nat, pc: Producer<T>)
    requires 0 < |seqs| == |seqs'| && AllHeld(seqs, producers, owners) && t < |producers| && !producers[t].Idle?
    requires forall p: nat :: Published(seqs', p) <==> Published(seqs, p) || p == producers[t].first + producers[t].i
    requires pc == if producers[t].i + 1 < |producers[t].batch|
                   then Wait(producers[t].first, producers[t].batch, producers[t].i + 1) else Idle
    ensures AllHeld(seqs', producers[t := pc], owners)
  {
    hide Published;
    forall p: nat | p < |owners| ensures Held(seqs', producers[t := pc], p, owners[p]) {
      assert Held(seqs, producers, p, owners[p]);
      assert Published(seqs', p) <==> Published(seqs, p) || p == producers[t].first + producers[t].i;
    }
  }

  // ---------------------------------------------------------------- popping

  lemma PopHeld<T>(s: State<T>)
    requires Inv(s)
    ensures AllHeld(R.ConsumerStep(s.ring).seqs, s.producers, s.owners)
  {
    var r' := R.ConsumerStep(s.ring);
    R.ConsumerFrame(s.ring);
    hide Slot, Published, R.Inv, R.Turn, R.ConsumerStep, Flatten, AllOk;
    forall p: nat | p < |s.owners| ensures Held(r'.seqs, s.producers, p, s.owners[p]) {
      assert Held(s.ring.seqs, s.producers, p, s.owners[p]);
      assert Published(r'.seqs, p) <==> Published(s.ring.seqs, p);
    }
  }

  lemma PopOk<T>(s: State<T>)
    requires Inv(s)
    ensures AllOk(R.ConsumerStep(s.ring), s.producers, s.owners)
  {
    var r' := R.ConsumerStep(s.ring);
    R.ConsumerFrame(s.ring);
    hide Slot, Published, R.Inv, R.Turn, R.ConsumerStep, Flatten, Claims, AllHeld;
    forall u: nat | u < |s.producers| ensures ProducerOk(r', s.owners, s.producers[u], u) {
      var pc := s.producers[u];
      assert ProducerOk(s.ring, s.owners, pc, u);
      if !pc.Idle? {
        forall p: nat | pc.first + pc.i <= p < pc.first + |pc.batch| ensures !Published(r'.seqs, p) {
          assert Published(r'.seqs, p) <==> Published(s.ring.seqs, p);
        }
        assert R.Turn(s.ring, pc.first + pc.i) == pc.first + pc.i ==> R.Turn(r', pc.first + pc.i) == pc.first + pc.i;
      }
    }
  }

  lemma PopKeeps<T>(s: State<T>)
    requires Inv(s)
    ensures Inv(Step(s, Pop))
  {
    PopHeld(s);
    PopOk(s);
    hide R.Inv, AllHeld, AllOk, Flatten;
    R.ConsumerKeeps(s.ring);
  }

  lemma StepKeeps<T>(s: State<T>, a: Action<T>)
    requires Inv(s)
    ensures Inv(Step(s, a))
  {
    match a
    case Push(t, batch) =>
      if t < |s.producers| && s.producers[t].Idle? && batch != [] { BeginKeeps(s, t, batch); }
    case Pop => PopKeeps(s);
    case Continue(t) =>
      if t < |s.producers| {
        if s.producers[t].Wait? { WaitKeeps(s, t); }
        else if s.producers[t].Write? { WriteKeeps(s, t); }
        else if s.producers[t].Publish? { PublishKeeps(s, t); }
      }
  }

  lemma {:induction false} RunKeeps<T>(data: seq<T>, producers: nat, schedule: seq<Action<T>>)
    requires 2 <= |data|
    ensures Inv(Run(data, producers, schedule))
  {
    if schedule == [] {
      StartsGood(data, producers);
    } else {
      RunKeeps(data, producers, schedule[..|schedule| - 1]);
      StepKeeps(Run(data, producers, schedule[..|schedule| - 1]), schedule[|schedule| - 1]);
    }
  }

  // ---------------------------------------------------------------- what the consumer sees

  /** In every run the popped items are a prefix of the batches, whole and in reservation order:
      nothing is lost, duplicated, or mixed into another producer's batch, whatever the batch sizes. */
  lemma PoppedInBatches<T>(data: seq<T>, producers: nat, schedule: seq<Action<T>>)
    requires 2 <= |data|
    ensures var s := Run(data, producers, schedule);
            && |s.ring.popped| <= |Flatten(s.batches)|
            && s.ring.popped == Flatten(s.batches)[..|s.ring.popped|]
  {
    RunKeeps(data, producers, schedule);
  }

  /** The items of batch `c` occupy consecutive places of the sequence of all batches. */
  lemma {:induction false} BatchIsContiguous<T>(batches: seq<seq<T>>, c: nat)
    requires c < |batches|
    ensures var first := |Flatten(batches[..c])|;
            first + |batches[c]| <= |Flatten(batches)| && Flatten(batches)[first..first + |batches[c]|] == batches[c]
  {
    var last := |batches| - 1;
    if c == last {
      assert batches[..c] == batches[..last];
    } else {
      BatchIsContiguous(batches[..last], c);
      assert batches[..last][..c] == batches[..c];
      var first := |Flatten(batches[..c])|;
      assert Flatten(batches)[first..first + |batches[c]|] == Flatten(batches[..last])[first..first + |batches[c]|];
    }
  }

  /** The oldest unpublished position is exactly where its producer is. */
  lemma OldestIsNext<T>(s: State<T>)
    requires Inv(s) && |s.ring.popped| < s.ring.enqueuePos && !Published(s.ring.seqs, |s.ring.popped|)
    ensures var pc := s.producers[s.owners[|s.ring.popped|]];
            !pc.Idle? && pc.first + pc.i == |s.ring.popped|
    ensures s.owners[|s.ring.popped|] < |s.producers|
  {
    var head := |s.ring.popped|;
    var t := s.owners[head];
    assert Held(s.ring.seqs, s.producers, head, t);
    var pos := s.producers[t].first + s.producers[t].i;
    assert ProducerOk(s.ring, s.owners, s.producers[t], t);
    hide Slot, Flatten, Claims, AllHeld, AllOk;
    assert !Published(s.ring.seqs, pos);
    assert pos < head ==> Released(s.ring.seqs, pos);
  }

  /** Progress: while the oldest reserved item is unpublished, its producer is not blocked. So
      producers and consumer never wait for each other in a cycle. */
  lemma OldestCanStep<T>(s: State<T>)
    requires Inv(s) && |s.ring.popped| < s.ring.enqueuePos && !Published(s.ring.seqs, |s.ring.popped|)
    ensures var t := s.owners[|s.ring.popped|];
            t < |s.producers| && Resume(s, t) != s
  {
    var r, head, capacity := s.ring, |s.ring.popped|, |s.ring.seqs|;
    OldestIsNext(s);
    assert ProducerOk(r, s.owners, s.producers[s.owners[head]], s.owners[head]);
    TurnOfOldest(r);
  }

  lemma TurnOfOldest<T>(r: R.Ring<T>)
    requires R.Positions(r) && !Published(r.seqs, |r.popped|)
    ensures R.Turn(r, |r.popped|) == |r.popped|
  {
    var head, capacity := |r.popped|, |r.seqs|;
    var v := R.Turn(r, head);
    assert SlotOk(v, Slot(head, capacity), capacity);
    if capacity <= head {
      SlotNextLap(head - capacity, capacity);
      assert Released(r.seqs, head - capacity);
    }
    hide Slot;
    if v < head {
      EarlierLap(v, head, capacity);
    }
  }

  // ---------------------------------------------------------------- what callers asked for

  datatype Request<T> = Request(producer: nat, batch: seq<T>)

  /** The pushes begun in a schedule: a producer begins one when it has none under way, and an empty
      batch returns at once. */
  ghost function Begun<T>(data: seq<T>, producers: nat, schedule: seq<Action<T>>): seq<Request<T>>
    requires 0 < |data|
    decreases |schedule|
  {
    if |schedule| == 0 then [] else
    var before, a := schedule[..|schedule| - 1], schedule[|schedule| - 1];
    Begun(data, producers, before) + Begins(Run(data, producers, before), a)
  }

  ghost function Begins<T>(s: State<T>, a: Action<T>): seq<Request<T>> {
    if a.Push? && a.batch != [] && a.producer < |s.producers| && s.producers[a.producer].Idle?
    then [Request(a.producer, a.batch)] else []
  }

  ghost function BatchesOf<T>(calls: seq<Request<T>>): seq<seq<T>>
    decreases |calls|
  {
    if |calls| == 0 then [] else BatchesOf(calls[..|calls| - 1]) + [calls[|calls| - 1].batch]
  }

  /** Every item of a batch is its caller's. */
  ghost function CallersOf<T>(calls: seq<Request<T>>): seq<nat>
    decreases |calls|
  {
    if |calls| == 0 then [] else
    var last := calls[|calls| - 1];
    CallersOf(calls[..|calls| - 1]) + seq(|last.batch|, k => last.producer)
  }

  /** Batches are reserved as they were asked for, in the order of the calls. */
  lemma {:induction false} CallsReserve<T>(data: seq<T>, producers: nat, schedule: seq<Action<T>>)
    requires 0 < |data|
    ensures var s, calls := Run(data, producers, schedule), Begun(data, producers, schedule);
            s.batches == BatchesOf(calls) && s.owners == CallersOf(calls)
    decreases |schedule|
  {
    if |schedule| != 0 {
      var before, a := schedule[..|schedule| - 1], schedule[|schedule| - 1];
      CallsReserve(data, producers, before);
      hide Step, BatchesOf, CallersOf, Begins;
      ReservedNext(Run(data, producers, before), a, Begun(data, producers, before));
    }
  }

  lemma ReservedNext<T>(s: State<T>, a: Action<T>, calls: seq<Request<T>>)
    requires R.WellSized(s.ring) && s.batches == BatchesOf(calls) && s.owners == CallersOf(calls)
    ensures var more := calls + Begins(s, a);
            Step(s, a).batches == BatchesOf(more) && Step(s, a).owners == CallersOf(more)
  {
    hide Slot, R.ConsumerStep;
    if Begins(s, a) == [] {
      assert calls + Begins(s, a) == calls;
    } else {
      assert (calls + Begins(s, a))[..|calls|] == calls;
    }
  }

  /** When a push has returned, all its items are published. */
  lemma ReturnedIsPublished<T>(data: seq<T>, producers: nat, schedule: seq<Action<T>>, p: nat)
    requires 2 <= |data|
    ensures var s := Run(data, producers, schedule);
            p < |s.owners| ==>
              s.owners[p] < producers && (s.producers[s.owners[p]].Idle? ==> Published(s.ring.seqs, p))
  {
    hide Run;
    RunKeeps(data, producers, schedule);
    var s := Run(data, producers, schedule);
    if p < |s.owners| {
      assert Held(s.ring.seqs, s.producers, p, s.owners[p]);
    }
  }

  /** How many more steps the push in progress takes. */
  function StepsLeft<T>(pc: Producer<T>): int {
    match pc
    case Idle => 0
    case Wait(_, batch, i) => 3 * (|batch| - i)
    case Write(_, batch, i) => 3 * (|batch| - i) - 1
    case Publish(_, batch, i) => 3 * (|batch| - i) - 2
  }

  /** A push whose slot's turn has come is one step closer to its return, and otherwise it waits. */
  lemma StepsCountDown<T>(s: State<T>, t: nat)
    requires Inv(s) && t < |s.producers| && !s.producers[t].Idle?
    ensures 0 < StepsLeft(s.producers[t])
    ensures R.WellSized(s.ring)
    ensures var pc := s.producers[t];
            if pc.Wait? && R.Turn(s.ring, pc.first + pc.i) != pc.first + pc.i then Resume(s, t) == s
            else StepsLeft(Resume(s, t).producers[t]) == StepsLeft(pc) - 1
  {
    assert ProducerOk(s.ring, s.owners, s.producers[t], t);
    hide Slot, R.Inv, AllHeld, AllOk, Flatten, Claims, Ahead;
  }

  // ---------------------------------------------------------------- in place

  /** The ring and the producers at work on it, updated in place one step at a time. */
  class Ring<T> {
    const memory: R.Memory<T>
    const producers: array<Producer<T>>
    ghost var owners: seq<nat>
    ghost var batches: seq<seq<T>>

    ghost predicate Valid()
      reads this, memory
    {
      && memory.Valid() && producers as object != memory
      && producers as object != memory.seqs && producers as object != memory.data
    }

    ghost function View(): State<T>
      reads this, memory, memory.seqs, memory.data, producers
    {
      State(memory.View(), producers[..], owners, batches)
    }

    constructor (initial: seq<T>, producerCount: nat)
      requires 2 <= |initial|
      ensures Valid() && fresh(memory) && fresh(memory.seqs) && fresh(memory.data) && fresh(producers)
      ensures View() == Fresh(initial, producerCount)
    {
      memory := new R.Memory(initial);
      producers := new Producer<T>[producerCount](i => Idle);
      owners, batches := [], [];
      new;
      assert producers[..] == seq(producerCount, i => Idle);
    }

    /** The fetch_add of `push_batch_wait`, or of `push_wait` with a single item. An empty batch
        returns without reserving anything. */
    method PushBatch(t: nat, batch: seq<T>)
      requires Valid() && t < producers.Length && producers[t].Idle?
      modifies this, memory, producers
      ensures Valid() && View() == Step(old(View()), Push(t, batch))
    {
      if |batch| == 0 { return; }
      producers[t] := Wait(memory.enqueuePos, batch, 0);
      memory.ReservePositions(|batch|, batch);
      owners := owners + seq(|batch|, k => t);
      batches := batches + [batch];
    }

    /** The next load or store of the push in progress on producer `t`. */
    method Proceed(t: nat)
      requires Valid() && t < producers.Length
      requires producers[t].Write? ==> producers[t].i < |producers[t].batch|
      modifies memory.seqs, memory.data, producers
      ensures Valid() && View() == Step(old(View()), Continue(t))
    {
      match producers[t] {
        case Idle =>
        case Wait(first, batch, i) =>
          if memory.seqs[Slot(first + i, memory.seqs.Length)] == first + i { producers[t] := Write(first, batch, i); }
        case Write(first, batch, i) =>
          memory.WriteSlot(first + i, batch[i]);
          producers[t] := Publish(first, batch, i);
        case Publish(first, batch, i) =>
          memory.StoreSequence(first + i, first + i + 1);
          producers[t] := if i + 1 < |batch| then Wait(first, batch, i + 1) else Idle;
      }
    }

    /** The consumer's next load or store. */
    method Consume()
      requires Valid()
      modifies memory, memory.seqs
      ensures Valid() && View() == Step(old(View()), Pop)
    {
      memory.Consume();
    }
  }
}
