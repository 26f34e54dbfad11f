/** The ticketed multi-producer multi-consumer queue.

    `enqueue_wait` and `dequeue_wait` take a ticket with one fetch_add, wait for the sequence number
    of the ticket's slot, access the slot's data, and publish the next sequence number. Every load,
    store and fetch_add is a step, taken by any of any number of threads in any order.
 */
module MpmcQueue {
  import opened RingIndex
  import opened SlotSequence

  /** Where a thread is in `enqueue_wait` or `dequeue_wait`. */
  datatype Pc<T> =
    | Idle
    | EnqWait(pos: nat, item: T)       // loads the slot's sequence until it equals pos
    | EnqWrite(pos: nat, item: T)      // writes slot.data
    | EnqPublish(pos: nat, item: T)    // stores pos + 1
    | DeqWait(pos: nat)                // loads the slot's sequence until it equals pos + 1
    | DeqRead(pos: nat)                // reads slot.data
    | DeqRelease(pos: nat, out: T)     // stores pos + capacity

  /** Histories: `items[p]` and `enqueuers[p]` are the item and thread of enqueue ticket `p`,
      `dequeuers[p]` the thread of dequeue ticket `p`, and `delivered` the completed dequeues. */
  datatype State<T> = State(
    enqueuePos: nat, dequeuePos: nat, seqs: seq<nat>, data: seq<T>, threads: seq<Pc<T>>,
    items: seq<T>, enqueuers: seq<nat>, dequeuers: seq<nat>, delivered: map<nat, T>)

  datatype Action<T> =
    | Enqueue(thread: nat, item: T)    // call enqueue_wait: fetch_add on the enqueue ticket
    | Dequeue(thread: nat)             // call dequeue_wait: fetch_add on the dequeue ticket
    | Continue(thread: nat)            // the next load or store of the call in progress

  function Capacity<T>(s: State<T>): nat {
    |s.seqs|
  }

  predicate WellSized<T>(s: State<T>) {
    0 < |s.seqs| == |s.data|
  }

  /** The constructor: slot `i` starts free for ticket `i`. */
  function Fresh<T>(data: seq<T>, threads: nat): State<T> {
    State(0, 0, seq(|data|, i => i), data, seq(threads, i => Idle), [], [], [], map[])
  }

  function Resume<T>(s: State<T>, t: nat): State<T>
    requires WellSized(s) && t < |s.threads|
  {
    match s.threads[t]
    case Idle => s
    case EnqWait(pos, item) =>
      if s.seqs[Slot(pos, Capacity(s))] == pos then s.(threads := s.threads[t := EnqWrite(pos, item)]) else s
    case EnqWrite(pos, item) =>
      s.(data := s.data[Slot(pos, Capacity(s)) := item], threads := s.threads[t := EnqPublish(pos, item)])
    case EnqPublish(pos, item) =>
      s.(seqs := s.seqs[Slot(pos, Capacity(s)) := pos + 1], threads := s.threads[t := Idle])
    case DeqWait(pos) =>
      if s.seqs[Slot(pos, Capacity(s))] == pos + 1 then s.(threads := s.threads[t := DeqRead(pos)]) else s
    case DeqRead(pos) =>
      s.(threads := s.threads[t := DeqRelease(pos, s.data[Slot(pos, Capacity(s))])])
    case DeqRelease(pos, out) =>
      s.(seqs := s.seqs[Slot(pos, Capacity(s)) := pos + Capacity(s)], threads := s.threads[t := Idle],
         delivered := s.delivered[pos := out])
  }

  function Step<T>(s: State<T>, a: Action<T>): (s': State<T>)
    requires WellSized(s)
    ensures WellSized(s') && Capacity(s') == Capacity(s) && |s'.threads| == |s.threads|
  {
    if a.thread >= |s.threads| then s
    else
      match a
      case Enqueue(t, item) =>
        if s.threads[t].Idle? then
          s.(enqueuePos := s.enqueuePos + 1, threads := s.threads[t := EnqWait(s.enqueuePos, item)],
             items := s.items + [item], enqueuers := s.enqueuers + [t])
        else s
      case Dequeue(t) =>
        if s.threads[t].Idle? then
          s.(dequeuePos := s.dequeuePos + 1, threads := s.threads[t := DeqWait(s.dequeuePos)],
             dequeuers := s.dequeuers + [t])
        else s
      case Continue(t) => Resume(s, t)
  }

  /** The state after a whole schedule. */
  function Run<T>(data: seq<T>, threads: nat, schedule: seq<Action<T>>): (s: State<T>)
    requires 0 < |data|
    ensures WellSized(s) && Capacity(s) == |data| && |s.threads| == threads
  {
    if schedule == [] then Fresh(data, threads)
    else Step(Run(data, threads, schedule[..|schedule| - 1]), schedule[|schedule| - 1])
  }

  // ---------------------------------------------------------------- the invariant

  predicate Enqueuing<T>(pc: Pc<T>) { pc.EnqWait? || pc.EnqWrite? || pc.EnqPublish? }

  predicate Dequeuing<T>(pc: Pc<T>) { pc.DeqWait? || pc.DeqRead? || pc.DeqRelease? }

  ghost predicate Shape<T>(s: State<T>) {
    && WellSized(s) && 2 <= Capacity(s)
    && |s.items| == |s.enqueuers| == s.enqueuePos && |s.dequeuers| == s.dequeuePos
    && (forall i: nat :: i < Capacity(s) ==> SlotOk(s.seqs[i], i, Capacity(s)))
    && (forall p: nat :: s.enqueuePos <= p ==> !Published(s.seqs, p))
    && (forall p: nat :: s.dequeuePos <= p ==> !Released(s.seqs, p))
  }

  /** An unserved ticket is held by the thread that took it. */
  ghost predicate EnqueueHeld<T>(s: State<T>, p: nat)
    requires Shape(s) && p < s.enqueuePos
  {
    var t := s.enqueuers[p];
    t < |s.threads| && (!Published(s.seqs, p) ==> Enqueuing(s.threads[t]) && s.threads[t].pos == p)
  }

  ghost predicate DequeueHeld<T>(s: State<T>, p: nat)
    requires Shape(s) && p < s.dequeuePos
  {
    var t := s.dequeuers[p];
    t < |s.threads| && (!Released(s.seqs, p) ==> Dequeuing(s.threads[t]) && s.threads[t].pos == p)
  }

  ghost predicate Tickets<T>(s: State<T>)
    requires Shape(s)
  {
    && (forall p: nat :: p < s.enqueuePos ==> EnqueueHeld(s, p))
    && (forall p: nat :: p < s.dequeuePos ==> DequeueHeld(s, p))
  }

  ghost predicate ThreadOk<T>(s: State<T>, t: nat)
    requires Shape(s) && t < |s.threads|
  {
    var pc := s.threads[t];
    pc.Idle? ||
    var i := Slot(pc.pos, Capacity(s));
    && (Enqueuing(pc) ==>
          && pc.pos < s.enqueuePos && s.enqueuers[pc.pos] == t && s.items[pc.pos] == pc.item
          && !Published(s.seqs, pc.pos))
    && (pc.EnqWrite? || pc.EnqPublish? ==> s.seqs[i] == pc.pos)
    && (pc.EnqPublish? ==> s.data[i] == pc.item)
    && (Dequeuing(pc) ==>
          && pc.pos < s.dequeuePos && s.dequeuers[pc.pos] == t && !Released(s.seqs, pc.pos))
    && (pc.DeqRead? || pc.DeqRelease? ==> s.seqs[i] == pc.pos + 1)
    && (pc.DeqRelease? ==> pc.pos < s.enqueuePos && pc.out == s.items[pc.pos])
  }

  /** A published, unreleased slot holds the item of its ticket, and the completed dequeues are the
      released tickets, each with the item of the same enqueue ticket. */
  ghost predicate Contents<T>(s: State<T>)
    requires Shape(s)
  {
    && (forall p: nat :: s.seqs[Slot(p, Capacity(s))] == p + 1 ==>
          p < s.enqueuePos && s.data[Slot(p, Capacity(s))] == s.items[p])
    && (forall p: nat :: p in s.delivered <==> p < s.dequeuePos && Released(s.seqs, p))
    && (forall p: nat :: p in s.delivered ==> p < s.enqueuePos && s.delivered[p] == s.items[p])
  }

  ghost predicate Inv<T>(s: State<T>) {
    && Shape(s) && Tickets(s) && Contents(s)
    && forall t: nat :: t < |s.threads| ==> ThreadOk(s, t)
  }

  lemma StartsGood<T>(data: seq<T>, threads: nat)
    requires 2 <= |data|
    ensures Inv(Fresh(data, threads))
  {
    var s := Fresh(data, threads);
    assert forall p: nat :: s.seqs[Slot(p, |data|)] <= p;
    hide Slot;
  }

  lemma CallKeeps<T>(s: State<T>, a: Action<T>)
    requires Inv(s) && !a.Continue?
    ensures Inv(Step(s, a))
  {
    hide Slot, SlotOk;
    var s' := Step(s, a);
    assert Shape(s');
    assert Contents(s');
    forall p: nat | p < s'.enqueuePos ensures EnqueueHeld(s', p) {
      assert p < s.enqueuePos ==> EnqueueHeld(s, p);
    }
    forall p: nat | p < s'.dequeuePos ensures DequeueHeld(s', p) {
      assert p < s.dequeuePos ==> DequeueHeld(s, p);
    }
    forall t: nat | t < |s'.threads| ensures ThreadOk(s', t) {
      assert ThreadOk(s, t);
    }
  }

  lemma WaitKeeps<T>(s: State<T>, t: nat)
    requires Inv(s) && t < |s.threads| && (s.threads[t].EnqWait? || s.threads[t].DeqWait? || s.threads[t].DeqRead?)
    ensures Inv(Resume(s, t))
  {
    hide Slot, SlotOk;
    var s' := Resume(s, t);
    assert ThreadOk(s, t);
    assert Shape(s');
    assert Contents(s');
    forall p: nat | p < s'.enqueuePos ensures EnqueueHeld(s', p) {
      assert EnqueueHeld(s, p);
    }
    forall p: nat | p < s'.dequeuePos ensures DequeueHeld(s', p) {
      assert DequeueHeld(s, p);
    }
    forall u: nat | u < |s'.threads| ensures ThreadOk(s', u) {
      assert ThreadOk(s, u);
    }
  }

  lemma WriteKeeps<T>(s: State<T>, t: nat)
    requires Inv(s) && t < |s.threads| && s.threads[t].EnqWrite?
    ensures Inv(Resume(s, t))
  {
    var s' := Resume(s, t);
    assert ThreadOk(s, t);
    var pos := s.threads[t].pos;
    NeighboursDiffer(pos, Capacity(s));
    hide Slot, SlotOk;
    assert Shape(s');
    assert Contents(s');
    forall p: nat | p < s'.enqueuePos ensures EnqueueHeld(s', p) {
      assert EnqueueHeld(s, p);
    }
    forall p: nat | p < s'.dequeuePos ensures DequeueHeld(s', p) {
      assert DequeueHeld(s, p);
    }
    forall u: nat | u < |s'.threads| ensures ThreadOk(s', u) {
      assert ThreadOk(s, u);
    }
  }

  /** The thread is between its successful sequence load and its sequence store. */
  predicate Accessing<T>(pc: Pc<T>) { pc.EnqWrite? || pc.EnqPublish? || pc.DeqRead? || pc.DeqRelease? }

  /** No two threads are ever inside the data access of the same slot. */
  lemma MutualExclusion<T>(s: State<T>, t: nat, u: nat)
    requires Inv(s) && t < |s.threads| && u < |s.threads| && t != u
    requires Accessing(s.threads[t]) && Accessing(s.threads[u])
    ensures Slot(s.threads[t].pos, Capacity(s)) != Slot(s.threads[u].pos, Capacity(s))
  {
    assert ThreadOk(s, t) && ThreadOk(s, u);
    var p, q := s.threads[t].pos, s.threads[u].pos;
    NeighboursDiffer(p, Capacity(s));
    NeighboursDiffer(q, Capacity(s));
    hide Slot, SlotOk, Tickets, Contents, Shape, Inv, Published, Released;
  }

  /** Storing one slot's sequence number keeps the claims of all other threads and tickets. */
  lemma SequenceFrame<T>(s: State<T>, t: nat, s': State<T>)
    requires Inv(s) && t < |s.threads| && (s.threads[t].EnqPublish? || s.threads[t].DeqRelease?)
    requires Shape(s') && s' == Resume(s, t)
    requires forall p: nat :: Published(s'.seqs, p) <==> Published(s.seqs, p) || (s.threads[t].EnqPublish? && p == s.threads[t].pos)
    requires forall p: nat :: Released(s'.seqs, p) <==> Released(s.seqs, p) || (s.threads[t].DeqRelease? && p == s.threads[t].pos)
    ensures Tickets(s') && forall u: nat :: u < |s'.threads| ==> ThreadOk(s', u)
  {
    assert ThreadOk(s, t);
    var pos := s.threads[t].pos;
    hide Slot, SlotOk, Published, Released, Contents;
    forall p: nat | p < s'.enqueuePos ensures EnqueueHeld(s', p) {
      assert EnqueueHeld(s, p);
    }
    forall p: nat | p < s'.dequeuePos ensures DequeueHeld(s', p) {
      assert DequeueHeld(s, p);
    }
    forall u: nat | u < |s'.threads| ensures ThreadOk(s', u) {
      ThreadFrame(s, t, u, s');
    }
  }

  lemma ThreadFrame<T>(s: State<T>, t: nat, u: nat, s': State<T>)
    requires Inv(s) && t < |s.threads| && u < |s.threads| && (s.threads[t].EnqPublish? || s.threads[t].DeqRelease?)
    requires Shape(s') && s' == Resume(s, t)
    requires forall p: nat :: Published(s'.seqs, p) <==> Published(s.seqs, p) || (s.threads[t].EnqPublish? && p == s.threads[t].pos)
    requires forall p: nat :: Released(s'.seqs, p) <==> Released(s.seqs, p) || (s.threads[t].DeqRelease? && p == s.threads[t].pos)
    ensures ThreadOk(s', u)
  {
    assert ThreadOk(s, t) && ThreadOk(s, u);
    hide Slot, SlotOk, Published, Released, Contents, Tickets;
    if u != t && Accessing(s.threads[u]) {
      MutualExclusion(s, t, u);
    }
  }

  lemma PublishKeeps<T>(s: State<T>, t: nat)
    requires Inv(s) && t < |s.threads| && s.threads[t].EnqPublish?
    ensures Inv(Resume(s, t))
  {
    var s' := Resume(s, t);
    assert ThreadOk(s, t);
    PublishFlags(s.seqs, s.threads[t].pos);
    PublishShape(s, t);
    PublishContents(s, t);
    SequenceFrame(s, t, s');
  }

  lemma PublishShape<T>(s: State<T>, t: nat)
    requires Shape(s) && t < |s.threads| && s.threads[t].EnqPublish? && ThreadOk(s, t)
    ensures Shape(Resume(s, t))
  {
    var pos := s.threads[t].pos;
    hide Slot, SlotOk, Published, Released;
    PublishFlags(s.seqs, pos);
    NextSlotOk(pos, Capacity(s));
    SequenceSlots(s.seqs, pos, pos + 1);
    var s' := Resume(s, t);
    forall p: nat | s'.enqueuePos <= p ensures !Published(s'.seqs, p) {
      assert !Published(s.seqs, p);
      assert Published(s'.seqs, p) <==> Published(s.seqs, p) || p == pos;
    }
    forall p: nat | s'.dequeuePos <= p ensures !Released(s'.seqs, p) {
      assert Released(s'.seqs, p) <==> Released(s.seqs, p);
    }
  }

  lemma PublishContents<T>(s: State<T>, t: nat)
    requires Shape(s) && Contents(s) && t < |s.threads| && s.threads[t].EnqPublish? && ThreadOk(s, t)
    requires Shape(Resume(s, t))
    ensures Contents(Resume(s, t))
  {
    PublishFlags(s.seqs, s.threads[t].pos);
    hide Slot, SlotOk, Released;
  }

  lemma ReleaseKeeps<T>(s: State<T>, t: nat)
    requires Inv(s) && t < |s.threads| && s.threads[t].DeqRelease?
    ensures Inv(Resume(s, t))
  {
    var s' := Resume(s, t);
    assert ThreadOk(s, t);
    ReleaseFlags(s.seqs, s.threads[t].pos);
    ReleaseShape(s, t);
    ReleaseContents(s, t);
    SequenceFrame(s, t, s');
  }

  lemma ReleaseShape<T>(s: State<T>, t: nat)
    requires Shape(s) && t < |s.threads| && s.threads[t].DeqRelease? && ThreadOk(s, t)
    ensures Shape(Resume(s, t))
  {
    var pos := s.threads[t].pos;
    ReleaseFlags(s.seqs, pos);
    SlotNextLap(pos, Capacity(s));
    SequenceSlots(s.seqs, pos, pos + Capacity(s));
    hide Slot, SlotOk, Published, Released;
    var s' := Resume(s, t);
    forall p: nat | s'.enqueuePos <= p ensures !Published(s'.seqs, p) {
      assert Published(s'.seqs, p) <==> Published(s.seqs, p);
    }
    forall p: nat | s'.dequeuePos <= p ensures !Released(s'.seqs, p) {
      assert Released(s'.seqs, p) <==> Released(s.seqs, p) || p == pos;
    }
  }

  lemma ReleaseContents<T>(s: State<T>, t: nat)
    requires Shape(s) && Contents(s) && t < |s.threads| && s.threads[t].DeqRelease? && ThreadOk(s, t)
    requires Shape(Resume(s, t))
    ensures Contents(Resume(s, t))
  {
    hide Slot, SlotOk, Released, Published, Shape;
    ReleasedHolds(s, t);
  }

  lemma ReleasedHolds<T>(s: State<T>, t: nat)
    requires Shape(s) && t < |s.threads| && s.threads[t].DeqRelease? && ThreadOk(s, t)
    ensures var pc := s.threads[t];
            && pc.pos < s.dequeuePos && pc.pos < s.enqueuePos && pc.out == s.items[pc.pos]
            && (forall p: nat :: Released(Resume(s, t).seqs, p) <==> Released(s.seqs, p) || p == pc.pos)
            && (forall p: nat :: Resume(s, t).seqs[Slot(p, Capacity(s))] == p + 1 ==> s.seqs[Slot(p, Capacity(s))] == p + 1)
  {
    hide Slot, SlotOk, Released, Published;
    ReleaseFlags(s.seqs, s.threads[t].pos);
  }

  // ---------------------------------------------------------------- every step, every run

  lemma StepKeeps<T>(s: State<T>, a: Action<T>)
    requires Inv(s)
    ensures Inv(Step(s, a))
  {
    if !a.Continue? {
      CallKeeps(s, a);
    } else if a.thread < |s.threads| {
      var pc := s.threads[a.thread];
      if pc.EnqWait? || pc.DeqWait? || pc.DeqRead? { WaitKeeps(s, a.thread); }
      else if pc.EnqWrite? { WriteKeeps(s, a.thread); }
      else if pc.EnqPublish? { PublishKeeps(s, a.thread); }
      else if pc.DeqRelease? { ReleaseKeeps(s, a.thread); }
    }
  }

  lemma {:induction false} RunKeeps<T>(data: seq<T>, threads: nat, schedule: seq<Action<T>>)
    requires 2 <= |data|
    ensures Inv(Run(data, threads, schedule))
  {
    if schedule == [] {
      StartsGood(data, threads);
    } else {
      RunKeeps(data, threads, schedule[..|schedule| - 1]);
      StepKeeps(Run(data, threads, schedule[..|schedule| - 1]), schedule[|schedule| - 1]);
    }
  }

  /** Ticket pairing: in every run, dequeue ticket `p` delivers exactly the item of enqueue ticket
      `p`, and it does so once its holder has released the slot. */
  lemma TicketsPair<T>(data: seq<T>, threads: nat, schedule: seq<Action<T>>, p: nat)
    requires 2 <= |data|
    ensures var s := Run(data, threads, schedule);
            && (p in s.delivered <==> p < s.dequeuePos && Released(s.seqs, p))
            && (p in s.delivered ==> p < |s.items| && s.delivered[p] == s.items[p])
  {
    RunKeeps(data, threads, schedule);
  }

  /** Each item is delivered at most once: a delivered ticket is never delivered again. */
  lemma DeliveredOnce<T>(s: State<T>, a: Action<T>, p: nat)
    requires Inv(s) && p in s.delivered
    ensures p in Step(s, a).delivered && Step(s, a).delivered[p] == s.delivered[p]
    ensures a.Continue? && a.thread < |s.threads| && s.threads[a.thread].DeqRelease? ==> s.threads[a.thread].pos != p
  {
    if a.Continue? && a.thread < |s.threads| {
      assert ThreadOk(s, a.thread);
    }
  }

  // ---------------------------------------------------------------- what callers asked for

  /** The calls begun in a schedule: a thread begins one when it has none under way. */
  ghost function Begun<T>(data: seq<T>, threads: nat, schedule: seq<Action<T>>): seq<Action<T>>
    requires 0 < |data|
    decreases |schedule|
  {
    if |schedule| == 0 then [] else
    var before, a := schedule[..|schedule| - 1], schedule[|schedule| - 1];
    Begun(data, threads, before) + Begins(Run(data, threads, before), a)
  }

  ghost function Begins<T>(s: State<T>, a: Action<T>): seq<Action<T>> {
    if !a.Continue? && a.thread < |s.threads| && s.threads[a.thread].Idle? then [a] else []
  }

  ghost function EnqueuedItems<T>(calls: seq<Action<T>>): seq<T>
    decreases |calls|
  {
    if |calls| == 0 then [] else
    var last := calls[|calls| - 1];
    EnqueuedItems(calls[..|calls| - 1]) + if last.Enqueue? then [last.item] else []
  }

  /** The threads of the enqueues, or of the dequeues. */
  ghost function Callers<T>(calls: seq<Action<T>>, enqueues: bool): seq<nat>
    decreases |calls|
  {
    if |calls| == 0 then [] else
    var last := calls[|calls| - 1];
    Callers(calls[..|calls| - 1], enqueues) + if last.Enqueue? == enqueues then [last.thread] else []
  }

  /** Tickets are taken in the order of the calls: ticket p is that of the p-th enqueue begun, with
      the item it was called with, and of the p-th dequeue begun. */
  lemma {:induction false} CallsTakeTickets<T>(data: seq<T>, threads: nat, schedule: seq<Action<T>>)
    requires 0 < |data|
    ensures var s, calls := Run(data, threads, schedule), Begun(data, threads, schedule);
            && s.items == EnqueuedItems(calls) && s.enqueuers == Callers(calls, true)
            && s.dequeuers == Callers(calls, false)
            && s.enqueuePos == |s.items| == |s.enqueuers| && s.dequeuePos == |s.dequeuers|
    decreases |schedule|
  {
    if |schedule| != 0 {
      var before, a := schedule[..|schedule| - 1], schedule[|schedule| - 1];
      CallsTakeTickets(data, threads, before);
      hide Step, EnqueuedItems, Callers, Begins;
      TicketsNext(Run(data, threads, before), a, Begun(data, threads, before));
    }
  }

  lemma TicketsNext<T>(s: State<T>, a: Action<T>, calls: seq<Action<T>>)
    requires WellSized(s)
    requires s.items == EnqueuedItems(calls) && s.enqueuers == Callers(calls, true)
    requires s.dequeuers == Callers(calls, false)
    requires s.enqueuePos == |s.items| == |s.enqueuers| && s.dequeuePos == |s.dequeuers|
    ensures var s', more := Step(s, a), calls + Begins(s, a);
            && s'.items == EnqueuedItems(more) && s'.enqueuers == Callers(more, true)
            && s'.dequeuers == Callers(more, false)
            && s'.enqueuePos == |s'.items| == |s'.enqueuers| && s'.dequeuePos == |s'.dequeuers|
  {
    hide Step, Begins;
    StepTakes(s, a);
    if Begins(s, a) == [] {
      assert calls + Begins(s, a) == calls;
    } else {
      MoreCalls(calls, a);
    }
  }

  /** A call takes one ticket of its kind, and no other step takes any. */
  lemma StepTakes<T>(s: State<T>, a: Action<T>)
    requires WellSized(s)
    ensures Begins(s, a) == [] || (Begins(s, a) == [a] && (a.Enqueue? || a.Dequeue?))
    ensures var s', begins := Step(s, a), Begins(s, a) != [];
            && s'.items == s.items + (if begins && a.Enqueue? then [a.item] else [])
            && s'.enqueuers == s.enqueuers + (if begins && a.Enqueue? then [a.thread] else [])
            && s'.dequeuers == s.dequeuers + (if begins && a.Dequeue? then [a.thread] else [])
            && s'.enqueuePos == s.enqueuePos + (if begins && a.Enqueue? then 1 else 0)
            && s'.dequeuePos == s.dequeuePos + (if begins && a.Dequeue? then 1 else 0)
  {
    hide Slot;
  }

  lemma MoreCalls<T>(calls: seq<Action<T>>, a: Action<T>)
    requires a.Enqueue? || a.Dequeue?
    ensures EnqueuedItems(calls + [a]) == EnqueuedItems(calls) + if a.Enqueue? then [a.item] else []
    ensures Callers(calls + [a], true) == Callers(calls, true) + if a.Enqueue? then [a.thread] else []
    ensures Callers(calls + [a], false) == Callers(calls, false) + if a.Dequeue? then [a.thread] else []
  {
    assert (calls + [a])[..|calls|] == calls;
  }

  /** When a thread's call has returned, its tickets are served: what it enqueued is published, and
      what it dequeued was delivered to it. */
  lemma ReturnedIsServed<T>(data: seq<T>, threads: nat, schedule: seq<Action<T>>, p: nat)
    requires 2 <= |data|
    ensures var s := Run(data, threads, schedule);
            && (p < |s.enqueuers| ==>
                  s.enqueuers[p] < threads && (s.threads[s.enqueuers[p]].Idle? ==> Published(s.seqs, p)))
            && (p < |s.dequeuers| ==>
                  s.dequeuers[p] < threads && (s.threads[s.dequeuers[p]].Idle? ==> p in s.delivered))
  {
    hide Run;
    RunKeeps(data, threads, schedule);
    var s := Run(data, threads, schedule);
    if p < |s.enqueuers| {
      assert EnqueueHeld(s, p);
    }
    if p < |s.dequeuers| {
      assert DequeueHeld(s, p);
    }
  }

  // ---------------------------------------------------------------- progress

  /** The call in progress on `t` cannot take its next step: its slot is not its turn yet. */
  predicate Blocked<T>(s: State<T>, t: nat)
    requires WellSized(s) && t < |s.threads|
  {
    match s.threads[t]
    case EnqWait(pos, _) => s.seqs[Slot(pos, Capacity(s))] != pos
    case DeqWait(pos) => s.seqs[Slot(pos, Capacity(s))] != pos + 1
    case _ => false
  }

  /** How many more steps the call in progress takes. */
  function StepsLeft<T>(pc: Pc<T>): nat {
    match pc
    case Idle => 0
    case EnqWait(_, _) => 3
    case EnqWrite(_, _) => 2
    case EnqPublish(_, _) => 1
    case DeqWait(_) => 3
    case DeqRead(_) => 2
    case DeqRelease(_, _) => 1
  }

  /** A call that is not blocked comes one step closer to its return, and a blocked one waits. */
  lemma StepsCountDown<T>(s: State<T>, t: nat)
    requires WellSized(s) && t < |s.threads| && !s.threads[t].Idle?
    ensures if Blocked(s, t) then Resume(s, t) == s
            else StepsLeft(Resume(s, t).threads[t]) == StepsLeft(s.threads[t]) - 1
  {
    hide Slot;
  }

  /** The least enqueue ticket not yet published, or `enqueuePos`. */
  ghost function FirstUnpublished<T>(s: State<T>, from: nat): (p: nat)
    requires WellSized(s) && from <= s.enqueuePos
    ensures from <= p <= s.enqueuePos
    ensures p < s.enqueuePos ==> !Published(s.seqs, p)
    ensures forall q: nat :: from <= q < p ==> Published(s.seqs, q)
    decreases s.enqueuePos - from
  {
    if from == s.enqueuePos || !Published(s.seqs, from) then from else FirstUnpublished(s, from + 1)
  }

  /** The oldest unpublished ticket waits only when the queue is full: its slot still holds the item
      of one lap before, which no dequeuer has been able to claim. */
  lemma OldestWaits<T>(s: State<T>, p: nat)
    requires Inv(s) && p < s.enqueuePos && !Published(s.seqs, p)
    requires forall q: nat :: q < p ==> Published(s.seqs, q)
    requires s.seqs[Slot(p, Capacity(s))] != p
    requires forall t: nat :: t < |s.threads| && !s.threads[t].Idle? ==> Blocked(s, t)
    ensures s.dequeuePos + Capacity(s) <= p
  {
    var capacity := Capacity(s);
    var i := Slot(p, capacity);
    var v := s.seqs[i];
    assert SlotOk(v, i, capacity);
    hide Slot;
    assert v < p;
    assert v < s.seqs[Slot(v, capacity)] by {
      assert Published(s.seqs, v);
    }
    var q := v - 1;
    assert Slot(q, capacity) == i && !Released(s.seqs, q);
    if p < q + capacity {
      SlotInjective(q, p, capacity);
    }
    assert q < s.dequeuePos ==> DequeueHeld(s, q);
  }

  /** Progress: if every call in progress is blocked, then either all of them are dequeues whose
      tickets no enqueue has taken, or all are enqueues at least a full capacity ahead of the
      dequeue tickets. Otherwise some thread can step. */
  lemma BlockedMeansEmptyOrFull<T>(s: State<T>)
    requires Inv(s)
    requires forall t: nat :: t < |s.threads| && !s.threads[t].Idle? ==> Blocked(s, t)
    ensures (forall t: nat :: t < |s.threads| && !s.threads[t].Idle? ==> s.threads[t].DeqWait? && s.enqueuePos <= s.threads[t].pos)
         || (forall t: nat :: t < |s.threads| && !s.threads[t].Idle? ==>
               s.threads[t].EnqWait? && s.dequeuePos + Capacity(s) <= s.threads[t].pos)
  {
    var oldest := FirstUnpublished(s, 0);
    if oldest < s.enqueuePos {
      assert EnqueueHeld(s, oldest);
      assert Blocked(s, s.enqueuers[oldest]);
      OldestWaits(s, oldest);
    }
    forall t: nat | t < |s.threads| && !s.threads[t].Idle?
      ensures if oldest < s.enqueuePos then s.threads[t].EnqWait? && oldest <= s.threads[t].pos
              else s.threads[t].DeqWait? && s.enqueuePos <= s.threads[t].pos
    {
      assert Blocked(s, t) && ThreadOk(s, t);
      var pos := s.threads[t].pos;
      assert s.threads[t].DeqWait? && pos < oldest ==> Published(s.seqs, pos);
    }
  }

  // ---------------------------------------------------------------- why two slots

  lemma RunAppend<T>(data: seq<T>, threads: nat, schedule: seq<Action<T>>, a: Action<T>)
    requires 0 < |data|
    ensures Run(data, threads, schedule + [a]) == Step(Run(data, threads, schedule), a)
  {
    assert (schedule + [a])[..|schedule|] == schedule;
  }

  /** With a single slot, "full with ticket 0" and "free for ticket 1" are the same sequence number:
      a second enqueue overwrites the first item, and dequeue ticket 0 delivers the wrong one. */
  lemma OneSlotLosesAnItem<T>(x: T, y: T) returns (schedule: seq<Action<T>>)
    ensures var s := Run([x], 2, schedule);
            0 in s.delivered && s.items == [x, y] && s.delivered[0] == y
  {
    var filled := FillsSlot(x);
    var overwritten := Overwrites(x, y, filled);
    schedule := DeliversWrongItem(x, y, overwritten);
  }

  /** Ticket 0 is filled with `x` and published. */
  lemma FillsSlot<T>(x: T) returns (to: seq<Action<T>>)
    ensures Run([x], 2, to) == State(1, 0, [1], [x], [Idle, Idle], [x], [0], [], map[])
  {
    hide Run;
    NothingRun(x);
    var a := Then(x, [], Enqueue(0, x), Run([x], 2, []), State(1, 0, [0], [x], [EnqWait(0, x), Idle], [x], [0], [], map[]));
    var b := Then(x, a, Continue(0), Run([x], 2, a), State(1, 0, [0], [x], [EnqWrite(0, x), Idle], [x], [0], [], map[]));
    var c := Then(x, b, Continue(0), Run([x], 2, b), State(1, 0, [0], [x], [EnqPublish(0, x), Idle], [x], [0], [], map[]));
    to := Then(x, c, Continue(0), Run([x], 2, c), State(1, 0, [1], [x], [Idle, Idle], [x], [0], [], map[]));
  }

  lemma NothingRun<T>(x: T)
    ensures Run<T>([x], 2, []) == State(0, 0, [0], [x], [Idle, Idle], [], [], [], map[])
  {
  }

  /** Ticket 1 takes sequence 1 for its turn and overwrites `x` with `y`. */
  lemma Overwrites<T>(x: T, y: T, from: seq<Action<T>>) returns (to: seq<Action<T>>)
    requires Run([x], 2, from) == State(1, 0, [1], [x], [Idle, Idle], [x], [0], [], map[])
    ensures Run([x], 2, to) == State(2, 0, [1], [y], [EnqPublish(1, y), Idle], [x, y], [0, 0], [], map[])
  {
    hide Run;
    var a := Then(x, from, Enqueue(0, y), Run([x], 2, from), State(2, 0, [1], [x], [EnqWait(1, y), Idle], [x, y], [0, 0], [], map[]));
    var b := Then(x, a, Continue(0), Run([x], 2, a), State(2, 0, [1], [x], [EnqWrite(1, y), Idle], [x, y], [0, 0], [], map[]));
    to := Then(x, b, Continue(0), Run([x], 2, b), State(2, 0, [1], [y], [EnqPublish(1, y), Idle], [x, y], [0, 0], [], map[]));
  }

  /** Dequeue ticket 0 also takes sequence 1 for its turn. */
  lemma DeliversWrongItem<T>(x: T, y: T, from: seq<Action<T>>) returns (to: seq<Action<T>>)
    requires Run([x], 2, from) == State(2, 0, [1], [y], [EnqPublish(1, y), Idle], [x, y], [0, 0], [], map[])
    ensures Run([x], 2, to) == State(2, 1, [1], [y], [EnqPublish(1, y), Idle], [x, y], [0, 0], [1], map[0 := y])
  {
    hide Run;
    var a := Then(x, from, Dequeue(1), Run([x], 2, from), State(2, 1, [1], [y], [EnqPublish(1, y), DeqWait(0)], [x, y], [0, 0], [1], map[]));
    var b := Then(x, a, Continue(1), Run([x], 2, a), State(2, 1, [1], [y], [EnqPublish(1, y), DeqRead(0)], [x, y], [0, 0], [1], map[]));
    var c := Then(x, b, Continue(1), Run([x], 2, b), State(2, 1, [1], [y], [EnqPublish(1, y), DeqRelease(0, y)], [x, y], [0, 0], [1], map[]));
    to := Then(x, c, Continue(1), Run([x], 2, c), State(2, 1, [1], [y], [EnqPublish(1, y), Idle], [x, y], [0, 0], [1], map[0 := y]));
  }

  /** Extend a one-slot schedule by one step with a known outcome. */
  lemma Then<T>(x: T, before: seq<Action<T>>, a: Action<T>, from: State<T>, to: State<T>) returns (schedule: seq<Action<T>>)
    requires WellSized(from) && Run([x], 2, before) == from && Step(from, a) == to
    ensures Run([x], 2, schedule) == to
  {
    schedule := before + [a];
    RunAppend([x], 2, before, a);
  }

  // ---------------------------------------------------------------- in place

  /** The queue's memory and the threads working on it, updated in place one step at a time. */
  class Queue<T> {
    var enqueuePos: nat
    var dequeuePos: nat
    const seqs: array<nat>
    const data: array<T>
    const threads: array<Pc<T>>
    ghost var items: seq<T>
    ghost var enqueuers: seq<nat>
    ghost var dequeuers: seq<nat>
    ghost var delivered: map<nat, T>

    ghost predicate Valid()
      reads this
    {
      0 < seqs.Length == data.Length && seqs as object != threads && data as object != threads && seqs as object != data
    }

    ghost function View(): State<T>
      reads this, seqs, data, threads
    {
      State(enqueuePos, dequeuePos, seqs[..], data[..], threads[..], items, enqueuers, dequeuers, delivered)
    }

    constructor (initial: seq<T>, threadCount: nat)
      requires 2 <= |initial|
      ensures Valid() && fresh(seqs) && fresh(data) && fresh(threads)
      ensures View() == Fresh(initial, threadCount)
    {
      enqueuePos, dequeuePos := 0, 0;
      seqs := new nat[|initial|](i => i);
      data := new T[|initial|](i requires 0 <= i < |initial| => initial[i]);
      threads := new Pc<T>[threadCount](i => Idle);
      items, enqueuers, dequeuers, delivered := [], [], [], map[];
      new;
      assert data[..] == initial;
      assert seqs[..] == seq(|initial|, i => i);
      assert threads[..] == seq(threadCount, i => Idle);
    }

    /** enqueue_wait's fetch_add. */
    method TakeEnqueueTicket(t: nat, item: T)
      requires Valid() && t < threads.Length
      modifies this, threads
      ensures Valid() && View() == Step(old(View()), Enqueue(t, item))
    {
      if threads[t].Idle? {
        threads[t] := EnqWait(enqueuePos, item);
        enqueuePos := enqueuePos + 1;
        items, enqueuers := items + [item], enqueuers + [t];
      }
    }

    /** dequeue_wait's fetch_add. */
    method TakeDequeueTicket(t: nat)
      requires Valid() && t < threads.Length
      modifies this, threads
      ensures Valid() && View() == Step(old(View()), Dequeue(t))
    {
      if threads[t].Idle? {
        threads[t] := DeqWait(dequeuePos);
        dequeuePos := dequeuePos + 1;
        dequeuers := dequeuers + [t];
      }
    }

    /** The next load or store of the call in progress on thread `t`. */
    method Proceed(t: nat)
      requires Valid() && t < threads.Length
      modifies this`delivered, seqs, data, threads
      ensures Valid() && View() == Step(old(View()), Continue(t))
    {
      match threads[t] {
        case Idle =>
        case EnqWait(pos, item) =>
          if seqs[Slot(pos, seqs.Length)] == pos { threads[t] := EnqWrite(pos, item); }
        case EnqWrite(pos, item) =>
          data[Slot(pos, seqs.Length)] := item;
          threads[t] := EnqPublish(pos, item);
        case EnqPublish(pos, item) =>
          seqs[Slot(pos, seqs.Length)] := pos + 1;
          threads[t] := Idle;
        case DeqWait(pos) =>
          if seqs[Slot(pos, seqs.Length)] == pos + 1 { threads[t] := DeqRead(pos); }
        case DeqRead(pos) =>
          threads[t] := DeqRelease(pos, data[Slot(pos, seqs.Length)]);
        case DeqRelease(pos, out) =>
          seqs[Slot(pos, seqs.Length)] := pos + seqs.Length;
          threads[t] := Idle;
          delivered := delivered[pos := out];
      }
    }

    /** Any schedule, executed in place, is a run: the invariant holds at its end. */
    method Execute(initial: seq<T>, threadCount: nat, schedule: seq<Action<T>>)
      requires Valid() && 2 <= |initial| && View() == Fresh(initial, threadCount)
      modifies this, seqs, data, threads
      ensures Valid() && View() == Run(initial, threadCount, schedule) && Inv(View())
    {
      var i := 0;
      while i < |schedule|
        invariant i <= |schedule| && Valid() && View() == Run(initial, threadCount, schedule[..i])
      {
        RunAppend(initial, threadCount, schedule[..i], schedule[i]);
        assert schedule[..i + 1] == schedule[..i] + [schedule[i]];
        var a := schedule[i];
        if a.thread < threads.Length {
          match a {
            case Enqueue(t, item) => TakeEnqueueTicket(t, item);
            case Dequeue(t) => TakeDequeueTicket(t);
            case Continue(t) => Proceed(t);
          }
        }
        i := i + 1;
      }
      assert schedule[..i] == schedule;
      RunKeeps(initial, threadCount, schedule);
    }
  }
}
