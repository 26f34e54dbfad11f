/** A worker and the ticket ring that feeds it.

    Any number of threads submit work; shutdown pushes a stop item, whose function is null, through
    the same ring. The worker pops with `pop_wait`, runs each item, and returns at the first stop item.
 */
module WorkerPool {
  import opened RingIndex
  import opened SlotSequence
  import R = SlotRing
  import Q = TicketRing

  /** A work function is an opaque word; 0 is null. */
  datatype WorkItem = WorkItem(fn: nat, user: nat)

  const STOP := WorkItem(0, 0)

  datatype Worker =
    | Popping                     // in pop_wait
    | Running(item: WorkItem)     // item.fn(item.user)
    | Returned

  /** `executed` is what the worker has run, in order. */
  datatype State = State(queue: Q.State<WorkItem>, worker: Worker, executed: seq<WorkItem>)

  datatype Action =
    | Submit(thread: nat, item: WorkItem)    // submit_work's push_wait, its fetch_add
    | Stop(thread: nat)                      // astral_shutdown's push_wait of the stop item
    | Continue(thread: nat)                  // the next step of a push
    | Work                                   // the worker's next step

  function Fresh(data: seq<WorkItem>, threads: nat): State {
    State(Q.Fresh(data, threads), Popping, [])
  }

  /** `submit_work` refuses a null function. */
  function Step(s: State, a: Action): (s': State)
    requires R.WellSized(s.queue.ring)
    ensures R.WellSized(s'.queue.ring) && |s'.queue.ring.seqs| == |s.queue.ring.seqs|
  {
    match a
    case Submit(t, item) => if item.fn == 0 then s else s.(queue := Q.Step(s.queue, Q.Push(t, [item])))
    case Stop(t) => s.(queue := Q.Step(s.queue, Q.Push(t, [STOP])))
    case Continue(t) => s.(queue := Q.Step(s.queue, Q.Continue(t)))
    case Work => WorkerStep(s)
  }

  function WorkerStep(s: State): (s': State)
    requires R.WellSized(s.queue.ring)
    ensures R.WellSized(s'.queue.ring) && |s'.queue.ring.seqs| == |s.queue.ring.seqs|
  {
    match s.worker
    case Returned => s
    case Running(item) => s.(worker := Popping, executed := s.executed + [item])
    case Popping =>
      var consumer := s.queue.ring.consumer;
      var queue := Q.Step(s.queue, Q.Pop);
      if !consumer.Advance? then s.(queue := queue)
      else s.(queue := queue, worker := if consumer.out.fn == 0 then Returned else Running(consumer.out))
  }

  function Run(data: seq<WorkItem>, threads: nat, schedule: seq<Action>): (s: State)
    requires 0 < |data|
    ensures R.WellSized(s.queue.ring) && |s.queue.ring.seqs| == |data|
  {
    if schedule == [] then Fresh(data, threads)
    else Step(Run(data, threads, schedule[..|schedule| - 1]), schedule[|schedule| - 1])
  }

  // ---------------------------------------------------------------- the invariant

  /** What has been popped but is not in `executed`: an item being run or handed over, or the stop. */
  ghost function InHand(s: State): nat {
    if s.worker.Popping? && !s.queue.ring.consumer.Advance? then 0 else 1
  }

  ghost predicate Account(s: State) {
    var popped := s.queue.ring.popped;
    && |popped| == |s.executed| + InHand(s)
    && s.executed == popped[..|s.executed|]
    && (forall k :: 0 <= k < |s.executed| ==> s.executed[k].fn != 0)
    && (!s.worker.Popping? ==> s.queue.ring.consumer.Ready?)
    && (s.worker.Running? ==> s.worker.item == popped[|s.executed|] && s.worker.item.fn != 0)
    && (s.worker.Returned? ==> popped[|s.executed|].fn == 0)
  }

  ghost predicate Inv(s: State) {
    Q.Inv(s.queue) && Account(s)
  }

  /** Producers touch neither what has been popped nor the consumer. */
  lemma PushFrame(q: Q.State<WorkItem>, a: Q.Action<WorkItem>)
    requires R.WellSized(q.ring) && !a.Pop?
    ensures Q.Step(q, a).ring.popped == q.ring.popped && Q.Step(q, a).ring.consumer == q.ring.consumer
  {
  }

  lemma PopFrame(q: Q.State<WorkItem>)
    requires R.WellSized(q.ring) && R.Cursor(q.ring)
    ensures var r, r' := q.ring, Q.Step(q, Q.Pop).ring;
            && r'.consumer.Advance? == r.consumer.Release?
            && r'.popped == (if r.consumer.Release? then r.popped + [r.consumer.out] else r.popped)
            && (r.consumer.Advance? ==> r'.consumer.Ready? && 0 < |r.popped| && r.consumer.out == r.popped[|r.popped| - 1])
  {
    hide Slot;
  }

  lemma WorkAccounts(s: State)
    requires R.WellSized(s.queue.ring) && R.Cursor(s.queue.ring) && Account(s)
    ensures Account(WorkerStep(s))
  {
    hide R.Cursor, Q.Step;
    PopFrame(s.queue);
  }

  lemma StepAccounts(s: State, a: Action)
    requires R.WellSized(s.queue.ring) && R.Cursor(s.queue.ring) && Account(s)
    ensures Account(Step(s, a))
  {
    hide R.Cursor, Q.Step;
    match a
    case Submit(t, item) => PushFrame(s.queue, Q.Push(t, [item]));
    case Stop(t) => PushFrame(s.queue, Q.Push(t, [STOP]));
    case Continue(t) => PushFrame(s.queue, Q.Continue(t));
    case Work => WorkAccounts(s);
  }

  /** What the ring's invariant says of the items popped so far. */
  lemma PoppedPrefix(q: Q.State<WorkItem>)
    requires Q.Inv(q)
    ensures R.WellSized(q.ring) && R.Cursor(q.ring)
    ensures |q.ring.popped| <= |q.ring.items| && q.ring.popped == q.ring.items[..|q.ring.popped|]
  {
    hide R.Positions, R.Contents, Q.AllHeld, Q.AllOk, Q.Flatten, R.Turn;
  }

  lemma StepKeeps(s: State, a: Action)
    requires Inv(s)
    ensures Inv(Step(s, a))
  {
    hide Q.Inv, Account, Q.Step, R.Cursor;
    PoppedPrefix(s.queue);
    StepAccounts(s, a);
    match a
    case Submit(t, item) => Q.StepKeeps(s.queue, Q.Push(t, [item]));
    case Stop(t) => Q.StepKeeps(s.queue, Q.Push(t, [STOP]));
    case Continue(t) => Q.StepKeeps(s.queue, Q.Continue(t));
    case Work => Q.StepKeeps(s.queue, Q.Pop);
  }

  lemma {:induction false} RunKeeps(data: seq<WorkItem>, threads: nat, schedule: seq<Action>)
    requires 2 <= |data|
    ensures Inv(Run(data, threads, schedule))
  {
    if schedule == [] {
      Q.StartsGood(data, threads);
    } else {
      RunKeeps(data, threads, schedule[..|schedule| - 1]);
      StepKeeps(Run(data, threads, schedule[..|schedule| - 1]), schedule[|schedule| - 1]);
    }
  }

  /** Shutdown drains: when the worker has returned, it has executed exactly the items whose tickets
      precede the first stop item, once each and in ticket order. */
  lemma ShutdownDrains(data: seq<WorkItem>, threads: nat, schedule: seq<Action>)
    requires 2 <= |data|
    requires Run(data, threads, schedule).worker.Returned?
    ensures var s := Run(data, threads, schedule);
            var items := s.queue.ring.items;
            exists stop :: 0 <= stop < |items| && items[stop].fn == 0
              && (forall p :: 0 <= p < stop ==> items[p].fn != 0)
              && s.executed == items[..stop]
  {
    hide Q.Inv, R.Cursor, Run;
    RunKeeps(data, threads, schedule);
    var s := Run(data, threads, schedule);
    PoppedPrefix(s.queue);
    StopsThere(s.queue.ring.items, s.executed);
  }

  lemma StopsThere(items: seq<WorkItem>, executed: seq<WorkItem>)
    requires |executed| < |items| && items[|executed|].fn == 0 && executed == items[..|executed|]
    requires forall k :: 0 <= k < |executed| ==> executed[k].fn != 0
    ensures exists stop :: 0 <= stop < |items| && items[stop].fn == 0
              && (forall p :: 0 <= p < stop ==> items[p].fn != 0)
              && executed == items[..stop]
  {
    var stop := |executed|;
    forall p | 0 <= p < stop ensures items[p].fn != 0 {
      assert executed[p] == items[p];
    }
  }

  /** Before that, the executed items are at every moment a prefix of the submitted ones, in ticket
      order: nothing runs twice or out of turn. */
  lemma ExecutesInTicketOrder(data: seq<WorkItem>, threads: nat, schedule: seq<Action>)
    requires 2 <= |data|
    ensures var s := Run(data, threads, schedule);
            && |s.executed| <= |s.queue.ring.items| && s.executed == s.queue.ring.items[..|s.executed|]
            && forall k :: 0 <= k < |s.executed| ==> s.executed[k].fn != 0
  {
    hide Q.Inv, R.Cursor, Run;
    RunKeeps(data, threads, schedule);
    PoppedPrefix(Run(data, threads, schedule).queue);
  }

  /** What was submitted: every non-null work item and every stop item of a thread with no push
      under way, in the order of the calls. */
  ghost function Submitted(data: seq<WorkItem>, threads: nat, schedule: seq<Action>): seq<WorkItem>
    requires 0 < |data|
    decreases |schedule|
  {
    if |schedule| == 0 then [] else
    var before, a := schedule[..|schedule| - 1], schedule[|schedule| - 1];
    Submitted(data, threads, before) + Submits(Run(data, threads, before), a)
  }

  ghost function Submits(s: State, a: Action): seq<WorkItem> {
    if (a.Stop? || (a.Submit? && a.item.fn != 0)) && a.thread < |s.queue.producers|
       && s.queue.producers[a.thread].Idle?
    then [if a.Stop? then STOP else a.item] else []
  }

  /** The ring's items are what was submitted: with `ShutdownDrains` and `ExecutesInTicketOrder`, what
      runs is what was submitted before the first stop. */
  lemma {:induction false} QueuedIsSubmitted(data: seq<WorkItem>, threads: nat, schedule: seq<Action>)
    requires 0 < |data|
    ensures Run(data, threads, schedule).queue.ring.items == Submitted(data, threads, schedule)
    decreases |schedule|
  {
    if |schedule| != 0 {
      var before := schedule[..|schedule| - 1];
      QueuedIsSubmitted(data, threads, before);
      hide Step, Submits;
      SubmitsNext(Run(data, threads, before), schedule[|schedule| - 1]);
    }
  }

  lemma SubmitsNext(s: State, a: Action)
    requires R.WellSized(s.queue.ring)
    ensures Step(s, a).queue.ring.items == s.queue.ring.items + Submits(s, a)
  {
    hide Slot, R.ConsumerStep, R.Turn;
  }

  function WorkSteps(s: State, n: nat): (s': State)
    requires R.WellSized(s.queue.ring)
    ensures R.WellSized(s'.queue.ring)
    decreases n
  {
    if n == 0 then s else WorkerStep(WorkSteps(s, n - 1))
  }

  lemma {:induction false} WorkPops(s: State, n: nat)
    requires R.WellSized(s.queue.ring) && s.worker.Popping? && n <= 5
    requires forall k: nat :: k < n ==> !R.ConsumerSteps(s.queue.ring, k).consumer.Advance?
    ensures WorkSteps(s, n) == s.(queue := s.queue.(ring := R.ConsumerSteps(s.queue.ring, n)))
  {
    hide R.ConsumerStep;
    if n != 0 {
      WorkPops(s, n - 1);
    }
  }

  /** A worker with a published item before it takes it in five steps: it returns at a stop item,
      and otherwise runs the item and is back at the ring. */
  lemma WorkerTakesNext(s: State)
    requires Inv(s) && s.worker.Popping? && s.queue.ring.consumer.Ready?
    requires R.WellSized(s.queue.ring) && Published(s.queue.ring.seqs, |s.queue.ring.popped|)
    ensures |s.queue.ring.popped| < |s.queue.ring.items|
    ensures var item := s.queue.ring.items[|s.queue.ring.popped|];
            if item.fn == 0
            then WorkSteps(s, 5).worker.Returned? && WorkSteps(s, 5).executed == s.executed
            else WorkSteps(s, 5).worker == Running(item)
                 && WorkSteps(s, 6).worker.Popping? && WorkSteps(s, 6).executed == s.executed + [item]
  {
    var r := s.queue.ring;
    R.WholePop(r);
    BeforeAdvance(r);
    hide Inv, R.ConsumerStep, R.ConsumerSteps;
    WorkPops(s, 4);
    var item := r.items[|r.popped|];
    assert WorkSteps(s, 5) == WorkerStep(WorkSteps(s, 4));
    assert WorkSteps(s, 6) == WorkerStep(WorkSteps(s, 5));
  }

  lemma BeforeAdvance(r: R.Ring<WorkItem>)
    requires R.WellSized(r) && r.consumer.Ready? && R.ConsumerSteps(r, 4).consumer.Advance?
    ensures forall k: nat :: k < 4 ==> !R.ConsumerSteps(r, k).consumer.Advance?
  {
    hide Slot;
    R.ConsumerNext(r, 0);
    R.ConsumerNext(r, 1);
    R.ConsumerNext(r, 2);
    R.ConsumerNext(r, 3);
  }

  lemma RingCounts(r: R.Ring<WorkItem>)
    requires R.Inv(r)
    ensures |r.items| == r.enqueuePos
  {
  }

  /** A worker that has not returned is never stuck behind its producers: if something is reserved
      and not yet popped, then either the oldest item is published, and `pop` takes it, or the
      producer of that item can step. */
  lemma ShutdownProgress(data: seq<WorkItem>, threads: nat, schedule: seq<Action>)
    requires 2 <= |data|
    ensures var s := Run(data, threads, schedule).queue;
            |s.ring.popped| < s.ring.enqueuePos && !Published(s.ring.seqs, |s.ring.popped|) ==>
              |s.owners| == s.ring.enqueuePos && s.owners[|s.ring.popped|] < |s.producers|
              && Q.Resume(s, s.owners[|s.ring.popped|]) != s
  {
    hide R.Inv, Q.AllHeld, Q.AllOk, Run, Account;
    RunKeeps(data, threads, schedule);
    var s := Run(data, threads, schedule).queue;
    assert R.Inv(s.ring) && |s.owners| == s.ring.enqueuePos by { PoppedPrefix(s); RingCounts(s.ring); }
    if |s.ring.popped| < s.ring.enqueuePos && !Published(s.ring.seqs, |s.ring.popped|) {
      Q.OldestCanStep(s);
    }
  }
}
