/** What the two sides of the single-producer ring ask for and are told, and what their calls do
    when nothing interrupts them. */
module SpscCalls {
  import opened RingIndex
  import opened SpscRing

  ghost predicate ProducerRests<T>(p: Producer<T>) {
    p.Ready? || p.Refused? || p.Accepted?
  }

  ghost predicate ConsumerRests<T>(c: Consumer<T>) {
    c.Ready? || c.Refused? || c.Received?
  }

  /** A push as it was called, with the room there was in the ring at that moment. */
  datatype PushCall<T> = PushCall(items: seq<T>, room: int)

  /** A pop as it was called, with the number of items there were. */
  datatype PopCall = PopCall(count: nat, there: int)

  ghost function RoomNow<T>(s: State<T>): int {
    |s.buffer| - (s.head - s.tail)
  }

  /** A push begins when none is under way. */
  ghost function PushBegun<T>(s: State<T>, a: Action<T>): seq<PushCall<T>> {
    if a.Push? && ProducerRests(s.producer) then [PushCall(a.items, RoomNow(s))] else []
  }

  ghost function PopBegun<T>(s: State<T>, a: Action<T>): seq<PopCall> {
    if a.Pop? && ConsumerRests(s.consumer) then [PopCall(a.count, s.head - s.tail)] else []
  }

  /** What a push that returns in this step returns: the number of items accepted. */
  ghost function PushReturned<T>(s: State<T>, a: Action<T>): seq<nat> {
    var now := Step(s, a).producer;
    if (PushBegun(s, a) != [] || !ProducerRests(s.producer)) && ProducerRests(now)
    then [if now.Accepted? then now.n else 0] else []
  }

  /** What a pop that returns in this step hands over. */
  ghost function PopReturned<T>(s: State<T>, a: Action<T>): seq<seq<T>> {
    var now := Step(s, a).consumer;
    if (PopBegun(s, a) != [] || !ConsumerRests(s.consumer)) && ConsumerRests(now)
    then [if now.Received? then now.got else []] else []
  }

  /** The calls and returns of a run so far. */
  datatype History<T> = History(pushes: seq<PushCall<T>>, accepted: seq<nat>, pops: seq<PopCall>, got: seq<seq<T>>)

  ghost function HistoryOf<T>(s: State<T>, run: seq<Action<T>>): History<T>
    decreases |run|
  {
    if |run| == 0 then History([], [], [], []) else
    var before, a := run[..|run| - 1], run[|run| - 1];
    Next(HistoryOf(s, before), Run(s, before), a)
  }

  ghost function Next<T>(h: History<T>, s: State<T>, a: Action<T>): History<T> {
    History(h.pushes + PushBegun(s, a), h.accepted + PushReturned(s, a),
            h.pops + PopBegun(s, a), h.got + PopReturned(s, a))
  }

  /** The accepted part of every push that has returned, one after the other. */
  ghost function Sent<T>(pushes: seq<PushCall<T>>, accepted: seq<nat>): seq<T>
    requires |accepted| <= |pushes|
    decreases |accepted|
  {
    if |accepted| == 0 then [] else
    var last := |accepted| - 1;
    Sent(pushes, accepted[..last])
    + if accepted[last] <= |pushes[last].items| then pushes[last].items[..accepted[last]] else []
  }

  ghost function Joined<T>(got: seq<seq<T>>): seq<T>
    decreases |got|
  {
    if |got| == 0 then [] else Joined(got[..|got| - 1]) + got[|got| - 1]
  }

  /** A push accepts no more than it was called with, and at least what fitted at its beginning. */
  ghost predicate PushExact<T>(call: PushCall<T>, n: nat) {
    n <= |call.items| && (n < |call.items| ==> call.room <= n)
  }

  ghost predicate PopExact(call: PopCall, n: nat) {
    n <= call.count && (n < call.count ==> call.there <= n)
  }

  /** The producer is at work for this call. */
  ghost predicate Pushing<T>(s: State<T>, call: PushCall<T>) {
    match s.producer
    case LoadTail(items) => items == call.items && call.room <= RoomNow(s)
    case Refresh(items, n) => items == call.items && PushExact(call, n)
    case Fill(items, n, _) => items == call.items && PushExact(call, n)
    case _ => false
  }

  ghost predicate Popping<T>(s: State<T>, call: PopCall) {
    match s.consumer
    case LoadHead(count) => count == call.count && call.there <= s.head - s.tail
    case Refresh(n) => PopExact(call, n)
    case Read(n, _) => PopExact(call, n)
    case _ => false
  }

  /** The callers' view of a state. */
  ghost predicate PushTold<T>(s: State<T>, h: History<T>) {
    && |h.pushes| == |h.accepted| + (if ProducerRests(s.producer) then 0 else 1)
    && (forall i :: 0 <= i < |h.accepted| ==> PushExact(h.pushes[i], h.accepted[i]))
    && s.pushed == Sent(h.pushes, h.accepted)
    && (!ProducerRests(s.producer) ==> Pushing(s, h.pushes[|h.accepted|]))
  }

  ghost predicate PopTold<T>(s: State<T>, h: History<T>) {
    && |h.pops| == |h.got| + (if ConsumerRests(s.consumer) then 0 else 1)
    && (forall i :: 0 <= i < |h.got| ==> PopExact(h.pops[i], |h.got[i]|))
    && s.popped == Joined(h.got)
    && (!ConsumerRests(s.consumer) ==> Popping(s, h.pops[|h.got|]))
  }

  lemma SentMore<T>(pushes: seq<PushCall<T>>, accepted: seq<nat>, more: seq<PushCall<T>>)
    requires |accepted| <= |pushes|
    ensures Sent(pushes + more, accepted) == Sent(pushes, accepted)
    decreases |accepted|
  {
    if |accepted| != 0 {
      SentMore(pushes, accepted[..|accepted| - 1], more);
    }
  }

  lemma SentNext<T>(pushes: seq<PushCall<T>>, accepted: seq<nat>, n: nat)
    requires |accepted| < |pushes| && n <= |pushes[|accepted|].items|
    ensures Sent(pushes, accepted + [n]) == Sent(pushes, accepted) + pushes[|accepted|].items[..n]
  {
    assert (accepted + [n])[..|accepted|] == accepted;
  }

  lemma JoinedNext<T>(got: seq<seq<T>>, items: seq<T>)
    ensures Joined(got + [items]) == Joined(got) + items
  {
    assert (got + [items])[..|got|] == got;
  }

  /** What one step does for the push under way. */
  lemma PushStep<T>(s: State<T>, a: Action<T>)
    requires Inv(s)
    ensures var s', begun, returned := Step(s, a), PushBegun(s, a), PushReturned(s, a);
            && |returned| <= 1
            && (ProducerRests(s.producer) && begun == [] ==>
                  returned == [] && ProducerRests(s'.producer) && s'.pushed == s.pushed)
            && (begun != [] ==>
                  && s'.pushed == s.pushed
                  && (if returned != [] then ProducerRests(s'.producer) && returned == [0] && begun[0].items == []
                      else !ProducerRests(s'.producer) && Pushing(s', begun[0])))
    ensures var s', returned := Step(s, a), PushReturned(s, a);
            !ProducerRests(s.producer) ==>
              && PushBegun(s, a) == []
              && (returned == [] <==> !ProducerRests(s'.producer))
              && (returned == [] ==> s'.pushed == s.pushed)
  {
    hide Slot, Stored, BatchCell;
  }

  /** A push under way stays the same call, and returns what it accepted of it. */
  lemma PushGoesOn<T>(s: State<T>, a: Action<T>, call: PushCall<T>)
    requires Inv(s) && Pushing(s, call)
    ensures var s', returned := Step(s, a), PushReturned(s, a);
            if returned == [] then Pushing(s', call)
            else PushExact(call, returned[0]) && s'.pushed == s.pushed + call.items[..returned[0]]
  {
    hide Slot, Stored, BatchCell;
  }

  lemma PushToldNext<T>(s: State<T>, a: Action<T>, h: History<T>)
    requires Inv(s) && PushTold(s, h)
    ensures PushTold(Step(s, a), Next(h, s, a))
  {
    hide Inv, Step, Sent, Pushing, PushExact, PushBegun, PushReturned, ProducerRests, PopBegun, PopReturned;
    PushStep(s, a);
    var begun, returned := PushBegun(s, a), PushReturned(s, a);
    assert h.pushes + [] == h.pushes && h.accepted + [] == h.accepted;
    BegunOnce(s, a);
    SentMore(h.pushes, h.accepted, begun);
    if !ProducerRests(s.producer) {
      PushGoesOn(s, a, h.pushes[|h.accepted|]);
      ExactBound(s, a, h.pushes[|h.accepted|]);
    }
    if returned != [] {
      EmptyExact(s, a);
      assert begun == [] || begun == [begun[0]];
      var call := (h.pushes + begun)[|h.accepted|];
      assert returned == [returned[0]] && PushExact(call, returned[0]);
      SentNext(h.pushes + begun, h.accepted, returned[0]);
      assert Step(s, a).pushed == s.pushed + call.items[..returned[0]];
      assert ProducerRests(Step(s, a).producer);
    } else if begun != [] {
      assert begun == [begun[0]];
    }
  }

  lemma BegunOnce<T>(s: State<T>, a: Action<T>)
    ensures |PushBegun(s, a)| <= 1 && |PopBegun(s, a)| <= 1
    ensures |PushReturned(s, a)| <= 1 && |PopReturned(s, a)| <= 1
  {
    hide Step;
  }

  lemma ExactBound<T>(s: State<T>, a: Action<T>, call: PushCall<T>)
    ensures PushReturned(s, a) != [] && PushExact(call, PushReturned(s, a)[0]) ==>
              PushReturned(s, a)[0] <= |call.items|
  {
    hide Step;
  }

  lemma EmptyExact<T>(s: State<T>, a: Action<T>)
    ensures PushBegun(s, a) != [] && PushBegun(s, a)[0].items == [] ==> PushExact(PushBegun(s, a)[0], 0)
  {
  }

  lemma EmptyPop<T>(s: State<T>, a: Action<T>)
    ensures PopBegun(s, a) != [] && PopBegun(s, a)[0].count == 0 ==> PopExact(PopBegun(s, a)[0], 0)
  {
  }

  lemma PopStep<T>(s: State<T>, a: Action<T>)
    requires Inv(s)
    ensures var s', begun, returned := Step(s, a), PopBegun(s, a), PopReturned(s, a);
            && (ConsumerRests(s.consumer) && begun == [] ==>
                  returned == [] && ConsumerRests(s'.consumer) && s'.popped == s.popped)
            && (begun != [] ==>
                  && s'.popped == s.popped
                  && (if returned != [] then ConsumerRests(s'.consumer) && returned == [[]] && begun[0].count == 0
                      else !ConsumerRests(s'.consumer) && Popping(s', begun[0])))
    ensures var s', returned := Step(s, a), PopReturned(s, a);
            !ConsumerRests(s.consumer) ==>
              && PopBegun(s, a) == []
              && (returned == [] <==> !ConsumerRests(s'.consumer))
              && (returned == [] ==> s'.popped == s.popped)
  {
    hide Slot, Stored, BatchCell;
  }

  lemma PopGoesOn<T>(s: State<T>, a: Action<T>, call: PopCall)
    requires Inv(s) && Popping(s, call)
    ensures var s', returned := Step(s, a), PopReturned(s, a);
            if returned == [] then Popping(s', call)
            else PopExact(call, |returned[0]|) && s'.popped == s.popped + returned[0]
  {
    hide Slot, Stored, BatchCell;
  }

  lemma PopToldNext<T>(s: State<T>, a: Action<T>, h: History<T>)
    requires Inv(s) && PopTold(s, h)
    ensures PopTold(Step(s, a), Next(h, s, a))
  {
    hide Inv, Step, Joined, Popping, PopBegun, PopReturned, ConsumerRests, PushBegun, PushReturned;
    PopStep(s, a);
    var begun, returned := PopBegun(s, a), PopReturned(s, a);
    assert h.pops + [] == h.pops && h.got + [] == h.got;
    BegunOnce(s, a);
    if !ConsumerRests(s.consumer) {
      PopGoesOn(s, a, h.pops[|h.got|]);
    }
    if returned != [] {
      EmptyPop(s, a);
      assert begun == [] || begun == [begun[0]];
      assert returned == [returned[0]];
      assert PopExact((h.pops + begun)[|h.got|], |returned[0]|);
      JoinedNext(h.got, returned[0]);
      assert ConsumerRests(Step(s, a).consumer);
    } else if begun != [] {
      assert begun == [begun[0]];
    }
  }

  lemma {:induction false} RunOneMore<T>(s: State<T>, run: seq<Action<T>>, a: Action<T>)
    ensures Run(s, run + [a]) == Step(Run(s, run), a)
    decreases |run|
  {
    hide Step;
    if |run| == 0 {
      assert run + [a] == [a];
      assert Run(Step(s, a), [a][1..]) == Step(s, a);
    } else {
      assert (run + [a])[1..] == run[1..] + [a];
      RunOneMore(Step(s, run[0]), run[1..], a);
    }
  }

  /** In every run, what was pushed is the accepted parts of the pushes in call order, and what was
      popped is what the pops handed over; a push accepts all it was called with or at least what
      fitted when it was called, and a pop likewise. */
  lemma {:induction false} CallsAreExact<T>(s: State<T>, run: seq<Action<T>>)
    requires Initial(s)
    ensures PushTold(Run(s, run), HistoryOf(s, run)) && PopTold(Run(s, run), HistoryOf(s, run))
    decreases |run|
  {
    hide Inv, Step, PushTold, PopTold, Initial, Next;
    if |run| == 0 {
      NothingTold(s);
    } else {
      var before, a := run[..|run| - 1], run[|run| - 1];
      CallsAreExact(s, before);
      Reachable(s, before);
      RunOneMore(s, before, a);
      assert before + [a] == run;
      PushToldNext(Run(s, before), a, HistoryOf(s, before));
      PopToldNext(Run(s, before), a, HistoryOf(s, before));
    }
  }

  lemma NothingTold<T>(s: State<T>)
    requires Initial(s)
    ensures Run(s, []) == s && PushTold(s, History([], [], [], [])) && PopTold(s, History([], [], [], []))
  {
  }

  // ----- no side waits for the other -----

  /** A bound on the steps that a push, or a pop, still takes. */
  ghost function PushSteps<T>(p: Producer<T>): int {
    match p
    case LoadTail(items) => |items| + 3
    case Refresh(_, n) => n + 2
    case Fill(_, n, i) => n - i + 1
    case _ => 0
  }

  ghost function PopSteps<T>(c: Consumer<T>): int {
    match c
    case LoadHead(count) => count + 3
    case Refresh(n) => n + 2
    case Read(n, got) => n - |got| + 1
    case _ => 0
  }

  /** Every step of a side brings its call closer to its return, whatever the other side does. */
  lemma SidesGoOn<T>(s: State<T>)
    requires Inv(s)
    ensures !ProducerRests(s.producer) ==> 0 <= PushSteps(Step(s, Produce).producer) < PushSteps(s.producer)
    ensures !ConsumerRests(s.consumer) ==> 0 <= PopSteps(Step(s, Consume).consumer) < PopSteps(s.consumer)
    ensures Step(s, Produce).consumer == s.consumer && Step(s, Consume).producer == s.producer
  {
    hide Slot, Stored, BatchCell;
  }
}
