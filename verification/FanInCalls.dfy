/** What the producers and the consumer of a fan-in ask for and are told. */
module FanInCalls {
  import opened RingIndex
  import opened SpscFanIn
  import R = SpscRing
  import C = SpscCalls

  lemma {:induction false} RunOneMore<T>(s: State<T>, run: seq<Action<T>>, a: Action<T>)
    ensures Run(s, run + [a]) == Step(Run(s, run), a)
    decreases |run|
  {
    hide Step;
    if |run| == 0 {
      assert run + [a] == [a];
      assert Run(Step(s, a), [a][1..]) == Step(s, a);
    } else {
      assert (run + [a])[1..] == run[1..] + [a];
      RunOneMore(Step(s, run[0]), run[1..], a);
    }
  }

  // ----- every lane is a ring -----

  /** What a step does on one lane: its producer's action, or the pop of the scan. */
  ghost function OnLane<T>(s: State<T>, a: Action<T>, lane: nat): seq<R.Action<T>>
    requires lane < |s.lanes|
  {
    match a
    case Producer(l, action) => if l == lane && IsProducers(action) then [action] else []
    case Pop(_) => []
    case Look =>
      if s.scan.Looking? && s.scan.attempt < |s.lanes| && Probe(s.next, s.scan.attempt, |s.lanes|) == lane
      then [R.Pop(s.scan.count)]
      else if s.scan.Trying? && Probe(s.next, s.scan.attempt, |s.lanes|) == lane && !AtRest(s.lanes[lane].consumer)
      then [R.Consume]
      else []
    case ConsumerLooks =>
      if s.scan.Trying? && Probe(s.next, s.scan.attempt, |s.lanes|) == lane then [R.ConsumerLooks] else []
  }

  ghost function LaneRun<T>(s: State<T>, run: seq<Action<T>>, lane: nat): seq<R.Action<T>>
    requires lane < |s.lanes|
    decreases |run|
  {
    if |run| == 0 then [] else
    var before := run[..|run| - 1];
    SameLanes(s, before);
    LaneRun(s, before, lane) + OnLane(Run(s, before), run[|run| - 1], lane)
  }

  lemma LaneStep<T>(s: State<T>, a: Action<T>, lane: nat)
    requires Inv(s) && lane < |s.lanes|
    ensures var on := OnLane(s, a, lane);
            && |Step(s, a).lanes| == |s.lanes| && |on| <= 1
            && Step(s, a).lanes[lane] == if on == [] then s.lanes[lane] else R.Step(s.lanes[lane], on[0])
  {
    hide R.Step, R.Inv, FromLane;
    if s.scan.Trying? {
      var at := Probe(s.next, s.scan.attempt, |s.lanes|);
      assert LaneFits(s.lanes[at], true, FromLane(s.served, at));
    }
  }

  /** In every run each lane is the single-producer ring on the actions of its producer, as they
      were made, and the pops of the scan: all that holds of the ring's runs holds of a lane. */
  lemma {:induction false} LanesAreRings<T>(s: State<T>, run: seq<Action<T>>, lane: nat)
    requires Initial(s) && lane < |s.lanes|
    ensures |Run(s, run).lanes| == |s.lanes|
    ensures Run(s, run).lanes[lane] == R.Run(s.lanes[lane], LaneRun(s, run, lane))
    decreases |run|
  {
    hide Inv, Step, OnLane, R.Step, Initial;
    SameLanes(s, run);
    if |run| != 0 {
      var before, a := run[..|run| - 1], run[|run| - 1];
      SameLanes(s, before);
      LanesAreRings(s, before, lane);
      StartsGood(s);
      RunKeeps(s, before);
      RunOneMore(s, before, a);
      assert before + [a] == run;
      var r := Run(s, before);
      LaneStep(r, a, lane);
      var earlier, on := LaneRun(s, before, lane), OnLane(r, a, lane);
      if on == [] {
        assert earlier + on == earlier;
      } else {
        assert on == [on[0]];
        C.RunOneMore(s.lanes[lane], earlier, on[0]);
      }
    }
  }

  /** So what a producer's lane took in is the accepted parts of its pushes. */
  lemma LaneTakesPushes<T>(s: State<T>, run: seq<Action<T>>, lane: nat)
    requires Initial(s) && lane < |s.lanes|
    ensures |Run(s, run).lanes| == |s.lanes|
    ensures C.PushTold(Run(s, run).lanes[lane], C.HistoryOf(s.lanes[lane], LaneRun(s, run, lane)))
  {
    hide Run, R.Run, LaneRun, C.PushTold, C.PopTold, C.HistoryOf, R.Initial;
    LanesAreRings(s, run, lane);
    C.CallsAreExact(s.lanes[lane], LaneRun(s, run, lane));
  }

  // ----- the consumer's calls -----

  /** The counts that the consumer called with, and what each call that has returned handed it: the
      lane and the items, or no items. */
  datatype History<T> = History(counts: seq<nat>, answers: seq<Served<T>>)

  ghost function Begun<T>(s: State<T>, a: Action<T>): seq<nat> {
    if a.Pop? && s.scan.Between? then [a.count] else []
  }

  ghost function Returned<T>(s: State<T>, a: Action<T>): seq<Served<T>> {
    var s' := Step(s, a);
    if s.scan.Between? || !s'.scan.Between? then []
    else if |s.served| < |s'.served| then [s'.served[|s.served|]]
    else [Served(0, [])]
  }

  ghost function HistoryOf<T>(s: State<T>, run: seq<Action<T>>): History<T>
    decreases |run|
  {
    if |run| == 0 then History([], []) else
    var before, a := run[..|run| - 1], run[|run| - 1];
    var h, r := HistoryOf(s, before), Run(s, before);
    History(h.counts + Begun(r, a), h.answers + Returned(r, a))
  }

  /** The answers that handed something over. */
  ghost function Filled<T>(answers: seq<Served<T>>): seq<Served<T>>
    decreases |answers|
  {
    if |answers| == 0 then [] else
    var last := answers[|answers| - 1];
    Filled(answers[..|answers| - 1]) + if last.items != [] then [last] else []
  }

  /** A pop on a lane, begun with this count. */
  ghost predicate ForCount<T>(consumer: R.Consumer<T>, count: nat) {
    match consumer
    case LoadHead(c) => c == count
    case Refresh(n) => n <= count
    case Read(n, got) => |got| <= n <= count
    case Received(got) => |got| <= count
    case _ => true
  }

  ghost predicate Told<T>(s: State<T>, h: History<T>) {
    && |h.counts| == |h.answers| + (if s.scan.Between? then 0 else 1)
    && (!s.scan.Between? ==> s.scan.count == h.counts[|h.answers|])
    && (s.scan.Trying? && s.next < |s.lanes| && s.scan.attempt < |s.lanes| ==>
          ForCount(s.lanes[Probe(s.next, s.scan.attempt, |s.lanes|)].consumer, s.scan.count))
    && (forall i :: 0 <= i < |h.answers| ==> |h.answers[i].items| <= h.counts[i])
    && s.served == Filled(h.answers) && s.misses == |h.answers| - |s.served|
  }

  lemma FilledNext<T>(answers: seq<Served<T>>, answer: Served<T>)
    ensures Filled(answers + [answer]) == Filled(answers) + if answer.items != [] then [answer] else []
  {
    assert (answers + [answer])[..|answers|] == answers;
  }

  /** The pop on a lane keeps to its count. */
  lemma CountKept<T>(r: R.State<T>, a: R.Action<T>, count: nat)
    requires R.Inv(r)
    requires (a.Consume? && ForCount(r.consumer, count)) || (a == R.Pop(count) && AtRest(r.consumer))
             || ((IsProducers(a) || a.ConsumerLooks?) && ForCount(r.consumer, count))
    ensures ForCount(R.Step(r, a).consumer, count)
  {
    hide Slot, R.BatchCell, R.Stored;
  }

  /** What a step does to the consumer's call. */
  lemma CallStep<T>(s: State<T>, a: Action<T>)
    requires Inv(s)
    ensures var s', begun, returned := Step(s, a), Begun(s, a), Returned(s, a);
            && |begun| <= 1 && |returned| <= 1
            && (s.scan.Between? && begun == [] ==>
                  s'.scan.Between? && returned == [] && s'.served == s.served && s'.misses == s.misses)
            && (begun != [] ==> s.scan.Between? && s'.scan == Looking(0, begun[0]) && returned == []
                                && s'.served == s.served && s'.misses == s.misses)
            && (!s.scan.Between? ==>
                  && begun == [] && (returned == [] <==> !s'.scan.Between?)
                  && (returned == [] ==> s'.scan.count == s.scan.count && s'.served == s.served && s'.misses == s.misses)
                  && (returned != [] ==>
                        && s'.served == s.served + (if returned[0].items != [] then [returned[0]] else [])
                        && s'.misses == s.misses + (if returned[0].items != [] then 0 else 1)
                        && (returned[0].items != [] ==>
                              s.scan.Trying?
                              && returned[0].items
                                 == InHand(s.lanes[Probe(s.next, s.scan.attempt, |s.lanes|)].consumer, true))))
  {
    hide R.Step, R.Inv, FromLane, Probe, LaneFits;
  }

  /** The pop under way keeps to the count of the call. */
  lemma TryStep<T>(s: State<T>, a: Action<T>)
    requires Inv(s)
    requires s.scan.Trying? ==>
               ForCount(s.lanes[Probe(s.next, s.scan.attempt, |s.lanes|)].consumer, s.scan.count)
    ensures var s' := Step(s, a);
            s'.scan.Trying? && s'.next < |s'.lanes| && s'.scan.attempt < |s'.lanes| ==>
              ForCount(s'.lanes[Probe(s'.next, s'.scan.attempt, |s'.lanes|)].consumer, s'.scan.count)
  {
    hide R.Step, R.Inv, FromLane, ForCount, Probe;
    var s' := Step(s, a);
    if s'.scan.Trying? {
      var at := Probe(s.next, s'.scan.attempt, |s.lanes|);
      assert LaneFits(s.lanes[at], Tries(s.next, s.scan, |s.lanes|, at), FromLane(s.served, at));
      LaneStep(s, a, at);
      var on := OnLane(s, a, at);
      if on != [] {
        CountKept(s.lanes[at], on[0], s'.scan.count);
      }
    }
  }

  lemma ToldNext<T>(s: State<T>, a: Action<T>, h: History<T>)
    requires Inv(s) && Told(s, h)
    ensures Told(Step(s, a), History(h.counts + Begun(s, a), h.answers + Returned(s, a)))
  {
    hide Inv, Step, Begun, Returned, Filled, ForCount, InHand;
    Trying(s);
    TryStep(s, a);
    CallStep(s, a);
    var begun, returned := Begun(s, a), Returned(s, a);
    assert h.counts + [] == h.counts && h.answers + [] == h.answers;
    if begun != [] {
      assert begun == [begun[0]];
    }
    if returned != [] {
      assert returned == [returned[0]];
      FilledNext(h.answers, returned[0]);
      if returned[0].items != [] {
        InHandCount(s.lanes[Probe(s.next, s.scan.attempt, |s.lanes|)].consumer, s.scan.count);
      }
    }
  }

  lemma Trying<T>(s: State<T>)
    requires Inv(s)
    ensures s.next < |s.lanes| && (s.scan.Trying? ==> s.scan.attempt < |s.lanes|)
  {
  }

  lemma InHandCount<T>(consumer: R.Consumer<T>, count: nat)
    requires ForCount(consumer, count)
    ensures |InHand(consumer, true)| <= count
  {
  }

  /** In every run, `served` lists exactly what the consumer's calls handed it, in call order, no
      call handed over more than it asked for, and the others are the misses. */
  lemma {:induction false} CallsAreServed<T>(s: State<T>, run: seq<Action<T>>)
    requires Initial(s)
    ensures Told(Run(s, run), HistoryOf(s, run))
    decreases |run|
  {
    hide Inv, Step, Told, Initial, Begun, Returned;
    if |run| == 0 {
      NothingTold(s);
    } else {
      var before, a := run[..|run| - 1], run[|run| - 1];
      CallsAreServed(s, before);
      StartsGood(s);
      RunKeeps(s, before);
      RunOneMore(s, before, a);
      assert before + [a] == run;
      ToldNext(Run(s, before), a, HistoryOf(s, before));
    }
  }

  lemma NothingTold<T>(s: State<T>)
    requires Initial(s)
    ensures Run(s, []) == s && Told(s, History([], []))
  {
  }

  // ----- a call goes on -----

  /** Lanes still to be looked at, and a bound on the steps for the present one. */
  ghost function LanesLeft<T>(s: State<T>): int {
    if s.scan.Between? then -1 else |s.lanes| - s.scan.attempt
  }

  ghost function LaneSteps<T>(s: State<T>): int
    requires s.scan.Trying? ==> s.next < |s.lanes| && s.scan.attempt < |s.lanes|
  {
    match s.scan
    case Between => 0
    case Looking(_, count) => count + 5
    case Trying(attempt, _) => C.PopSteps(s.lanes[Probe(s.next, attempt, |s.lanes|)].consumer) + 1
  }

  /** Every look brings a call closer to its return: to the next step of the pop on the lane, to the
      next lane, or to its end. */
  lemma LooksGoOn<T>(s: State<T>)
    requires Inv(s) && !s.scan.Between?
    ensures s.scan.Trying? ==> s.next < |s.lanes| && s.scan.attempt < |s.lanes|
    ensures var s' := Step(s, Look);
            && (s'.scan.Trying? ==> s'.next < |s'.lanes| && s'.scan.attempt < |s'.lanes|)
            && (s'.scan.Between? || LanesLeft(s') < LanesLeft(s)
                || (LanesLeft(s') == LanesLeft(s) && 0 <= LaneSteps(s') < LaneSteps(s)))
  {
    hide R.Step, R.Inv, FromLane, Probe, C.PopSteps;
    if s.scan.Looking? {
      if s.scan.attempt < |s.lanes| {
        var at := Probe(s.next, s.scan.attempt, |s.lanes|);
        assert LaneFits(s.lanes[at], false, FromLane(s.served, at));
        PopBegins(s.lanes[at], s.scan.count);
      }
    } else {
      var at := Probe(s.next, s.scan.attempt, |s.lanes|);
      assert LaneFits(s.lanes[at], true, FromLane(s.served, at));
      if !AtRest(s.lanes[at].consumer) {
        C.SidesGoOn(s.lanes[at]);
      }
    }
  }

  lemma PopBegins<T>(r: R.State<T>, count: nat)
    requires AtRest(r.consumer)
    ensures 0 <= C.PopSteps(R.Step(r, R.Pop(count)).consumer) <= count + 3
  {
  }
}
