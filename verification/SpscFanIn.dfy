/** One consumer polling the rings of several producers in turn. Every access of every ring is a
    step of its own: producers work on their rings while the consumer is in the middle of a look
    at another, or at the same, lane. A pop is a batch of one.
 */
module SpscFanIn {
  import opened Options
  import opened RingIndex
  import R = SpscRing

  /** `Trying`: the consumer is inside the pop on the lane that the attempt leads to. */
  datatype Scan = Between | Looking(attempt: nat, count: nat) | Trying(attempt: nat, count: nat)

  datatype Served<T> = Served(lane: nat, items: seq<T>)

  /** `served` records what the consumer was handed, and `misses` how many calls found nothing; no
      step depends on them. */
  datatype State<T> = State(lanes: seq<R.State<T>>, next: nat, scan: Scan,
                            served: seq<Served<T>>, misses: nat)

  datatype Action<T> =
    | Producer(lane: nat, action: R.Action<T>)
    | Pop(count: nat)
    | Look
    | ConsumerLooks

  ghost predicate Initial<T>(s: State<T>) {
    && 0 < |s.lanes| && s.next == 0 && s.scan.Between? && s.served == [] && s.misses == 0
    && (forall l :: 0 <= l < |s.lanes| ==> R.Initial(s.lanes[l]))
  }

  ghost predicate IsProducers<T>(a: R.Action<T>) {
    a.Push? || a.Produce? || a.ProducerLooks?
  }

  ghost function StepLane<T>(s: State<T>, lane: nat, a: R.Action<T>): State<T>
    requires lane < |s.lanes|
  {
    s.(lanes := s.lanes[lane := R.Step(s.lanes[lane], a)])
  }

  ghost function Step<T>(s: State<T>, a: Action<T>): State<T> {
    match a
    case Producer(lane, action) =>
      if lane < |s.lanes| && IsProducers(action) then StepLane(s, lane, action) else s
    case Pop(count) => if s.scan.Between? then s.(scan := Looking(0, count)) else s
    case Look =>
      if |s.lanes| == 0 then s
      else if s.scan.Looking? then NextLane(s, s.scan.attempt, s.scan.count)
      else if s.scan.Trying? then TryLane(s, s.scan.attempt, s.scan.count)
      else s
    case ConsumerLooks =>
      if |s.lanes| != 0 && s.scan.Trying?
      then StepLane(s, Probe(s.next, s.scan.attempt, |s.lanes|), R.ConsumerLooks) else s
  }

  /** Begins the pop on the next lane in turn, or gives up after a whole round. */
  ghost function NextLane<T>(s: State<T>, attempt: nat, count: nat): State<T>
    requires 0 < |s.lanes|
  {
    if |s.lanes| <= attempt then s.(scan := Between, misses := s.misses + 1)
    else StepLane(s, Probe(s.next, attempt, |s.lanes|), R.Pop(count)).(scan := Trying(attempt, count))
  }

  /** The next step of the pop on the lane, or what follows when it has returned. */
  ghost function TryLane<T>(s: State<T>, attempt: nat, count: nat): State<T>
    requires 0 < |s.lanes|
  {
    var lane := Probe(s.next, attempt, |s.lanes|);
    var consumer := s.lanes[lane].consumer;
    if consumer.Refused? || (consumer.Received? && consumer.got == []) then s.(scan := Looking(attempt + 1, count))
    else if consumer.Received? then
      s.(next := (lane + 1) % |s.lanes|, scan := Between, served := s.served + [Served(lane, consumer.got)])
    else StepLane(s, lane, R.Consume)
  }

  ghost function Run<T>(s: State<T>, actions: seq<Action<T>>): State<T>
    decreases |actions|
  {
    if |actions| == 0 then s else Run(Step(s, actions[0]), actions[1..])
  }

  // ----- the output is a merge of the lanes -----

  /** What the consumer was handed from one lane, in order. */
  ghost function FromLane<T>(served: seq<Served<T>>, lane: nat): seq<T>
    decreases |served|
  {
    if served == [] then [] else
    var last := served[|served| - 1];
    FromLane(served[..|served| - 1], lane) + if last.lane == lane then last.items else []
  }

  ghost predicate AtRest<T>(consumer: R.Consumer<T>) {
    consumer.Ready? || consumer.Refused? || consumer.Received?
  }

  /** The consumer is inside the pop on this lane. */
  ghost predicate Tries(next: nat, scan: Scan, lanes: nat, lane: nat)
    requires 0 < lanes
  {
    scan.Trying? && Probe(next, scan.attempt, lanes) == lane
  }

  /** Popped from the ring and about to be handed out. */
  ghost function InHand<T>(consumer: R.Consumer<T>, tried: bool): seq<T> {
    if tried && consumer.Received? then consumer.got else []
  }

  ghost predicate LaneFits<T>(r: R.State<T>, tried: bool, from: seq<T>) {
    && R.Inv(r)
    && (!tried ==> AtRest(r.consumer))
    && (tried ==> !r.consumer.Ready?)
    && from + InHand(r.consumer, tried) == r.popped
  }

  ghost predicate Inv<T>(s: State<T>) {
    && 0 < |s.lanes| && s.next < |s.lanes|
    && (s.scan.Trying? ==> s.scan.attempt < |s.lanes|)
    && (forall l: nat :: l < |s.lanes| ==>
          LaneFits(s.lanes[l], Tries(s.next, s.scan, |s.lanes|, l), FromLane(s.served, l)))
  }

  /** What a ring's steps mean for the other side, and for what was popped. */
  lemma RingFrame<T>(r: R.State<T>, a: R.Action<T>)
    requires R.Inv(r)
    ensures R.Inv(R.Step(r, a))
    ensures IsProducers(a) ==>
              var r' := R.Step(r, a);
              r'.consumer == r.consumer && r'.popped == r.popped && r'.tail == r.tail && r.head <= r'.head
    ensures a.Pop? && AtRest(r.consumer) ==>
              var r' := R.Step(r, a);
              && r'.popped == r.popped && r'.head == r.head && r'.tail == r.tail
              && !r'.consumer.Ready? && !r'.consumer.Refused?
              && (r'.consumer.Received? ==> r'.consumer.got == [] && a.count == 0)
    ensures a.ConsumerLooks? ==>
              var r' := R.Step(r, a);
              r'.consumer == r.consumer && r'.popped == r.popped && r'.head == r.head && r'.tail == r.tail
    ensures a.Consume? && !AtRest(r.consumer) ==>
              var r' := R.Step(r, a);
              && r'.head == r.head && !r'.consumer.Ready?
              && (r'.consumer.Received? ==>
                    r'.popped == r.popped + r'.consumer.got && r'.consumer.got != [])
              && (!r'.consumer.Received? ==> r'.popped == r.popped && r'.tail == r.tail)
              && (r'.consumer.Refused? ==> r.head == r.tail)
  {
    R.StepKeeps(r, a);
    hide Slot, R.BatchCell, R.Stored, R.ProducerFits;
  }

  /** A lane on which nothing happens keeps its place if its role stays the same. */
  lemma HandedOn<T>(served: seq<Served<T>>, lane: nat, items: seq<T>, l: nat)
    ensures FromLane(served + [Served(lane, items)], l)
         == FromLane(served, l) + if l == lane then items else []
  {
    var more := served + [Served(lane, items)];
    assert more[..|more| - 1] == served;
  }

  lemma LaneStepKeeps<T>(s: State<T>, lane: nat, a: R.Action<T>)
    requires Inv(s) && lane < |s.lanes|
    requires IsProducers(a) || (Tries(s.next, s.scan, |s.lanes|, lane) && !AtRest(s.lanes[lane].consumer) && a.Consume?)
             || (Tries(s.next, s.scan, |s.lanes|, lane) && a.ConsumerLooks?)
    ensures Inv(StepLane(s, lane, a))
  {
    hide R.Step, R.Inv, FromLane, Tries;
    assert LaneFits(s.lanes[lane], Tries(s.next, s.scan, |s.lanes|, lane), FromLane(s.served, lane));
    RingFrame(s.lanes[lane], a);
  }

  lemma BeginKeeps<T>(s: State<T>)
    requires Inv(s) && s.scan.Looking?
    ensures Inv(NextLane(s, s.scan.attempt, s.scan.count))
  {
    hide R.Step, R.Inv, FromLane;
    if s.scan.attempt < |s.lanes| {
      var lane := Probe(s.next, s.scan.attempt, |s.lanes|);
      assert LaneFits(s.lanes[lane], false, FromLane(s.served, lane));
      RingFrame(s.lanes[lane], R.Pop(s.scan.count));
      var s' := NextLane(s, s.scan.attempt, s.scan.count);
      forall l: nat | l < |s.lanes|
        ensures LaneFits(s'.lanes[l], Tries(s'.next, s'.scan, |s'.lanes|, l), FromLane(s'.served, l))
      {
        assert LaneFits(s.lanes[l], false, FromLane(s.served, l));
      }
    } else {
      forall l: nat | l < |s.lanes| ensures LaneFits(s.lanes[l], false, FromLane(s.served, l)) {
        assert LaneFits(s.lanes[l], Tries(s.next, s.scan, |s.lanes|, l), FromLane(s.served, l));
      }
    }
  }

  lemma ReturnKeeps<T>(s: State<T>)
    requires Inv(s) && s.scan.Trying?
    ensures Inv(TryLane(s, s.scan.attempt, s.scan.count))
  {
    hide R.Step, R.Inv, FromLane;
    var lane := Probe(s.next, s.scan.attempt, |s.lanes|);
    var consumer := s.lanes[lane].consumer;
    assert LaneFits(s.lanes[lane], true, FromLane(s.served, lane));
    if AtRest(consumer) {
      var s' := TryLane(s, s.scan.attempt, s.scan.count);
      forall l: nat | l < |s.lanes|
        ensures LaneFits(s'.lanes[l], Tries(s'.next, s'.scan, |s'.lanes|, l), FromLane(s'.served, l))
      {
        assert LaneFits(s.lanes[l], Tries(s.next, s.scan, |s.lanes|, l), FromLane(s.served, l));
        if consumer.Received? {
          HandedOn(s.served, lane, consumer.got, l);
        }
      }
    } else {
      LaneStepKeeps(s, lane, R.Consume);
    }
  }

  lemma StepKeeps<T>(s: State<T>, a: Action<T>)
    requires Inv(s)
    ensures Inv(Step(s, a))
  {
    hide LaneFits, NextLane, TryLane, R.Step;
    match a
    case Producer(lane, action) =>
      if lane < |s.lanes| && IsProducers(action) {
        LaneStepKeeps(s, lane, action);
      }
    case Pop(count) =>
    case Look =>
      if s.scan.Looking? {
        BeginKeeps(s);
      } else if s.scan.Trying? {
        ReturnKeeps(s);
      }
    case ConsumerLooks =>
      if s.scan.Trying? {
        LaneStepKeeps(s, Probe(s.next, s.scan.attempt, |s.lanes|), R.ConsumerLooks);
      }
  }

  lemma {:induction false} RunKeeps<T>(s: State<T>, actions: seq<Action<T>>)
    requires Inv(s)
    ensures Inv(Run(s, actions))
    decreases |actions|
  {
    hide Step, Inv;
    if |actions| != 0 {
      StepKeeps(s, actions[0]);
      RunKeeps(Step(s, actions[0]), actions[1..]);
    }
  }

  lemma StartsGood<T>(s: State<T>)
    requires Initial(s)
    ensures Inv(s)
  {
    hide Slot;
  }

  /** For every lane, what was handed out from it, what is about to be, and what its ring still
      holds are what its producer pushed, in order: the output is an order-preserving merge. */
  lemma OutputMerges<T>(s: State<T>, run: seq<Action<T>>, lane: nat)
    requires Initial(s) && lane < |s.lanes|
    ensures var r := Run(s, run);
            && |r.lanes| == |s.lanes|
            && r.lanes[lane].tail <= r.lanes[lane].head <= |r.lanes[lane].pushed|
            && FromLane(r.served, lane) + InHand(r.lanes[lane].consumer, Tries(r.next, r.scan, |r.lanes|, lane))
               + R.Queue(r.lanes[lane]) == r.lanes[lane].pushed
  {
    hide Run, FromLane;
    SameLanes(s, run);
    StartsGood(s);
    RunKeeps(s, run);
    var r := Run(s, run);
    assert LaneFits(r.lanes[lane], Tries(r.next, r.scan, |r.lanes|, lane), FromLane(r.served, lane));
    QueueBehind(r.lanes[lane]);
  }

  lemma QueueBehind<T>(r: R.State<T>)
    requires R.Inv(r)
    ensures r.tail <= r.head <= |r.pushed| && r.popped + R.Queue(r) == r.pushed
  {
    hide Slot, R.Stored;
  }

  lemma {:induction false} SameLanes<T>(s: State<T>, run: seq<Action<T>>)
    ensures |Run(s, run).lanes| == |s.lanes|
    decreases |run|
  {
    hide R.Step;
    if |run| != 0 {
      SameLanes(Step(s, run[0]), run[1..]);
    }
  }

  // ----- no lane is passed over for long -----

  /** How many lanes a scan from `next` looks at before `lane`. */
  ghost function Distance(next: nat, lane: nat, lanes: nat): nat
    requires next < lanes && lane < lanes
  {
    if next <= lane then lane - next else lanes - next + lane
  }

  /** The ring has something published that is not popped, or its pop has just brought something. */
  ghost predicate Waiting<T>(r: R.State<T>, tried: bool) {
    if tried && r.consumer.Received? then r.consumer.got != []
    else r.tail < r.head && (tried ==> !r.consumer.Refused?)
  }

  /** A call that is under way has not passed the lane yet. */
  ghost predicate NotPassed(next: nat, scan: Scan, lanes: nat, lane: nat)
    requires next < lanes && lane < lanes
  {
    !scan.Between? ==> 0 < scan.count && scan.attempt <= Distance(next, lane, lanes)
  }

  ghost predicate Waits<T>(s: State<T>, lane: nat) {
    && s.next < |s.lanes| && lane < |s.lanes|
    && NotPassed(s.next, s.scan, |s.lanes|, lane)
    && Waiting(s.lanes[lane], Tries(s.next, s.scan, |s.lanes|, lane))
  }

  /** One more batch was handed out, and it came from the lane. */
  ghost predicate Serves<T>(s: State<T>, a: Action<T>, lane: nat) {
    |s.served| < |Step(s, a).served| && Step(s, a).served[|s.served|].lane == lane
  }

  lemma ScanMeets(next: nat, lane: nat, lanes: nat, attempt: nat)
    requires next < lanes && lane < lanes && attempt <= Distance(next, lane, lanes)
    ensures Probe(next, attempt, lanes) == lane <==> attempt == Distance(next, lane, lanes)
    ensures attempt < Distance(next, lane, lanes) ==>
              Distance((Probe(next, attempt, lanes) + 1) % lanes, lane, lanes)
              == Distance(next, lane, lanes) - attempt - 1
  {
    var look := if next + attempt < lanes then next + attempt else next + attempt - lanes;
    OneLap(next + attempt, lanes);
    OneLap(look + 1, lanes);
  }

  lemma OneLap(a: nat, n: nat)
    requires 0 < n && a < 2 * n
    ensures a % n == if a < n then a else a - n
  {
    if n <= a {
      DivModUnique(a, n, 1, a - n);
    }
  }

  /** What a step has to bring for a lane that it does not serve: the lane still waits, no call
      has missed, and each batch handed out brings the scan closer to the lane. */
  ghost predicate Closer<T>(s: State<T>, s': State<T>, lane: nat)
    requires s.next < |s.lanes| && lane < |s.lanes|
  {
    && |s'.lanes| == |s.lanes| && Waits(s', lane) && s'.misses == s.misses
    && |s'.served| + Distance(s'.next, lane, |s.lanes|) <= |s.served| + Distance(s.next, lane, |s.lanes|)
  }

  lemma WaitLane<T>(s: State<T>, at: nat, a: R.Action<T>, lane: nat)
    requires Inv(s) && Waits(s, lane) && at < |s.lanes|
    requires IsProducers(a) || (Tries(s.next, s.scan, |s.lanes|, at) && !AtRest(s.lanes[at].consumer) && a.Consume?)
             || (Tries(s.next, s.scan, |s.lanes|, at) && a.ConsumerLooks?)
    ensures Closer(s, StepLane(s, at, a), lane)
  {
    hide R.Step, R.Inv, FromLane, Tries, Distance;
    assert LaneFits(s.lanes[at], Tries(s.next, s.scan, |s.lanes|, at), FromLane(s.served, at));
    RingFrame(s.lanes[at], a);
    RingBounds(s.lanes[at]);
    RingBounds(R.Step(s.lanes[at], a));
  }

  lemma RingBounds<T>(r: R.State<T>)
    requires R.Inv(r)
    ensures r.tail <= r.head
  {
    hide Slot, R.Stored;
  }

  lemma WaitBegin<T>(s: State<T>, lane: nat)
    requires Inv(s) && Waits(s, lane) && s.scan.Looking?
    ensures Closer(s, NextLane(s, s.scan.attempt, s.scan.count), lane)
  {
    hide R.Step, R.Inv, FromLane;
    var at := Probe(s.next, s.scan.attempt, |s.lanes|);
    assert LaneFits(s.lanes[at], false, FromLane(s.served, at));
    RingFrame(s.lanes[at], R.Pop(s.scan.count));
  }

  lemma WaitReturn<T>(s: State<T>, lane: nat)
    requires Inv(s) && Waits(s, lane) && s.scan.Trying? && !Serves(s, Look, lane)
    ensures Closer(s, TryLane(s, s.scan.attempt, s.scan.count), lane)
  {
    hide R.Step, R.Inv, FromLane;
    var at := Probe(s.next, s.scan.attempt, |s.lanes|);
    assert LaneFits(s.lanes[at], true, FromLane(s.served, at));
    ScanMeets(s.next, lane, |s.lanes|, s.scan.attempt);
    if AtRest(s.lanes[at].consumer) {
      hide Probe, Distance;
    } else {
      WaitLane(s, at, R.Consume, lane);
    }
  }

  /** A step that does not serve the lane keeps it waiting, finds something for every call, and
      brings the scan closer by at least one for every batch handed out. */
  lemma WaitStep<T>(s: State<T>, a: Action<T>, lane: nat)
    requires Inv(s) && Waits(s, lane)
    requires a.Pop? ==> 0 < a.count
    requires !Serves(s, a, lane)
    ensures Closer(s, Step(s, a), lane)
  {
    hide LaneFits, Inv, NextLane, TryLane, R.Step, Waiting;
    match a
    case Producer(at, action) =>
      if at < |s.lanes| && IsProducers(action) {
        WaitLane(s, at, action, lane);
      }
    case Pop(count) =>
    case Look =>
      if s.scan.Looking? {
        WaitBegin(s, lane);
      } else if s.scan.Trying? {
        WaitReturn(s, lane);
      }
    case ConsumerLooks =>
      if s.scan.Trying? {
        WaitLane(s, Probe(s.next, s.scan.attempt, |s.lanes|), R.ConsumerLooks, lane);
      }
  }

  ghost predicate NeverServes<T>(s: State<T>, run: seq<Action<T>>, lane: nat)
    decreases |run|
  {
    |run| == 0 || (!Serves(s, run[0], lane) && NeverServes(Step(s, run[0]), run[1..], lane))
  }

  lemma {:induction false} KeepsWaiting<T>(s: State<T>, run: seq<Action<T>>, lane: nat)
    requires Inv(s) && Waits(s, lane)
    requires forall i :: 0 <= i < |run| && run[i].Pop? ==> 0 < run[i].count
    requires NeverServes(s, run, lane)
    ensures Closer(s, Run(s, run), lane)
    decreases |run|
  {
    hide Step, Serves, Inv, Waiting, NotPassed, Distance;
    if |run| != 0 {
      WaitStep(s, run[0], lane);
      StepKeeps(s, run[0]);
      KeepsWaiting(Step(s, run[0]), run[1..], lane);
    }
  }

  /** Once a lane has a published item and no call is under way, every call finds something, and
      the lane is served before as many batches as there are lanes have gone to the others,
      whatever producers do in between. */
  lemma ServedInTurn<T>(s: State<T>, before: seq<Action<T>>, run: seq<Action<T>>, lane: nat)
    requires Initial(s)
    requires var r := Run(s, before);
             r.scan.Between? && lane < |r.lanes| && r.lanes[lane].tail < r.lanes[lane].head
    requires forall i :: 0 <= i < |run| && run[i].Pop? ==> 0 < run[i].count
    requires NeverServes(Run(s, before), run, lane)
    ensures Run(Run(s, before), run).misses == Run(s, before).misses
    ensures |Run(Run(s, before), run).served| < |Run(s, before).served| + |s.lanes|
  {
    hide NeverServes, Run, LaneFits;
    StartsGood(s);
    RunKeeps(s, before);
    SameLanes(s, before);
    KeepsWaiting(Run(s, before), run, lane);
  }

  // ----- the fan-in itself -----

  class FanIn<T> {
    const lanes: seq<R.Ring<T>>
    var nextLane: nat

    /** The lanes are rings of their own. */
    ghost predicate Valid()
      reads this, lanes, set r | r in lanes :: r.buffer
    {
      && nextLane < |lanes|
      && (forall i :: 0 <= i < |lanes| ==> lanes[i].Valid())
      && (forall i, j :: 0 <= i < j < |lanes| ==> lanes[i] != lanes[j] && lanes[i].buffer != lanes[j].buffer)
    }

    ghost function Contents(): (contents: seq<seq<T>>)
      requires forall i :: 0 <= i < |lanes| ==> lanes[i].Valid()
      reads lanes, set r | r in lanes :: r.buffer
      ensures |contents| == |lanes|
      ensures forall i :: 0 <= i < |lanes| ==> contents[i] == lanes[i].Contents()
    {
      seq(|lanes|, i requires 0 <= i < |lanes| && lanes[i].Valid()
                     reads lanes, set r | r in lanes :: r.buffer =>
        lanes[i].Contents())
    }

    constructor (lanes: seq<R.Ring<T>>)
      requires 0 < |lanes| && forall i :: 0 <= i < |lanes| ==> lanes[i].Valid()
      requires forall i, j :: 0 <= i < j < |lanes| ==> lanes[i] != lanes[j] && lanes[i].buffer != lanes[j].buffer
      ensures Valid() && this.lanes == lanes && nextLane == 0
    {
      this.lanes := lanes;
      nextLane := 0;
    }

    /** A producer pushes to its own lane, and only there. */
    method TryPush(producer: nat, item: T) returns (ok: bool)
      requires Valid()
      modifies if producer < |lanes| then {lanes[producer], lanes[producer].buffer} else {}
      ensures Valid() && nextLane == old(nextLane)
      ensures ok <==> producer < |lanes| && |old(Contents())[producer]| < lanes[producer].buffer.Length
      ensures Contents() == if ok then old(Contents())[producer := old(Contents())[producer] + [item]]
                            else old(Contents())
    {
      if |lanes| <= producer {
        return false;
      }
      ok := lanes[producer].Push(item);
    }

    /** A pop on one lane leaves the others alone. */
    method PopLane(lane: nat) returns (item: Option<T>)
      requires Valid() && lane < |lanes|
      modifies lanes[lane]
      ensures Valid()
      ensures old(Contents())[lane] == (if item.Some? then [item.value] else []) + Contents()[lane]
      ensures item.None? ==> old(Contents())[lane] == []
      ensures Contents() == old(Contents())[lane := Contents()[lane]]
    {
      ghost var was := Contents();
      item := lanes[lane].Pop();
      forall i | 0 <= i < |lanes| && i != lane ensures lanes[i].Valid() && lanes[i].Contents() == was[i] {
        assert lanes[i] != lanes[lane];
      }
    }

    method PopLaneBatch(lane: nat, out: array<T>, count: nat) returns (n: nat)
      requires Valid() && lane < |lanes| && count <= out.Length && forall r :: r in lanes ==> r.buffer != out
      modifies lanes[lane], out
      ensures Valid() && n == Min(count, |old(Contents())[lane]|)
      ensures old(Contents())[lane] == out[..n] + Contents()[lane]
      ensures Contents() == old(Contents())[lane := Contents()[lane]]
    {
      ghost var was := Contents();
      assert lanes[lane] in lanes;
      n := lanes[lane].PopBatch(out, count);
      forall i | 0 <= i < |lanes| && i != lane ensures lanes[i].Valid() && lanes[i].Contents() == was[i] {
        assert lanes[i] != lanes[lane] && lanes[i] in lanes;
      }
    }

    /** Serves the first lane in turn that has something, and moves the turn behind it. */
    method Pop() returns (item: Option<T>, producer: nat)
      requires Valid()
      modifies this, lanes
      ensures Valid()
      ensures Turn(old(Contents()), old(nextLane), 1, if item.Some? then [item.value] else [], producer,
                   Contents(), nextLane)
    {
      hide Turn, Skipped, Contents, Probe, R.Ring.Valid, R.Ring.Contents;
      item, producer := None, 0;
      ghost var was, start := Contents(), nextLane;
      NothingSkipped(was, start, 1);
      var attempt := 0;
      while attempt < |lanes|
        invariant attempt <= |lanes| && Valid() && Contents() == was && nextLane == start && item.None?
        invariant Skipped(was, start, 1, attempt)
      {
        var lane := Probe(nextLane, attempt, |lanes|);
        item := PopLane(lane);
        LaneLooked(was, start, 1, attempt, if item.Some? then [item.value] else [], Contents());
        if item.Some? {
          nextLane, producer := (lane + 1) % |lanes|, lane;
          return;
        }
        attempt := attempt + 1;
      }
      AllSkipped(was, start, 1);
    }

    /** The same for a batch: all of it comes from one lane. */
    method PopBatch(out: array<T>, count: nat) returns (n: nat, producer: nat)
      requires Valid() && count <= out.Length && forall r :: r in lanes ==> r.buffer != out
      modifies this, lanes, out
      ensures Valid() && n <= out.Length
      ensures Turn(old(Contents()), old(nextLane), count, out[..n], producer, Contents(), nextLane)
    {
      hide Turn, Skipped, Contents, Probe, R.Ring.Valid, R.Ring.Contents;
      n, producer := 0, 0;
      ghost var was, start := Contents(), nextLane;
      NothingSkipped(was, start, count);
      var attempt := 0;
      while attempt < |lanes|
        invariant attempt <= |lanes| && Valid() && Contents() == was && nextLane == start && n == 0
        invariant Skipped(was, start, count, attempt)
      {
        var lane := Probe(nextLane, attempt, |lanes|);
        n := PopLaneBatch(lane, out, count);
        LaneLooked(was, start, count, attempt, out[..n], Contents());
        if n != 0 {
          nextLane, producer := (lane + 1) % |lanes|, lane;
          return;
        }
        attempt := attempt + 1;
      }
      AllSkipped(was, start, count);
      assert out[..n] == [];
    }
  }

  /** The first `attempt` lanes in turn had nothing to give. */
  ghost predicate Skipped<T>(was: seq<seq<T>>, start: nat, count: nat, attempt: nat) {
    start < |was| && forall l: nat :: l < |was| && Distance(start, l, |was|) < attempt ==> count == 0 || was[l] == []
  }

  lemma NothingSkipped<T>(was: seq<seq<T>>, start: nat, count: nat)
    requires start < |was|
    ensures Skipped(was, start, count, 0)
  {
  }

  lemma AllSkipped<T>(was: seq<seq<T>>, start: nat, count: nat)
    requires Skipped(was, start, count, |was|)
    ensures Turn(was, start, count, [], 0, was, start)
  {
    forall l: nat | l < |was| ensures Distance(start, l, |was|) < |was| {
    }
  }

  /** One more lane was looked at: it gave something, and the call is done, or it is skipped too. */
  lemma LaneLooked<T>(was: seq<seq<T>>, start: nat, count: nat, attempt: nat, items: seq<T>, now: seq<seq<T>>)
    requires Skipped(was, start, count, attempt) && attempt < |was| == |now|
    requires var lane := Probe(start, attempt, |was|);
             && |items| == Min(count, |was[lane]|) && was[lane] == items + now[lane]
             && now == was[lane := now[lane]]
    ensures var lane := Probe(start, attempt, |was|);
            if items == [] then now == was && Skipped(was, start, count, attempt + 1)
            else Turn(was, start, count, items, lane, now, (lane + 1) % |was|)
  {
    AttemptIsDistance(start, attempt, |was|);
    hide Probe;
    var lane := Probe(start, attempt, |was|);
    if items == [] {
      assert now[lane] == was[lane];
    }
  }

  /** What one call does: nothing exactly if all lanes are empty or nothing is asked for; otherwise
      it takes items from the front of the first lane in turn that has any. */
  ghost predicate Turn<T>(was: seq<seq<T>>, start: nat, count: nat, items: seq<T>, producer: nat,
                          now: seq<seq<T>>, next: nat) {
    && start < |was| == |now|
    && (items == [] <==> count == 0 || forall l: nat :: l < |was| ==> was[l] == [])
    && (items == [] ==> now == was && next == start)
    && (items != [] ==>
          && producer < |was| && |items| == Min(count, |was[producer]|)
          && was[producer] == items + now[producer]
          && now == was[producer := now[producer]]
          && next == (producer + 1) % |was|
          && (forall l: nat :: l < |was| ==>
                Distance(start, producer, |was|) <= Distance(start, l, |was|) || was[l] == []))
  }

  /** The lane that an attempt looks at is exactly that many places away. */
  lemma AttemptIsDistance(start: nat, attempt: nat, lanes: nat)
    requires start < lanes && attempt < lanes
    ensures Distance(start, Probe(start, attempt, lanes), lanes) == attempt
    ensures forall l: nat :: l < lanes && Distance(start, l, lanes) == attempt ==> l == Probe(start, attempt, lanes)
  {
    OneLap(start + attempt, lanes);
  }
}
