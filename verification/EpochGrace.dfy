/** When retired pointers are freed: never before the grace period, and by the fourth collection. */
module EpochGrace {
  import opened Options
  import opened RingIndex
  import opened EpochProtocol
  import opened EpochProofs

  // ---------------------------------------------------------------- not too early

  /** An entry tagged `r` is not drained before the global epoch reaches `r + 3`. */
  lemma NotBeforeGrace(participants: nat, capacity: nat, schedule: seq<Action>, j: nat, k: nat)
    requires 0 < participants && 0 < capacity && j < participants
    requires var q := Run(participants, capacity, schedule).participants[j].queue;
             k < q.tail && q.tail <= |q.retired|
    ensures var s := Run(participants, capacity, schedule);
            s.participants[j].queue.retired[k].epoch + GRACE_EPOCHS <= s.global
  {
    RunSafe(participants, capacity, schedule);
    var s := Run(participants, capacity, schedule);
    assert Ring(s, j);
  }

  /** The tags of one ring never decrease, so stopping at the first entry above the frontier skips
      no entry at or under it. */
  lemma RetirementOrder(participants: nat, capacity: nat, schedule: seq<Action>, j: nat, a: nat, b: nat)
    requires 0 < participants && 0 < capacity && j < participants
    requires a <= b < |Run(participants, capacity, schedule).participants[j].queue.retired|
    ensures var q := Run(participants, capacity, schedule).participants[j].queue;
            q.retired[a].epoch <= q.retired[b].epoch
  {
    RunSafe(participants, capacity, schedule);
    assert Ring(Run(participants, capacity, schedule), j);
  }

  // ---------------------------------------------------------------- not too late

  /** The number of entries of ring `j` whose deleter has been called. */
  ghost function FiredCount(s: State, j: nat): int
    requires j < |s.participants|
  {
    s.participants[j].queue.tail - if s.collector.RunDeleter? && s.collector.queue == j then 1 else 0
  }

  /** How many collections have finished draining. */
  ghost function Drains(s: State): nat {
    |s.frontiers| + if AfterAdvance(s.collector) || s.collector.Advance? then 1 else 0
  }

  /** Ring contents published before collection `m` started, at or under the frontier, are done. */
  ghost predicate Swept(retired: seq<Entry>, born: seq<nat>, fired: int, m: nat, safe: Option<nat>) {
    |born| == |retired| && safe.Some? &&
    forall k: nat :: k < |retired| && born[k] <= m && retired[k].epoch <= safe.value ==> k < fired
  }

  /** Every collection that found a frontier has, by the end of its drain, called the deleters of
      what was published before it started at or under that frontier. */
  ghost predicate DoneThrough(retired: seq<Entry>, born: seq<nat>, fired: int, frontiers: seq<Option<nat>>, drains: nat) {
    forall i: nat :: i < |frontiers| && i + 1 < drains && frontiers[i].Some? ==>
      Swept(retired, born, fired, i + 1, frontiers[i])
  }

  /** The head snapshot covers everything published before collection `m` started. */
  ghost predicate Snapped(born: seq<nat>, m: nat, head: nat) {
    forall k: nat :: k < |born| && born[k] <= m ==> k < head
  }

  ghost predicate Sweeping(s: State)
    requires Shape(s)
  {
    && (Draining(s.collector) ==> forall j: nat :: j < s.collector.queue ==>
          Swept(s.participants[j].queue.retired, s.participants[j].queue.born, FiredCount(s, j), |s.frontiers|, s.safe))
    && (Draining(s.collector) && !s.collector.DrainHead? ==>
          Snapped(s.participants[s.collector.queue].queue.born, |s.frontiers|, s.collector.head))
  }

  ghost predicate Done(s: State) {
    forall j: nat :: j < |s.participants| ==>
      DoneThrough(s.participants[j].queue.retired, s.participants[j].queue.born, FiredCount(s, j), s.frontiers, Drains(s))
  }

  ghost predicate AtLeast(safe: Option<nat>, bound: int) {
    0 <= bound ==> safe.Some? && bound <= safe.value
  }

  ghost function LastFrontier(frontiers: seq<Option<nat>>): Option<nat> {
    if frontiers == [] then None else frontiers[|frontiers| - 1]
  }

  /** What each completed collection proved about its frontier. */
  ghost predicate Proven(s: State) {
    && |s.frontiers| == |s.shown|
    && (forall m :: 0 <= m < |s.frontiers| ==> AtLeast(s.frontiers[m], Candidate(m + 1, s.shown[m])))
    && (if s.collector.Clearing? then AtLeast(s.safe, Candidate(s.global, s.collector.least))
        else s.safe == LastFrontier(s.frontiers))
  }

  ghost predicate Live(s: State)
    requires Shape(s)
  {
    Proven(s) && Sweeping(s) && Done(s)
  }

  lemma ProvenKept(s: State, a: Action)
    requires Safety(s) && Proven(s)
    ensures Proven(Step(s, a))
  {
    hide Queues, Places, Held, Calls, Readers, Claimable, Clear, Local, Moved, Registration, CollectStep, Candidate, AtLeast;
    if a.Collect? {
      CollectProven(s);
    }
  }

  lemma CollectProven(s: State)
    requires Shape(s) && Frontier(s) && Proven(s)
    ensures Proven(CollectStep(s))
  {
    hide Clear;
  }

  /** A participant's step never moves a tail, and publishes at most one entry. */
  lemma LocalRing(s: State, j: nat, a: Action)
    requires 0 < s.capacity && j < |s.participants| && !a.Collect? && !a.Link? && !a.RegisterLock?
    ensures var q, q' := s.participants[j].queue, Local(s, j, a).queue;
            && q'.tail == q.tail
            && (if s.participants[j].retire.Tagged? && a.RetirePublish?
                then q'.retired == q.retired + [Entry(s.participants[j].retire.ptr, s.participants[j].retire.deleter, s.participants[j].retire.tag)]
                  && q'.born == q.born + [Started(s)]
                else q'.retired == q.retired && q'.born == q.born)
  {
  }

  lemma PublishSwept(retired: seq<Entry>, born: seq<nat>, fired: int, m: nat, safe: Option<nat>, entry: Entry, started: nat)
    requires Swept(retired, born, fired, m, safe) && m < started
    ensures Swept(retired + [entry], born + [started], fired, m, safe)
  {
  }

  lemma PublishDone(retired: seq<Entry>, born: seq<nat>, fired: int, frontiers: seq<Option<nat>>, drains: nat,
                    entry: Entry, started: nat)
    requires DoneThrough(retired, born, fired, frontiers, drains) && drains <= started
    ensures DoneThrough(retired + [entry], born + [started], fired, frontiers, drains)
  {
    forall i: nat | i < |frontiers| && i + 1 < drains && frontiers[i].Some?
      ensures Swept(retired + [entry], born + [started], fired, i + 1, frontiers[i])
    {
      PublishSwept(retired, born, fired, i + 1, frontiers[i], entry, started);
    }
  }

  lemma ParticipantDone(s: State, j: nat, a: Action)
    requires Shape(s) && Done(s) && j < |s.participants| && !a.Collect? && !a.Link? && !a.RegisterLock?
    ensures Done(ParticipantStep(s, j, a))
  {
    var s' := ParticipantStep(s, j, a);
    LocalRing(s, j, a);
    var p := s.participants[j];
    if p.retire.Tagged? && a.RetirePublish? {
      PublishDone(p.queue.retired, p.queue.born, FiredCount(s, j), s.frontiers, Drains(s),
                  Entry(p.retire.ptr, p.retire.deleter, p.retire.tag), Started(s));
    }
    hide DoneThrough, Local, Moved;
    forall i: nat | i < |s'.participants|
      ensures DoneThrough(s'.participants[i].queue.retired, s'.participants[i].queue.born, FiredCount(s', i), s'.frontiers, Drains(s'))
    {
      assert DoneThrough(s.participants[i].queue.retired, s.participants[i].queue.born, FiredCount(s, i), s.frontiers, Drains(s));
    }
  }

  lemma ParticipantSweeping(s: State, j: nat, a: Action)
    requires Shape(s) && Sweeping(s) && j < |s.participants| && !a.Collect? && !a.Link? && !a.RegisterLock?
    ensures Shape(ParticipantStep(s, j, a)) && Sweeping(ParticipantStep(s, j, a))
  {
    var s' := ParticipantStep(s, j, a);
    LocalRing(s, j, a);
    hide Local, Moved;
    if Draining(s.collector) {
      forall i: nat | i < s.collector.queue
        ensures Swept(s'.participants[i].queue.retired, s'.participants[i].queue.born, FiredCount(s', i), |s.frontiers|, s.safe)
      {
        var q := s.participants[i].queue;
        assert Swept(q.retired, q.born, FiredCount(s, i), |s.frontiers|, s.safe);
        var p := s.participants[j];
        if i == j && p.retire.Tagged? {
          PublishSwept(q.retired, q.born, FiredCount(s, i), |s.frontiers|, s.safe,
                       Entry(p.retire.ptr, p.retire.deleter, p.retire.tag), Started(s));
        }
      }
    }
  }

  // ---------------------------------------------------------------- collector steps

  /** The drain of a ring stops at the head snapshot or at an entry above the frontier. */
  ghost predicate Stops(s: State)
    requires Shape(s) && s.collector.DrainEntry?
  {
    var q := s.participants[s.collector.queue].queue;
    |q.entries| == s.capacity
    && (q.tail == s.collector.head || q.entries[Slot(q.tail, s.capacity)].epoch > s.safe.value)
  }

  lemma StopSwept(s: State)
    requires Safety(s) && Sweeping(s) && s.collector.DrainEntry? && Stops(s)
    ensures var q := s.participants[s.collector.queue].queue;
            Swept(q.retired, q.born, q.tail, |s.frontiers|, s.safe)
  {
    assert Ring(s, s.collector.queue);
    var q := s.participants[s.collector.queue].queue;
    if q.tail != s.collector.head {
      assert q.entries[Slot(q.tail, s.capacity)] == q.retired[q.tail];
    }
    hide PlaceOk, Owns, Holds, Clear, ReaderOk, Finished, Slot, RetireOk;
  }

  lemma StopSweeping(s: State)
    requires Shape(s) && Sweeping(s) && s.collector.DrainEntry? && Stops(s)
    requires var q := s.participants[s.collector.queue].queue;
             Swept(q.retired, q.born, q.tail, |s.frontiers|, s.safe)
    ensures Shape(CollectStep(s)) && Sweeping(CollectStep(s))
    ensures CollectStep(s).collector == AfterQueue(s, s.collector.queue)
    ensures CollectStep(s).participants == s.participants
  {
    hide Swept, Slot;
    var s' := CollectStep(s);
    forall i: nat | i <= s.collector.queue
      ensures Swept(s'.participants[i].queue.retired, s'.participants[i].queue.born, FiredCount(s', i), |s.frontiers|, s.safe)
    {
      if i < s.collector.queue {
        assert Swept(s.participants[i].queue.retired, s.participants[i].queue.born, FiredCount(s, i), |s.frontiers|, s.safe);
      }
    }
  }

  /** Steps within the drain of one ring. */
  lemma InsideSweeping(s: State)
    requires Shape(s) && Sweeping(s)
    requires s.collector.DrainEntry? ==> !Stops(s) && |s.participants[s.collector.queue].queue.entries| == s.capacity
    requires s.collector.DrainEntry? || s.collector.TakeEntry? || s.collector.RunDeleter?
    ensures Shape(CollectStep(s)) && Sweeping(CollectStep(s))
  {
    var s' := CollectStep(s);
    assert Draining(s'.collector) && s'.collector.queue == s.collector.queue;
    hide Swept, Slot, Snapped;
    forall i: nat | i < s.collector.queue
      ensures Swept(s'.participants[i].queue.retired, s'.participants[i].queue.born, FiredCount(s', i), |s.frontiers|, s.safe)
    {
      assert Swept(s.participants[i].queue.retired, s.participants[i].queue.born, FiredCount(s, i), |s.frontiers|, s.safe);
    }
  }

  lemma OutsideSweeping(s: State)
    requires Shape(s) && Sweeping(s) && !s.collector.DrainEntry? && !s.collector.TakeEntry? && !s.collector.RunDeleter?
    requires s.collector.DrainHead? ==> |s.participants[s.collector.queue].queue.born| == s.participants[s.collector.queue].queue.head
    ensures Shape(CollectStep(s)) && Sweeping(CollectStep(s))
  {
    hide Swept;
  }

  lemma CollectSweeping(s: State)
    requires Safety(s) && Sweeping(s)
    ensures Shape(CollectStep(s)) && Sweeping(CollectStep(s))
  {
    if s.collector.DrainEntry? && Stops(s) {
      StopSwept(s);
      StopSweeping(s);
    } else if s.collector.DrainEntry? || s.collector.TakeEntry? || s.collector.RunDeleter? {
      assert Ring(s, s.collector.queue);
      InsideSweeping(s);
    } else {
      if s.collector.DrainHead? {
        assert Ring(s, s.collector.queue);
      }
      OutsideSweeping(s);
    }
  }

  lemma SweptMore(retired: seq<Entry>, born: seq<nat>, fired: int, fired': int, frontiers: seq<Option<nat>>, frontiers': seq<Option<nat>>, drains: nat)
    requires DoneThrough(retired, born, fired, frontiers, drains) && fired <= fired'
    requires frontiers <= frontiers' && drains <= |frontiers| + 1
    ensures DoneThrough(retired, born, fired', frontiers', drains)
  {
    forall i: nat | i < |frontiers'| && i + 1 < drains && frontiers'[i].Some?
      ensures Swept(retired, born, fired', i + 1, frontiers'[i])
    {
      assert Swept(retired, born, fired, i + 1, frontiers[i]);
    }
  }

  lemma CollectFired(s: State)
    requires Shape(s)
    ensures forall j: nat :: j < |s.participants| ==>
      && FiredCount(s, j) <= FiredCount(CollectStep(s), j)
      && CollectStep(s).participants[j].queue.retired == s.participants[j].queue.retired
      && CollectStep(s).participants[j].queue.born == s.participants[j].queue.born
  {
  }

  lemma SameDrains(s: State)
    requires Shape(s) && Done(s) && Drains(CollectStep(s)) == Drains(s)
    ensures Done(CollectStep(s))
  {
    var s' := CollectStep(s);
    CollectFired(s);
    assert s.frontiers <= s'.frontiers;
    hide CollectStep;
    forall j: nat | j < |s.participants|
      ensures DoneThrough(s'.participants[j].queue.retired, s'.participants[j].queue.born, FiredCount(s', j), s'.frontiers, Drains(s'))
    {
      var q := s.participants[j].queue;
      assert DoneThrough(q.retired, q.born, FiredCount(s, j), s.frontiers, Drains(s));
      SweptMore(q.retired, q.born, FiredCount(s, j), FiredCount(s', j), s.frontiers, s'.frontiers, Drains(s));
    }
  }

  /** One more collection has drained: either it swept every ring, or it had no frontier. */
  lemma OneMoreDrain(retired: seq<Entry>, born: seq<nat>, fired: int, frontiers: seq<Option<nat>>, safe: Option<nat>)
    requires DoneThrough(retired, born, fired, frontiers, |frontiers|)
    requires safe == LastFrontier(frontiers) && (safe.Some? ==> Swept(retired, born, fired, |frontiers|, safe))
    ensures DoneThrough(retired, born, fired, frontiers, |frontiers| + 1)
  {
    hide Swept;
  }

  lemma LastDrain(s: State)
    requires Safety(s) && Live(s) && Drains(CollectStep(s)) != Drains(s)
    ensures Done(CollectStep(s))
  {
    if s.collector.DrainEntry? {
      assert Ring(s, s.collector.queue);
      assert Stops(s) && s.collector.queue + 1 == |s.participants|;
      StopSwept(s);
    }
    NoDrainLeft(s);
  }

  lemma NoDrainLeft(s: State)
    requires Shape(s) && Proven(s) && Sweeping(s) && Done(s) && Drains(CollectStep(s)) != Drains(s)
    requires s.collector.DrainEntry? ==> Stops(s)
    requires s.collector.DrainEntry? ==>
               (var q := s.participants[s.collector.queue].queue;
                Swept(q.retired, q.born, q.tail, |s.frontiers|, s.safe))
    ensures Done(CollectStep(s))
  {
    var s' := CollectStep(s);
    hide Swept, DoneThrough, Slot, Candidate, AtLeast;
    forall j: nat | j < |s.participants|
      ensures DoneThrough(s'.participants[j].queue.retired, s'.participants[j].queue.born, FiredCount(s', j), s'.frontiers, Drains(s'))
    {
      var q := s.participants[j].queue;
      assert DoneThrough(q.retired, q.born, FiredCount(s, j), s.frontiers, Drains(s));
      OneMoreDrain(q.retired, q.born, FiredCount(s, j), s.frontiers, s.safe);
    }
  }

  lemma StepLive(s: State, a: Action)
    requires Safety(s) && Live(s)
    ensures Safety(Step(s, a)) && Live(Step(s, a))
  {
    hide Safety, Proven, Sweeping, Done, CollectStep, ParticipantStep;
    SafeShape(s);
    StepSafe(s, a);
    ProvenKept(s, a);
    if a.Collect? {
      CollectLive(s);
    } else if a.Link? || a.RegisterLock? {
      LinkLive(s, a);
    } else if a.j < |s.participants| {
      ParticipantSweeping(s, a.j, a);
      ParticipantDone(s, a.j, a);
    }
  }

  lemma SafeShape(s: State)
    requires Safety(s)
    ensures Shape(s)
  {
  }

  lemma CollectLive(s: State)
    requires Safety(s) && Live(s)
    ensures Shape(CollectStep(s)) && Sweeping(CollectStep(s)) && Done(CollectStep(s))
  {
    hide Safety, Proven, Sweeping, Done, CollectStep;
    SafeShape(s);
    CollectSweeping(s);
    if Drains(CollectStep(s)) == Drains(s) {
      SameDrains(s);
    } else {
      LastDrain(s);
    }
  }

  lemma LinkLive(s: State, a: Action)
    requires Shape(s) && Live(s) && (a.Link? || a.RegisterLock?)
    ensures Shape(Step(s, a)) && Sweeping(Step(s, a)) && Done(Step(s, a))
  {
    hide Swept, DoneThrough;
  }

  lemma {:induction false} RunLive(participants: nat, capacity: nat, schedule: seq<Action>)
    requires 0 < participants && 0 < capacity
    ensures Safety(Run(participants, capacity, schedule)) && Live(Run(participants, capacity, schedule))
  {
    if schedule == [] {
      StartsSafe(participants, capacity);
    } else {
      RunLive(participants, capacity, schedule[..|schedule| - 1]);
      StepLive(Run(participants, capacity, schedule[..|schedule| - 1]), schedule[|schedule| - 1]);
    }
  }

  /** Whatever the interleaving, a pointer published with tag `r` while `n` collections had started
      has had its deleter called once collections `n` to `n + 3` are complete, provided the scan of
      the third of them was shown no active epoch at or under `r`. */
  lemma FreedByFourthCollect(participants: nat, capacity: nat, schedule: seq<Action>, j: nat, k: nat)
    requires 0 < participants && 0 < capacity && j < participants
    requires var s := Run(participants, capacity, schedule);
             var q := s.participants[j].queue;
             && k < |q.retired| == |q.born| && q.born[k] + 4 <= |s.frontiers| == |s.shown|
             && (s.shown[q.born[k] + 2].Some? ==> q.retired[k].epoch < s.shown[q.born[k] + 2].value)
    ensures var s := Run(participants, capacity, schedule);
            Fired(s, j, k) && s.calls[s.participants[j].queue.retired[k].ptr] == 1
  {
    hide Safety, Live, Run;
    RunLive(participants, capacity, schedule);
    FourthCollect(Run(participants, capacity, schedule), j, k);
  }

  lemma FourthCollect(s: State, j: nat, k: nat)
    requires Safety(s) && Live(s) && j < |s.participants|
    requires var q := s.participants[j].queue;
             && k < |q.retired| == |q.born| && q.born[k] + 4 <= |s.frontiers|
             && (s.shown[q.born[k] + 2].Some? ==> q.retired[k].epoch < s.shown[q.born[k] + 2].value)
    ensures Fired(s, j, k) && s.calls[s.participants[j].queue.retired[k].ptr] == 1
  {
    var q := s.participants[j].queue;
    assert Ring(s, j) && Owns(s.places, j, s.participants[j]);
    assert q.retired[k].epoch <= q.born[k];
    assert s.places[q.retired[k].ptr] == Retired(j, k);
    hide RingOk, Owns, PlaceOk, Holds, ReaderOk, Clear;
    var i := q.born[k] + 2;
    assert AtLeast(s.frontiers[i], Candidate(i + 1, s.shown[i]));
    assert DoneThrough(q.retired, q.born, FiredCount(s, j), s.frontiers, Drains(s));
    assert Swept(q.retired, q.born, FiredCount(s, j), i + 1, s.frontiers[i]);
  }
}
