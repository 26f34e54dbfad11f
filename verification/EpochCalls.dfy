/** What the client of the manager asks for and gets: the retirements it made, the deleters that are
    called, and what each call does when nothing interrupts it. */
module EpochCalls {
  import opened Options
  import opened RingIndex
  import opened EpochProtocol
  import opened EpochProofs

  // ---------------------------------------------------------------- retirements

  datatype Retirement = Retirement(ptr: Ptr, deleter: nat)

  /** The retirement that an action makes through participant `j`, if it makes one: the client retires
      a pointer it has unlinked, with nothing null, registered, between two `defer_delete` calls, and
      the ring has not `capacity` entries that are yet to be taken out. */
  ghost function Retires(s: State, a: Action, j: nat): seq<Retirement>
    requires j < |s.participants|
  {
    var p := s.participants[j];
    if && a.RetireBegin? && a.j == j
       && (p.section.Outside? || p.section.Inside?) && p.retire.NoRetire?
       && a.p in s.places && s.places[a.p] == Unlinked(j)
       && a.p != 0 && a.deleter != 0 && p.registered
       && |p.queue.retired| < p.queue.tail + s.capacity
    then [Retirement(a.p, a.deleter)] else []
  }

  ghost function Retirements(participants: nat, capacity: nat, schedule: seq<Action>, j: nat): seq<Retirement>
    requires 0 < participants && 0 < capacity && j < participants
    decreases |schedule|
  {
    if |schedule| == 0 then [] else
    var before := schedule[..|schedule| - 1];
    Retirements(participants, capacity, before, j)
    + Retires(Run(participants, capacity, before), schedule[|schedule| - 1], j)
  }

  ghost function Published(retired: seq<Entry>): (made: seq<Retirement>)
    ensures |made| == |retired|
    decreases |retired|
  {
    if |retired| == 0 then [] else
    var last := retired[|retired| - 1];
    Published(retired[..|retired| - 1]) + [Retirement(last.ptr, last.deleter)]
  }

  ghost function UnderWay(r: Retire): seq<Retirement> {
    if r.NoRetire? then [] else [Retirement(r.ptr, r.deleter)]
  }

  lemma PublishedMore(retired: seq<Entry>, entry: Entry)
    ensures Published(retired + [entry]) == Published(retired) + [Retirement(entry.ptr, entry.deleter)]
  {
    assert (retired + [entry])[..|retired|] == retired;
  }

  /** What one participant's step adds to its own retirements. */
  lemma LocalRetires(s: State, a: Action, j: nat)
    requires Shape(s) && j < |s.participants| && Counted(s, j) && !a.Collect? && !a.Link? && !a.RegisterLock?
    requires a.j == j
    ensures var p, p' := s.participants[j], Local(s, j, a);
            && (p'.queue.retired == p.queue.retired
                || (p.retire.Tagged?
                    && p'.queue.retired == p.queue.retired + [Entry(p.retire.ptr, p.retire.deleter, p.retire.tag)]))
            && (p'.queue.retired == p.queue.retired ==>
                  UnderWay(p'.retire) == UnderWay(p.retire) + Retires(s, a, j))
            && (p'.queue.retired != p.queue.retired ==>
                  !p.retire.NoRetire? && p'.retire.NoRetire? && Retires(s, a, j) == [])
  {
    hide Slot;
  }

  /** Steps of the collector, of the client and of other participants add none. */
  lemma OthersRetire(s: State, a: Action, j: nat)
    requires Shape(s) && j < |s.participants|
    requires a.Collect? || a.Link? || a.RegisterLock? || a.j != j
    ensures var p, p' := s.participants[j], Step(s, a).participants[j];
            && |Step(s, a).participants| == |s.participants|
            && p'.queue.retired == p.queue.retired && p'.retire == p.retire && Retires(s, a, j) == []
  {
    if a.Collect? {
      CollectFrame(s);
      hide CollectStep;
    } else {
      hide Local, Moved, Registration;
    }
  }

  lemma RetirementsNext(s: State, a: Action, j: nat)
    requires Shape(s) && j < |s.participants| && Counted(s, j)
    ensures var p, p' := s.participants[j], Step(s, a).participants[j];
            && |Step(s, a).participants| == |s.participants|
            && Published(p'.queue.retired) + UnderWay(p'.retire)
               == Published(p.queue.retired) + UnderWay(p.retire) + Retires(s, a, j)
  {
    hide Published, Retires, Local, Moved, Registration, CollectStep, UnderWay;
    var p := s.participants[j];
    if a.Collect? || a.Link? || a.RegisterLock? || a.j != j {
      OthersRetire(s, a, j);
      assert Published(p.queue.retired) + UnderWay(p.retire) + [] == Published(p.queue.retired) + UnderWay(p.retire);
    } else {
      LocalRetires(s, a, j);
      var p' := Local(s, j, a);
      if p'.queue.retired == p.queue.retired {
        assert Published(p.queue.retired) + (UnderWay(p.retire) + Retires(s, a, j))
            == Published(p.queue.retired) + UnderWay(p.retire) + Retires(s, a, j);
      } else {
        PublishedMore(p.queue.retired, Entry(p.retire.ptr, p.retire.deleter, p.retire.tag));
        InFlight(p.retire);
        InFlight(p'.retire);
        assert Published(p.queue.retired) + UnderWay(p.retire) + [] + []
            == Published(p.queue.retired) + UnderWay(p.retire);
      }
    }
  }

  lemma InFlight(r: Retire)
    ensures UnderWay(r) == if r.NoRetire? then [] else [Retirement(r.ptr, r.deleter)]
  {
  }

  /** In every run a ring's entries, and then the call under way, are the retirements made through its
      participant, with their pointers and deleters and in their order. */
  lemma {:induction false} RetiredAsAsked(participants: nat, capacity: nat, schedule: seq<Action>, j: nat)
    requires 0 < participants && 0 < capacity && j < participants
    ensures var p := Run(participants, capacity, schedule).participants[j];
            Published(p.queue.retired) + UnderWay(p.retire) == Retirements(participants, capacity, schedule, j)
    decreases |schedule|
  {
    hide Safety, Published, Step, Retires;
    if |schedule| == 0 {
      NothingRetired(participants, capacity, j);
    } else {
      var before := schedule[..|schedule| - 1];
      RetiredAsAsked(participants, capacity, before, j);
      RunSafe(participants, capacity, before);
      var s := Run(participants, capacity, before);
      SafeCounted(s, j);
      RetirementsNext(s, schedule[|schedule| - 1], j);
    }
  }

  lemma NothingRetired(participants: nat, capacity: nat, j: nat)
    requires 0 < participants && 0 < capacity && j < participants
    ensures var p := Run(participants, capacity, []).participants[j];
            Published(p.queue.retired) + UnderWay(p.retire) == []
  {
  }

  lemma SafeCounted(s: State, j: nat)
    requires Safety(s) && j < |s.participants|
    ensures Shape(s) && Counted(s, j)
  {
    hide Readers, Claimable, Frontier, Places, Held, Calls;
    RingCounted(s, j);
  }

  /** The deleter that is about to run on a pointer is the one it was retired with. */
  lemma DeleterIsItsOwn(participants: nat, capacity: nat, schedule: seq<Action>)
    requires 0 < participants && 0 < capacity
    requires Run(participants, capacity, schedule).collector.RunDeleter?
    ensures var s := Run(participants, capacity, schedule);
            var c := s.collector;
            && c.queue < participants
            && (var q := s.participants[c.queue].queue;
                && 0 < q.tail <= |q.retired|
                && q.retired[q.tail - 1].ptr == c.ptr && q.retired[q.tail - 1].deleter == c.deleter)
  {
    hide Run, Readers, Claimable, Frontier, Places, Held, Calls;
    RunSafe(participants, capacity, schedule);
  }

  // ---------------------------------------------------------------- calls alone

  ghost function After(s: State, actions: seq<Action>): (s': State)
    requires 0 < |s.participants| && 0 < s.capacity
    ensures |s'.participants| == |s.participants| && s'.capacity == s.capacity
    decreases |actions|
  {
    if |actions| == 0 then s else
    StepKeepsShape(s, actions[0]);
    After(Step(s, actions[0]), actions[1..])
  }

  lemma AfterOne(s: State, a: Action)
    requires 0 < |s.participants| && 0 < s.capacity
    ensures After(s, [a]) == Step(s, a)
  {
    StepKeepsShape(s, a);
    assert [a][1..] == [];
    hide Step;
  }

  lemma {:induction false} AfterBoth(s: State, a: seq<Action>, b: seq<Action>)
    requires 0 < |s.participants| && 0 < s.capacity
    ensures After(s, a + b) == After(After(s, a), b)
    decreases |a|
  {
    hide Step;
    if |a| == 0 {
      assert a + b == b;
    } else {
      StepKeepsShape(s, a[0]);
      assert (a + b)[1..] == a[1..] + b;
      AfterBoth(Step(s, a[0]), a[1..], b);
    }
  }

  lemma AfterTwo(s: State, a: Action, b: Action)
    requires 0 < |s.participants| && 0 < s.capacity
    ensures |Step(s, a).participants| == |s.participants| && Step(s, a).capacity == s.capacity
    ensures After(s, [a, b]) == Step(Step(s, a), b)
  {
    hide Step;
    StepKeepsShape(s, a);
    assert [a] + [b] == [a, b];
    AfterBoth(s, [a], [b]);
    AfterOne(s, a);
    AfterOne(Step(s, a), b);
  }

  /** A registered reader at rest that enters alone is inside, shows the global epoch, and may load. */
  lemma EnterAlone(s: State, j: nat)
    requires Shape(s) && Readers(s) && j < |s.participants|
    requires var p := s.participants[j]; p.registered && p.section.Outside? && p.retire.NoRetire?
    ensures After(s, [EnterBegin(j), EnterLoad(j), EnterStore(j), EnterCheck(j)])
         == Set(s, j, s.participants[j].(section := Inside(s.global), stamp := Active(s.global)))
  {
    hide After;
    var p := s.participants[j];
    assert [EnterBegin(j), EnterLoad(j)] + [EnterStore(j), EnterCheck(j)]
        == [EnterBegin(j), EnterLoad(j), EnterStore(j), EnterCheck(j)];
    AfterBoth(s, [EnterBegin(j), EnterLoad(j)], [EnterStore(j), EnterCheck(j)]);
    AfterTwo(s, EnterBegin(j), EnterLoad(j));
    var loaded := Set(s, j, p.(section := Loaded(s.global)));
    assert Step(s, EnterBegin(j)) == Set(s, j, p.(section := Entering));
    assert Step(Set(s, j, p.(section := Entering)), EnterLoad(j)) == loaded;
    AfterTwo(loaded, EnterStore(j), EnterCheck(j));
    var stored := Set(s, j, p.(section := EpochProtocol.Stored(s.global), stamp := Active(s.global)));
    assert Step(loaded, EnterStore(j)) == stored;
    assert Step(stored, EnterCheck(j)) == Set(s, j, p.(section := Inside(s.global), stamp := Active(s.global)));
  }

  /** Only a newer epoch makes `enter` try again. */
  lemma EnterChecks(s: State, j: nat)
    requires Shape(s) && Readers(s) && j < |s.participants| && s.participants[j].section.Stored?
    ensures var p, p' := s.participants[j], Step(s, EnterCheck(j)).participants[j];
            && p.section.epoch <= s.global
            && (if p.section.epoch < s.global then p'.section.Entering? else p'.section == Inside(p.section.epoch))
            && p'.stamp == Active(p.section.epoch)
  {
    assert ReaderOk(s.participants[j], s.global);
  }

  /** Inside, a reader gets any pointer that is linked; leaving, it gives up all it holds. */
  lemma LoadsAndLeaves(s: State, j: nat, p: Ptr)
    requires Shape(s) && j < |s.participants|
    requires s.participants[j].section.Inside? && s.participants[j].retire.NoRetire?
    ensures p in s.places && s.places[p].Linked? ==> p in Step(s, LoadShared(j, p)).participants[j].held
    ensures Step(s, Leave(j))
         == Set(s, j, s.participants[j].(section := Outside, stamp := Inactive, held := {}))
  {
  }

  /** A retirement alone: with room, the entry is published with the pointer, the deleter and the global
      epoch; without room nothing changes and the client keeps the pointer. */
  lemma RetireAlone(s: State, j: nat, ptr: Ptr, deleter: nat)
    requires Safety(s) && j < |s.participants| && MayRetire(s, j, ptr) && ptr != 0 && deleter != 0
    requires s.participants[j].registered
    ensures var q := s.participants[j].queue;
            var s' := After(s, [RetireBegin(j, ptr, deleter), RetireWrite(j), RetireTag(j), RetirePublish(j)]);
            var q' := s'.participants[j].queue;
            if q.head < q.tail + s.capacity
            then q'.retired == q.retired + [Entry(ptr, deleter, s.global)] && q'.head == q.head + 1
                 && s'.places == s.places[ptr := Retired(j, q.head)] && s'.participants[j].retire.NoRetire?
            else s' == s
  {
    hide Safety, After, Step;
    RingSized(s, j);
    var p := s.participants[j];
    assert [RetireBegin(j, ptr, deleter), RetireWrite(j)] + [RetireTag(j), RetirePublish(j)]
        == [RetireBegin(j, ptr, deleter), RetireWrite(j), RetireTag(j), RetirePublish(j)];
    AfterBoth(s, [RetireBegin(j, ptr, deleter), RetireWrite(j)], [RetireTag(j), RetirePublish(j)]);
    AfterTwo(s, RetireBegin(j, ptr, deleter), RetireWrite(j));
    FirstTwo(s, j, ptr, deleter);
    var written := Step(Step(s, RetireBegin(j, ptr, deleter)), RetireWrite(j));
    AfterTwo(written, RetireTag(j), RetirePublish(j));
    if p.queue.head < p.queue.tail + s.capacity {
      LastTwo(written, j);
    } else {
      NoneUnderWay(s, j);
    }
  }

  lemma RingSized(s: State, j: nat)
    requires Safety(s) && j < |s.participants|
    ensures 0 < s.capacity && |s.participants[j].queue.entries| == s.capacity
    ensures s.participants[j].queue.tail <= s.participants[j].queue.head
  {
    hide Readers, Claimable, Frontier, Places, Held, Calls, Slot;
    assert Ring(s, j);
  }

  lemma FirstTwo(s: State, j: nat, ptr: Ptr, deleter: nat)
    requires 0 < s.capacity && j < |s.participants| && MayRetire(s, j, ptr) && ptr != 0 && deleter != 0
    requires s.participants[j].registered && |s.participants[j].queue.entries| == s.capacity
    ensures |Step(s, RetireBegin(j, ptr, deleter)).participants| == |s.participants|
    ensures Step(s, RetireBegin(j, ptr, deleter)).capacity == s.capacity
    ensures var written := Step(Step(s, RetireBegin(j, ptr, deleter)), RetireWrite(j));
            var q := s.participants[j].queue;
            if q.head < q.tail + s.capacity
            then && |written.participants| == |s.participants| && written.capacity == s.capacity
                 && written.global == s.global && written.places == s.places[ptr := Retiring(j)]
                 && written.participants[j].retire == Filled(ptr, deleter)
                 && |written.participants[j].queue.entries| == s.capacity
                 && written.participants[j].queue == q.(entries := written.participants[j].queue.entries)
            else written == s
  {
    hide Slot;
  }

  lemma LastTwo(s: State, j: nat)
    requires 0 < s.capacity && j < |s.participants| && s.participants[j].retire.Filled?
    requires |s.participants[j].queue.entries| == s.capacity
    ensures |Step(s, RetireTag(j)).participants| == |s.participants| && Step(s, RetireTag(j)).capacity == s.capacity
    ensures var s' := Step(Step(s, RetireTag(j)), RetirePublish(j));
            var p := s.participants[j];
            && |s'.participants| == |s.participants| && s'.participants[j].retire.NoRetire?
            && s'.participants[j].queue.retired
               == p.queue.retired + [Entry(p.retire.ptr, p.retire.deleter, s.global)]
            && s'.participants[j].queue.head == p.queue.head + 1
            && s'.places == s.places[p.retire.ptr := Retired(j, p.queue.head)]
  {
    hide Slot;
  }

  lemma NoneUnderWay(s: State, j: nat)
    requires 0 < s.capacity && j < |s.participants| && s.participants[j].retire.NoRetire?
    ensures Step(s, RetireTag(j)) == s && Step(Step(s, RetireTag(j)), RetirePublish(j)) == s
  {
  }

  /** Looking at the flags from `i` on. */
  function Looks(i: nat, n: nat): seq<Action>
    requires i <= n
  {
    seq(n - i, k requires 0 <= k < n - i => RegisterLook(i + k))
  }

  /** Looking passes the slots that are taken. */
  lemma {:induction false} LooksPass(s: State, i: nat, n: nat)
    requires i <= n < |s.participants| && 0 < s.capacity && s.registrar == Looking(i)
    requires forall k :: i <= k < n ==> s.participants[k].registered
    ensures After(s, Looks(i, n)) == s.(registrar := Looking(n))
    decreases n - i
  {
    if i < n {
      var next := s.(registrar := Looking(i + 1));
      assert Step(s, RegisterLook(i)) == next;
      assert Looks(i, n)[0] == RegisterLook(i) && Looks(i, n)[1..] == Looks(i + 1, n);
      hide Step;
      LooksPass(next, i + 1, n);
    }
  }

  /** A registration alone takes the first free slot. */
  lemma RegisterAlone(s: State, j: nat)
    requires Shape(s) && Readers(s) && s.registrar.Unlocked? && j < |s.participants|
    requires !s.participants[j].registered && forall k :: 0 <= k < j ==> s.participants[k].registered
    ensures After(s, [RegisterLock] + Looks(0, j) + [RegisterLook(j)] + [RegisterStamp(j), RegisterMark(j)])
         == Set(s, j, s.participants[j].(registered := true))
  {
    hide After;
    var locked := s.(registrar := Looking(0));
    AfterOne(s, RegisterLock);
    assert Step(s, RegisterLock) == locked;
    AfterBoth(s, [RegisterLock], Looks(0, j));
    LooksPass(locked, 0, j);
    var found := s.(registrar := Looking(j));
    AfterOne(found, RegisterLook(j));
    assert Step(found, RegisterLook(j)) == s.(registrar := Claiming(j));
    AfterBoth(s, [RegisterLock] + Looks(0, j), [RegisterLook(j)]);
    AfterTwo(s.(registrar := Claiming(j)), RegisterStamp(j), RegisterMark(j));
    assert ReaderOk(s.participants[j], s.global);
    assert Step(s.(registrar := Claiming(j)), RegisterStamp(j)) == s.(registrar := Marking(j));
    assert Step(s.(registrar := Marking(j)), RegisterMark(j)) == Set(s, j, s.participants[j].(registered := true));
    AfterBoth(s, [RegisterLock] + Looks(0, j) + [RegisterLook(j)], [RegisterStamp(j), RegisterMark(j)]);
  }

  /** With every slot taken it fails and changes nothing. */
  lemma RegisterFails(s: State)
    requires Shape(s) && s.registrar.Unlocked?
    requires forall k :: 0 <= k < |s.participants| ==> s.participants[k].registered
    ensures var last := |s.participants| - 1;
            After(s, [RegisterLock] + Looks(0, last) + [RegisterLook(last)]) == s
  {
    hide After;
    var last := |s.participants| - 1;
    var locked := s.(registrar := Looking(0));
    AfterOne(s, RegisterLock);
    assert Step(s, RegisterLock) == locked;
    AfterBoth(s, [RegisterLock], Looks(0, last));
    LooksPass(locked, 0, last);
    var found := s.(registrar := Looking(last));
    AfterOne(found, RegisterLook(last));
    assert Step(found, RegisterLook(last)) == s;
    AfterBoth(s, [RegisterLock] + Looks(0, last), [RegisterLook(last)]);
  }

  /** A deregistration alone frees the slot. */
  lemma UnregisterAlone(s: State, j: nat)
    requires Shape(s) && Readers(s) && j < |s.participants|
    requires var p := s.participants[j]; p.registered && p.section.Outside? && p.retire.NoRetire?
    ensures After(s, [UnregisterStamp(j), UnregisterMark(j)]) == Set(s, j, s.participants[j].(registered := false))
  {
    hide After;
    assert ReaderOk(s.participants[j], s.global);
    AfterTwo(s, UnregisterStamp(j), UnregisterMark(j));
  }

  // ---------------------------------------------------------------- a collection goes on

  /** How far a collection is from its end: the part it is in, the rings or participants left, the
      entries left in the ring, and the steps left for the entry. */
  datatype Left = Left(part: int, rows: int, entries: int, steps: int)

  ghost predicate Less(x: Left, y: Left) {
    x.part < y.part
    || (x.part == y.part
        && (x.rows < y.rows
            || (x.rows == y.rows && (x.entries < y.entries || (x.entries == y.entries && x.steps < y.steps)))))
  }

  ghost function LeftOf(s: State): Left {
    var n := |s.participants|;
    match s.collector
    case Idle => Left(0, 0, 0, 0)
    case DrainHead(q) => Left(4, n - q, s.capacity + 1, 0)
    case DrainEntry(q, head) => Left(4, n - q, EntriesLeft(s, q, head), 3)
    case TakeEntry(q, head, _, _) => Left(4, n - q, EntriesLeft(s, q, head), 2)
    case RunDeleter(q, head, _, _) => Left(4, n - q, EntriesLeft(s, q, head), 4)
    case Advance => Left(3, 0, 0, 0)
    case ScanFlag(i, _, _) => Left(2, n - i, 0, 2)
    case ScanStamp(i, _, _) => Left(2, n - i, 0, 1)
    case ScanDone(_, _) => Left(2, 0, 0, 0)
    case Clearing(_) => Left(1, 0, 0, 0)
  }

  ghost function EntriesLeft(s: State, q: nat, head: nat): int {
    if q < |s.participants| then head - s.participants[q].queue.tail else 0
  }

  /** No step of a collection waits: each brings it closer to its end, and the end completes it. */
  lemma CollectGoesOn(s: State)
    requires Safety(s)
    ensures s.collector.Idle? ==> !CollectStep(s).collector.Idle?
    ensures !s.collector.Idle? ==> Less(LeftOf(CollectStep(s)), LeftOf(s))
    ensures CollectStep(s).collector.Idle? ==> |CollectStep(s).frontiers| == |s.frontiers| + 1
  {
    CollectorRing(s);
    hide Readers, Claimable, Frontier, Queues, Places, Held, Calls, Slot;
  }

  /** What safety says of the ring that is drained. */
  lemma CollectorRing(s: State)
    requires Safety(s)
    ensures Shape(s)
    ensures Draining(s.collector) ==>
              var q := s.participants[s.collector.queue].queue;
              && 0 < s.capacity == |q.entries| && q.head <= q.tail + s.capacity
              && (!s.collector.DrainHead? ==> q.tail <= s.collector.head <= q.tail + s.capacity)
              && (s.collector.TakeEntry? ==> q.tail < s.collector.head)
  {
    hide Readers, Claimable, Frontier, Places, Held, Calls, Slot;
    if Draining(s.collector) {
      assert Ring(s, s.collector.queue);
    }
  }
}
