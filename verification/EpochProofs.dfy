/** What every step of the reclamation protocol keeps, and what follows for whole runs. */
module EpochProofs {
  import opened Options
  import opened RingIndex
  import opened EpochProtocol

  // ---------------------------------------------------------------- the invariant

  ghost predicate AfterAdvance(c: Collector) {
    c.ScanFlag? || c.ScanStamp? || c.ScanDone? || c.Clearing?
  }

  ghost predicate Draining(c: Collector) {
    c.DrainHead? || c.DrainEntry? || c.TakeEntry? || c.RunDeleter?
  }

  ghost predicate Shape(s: State) {
    && 0 < s.capacity && 0 < |s.participants|
    && |s.frontiers| == |s.shown|
    && s.global == |s.frontiers| + (if AfterAdvance(s.collector) then 1 else 0)
    && (Draining(s.collector) ==> s.collector.queue < |s.participants| && s.safe.Some?)
    && (s.collector.ScanFlag? || s.collector.ScanStamp? ==> s.collector.index < |s.participants|)
  }

  /** A reader inside its section shows, in its stamp, the epoch it validated. */
  ghost predicate ReaderOk(p: Participant, global: nat) {
    && (p.section.Outside? || p.section.Unregistering? ==> p.stamp.Inactive?)
    && (p.section.Stored? || p.section.Inside? ==> p.stamp == Active(p.section.epoch))
    && (p.section.Loaded? || p.section.Stored? || p.section.Inside? ==> p.section.epoch <= global)
    && (!p.section.Outside? || !p.retire.NoRetire? ==> p.registered)
    && (!p.section.Inside? ==> p.held == {})
    && (!p.retire.NoRetire? ==> p.section.Outside? || p.section.Inside?)
  }

  ghost predicate Readers(s: State) {
    forall i :: 0 <= i < |s.participants| ==> ReaderOk(s.participants[i], s.global)
  }

  /** The slot being claimed is registered to nobody. */
  ghost predicate Claimable(s: State) {
    s.registrar.Claiming? || s.registrar.Marking? ==>
      s.registrar.index < |s.participants| && !s.participants[s.registrar.index].registered
  }

  /** The closed form of the frontier scan: it does not depend on the order of the participants. */
  ghost function Candidate(global: nat, least: Option<nat>): int {
    if least.Some? && least.value <= global - GRACE_EPOCHS then least.value - 1 else global - GRACE_EPOCHS
  }

  /** No reader inside its section at index `below` or less validated an epoch at or under `bound`. */
  ghost predicate Clear(s: State, bound: nat, below: nat) {
    forall i :: 0 <= i < below && i < |s.participants| && s.participants[i].section.Inside? ==>
                  bound < s.participants[i].section.epoch
  }

  ghost predicate Frontier(s: State) {
    && (s.safe.Some? ==> s.safe.value + GRACE_EPOCHS <= s.global && Clear(s, s.safe.value, |s.participants|))
    && (s.collector.ScanFlag? || s.collector.ScanStamp? || s.collector.ScanDone? ==>
          && GRACE_EPOCHS <= s.global
          && s.collector.candidate == Candidate(s.global, s.collector.least))
    && (s.collector.ScanFlag? || s.collector.ScanStamp? ==> Clear(s, s.collector.candidate, s.collector.index))
    && (s.collector.ScanDone? ==> Clear(s, s.collector.candidate, |s.participants|))
  }

  /** The first ring position of queue `j` whose cell still holds its entry. */
  ghost function First(s: State, j: nat): nat
    requires j < |s.participants|
  {
    s.participants[j].queue.tail + if s.collector.TakeEntry? && s.collector.queue == j then 1 else 0
  }

  ghost predicate RetireOk(p: Participant, capacity: nat, global: nat)
    requires 0 < capacity && |p.queue.entries| == capacity
  {
    var q := p.queue;
    var cell := q.entries[Slot(q.head, capacity)];
    && (!p.retire.NoRetire? ==>
          q.head < q.tail + capacity && p.retire.ptr != 0 && p.retire.deleter != 0)
    && (p.retire.Filled? ==> cell.ptr == p.retire.ptr && cell.deleter == p.retire.deleter)
    && (p.retire.Tagged? ==>
          && cell == Entry(p.retire.ptr, p.retire.deleter, p.retire.tag)
          && p.retire.tag <= global
          && forall k :: 0 <= k < |q.retired| ==> q.retired[k].epoch <= p.retire.tag)
  }

  /** The history of a ring: tags never decrease, and none is ahead of the epoch or of the
      collections started when the entry was published. */
  ghost predicate History(retired: seq<Entry>, born: seq<nat>, global: nat) {
    && |retired| == |born|
    && (forall a, b :: 0 <= a <= b < |retired| ==> retired[a].epoch <= retired[b].epoch)
    && (forall k :: 0 <= k < |retired| ==>
          && retired[k].epoch <= born[k] && retired[k].epoch <= global
          && retired[k].ptr != 0 && retired[k].deleter != 0)
  }

  ghost predicate QueueOk(p: Participant, first: nat, capacity: nat, global: nat) {
    var q := p.queue;
    && 0 < capacity && |q.entries| == capacity
    && q.tail <= first <= q.head <= q.tail + capacity
    && |q.retired| == q.head
    && (forall k: nat :: first <= k < q.head ==> q.entries[Slot(k, capacity)] == q.retired[k])
    && History(q.retired, q.born, global)
    && RetireOk(p, capacity, global)
  }

  ghost predicate BornBy(born: seq<nat>, started: nat) {
    forall k :: 0 <= k < |born| ==> born[k] <= started
  }

  /** Every entry already drained was tagged at or under the frontier. */
  ghost predicate QueueDrained(retired: seq<Entry>, tail: nat, safe: Option<nat>) {
    && tail <= |retired| && (0 < tail ==> safe.Some?)
    && (safe.Some? ==> forall k :: 0 <= k < tail ==> retired[k].epoch <= safe.value)
  }

  /** The ring of one participant, as seen from the whole state. */
  ghost predicate RingOk(p: Participant, first: nat, capacity: nat, global: nat, started: nat, safe: Option<nat>) {
    QueueOk(p, first, capacity, global) && BornBy(p.queue.born, started) && QueueDrained(p.queue.retired, p.queue.tail, safe)
  }

  ghost predicate Ring(s: State, j: nat)
    requires j < |s.participants|
  {
    RingOk(s.participants[j], First(s, j), s.capacity, s.global, Started(s), s.safe)
  }

  /** What the collector remembers of the ring it drains. */
  ghost predicate CursorOk(c: Collector, q: Queue, safe: Option<nat>)
    requires c.DrainEntry? || c.TakeEntry? || c.RunDeleter?
  {
    && q.tail <= c.head <= q.head <= |q.retired|
    && (c.TakeEntry? ==>
          && q.tail < c.head && safe.Some?
          && q.retired[q.tail].ptr == c.ptr && q.retired[q.tail].deleter == c.deleter
          && q.retired[q.tail].epoch <= safe.value)
    && (c.RunDeleter? ==>
          && 0 < q.tail
          && q.retired[q.tail - 1].ptr == c.ptr && q.retired[q.tail - 1].deleter == c.deleter)
  }

  ghost predicate Queues(s: State)
    requires Shape(s)
  {
    && (forall j: nat :: j < |s.participants| ==> Ring(s, j))
    && (s.collector.DrainEntry? || s.collector.TakeEntry? || s.collector.RunDeleter? ==>
          CursorOk(s.collector, s.participants[s.collector.queue].queue, s.safe))
  }

  ghost predicate PlaceOk(s: State, p: Ptr)
    requires p in s.places
  {
    match s.places[p]
    case Linked => p != 0
    case Unlinked(j) => p != 0 && j < |s.participants|
    case Retiring(j) =>
      p != 0 && j < |s.participants| && !s.participants[j].retire.NoRetire? && s.participants[j].retire.ptr == p
    case Retired(j, k) =>
      p != 0 && j < |s.participants| && k < |s.participants[j].queue.retired|
      && s.participants[j].queue.retired[k].ptr == p
  }

  ghost predicate Owns(places: map<Ptr, Place>, j: nat, p: Participant) {
    && (!p.retire.NoRetire? ==> p.retire.ptr in places && places[p.retire.ptr] == Retiring(j))
    && (forall k :: 0 <= k < |p.queue.retired| ==>
          p.queue.retired[k].ptr in places && places[p.queue.retired[k].ptr] == Retired(j, k))
  }

  /** Every pointer is in exactly one place, so it is retired at most once. */
  ghost predicate Places(s: State) {
    && (forall p :: p in s.places ==> PlaceOk(s, p))
    && (forall j: nat :: j < |s.participants| ==> Owns(s.places, j, s.participants[j]))
  }

  /** A pointer held since epoch `e` carries no tag below `e`. */
  ghost predicate TagAtLeast(s: State, p: Ptr, e: nat) {
    p in s.places && PlaceOk(s, p) &&
    match s.places[p]
    case Retiring(j) => s.participants[j].retire.Tagged? ==> e <= s.participants[j].retire.tag
    case Retired(j, k) => e <= s.participants[j].queue.retired[k].epoch
    case _ => true
  }

  ghost predicate Holds(s: State, reader: Participant) {
    reader.section.Inside? ==> forall p :: p in reader.held ==> TagAtLeast(s, p, reader.section.epoch)
  }

  ghost predicate Held(s: State) {
    forall i: nat :: i < |s.participants| ==> Holds(s, s.participants[i])
  }

  /** The deleter of entry `k` of queue `j` has been called. */
  ghost predicate Fired(s: State, j: nat, k: nat)
    requires j < |s.participants|
  {
    && k < s.participants[j].queue.tail
    && !(s.collector.RunDeleter? && s.collector.queue == j && k + 1 == s.participants[j].queue.tail)
  }

  ghost predicate Finished(s: State, p: Ptr) {
    p in s.places && s.places[p].Retired? && s.places[p].owner < |s.participants|
    && Fired(s, s.places[p].owner, s.places[p].index)
  }

  ghost predicate Calls(s: State) {
    forall p :: s.calls[p] == if Finished(s, p) then 1 else 0
  }

  ghost predicate Safety(s: State) {
    Shape(s) && Readers(s) && Claimable(s) && Frontier(s) && Queues(s) && Places(s) && Held(s) && Calls(s)
  }

  lemma StartsSafe(participants: nat, capacity: nat)
    requires 0 < participants && 0 < capacity
    ensures Safety(Fresh(participants, capacity))
  {
  }

  // ---------------------------------------------------------------- participant steps

  lemma SectionsKept(s: State, j: nat, a: Action)
    requires Shape(s) && Readers(s) && Claimable(s) && Frontier(s) && j < |s.participants|
    ensures var s' := ParticipantStep(s, j, a); Shape(s') && Readers(s') && Claimable(s') && Frontier(s')
  {
    RegistrationKept(s, j, a);
    hide Claimable;
    assert ReaderOk(s.participants[j], s.global);
  }

  /** Registration marks only a slot that nobody else can mark. */
  lemma RegistrationKept(s: State, j: nat, a: Action)
    requires Shape(s) && Readers(s) && Claimable(s) && j < |s.participants|
    ensures Claimable(ParticipantStep(s, j, a))
    ensures s.registrar == Claiming(j) || s.registrar == Marking(j) ==> !s.participants[j].registered
  {
  }

  /** Steps that leave the retirement rings alone: registration, sections, loads and unlinking. */
  ghost predicate Reading(a: Action) {
    !a.RetireBegin? && !a.RetireWrite? && !a.RetireTag? && !a.RetirePublish?
  }

  lemma ReadingFrame(s: State, j: nat, a: Action)
    requires Shape(s) && j < |s.participants| && Reading(a)
    ensures Local(s, j, a).queue == s.participants[j].queue && Local(s, j, a).retire == s.participants[j].retire
    ensures Moved(s, j, a) == s.places || exists p :: p in s.places && s.places[p].Linked? && Moved(s, j, a) == s.places[p := Unlinked(j)]
  {
  }

  /** Replacing one participant keeps the rings sound when its own ring stays sound. */
  lemma QueuesFrame(s: State, j: nat, p': Participant, registrar': Registrar, places': map<Ptr, Place>)
    requires Shape(s) && Queues(s) && j < |s.participants|
    requires p'.queue.tail == s.participants[j].queue.tail && s.participants[j].queue.head <= p'.queue.head
    requires s.participants[j].queue.retired <= p'.queue.retired && p'.queue.head <= |p'.queue.retired|
    requires RingOk(p', First(s, j), s.capacity, s.global, Started(s), s.safe)
    ensures var s' := s.(participants := s.participants[j := p'], registrar := registrar', places := places');
            Shape(s') && Queues(s')
  {
    hide RingOk;
    var s' := s.(participants := s.participants[j := p'], registrar := registrar', places := places');
    forall i: nat | i < |s.participants| ensures Ring(s', i) {
      assert Ring(s, i);
    }
  }

  lemma ReadingQueues(s: State, j: nat, a: Action)
    requires Shape(s) && Queues(s) && j < |s.participants| && Reading(a)
    ensures Shape(ParticipantStep(s, j, a))
    ensures Queues(ParticipantStep(s, j, a))
  {
    ReadingFrame(s, j, a);
    hide Local, Moved;
    assert Ring(s, j);
    QueuesFrame(s, j, Local(s, j, a), Registration(s, j, a), Moved(s, j, a));
  }

  lemma ReadingPlaces(s: State, j: nat, a: Action)
    requires Shape(s) && Places(s) && Calls(s) && j < |s.participants| && Reading(a)
    ensures Places(ParticipantStep(s, j, a)) && Calls(ParticipantStep(s, j, a))
  {
    ReadingFrame(s, j, a);
    hide Local, Moved;
    var s' := ParticipantStep(s, j, a);
    forall i: nat | i < |s.participants| ensures Owns(s'.places, i, s'.participants[i]) {
      assert Owns(s.places, i, s.participants[i]);
    }
    assert forall p :: Finished(s', p) == Finished(s, p);
  }

  lemma ReadingHeld(s: State, j: nat, a: Action)
    requires Shape(s) && Readers(s) && Places(s) && Held(s) && j < |s.participants| && Reading(a)
    requires Places(ParticipantStep(s, j, a))
    ensures Held(ParticipantStep(s, j, a))
  {
    var s' := ParticipantStep(s, j, a);
    forall i: nat | i < |s'.participants| ensures Holds(s', s'.participants[i]) {
      assert Holds(s, s.participants[i]);
    }
  }

  // ---------------------------------------------------------------- defer_delete

  lemma ClaimOk(p: Participant, ptr: Ptr, deleter: nat, first: nat, capacity: nat, global: nat, started: nat, safe: Option<nat>)
    requires RingOk(p, first, capacity, global, started, safe) && Accepts(p, capacity, ptr, deleter)
    ensures RingOk(p.(retire := Claimed(ptr, deleter)), first, capacity, global, started, safe)
  {
  }

  /** Writing the cell at the head leaves every live cell alone. */
  lemma HeadCellOk(q: Queue, cell: Entry, first: nat, capacity: nat)
    requires 0 < capacity && |q.entries| == capacity && |q.retired| == q.head
    requires q.tail <= first <= q.head < q.tail + capacity
    requires forall k: nat :: first <= k < q.head ==> q.entries[Slot(k, capacity)] == q.retired[k]
    ensures forall k: nat :: first <= k < q.head ==> q.entries[Slot(q.head, capacity) := cell][Slot(k, capacity)] == q.retired[k]
  {
    WindowDistinct(q.tail, capacity, q.head);
  }

  lemma WriteCellOk(p: Participant, first: nat, capacity: nat, global: nat, started: nat, safe: Option<nat>)
    requires RingOk(p, first, capacity, global, started, safe) && p.retire.Claimed?
    ensures RingOk(WriteCell(p, capacity), first, capacity, global, started, safe)
  {
    var cell := p.queue.entries[Slot(p.queue.head, capacity)].(ptr := p.retire.ptr, deleter := p.retire.deleter);
    HeadCellOk(p.queue, cell, first, capacity);
  }

  lemma TagCellOk(p: Participant, first: nat, capacity: nat, global: nat, started: nat, safe: Option<nat>)
    requires RingOk(p, first, capacity, global, started, safe) && p.retire.Filled?
    ensures RingOk(TagCell(p, capacity, global), first, capacity, global, started, safe)
  {
    HeadCellOk(p.queue, p.queue.entries[Slot(p.queue.head, capacity)].(epoch := global), first, capacity);
  }

  lemma PublishHistory(retired: seq<Entry>, born: seq<nat>, entry: Entry, global: nat, started: nat)
    requires History(retired, born, global) && entry.epoch <= global <= started
    requires entry.ptr != 0 && entry.deleter != 0
    requires forall k :: 0 <= k < |retired| ==> retired[k].epoch <= entry.epoch
    ensures History(retired + [entry], born + [started], global)
  {
  }

  lemma PublishOk(p: Participant, first: nat, capacity: nat, global: nat, started: nat, safe: Option<nat>)
    requires RingOk(p, first, capacity, global, started, safe) && p.retire.Tagged? && global <= started
    ensures RingOk(Publish(p, started), first, capacity, global, started, safe)
    ensures p.queue.retired <= Publish(p, started).queue.retired && p.queue.head < |Publish(p, started).queue.retired|
  {
    hide History, Slot;
    var q, p' := p.queue, Publish(p, started);
    var entry := Entry(p.retire.ptr, p.retire.deleter, p.retire.tag);
    PublishHistory(q.retired, q.born, entry, global, started);
    PublishedQueue(p, first, capacity, global, started);
    DrainedPrefixKept(q.retired, p'.queue.retired, q.tail, safe);
    assert BornBy(p'.queue.born, started);
  }

  lemma PublishedQueue(p: Participant, first: nat, capacity: nat, global: nat, started: nat)
    requires QueueOk(p, first, capacity, global) && p.retire.Tagged?
    requires History(Publish(p, started).queue.retired, Publish(p, started).queue.born, global)
    ensures QueueOk(Publish(p, started), first, capacity, global)
  {
    hide History, Slot;
    var q, q' := p.queue, Publish(p, started).queue;
    assert q.entries[Slot(q.head, capacity)] == q'.retired[q.head];
    forall k: nat | first <= k < q'.head ensures q'.entries[Slot(k, capacity)] == q'.retired[k] {
      assert k < q.head ==> q.entries[Slot(k, capacity)] == q.retired[k];
    }
  }

  /** What was drained stays drained when entries are appended. */
  lemma DrainedPrefixKept(retired: seq<Entry>, more: seq<Entry>, tail: nat, safe: Option<nat>)
    requires QueueDrained(retired, tail, safe) && |retired| <= |more|
    requires forall k :: 0 <= k < |retired| ==> more[k] == retired[k]
    ensures QueueDrained(more, tail, safe)
  {
  }

  lemma RetireRing(s: State, j: nat, a: Action)
    requires Shape(s) && j < |s.participants| && !Reading(a) && Ring(s, j)
    ensures RingOk(Local(s, j, a), First(s, j), s.capacity, s.global, Started(s), s.safe)
    ensures var q, q' := s.participants[j].queue, Local(s, j, a).queue;
            q'.tail == q.tail && q.head <= q'.head <= |q'.retired| && q.retired <= q'.retired
  {
    var p := s.participants[j];
    var first := First(s, j);
    assert p.queue.head <= |p.queue.retired|;
    hide RingOk;
    if a.RetireBegin? {
      if Accepts(p, s.capacity, a.p, a.deleter) {
        ClaimOk(p, a.p, a.deleter, first, s.capacity, s.global, Started(s), s.safe);
      }
    } else if a.RetireWrite? {
      if p.retire.Claimed? { WriteCellOk(p, first, s.capacity, s.global, Started(s), s.safe); }
    } else if a.RetireTag? {
      if p.retire.Filled? { TagCellOk(p, first, s.capacity, s.global, Started(s), s.safe); }
    } else {
      if p.retire.Tagged? { PublishOk(p, first, s.capacity, s.global, Started(s), s.safe); }
    }
  }

  lemma RetireQueues(s: State, j: nat, a: Action)
    requires Shape(s) && Queues(s) && j < |s.participants| && !Reading(a)
    ensures Shape(ParticipantStep(s, j, a))
    ensures Queues(ParticipantStep(s, j, a))
  {
    assert Ring(s, j);
    RetireRing(s, j, a);
    hide RingOk, Local, Moved;
    QueuesFrame(s, j, Local(s, j, a), Registration(s, j, a), Moved(s, j, a));
  }

  /** What the client's bookkeeping needs to know of one ring. */
  ghost predicate Counted(s: State, j: nat) {
    j < |s.participants| && s.participants[j].queue.tail <= s.participants[j].queue.head == |s.participants[j].queue.retired|
  }

  lemma RetirePlaces(s: State, j: nat, a: Action)
    requires Shape(s) && Counted(s, j) && Places(s) && !Reading(a)
    ensures Places(ParticipantStep(s, j, a))
  {
    var s' := ParticipantStep(s, j, a);
    assert Owns(s.places, j, s.participants[j]);
    forall i: nat | i < |s.participants| ensures Owns(s'.places, i, s'.participants[i]) {
      assert Owns(s.places, i, s.participants[i]);
    }
    forall p | p in s'.places ensures PlaceOk(s', p) {
      assert p in s.places && PlaceOk(s, p);
    }
  }

  lemma RetireCalls(s: State, j: nat, a: Action)
    requires Shape(s) && Counted(s, j) && Places(s) && Calls(s) && !Reading(a)
    ensures Calls(ParticipantStep(s, j, a))
  {
    var s' := ParticipantStep(s, j, a);
    assert Owns(s.places, j, s.participants[j]);
    assert forall p :: Finished(s', p) == Finished(s, p);
  }

  lemma RetireTags(s: State, j: nat, a: Action, p: Ptr, e: nat)
    requires Shape(s) && Counted(s, j) && Owns(s.places, j, s.participants[j]) && !Reading(a)
    requires TagAtLeast(s, p, e) && e <= s.global
    requires Places(ParticipantStep(s, j, a))
    ensures TagAtLeast(ParticipantStep(s, j, a), p, e)
  {
    assert PlaceOk(s, p);
  }

  lemma RetireHeld(s: State, j: nat, a: Action)
    requires Shape(s) && Readers(s) && Counted(s, j) && Places(s) && Held(s) && !Reading(a)
    requires Places(ParticipantStep(s, j, a))
    ensures Held(ParticipantStep(s, j, a))
  {
    var s' := ParticipantStep(s, j, a);
    assert s'.participants[j].held == s.participants[j].held && s'.participants[j].section == s.participants[j].section;
    forall i: nat | i < |s'.participants| ensures Holds(s', s'.participants[i]) {
      assert Holds(s, s.participants[i]) && ReaderOk(s.participants[i], s.global);
      forall p | p in s.participants[i].held && s.participants[i].section.Inside?
        ensures TagAtLeast(s', p, s.participants[i].section.epoch)
      {
        RetireTags(s, j, a, p, s.participants[i].section.epoch);
      }
    }
  }

  // ---------------------------------------------------------------- collect

  /** The only steps of `collect` that touch a ring: clearing a cell and storing the tail. */
  ghost predicate Popping(s: State) {
    s.collector.DrainEntry? || s.collector.TakeEntry?
  }

  lemma ScanKept(s: State)
    requires Shape(s) && Readers(s) && Claimable(s) && Frontier(s)
    ensures var s' := CollectStep(s); Shape(s') && Readers(s') && Claimable(s') && Frontier(s')
  {
    CollectShape(s);
    CollectReaders(s);
    if s.collector.ScanStamp? {
      StampKept(s);
    } else {
      FrontierKept(s);
    }
  }

  lemma CollectShape(s: State)
    requires Shape(s)
    ensures Shape(CollectStep(s))
  {
  }

  lemma CollectReaders(s: State)
    requires Shape(s) && Readers(s) && Claimable(s)
    ensures Readers(CollectStep(s)) && Claimable(CollectStep(s))
  {
    var s' := CollectStep(s);
    forall i | 0 <= i < |s'.participants| ensures ReaderOk(s'.participants[i], s'.global) {
      assert ReaderOk(s.participants[i], s.global);
    }
  }

  /** Reading the stamp of participant `index` keeps the candidate under every reader up to it. */
  lemma StampKept(s: State)
    requires Shape(s) && Readers(s) && Frontier(s) && s.collector.ScanStamp?
    ensures Frontier(CollectStep(s))
  {
    assert ReaderOk(s.participants[s.collector.index], s.global);
  }

  lemma FrontierKept(s: State)
    requires Shape(s) && Readers(s) && Frontier(s) && !s.collector.ScanStamp?
    ensures Frontier(CollectStep(s))
  {
    var s' := CollectStep(s);
    forall i | 0 <= i < |s.participants|
      ensures s'.participants[i].section == s.participants[i].section && ReaderOk(s.participants[i], s.global)
    {
    }
  }

  lemma CollectFrame(s: State)
    requires Shape(s)
    ensures var s' := CollectStep(s);
            && |s'.participants| == |s.participants| && s'.capacity == s.capacity && s'.places == s.places
            && s.global <= s'.global && Started(s) <= Started(s')
            && (!Popping(s) ==> s'.participants == s.participants)
            && forall j :: 0 <= j < |s.participants| ==>
                 && s'.participants[j].section == s.participants[j].section
                 && s'.participants[j].held == s.participants[j].held
                 && s'.participants[j].retire == s.participants[j].retire
                 && s'.participants[j].queue.retired == s.participants[j].queue.retired
  {
  }

  lemma CollectPlaces(s: State)
    requires Shape(s) && Places(s) && Held(s)
    ensures Places(CollectStep(s)) && Held(CollectStep(s))
  {
    CollectFrame(s);
    var s' := CollectStep(s);
    forall j: nat | j < |s.participants|
      ensures Owns(s'.places, j, s'.participants[j])
    {
      assert Owns(s.places, j, s.participants[j]);
    }
    forall p | p in s'.places ensures PlaceOk(s', p) {
      assert PlaceOk(s, p);
    }
    forall j: nat | j < |s.participants| ensures Holds(s', s'.participants[j]) {
      assert Holds(s, s.participants[j]);
      forall p | p in s.participants[j].held && s.participants[j].section.Inside?
        ensures TagAtLeast(s', p, s.participants[j].section.epoch)
      {
        assert TagAtLeast(s, p, s.participants[j].section.epoch);
      }
    }
  }

  lemma CollectRings(s: State)
    requires Shape(s) && Queues(s) && !Popping(s)
    requires Shape(CollectStep(s))
    ensures Queues(CollectStep(s))
  {
    CollectFrame(s);
    var s' := CollectStep(s);
    if s.collector.DrainHead? {
      assert Ring(s, s.collector.queue);
    }
    forall j: nat | j < |s.participants| ensures Ring(s', j) {
      assert Ring(s, j);
      LaterRing(s.participants[j], First(s, j), s.capacity, s.global, s'.global, Started(s), Started(s'), s.safe, s'.safe);
    }
  }

  /** A ring stays sound as the epoch, the count of collections and the frontier grow. */
  lemma LaterRing(p: Participant, first: nat, capacity: nat, global: nat, global': nat,
                  started: nat, started': nat, safe: Option<nat>, safe': Option<nat>)
    requires RingOk(p, first, capacity, global, started, safe) && global <= global' && started <= started'
    requires safe.Some? ==> safe'.Some? && safe.value <= safe'.value
    ensures RingOk(p, first, capacity, global', started', safe')
  {
  }

  /** The next entry of a ring, read and cleared. */
  lemma ClearCellOk(p: Participant, capacity: nat, global: nat, started: nat, safe: Option<nat>)
    requires RingOk(p, p.queue.tail, capacity, global, started, safe) && p.queue.tail < p.queue.head
    ensures |p.queue.entries| == capacity
    ensures p.queue.entries[Slot(p.queue.tail, capacity)] == p.queue.retired[p.queue.tail]
    ensures RingOk(
              p.(queue := p.queue.(entries := p.queue.entries[Slot(p.queue.tail, capacity) := EMPTY_ENTRY])),
              p.queue.tail + 1, capacity, global, started, safe)
  {
    WindowDistinct(p.queue.tail, capacity, p.queue.tail);
    if !p.retire.NoRetire? {
      WindowDistinct(p.queue.tail, capacity, p.queue.head);
    }
  }

  lemma StoreTailOk(p: Participant, capacity: nat, global: nat, started: nat, safe: nat)
    requires RingOk(p, p.queue.tail + 1, capacity, global, started, Some(safe))
    requires p.queue.retired[p.queue.tail].epoch <= safe
    ensures RingOk(p.(queue := p.queue.(tail := p.queue.tail + 1)), p.queue.tail + 1, capacity, global, started, Some(safe))
  {
  }

  lemma ClearRings(s: State)
    requires Shape(s) && Queues(s) && s.collector.DrainEntry?
    requires Shape(CollectStep(s))
    ensures Queues(CollectStep(s))
  {
    var s' := CollectStep(s);
    var q := s.collector.queue;
    assert Ring(s, q);
    var p := s.participants[q];
    if p.queue.tail < s.collector.head {
      ClearCellOk(p, s.capacity, s.global, Started(s), s.safe);
    }
    hide RingOk, Slot;
    forall j: nat | j < |s.participants| ensures Ring(s', j) {
      assert Ring(s, j);
    }
  }

  lemma TailRings(s: State)
    requires Shape(s) && Queues(s) && s.collector.TakeEntry?
    requires Shape(CollectStep(s))
    ensures Queues(CollectStep(s))
  {
    var s' := CollectStep(s);
    var q := s.collector.queue;
    assert Ring(s, q);
    StoreTailOk(s.participants[q], s.capacity, s.global, Started(s), s.safe.value);
    hide RingOk;
    forall j: nat | j < |s.participants| ensures Ring(s', j) {
      assert Ring(s, j);
    }
  }

  lemma CollectCalls(s: State)
    requires Shape(s) && Queues(s) && Places(s) && Calls(s)
    ensures Calls(CollectStep(s))
  {
    if s.collector.RunDeleter? {
      DeleterCalls(s);
    } else {
      OtherCalls(s);
    }
  }

  lemma OtherCalls(s: State)
    requires Shape(s) && Places(s) && Calls(s) && !s.collector.RunDeleter?
    ensures Calls(CollectStep(s))
  {
    var s' := CollectStep(s);
    CollectFrame(s);
    FiredKept(s);
    hide CollectStep, Fired, Places, Shape;
    forall p ensures Finished(s', p) == Finished(s, p) {
    }
  }

  /** Only running the deleter changes which entries have had theirs called. */
  lemma FiredKept(s: State)
    requires Shape(s) && !s.collector.RunDeleter?
    ensures forall j: nat, k: nat :: j < |s.participants| ==> Fired(CollectStep(s), j, k) == Fired(s, j, k)
    ensures CollectStep(s).calls == s.calls
  {
  }

  lemma DeleterCalls(s: State)
    requires Shape(s) && Queues(s) && Places(s) && Calls(s) && s.collector.RunDeleter?
    ensures Calls(CollectStep(s))
  {
    var s' := CollectStep(s);
    var q, ptr := s.collector.queue, s.collector.ptr;
    assert Owns(s.places, q, s.participants[q]);
    assert s.places[ptr] == Retired(q, s.participants[q].queue.tail - 1);
    forall p ensures Finished(s', p) == (Finished(s, p) || p == ptr) {
      if p in s.places && p != ptr { assert PlaceOk(s, p); }
    }
  }

  // ---------------------------------------------------------------- every step, every run

  lemma StepSafe(s: State, a: Action)
    requires Safety(s)
    ensures Safety(Step(s, a))
  {
    hide Safety, CollectStep, ParticipantStep;
    HasParticipants(s);
    if a.Collect? {
      CollectSafe(s);
    } else if a.Link? {
      LinkSafe(s, a.p);
    } else if a.RegisterLock? {
      LockSafe(s);
    } else if a.j < |s.participants| {
      ParticipantSafe(s, a.j, a);
    }
  }

  lemma HasParticipants(s: State)
    requires Safety(s)
    ensures 0 < |s.participants| && 0 < s.capacity
  {
  }

  lemma CollectSafe(s: State)
    requires Safety(s)
    ensures Safety(CollectStep(s))
  {
    hide CollectStep, Shape, Readers, Claimable, Frontier, Queues, Places, Held, Calls;
    ScanKept(s);
    CollectPlaces(s);
    CollectCalls(s);
    if s.collector.DrainEntry? { ClearRings(s); } else if s.collector.TakeEntry? { TailRings(s); } else { CollectRings(s); }
  }

  lemma ParticipantSafe(s: State, j: nat, a: Action)
    requires Safety(s) && j < |s.participants|
    ensures Safety(ParticipantStep(s, j, a))
  {
    hide ParticipantStep, Readers, Claimable, Frontier, Queues, Places, Held, Calls;
    SectionsKept(s, j, a);
    if Reading(a) {
      ReadingQueues(s, j, a);
      ReadingPlaces(s, j, a);
      ReadingHeld(s, j, a);
    } else {
      RingCounted(s, j);
      RetireQueues(s, j, a);
      RetirePlaces(s, j, a);
      RetireCalls(s, j, a);
      RetireHeld(s, j, a);
    }
  }

  lemma RingCounted(s: State, j: nat)
    requires Shape(s) && Queues(s) && j < |s.participants|
    ensures Counted(s, j)
  {
    assert Ring(s, j);
  }

  lemma LinkSafe(s: State, p: Ptr)
    requires Safety(s)
    ensures Safety(Step(s, Link(p)))
  {
    var s' := Step(s, Link(p));
    LinkPlaces(s, p);
    forall j: nat | j < |s.participants| ensures Ring(s', j) {
      assert Ring(s, j);
    }
  }

  lemma LockSafe(s: State)
    requires Safety(s)
    ensures Safety(Step(s, RegisterLock))
  {
    var s' := Step(s, RegisterLock);
    forall j: nat | j < |s.participants| ensures Ring(s', j) && Owns(s'.places, j, s'.participants[j]) && Holds(s', s'.participants[j]) {
      assert Ring(s, j) && Owns(s.places, j, s.participants[j]) && Holds(s, s.participants[j]);
    }
    assert forall p :: Finished(s', p) == Finished(s, p);
  }

  lemma LinkPlaces(s: State, p: Ptr)
    requires Shape(s) && Places(s) && Held(s) && Calls(s)
    ensures Places(Step(s, Link(p))) && Held(Step(s, Link(p))) && Calls(Step(s, Link(p)))
  {
    var s' := Step(s, Link(p));
    forall j: nat | j < |s.participants| ensures Owns(s'.places, j, s'.participants[j]) {
      assert Owns(s.places, j, s.participants[j]);
    }
    hide Owns;
    forall j: nat | j < |s.participants| ensures Holds(s', s'.participants[j]) {
      assert Holds(s, s.participants[j]);
    }
    assert forall q :: Finished(s', q) == Finished(s, q);
  }

  lemma {:induction false} RunSafe(participants: nat, capacity: nat, schedule: seq<Action>)
    requires 0 < participants && 0 < capacity
    ensures Safety(Run(participants, capacity, schedule))
  {
    if schedule == [] {
      StartsSafe(participants, capacity);
    } else {
      RunSafe(participants, capacity, schedule[..|schedule| - 1]);
      StepSafe(Run(participants, capacity, schedule[..|schedule| - 1]), schedule[|schedule| - 1]);
    }
  }

  /** A slot is handed out only while it is nobody's: no thread is registered in it, inside a section
      of it or retiring through it, and it shows no epoch. */
  lemma ClaimIsExclusive(participants: nat, capacity: nat, schedule: seq<Action>, j: nat)
    requires 0 < participants && 0 < capacity
    requires Run(participants, capacity, schedule).registrar == Marking(j)
    ensures var s := Run(participants, capacity, schedule);
            && j < participants && !s.participants[j].registered && s.participants[j].section.Outside?
            && s.participants[j].retire.NoRetire? && s.participants[j].stamp.Inactive? && s.participants[j].held == {}
  {
    RunSafe(participants, capacity, schedule);
    assert ReaderOk(Run(participants, capacity, schedule).participants[j], Run(participants, capacity, schedule).global);
  }

  /** Epoch safety: whatever the interleaving, no deleter has run on a pointer that a reader still
      inside its section has loaded. */
  lemma NoReaderHoldsFreed(participants: nat, capacity: nat, schedule: seq<Action>, i: nat, p: Ptr)
    requires 0 < participants && 0 < capacity && i < participants
    requires p in Run(participants, capacity, schedule).participants[i].held
    ensures Run(participants, capacity, schedule).calls[p] == 0
  {
    hide Safety;
    RunSafe(participants, capacity, schedule);
    HeldNotFreed(Run(participants, capacity, schedule), i, p);
  }

  /** The reader's epoch is above the frontier, the tags of what it holds are not under its epoch,
      and only entries at or under the frontier have been drained. */
  lemma HeldNotFreed(s: State, i: nat, p: Ptr)
    requires Safety(s) && i < |s.participants| && p in s.participants[i].held
    ensures s.calls[p] == 0
  {
    assert ReaderOk(s.participants[i], s.global);
    assert Holds(s, s.participants[i]);
    assert TagAtLeast(s, p, s.participants[i].section.epoch);
    if s.places[p].Retired? {
      assert Ring(s, s.places[p].owner);
    }
    hide QueueOk, Places, Readers;
  }

  /** Exactly once: a deleter call counts the retirement of its pointer, and the calls of one ring
      are exactly its drained prefix. */
  lemma DeletedOnce(participants: nat, capacity: nat, schedule: seq<Action>, p: Ptr)
    requires 0 < participants && 0 < capacity
    ensures var s := Run(participants, capacity, schedule);
            && s.calls[p] <= 1
            && (s.calls[p] == 1 <==> exists j, k ::
                  && 0 <= j < participants && 0 <= k < |s.participants[j].queue.retired|
                  && s.participants[j].queue.retired[k].ptr == p && Fired(s, j, k))
  {
    var s := Run(participants, capacity, schedule);
    RunSafe(participants, capacity, schedule);
    if Finished(s, p) {
      assert PlaceOk(s, p);
      var j, k := s.places[p].owner, s.places[p].index;
      assert s.participants[j].queue.retired[k].ptr == p && Fired(s, j, k);
    }
    forall j: nat, k: nat | j < participants && k < |s.participants[j].queue.retired|
      && s.participants[j].queue.retired[k].ptr == p && Fired(s, j, k)
      ensures Finished(s, p)
    {
      assert Owns(s.places, j, s.participants[j]);
    }
  }
}
