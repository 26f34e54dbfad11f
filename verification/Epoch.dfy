/** Epoch-based reclamation as a transition system.

    Any number of participants run `enter`, `leave`, `defer_delete` and the collector runs
    `collect`, and every shared load, store and read-modify-write is a step of its own, so a run is
    an arbitrary sequence of `Action`s. An action whose guard does not hold leaves the state alone.

    The client obeys the documented contract: shared pointers are loaded only between `enter` and
    `leave`, sections are not nested, and a pointer is unlinked before it is retired, once.
 */
module EpochProtocol {
  import opened Options
  import opened RingIndex

  /** Pointers and deleters are opaque words; 0 is the null pointer. */
  type Ptr = nat

  const GRACE_EPOCHS: nat := 3

  /** The `epoch` field of a participant. */
  datatype Stamp = Inactive | Active(epoch: nat)

  /** Where a participant's thread is in `enter`, its read-side section, `unregister_thread`, or
      none of them. */
  datatype Section =
    | Outside
    | Unregistering             // epoch stored as inactive; flag not yet cleared
    | Entering                  // about to load the global epoch
    | Loaded(epoch: nat)        // about to store it in the participant
    | Stored(epoch: nat)        // about to load the global epoch again and compare
    | Inside(epoch: nat)

  /** Where it is in `defer_delete`. */
  datatype Retire =
    | NoRetire
    | Claimed(ptr: Ptr, deleter: nat)             // room was seen; cell not yet written
    | Filled(ptr: Ptr, deleter: nat)              // pointer and deleter written
    | Tagged(ptr: Ptr, deleter: nat, tag: nat)    // epoch written; head not yet stored

  /** Where the thread that holds the registration lock is. */
  datatype Registrar =
    | Unlocked
    | Looking(index: nat)       // about to load the flag of this participant
    | Claiming(index: nat)      // about to store its epoch as inactive
    | Marking(index: nat)       // about to store its flag

  datatype Entry = Entry(ptr: Ptr, deleter: nat, epoch: nat)

  const EMPTY_ENTRY := Entry(0, 0, 0)

  /** A retirement ring, with the history of all entries ever published in it; `born[k]` is how
      many collections had started when entry `k` was published. */
  datatype Queue = Queue(head: nat, tail: nat, entries: seq<Entry>, retired: seq<Entry>, born: seq<nat>)

  datatype Participant = Participant(
    stamp: Stamp, registered: bool, section: Section, retire: Retire, held: set<Ptr>, queue: Queue)

  /** What the client has done with a pointer so far. */
  datatype Place =
    | Linked
    | Unlinked(owner: nat)
    | Retiring(owner: nat)
    | Retired(owner: nat, index: nat)

  /** Where the thread that holds `collecting_` is. `least` is the smallest active epoch the scan
      has been shown. */
  datatype Collector =
    | Idle
    | DrainHead(queue: nat)
    | DrainEntry(queue: nat, head: nat)
    | TakeEntry(queue: nat, head: nat, ptr: Ptr, deleter: nat)
    | RunDeleter(queue: nat, head: nat, ptr: Ptr, deleter: nat)
    | Advance
    | ScanFlag(index: nat, candidate: nat, least: Option<nat>)
    | ScanStamp(index: nat, candidate: nat, least: Option<nat>)
    | ScanDone(candidate: nat, least: Option<nat>)
    | Clearing(least: Option<nat>)

  /** `calls` counts deleter calls; `frontiers` and `shown` record, for every completed collection,
      the frontier it left and the smallest active epoch its scan was shown. */
  datatype State = State(
    capacity: nat, global: nat, participants: seq<Participant>, registrar: Registrar,
    safe: Option<nat>, collector: Collector, places: map<Ptr, Place>, calls: multiset<Ptr>, frontiers: seq<Option<nat>>, shown: seq<Option<nat>>)

  datatype Action =
    | RegisterLock | RegisterLook(j: nat) | RegisterStamp(j: nat) | RegisterMark(j: nat)
    | UnregisterStamp(j: nat) | UnregisterMark(j: nat)
    | EnterBegin(j: nat) | EnterLoad(j: nat) | EnterStore(j: nat) | EnterCheck(j: nat) | Leave(j: nat)
    | Link(p: Ptr) | LoadShared(j: nat, p: Ptr) | Unlink(j: nat, p: Ptr)
    | RetireBegin(j: nat, p: Ptr, deleter: nat) | RetireWrite(j: nat) | RetireTag(j: nat) | RetirePublish(j: nat)
    | Collect

  // ---------------------------------------------------------------- initial state

  function EmptyQueue(capacity: nat): Queue {
    Queue(0, 0, seq(capacity, i => EMPTY_ENTRY), [], [])
  }

  function Fresh(participants: nat, capacity: nat): State {
    State(capacity, 0,
          seq(participants, i => Participant(Inactive, false, Outside, NoRetire, {}, EmptyQueue(capacity))),
          Unlocked, None, Idle, map[], multiset{}, [], [])
  }

  // ---------------------------------------------------------------- participant steps

  /** The number of collections that have started. */
  function Started(s: State): nat {
    |s.frontiers| + if s.collector.Idle? then 0 else 1
  }

  /** What a step of participant `j` does to the participant itself. */
  function Local(s: State, j: nat, a: Action): Participant
    requires j < |s.participants| && 0 < s.capacity
  {
    var p := s.participants[j];
    match a
    case RegisterStamp(_) => if s.registrar == Claiming(j) then p.(stamp := Inactive) else p
    case RegisterMark(_) => if s.registrar == Marking(j) then p.(registered := true) else p
    case UnregisterStamp(_) =>
      if p.registered && p.section.Outside? && p.retire.NoRetire?
      then p.(stamp := Inactive, section := Unregistering) else p
    case UnregisterMark(_) =>
      if p.section.Unregistering? then p.(registered := false, section := Outside) else p
    case EnterBegin(_) =>
      if p.registered && p.section.Outside? && p.retire.NoRetire? then p.(section := Entering) else p
    case EnterLoad(_) =>
      if p.section.Entering? then p.(section := Loaded(s.global)) else p
    case EnterStore(_) =>
      if p.section.Loaded?
      then p.(stamp := Active(p.section.epoch), section := Stored(p.section.epoch)) else p
    case EnterCheck(_) =>
      if p.section.Stored?
      then p.(section := if s.global == p.section.epoch then Inside(s.global) else Entering) else p
    case Leave(_) =>
      if p.section.Inside? && p.retire.NoRetire?
      then p.(stamp := Inactive, section := Outside, held := {}) else p
    case LoadShared(_, ptr) =>
      if p.section.Inside? && ptr in s.places && s.places[ptr].Linked? then p.(held := p.held + {ptr}) else p
    case RetireBegin(_, ptr, deleter) =>
      if MayRetire(s, j, ptr) && Accepts(p, s.capacity, ptr, deleter) then p.(retire := Claimed(ptr, deleter)) else p
    case RetireWrite(_) => if p.retire.Claimed? then WriteCell(p, s.capacity) else p
    case RetireTag(_) => if p.retire.Filled? then TagCell(p, s.capacity, s.global) else p
    case RetirePublish(_) => if p.retire.Tagged? then Publish(p, Started(s)) else p
    case _ => p
  }

  /** What it does to the client's pointers. */
  function Moved(s: State, j: nat, a: Action): map<Ptr, Place>
    requires j < |s.participants| && 0 < s.capacity
  {
    var p := s.participants[j];
    match a
    case Unlink(_, ptr) =>
      if ptr in s.places && s.places[ptr].Linked? then s.places[ptr := Unlinked(j)] else s.places
    case RetireBegin(_, ptr, deleter) =>
      if MayRetire(s, j, ptr) && Accepts(p, s.capacity, ptr, deleter) then s.places[ptr := Retiring(j)] else s.places
    case RetirePublish(_) =>
      if p.retire.Tagged? then s.places[p.retire.ptr := Retired(j, p.queue.head)] else s.places
    case _ => s.places
  }

  /** What it does to the registration in progress: `register_thread` looks at one flag after the
      other and claims the first slot it sees free; after the last it fails. */
  function Registration(s: State, j: nat, a: Action): Registrar
    requires j < |s.participants|
  {
    match a
    case RegisterLook(_) =>
      if s.registrar != Looking(j) then s.registrar
      else if !s.participants[j].registered then Claiming(j)
      else if j + 1 < |s.participants| then Looking(j + 1) else Unlocked
    case RegisterStamp(_) => if s.registrar == Claiming(j) then Marking(j) else s.registrar
    case RegisterMark(_) => if s.registrar == Marking(j) then Unlocked else s.registrar
    case _ => s.registrar
  }

  /** The client retires a pointer it has unlinked, between `defer_delete` calls. */
  predicate MayRetire(s: State, j: nat, ptr: Ptr)
    requires j < |s.participants|
  {
    var p := s.participants[j];
    (p.section.Outside? || p.section.Inside?) && p.retire.NoRetire? && ptr in s.places && s.places[ptr] == Unlinked(j)
  }

  /** When `defer_delete` takes ownership: otherwise it returns false and the caller keeps `ptr`. */
  predicate Accepts(p: Participant, capacity: nat, ptr: Ptr, deleter: nat) {
    ptr != 0 && deleter != 0 && p.registered && p.queue.head - p.queue.tail < capacity
  }

  function WriteCell(p: Participant, capacity: nat): Participant
    requires 0 < capacity && p.retire.Claimed?
  {
    var cell := Slot(p.queue.head, capacity);
    if cell < |p.queue.entries| then
      var entry := p.queue.entries[cell].(ptr := p.retire.ptr, deleter := p.retire.deleter);
      p.(retire := Filled(p.retire.ptr, p.retire.deleter),
         queue := p.queue.(entries := p.queue.entries[cell := entry]))
    else p
  }

  function TagCell(p: Participant, capacity: nat, global: nat): Participant
    requires 0 < capacity && p.retire.Filled?
  {
    var cell := Slot(p.queue.head, capacity);
    if cell < |p.queue.entries| then
      p.(retire := Tagged(p.retire.ptr, p.retire.deleter, global),
         queue := p.queue.(entries := p.queue.entries[cell := p.queue.entries[cell].(epoch := global)]))
    else p
  }

  function Publish(p: Participant, started: nat): Participant
    requires p.retire.Tagged?
  {
    var entry := Entry(p.retire.ptr, p.retire.deleter, p.retire.tag);
    p.(retire := NoRetire,
       queue := p.queue.(head := p.queue.head + 1,
                         retired := p.queue.retired + [entry], born := p.queue.born + [started]))
  }

  function ParticipantStep(s: State, j: nat, a: Action): State
    requires j < |s.participants| && 0 < s.capacity
  {
    s.(participants := s.participants[j := Local(s, j, a)], registrar := Registration(s, j, a),
       places := Moved(s, j, a))
  }

  // ---------------------------------------------------------------- collector steps

  function Set(s: State, j: nat, p: Participant): State
    requires j < |s.participants|
  {
    s.(participants := s.participants[j := p])
  }

  function AfterQueue(s: State, q: nat): Collector {
    if q + 1 < |s.participants| then DrainHead(q + 1) else Advance
  }

  function AfterParticipant(s: State, i: nat, candidate: nat, least: Option<nat>): Collector {
    if i + 1 < |s.participants| then ScanFlag(i + 1, candidate, least) else ScanDone(candidate, least)
  }

  function Lower(least: Option<nat>, epoch: nat): Option<nat> {
    if least.None? || epoch < least.value then Some(epoch) else least
  }

  function CollectStep(s: State): State
    requires 0 < |s.participants| && 0 < s.capacity
  {
    match s.collector
    case Idle => s.(collector := if s.safe.Some? then DrainHead(0) else Advance)
    case DrainHead(q) =>
      if q < |s.participants| then s.(collector := DrainEntry(q, s.participants[q].queue.head)) else s
    case DrainEntry(q, head) =>
      if q < |s.participants| && s.safe.Some? then
        var p := s.participants[q];
        var cell := Slot(p.queue.tail, s.capacity);
        if p.queue.tail == head then s.(collector := AfterQueue(s, q))
        else if |p.queue.entries| <= cell then s
        else if p.queue.entries[cell].epoch > s.safe.value then s.(collector := AfterQueue(s, q))
        else
          var entry := p.queue.entries[cell];
          Set(s, q, p.(queue := p.queue.(entries := p.queue.entries[cell := EMPTY_ENTRY])))
          .(collector := TakeEntry(q, head, entry.ptr, entry.deleter))
      else s
    case TakeEntry(q, head, ptr, deleter) =>
      if q < |s.participants| then
        var p := s.participants[q];
        Set(s, q, p.(queue := p.queue.(tail := p.queue.tail + 1)))
        .(collector := RunDeleter(q, head, ptr, deleter))
      else s
    case RunDeleter(q, head, ptr, deleter) =>
      s.(calls := s.calls + multiset{ptr}, collector := DrainEntry(q, head))
    case Advance =>
      var newEpoch := s.global + 1;
      s.(global := newEpoch,
         collector := if newEpoch < GRACE_EPOCHS then Clearing(None)
                      else ScanFlag(0, newEpoch - GRACE_EPOCHS, None))
    case ScanFlag(i, candidate, least) =>
      if i < |s.participants| then
        s.(collector := if s.participants[i].registered then ScanStamp(i, candidate, least)
                        else AfterParticipant(s, i, candidate, least))
      else s
    case ScanStamp(i, candidate, least) =>
      if i < |s.participants| then
        var stamp := s.participants[i].stamp;
        if stamp.Inactive? then s.(collector := AfterParticipant(s, i, candidate, least))
        else
          var seen := Lower(least, stamp.epoch);
          if stamp.epoch > candidate then s.(collector := AfterParticipant(s, i, candidate, seen))
          else if stamp.epoch == 0 then s.(collector := Clearing(seen))
          else s.(collector := AfterParticipant(s, i, stamp.epoch - 1, seen))
      else s
    case ScanDone(candidate, least) =>
      s.(safe := if s.safe.None? || candidate > s.safe.value then Some(candidate) else s.safe,
         collector := Clearing(least))
    case Clearing(least) =>
      s.(collector := Idle, frontiers := s.frontiers + [s.safe], shown := s.shown + [least])
  }

  // ---------------------------------------------------------------- runs

  function Step(s: State, a: Action): State
    requires 0 < |s.participants| && 0 < s.capacity
  {
    match a
    case Collect => CollectStep(s)
    case RegisterLock => if s.registrar.Unlocked? then s.(registrar := Looking(0)) else s
    case Link(p) => if p != 0 && p !in s.places then s.(places := s.places[p := Linked]) else s
    case _ => if a.j < |s.participants| then ParticipantStep(s, a.j, a) else s
  }

  lemma StepKeepsShape(s: State, a: Action)
    requires 0 < |s.participants| && 0 < s.capacity
    ensures |Step(s, a).participants| == |s.participants| && Step(s, a).capacity == s.capacity
  {
  }

  /** The state after a whole schedule, started fresh. */
  ghost function Run(participants: nat, capacity: nat, schedule: seq<Action>): (s: State)
    requires 0 < participants && 0 < capacity
    ensures |s.participants| == participants && s.capacity == capacity
  {
    if schedule == [] then Fresh(participants, capacity)
    else
      var before := Run(participants, capacity, schedule[..|schedule| - 1]);
      var a := schedule[|schedule| - 1];
      StepKeepsShape(before, a);
      Step(before, a)
  }
}
