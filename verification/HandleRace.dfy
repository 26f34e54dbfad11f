/** The handle table under races: `register_ptr` and `unregister_handle` hold the table lock,
    `lookup` makes its three loads without it. Every atomic access is a step of its own, and
    any number of threads interleave.

    The history of a slot lists its registrations; registration `n` (from 1) carries
    generation `GenerationAt(n)`. A lookup works with the index, kind and generation of any
    handle word; as a label it carries the number of a published registration the word was issued
    for, or 0; an unregistration carries such a label too. History and labels only state what
    happened: no access is decided by them.
 */
module HandleRace {
  import opened Handles
  import R = RingIndex

  datatype Registration = Registration(kind: nat, ptr: nat, retired: bool)

  datatype Lock = Free | Held(thread: nat)

  datatype Pc =
    | Idle
    | Rejected                  // a call whose arguments were refused has returned
    // register_ptr
    | RegisterLock(kind: nat, ptr: nat)
    | LoadCursor(kind: nat, ptr: nat)
    | Probing(kind: nat, ptr: nat, start: nat, attempt: nat)
    | LoadGeneration(kind: nat, ptr: nat, index: nat)
    | StoreGeneration(kind: nat, ptr: nat, index: nat, generation: nat)
    | StoreKind(kind: nat, ptr: nat, index: nat)
    | StorePtr(kind: nat, ptr: nat, index: nat)
    | StoreCursor(kind: nat, ptr: nat, index: nat)
    | RegisterUnlock(kind: nat, ptr: nat, index: nat, n: nat)
    | Issued(kind: nat, ptr: nat, index: nat, n: nat)
    | RefuseUnlock(kind: nat, ptr: nat)
    | Refused(kind: nat, ptr: nat)
    // unregister_handle; label: registration `n`
    | ForgetLock(index: nat, generation: nat, expected: nat, n: nat)
    | ForgetLoadPtr(index: nat, generation: nat, expected: nat, n: nat)
    | ForgetLoadKind(index: nat, generation: nat, expected: nat, n: nat)
    | ForgetLoadGeneration(index: nat, generation: nat, expected: nat, n: nat, kind: nat)
    | ClearPtr(index: nat, generation: nat, expected: nat, n: nat)
    | ClearKind(index: nat, generation: nat, expected: nat, n: nat)
    | ForgetUnlock(index: nat, generation: nat, expected: nat, n: nat)
    | Forgotten(index: nat, generation: nat, expected: nat, n: nat)
    // lookup; labels: registration `n`, and `late` if it was already retired at the beginning
    | LookPtr(index: nat, kind: nat, generation: nat, n: nat, late: bool)
    | LookKind(index: nat, kind: nat, generation: nat, n: nat, late: bool, ptr: nat, seen: nat)
    | LookGeneration(index: nat, kind: nat, generation: nat, n: nat, late: bool, ptr: nat, seen: nat,
                     loaded: nat)
    | Answered(index: nat, kind: nat, generation: nat, n: nat, late: bool, ptr: nat, seen: nat, last: nat)

  datatype State = State(slots: seq<Slot>, cursor: nat, lock: Lock, pcs: seq<Pc>,
                         history: seq<seq<Registration>>)

  datatype Action =
    | Register(thread: nat, kind: nat, ptr: nat)
    | Unregister(thread: nat, index: nat, generation: nat, expected: nat, n: nat)
    | Lookup(thread: nat, index: nat, kind: nat, generation: nat, n: nat)
    | Proceed(thread: nat)

  ghost function Initial(capacity: nat, threads: nat): State {
    State(seq(capacity, _ => Slot(NULL, 0, INVALID_KIND)), 0, Free, seq(threads, _ => Idle),
          seq(capacity, _ => []))
  }

  /** Between calls a thread may start another one. */
  ghost predicate AtRest(pc: Pc) {
    pc.Idle? || pc.Rejected? || pc.Issued? || pc.Refused? || pc.Forgotten? || pc.Answered?
  }

  ghost predicate Holds(pc: Pc) {
    !AtRest(pc) && !pc.RegisterLock? && !pc.ForgetLock?
    && !pc.LookPtr? && !pc.LookKind? && !pc.LookGeneration?
  }

  ghost function Goto(s: State, t: nat, pc: Pc): State
    requires t < |s.pcs|
  {
    s.(pcs := s.pcs[t := pc])
  }

  ghost function Write(s: State, i: nat, slot: Slot): State
    requires i < |s.slots|
  {
    s.(slots := s.slots[i := slot])
  }

  ghost function Step(s: State, a: Action): State {
    if |s.slots| == 0 || |s.history| != |s.slots| || a.thread >= |s.pcs| then s
    else if a.Proceed? then Advance(s, a.thread)
    else if !AtRest(s.pcs[a.thread]) then s
    else match a
      case Register(t, kind, ptr) =>
        if ptr == NULL || kind == INVALID_KIND || KINDS <= kind then Goto(s, t, Rejected)
        else Goto(s, t, RegisterLock(kind, ptr))
      case Unregister(t, index, generation, expected, n) =>
        if |s.slots| <= index || generation == 0 || expected == INVALID_KIND then Goto(s, t, Rejected)
        else if Labels(s.slots[index], s.history[index], expected, generation, n)
        then Goto(s, t, ForgetLock(index, generation, expected, n))
        else Goto(s, t, ForgetLock(index, generation, expected, 0))
      case Lookup(t, index, kind, generation, n) =>
        if |s.slots| <= index || generation == 0 || kind == INVALID_KIND then Goto(s, t, Rejected)
        else if Labels(s.slots[index], s.history[index], kind, generation, n)
        then Goto(s, t, LookPtr(index, kind, generation, n, s.history[index][n - 1].retired))
        else Goto(s, t, LookPtr(index, kind, generation, 0, false))
      case Proceed(_) => s
  }

  ghost function Advance(s: State, t: nat): State
    requires t < |s.pcs| && 0 < |s.slots| == |s.history|
  {
    match s.pcs[t]
    case RegisterLock(kind, ptr) =>
      if s.lock.Free? then Goto(s, t, LoadCursor(kind, ptr)).(lock := Held(t)) else s
    case ForgetLock(i, generation, expected, n) =>
      if s.lock.Free? then Goto(s, t, ForgetLoadPtr(i, generation, expected, n)).(lock := Held(t)) else s
    case RegisterUnlock(kind, ptr, i, n) => Goto(s, t, Issued(kind, ptr, i, n)).(lock := Free)
    case RefuseUnlock(kind, ptr) => Goto(s, t, Refused(kind, ptr)).(lock := Free)
    case ForgetUnlock(i, generation, expected, n) =>
      Goto(s, t, Forgotten(i, generation, expected, n)).(lock := Free)
    case LookPtr(_, _, _, _, _) => Look(s, t)
    case LookKind(_, _, _, _, _, _, _) => Look(s, t)
    case LookGeneration(_, _, _, _, _, _, _, _) => Look(s, t)
    case _ => Locked(s, t)
  }

  /** The three loads of `lookup`. A slot outside the table is never loaded from. */
  ghost function Look(s: State, t: nat): State
    requires t < |s.pcs| && 0 < |s.slots| == |s.history|
  {
    match s.pcs[t]
    case LookPtr(i, kind, generation, n, late) =>
      if |s.slots| <= i then s else
      var ptr := s.slots[i].ptr;
      if ptr == NULL then Goto(s, t, Answered(i, kind, generation, n, late, NULL, 0, 0))
      else Goto(s, t, LookKind(i, kind, generation, n, late, ptr, |s.history[i]|))
    case LookKind(i, kind, generation, n, late, ptr, seen) =>
      if |s.slots| <= i then s else
      Goto(s, t, LookGeneration(i, kind, generation, n, late, ptr, seen, s.slots[i].kind))
    case LookGeneration(i, kind, generation, n, late, ptr, seen, loaded) =>
      if |s.slots| <= i then s else
      if loaded != kind || s.slots[i].generation != generation
      then Goto(s, t, Answered(i, kind, generation, n, late, NULL, seen, 0))
      else Goto(s, t, Answered(i, kind, generation, n, late, ptr, seen, |s.history[i]|))
    case _ => s
  }

  /** The steps made with the table lock held. */
  ghost function Locked(s: State, t: nat): State
    requires t < |s.pcs| && 0 < |s.slots| == |s.history|
  {
    match s.pcs[t]
    case LoadCursor(kind, ptr) => Goto(s, t, Probing(kind, ptr, s.cursor, 0))
    case Probing(kind, ptr, start, attempt) =>
      if |s.slots| <= attempt then Goto(s, t, RefuseUnlock(kind, ptr)) else
      var i := R.Probe(start, attempt, |s.slots|);
      if s.slots[i].ptr != NULL then Goto(s, t, Probing(kind, ptr, start, attempt + 1))
      else Goto(s, t, LoadGeneration(kind, ptr, i))
    case LoadGeneration(kind, ptr, i) =>
      if |s.slots| <= i then s else
      Goto(s, t, StoreGeneration(kind, ptr, i, NextGeneration(s.slots[i].generation)))
    case StoreGeneration(kind, ptr, i, generation) =>
      if |s.slots| <= i then s else
      Write(Goto(s, t, StoreKind(kind, ptr, i)), i, s.slots[i].(generation := generation))
        .(history := s.history[i := s.history[i] + [Registration(kind, ptr, false)]])
    case StoreKind(kind, ptr, i) =>
      if |s.slots| <= i then s else
      Write(Goto(s, t, StorePtr(kind, ptr, i)), i, s.slots[i].(kind := kind))
    case StorePtr(kind, ptr, i) =>
      if |s.slots| <= i then s else
      Write(Goto(s, t, StoreCursor(kind, ptr, i)), i, s.slots[i].(ptr := ptr))
    case StoreCursor(kind, ptr, i) =>
      if |s.slots| <= i then s else
      Goto(s, t, RegisterUnlock(kind, ptr, i, |s.history[i]|)).(cursor := (i + 1) % |s.slots|)
    case ForgetLoadPtr(i, generation, expected, n) =>
      if |s.slots| <= i then s else
      Goto(s, t, if s.slots[i].ptr == NULL then ForgetUnlock(i, generation, expected, n)
                 else ForgetLoadKind(i, generation, expected, n))
    case ForgetLoadKind(i, generation, expected, n) =>
      if |s.slots| <= i then s else
      Goto(s, t, ForgetLoadGeneration(i, generation, expected, n, s.slots[i].kind))
    case ForgetLoadGeneration(i, generation, expected, n, kind) =>
      if |s.slots| <= i then s else
      Goto(s, t, if kind != expected || s.slots[i].generation != generation
                 then ForgetUnlock(i, generation, expected, n) else ClearPtr(i, generation, expected, n))
    case ClearPtr(i, generation, expected, n) =>
      if |s.slots| <= i || |s.history[i]| == 0 then s else
      Write(Goto(s, t, ClearKind(i, generation, expected, n)), i, s.slots[i].(ptr := NULL))
        .(history := s.history[i := Retire(s.history[i])])
    case ClearKind(i, generation, expected, n) =>
      if |s.slots| <= i then s else
      Write(Goto(s, t, ForgetUnlock(i, generation, expected, n)), i, s.slots[i].(kind := INVALID_KIND))
    case _ => s
  }

  ghost function Retire(h: seq<Registration>): seq<Registration>
    requires |h| != 0
  {
    h[|h| - 1 := h[|h| - 1].(retired := true)]
  }

  ghost function Run(s: State, actions: seq<Action>): State
    decreases |actions|
  {
    if |actions| == 0 then s else Run(Step(s, actions[0]), actions[1..])
  }

  // ----- the invariant -----

  /** A slot shows the last registration of its history, or nothing. */
  ghost predicate SlotFits(slot: Slot, h: seq<Registration>) {
    && slot.generation == GenerationAt(|h|)
    && (slot.ptr != NULL ==>
          |h| != 0 && h[|h| - 1] == Registration(slot.kind, slot.ptr, false))
  }

  /** A registration under way: begun in the history, not yet visible in the slot. */
  ghost predicate Pending(slot: Slot, h: seq<Registration>, kind: nat, ptr: nat) {
    slot.ptr == NULL && |h| != 0 && h[|h| - 1] == Registration(kind, ptr, false)
  }

  /** What a lookup knows once it holds a pointer: it belongs to registration `seen`. */
  ghost predicate Saw(h: seq<Registration>, n: nat, late: bool, ptr: nat, seen: nat) {
    && n <= seen && 0 < seen <= |h|
    && ptr != NULL && h[seen - 1].ptr == ptr
    && (late ==> n < seen)
  }

  /** A label that is not 0 names a registration of the handle's kind and generation. */
  ghost predicate Labelled(h: seq<Registration>, kind: nat, generation: nat, n: nat) {
    n <= |h| && (n != 0 ==> h[n - 1].kind == kind && GenerationAt(n) == generation)
  }

  /** Registration `n` has been published: it is retired by now, or its slot still shows it. */
  ghost predicate Visible(slot: Slot, h: seq<Registration>, n: nat) {
    && 0 < n <= |h|
    && (h[n - 1].retired
        || (n == |h| && slot.ptr != NULL && slot.ptr == h[n - 1].ptr && slot.kind == h[n - 1].kind))
  }

  /** The handle word with this kind and generation was issued for registration `n`. */
  ghost predicate Labels(slot: Slot, h: seq<Registration>, kind: nat, generation: nat, n: nat) {
    Visible(slot, h, n) && Labelled(h, kind, generation, n)
  }

  /** A lookup misses only what is retired. */
  ghost predicate Findable(slot: Slot, h: seq<Registration>, pc: Pc) {
    match pc
    case LookPtr(_, _, _, n, _) => n != 0 ==> Visible(slot, h, n)
    case LookKind(_, _, _, n, _, _, _) => n != 0 ==> Visible(slot, h, n)
    case LookGeneration(_, kind, _, n, _, _, _, loaded) =>
      n != 0 ==> Visible(slot, h, n) && (loaded == h[n - 1].kind || h[n - 1].retired)
    case Answered(_, _, _, n, _, ptr, _, _) => n <= |h| && (n != 0 && ptr == NULL ==> h[n - 1].retired)
    case Issued(_, _, _, n) => Visible(slot, h, n)
    case ForgetLock(_, _, _, n) => n != 0 ==> Visible(slot, h, n)
    case ForgetLoadPtr(_, _, _, n) => n != 0 ==> Visible(slot, h, n)
    case ForgetLoadKind(_, _, _, n) => n != 0 ==> Visible(slot, h, n)
    case ForgetLoadGeneration(_, _, _, n, _) => n != 0 ==> Visible(slot, h, n)
    case ClearPtr(_, _, _, n) => n != 0 ==> Visible(slot, h, n)
    case _ => true
  }

  /** After its access an unregistration has retired what it was called for. */
  ghost predicate Gone(h: seq<Registration>, n: nat) {
    n <= |h| && (n != 0 ==> h[n - 1].retired)
  }

  ghost predicate FreeFits(h: seq<Registration>, pc: Pc) {
    match pc
    case LookPtr(_, kind, generation, n, late) =>
      Labelled(h, kind, generation, n) && (late ==> n != 0 && h[n - 1].retired)
    case LookKind(_, kind, generation, n, late, ptr, seen) =>
      Labelled(h, kind, generation, n) && Saw(h, n, late, ptr, seen)
    case LookGeneration(_, kind, generation, n, late, ptr, seen, _) =>
      Labelled(h, kind, generation, n) && Saw(h, n, late, ptr, seen)
    case Answered(_, kind, generation, n, late, ptr, seen, last) =>
      && Labelled(h, kind, generation, n)
      && (ptr != NULL ==>
            Saw(h, n, late, ptr, seen) && seen <= last <= |h| && GenerationAt(last) == generation)
    case Issued(kind, ptr, _, n) =>
      0 < n <= |h| && h[n - 1].kind == kind && h[n - 1].ptr == ptr
    case ForgetLock(_, generation, expected, n) => Labelled(h, expected, generation, n)
    case ForgetLoadPtr(_, generation, expected, n) => Labelled(h, expected, generation, n)
    case ForgetLoadKind(_, generation, expected, n) => Labelled(h, expected, generation, n)
    case ForgetLoadGeneration(_, generation, expected, n, _) => Labelled(h, expected, generation, n)
    case ClearPtr(_, generation, expected, n) => Labelled(h, expected, generation, n)
    case ClearKind(_, generation, expected, n) => Labelled(h, expected, generation, n) && Gone(h, n)
    case ForgetUnlock(_, generation, expected, n) => Labelled(h, expected, generation, n) && Gone(h, n)
    case Forgotten(_, generation, expected, n) => Labelled(h, expected, generation, n) && Gone(h, n)
    case _ => true
  }

  ghost predicate LockedFits(slot: Slot, h: seq<Registration>, pc: Pc) {
    match pc
    case LoadGeneration(kind, ptr, i) => slot.ptr == NULL && ptr != NULL
    case StoreGeneration(kind, ptr, i, generation) =>
      slot.ptr == NULL && ptr != NULL && generation == NextGeneration(slot.generation)
    case StoreKind(kind, ptr, i) => Pending(slot, h, kind, ptr) && ptr != NULL
    case StorePtr(kind, ptr, i) => Pending(slot, h, kind, ptr) && ptr != NULL && slot.kind == kind
    case StoreCursor(kind, ptr, i) => slot.ptr == ptr && slot.kind == kind && ptr != NULL
    case RegisterUnlock(kind, ptr, i, n) =>
      slot.ptr == ptr && slot.kind == kind && ptr != NULL && n == |h|
    case ForgetLoadKind(_, _, _, _) => slot.ptr != NULL
    case ForgetLoadGeneration(_, _, _, _, kind) => slot.ptr != NULL && slot.kind == kind
    case ClearPtr(_, generation, expected, _) =>
      slot.ptr != NULL && slot.kind == expected && slot.generation == generation
    case ClearKind(_, _, _, _) => slot.ptr == NULL
    case _ => true
  }

  /** The slot a thread is working on. */
  ghost function Target(pc: Pc): nat {
    match pc
    case Idle => 0
    case Rejected => 0
    case RegisterLock(_, _) => 0
    case LoadCursor(_, _) => 0
    case Probing(_, _, _, _) => 0
    case RefuseUnlock(_, _) => 0
    case Refused(_, _) => 0
    case _ => pc.index
  }

  ghost predicate Searching(slots: seq<Slot>, pc: Pc) {
    match pc
    case RegisterLock(_, ptr) => ptr != NULL
    case LoadCursor(_, ptr) => ptr != NULL
    case Probing(_, ptr, start, attempt) =>
      && ptr != NULL && start < |slots| && attempt <= |slots|
      && (forall j: nat :: j < attempt ==> slots[R.Probe(start, j, |slots|)].ptr != NULL)
    case RefuseUnlock(_, _) => AllTaken(slots)
    case _ => true
  }

  ghost predicate PcFits(slots: seq<Slot>, history: seq<seq<Registration>>, pc: Pc)
    requires 0 < |slots| == |history|
  {
    && Target(pc) < |slots|
    && FreeFits(history[Target(pc)], pc)
    && Findable(slots[Target(pc)], history[Target(pc)], pc)
    && LockedFits(slots[Target(pc)], history[Target(pc)], pc)
    && Searching(slots, pc)
  }

  ghost predicate Shape(s: State) {
    0 < |s.slots| == |s.history| && s.cursor < |s.slots|
  }

  ghost predicate Exclusive(s: State) {
    && (forall t :: 0 <= t < |s.pcs| && Holds(s.pcs[t]) ==> s.lock == Held(t))
    && (s.lock.Held? ==> s.lock.thread < |s.pcs| && Holds(s.pcs[s.lock.thread]))
  }

  ghost predicate SlotsFit(slots: seq<Slot>, history: seq<seq<Registration>>)
    requires |slots| == |history|
  {
    forall i :: 0 <= i < |slots| ==> SlotFits(slots[i], history[i])
  }

  ghost predicate Inv(s: State) {
    && Shape(s) && Exclusive(s) && SlotsFit(s.slots, s.history)
    && (forall t :: 0 <= t < |s.pcs| ==> PcFits(s.slots, s.history, s.pcs[t]))
  }

  /** Histories only grow, and what they say stays said. */
  ghost predicate Grows(h: seq<Registration>, h': seq<Registration>) {
    && |h| <= |h'|
    && (forall m :: 0 <= m < |h| ==>
          h'[m].kind == h[m].kind && h'[m].ptr == h[m].ptr && (h[m].retired ==> h'[m].retired))
  }

  /** A slot and its history move on: what was published is not taken back unretired. */
  ghost predicate Carries(slot: Slot, h: seq<Registration>, slot': Slot, h': seq<Registration>) {
    && Grows(h, h')
    && (forall n: nat :: Visible(slot, h, n) ==> Visible(slot', h', n))
  }

  ghost predicate AllGrow(slots: seq<Slot>, history: seq<seq<Registration>>,
                          slots': seq<Slot>, history': seq<seq<Registration>>) {
    && |slots| == |history| == |slots'| == |history'|
    && (forall i :: 0 <= i < |history| ==> Carries(slots[i], history[i], slots'[i], history'[i]))
  }

  lemma FreeKept(h: seq<Registration>, h': seq<Registration>, pc: Pc)
    requires FreeFits(h, pc) && Grows(h, h')
    ensures FreeFits(h', pc)
  {
    hide GenerationAt;
  }

  lemma FindableKept(slot: Slot, h: seq<Registration>, slot': Slot, h': seq<Registration>, pc: Pc)
    requires Findable(slot, h, pc) && Carries(slot, h, slot', h')
    ensures Findable(slot', h', pc)
  {
  }

  /** A thread outside the lock does not notice what the lock holder writes. */
  lemma OutsiderKept(slots: seq<Slot>, history: seq<seq<Registration>>,
                     slots': seq<Slot>, history': seq<seq<Registration>>, pc: Pc)
    requires 0 < |slots| == |history| && AllGrow(slots, history, slots', history')
    requires PcFits(slots, history, pc) && !Holds(pc)
    ensures PcFits(slots', history', pc)
  {
    hide GenerationAt, FreeFits, Findable, Visible, SlotFits;
    var i := Target(pc);
    assert Carries(slots[i], history[i], slots'[i], history'[i]);
    FreeKept(history[i], history'[i], pc);
    FindableKept(slots[i], history[i], slots'[i], history'[i], pc);
  }

  /** What the thread that moves keeps: its own new claim, the slots and the growth of the
      histories. */
  ghost predicate Moved(s: State, s': State, t: nat)
    requires Inv(s) && t < |s.pcs|
  {
    && Shape(s') && |s'.pcs| == |s.pcs| && |s'.slots| == |s.slots|
    && AllGrow(s.slots, s.history, s'.slots, s'.history)
    && SlotsFit(s'.slots, s'.history)
    && PcFits(s'.slots, s'.history, s'.pcs[t])
  }

  ghost predicate IsLook(pc: Pc) {
    pc.LookPtr? || pc.LookKind? || pc.LookGeneration?
  }

  ghost predicate IsLockMove(pc: Pc) {
    pc.RegisterLock? || pc.ForgetLock? || pc.RegisterUnlock? || pc.RefuseUnlock? || pc.ForgetUnlock?
  }

  ghost predicate IsSearch(pc: Pc) {
    pc.LoadCursor? || pc.Probing? || pc.LoadGeneration?
  }

  ghost predicate IsWrite(pc: Pc) {
    pc.StoreGeneration? || pc.StoreKind? || pc.StorePtr? || pc.StoreCursor?
  }

  lemma LookLeaves(s: State, t: nat)
    requires t < |s.pcs| && 0 < |s.slots| == |s.history| && IsLook(s.pcs[t])
    ensures Look(s, t) == s.(pcs := Look(s, t).pcs) && |Look(s, t).pcs| == |s.pcs|
  {
    hide GenerationAt;
  }

  lemma LookFits(s: State, t: nat)
    requires Inv(s) && t < |s.pcs| && IsLook(s.pcs[t])
    ensures |Look(s, t).pcs| == |s.pcs| && PcFits(s.slots, s.history, Look(s, t).pcs[t])
  {
    hide GenerationAt, SlotFits, Exclusive;
    var i := Target(s.pcs[t]);
    assert PcFits(s.slots, s.history, s.pcs[t]);
    assert s.slots[i].ptr != NULL ==>
        |s.history[i]| != 0
        && s.history[i][|s.history[i]| - 1] == Registration(s.slots[i].kind, s.slots[i].ptr, false) by {
      assert SlotFits(s.slots[i], s.history[i]);
      SlotShows(s.slots[i], s.history[i]);
    }
    assert s.slots[i].generation == GenerationAt(|s.history[i]|) by {
      SlotShows(s.slots[i], s.history[i]);
    }
  }

  lemma SlotShows(slot: Slot, h: seq<Registration>)
    requires SlotFits(slot, h)
    ensures slot.generation == GenerationAt(|h|)
    ensures slot.ptr != NULL ==>
              |h| != 0 && h[|h| - 1] == Registration(slot.kind, slot.ptr, false)
  {
  }

  lemma LookKeeps(s: State, t: nat)
    requires Inv(s) && t < |s.pcs| && IsLook(s.pcs[t])
    ensures Moved(s, Look(s, t), t)
  {
    hide Look, PcFits, SlotFits, Exclusive;
    LookLeaves(s, t);
    LookFits(s, t);
  }

  lemma LockMoveKeeps(s: State, t: nat)
    requires Inv(s) && t < |s.pcs| && IsLockMove(s.pcs[t])
    ensures Moved(s, Advance(s, t), t)
  {
    hide GenerationAt, Look, Locked;
    assert PcFits(s.slots, s.history, s.pcs[t]);
    assert SlotFits(s.slots[Target(s.pcs[t])], s.history[Target(s.pcs[t])]);
  }

  lemma SearchKeeps(s: State, t: nat)
    requires Inv(s) && t < |s.pcs| && IsSearch(s.pcs[t])
    ensures Moved(s, Locked(s, t), t)
  {
    hide GenerationAt, SlotFits;
    assert PcFits(s.slots, s.history, s.pcs[t]);
    if s.pcs[t].Probing? && s.pcs[t].attempt == |s.slots| {
      FullRound(s.slots, s.pcs[t].start);
    }
  }

  lemma WriteKeeps(s: State, t: nat)
    requires Inv(s) && t < |s.pcs| && IsWrite(s.pcs[t])
    ensures Moved(s, Locked(s, t), t)
  {
    var i := Target(s.pcs[t]);
    assert PcFits(s.slots, s.history, s.pcs[t]);
    assert SlotFits(s.slots[i], s.history[i]);
  }

  lemma ForgetKeeps(s: State, t: nat)
    requires Inv(s) && t < |s.pcs| && Holds(s.pcs[t])
    requires !IsLockMove(s.pcs[t]) && !IsSearch(s.pcs[t]) && !IsWrite(s.pcs[t])
    ensures Moved(s, Locked(s, t), t)
  {
    if s.pcs[t].ClearPtr? || s.pcs[t].ClearKind? {
      ClearKeeps(s, t);
    } else {
      ForgetLoadKeeps(s, t);
    }
  }

  lemma ForgetLoadKeeps(s: State, t: nat)
    requires Inv(s) && t < |s.pcs|
    requires s.pcs[t].ForgetLoadPtr? || s.pcs[t].ForgetLoadKind? || s.pcs[t].ForgetLoadGeneration?
    ensures Moved(s, Locked(s, t), t)
  {
    hide GenerationAt, Exclusive;
    var i := Target(s.pcs[t]);
    assert PcFits(s.slots, s.history, s.pcs[t]);
    SlotShows(s.slots[i], s.history[i]);
  }

  lemma ClearKeeps(s: State, t: nat)
    requires Inv(s) && t < |s.pcs| && (s.pcs[t].ClearPtr? || s.pcs[t].ClearKind?)
    ensures Moved(s, Locked(s, t), t)
  {
    hide GenerationAt, Exclusive;
    var i := Target(s.pcs[t]);
    assert PcFits(s.slots, s.history, s.pcs[t]);
    assert SlotFits(s.slots[i], s.history[i]);
  }

  /** Which of the three parts a step belongs to. */
  lemma AdvanceParts(s: State, t: nat)
    requires t < |s.pcs| && 0 < |s.slots| == |s.history|
    ensures IsLook(s.pcs[t]) ==> Advance(s, t) == Look(s, t)
    ensures AtRest(s.pcs[t]) ==> Advance(s, t) == s
    ensures Holds(s.pcs[t]) && !IsLockMove(s.pcs[t]) ==> Advance(s, t) == Locked(s, t)
  {
  }

  lemma MoverKeeps(s: State, t: nat)
    requires Inv(s) && t < |s.pcs|
    ensures Moved(s, Advance(s, t), t)
  {
    hide Advance, Look, Locked, FreeFits, LockedFits, Searching, SlotFits, Target, PcFits, GenerationAt;
    AdvanceParts(s, t);
    assert PcFits(s.slots, s.history, s.pcs[t]);
    if IsLook(s.pcs[t]) {
      LookKeeps(s, t);
    } else if IsLockMove(s.pcs[t]) {
      LockMoveKeeps(s, t);
    } else if IsSearch(s.pcs[t]) {
      SearchKeeps(s, t);
    } else if IsWrite(s.pcs[t]) {
      WriteKeeps(s, t);
    } else if Holds(s.pcs[t]) {
      ForgetKeeps(s, t);
    }
  }

  /** Every other thread keeps its place, and only the lock holder writes to slots. */
  ghost predicate Framed(s: State, s': State, t: nat) {
    && |s'.pcs| == |s.pcs| && |s'.slots| == |s.slots| == |s'.history| && t < |s.pcs|
    && s'.pcs == s.pcs[t := s'.pcs[t]]
    && ((s'.slots == s.slots && s'.history == s.history) || s.lock == Held(t))
  }

  lemma LookFrame(s: State, t: nat)
    requires Inv(s) && t < |s.pcs| && IsLook(s.pcs[t])
    ensures Framed(s, Look(s, t), t) && Look(s, t).lock == s.lock && !Holds(Look(s, t).pcs[t])
  {
    hide GenerationAt, PcFits, SlotFits;
  }

  lemma LockedFrame(s: State, t: nat)
    requires Inv(s) && t < |s.pcs| && Holds(s.pcs[t]) && !IsLockMove(s.pcs[t])
    ensures Framed(s, Locked(s, t), t) && Locked(s, t).lock == s.lock && Holds(Locked(s, t).pcs[t])
  {
    hide GenerationAt, PcFits, SlotFits;
  }

  lemma LockMoveFrame(s: State, t: nat)
    requires Inv(s) && t < |s.pcs| && IsLockMove(s.pcs[t])
    ensures Framed(s, Advance(s, t), t) && Exclusive(Advance(s, t))
  {
    hide GenerationAt, PcFits, SlotFits, Look, Locked;
  }

  lemma MoverFrame(s: State, t: nat)
    requires Inv(s) && t < |s.pcs|
    ensures Framed(s, Advance(s, t), t) && Exclusive(Advance(s, t))
  {
    hide Advance, Look, Locked, PcFits, SlotFits, GenerationAt;
    AdvanceParts(s, t);
    if IsLook(s.pcs[t]) {
      LookFrame(s, t);
    } else if IsLockMove(s.pcs[t]) {
      LockMoveFrame(s, t);
    } else if Holds(s.pcs[t]) {
      LockedFrame(s, t);
    }
  }

  lemma AdvanceKeeps(s: State, t: nat)
    requires Inv(s) && t < |s.pcs|
    ensures Inv(Advance(s, t))
  {
    hide Advance, FreeFits, LockedFits, Searching, SlotFits, Target, Carries, GenerationAt, PcFits;
    MoverKeeps(s, t);
    MoverFrame(s, t);
    var s' := Advance(s, t);
    forall u | 0 <= u < |s'.pcs| && u != t ensures PcFits(s'.slots, s'.history, s'.pcs[u]) {
      assert PcFits(s.slots, s.history, s.pcs[u]);
      if !Holds(s.pcs[u]) {
        OutsiderKept(s.slots, s.history, s'.slots, s'.history, s.pcs[u]);
      }
    }
  }

  /** Starting a call only moves the thread to the call's first step. */
  lemma BeginKeeps(s: State, a: Action)
    requires Inv(s) && !a.Proceed? && a.thread < |s.pcs|
    ensures Inv(Step(s, a))
  {
    hide Advance, GenerationAt, SlotFits, PcFits, Exclusive;
    BeginFits(s, a);
    BeginExclusive(s, a);
  }

  lemma BeginFits(s: State, a: Action)
    requires Inv(s) && !a.Proceed? && a.thread < |s.pcs|
    ensures var s' := Step(s, a);
            && s' == s.(pcs := s'.pcs) && |s'.pcs| == |s.pcs| && s'.pcs == s.pcs[a.thread := s'.pcs[a.thread]]
            && PcFits(s.slots, s.history, s'.pcs[a.thread])
  {
    hide Advance, GenerationAt, SlotFits, Exclusive;
    assert PcFits(s.slots, s.history, s.pcs[a.thread]);
  }

  lemma BeginExclusive(s: State, a: Action)
    requires Inv(s) && !a.Proceed? && a.thread < |s.pcs|
    ensures Exclusive(Step(s, a))
  {
    hide Advance, GenerationAt, SlotFits, PcFits, Labels;
  }

  lemma StepKeeps(s: State, a: Action)
    requires Inv(s)
    ensures Inv(Step(s, a))
  {
    hide Advance, PcFits, SlotFits, Exclusive;
    if a.thread < |s.pcs| {
      if a.Proceed? {
        AdvanceKeeps(s, a.thread);
      } else {
        BeginKeeps(s, a);
      }
    }
  }

  lemma {:induction false} RunKeeps(s: State, actions: seq<Action>)
    requires Inv(s)
    ensures Inv(Run(s, actions))
    decreases |actions|
  {
    if |actions| != 0 {
      StepKeeps(s, actions[0]);
      RunKeeps(Step(s, actions[0]), actions[1..]);
    }
  }

  lemma InitialInv(capacity: nat, threads: nat)
    requires 0 < capacity
    ensures Inv(Initial(capacity, threads))
  {
  }

  // ----- what lookups answer -----

  /** Whatever the races and whatever the handle word, a pointer that a lookup returns was
      registered in that slot, as registration `seen`, and the generation was the slot's at some
      later registration `last`: a retired registration is answered for only after whole cycles
      of generations. */
  lemma AnswerCameFromTheSlot(capacity: nat, threads: nat, run: seq<Action>, t: nat)
    requires 0 < capacity
    ensures var s := Run(Initial(capacity, threads), run);
            t < |s.pcs| && s.pcs[t].Answered? && s.pcs[t].ptr != NULL ==>
              var pc := s.pcs[t];
              && pc.index < |s.history| && pc.n <= pc.seen <= pc.last <= |s.history[pc.index]|
              && 0 < pc.seen && s.history[pc.index][pc.seen - 1].ptr == pc.ptr
              && GenerationAt(pc.last) == pc.generation
              && (pc.n != 0 ==> (pc.last - pc.n) % CYCLE == 0)
              && (pc.late ==> pc.n < pc.seen)
  {
    hide Run, Initial, GenerationAt;
    var s := Run(Initial(capacity, threads), run);
    InitialInv(capacity, threads);
    RunKeeps(Initial(capacity, threads), run);
    if t < |s.pcs| && s.pcs[t].Answered? && s.pcs[t].ptr != NULL {
      assert PcFits(s.slots, s.history, s.pcs[t]);
      if s.pcs[t].n != 0 {
        SameGeneration(s.pcs[t].n, s.pcs[t].last);
      }
    }
  }

  /** While a slot is reused fewer than 2^32 - 1 times, a lookup of an issued handle returns
      null or exactly the pointer the handle was issued for: null if the registration was
      retired when the lookup began, and only if it is retired when it ends. */
  lemma LookupIsExact(capacity: nat, threads: nat, run: seq<Action>, t: nat)
    requires 0 < capacity
    ensures var s := Run(Initial(capacity, threads), run);
            t < |s.pcs| && s.pcs[t].Answered? && s.pcs[t].n != 0 ==>
              var pc := s.pcs[t];
              && pc.index < |s.history| && pc.n <= |s.history[pc.index]|
              && s.history[pc.index][pc.n - 1].kind == pc.kind && GenerationAt(pc.n) == pc.generation
              && (pc.ptr == NULL ==> s.history[pc.index][pc.n - 1].retired)
              && (pc.ptr != NULL && |s.history[pc.index]| - pc.n < CYCLE ==>
                    pc.ptr == s.history[pc.index][pc.n - 1].ptr && !pc.late)
  {
    hide Run, Initial, GenerationAt;
    var s := Run(Initial(capacity, threads), run);
    InitialInv(capacity, threads);
    RunKeeps(Initial(capacity, threads), run);
    if t < |s.pcs| && s.pcs[t].Answered? {
      assert PcFits(s.slots, s.history, s.pcs[t]);
      AnswerCameFromTheSlot(capacity, threads, run, t);
    }
  }

  /** A register call that has returned leaves its registration findable under its handle
      until it is retired, and a call refuses only when every slot is taken. */
  lemma IssuedIsFindable(capacity: nat, threads: nat, run: seq<Action>, t: nat)
    requires 0 < capacity
    ensures var s := Run(Initial(capacity, threads), run);
            t < |s.pcs| && s.pcs[t].Issued? ==>
              var pc := s.pcs[t];
              && pc.index < |s.slots| == |s.history| && 0 < pc.n <= |s.history[pc.index]|
              && s.history[pc.index][pc.n - 1].kind == pc.kind
              && s.history[pc.index][pc.n - 1].ptr == pc.ptr
              && (s.history[pc.index][pc.n - 1].retired
                  || s.slots[pc.index] == Slot(pc.ptr, GenerationAt(pc.n), pc.kind))
    ensures var s := Run(Initial(capacity, threads), run);
            t < |s.pcs| && s.pcs[t].RefuseUnlock? ==> forall i :: 0 <= i < |s.slots| ==> s.slots[i].ptr != NULL
  {
    hide Run, Initial, GenerationAt;
    var s := Run(Initial(capacity, threads), run);
    InitialInv(capacity, threads);
    RunKeeps(Initial(capacity, threads), run);
    if t < |s.pcs| {
      assert PcFits(s.slots, s.history, s.pcs[t]);
      if s.pcs[t].Issued? {
        assert SlotFits(s.slots[s.pcs[t].index], s.history[s.pcs[t].index]);
      }
    }
  }

  /** `unregister_handle` clears a slot only while it shows a live registration of the expected
      kind and generation: within a cycle, the very registration of the handle. */
  lemma UnregisterHitsItsOwn(capacity: nat, threads: nat, run: seq<Action>, t: nat, n: nat)
    requires 0 < capacity
    ensures var s := Run(Initial(capacity, threads), run);
            t < |s.pcs| && s.pcs[t].ClearPtr? ==>
              var pc := s.pcs[t];
              && pc.index < |s.slots| == |s.history| && 0 < |s.history[pc.index]|
              && s.history[pc.index][|s.history[pc.index]| - 1]
                 == Registration(pc.expected, s.slots[pc.index].ptr, false)
              && (0 < n <= |s.history[pc.index]| < n + CYCLE && GenerationAt(n) == pc.generation ==>
                    n == |s.history[pc.index]|)
  {
    hide Run, Initial, GenerationAt;
    var s := Run(Initial(capacity, threads), run);
    InitialInv(capacity, threads);
    RunKeeps(Initial(capacity, threads), run);
    if t < |s.pcs| && s.pcs[t].ClearPtr? {
      var i := s.pcs[t].index;
      assert PcFits(s.slots, s.history, s.pcs[t]);
      assert SlotFits(s.slots[i], s.history[i]);
      if 0 < n <= |s.history[i]| {
        SameGeneration(n, |s.history[i]|);
      }
    }
  }

  /** When an unregistration has returned, the registration its handle was issued for is retired:
      no later lookup that begins then finds it. */
  lemma UnregisterRetires(capacity: nat, threads: nat, run: seq<Action>, t: nat)
    requires 0 < capacity
    ensures var s := Run(Initial(capacity, threads), run);
            t < |s.pcs| && s.pcs[t].Forgotten? && s.pcs[t].n != 0 ==>
              var pc := s.pcs[t];
              && pc.index < |s.history| && pc.n <= |s.history[pc.index]|
              && s.history[pc.index][pc.n - 1].kind == pc.expected && GenerationAt(pc.n) == pc.generation
              && s.history[pc.index][pc.n - 1].retired
  {
    hide Run, Initial, GenerationAt;
    var s := Run(Initial(capacity, threads), run);
    InitialInv(capacity, threads);
    RunKeeps(Initial(capacity, threads), run);
    if t < |s.pcs| && s.pcs[t].Forgotten? {
      assert PcFits(s.slots, s.history, s.pcs[t]);
    }
  }

  // ----- what callers asked for -----

  /** A call as it was made, and what its handle word was issued for at that moment. */
  datatype Request = NoRequest | Request(call: Action, issued: nat, late: bool)

  /** The arguments the functions go on with; all others they refuse at once. */
  ghost predicate Acceptable(call: Action, slots: nat) {
    match call
    case Register(_, kind, ptr) => ptr != NULL && kind != INVALID_KIND && kind < KINDS
    case Unregister(_, index, generation, expected, _) =>
      index < slots && generation != 0 && expected != INVALID_KIND
    case Lookup(_, index, kind, generation, _) => index < slots && generation != 0 && kind != INVALID_KIND
    case Proceed(_) => false
  }

  /** Whether the number names a registration that the word of the call stands for. */
  ghost predicate StandsFor(s: State, index: nat, kind: nat, generation: nat, n: nat) {
    index < |s.slots| && index < |s.history| && Labels(s.slots[index], s.history[index], kind, generation, n)
  }

  ghost function Requested(s: State, call: Action): Request {
    match call
    case Unregister(_, index, generation, expected, n) =>
      Request(call, if StandsFor(s, index, expected, generation, n) then n else 0, false)
    case Lookup(_, index, kind, generation, n) =>
      if StandsFor(s, index, kind, generation, n)
      then Request(call, n, n <= |s.history[index]| && n != 0 && s.history[index][n - 1].retired)
      else Request(call, 0, false)
    case _ => Request(call, 0, false)
  }

  /** The last call that a thread has made in a run: it makes one when it has none under way. */
  ghost function LastRequest(origin: State, run: seq<Action>, t: nat): Request
    decreases |run|
  {
    if |run| == 0 then NoRequest else
    var before, a := run[..|run| - 1], run[|run| - 1];
    var s := Run(origin, before);
    if !a.Proceed? && a.thread == t && t < |s.pcs| && AtRest(s.pcs[t]) then Requested(s, a)
    else LastRequest(origin, before, t)
  }

  /** A thread is working for, or has answered, exactly this request. */
  ghost predicate WorksFor(pc: Pc, request: Request, slots: nat) {
    if request.NoRequest? then pc.Idle?
    else if !Acceptable(request.call, slots) then pc.Rejected?
    else match request.call
      case Register(_, kind, ptr) => Registers(pc, kind, ptr)
      case Unregister(_, index, generation, expected, _) =>
        Unregistering(pc) && pc.index == index && pc.generation == generation && pc.expected == expected
        && pc.n == request.issued
      case Lookup(_, index, kind, generation, _) =>
        (IsLook(pc) || pc.Answered?) && pc.index == index && pc.kind == kind && pc.generation == generation
        && pc.n == request.issued && pc.late == request.late
      case Proceed(_) => false
  }

  ghost predicate Registers(pc: Pc, kind: nat, ptr: nat) {
    && (pc.RegisterLock? || pc.LoadCursor? || pc.Probing? || pc.LoadGeneration? || pc.StoreGeneration?
        || pc.StoreKind? || pc.StorePtr? || pc.StoreCursor? || pc.RegisterUnlock? || pc.Issued?
        || pc.RefuseUnlock? || pc.Refused?)
    && pc.kind == kind && pc.ptr == ptr
  }

  ghost predicate Unregistering(pc: Pc) {
    pc.ForgetLock? || pc.ForgetLoadPtr? || pc.ForgetLoadKind? || pc.ForgetLoadGeneration?
    || pc.ClearPtr? || pc.ClearKind? || pc.ForgetUnlock? || pc.Forgotten?
  }

  /** A step of the call under way serves the same request. */
  lemma AdvanceServes(s: State, t: nat, request: Request)
    requires 0 < |s.slots| == |s.history| && t < |s.pcs| && WorksFor(s.pcs[t], request, |s.slots|)
    ensures |Advance(s, t).pcs| == |s.pcs| && WorksFor(Advance(s, t).pcs[t], request, |s.slots|)
  {
    hide NextGeneration, R.Probe;
  }

  /** A new call is the new request. */
  lemma BeginServes(s: State, a: Action)
    requires 0 < |s.slots| == |s.history| && !a.Proceed? && a.thread < |s.pcs| && AtRest(s.pcs[a.thread])
    ensures |Step(s, a).pcs| == |s.pcs|
    ensures WorksFor(Step(s, a).pcs[a.thread], Requested(s, a), |s.slots|)
  {
    hide Labelled, Advance;
  }

  /** Other threads' steps do not touch a thread's call. */
  lemma OthersServe(s: State, a: Action, t: nat)
    requires Inv(s) && t < |s.pcs|
    requires a.thread != t || (!a.Proceed? && !AtRest(s.pcs[t]))
    ensures |Step(s, a).pcs| == |s.pcs| && Step(s, a).pcs[t] == s.pcs[t]
  {
    hide Advance, Labels, Exclusive, PcFits, SlotFits;
    if a.Proceed? && a.thread < |s.pcs| {
      MoverFrame(s, a.thread);
    }
  }

  /** In every run, what a thread does and answers is for its last call, with the arguments of that
      call: registrations, clearings and answers are those that were asked for. */
  lemma {:induction false} AskedIsServed(capacity: nat, threads: nat, run: seq<Action>, t: nat)
    requires 0 < capacity && t < threads
    ensures var origin := Initial(capacity, threads);
            var s := Run(origin, run);
            && |s.pcs| == threads && |s.slots| == capacity
            && WorksFor(s.pcs[t], LastRequest(origin, run, t), capacity)
    decreases |run|
  {
    hide Inv, Step, Advance, WorksFor, Requested, AtRest;
    var origin := Initial(capacity, threads);
    if |run| == 0 {
      NothingAsked(capacity, threads, t);
    } else {
      var before, a := run[..|run| - 1], run[|run| - 1];
      AskedIsServed(capacity, threads, before, t);
      InitialInv(capacity, threads);
      RunKeeps(origin, before);
      RunOneMore(origin, before, a);
      assert before + [a] == run;
      ServedNext(Run(origin, before), a, t, LastRequest(origin, before, t));
    }
  }

  lemma NothingAsked(capacity: nat, threads: nat, t: nat)
    requires t < threads
    ensures var origin := Initial(capacity, threads);
            && Run(origin, []) == origin && |origin.pcs| == threads && |origin.slots| == capacity
            && WorksFor(origin.pcs[t], NoRequest, capacity)
  {
  }

  lemma ServedNext(s: State, a: Action, t: nat, request: Request)
    requires Inv(s) && t < |s.pcs| && WorksFor(s.pcs[t], request, |s.slots|)
    ensures var next := if !a.Proceed? && a.thread == t && AtRest(s.pcs[t]) then Requested(s, a) else request;
            && |Step(s, a).pcs| == |s.pcs| && |Step(s, a).slots| == |s.slots|
            && WorksFor(Step(s, a).pcs[t], next, |s.slots|)
  {
    hide Advance, WorksFor, Requested, AtRest, Labels, Exclusive, PcFits, SlotFits;
    SameTable(s, a);
    if a.thread != t || (!a.Proceed? && !AtRest(s.pcs[t])) {
      OthersServe(s, a, t);
    } else if a.Proceed? {
      AdvanceServes(s, t, request);
    } else {
      BeginServes(s, a);
    }
  }

  lemma SameTable(s: State, a: Action)
    requires Inv(s)
    ensures |Step(s, a).slots| == |s.slots|
  {
    hide Advance, Labels, Exclusive, PcFits, SlotFits;
    if a.Proceed? && a.thread < |s.pcs| {
      MoverFrame(s, a.thread);
    }
  }

  // ----- the bound is needed -----

  ghost predicate Reaches(s: State, s': State) {
    exists run :: Run(s, run) == s'
  }

  lemma {:induction false} RunOneMore(s: State, run: seq<Action>, a: Action)
    ensures Run(s, run + [a]) == Step(Run(s, run), a)
    decreases |run|
  {
    hide Step;
    if |run| == 0 {
      assert run + [a] == [a];
      assert Run(Step(s, a), [a][1..]) == Step(s, a);
    } else {
      assert (run + [a])[1..] == run[1..] + [a];
      RunOneMore(Step(s, run[0]), run[1..], a);
    }
  }

  lemma ReachesFurther(s: State, s': State, a: Action)
    requires Reaches(s, s')
    ensures Reaches(s, Step(s', a))
  {
    hide Step;
    var run :| Run(s, run) == s';
    RunOneMore(s, run, a);
  }

  /** Thread `t` is between calls and the lock is free. */
  ghost predicate Quiet(s: State, t: nat) {
    && Shape(s) && s.lock.Free? && t < |s.pcs| && AtRest(s.pcs[t])
  }

  lemma Go(origin: State, s: State, a: Action) returns (s': State)
    requires Reaches(origin, s)
    ensures Reaches(origin, s') && s' == Step(s, a)
  {
    hide Step;
    ReachesFurther(origin, s, a);
    s' := Step(s, a);
  }

  /** The first free slot from the cursor on is slot `i`, `distance` places away. */
  ghost predicate FreeAt(s: State, i: nat, distance: nat) {
    && Shape(s) && distance < |s.slots| && R.Probe(s.cursor, distance, |s.slots|) == i && s.slots[i].ptr == NULL
    && (forall j: nat :: j < distance ==> s.slots[R.Probe(s.cursor, j, |s.slots|)].ptr != NULL)
  }

  /** Probing passes the taken slots. */
  lemma {:induction false} ProbesTo(origin: State, s: State, t: nat, kind: nat, ptr: nat, i: nat,
                                    distance: nat, from: nat) returns (s': State)
    requires Reaches(origin, s) && FreeAt(s, i, distance) && from <= distance
    requires t < |s.pcs| && s.pcs[t] == Probing(kind, ptr, s.cursor, from)
    ensures Reaches(origin, s') && s' == s.(pcs := s.pcs[t := LoadGeneration(kind, ptr, i)])
    decreases distance - from
  {
    hide Reaches, R.Probe;
    s' := Go(origin, s, Proceed(t));
    if from < distance {
      assert s'.pcs[t] == Probing(kind, ptr, s.cursor, from + 1);
      s' := ProbesTo(origin, s', t, kind, ptr, i, distance, from + 1);
    }
  }

  /** A whole registration, alone: it takes the first free slot from the cursor on. */
  lemma RegistersInto(origin: State, s: State, t: nat, i: nat, distance: nat, kind: nat, ptr: nat)
      returns (s': State)
    requires Reaches(origin, s) && Quiet(s, t) && FreeAt(s, i, distance) && ptr != NULL && 0 < kind < KINDS
    ensures Reaches(origin, s') && Quiet(s', t) && |s'.pcs| == |s.pcs|
    ensures s'.slots == s.slots[i := Slot(ptr, NextGeneration(s.slots[i].generation), kind)]
    ensures s'.history == s.history[i := s.history[i] + [Registration(kind, ptr, false)]]
    ensures s'.cursor == (i + 1) % |s.slots|
    ensures s'.pcs[t] == Issued(kind, ptr, i, |s'.history[i]|)
  {
    hide Reaches, R.Probe;
    s' := Go(origin, s, Register(t, kind, ptr));
    s' := Go(origin, s', Proceed(t));
    s' := Go(origin, s', Proceed(t));
    assert s'.pcs[t] == Probing(kind, ptr, s.cursor, 0);
    s' := ProbesTo(origin, s', t, kind, ptr, i, distance, 0);
    s' := Writes(origin, s', t, i, kind, ptr);
  }

  lemma Writes(origin: State, s: State, t: nat, i: nat, kind: nat, ptr: nat) returns (s': State)
    requires Reaches(origin, s) && Shape(s) && t < |s.pcs| && i < |s.slots|
    requires s.pcs[t] == LoadGeneration(kind, ptr, i)
    requires s.slots[i].ptr == NULL && s.lock == Held(t) && ptr != NULL
    ensures Reaches(origin, s') && Quiet(s', t) && |s'.pcs| == |s.pcs|
    ensures s'.slots == s.slots[i := Slot(ptr, NextGeneration(s.slots[i].generation), kind)]
    ensures s'.history == s.history[i := s.history[i] + [Registration(kind, ptr, false)]]
    ensures s'.cursor == (i + 1) % |s.slots|
    ensures s'.pcs[t] == Issued(kind, ptr, i, |s'.history[i]|)
  {
    hide Reaches;
    var next := NextGeneration(s.slots[i].generation);
    s' := Go(origin, s, Proceed(t));
    s' := Go(origin, s', Proceed(t));
    assert s'.pcs[t] == StoreKind(kind, ptr, i) && s'.slots == s.slots[i := s.slots[i].(generation := next)];
    s' := Go(origin, s', Proceed(t));
    s' := Go(origin, s', Proceed(t));
    assert s'.slots == s.slots[i := Slot(ptr, next, kind)];
    s' := Go(origin, s', Proceed(t));
    s' := Go(origin, s', Proceed(t));
  }

  /** A whole unregistration, alone. */
  lemma Unregisters(origin: State, s: State, t: nat, i: nat) returns (s': State)
    requires Reaches(origin, s) && Quiet(s, t) && i < |s.slots| && |s.history[i]| != 0
    requires s.slots[i].ptr != NULL && s.slots[i].kind != INVALID_KIND && s.slots[i].generation != 0
    ensures Reaches(origin, s') && Quiet(s', t) && |s'.pcs| == |s.pcs| && s'.cursor == s.cursor
    ensures s'.slots == s.slots[i := Slot(NULL, s.slots[i].generation, INVALID_KIND)]
    ensures s'.history == s.history[i := Retire(s.history[i])]
  {
    hide Reaches, Labels;
    s' := Go(origin, s, Unregister(t, i, s.slots[i].generation, s.slots[i].kind, 0));
    s' := Go(origin, s', Proceed(t));
    s' := Go(origin, s', Proceed(t));
    s' := Go(origin, s', Proceed(t));
    s' := Go(origin, s', Proceed(t));
    assert s'.pcs[t].ClearPtr? && s'.pcs[t].index == i;
    s' := Clears(origin, s', t, i);
  }

  lemma Clears(origin: State, s: State, t: nat, i: nat) returns (s': State)
    requires Reaches(origin, s) && Shape(s) && t < |s.pcs| && s.pcs[t].ClearPtr? && s.pcs[t].index == i
    requires i < |s.slots| && |s.history[i]| != 0
    ensures Reaches(origin, s') && Quiet(s', t) && |s'.pcs| == |s.pcs| && s'.cursor == s.cursor
    ensures s'.slots == s.slots[i := Slot(NULL, s.slots[i].generation, INVALID_KIND)]
    ensures s'.history == s.history[i := Retire(s.history[i])]
  {
    hide Reaches;
    s' := Go(origin, s, Proceed(t));
    assert s'.slots == s.slots[i := s.slots[i].(ptr := NULL)];
    s' := Go(origin, s', Proceed(t));
    s' := Go(origin, s', Proceed(t));
  }

  /** The table with its first `k` slots taken, each for the first time. */
  ghost predicate FilledTo(s: State, t: nat, k: nat, kind: nat, first: nat) {
    && Quiet(s, t) && 0 < k <= |s.slots| && s.cursor == k % |s.slots|
    && (forall i :: 0 <= i < |s.slots| ==> (s.slots[i].ptr != NULL <==> i < k))
    && s.slots[0] == Slot(first, GenerationAt(1), kind) && s.history[0] == [Registration(kind, first, false)]
  }

  lemma {:induction false} Fills(capacity: nat, threads: nat, t: nat, k: nat, kind: nat, first: nat)
      returns (s: State)
    requires 0 < k <= capacity && t < threads && first != NULL && 0 < kind < KINDS
    ensures Reaches(Initial(capacity, threads), s) && FilledTo(s, t, k, kind, first) && |s.slots| == capacity
    decreases k
  {
    hide Reaches;
    var origin := Initial(capacity, threads);
    if k == 1 {
      StartReached(origin);
      NoneBetween(origin, 0);
      s := RegistersInto(origin, origin, t, 0, 0, kind, first);
    } else {
      var before := Fills(capacity, threads, t, k - 1, kind, first);
      NoneBetween(before, k - 1);
      s := RegistersInto(origin, before, t, k - 1, 0, kind, first);
    }
  }

  lemma StartReached(origin: State)
    ensures Reaches(origin, origin)
  {
    assert Run(origin, []) == origin;
  }

  /** A free slot at the cursor. */
  lemma NoneBetween(s: State, i: nat)
    requires Shape(s) && i < |s.slots| && s.cursor == i % |s.slots| && s.slots[i].ptr == NULL
    ensures FreeAt(s, i, 0)
  {
    R.DivModUnique(i, |s.slots|, 0, i);
    R.DivModUnique(s.cursor, |s.slots|, 0, s.cursor);
  }

  /** A full table whose slot 0 shows its `n`-th registration, of `ptr`; the first was of `first`. */
  ghost predicate Showing(s: State, t: nat, n: nat, kind: nat, ptr: nat, first: nat) {
    && Quiet(s, t) && AllTaken(s.slots)
    && s.slots[0] == Slot(ptr, GenerationAt(n), kind)
    && |s.history[0]| == n && 0 < n
    && s.history[0][0] == Registration(kind, first, n != 1)
    && s.history[0][n - 1] == Registration(kind, ptr, false)
  }

  /** In a table where only slot 0 is free, probing ends there wherever the cursor stands. */
  lemma OnlyFree(s: State) returns (distance: nat)
    requires Shape(s) && s.slots[0].ptr == NULL && forall i :: 0 < i < |s.slots| ==> s.slots[i].ptr != NULL
    ensures FreeAt(s, 0, distance)
  {
    var n := |s.slots|;
    distance := if s.cursor == 0 then 0 else n - s.cursor;
    forall j: nat | j <= distance ensures R.Probe(s.cursor, j, n) == (if j == distance then 0 else s.cursor + j) {
      if j == distance && s.cursor != 0 {
        R.DivModUnique(s.cursor + j, n, 1, 0);
      } else {
        R.DivModUnique(s.cursor + j, n, 0, s.cursor + j);
      }
    }
  }

  /** Slot 0 can come to show its `n`-th registration while all others keep their first. */
  lemma {:induction false} ShowingReached(capacity: nat, threads: nat, t: nat, n: nat, kind: nat, ptr: nat,
                                          first: nat) returns (s: State)
    requires 0 < capacity && t < threads && 0 < n && ptr != NULL && first != NULL && (n == 1 ==> ptr == first)
    requires 0 < kind < KINDS
    ensures Reaches(Initial(capacity, threads), s) && Showing(s, t, n, kind, ptr, first) && |s.slots| == capacity
    decreases n
  {
    hide Reaches, GenerationAt;
    var origin := Initial(capacity, threads);
    if n == 1 {
      s := Fills(capacity, threads, t, capacity, kind, first);
    } else {
      var before := ShowingReached(capacity, threads, t, n - 1, kind, first, first);
      GenerationNext(n - 1);
      var gone := Unregisters(origin, before, t, 0);
      var distance := OnlyFree(gone);
      s := RegistersInto(origin, gone, t, 0, distance, kind, ptr);
      GenerationNext(n);
    }
  }

  lemma GenerationNext(n: nat)
    requires 0 < n
    ensures GenerationAt(n) == NextGeneration(GenerationAt(n - 1)) && GenerationAt(n) != 0
  {
  }

  /** Looking up the first registration of slot 0 when it shows a later one. */
  lemma LateLookup(origin: State, s: State, t: nat, n: nat, kind: nat, ptr: nat, first: nat)
      returns (s': State)
    requires Reaches(origin, s) && Showing(s, t, n, kind, ptr, first) && 1 < n && ptr != NULL
    requires kind != INVALID_KIND
    ensures Reaches(origin, s') && s'.history == s.history && |s'.slots| == |s.slots| && |s'.pcs| == |s.pcs|
    ensures t < |s.pcs|
            && s'.pcs[t] == if GenerationAt(n) == GenerationAt(1)
                            then Answered(0, kind, GenerationAt(1), 1, true, ptr, n, n)
                            else Answered(0, kind, GenerationAt(1), 1, true, NULL, n, 0)
  {
    hide GenerationAt, Reaches;
    GenerationNext(1);
    s' := Go(origin, s, Lookup(t, 0, kind, GenerationAt(1), 1));
    assert s'.pcs[t] == LookPtr(0, kind, GenerationAt(1), 1, true);
    s' := Go(origin, s', Proceed(t));
    assert s'.pcs[t] == LookKind(0, kind, GenerationAt(1), 1, true, ptr, n);
    s' := Go(origin, s', Proceed(t));
    s' := Go(origin, s', Proceed(t));
  }

  /** The bound on reuse is exact, in a table of any size, for every kind and on every thread:
      whatever the number of re-registrations of a slot, a lookup with the handle of its first,
      long retired registration can be answered with the pointer of the latest one if and only if
      that number is a multiple of 2^32 - 1. */
  lemma StaleHandleAnswered(capacity: nat, threads: nat, t: nat, again: nat, kind: nat, ptr: nat, first: nat)
      returns (s: State)
    requires 0 < capacity && t < threads && 0 < again && 0 < kind < KINDS && ptr != NULL && first != NULL
    ensures Reaches(Initial(capacity, threads), s)
    ensures |s.slots| == |s.history| == capacity && |s.history[0]| == again + 1
    ensures s.history[0][0] == Registration(kind, first, true)
    ensures t < |s.pcs| && s.pcs[t].Answered?
    ensures s.pcs[t].index == 0 && s.pcs[t].kind == kind && s.pcs[t].generation == GenerationAt(1)
    ensures s.pcs[t].n == 1 && s.pcs[t].late
    ensures s.pcs[t].ptr == if again % CYCLE == 0 then ptr else NULL
  {
    hide GenerationAt, Reaches, Step;
    s := ShowingReached(capacity, threads, t, again + 1, kind, ptr, first);
    SameGeneration(1, again + 1);
    s := LateLookup(Initial(capacity, threads), s, t, again + 1, kind, ptr, first);
  }
}
