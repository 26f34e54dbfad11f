/** The reclamation manager in place: retirement rings, drains and the frontier scan. */
module EpochManager {
  import opened Options
  import opened RingIndex
  import opened EpochProtocol
  import opened EpochProofs

  /** What the scan's loads return for one participant. */
  datatype Observation = Observation(registered: bool, stamp: Stamp)

  /** The smallest active epoch among registered participants. */
  function Least(seen: seq<Observation>): Option<nat> {
    if seen == [] then None
    else
      var rest := Least(seen[..|seen| - 1]);
      var last := seen[|seen| - 1];
      if last.registered && last.stamp.Active? then Lower(rest, last.stamp.epoch) else rest
  }

  /** `Least` is a minimum, so it does not depend on the order of the participants. */
  lemma {:induction false} LeastIsMinimum(seen: seq<Observation>)
    ensures Least(seen).Some? ==> Observation(true, Active(Least(seen).value)) in seen
    ensures forall o :: o in seen && o.registered && o.stamp.Active? ==>
                          Least(seen).Some? && Least(seen).value <= o.stamp.epoch
  {
    if seen != [] {
      LeastIsMinimum(seen[..|seen| - 1]);
      assert seen == seen[..|seen| - 1] + [seen[|seen| - 1]];
    }
  }

  /** The epoch is a grace period old, and every reader that was shown is past it. */
  ghost predicate UnderReaders(epoch: int, newEpoch: nat, seen: seq<Observation>) {
    && epoch + GRACE_EPOCHS <= newEpoch
    && forall o :: o in seen && o.registered && o.stamp.Active? ==> epoch < o.stamp.epoch
  }

  /** What a scan at `newEpoch` makes of the frontier: it never falls, a new one is under all
      readers, and no epoch under all readers is above it. */
  ghost predicate Proves(safe: Option<nat>, safe': Option<nat>, newEpoch: nat, seen: seq<Observation>) {
    && (safe.Some? ==> safe'.Some? && safe.value <= safe'.value)
    && (safe' != safe ==> UnderReaders(safe'.value, newEpoch, seen))
    && (forall c: nat :: UnderReaders(c, newEpoch, seen) ==> safe'.Some? && c <= safe'.value)
  }

  /** The scan's closed form is the greatest epoch under all readers. */
  lemma CandidateIsGreatest(newEpoch: nat, seen: seq<Observation>)
    ensures UnderReaders(Candidate(newEpoch, Least(seen)), newEpoch, seen)
    ensures forall c: int :: UnderReaders(c, newEpoch, seen) ==> c <= Candidate(newEpoch, Least(seen))
  {
    LeastIsMinimum(seen);
  }

  lemma RaisingProves(safe: Option<nat>, newEpoch: nat, seen: seq<Observation>)
    ensures var c := Candidate(newEpoch, Least(seen));
            Proves(safe, if 0 <= c && (safe.None? || safe.value < c) then Some(c) else safe, newEpoch, seen)
  {
    hide Candidate, Least, UnderReaders;
    CandidateIsGreatest(newEpoch, seen);
    var c := Candidate(newEpoch, Least(seen));
    forall d: nat | UnderReaders(d, newEpoch, seen) ensures d <= c {
    }
  }

  /** The prefix of a ring's entries that a drain with frontier `safe` takes. */
  function TakenBy(pending: seq<Entry>, safe: nat): (n: nat)
    ensures n <= |pending|
    ensures forall k :: 0 <= k < n ==> pending[k].epoch <= safe
    ensures n < |pending| ==> pending[n].epoch > safe
  {
    if pending == [] || pending[0].epoch > safe then 0 else 1 + TakenBy(pending[1..], safe)
  }

  /** With nondecreasing tags the drain takes exactly the entries at or under the frontier. */
  lemma {:induction false} TakesExactly(pending: seq<Entry>, safe: nat, k: nat)
    requires k < |pending|
    requires forall a, b :: 0 <= a <= b < |pending| ==> pending[a].epoch <= pending[b].epoch
    ensures k < TakenBy(pending, safe) <==> pending[k].epoch <= safe
  {
    var n := TakenBy(pending, safe);
    if n <= k {
      assert pending[n].epoch <= pending[k].epoch;
    }
  }

  lemma {:induction false} TakenUnique(pending: seq<Entry>, safe: nat, n: nat)
    requires n <= |pending|
    requires forall k :: 0 <= k < n ==> pending[k].epoch <= safe
    requires n < |pending| ==> pending[n].epoch > safe
    ensures n == TakenBy(pending, safe)
  {
    if n > 0 {
      TakenUnique(pending[1..], safe, n - 1);
    }
  }

  class RetireQueue {
    const capacity: nat
    const entries: array<Entry>
    var head: nat
    var tail: nat
    ghost var retired: seq<Entry>    // everything ever published
    ghost var deleted: seq<Entry>    // entries whose deleter has been called, in order

    ghost predicate Valid()
      reads this, entries
    {
      && 0 < capacity == entries.Length
      && tail <= head <= tail + capacity && |retired| == head
      && (forall k: nat :: tail <= k < head ==> entries[Slot(k, capacity)] == retired[k])
      && (forall k :: 0 <= k < head ==> retired[k].ptr != 0 && retired[k].deleter != 0)
      && deleted == retired[..tail]
    }

    ghost function Pending(): seq<Entry>
      requires Valid()
      reads this, entries
    {
      retired[tail..]
    }

    constructor (capacity: nat)
      requires 0 < capacity
      ensures Valid() && fresh(entries) && this.capacity == capacity && retired == [] && deleted == []
    {
      this.capacity := capacity;
      entries := new Entry[capacity](i => EMPTY_ENTRY);
      head, tail := 0, 0;
      retired, deleted := [], [];
    }

    /** Accepts exactly when there is something to delete and room; a rejected pointer leaves no
        trace. */
    method DeferDelete(ptr: Ptr, deleter: nat, registered: bool, globalEpoch: nat) returns (accepted: bool)
      requires Valid()
      modifies this`head, this`retired, entries
      ensures Valid()
      ensures accepted <==> ptr != 0 && deleter != 0 && registered && |old(Pending())| < capacity
      ensures retired == if accepted then old(retired) + [Entry(ptr, deleter, globalEpoch)] else old(retired)
    {
      if ptr == 0 || deleter == 0 || !registered { return false; }
      if head - tail >= capacity { return false; }
      WindowDistinct(tail, capacity, head);
      entries[Slot(head, capacity)] := Entry(ptr, deleter, globalEpoch);
      retired := retired + [Entry(ptr, deleter, globalEpoch)];
      head := head + 1;
      return true;
    }

    /** Frees the longest prefix at or under the frontier, in publication order. */
    method DrainThrough(safeEpoch: nat) returns (reclaimed: nat)
      requires Valid()
      modifies this`tail, this`deleted, entries
      ensures Valid()
      ensures reclaimed == TakenBy(old(Pending()), safeEpoch)
      ensures deleted == old(deleted) + old(Pending())[..reclaimed]
    {
      reclaimed := 0;
      var stop := head;
      ghost var first := tail;
      while tail != stop
        invariant Valid() && first <= tail <= stop == head
        invariant reclaimed == tail - first
        invariant forall k :: first <= k < tail ==> retired[k].epoch <= safeEpoch
        decreases stop - tail
      {
        var entry := entries[Slot(tail, capacity)];
        if entry.epoch > safeEpoch { break; }
        Take(entry);
        reclaimed := reclaimed + 1;
      }
      DrainedPrefix(first, safeEpoch, reclaimed);
    }

    lemma DrainedPrefix(first: nat, safeEpoch: nat, reclaimed: nat)
      requires Valid() && first <= tail && reclaimed == tail - first
      requires forall k :: first <= k < tail ==> retired[k].epoch <= safeEpoch
      requires tail != head ==> entries[Slot(tail, capacity)].epoch > safeEpoch
      ensures reclaimed == TakenBy(retired[first..], safeEpoch)
      ensures retired[..tail] == retired[..first] + retired[first..][..reclaimed]
    {
      assert retired[first..][..reclaimed] == retired[first..tail];
      TakenUnique(retired[first..], safeEpoch, reclaimed);
    }

    /** Clear the oldest cell, release it, and run the deleter. */
    method Take(entry: Entry)
      requires Valid() && tail < head && entry == entries[Slot(tail, capacity)]
      modifies this`tail, this`deleted, entries
      ensures Valid() && tail == old(tail) + 1
      ensures deleted == old(deleted) + [retired[old(tail)]]
    {
      WindowDistinct(tail, capacity, tail);
      entries[Slot(tail, capacity)] := EMPTY_ENTRY;
      assert retired[..tail + 1] == retired[..tail] + [retired[tail]];
      tail := tail + 1;
      deleted := deleted + [entry];
    }

    /** The destructor's drain: everything accepted and not yet freed is freed, once, in order. */
    method DrainAll()
      requires Valid()
      modifies this`tail, this`deleted, entries
      ensures Valid() && tail == head
      ensures deleted == retired
    {
      var stop := head;
      var t := tail;
      while t != stop
        invariant old(tail) <= t <= stop == head
        invariant |retired| == head && deleted == retired[..t]
        invariant 0 < capacity == entries.Length && head <= old(tail) + capacity
        invariant forall k: nat :: t <= k < head ==> entries[Slot(k, capacity)] == retired[k]
      {
        var cell := Slot(t, capacity);
        var entry := entries[cell];
        WindowDistinct(t, capacity, t);
        entries[cell] := EMPTY_ENTRY;
        t := t + 1;
        if entry.ptr != 0 && entry.deleter != 0 {
          deleted := deleted + [entry];
        }
        assert retired[..t] == retired[..t - 1] + [entry];
      }
      tail := stop;
      assert retired[..stop] == retired;
    }
  }

  /** The collector's own state and the rings it drains. */
  class Collector {
    const queues: seq<RetireQueue>
    var globalEpoch: nat
    var safeEpoch: nat
    var hasSafeEpoch: bool
    var collecting: bool

    constructor (queues: seq<RetireQueue>)
      ensures this.queues == queues && globalEpoch == 0 && !hasSafeEpoch && !collecting
    {
      this.queues := queues;
      globalEpoch, safeEpoch, hasSafeEpoch, collecting := 0, 0, false, false;
    }

    ghost predicate Valid()
      reads queues, set q | q in queues :: q.entries
    {
      && (forall j :: 0 <= j < |queues| ==> queues[j].Valid())
      && (forall i, j :: 0 <= i < j < |queues| ==> queues[i] != queues[j] && queues[i].entries != queues[j].entries)
    }

    ghost function Pendings(): (pendings: seq<seq<Entry>>)
      requires Valid()
      reads queues, set q | q in queues :: q.entries
      ensures |pendings| == |queues| && forall j :: 0 <= j < |queues| ==> pendings[j] == queues[j].Pending()
    {
      seq(|queues|, j requires 0 <= j < |queues| && Valid() reads queues, set q | q in queues :: q.entries =>
        queues[j].Pending())
    }

    ghost function Safe(): Option<nat>
      reads this
    {
      if hasSafeEpoch then Some(safeEpoch) else None
    }

    /** The frontier becomes the greatest epoch that is a grace period old and under every reader
        the scan was shown, in any scan order, but it never falls. */
    method UpdateSafeFrontier(newEpoch: nat, seen: seq<Observation>)
      modifies this`safeEpoch, this`hasSafeEpoch
      ensures Proves(old(Safe()), Safe(), newEpoch, seen)
    {
      hide Proves, UnderReaders;
      RaisingProves(Safe(), newEpoch, seen);
      if newEpoch < GRACE_EPOCHS { return; }
      var candidate: nat := newEpoch - GRACE_EPOCHS;
      var i := 0;
      while i < |seen|
        invariant i <= |seen|
        invariant candidate == Candidate(newEpoch, Least(seen[..i]))
      {
        assert seen[..i + 1] == seen[..i] + [seen[i]];
        assert seen[..i + 1][..i] == seen[..i];
        var participant := seen[i];
        i := i + 1;
        if !participant.registered { continue; }
        if participant.stamp.Inactive? || participant.stamp.epoch > candidate { continue; }
        if participant.stamp.epoch == 0 {
          LeastIsMinimum(seen);
          assert participant in seen;
          return;
        }
        candidate := participant.stamp.epoch - 1;
      }
      assert seen[..i] == seen;
      if !hasSafeEpoch || candidate > safeEpoch {
        safeEpoch := candidate;
        hasSafeEpoch := true;
      }
    }

    /** What a drain with frontier `safe` does to one ring. */
    twostate predicate DrainedThrough(q: RetireQueue, safe: nat)
      requires old(q.Valid())
      reads q, q.entries
    {
      && q.Valid() && q.retired == old(q.retired)
      && q.deleted == old(q.deleted) + old(q.Pending())[..TakenBy(old(q.Pending()), safe)]
    }

    /** Drains every ring and counts what was freed. */
    method DrainRings() returns (reclaimed: nat)
      requires Valid()
      modifies queues, set q | q in queues :: q.entries
      ensures Valid()
      ensures reclaimed == TakenTotal(old(Pendings()), safeEpoch)
      ensures forall j :: 0 <= j < |queues| ==> DrainedThrough(queues[j], safeEpoch)
    {
      hide TakenTotal, TakenBy, Slot, Pendings;
      reclaimed := 0;
      ghost var was := Pendings();
      NothingTaken(was, safeEpoch);
      var i := 0;
      while i < |queues|
        invariant i <= |queues|
        invariant reclaimed == TakenTotal(was[..i], safeEpoch)
        invariant forall j :: i <= j < |queues| ==> unchanged(queues[j]) && unchanged(queues[j].entries)
        invariant forall j :: 0 <= j < i ==> DrainedThrough(queues[j], safeEpoch)
      {
        var n := queues[i].DrainThrough(safeEpoch);
        OneMoreTaken(was, i, safeEpoch);
        reclaimed := reclaimed + n;
        i := i + 1;
      }
      assert was[..i] == was;
    }

    /** One collection: drain every ring with the frontier proved before, then advance the epoch,
        then prove the next frontier from what the scan is shown. A call that finds another one
        under way does nothing. */
    method Collect(seen: seq<Observation>) returns (reclaimed: nat)
      requires Valid()
      modifies this, queues, set q | q in queues :: q.entries
      ensures Valid() && collecting == old(collecting)
      ensures old(collecting) ==> reclaimed == 0 && globalEpoch == old(globalEpoch) && Safe() == old(Safe())
      ensures !old(collecting) ==>
                && globalEpoch == old(globalEpoch) + 1
                && Proves(old(Safe()), Safe(), globalEpoch, seen)
                && reclaimed == if old(hasSafeEpoch) then TakenTotal(old(Pendings()), old(safeEpoch)) else 0
      ensures forall j :: 0 <= j < |queues| ==>
                if !old(collecting) && old(hasSafeEpoch) then DrainedThrough(queues[j], old(safeEpoch))
                else unchanged(queues[j]) && unchanged(queues[j].entries)
    {
      hide TakenTotal, TakenBy, Slot, Pendings, Least, Candidate, Proves;
      reclaimed := 0;
      if collecting {
        return;
      }
      collecting := true;
      if hasSafeEpoch {
        reclaimed := DrainRings();
      }
      globalEpoch := globalEpoch + 1;
      UpdateSafeFrontier(globalEpoch, seen);
      collecting := false;
    }
  }

  /** How many entries a collection takes from all rings. */
  ghost function TakenTotal(pendings: seq<seq<Entry>>, safe: nat): nat
    decreases |pendings|
  {
    if pendings == [] then 0
    else TakenTotal(pendings[..|pendings| - 1], safe) + TakenBy(pendings[|pendings| - 1], safe)
  }

  lemma NothingTaken(pendings: seq<seq<Entry>>, safe: nat)
    ensures TakenTotal(pendings[..0], safe) == 0
  {
  }

  lemma OneMoreTaken(pendings: seq<seq<Entry>>, i: nat, safe: nat)
    requires i < |pendings|
    ensures TakenTotal(pendings[..i + 1], safe) == TakenTotal(pendings[..i], safe) + TakenBy(pendings[i], safe)
  {
    assert pendings[..i + 1][..i] == pendings[..i];
  }
}
