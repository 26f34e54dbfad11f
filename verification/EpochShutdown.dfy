/** Destruction of the manager after a run: with the deleters its destructor calls, every accepted
    retirement has had its deleter called exactly once. */
module EpochShutdown {
  import opened RingIndex
  import opened EpochProtocol
  import opened EpochProofs

  /** The destructor's drain of one ring: it reads the cells of positions `k` to `head`. */
  ghost function DrainCells(q: Queue, capacity: nat, k: nat): multiset<Ptr>
    requires 0 < capacity && |q.entries| == capacity
    decreases q.head - k
  {
    if q.head <= k then multiset{} else
    var entry := q.entries[Slot(k, capacity)];
    (if entry.ptr != 0 && entry.deleter != 0 then multiset{entry.ptr} else multiset{})
    + DrainCells(q, capacity, k + 1)
  }

  /** The calls of the destructor over the first `n` participants. */
  ghost function Destruction(s: State, n: nat): multiset<Ptr>
    requires n <= |s.participants| && 0 < s.capacity
    requires forall j :: 0 <= j < n ==> |s.participants[j].queue.entries| == s.capacity
  {
    if n == 0 then multiset{}
    else Destruction(s, n - 1) + DrainCells(s.participants[n - 1].queue, s.capacity, s.participants[n - 1].queue.tail)
  }

  /** The pointer was retired in ring `j`, at position `k` or later. */
  ghost predicate RetiredFrom(places: map<Ptr, Place>, p: Ptr, j: nat, k: nat) {
    p in places && places[p].Retired? && places[p].owner == j && k <= places[p].index
  }

  /** The drain of a ring calls the deleter of exactly what was retired there and is left. */
  lemma {:induction false} DrainCounts(s: State, j: nat, k: nat, p: Ptr)
    requires Safety(s) && j < |s.participants| && s.collector.Idle?
    requires s.participants[j].queue.tail <= k <= s.participants[j].queue.head
    ensures 0 < s.capacity == |s.participants[j].queue.entries|
    ensures DrainCells(s.participants[j].queue, s.capacity, k)[p] == if RetiredFrom(s.places, p, j, k) then 1 else 0
    decreases s.participants[j].queue.head - k
  {
    hide Safety, RetiredFrom, DrainCells;
    var q := s.participants[j].queue;
    RingFacts(s, j, k);
    if k < q.head {
      DrainCounts(s, j, k + 1, p);
      NextCell(q, s.capacity, k);
      PlaceOfCell(s, j, k, p);
    } else {
      NoCellLeft(s, j, p);
      NoCells(q, s.capacity, k);
    }
  }

  lemma NextCell(q: Queue, capacity: nat, k: nat)
    requires 0 < capacity == |q.entries| && k < q.head
    requires q.entries[Slot(k, capacity)].ptr != 0 && q.entries[Slot(k, capacity)].deleter != 0
    ensures DrainCells(q, capacity, k)
         == multiset{q.entries[Slot(k, capacity)].ptr} + DrainCells(q, capacity, k + 1)
  {
    hide Slot;
  }

  lemma NoCells(q: Queue, capacity: nat, k: nat)
    requires 0 < capacity == |q.entries| && q.head <= k
    ensures DrainCells(q, capacity, k) == multiset{}
  {
  }

  /** What safety says of a ring at rest. */
  lemma RingFacts(s: State, j: nat, k: nat)
    requires Safety(s) && j < |s.participants| && s.collector.Idle?
    ensures var q := s.participants[j].queue;
            && 0 < s.capacity == |q.entries| && q.tail <= q.head == |q.retired|
            && (q.tail <= k < q.head ==>
                  && q.entries[Slot(k, s.capacity)] == q.retired[k]
                  && q.retired[k].ptr != 0 && q.retired[k].deleter != 0)
  {
    hide Readers, Frontier, Places, Held, Calls, Slot;
    assert Ring(s, j);
  }

  lemma PlaceOfCell(s: State, j: nat, k: nat, p: Ptr)
    requires Safety(s) && j < |s.participants| && k < |s.participants[j].queue.retired|
    ensures var x := s.participants[j].queue.retired[k].ptr;
            RetiredFrom(s.places, p, j, k) <==> RetiredFrom(s.places, p, j, k + 1) || p == x
    ensures !RetiredFrom(s.places, s.participants[j].queue.retired[k].ptr, j, k + 1)
  {
    hide Readers, Frontier, Queues, Held, Calls;
    assert Owns(s.places, j, s.participants[j]);
    if p in s.places {
      assert PlaceOk(s, p);
    }
  }

  lemma NoCellLeft(s: State, j: nat, p: Ptr)
    requires Safety(s) && j < |s.participants|
    ensures s.participants[j].queue.head == |s.participants[j].queue.retired|
    ensures !RetiredFrom(s.places, p, j, s.participants[j].queue.head)
  {
    hide Readers, Frontier, Held, Calls, Slot;
    assert Ring(s, j);
    if p in s.places {
      assert PlaceOk(s, p);
    }
  }

  lemma CellsThere(s: State)
    requires Safety(s)
    ensures 0 < s.capacity && forall j :: 0 <= j < |s.participants| ==> |s.participants[j].queue.entries| == s.capacity
  {
    hide Readers, Frontier, Places, Held, Calls, Slot;
    forall j: nat | j < |s.participants| ensures |s.participants[j].queue.entries| == s.capacity {
      assert Ring(s, j);
    }
  }

  lemma {:induction false} DestructionCounts(s: State, n: nat, p: Ptr)
    requires Safety(s) && s.collector.Idle? && n <= |s.participants|
    ensures 0 < s.capacity && forall j :: 0 <= j < n ==> |s.participants[j].queue.entries| == s.capacity
    ensures Destruction(s, n)[p]
         == if p in s.places && s.places[p].Retired? && s.places[p].owner < n
               && s.participants[s.places[p].owner].queue.tail <= s.places[p].index then 1 else 0
  {
    hide Safety, DrainCells;
    CellsThere(s);
    if n != 0 {
      DestructionCounts(s, n - 1, p);
      RingFacts(s, n - 1, 0);
      DrainCounts(s, n - 1, s.participants[n - 1].queue.tail, p);
    }
  }

  /** Exactly once over the manager's whole life: after any run that ends with no collection under
      way, and the destructor, the deleter of a pointer has been called once if the pointer was
      accepted for retirement, and never if it was not. */
  lemma WholeLifeOnce(participants: nat, capacity: nat, schedule: seq<Action>, p: Ptr)
    requires 0 < participants && 0 < capacity
    requires Run(participants, capacity, schedule).collector.Idle?
    ensures var s := Run(participants, capacity, schedule);
            && 0 < s.capacity
            && (forall j :: 0 <= j < |s.participants| ==> |s.participants[j].queue.entries| == s.capacity)
            && (s.calls + Destruction(s, |s.participants|))[p]
               == (if p in s.places && s.places[p].Retired? then 1 else 0)
  {
    hide Safety, Run, Destruction;
    var s := Run(participants, capacity, schedule);
    RunSafe(participants, capacity, schedule);
    DestructionCounts(s, |s.participants|, p);
    CallsSoFar(s, p);
  }

  lemma CallsSoFar(s: State, p: Ptr)
    requires Safety(s) && s.collector.Idle?
    ensures p in s.places && s.places[p].Retired? ==> s.places[p].owner < |s.participants|
    ensures s.calls[p]
         == if p in s.places && s.places[p].Retired?
               && s.places[p].index < s.participants[s.places[p].owner].queue.tail then 1 else 0
  {
    hide Readers, Frontier, Held, Queues;
    if p in s.places {
      assert PlaceOk(s, p);
    }
  }
}
