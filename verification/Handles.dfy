/** The generation-tagged handle table, called by one thread at a time.

    A handle packs a kind (8 bits), a slot index (24 bits) and a generation (32 bits)
    into one word. `HandleRace` has the same table with every atomic access a step.
 */
module Handles {
  import opened Bits
  import opened RingIndex

  const MAX_HANDLES: nat := 8192
  const INVALID_KIND: nat := 0
  const NULL: nat := 0
  const WORD: nat := 0x1_0000_0000
  const KINDS: nat := 0x100
  const INDICES: nat := 0x100_0000
  /** The weight of the kind field: 24 index bits above 32 generation bits. */
  const HIGH: nat := 0x100_0000_0000_0000

  type Handle = h: nat | h < 0x1_0000_0000_0000_0000

  // ----- packing -----

  function MakeHandle(kind: nat, index: nat, generation: nat): nat {
    BitOr(BitOr(Shl(kind, 56), Shl(BitAnd(index, 0x00FF_FFFF), 32)), generation)
  }

  function KindOf(handle: nat): nat {
    BitAnd(Shr(handle, 56), 0xFF)
  }

  function IndexOf(handle: nat): nat {
    BitAnd(Shr(handle, 32), 0x00FF_FFFF)
  }

  function GenerationIn(handle: nat): nat {
    BitAnd(handle, 0xFFFF_FFFF)
  }

  lemma Powers()
    ensures Pow2(8) == KINDS && Pow2(24) == INDICES && Pow2(32) == WORD && Pow2(56) == HIGH
  {
    assert Pow2(8) == KINDS;
    PowerOfSum(8, 8);
    PowerOfSum(8, 16);
    PowerOfSum(8, 24);
    PowerOfSum(24, 32);
  }

  /** The three fields as quotients and remainders of the word. */
  lemma Fields(handle: Handle)
    ensures KindOf(handle) == handle / HIGH
    ensures IndexOf(handle) == (handle / WORD) % INDICES
    ensures GenerationIn(handle) == handle % WORD
    ensures handle == KindOf(handle) * HIGH + IndexOf(handle) * WORD + GenerationIn(handle)
  {
    hide BitAnd, Shr, Pow2;
    Powers();
    FieldAt(handle, 56, 8);
    FieldAt(handle, 32, 24);
    MaskIsSlot(handle, 32);
  }

  /** What packing computes: the fields side by side, the index cut to 24 bits. */
  lemma Packed(kind: nat, index: nat, generation: nat)
    requires generation < WORD
    ensures MakeHandle(kind, index, generation) == kind * HIGH + (index % INDICES) * WORD + generation
  {
    hide BitAnd, BitOr, Shl, Pow2;
    Powers();
    MaskIsSlot(index, 24);
    var low := index % INDICES;
    ShlMultiplies(kind, 56);
    ShlMultiplies(low, 32);
    OrOfDisjoint(kind, Shl(low, 32), 56);
    ShlMultiplies(kind * INDICES + low, 32);
    OrOfDisjoint(kind * INDICES + low, generation, 32);
  }

  /** Unpacking a packed handle gives the three fields back. */
  lemma UnpackPacked(kind: nat, index: nat, generation: nat)
    requires kind < KINDS && index < INDICES && generation < WORD
    ensures var h := MakeHandle(kind, index, generation);
            && h <= 0xFFFF_FFFF_FFFF_FFFF
            && KindOf(h) == kind && IndexOf(h) == index && GenerationIn(h) == generation
            && (generation != 0 ==> h != 0)
  {
    hide MakeHandle, KindOf, IndexOf, GenerationIn;
    Packed(kind, index, generation);
    var h := kind * HIGH + index * WORD + generation;
    Fields(h);
    DivModUnique(h, WORD, kind * INDICES + index, generation);
    DivModUnique(h, HIGH, kind, index * WORD + generation);
    DivModUnique(kind * INDICES + index, INDICES, kind, index);
  }

  /** Packing the fields of any 64-bit word gives the word back, so packing is a bijection. */
  lemma PackUnpacked(handle: Handle)
    ensures MakeHandle(KindOf(handle), IndexOf(handle), GenerationIn(handle)) == handle
  {
    hide MakeHandle, KindOf, IndexOf, GenerationIn;
    Fields(handle);
    Packed(KindOf(handle), IndexOf(handle), GenerationIn(handle));
  }

  // ----- generations -----

  /** The 32-bit successor that skips zero when it wraps. */
  function NextGeneration(generation: nat): (next: nat)
    ensures 0 < next < WORD
  {
    var next := (generation + 1) % WORD;
    if next == 0 then 1 else next
  }

  /** The generation a slot carries after its `n`-th registration. */
  function GenerationAt(n: nat): (generation: nat)
    ensures generation < WORD
    ensures n != 0 ==> generation != 0
  {
    if n == 0 then 0 else NextGeneration(GenerationAt(n - 1))
  }

  const CYCLE: nat := WORD - 1

  lemma {:induction false} GenerationClosed(n: nat)
    requires n != 0
    ensures GenerationAt(n) == (n - 1) % CYCLE + 1
  {
    if n != 1 {
      GenerationClosed(n - 1);
      var q, r := (n - 2) / CYCLE, (n - 2) % CYCLE;
      assert n - 2 == q * CYCLE + r;
      if r + 1 == CYCLE {
        DivModUnique(n - 1, CYCLE, q + 1, 0);
      } else {
        DivModUnique(n - 1, CYCLE, q, r + 1);
      }
    }
  }

  /** Two registrations of a slot share a generation exactly when a whole number of cycles
      of 2^32 - 1 registrations lies between them. */
  lemma SameGeneration(m: nat, n: nat)
    requires 0 < m <= n
    ensures GenerationAt(m) == GenerationAt(n) <==> (n - m) % CYCLE == 0
  {
    GenerationClosed(m);
    GenerationClosed(n);
  }

  // ----- the table -----

  datatype Slot = Slot(ptr: nat, generation: nat, kind: nat)

  ghost predicate SlotOk(s: Slot) {
    && s.generation < WORD && s.kind < KINDS
    && (s.ptr != NULL ==> s.generation != 0 && s.kind != INVALID_KIND)
  }

  ghost predicate TableOk(slots: seq<Slot>) {
    |slots| == MAX_HANDLES && forall i :: 0 <= i < |slots| ==> SlotOk(slots[i])
  }

  /** The registration a slot holds answers for a handle. */
  ghost predicate Names(s: Slot, handle: nat) {
    s.ptr != NULL && s.kind == KindOf(handle) && s.generation == GenerationIn(handle)
  }

  /** The pointer a handle stands for in a table at rest, or null. */
  ghost function Resolve(slots: seq<Slot>, handle: Handle, expected: nat): nat
    requires TableOk(slots)
  {
    if KindOf(handle) == expected && IndexOf(handle) < MAX_HANDLES
       && Names(slots[IndexOf(handle)], handle)
    then slots[IndexOf(handle)].ptr
    else NULL
  }

  /** A fresh registration is found under its handle, and no other handle that resolved
      before now resolves to anything else. */
  lemma RegistrationResolves(slots: seq<Slot>, i: nat, kind: nat, ptr: nat)
    requires TableOk(slots) && i < MAX_HANDLES && slots[i].ptr == NULL
    requires 0 < kind < KINDS && ptr != NULL
    ensures MakeHandle(kind, i, NextGeneration(slots[i].generation)) <= 0xFFFF_FFFF_FFFF_FFFF
    ensures var s := Slot(ptr, NextGeneration(slots[i].generation), kind);
            var h := MakeHandle(kind, i, s.generation);
            && TableOk(slots[i := s])
            && h != 0
            && Resolve(slots[i := s], h, kind) == ptr
            && Resolve(slots, h, kind) == NULL
            && (forall other: Handle, k :: Resolve(slots, other, k) != NULL ==>
                  Resolve(slots[i := s], other, k) == Resolve(slots, other, k))
  {
    hide MakeHandle, KindOf, IndexOf, GenerationIn;
    UnpackPacked(kind, i, NextGeneration(slots[i].generation));
  }

  /** After unregistration no kind finds the handle, and no other handle changes its meaning. */
  lemma UnregistrationForgets(slots: seq<Slot>, handle: Handle)
    requires TableOk(slots) && IndexOf(handle) < MAX_HANDLES
    requires Names(slots[IndexOf(handle)], handle)
    ensures var i := IndexOf(handle);
            var gone := slots[i := slots[i].(ptr := NULL, kind := INVALID_KIND)];
            && TableOk(gone)
            && (forall k :: Resolve(gone, handle, k) == NULL)
            && (forall other: Handle, k :: other != handle ==>
                  Resolve(gone, other, k) == Resolve(slots, other, k))
  {
    hide MakeHandle, KindOf, IndexOf, GenerationIn;
    forall other: Handle | KindOf(other) == KindOf(handle)
        && GenerationIn(other) == GenerationIn(handle) && IndexOf(other) == IndexOf(handle)
      ensures other == handle
    {
      PackUnpacked(other);
      PackUnpacked(handle);
    }
  }

  /** The handle with the same slot and generation and the given kind. */
  ghost function Relabelled(handle: Handle, kind: nat): (own: Handle)
    requires kind < KINDS
    ensures IndexOf(own) == IndexOf(handle) && GenerationIn(own) == GenerationIn(handle)
    ensures KindOf(own) == kind && (KindOf(handle) == kind ==> own == handle)
  {
    hide MakeHandle, KindOf, IndexOf, GenerationIn;
    Fields(handle);
    PackUnpacked(handle);
    UnpackPacked(kind, IndexOf(handle), GenerationIn(handle));
    MakeHandle(kind, IndexOf(handle), GenerationIn(handle))
  }

  /** The effect of unregistering a handle: nothing if it does not resolve, and otherwise it
      resolves no more while every other handle keeps its meaning. */
  ghost predicate Forgets(was: seq<Slot>, handle: Handle, expected: nat, now: seq<Slot>)
    requires TableOk(was)
  {
    if Resolve(was, handle, expected) == NULL then now == was else
      var i := IndexOf(handle);
      && now == was[i := was[i].(ptr := NULL, kind := INVALID_KIND)]
      && TableOk(now)
      && (forall k :: Resolve(now, handle, k) == NULL)
      && (forall other: Handle, k :: other != handle ==>
            Resolve(now, other, k) == Resolve(was, other, k))
  }

  ghost predicate AllTaken(slots: seq<Slot>) {
    forall i :: 0 <= i < |slots| ==> slots[i].ptr != NULL
  }

  /** A whole round of taken slots means that no slot is free. */
  lemma FullRound(slots: seq<Slot>, start: nat)
    requires start < |slots|
    requires forall j: nat :: j < |slots| ==> slots[Probe(start, j, |slots|)].ptr != NULL
    ensures AllTaken(slots)
  {
    forall i | 0 <= i < |slots| ensures slots[i].ptr != NULL {
      ProbeReaches(start, |slots|, i);
    }
  }

  class HandleTable {
    const slots: array<Slot>
    var nextIndex: nat

    ghost predicate Valid()
      reads this, slots
    {
      TableOk(slots[..]) && nextIndex < MAX_HANDLES
    }

    constructor ()
      ensures Valid() && fresh(slots)
      ensures forall h: Handle, k :: Resolve(slots[..], h, k) == NULL
    {
      nextIndex := 0;
      slots := new Slot[MAX_HANDLES](_ => Slot(NULL, 0, INVALID_KIND));
    }

    /** Takes the first free slot from the cursor on, and fails on a valid pointer and kind
        only when there is none. */
    method RegisterPtr(kind: nat, ptr: nat) returns (handle: Handle)
      requires Valid() && kind < KINDS
      modifies this, slots
      ensures Valid()
      ensures handle == 0 <==>
                ptr == NULL || kind == INVALID_KIND || forall i :: 0 <= i < MAX_HANDLES ==> old(slots[i].ptr) != NULL
      ensures handle == 0 ==> slots[..] == old(slots[..]) && nextIndex == old(nextIndex)
      ensures handle != 0 ==>
                var i := IndexOf(handle);
                var was := old(slots[..]);
                && i < MAX_HANDLES && was[i].ptr == NULL
                && slots[..] == was[i := Slot(ptr, NextGeneration(was[i].generation), kind)]
                && handle == MakeHandle(kind, i, NextGeneration(was[i].generation))
                && nextIndex == (i + 1) % MAX_HANDLES
      ensures handle != 0 ==>
                var was := old(slots[..]);
                exists d: nat :: d < MAX_HANDLES && IndexOf(handle) == Probe(old(nextIndex), d, MAX_HANDLES)
                                 && forall j: nat :: j < d ==> was[Probe(old(nextIndex), j, MAX_HANDLES)].ptr != NULL
      ensures handle != 0 ==>
                && Resolve(slots[..], handle, kind) == ptr
                && Resolve(old(slots[..]), handle, kind) == NULL
                && (forall other: Handle, k :: Resolve(old(slots[..]), other, k) != NULL ==>
                      Resolve(slots[..], other, k) == Resolve(old(slots[..]), other, k))
    {
      hide MakeHandle, KindOf, IndexOf, GenerationIn;
      handle := 0;
      if ptr == NULL || kind == INVALID_KIND {
        return;
      }
      var start := nextIndex;
      var attempt := 0;
      while attempt < MAX_HANDLES
        invariant 0 <= attempt <= MAX_HANDLES
        invariant slots[..] == old(slots[..]) && nextIndex == start && handle == 0
        invariant forall j: nat :: j < attempt ==> slots[Probe(start, j, MAX_HANDLES)].ptr != NULL
      {
        var index := Probe(start, attempt, MAX_HANDLES);
        if slots[index].ptr == NULL {
          var generation := NextGeneration(slots[index].generation);
          RegistrationResolves(slots[..], index, kind, ptr);
          UnpackPacked(kind, index, generation);
          ghost var was := slots[..];
          slots[index] := slots[index].(generation := generation);
          slots[index] := slots[index].(kind := kind);
          slots[index] := slots[index].(ptr := ptr);
          assert slots[..] == was[index := Slot(ptr, generation, kind)];
          nextIndex := (index + 1) % MAX_HANDLES;
          handle := MakeHandle(kind, index, generation);
          return;
        }
        attempt := attempt + 1;
      }
      FullRound(slots[..], start);
    }

    /** Clears the slot exactly when it holds the registration of that slot, generation and
        expected kind. The kind bits of the handle itself are not looked at, unlike in `Lookup`. */
    method UnregisterHandle(handle: Handle, expected: nat)
      requires Valid() && expected < KINDS
      modifies slots
      ensures Valid()
      ensures Forgets(old(slots[..]), Relabelled(handle, expected), expected, slots[..])
    {
      hide MakeHandle, KindOf, IndexOf, GenerationIn;
      ghost var own := Relabelled(handle, expected);
      Fields(handle);
      var index := IndexOf(handle);
      var generation := GenerationIn(handle);
      if handle == 0 || expected == INVALID_KIND || MAX_HANDLES <= index || generation == 0 {
        return;
      }
      if slots[index].ptr == NULL {
        return;
      }
      if slots[index].kind != expected || slots[index].generation != generation {
        return;
      }
      ghost var was := slots[..];
      UnregistrationForgets(was, own);
      slots[index] := slots[index].(ptr := NULL);
      slots[index] := slots[index].(kind := INVALID_KIND);
      assert slots[..] == was[index := was[index].(ptr := NULL, kind := INVALID_KIND)];
    }

    /** Finds the registered pointer, or null for a handle that is stale, of another kind or malformed. */
    method Lookup(handle: Handle, expected: nat) returns (ptr: nat)
      requires Valid()
      ensures ptr == Resolve(slots[..], handle, expected)
      ensures ptr != NULL ==>
                && KindOf(handle) == expected != INVALID_KIND && IndexOf(handle) < MAX_HANDLES
                && slots[IndexOf(handle)] == Slot(ptr, GenerationIn(handle), expected)
      ensures KindOf(handle) == expected && IndexOf(handle) < MAX_HANDLES ==>
                forall p :: p != NULL && slots[IndexOf(handle)] == Slot(p, GenerationIn(handle), expected) ==> ptr == p
    {
      hide MakeHandle, KindOf, IndexOf, GenerationIn;
      Fields(handle);
      if handle == 0 || expected == INVALID_KIND || KindOf(handle) != expected {
        return NULL;
      }
      var index := IndexOf(handle);
      var generation := GenerationIn(handle);
      if MAX_HANDLES <= index || generation == 0 {
        return NULL;
      }
      ptr := slots[index].ptr;
      if ptr == NULL {
        return NULL;
      }
      if slots[index].kind != expected || slots[index].generation != generation {
        return NULL;
      }
    }
  }
}
