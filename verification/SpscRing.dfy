/** The single-producer single-consumer ring. Each side owns one cursor, keeps a private copy of
    it and of the other side's, and loads the other side's only when its copy says that there is
    no room, or nothing there.

    Both sides run concurrently: every load and store of a shared cursor and every cell that is
    copied is one step. A single push or pop is a batch of one, and consuming in place reads the
    same cells in the same order as popping a batch.
 */
module SpscRing {
  import opened Options
  import opened RingIndex

  datatype Producer<T> =
    | Ready
    | LoadTail(items: seq<T>)
    | Refresh(items: seq<T>, n: nat)
    | Fill(items: seq<T>, n: nat, i: nat)
    | Refused
    | Accepted(n: nat)

  datatype Consumer<T> =
    | Ready
    | LoadHead(count: nat)
    | Refresh(n: nat)
    | Read(n: nat, got: seq<T>)
    | Refused
    | Received(got: seq<T>)

  /** `pushed` and `popped` record what went through; no step depends on them. */
  datatype State<T> = State(buffer: seq<T>, head: nat, tail: nat,
                            producerHead: nat, producerTail: nat,
                            consumerHead: nat, consumerTail: nat,
                            producer: Producer<T>, consumer: Consumer<T>,
                            pushed: seq<T>, popped: seq<T>)

  datatype Action<T> =
    | Push(items: seq<T>)
    | Pop(count: nat)
    | Produce
    | Consume
    // the extra look at the other side's cursor that only ARM builds take
    | ProducerLooks
    | ConsumerLooks

  /** The cell for item `i` of a batch from position `first`: a run up to the end of the buffer,
      then a second one from its beginning. */
  function BatchCell(first: nat, n: nat, i: nat, capacity: nat): (cell: nat)
    requires 0 < capacity && i < n <= capacity
    ensures cell < capacity
  {
    var run := Min(n, capacity - Slot(first, capacity));
    if i < run then Slot(first, capacity) + i else i - run
  }

  /** The two runs are the slots of consecutive positions. */
  lemma BatchCellIsSlot(first: nat, n: nat, i: nat, capacity: nat)
    requires 0 < capacity && i < n <= capacity
    ensures BatchCell(first, n, i, capacity) == Slot(first + i, capacity)
  {
    SlotShift(first, i, capacity);
  }

  /** The slot `i` positions on, within a lap. */
  lemma SlotShift(first: nat, i: nat, capacity: nat)
    requires 0 < capacity && i < capacity
    ensures Slot(first + i, capacity)
         == if Slot(first, capacity) + i < capacity then Slot(first, capacity) + i
            else Slot(first, capacity) + i - capacity
  {
    var q, r := first / capacity, first % capacity;
    var base := q * capacity;
    assert (q + 1) * capacity == base + capacity;
    if r + i < capacity {
      DivModUnique(first + i, capacity, q, r + i);
    } else {
      DivModUnique(first + i, capacity, q + 1, r + i - capacity);
    }
  }

  // ----- steps -----

  ghost function Step<T>(s: State<T>, a: Action<T>): State<T> {
    match a
    case Push(items) => BeginPush(s, items)
    case Pop(count) => BeginPop(s, count)
    case Produce => ProducerStep(s)
    case Consume => ConsumerStep(s)
    case ProducerLooks =>
      if s.producer.Refresh? && s.producerHead != s.producerTail then s.(producerTail := s.tail) else s
    case ConsumerLooks =>
      if s.consumer.Refresh? && s.consumerHead < s.consumerTail + |s.buffer| then s.(consumerHead := s.head) else s
  }

  /** The room the producer believes in. */
  ghost function Room<T>(s: State<T>): int {
    |s.buffer| - (s.producerHead - s.producerTail)
  }

  ghost function BeginPush<T>(s: State<T>, items: seq<T>): State<T> {
    if !(s.producer.Ready? || s.producer.Refused? || s.producer.Accepted?) then s
    else if |items| == 0 then s.(producer := Producer.Accepted(0))
    else if Room(s) < |items| then s.(producer := LoadTail(items))
    else s.(producer := Producer.Refresh(items, |items|))
  }

  ghost function ProducerStep<T>(s: State<T>): State<T> {
    match s.producer
    case LoadTail(items) =>
      var room := |s.buffer| - (s.producerHead - s.tail);
      if room <= 0 then s.(producerTail := s.tail, producer := Producer.Refused)
      else s.(producerTail := s.tail, producer := Producer.Refresh(items, Min(|items|, room)))
    case Refresh(items, n) => s.(producer := Fill(items, n, 0))
    case Fill(items, n, i) =>
      if i < n && n <= |items| && n <= |s.buffer| then
        s.(buffer := s.buffer[BatchCell(s.producerHead, n, i, |s.buffer|) := items[i]],
           producer := Fill(items, n, i + 1))
      else if n <= |items| then
        s.(head := s.producerHead + n, producerHead := s.producerHead + n, producer := Producer.Accepted(n),
           pushed := s.pushed + items[..n])
      else s
    case _ => s
  }

  ghost function BeginPop<T>(s: State<T>, count: nat): State<T> {
    if !(s.consumer.Ready? || s.consumer.Refused? || s.consumer.Received?) then s
    else if count == 0 then s.(consumer := Received([]))
    else if s.consumerHead - s.consumerTail < count then s.(consumer := LoadHead(count))
    else s.(consumer := Consumer.Refresh(count))
  }

  ghost function ConsumerStep<T>(s: State<T>): State<T> {
    match s.consumer
    case LoadHead(count) =>
      var available := s.head - s.consumerTail;
      if available <= 0 then s.(consumerHead := s.head, consumer := Consumer.Refused)
      else s.(consumerHead := s.head, consumer := Consumer.Refresh(Min(count, available)))
    case Refresh(n) => s.(consumer := Read(n, []))
    case Read(n, got) =>
      if |got| < n && n <= |s.buffer| then
        s.(consumer := Read(n, got + [s.buffer[BatchCell(s.consumerTail, n, |got|, |s.buffer|)]]))
      else
        s.(tail := s.consumerTail + n, consumerTail := s.consumerTail + n, consumer := Received(got),
           popped := s.popped + got)
    case _ => s
  }

  ghost function Run<T>(s: State<T>, actions: seq<Action<T>>): State<T>
    decreases |actions|
  {
    if |actions| == 0 then s else Run(Step(s, actions[0]), actions[1..])
  }

  // ----- the invariant -----

  ghost predicate Initial<T>(s: State<T>) {
    && 0 < |s.buffer| && s.head == s.tail == 0
    && s.producerHead == s.producerTail == s.consumerHead == s.consumerTail == 0
    && s.producer.Ready? && s.consumer.Ready? && s.pushed == s.popped == []
  }

  /** The copies never overtake the cursors they copy. */
  ghost predicate Cursors<T>(s: State<T>) {
    && s.producerHead == s.head && s.consumerTail == s.tail
    && s.producerTail <= s.tail <= s.consumerHead <= s.head <= s.producerTail + |s.buffer|
  }

  /** The cells from `tail` to `head` hold what was pushed there. */
  ghost predicate Stored<T>(buffer: seq<T>, pushed: seq<T>, tail: nat, head: nat)
    requires 0 < |buffer| && head <= |pushed|
  {
    forall p: nat :: tail <= p < head ==> buffer[Slot(p, |buffer|)] == pushed[p]
  }

  ghost predicate ProducerFits<T>(producer: Producer<T>, buffer: seq<T>, head: nat, room: nat)
    requires 0 < |buffer|
  {
    match producer
    case LoadTail(items) => 0 < |items|
    case Refresh(items, n) => 0 < n <= |items| && n <= room
    case Fill(items, n, i) =>
      && i <= n && 0 < n <= |items| && n <= room
      && (forall j: nat :: j < i ==> buffer[Slot(head + j, |buffer|)] == items[j])
    case _ => true
  }

  ghost predicate ConsumerFits<T>(consumer: Consumer<T>, pushed: seq<T>, tail: nat, available: nat) {
    match consumer
    case LoadHead(count) => 0 < count
    case Refresh(n) => 0 < n <= available
    case Read(n, got) =>
      && 0 < n <= available && |got| <= n && tail + |got| <= |pushed|
      && got == pushed[tail..tail + |got|]
    case _ => true
  }

  ghost predicate Inv<T>(s: State<T>) {
    && 0 < |s.buffer| && Cursors(s)
    && |s.pushed| == s.head && s.popped == s.pushed[..s.tail]
    && Stored(s.buffer, s.pushed, s.tail, s.head)
    && ProducerFits(s.producer, s.buffer, s.head, s.producerTail + |s.buffer| - s.head)
    && ConsumerFits(s.consumer, s.pushed, s.tail, s.consumerHead - s.tail)
  }

  /** Writing the next cell of a batch leaves what is stored, and what was written, alone. */
  lemma FillKeeps<T>(s: State<T>)
    requires Inv(s) && s.producer.Fill? && s.producer.i < s.producer.n
    ensures Inv(ProducerStep(s))
  {
    var Fill(items, n, i) := s.producer;
    var capacity := |s.buffer|;
    BatchCellIsSlot(s.head, n, i, capacity);
    var p := s.head + i;
    var s' := ProducerStep(s);
    WindowDistinct(s.tail, capacity, p);
    forall q: nat | s.tail <= q < s.head ensures s'.buffer[Slot(q, capacity)] == s.pushed[q] {
      assert Slot(q, capacity) != Slot(p, capacity);
    }
    forall j: nat | j < i + 1 ensures s'.buffer[Slot(s.head + j, capacity)] == items[j] {
      if j < i {
        assert Slot(s.head + j, capacity) != Slot(p, capacity);
      }
    }
  }

  /** Publishing the head makes the batch part of what is stored. */
  lemma PublishKeeps<T>(s: State<T>)
    requires Inv(s) && s.producer.Fill? && s.producer.i == s.producer.n
    ensures Inv(ProducerStep(s))
  {
    hide Slot;
    var Fill(items, n, i) := s.producer;
    var s' := ProducerStep(s);
    forall p: nat | s'.tail <= p < s'.head ensures s'.buffer[Slot(p, |s'.buffer|)] == s'.pushed[p] {
      if s.head <= p {
        var j: nat := p - s.head;
        assert s.buffer[Slot(s.head + j, |s.buffer|)] == items[j];
      }
    }
    assert s'.popped == s'.pushed[..s'.tail];
  }

  lemma ProducerKeeps<T>(s: State<T>)
    requires Inv(s)
    ensures Inv(ProducerStep(s))
  {
    if s.producer.Fill? {
      if s.producer.i < s.producer.n {
        FillKeeps(s);
      } else {
        PublishKeeps(s);
      }
    } else {
      hide Slot, Stored, BatchCell;
    }
  }

  lemma ReadKeeps<T>(s: State<T>)
    requires Inv(s) && s.consumer.Read? && |s.consumer.got| < s.consumer.n
    ensures Inv(ConsumerStep(s))
  {
    hide Slot, BatchCell;
    var Read(n, got) := s.consumer;
    BatchCellIsSlot(s.tail, n, |got|, |s.buffer|);
    assert s.buffer[Slot(s.tail + |got|, |s.buffer|)] == s.pushed[s.tail + |got|];
    assert got + [s.pushed[s.tail + |got|]] == s.pushed[s.tail..s.tail + |got| + 1];
  }

  lemma ConsumerKeeps<T>(s: State<T>)
    requires Inv(s)
    ensures Inv(ConsumerStep(s))
  {
    if s.consumer.Read? && |s.consumer.got| < s.consumer.n {
      ReadKeeps(s);
    } else {
      hide Slot, BatchCell;
      if s.consumer.Read? {
        var n := s.consumer.n;
        assert s.popped + s.consumer.got == s.pushed[..s.tail + n];
      }
    }
  }

  lemma StepKeeps<T>(s: State<T>, a: Action<T>)
    requires Inv(s)
    ensures Inv(Step(s, a))
  {
    match a
    case Produce => ProducerKeeps(s);
    case Consume => ConsumerKeeps(s);
    case _ => hide ProducerStep, ConsumerStep, Slot, Stored;
  }

  lemma {:induction false} RunKeeps<T>(s: State<T>, actions: seq<Action<T>>)
    requires Inv(s)
    ensures Inv(Run(s, actions))
    decreases |actions|
  {
    hide Inv, Step;
    if |actions| != 0 {
      StepKeeps(s, actions[0]);
      RunKeeps(Step(s, actions[0]), actions[1..]);
    }
  }

  // ----- what runs guarantee -----

  /** The queue: what was pushed and not yet popped. */
  ghost function Queue<T>(s: State<T>): seq<T>
    requires s.tail <= s.head <= |s.pushed|
  {
    s.pushed[s.tail..s.head]
  }

  lemma Reachable<T>(s: State<T>, run: seq<Action<T>>)
    requires Initial(s)
    ensures Inv(Run(s, run))
  {
    RunKeeps(s, run);
  }

  /** What was popped and what is in the ring are what was pushed, in order, whatever the two
      sides have cached; the ring holds it in its cells. */
  lemma PoppedThenStored<T>(s: State<T>, run: seq<Action<T>>)
    requires Initial(s)
    ensures var r := Run(s, run);
            && r.tail <= r.head <= |r.pushed| && r.popped + Queue(r) == r.pushed
            && |Queue(r)| <= |r.buffer| && 0 < |r.buffer|
            && (forall p: nat :: r.tail <= p < r.head ==> r.buffer[Slot(p, |r.buffer|)] == r.pushed[p])
            && r.producerTail <= r.tail && r.consumerHead <= r.head
            && r.producerHead == r.head && r.consumerTail == r.tail
  {
    hide Run, Initial;
    Reachable(s, run);
  }

  /** Every step leaves the queue alone, or appends the batch the producer was given room for,
      or takes from the front exactly what the consumer was handed. */
  lemma StepsAreFifo<T>(s: State<T>, run: seq<Action<T>>, a: Action<T>)
    requires Initial(s)
    ensures var r := Run(s, run);
            var r' := Step(r, a);
            && r.tail <= r.head <= |r.pushed| && r'.tail <= r'.head <= |r'.pushed|
            && (a.Produce? && r.producer.Fill? && r.producer.i == r.producer.n ==>
                  && r.producer.n <= |r.producer.items|
                  && Queue(r') == Queue(r) + r.producer.items[..r.producer.n])
            && (a.Consume? && r.consumer.Read? && |r.consumer.got| == r.consumer.n ==>
                  Queue(r) == r.consumer.got + Queue(r'))
            && (!(a.Produce? && r.producer.Fill? && r.producer.i == r.producer.n)
                && !(a.Consume? && r.consumer.Read? && |r.consumer.got| == r.consumer.n) ==>
                  Queue(r') == Queue(r))
  {
    hide Run, Initial;
    Reachable(s, run);
    QueueStep(Run(s, run), a);
  }

  lemma QueueStep<T>(r: State<T>, a: Action<T>)
    requires Inv(r)
    ensures var r' := Step(r, a);
            && r.tail <= r.head <= |r.pushed| && r'.tail <= r'.head <= |r'.pushed|
            && (a.Produce? && r.producer.Fill? && r.producer.i == r.producer.n ==>
                  && r.producer.n <= |r.producer.items|
                  && Queue(r') == Queue(r) + r.producer.items[..r.producer.n])
            && (a.Consume? && r.consumer.Read? && |r.consumer.got| == r.consumer.n ==>
                  Queue(r) == r.consumer.got + Queue(r'))
            && (!(a.Produce? && r.producer.Fill? && r.producer.i == r.producer.n)
                && !(a.Consume? && r.consumer.Read? && |r.consumer.got| == r.consumer.n) ==>
                  Queue(r') == Queue(r))
  {
    hide Slot, BatchCell, Stored;
  }

  /** The two sides never touch the same cell. */
  lemma NoSharedCell<T>(s: State<T>, run: seq<Action<T>>)
    requires Initial(s)
    ensures var r := Run(s, run);
            r.producer.Fill? && r.consumer.Read?
            && r.producer.i < r.producer.n && |r.consumer.got| < r.consumer.n ==>
              && r.producer.n <= |r.buffer| && r.consumer.n <= |r.buffer|
              && BatchCell(r.producerHead, r.producer.n, r.producer.i, |r.buffer|)
                 != BatchCell(r.consumerTail, r.consumer.n, |r.consumer.got|, |r.buffer|)
  {
    hide Run, Initial, BatchCell;
    Reachable(s, run);
    var r := Run(s, run);
    if r.producer.Fill? && r.consumer.Read?
       && r.producer.i < r.producer.n && |r.consumer.got| < r.consumer.n {
      BatchCellIsSlot(r.head, r.producer.n, r.producer.i, |r.buffer|);
      BatchCellIsSlot(r.tail, r.consumer.n, |r.consumer.got|, |r.buffer|);
      WindowDistinct(r.tail, |r.buffer|, r.head + r.producer.i);
    }
  }

  /** A push is refused exactly if the ring is full when it loads the tail, and otherwise takes
      what fits then; a pop likewise. A side that does not look takes all that it asked for. */
  lemma RefusalsAreExact<T>(s: State<T>, run: seq<Action<T>>, items: seq<T>, count: nat)
    requires Initial(s)
    ensures var r := Run(s, run);
            var capacity := |r.buffer|;
            var p, c := Step(r, Produce).producer, Step(r, Consume).consumer;
            && r.tail <= r.head <= r.tail + capacity
            && (r.producer.LoadTail? ==>
                  p == if r.head == r.tail + capacity then Producer.Refused
                       else Producer.Refresh(r.producer.items,
                                             Min(|r.producer.items|, r.tail + capacity - r.head)))
            && (r.consumer.LoadHead? ==>
                  c == if r.head == r.tail then Consumer.Refused
                       else Consumer.Refresh(Min(r.consumer.count, r.head - r.tail)))
    ensures var r := Run(s, run);
            var taken := Step(r, Push(items)).producer == Producer.Refresh(items, |items|);
            taken && !r.producer.Refresh? ==> |items| <= r.tail + |r.buffer| - r.head
    ensures var r := Run(s, run);
            var taken := Step(r, Pop(count)).consumer == Consumer.Refresh(count);
            taken && !r.consumer.Refresh? ==> count <= r.head - r.tail
  {
    hide Run, Initial, Slot, Stored, ProducerFits, ConsumerFits;
    Reachable(s, run);
  }

  // ----- the ring itself -----

  class Ring<T> {
    const buffer: array<T>
    var head: nat
    var tail: nat
    var producerHead: nat
    var producerTail: nat
    var consumerHead: nat
    var consumerTail: nat

    ghost predicate Valid()
      reads this, buffer
    {
      && 0 < buffer.Length
      && producerHead == head && consumerTail == tail
      && producerTail <= tail <= consumerHead <= head <= producerTail + buffer.Length
    }

    /** The items in the ring, oldest first. */
    ghost function Contents(): (items: seq<T>)
      requires Valid()
      reads this, buffer
      ensures |items| == head - tail <= buffer.Length
      ensures forall i: nat :: i < |items| ==> items[i] == buffer[Slot(tail + i, buffer.Length)]
    {
      Cells(buffer[..], tail, head)
    }

    constructor (capacity: nat, filler: T)
      requires 0 < capacity
      ensures Valid() && fresh(buffer) && buffer.Length == capacity && Contents() == []
    {
      head, tail, producerHead, producerTail, consumerHead, consumerTail := 0, 0, 0, 0, 0, 0;
      buffer := new T[capacity](_ => filler);
    }

    /** Full is the only reason to refuse. */
    method Push(item: T) returns (ok: bool)
      requires Valid()
      modifies this, buffer
      ensures Valid()
      ensures ok <==> |old(Contents())| < buffer.Length
      ensures Contents() == if ok then old(Contents()) + [item] else old(Contents())
    {
      var position, limit := producerHead, producerTail;
      var next := position + 1;
      if buffer.Length < next - limit {
        limit := tail;
        producerTail := limit;
        if buffer.Length < next - limit {
          return false;
        }
      }
      ghost var was := buffer[..];
      buffer[Slot(position, buffer.Length)] := item;
      CellAppended(was, tail, head, item);
      assert buffer[..] == was[Slot(position, |was|) := item];
      producerHead := next;
      head := next;
      ok := true;
    }

    /** Empty is the only reason to find nothing. */
    method Pop() returns (item: Option<T>)
      requires Valid()
      modifies this
      ensures Valid()
      ensures item.None? <==> old(Contents()) == []
      ensures old(Contents()) == (if item.Some? then [item.value] else []) + Contents()
    {
      hide Slot;
      var position, limit := consumerTail, consumerHead;
      if limit <= position {
        limit := head;
        consumerHead := limit;
        if limit <= position {
          return None;
        }
      }
      CellsSplit(buffer[..], tail, tail + 1, head);
      item := Some(buffer[Slot(position, buffer.Length)]);
      consumerTail := position + 1;
      tail := position + 1;
    }

    /** Takes as many items as fit: a run up to the end of the buffer and one from its beginning. */
    method PushBatch(items: seq<T>) returns (n: nat)
      requires Valid()
      modifies this, buffer
      ensures Valid()
      ensures n == Min(|items|, buffer.Length - |old(Contents())|)
      ensures Contents() == old(Contents()) + items[..n]
    {
      hide Slot, Cells;
      if |items| == 0 {
        return 0;
      }
      var position, limit := producerHead, producerTail;
      var room := buffer.Length - (position - limit);
      if room < |items| {
        limit := tail;
        producerTail := limit;
        room := buffer.Length - (position - limit);
        if room == 0 {
          return 0;
        }
      }
      n := Min(|items|, room);
      ghost var was := Contents();
      CopyIn(position, items, n);
      producerHead := position + n;
      head := position + n;
      assert Contents() == was + items[..n];
    }

    /** The two copies into the buffer. */
    method CopyIn(position: nat, items: seq<T>, n: nat)
      requires Valid() && position == head && n <= |items| && head + n <= tail + buffer.Length
      modifies buffer
      ensures Valid() && Cells(buffer[..], tail, head + n) == old(Contents()) + items[..n]
    {
      hide Slot, Cells;
      var first := Min(n, buffer.Length - Slot(position, buffer.Length));
      assert Cells(buffer[..], tail, head + 0) == Contents() + items[..0];
      for i := 0 to first
        invariant Cells(buffer[..], tail, head + i) == old(Contents()) + items[..i]
      {
        BatchCellIsSlot(position, n, i, buffer.Length);
        CellAppended(buffer[..], tail, head + i, items[i]);
        ghost var was := buffer[..];
        buffer[Slot(position, buffer.Length) + i] := items[i];
        assert buffer[..] == was[Slot(head + i, |was|) := items[i]];
      }
      for i := first to n
        invariant Cells(buffer[..], tail, head + i) == old(Contents()) + items[..i]
      {
        BatchCellIsSlot(position, n, i, buffer.Length);
        CellAppended(buffer[..], tail, head + i, items[i]);
        ghost var was := buffer[..];
        buffer[i - first] := items[i];
        assert buffer[..] == was[Slot(head + i, |was|) := items[i]];
      }
    }

    /** Copies out as many items as there are, up to `count`. */
    method PopBatch(out: array<T>, count: nat) returns (n: nat)
      requires Valid() && count <= out.Length && out != buffer
      modifies this, out
      ensures Valid()
      ensures n == Min(count, |old(Contents())|)
      ensures old(Contents()) == out[..n] + Contents()
      ensures forall k :: n <= k < out.Length ==> out[k] == old(out[k])
    {
      hide Slot, Cells;
      ghost var cells := buffer[..];
      n := Available(count);
      CopyOut(out, n);
      CellsSplit(cells, tail, tail + n, head);
      consumerTail := consumerTail + n;
      tail := consumerTail;
      assert buffer[..] == cells;
    }

    /** The two copies out of the buffer. */
    method CopyOut(out: array<T>, n: nat)
      requires Valid() && n <= head - tail && n <= out.Length && out != buffer
      modifies out
      ensures Valid() && buffer[..] == old(buffer[..])
      ensures out[..n] == Cells(buffer[..], tail, tail + n)
      ensures forall k :: n <= k < out.Length ==> out[k] == old(out[k])
    {
      hide Slot, Cells;
      ghost var cells := buffer[..];
      var position := consumerTail;
      var first := Min(n, buffer.Length - Slot(position, buffer.Length));
      CellNext(cells, tail, tail);
      for i := 0 to first
        invariant buffer[..] == cells && out[..i] == Cells(cells, tail, tail + i)
        invariant forall k :: i <= k < out.Length ==> out[k] == old(out[k])
      {
        CopyNext(cells, position, n, i);
        out[i] := buffer[Slot(position, buffer.Length) + i];
        assert out[..i + 1] == out[..i] + [out[i]];
      }
      for i := first to n
        invariant buffer[..] == cells && out[..i] == Cells(cells, tail, tail + i)
        invariant forall k :: i <= k < out.Length ==> out[k] == old(out[k])
      {
        CopyNext(cells, position, n, i);
        out[i] := buffer[i - first];
        assert out[..i + 1] == out[..i] + [out[i]];
      }
    }

    /** Hands the items to the consumer in place, up to `count`; `seen` is what it saw. */
    method ConsumeBatch(count: nat) returns (n: nat, seen: seq<T>)
      requires Valid()
      modifies this
      ensures Valid()
      ensures n == Min(count, |old(Contents())|) == |seen|
      ensures old(Contents()) == seen + Contents()
    {
      hide Slot, Cells;
      ghost var cells := buffer[..];
      n := Available(count);
      seen := See(n);
      CellsSplit(cells, tail, tail + n, head);
      consumerTail := consumerTail + n;
      tail := consumerTail;
      assert buffer[..] == cells;
    }

    /** The two runs over the cells of a batch. */
    method See(n: nat) returns (seen: seq<T>)
      requires Valid() && n <= head - tail
      ensures seen == Cells(buffer[..], tail, tail + n)
    {
      hide Slot, Cells;
      ghost var cells := buffer[..];
      var begin := Slot(consumerTail, buffer.Length);
      var first := Min(n, buffer.Length - begin);
      seen := [];
      CellNext(cells, tail, tail);
      for i := 0 to first
        invariant seen == Cells(cells, tail, tail + i)
      {
        CopyNext(cells, tail, n, i);
        seen := seen + [buffer[begin + i]];
      }
      for i := first to n
        invariant seen == Cells(cells, tail, tail + i)
      {
        CopyNext(cells, tail, n, i);
        seen := seen + [buffer[i - first]];
      }
    }

    /** How many items a batch of `count` gets, with a look at the head only if the copy of it
        does not show enough. */
    method Available(count: nat) returns (n: nat)
      requires Valid()
      modifies `consumerHead
      ensures Valid() && n == Min(count, head - tail) && n <= consumerHead - tail
    {
      if count == 0 {
        return 0;
      }
      var available := consumerHead - consumerTail;
      if available < count {
        consumerHead := head;
        available := consumerHead - consumerTail;
        if available == 0 {
          return 0;
        }
      }
      n := Min(count, available);
    }

    method Size() returns (size: nat)
      requires Valid()
      ensures size == |Contents()|
    {
      size := head - tail;
    }

    method Reset()
      requires Valid()
      modifies this
      ensures Valid() && Contents() == []
    {
      head, tail, producerHead, producerTail, consumerHead, consumerTail := 0, 0, 0, 0, 0, 0;
    }
  }

  /** The cells of the positions from `first` to `last`. */
  ghost function Cells<T>(buffer: seq<T>, first: nat, last: nat): (items: seq<T>)
    requires 0 < |buffer| && first <= last
    ensures |items| == last - first
    ensures forall i: nat :: i < |items| ==> items[i] == buffer[Slot(first + i, |buffer|)]
  {
    seq(last - first, i requires 0 <= i < last - first => buffer[Slot(first + i, |buffer|)])
  }

  lemma CellsSplit<T>(buffer: seq<T>, first: nat, middle: nat, last: nat)
    requires 0 < |buffer| && first <= middle <= last
    ensures Cells(buffer, first, last) == Cells(buffer, first, middle) + Cells(buffer, middle, last)
  {
    hide Slot;
    var all := Cells(buffer, first, last);
    var l, r := Cells(buffer, first, middle), Cells(buffer, middle, last);
    forall i: nat | i < |all| ensures all[i] == (l + r)[i] {
      if middle - first <= i {
        var j: nat := i - (middle - first);
        assert r[j] == buffer[Slot(middle + j, |buffer|)];
      }
    }
  }

  lemma CellNext<T>(buffer: seq<T>, first: nat, last: nat)
    requires 0 < |buffer| && first <= last
    ensures Cells(buffer, first, first) == []
    ensures Cells(buffer, first, last + 1) == Cells(buffer, first, last) + [buffer[Slot(last, |buffer|)]]
  {
    hide Slot;
  }

  /** The cell that a two-run copy reads next. */
  lemma CopyNext<T>(buffer: seq<T>, first: nat, n: nat, i: nat)
    requires 0 < |buffer| && i < n <= |buffer|
    ensures Cells(buffer, first, first + i + 1) == Cells(buffer, first, first + i)
                                                  + [buffer[BatchCell(first, n, i, |buffer|)]]
  {
    hide Slot, Cells, BatchCell;
    BatchCellIsSlot(first, n, i, |buffer|);
    CellNext(buffer, first, first + i);
  }

  lemma CellAppended<T>(buffer: seq<T>, tail: nat, head: nat, item: T)
    requires 0 < |buffer| && tail <= head < tail + |buffer|
    ensures Cells(buffer[Slot(head, |buffer|) := item], tail, head + 1) == Cells(buffer, tail, head) + [item]
  {
    WindowDistinct(tail, |buffer|, head);
    hide Slot;
    var buffer' := buffer[Slot(head, |buffer|) := item];
    var now, was := Cells(buffer', tail, head + 1), Cells(buffer, tail, head) + [item];
    forall i: nat | i < |now| ensures now[i] == was[i] {
      assert now[i] == buffer'[Slot(tail + i, |buffer|)];
    }
  }
}
