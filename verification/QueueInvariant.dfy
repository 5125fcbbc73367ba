/** The invariant of every reachable state of the queue, and its preservation by every step. */
module QueueInvariant {
  import opened Wrappers
  import opened Bits
  import opened QueueModel

  // ---- Blocks ------------------------------------------------------------------

  /** What slot `j` must hold: the items in order from `front`, then possibly one element
      constructed but not published, raw memory elsewhere. */
  function Expected<T>(b: Block<T>, j: nat): Cell<T>
    requires j < b.mask + 1 && b.front < b.mask + 1
  {
    var k := Offset(j, b.front, b.mask + 1);
    if k == 0 && b.headGone then Raw
    else if k < |b.items| then Live(b.items[k])
    else if k == |b.items| && b.spare.Some? then Live(b.spare.value)
    else Raw
  }

  /** Both shadow indices lag the true ones: `localTail` is between the front and the tail,
      `localFront` is behind the front by fewer slots than remain. */
  ghost predicate IndicesOk<T>(b: Block<T>) {
    var size := b.mask + 1;
    && b.mask >= 1 && b.front < size && b.localFront < size
    && |b.items| <= b.mask && b.tail == Wrap(b.front + |b.items|, size)
    && b.known <= |b.items| && b.localTail == Wrap(b.front + b.known, size)
    && b.stale + |b.items| <= b.mask && b.front == Wrap(b.localFront + b.stale, size)
    && (b.headGone ==> b.items != [])
    && (b.spare.Some? ==> |b.items| < b.mask)
  }

  ghost predicate BlockOk<T>(b: Block<T>) {
    && IndicesOk(b)
    && |b.cells| == b.mask + 1
    && (forall j :: 0 <= j < |b.cells| ==> b.cells[j] == Expected(b, j))
  }

  ghost predicate BlocksOk<T>(q: Ring<T>) {
    forall id :: 0 <= id < |q.blocks| ==> BlockOk(q.blocks[id])
  }

  // ---- Ring --------------------------------------------------------------------

  /** Every block is in exactly one place: the arc, the free blocks, or outside the ring. */
  ghost predicate Shape<T>(q: Ring<T>) {
    var n := |q.blocks|;
    && q.arc != [] && q.arc[0] == q.frontBlock && q.arc[|q.arc| - 1] == q.tailBlock
    && (forall i :: 0 <= i < |q.arc| ==> q.arc[i] < n)
    && (forall i :: 0 <= i < |q.free| ==> q.free[i] < n)
    && (forall i, j :: 0 <= i < j < |q.arc| ==> q.arc[i] != q.arc[j])
    && (forall i, j :: 0 <= i < j < |q.free| ==> q.free[i] != q.free[j])
    && (forall i, j :: 0 <= i < |q.arc| && 0 <= j < |q.free| ==> q.arc[i] != q.free[j])
    && (q.loose.Some? ==> q.loose.value < n && q.loose.value !in q.arc && q.loose.value !in q.free)
    && (forall id :: 0 <= id < n ==> id in q.arc || id in q.free || q.loose == Some(id))
  }

  /** The links go round the arc, then the free blocks, then to the front block again. */
  ghost predicate Linked<T>(q: Ring<T>)
    requires Shape(q)
  {
    && (forall i :: 0 <= i < |q.arc| - 1 ==> q.blocks[q.arc[i]].next == q.arc[i + 1])
    && q.blocks[q.arc[|q.arc| - 1]].next == (if q.free == [] then q.arc[0] else q.free[0])
    && (forall i :: 0 <= i < |q.free| - 1 ==> q.blocks[q.free[i]].next == q.free[i + 1])
    && (q.free != [] ==> q.blocks[q.free[|q.free| - 1]].next == q.arc[0])
  }

  /** Blocks after the front block are non-empty, those strictly inside the arc are full, and
      those outside the arc are empty, except for the element about to be published there. */
  ghost predicate Occupied<T>(q: Ring<T>)
    requires Shape(q)
  {
    && (forall i :: 1 <= i < |q.arc| ==> q.blocks[q.arc[i]].items != [])
    && (forall i :: 1 <= i < |q.arc| - 1 ==> |q.blocks[q.arc[i]].items| == q.blocks[q.arc[i]].mask)
    && (forall i :: 0 <= i < |q.free| ==> q.blocks[q.free[i]].items == [] || (i == 0 && q.ready))
  }

  /** Constructions and destructions under way are where the history says. */
  ghost predicate Flagged<T>(q: Ring<T>) {
    && (forall id :: 0 <= id < |q.blocks| && q.blocks[id].spare.Some? ==> q.building == Some(id))
    && (forall id :: 0 <= id < |q.blocks| && q.blocks[id].headGone ==> q.dying == Some(id))
  }

  ghost predicate RingOk<T>(q: Ring<T>) {
    BlocksOk(q) && Shape(q) && Linked(q) && Occupied(q) && Flagged(q)
  }

  /** Block sizes are powers of two, none below that of the blocks first made. */
  ghost predicate MasksOk<T>(q: Ring<T>) {
    && (forall id :: 0 <= id < |q.blocks| ==> q.blocks[id].mask >= q.base && IsPow2(q.blocks[id].mask + 1))
    && IsPow2(q.largest) && q.largest >= 2 && q.largest > q.base
  }

  /** Room for `size` elements without the front block. */
  ghost predicate Roomy<T>(q: Ring<T>, size: nat) {
    q.base >= 1 && (q.base >= size || (|q.arc| + |q.free| - 1) * q.base >= size)
  }

  // ---- Threads -----------------------------------------------------------------

  ghost predicate TailFull<T>(q: Ring<T>)
    requires Shape(q)
  {
    |q.arc| == 1 || |q.blocks[q.tailBlock].items| == q.blocks[q.tailBlock].mask
  }

  /** The producer is about to move on to the first free block. */
  ghost predicate OnFree<T>(q: Ring<T>, p: Producer<T>)
    requires Shape(q)
  {
    TailFull(q) && q.free != [] && p.next == q.free[0]
  }

  /** The producer holds a new block that is not linked in yet. */
  ghost predicate OnLoose<T>(q: Ring<T>, p: Producer<T>)
    requires Shape(q)
  {
    TailFull(q) && q.loose == Some(p.next)
  }

  /** What the history says of the shared structure at each point of the producer's code. */
  ghost predicate ProducerFlags<T>(q: Ring<T>, p: Producer<T>) {
    && q.ready == (p.pc == PStoreTailBlock)
    && q.building == (if p.pc == PStoreTail then Some(p.block)
                      else if p.pc == PStoreFreeTail || p.pc == PStoreNewTail then Some(p.next) else None)
    && (p.pc !in {PConstructNew, PStoreNewTail, PStoreNewNext, PLinkNew} ==> q.loose.None?)
  }

  ghost predicate ProducerOk<T>(q: Ring<T>, p: Producer<T>)
    requires Shape(q)
  {
    && p.block < |q.blocks| && p.next < |q.blocks| && ProducerFlags(q, p)
    && (p.pc != PIdle ==> p.arg.Some?)
    && (p.pc !in {PIdle, PLoadTailBlock} ==> p.block == q.tailBlock)
    && var tb, nb := q.blocks[q.tailBlock], q.blocks[p.next];
       match p.pc
       case PIdle => true
       case PLoadTailBlock => true
       case PLoadTail => p.blockFront == tb.localFront
       case PReloadFront => p.blockTail == tb.tail && p.nextTail == Wrap(tb.tail + 1, tb.mask + 1)
       case PConstruct =>
         p.blockTail == tb.tail && p.nextTail == Wrap(tb.tail + 1, tb.mask + 1) && tb.stale + |tb.items| < tb.mask
       case PStoreTail =>
         p.nextTail == Wrap(tb.tail + 1, tb.mask + 1) && tb.stale + |tb.items| < tb.mask && tb.spare == p.arg
       case PLoadNext => TailFull(q)
       case PCompareFront => TailFull(q) && p.next == tb.next
       case PLoadFreeBlock => TailFull(q) && q.free != []
       case PLoadFreeFront => OnFree(q, p)
       case PLoadFreeTail => OnFree(q, p) && p.nextFront == nb.front && nb.stale == 0
       case PConstructFree => OnFree(q, p) && p.nextTail == nb.tail && nb.stale == 0
       case PStoreFreeTail => OnFree(q, p) && p.nextTail == nb.tail && nb.stale == 0 && nb.spare == p.arg
       case PAllocate => TailFull(q)
       case PConstructNew => OnLoose(q, p) && nb.front == 0 && nb.stale == 0 && nb.items == []
       case PStoreNewTail => OnLoose(q, p) && nb.front == 0 && nb.stale == 0 && nb.items == [] && nb.spare == p.arg
       case PStoreNewNext => OnLoose(q, p) && nb.items == [p.arg.value]
       case PLinkNew => OnLoose(q, p) && nb.items == [p.arg.value] && nb.next == tb.next
       case PStoreTailBlock => OnFree(q, p) && nb.items == [p.arg.value]
  }

  /** The element a `peek` pointer refers to is the oldest one held. */
  ghost predicate PointerOk<T>(q: Ring<T>, c: Consumer<T>)
    requires Shape(q)
  {
    c.pointer.Some? ==>
      var (id, i) := c.pointer.value;
      && id < |q.blocks| && q.blocks[id].items != [] && i == q.blocks[id].front
      && c.peeked == Some(q.blocks[id].items[0])
      && (id == q.arc[0] || (|q.arc| >= 2 && id == q.arc[1] && q.blocks[q.arc[0]].items == []))
  }

  /** The front block is used up and a later one has an element. */
  ghost predicate FrontDone<T>(q: Ring<T>)
    requires Shape(q)
  {
    |q.arc| >= 2 && q.blocks[q.frontBlock].items == []
  }

  ghost predicate ConsumerOk<T>(q: Ring<T>, c: Consumer<T>)
    requires Shape(q)
  {
    && c.block < |q.blocks| && c.next < |q.blocks|
    && (c.pc !in {CIdle, CLoadFrontBlock} ==> c.block == q.frontBlock)
    && q.dying == (if c.pc == CStoreFront then Some(c.block) else None)
    && var fb, nb := q.blocks[q.frontBlock], q.blocks[c.next];
       match c.pc
       case CIdle => true
       case CLoadFrontBlock => true
       case CLoadFront => c.blockTail == fb.localTail
       case CLoadTail => c.blockFront == fb.front
       case CLoadTailBlock => true
       case CReloadFrontBlock => |q.arc| >= 2
       case CReloadTail => |q.arc| >= 2
       case CReloadFront => |q.arc| >= 2 && fb.known == |fb.items| && c.blockTail == fb.localTail
       case CLoadNext => FrontDone(q)
       case CNextFront => FrontDone(q) && c.next == q.arc[1]
       case CNextTail => FrontDone(q) && c.next == q.arc[1] && c.nextFront == nb.front
       case CStoreFrontBlock =>
         FrontDone(q) && c.next == q.arc[1] && c.nextFront == nb.front && nb.known >= 1 && c.op != Peek
       case CMoveOut => c.blockFront == fb.front && fb.known >= 1 && c.op == Dequeue
       case CDestroy =>
         && c.blockFront == fb.front && fb.known >= 1 && c.op != Peek
         && (c.op == Dequeue ==> fb.items != [] && c.hand == Some(fb.items[0]))
       case CStoreFront =>
         && c.blockFront == fb.front && fb.known >= 1 && c.op != Peek && fb.headGone
         && fb.items != [] && c.hand == Some(fb.items[0])
  }

  ghost predicate Inv<T>(s: State<T>) {
    && !s.fault && RingOk(s.q) && MasksOk(s.q) && Roomy(s.q, s.size)
    && ProducerOk(s.q, s.p) && ConsumerOk(s.q, s.c) && PointerOk(s.q, s.c)
    && s.enqueued == s.dequeued + Contents(s.q)
  }

  // ---- Block updates -----------------------------------------------------------

  lemma ConstructBlock<T>(b: Block<T>, v: T)
    requires BlockOk(b) && b.spare.None? && |b.items| < b.mask
    ensures b.tail < |b.cells| && b.cells[b.tail].Raw?
    ensures BlockOk(b.(cells := b.cells[b.tail := Live(v)], spare := Some(v)))
  {
    assert b.cells[b.tail] == Expected(b, b.tail);
  }

  lemma PublishBlock<T>(b: Block<T>, tail: nat, v: T)
    requires BlockOk(b) && b.spare == Some(v) && b.stale + |b.items| < b.mask
    requires tail == Wrap(b.tail + 1, b.mask + 1)
    ensures BlockOk(AdvanceTail(b, tail, v))
  {
  }

  lemma ReadTail<T>(b: Block<T>)
    requires BlockOk(b)
    ensures BlockOk(RefreshTail(b))
    ensures b.front == b.tail <==> b.items == []
    ensures b.front == b.localTail <==> b.known == 0
  {
  }

  lemma ReadFront<T>(b: Block<T>)
    requires BlockOk(b)
    ensures BlockOk(RefreshFront(b))
    ensures Wrap(b.tail + 1, b.mask + 1) == b.front <==> |b.items| == b.mask
    ensures Wrap(b.tail + 1, b.mask + 1) == b.localFront <==> b.stale + |b.items| == b.mask
  {
  }

  lemma DestroyBlock<T>(b: Block<T>)
    requires BlockOk(b) && b.items != [] && !b.headGone
    ensures b.cells[b.front] == Live(b.items[0])
    ensures BlockOk(b.(cells := b.cells[b.front := Raw], headGone := true))
  {
    assert b.cells[b.front] == Expected(b, b.front);
  }

  lemma RemoveBlock<T>(b: Block<T>, front: nat)
    requires BlockOk(b) && b.known >= 1 && b.headGone && front == Wrap(b.front + 1, b.mask + 1)
    ensures BlockOk(AdvanceFront(b, front))
  {
  }

  lemma FreshBlockOk<T>(size: nat, next: nat)
    requires size >= 2
    ensures BlockOk(FreshBlock<T>(size, next))
  {
  }
}
