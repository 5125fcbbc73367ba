/** Every step of either thread keeps the queue's invariant. */
module QueueSteps {
  import opened Wrappers
  import opened Bits
  import opened QueueModel
  import opened QueueInvariant
  import opened QueueWrites

  /** The ring's block sizes are only ever added to. */
  ghost predicate SameMasks<T>(q: Ring<T>, q': Ring<T>) {
    && q'.base == q.base && q'.largest == q.largest && |q'.blocks| == |q.blocks|
    && |q'.arc| + |q'.free| >= |q.arc| + |q.free|
    && (forall id :: 0 <= id < |q.blocks| ==> q'.blocks[id].mask == q.blocks[id].mask)
  }

  lemma KeepMasks<T>(q: Ring<T>, q': Ring<T>, size: nat)
    requires MasksOk(q) && Roomy(q, size) && SameMasks(q, q')
    ensures MasksOk(q') && Roomy(q', size)
  {
    hide IsPow2;
    var n, n' := |q.arc| + |q.free| - 1, |q'.arc| + |q'.free| - 1;
    if n >= 0 { MulMono(n, n', q.base); }
  }

  lemma MulMono(a: nat, b: nat, c: nat)
    requires a <= b
    ensures a * c <= b * c
  {
    assert (b - a) * c >= 0;
  }

  lemma AddMasks<T>(q: Ring<T>, size: nat)
    requires MasksOk(q) && Roomy(q, size)
    ensures MasksOk(AddBlock(q)) && Roomy(AddBlock(q), size)
  {
    var q' := AddBlock(q);
    var n := NewBlockSize(q);
    assert n == q.largest || (n % 2 == 0 && n / 2 == q.largest);
    assert IsPow2(n);
    assert forall id :: 0 <= id < |q.blocks| ==> q'.blocks[id] == q.blocks[id];
    hide IsPow2;
    assert q'.blocks[|q.blocks|].mask + 1 == n;
  }

  // ---- A thread's move ------------------------------------------------------------

  lemma InOrder<T>(q: Ring<T>)
    requires RingOk(q)
    ensures Shape(q)
  {
  }

  /** A move of the producer keeps the invariant when its write does and its own registers
      fit the new structure. */
  lemma ProducerMoves<T>(s: State<T>, s': State<T>)
    requires Inv(s) && s'.c == s.c && s'.size == s.size && s'.dequeued == s.dequeued && !s'.fault
    requires RingOk(s'.q) && ProducerKeeps(s.q, s'.q) && ProducerOk(s'.q, s'.p)
    requires SameMasks(s.q, s'.q)
    requires s'.enqueued == s'.dequeued + Contents(s'.q)
    ensures Inv(s') && SameOldest(s.q, s'.q)
  {
    hide RingOk, ProducerOk, ConsumerOk, PointerOk, ProducerKeeps, MasksOk, Roomy, SameMasks, SameOldest, Contents;
    ConsumerStable(s.q, s'.q, s.c);
    InOrder(s.q);
    InOrder(s'.q);
    ProducerOldest(s.q, s'.q);
    KeepMasks(s.q, s'.q, s.size);
  }

  lemma ConsumerMoves<T>(s: State<T>, s': State<T>)
    requires Inv(s) && s'.p == s.p && s'.size == s.size && s'.enqueued == s.enqueued && !s'.fault
    requires RingOk(s'.q) && ConsumerKeeps(s.q, s'.q) && ConsumerOk(s'.q, s'.c) && PointerOk(s'.q, s'.c)
    requires SameMasks(s.q, s'.q)
    requires s'.enqueued == s'.dequeued + Contents(s'.q)
    ensures Inv(s')
  {
    hide RingOk, ProducerOk, ConsumerOk, PointerOk, ConsumerKeeps, MasksOk, Roomy, SameMasks;
    ProducerStable(s.q, s'.q, s.p);
    KeepMasks(s.q, s'.q, s.size);
  }

  /** A step that only changes the thread's registers. */
  lemma ProducerReads<T>(s: State<T>, s': State<T>)
    requires Inv(s) && s' == s.(p := s'.p) && ProducerOk(s.q, s'.p)
    ensures Inv(s') && SameOldest(s.q, s'.q)
  {
  }

  lemma ConsumerReads<T>(s: State<T>, s': State<T>)
    requires Inv(s) && s' == s.(c := s'.c) && ConsumerOk(s.q, s'.c) && PointerOk(s.q, s'.c)
    ensures Inv(s')
  {
  }

  /** The tail block's successor is the first free block, or the front block when there is none. */
  lemma TailNext<T>(q: Ring<T>)
    requires RingOk(q)
    ensures q.tailBlock < |q.blocks| && q.blocks[q.tailBlock].next < |q.blocks|
    ensures q.free != [] ==> q.blocks[q.tailBlock].next == q.free[0] != q.frontBlock
    ensures q.free == [] ==> q.blocks[q.tailBlock].next == q.frontBlock
  {
  }

  lemma FreeEmpty<T>(q: Ring<T>)
    requires RingOk(q) && q.free != []
    ensures q.free[0] < |q.blocks| && q.free[0] !in q.arc
    ensures q.blocks[q.free[0]].items == [] || q.ready
  {
  }

  lemma FrontIsTail<T>(q: Ring<T>)
    requires RingOk(q)
    ensures q.frontBlock == q.tailBlock <==> |q.arc| == 1
  {
  }

  lemma SecondBlock<T>(q: Ring<T>)
    requires RingOk(q) && |q.arc| >= 2
    ensures q.frontBlock < |q.blocks| && q.blocks[q.frontBlock].next == q.arc[1] < |q.blocks|
    ensures q.blocks[q.arc[1]].items != [] && q.arc[1] != q.frontBlock == q.arc[0]
  {
  }

  // ---- Producer ----------------------------------------------------------------

  lemma InvSane<T>(s: State<T>)
    requires Inv(s)
    ensures Sane(s) && (s.p.pc != PIdle ==> s.p.arg.Some?) && s.q.largest >= 2
    ensures BlockOk(s.q.blocks[s.q.tailBlock]) && IndicesOk(s.q.blocks[s.q.tailBlock])
    ensures IsPow2(s.q.blocks[s.q.tailBlock].mask + 1)
    ensures BlockOk(s.q.blocks[s.q.frontBlock]) && IndicesOk(s.q.blocks[s.q.frontBlock])
    ensures IsPow2(s.q.blocks[s.q.frontBlock].mask + 1)
    ensures BlockOk(s.q.blocks[s.p.next]) && IndicesOk(s.q.blocks[s.p.next])
    ensures IsPow2(s.q.blocks[s.p.next].mask + 1)
    ensures BlockOk(s.q.blocks[s.c.next]) && IndicesOk(s.q.blocks[s.c.next])
  {
    hide BlockOk, IsPow2, IndicesOk, Linked, Occupied, Flagged, ProducerFlags, PointerOk, Contents, Roomy;
    RingEnds(s.q);
    InvIndices(s.q.blocks[s.q.tailBlock]);
    InvIndices(s.q.blocks[s.q.frontBlock]);
    InvIndices(s.q.blocks[s.p.next]);
    InvIndices(s.q.blocks[s.c.next]);
  }

  lemma InvIndices<T>(b: Block<T>)
    requires BlockOk(b)
    ensures IndicesOk(b)
  {
  }

  lemma StepLoadTailBlock<T>(s: State<T>)
    requires Inv(s) && s.p.pc == PLoadTailBlock
    ensures Sane(s) && Inv(LoadTailBlock(s)) && SameOldest(s.q, LoadTailBlock(s).q)
  {
    hide RingOk, MasksOk, Roomy, ConsumerOk, PointerOk, BlockOk, IsPow2, BitAnd, ProducerKeeps, Contents, SameOldest;
    InvSane(s);
    ProducerReads(s, LoadTailBlock(s));
  }

  lemma StepLoadTail<T>(s: State<T>)
    requires Inv(s) && s.p.pc == PLoadTail
    ensures Sane(s) && Inv(LoadTail(s)) && SameOldest(s.q, LoadTail(s).q)
  {
    hide RingOk, MasksOk, Roomy, ConsumerOk, PointerOk, BlockOk, IsPow2, BitAnd, ProducerKeeps, Contents, SameOldest,
      TailFull, OnFree, OnLoose;
    InvSane(s);
    var b := s.q.blocks[s.p.block];
    AndMaskWraps(b.tail, b.mask);
    ReadFront(b);
    ProducerReads(s, LoadTail(s));
  }

  lemma StepReloadFront<T>(s: State<T>)
    requires Inv(s) && s.p.pc == PReloadFront
    ensures Sane(s) && Inv(ReloadFront(s)) && SameOldest(s.q, ReloadFront(s).q)
  {
    hide RingOk, MasksOk, Roomy, ConsumerOk, PointerOk, BlockOk, IsPow2, BitAnd, ProducerKeeps, Contents, SameOldest;
    InvSane(s);
    ReadFront(s.q.blocks[s.p.block]);
    WriteRefreshFront(s.q, s.p.block);
    ProducerMoves(s, ReloadFront(s));
  }

  lemma StepConstruct<T>(s: State<T>)
    requires Inv(s) && s.p.pc == PConstruct
    ensures Sane(s)
    ensures var t := Construct(s, s.p.block, s.p.blockTail, PStoreTail); Inv(t) && SameOldest(s.q, t.q)
  {
    hide RingOk, MasksOk, Roomy, ConsumerOk, PointerOk, BlockOk, IsPow2, BitAnd, ProducerKeeps, Contents, SameOldest;
    InvSane(s);
    WriteBuild(s.q, s.p.block, s.p.arg.value);
    ProducerMoves(s, Construct(s, s.p.block, s.p.blockTail, PStoreTail));
  }

  lemma StepStoreTail<T>(s: State<T>)
    requires Inv(s) && s.p.pc == PStoreTail
    ensures Sane(s) && Inv(StoreTail(s)) && SameOldest(s.q, StoreTail(s).q)
    ensures Contents(StoreTail(s).q) == Contents(s.q) + [s.p.arg.value]
  {
    hide RingOk, MasksOk, Roomy, ConsumerOk, PointerOk, BlockOk, IsPow2, BitAnd, ProducerKeeps, Contents, SameOldest;
    InvSane(s);
    WritePublish(s.q, s.p.nextTail, s.p.arg.value);
    ProducerMoves(s, StoreTail(s));
  }

  lemma StepLoadNext<T>(s: State<T>)
    requires Inv(s) && s.p.pc == PLoadNext
    ensures Sane(s) && Inv(LoadNext(s, PCompareFront)) && SameOldest(s.q, LoadNext(s, PCompareFront).q)
  {
    hide RingOk, MasksOk, Roomy, ConsumerOk, PointerOk, BlockOk, IsPow2, BitAnd, ProducerKeeps, Contents, SameOldest;
    InvSane(s);
    TailNext(s.q);
    ProducerReads(s, LoadNext(s, PCompareFront));
  }

  lemma StepCompareFront<T>(s: State<T>)
    requires Inv(s) && s.p.pc == PCompareFront
    ensures Sane(s) && Inv(CompareFront(s)) && SameOldest(s.q, CompareFront(s).q)
  {
    hide RingOk, MasksOk, Roomy, ConsumerOk, PointerOk, BlockOk, IsPow2, BitAnd, ProducerKeeps, Contents, SameOldest;
    InvSane(s);
    TailNext(s.q);
    ProducerReads(s, CompareFront(s).(enqueued := s.enqueued));
  }

  lemma StepLoadFreeBlock<T>(s: State<T>)
    requires Inv(s) && s.p.pc == PLoadFreeBlock
    ensures Sane(s) && Inv(LoadNext(s, PLoadFreeFront)) && SameOldest(s.q, LoadNext(s, PLoadFreeFront).q)
  {
    hide RingOk, MasksOk, Roomy, ConsumerOk, PointerOk, BlockOk, IsPow2, BitAnd, ProducerKeeps, Contents, SameOldest;
    InvSane(s);
    TailNext(s.q);
    ProducerReads(s, LoadNext(s, PLoadFreeFront));
  }

  lemma StepLoadFreeFront<T>(s: State<T>)
    requires Inv(s) && s.p.pc == PLoadFreeFront
    ensures Sane(s) && Inv(LoadFreeFront(s)) && SameOldest(s.q, LoadFreeFront(s).q)
  {
    hide RingOk, MasksOk, Roomy, ConsumerOk, PointerOk, BlockOk, IsPow2, BitAnd, ProducerKeeps, Contents, SameOldest;
    InvSane(s);
    WriteRefreshFront(s.q, s.p.next);
    ProducerMoves(s, LoadFreeFront(s));
  }

  lemma StepLoadFreeTail<T>(s: State<T>)
    requires Inv(s) && s.p.pc == PLoadFreeTail
    ensures Sane(s) && Inv(LoadFreeTail(s)) && SameOldest(s.q, LoadFreeTail(s).q)
  {
    hide RingOk, MasksOk, Roomy, ConsumerOk, PointerOk, BlockOk, IsPow2, BitAnd, ProducerKeeps, Contents, SameOldest;
    InvSane(s);
    FreeEmpty(s.q);
    ReadTail(s.q.blocks[s.p.next]);
    ProducerReads(s, LoadFreeTail(s));
  }

  lemma StepConstructFree<T>(s: State<T>)
    requires Inv(s) && s.p.pc == PConstructFree
    ensures Sane(s)
    ensures var t := Construct(s, s.p.next, s.p.nextTail, PStoreFreeTail); Inv(t) && SameOldest(s.q, t.q)
  {
    hide RingOk, MasksOk, Roomy, ConsumerOk, PointerOk, BlockOk, IsPow2, BitAnd, ProducerKeeps, Contents, SameOldest;
    InvSane(s);
    FreeEmpty(s.q);
    WriteBuild(s.q, s.p.next, s.p.arg.value);
    EndsStay(s.q, Build(s.q, s.p.next, s.p.nextTail, s.p.arg.value));
    ProducerMoves(s, Construct(s, s.p.next, s.p.nextTail, PStoreFreeTail));
  }

  lemma FreeTailWrap<T>(b: Block<T>)
    requires IndicesOk(b) && IsPow2(b.mask + 1)
    ensures b.tail <= b.mask && BitAnd(b.tail + 1, b.mask) == Wrap(b.tail + 1, b.mask + 1)
  {
    AndMaskWraps(b.tail, b.mask);
  }

  lemma EndsStay<T>(q: Ring<T>, q': Ring<T>)
    requires RingOk(q) && q.free != [] && q'.tailBlock == q.tailBlock && q'.arc == q.arc && q'.free == q.free
    requires |q'.blocks| == |q.blocks|
    requires forall id :: 0 <= id < |q.blocks| && id != q.free[0] ==> q'.blocks[id] == q.blocks[id]
    ensures q.tailBlock < |q.blocks| && q'.blocks[q.tailBlock] == q.blocks[q.tailBlock]
  {
  }

  /** The producer after publishing in the first free block. */
  lemma AheadOk<T>(s: State<T>, tail: nat)
    requires Inv(s) && s.p.pc == PStoreFreeTail && s.p.arg.Some?
    ensures var p' := s.p.(pc := PStoreTailBlock);
      s.p.next < |s.q.blocks| && ProducerOk(PublishAhead(s.q, s.p.next, tail, s.p.arg.value), p')
  {
    hide BlocksOk, Linked, Flagged, MasksOk, Roomy, ConsumerOk, PointerOk, Contents, SameMasks, IsPow2, BlockOk;
    FreeEmpty(s.q);
    EndsStay(s.q, PublishAhead(s.q, s.p.next, tail, s.p.arg.value));
  }

  lemma StepStoreFreeTail<T>(s: State<T>)
    requires Inv(s) && s.p.pc == PStoreFreeTail
    ensures Sane(s) && Inv(StoreFreeTail(s)) && SameOldest(s.q, StoreFreeTail(s).q)
  {
    hide RingOk, MasksOk, Roomy, ConsumerOk, PointerOk, BlockOk, IsPow2, BitAnd, ProducerKeeps, Contents, SameOldest,
      IndicesOk;
    InvSane(s);
    FreeEmpty(s.q);
    FreeTailWrap(s.q.blocks[s.p.next]);
    var tail := BitAnd(s.p.nextTail + 1, s.q.blocks[s.p.next].mask);
    FreeRoom(s);
    WritePublishAhead(s.q, s.p.next, tail, s.p.arg.value);
    AheadOk(s, tail);
    hide ProducerOk;
    ProducerMoves(s, StoreFreeTail(s));
  }

  lemma FreeRoom<T>(s: State<T>)
    requires Inv(s) && s.p.pc == PStoreFreeTail
    ensures s.p.next < |s.q.blocks|
    ensures var b := s.q.blocks[s.p.next]; b.spare == s.p.arg && b.stale + |b.items| < b.mask && s.p.nextTail == b.tail
    ensures s.q.building == Some(s.p.next) && s.q.free != [] && s.p.next == s.q.free[0]
  {
    hide MasksOk, Roomy, ConsumerOk, PointerOk, Contents, Linked, Flagged;
    FreeEmpty(s.q);
    InvIndices(s.q.blocks[s.p.next]);
  }

  lemma StepAllocate<T>(s: State<T>, m: bool)
    requires Inv(s) && s.p.pc == PAllocate
    ensures Sane(s) && Inv(Allocate(s, m)) && SameOldest(s.q, Allocate(s, m).q)
  {
    hide RingOk, MasksOk, Roomy, ConsumerOk, PointerOk, BlockOk, IsPow2, BitAnd, ProducerKeeps, Contents, SameOldest;
    InvSane(s);
    if m {
      WriteAddBlock(s.q);
      AddMasks(s.q, s.size);
      ConsumerStable(s.q, AddBlock(s.q), s.c);
      InOrder(s.q);
      InOrder(AddBlock(s.q));
      ProducerOldest(s.q, AddBlock(s.q));
      assert AddBlock(s.q).blocks[|s.q.blocks|] == FreshBlock<T>(NewBlockSize(s.q), 0);
      RingEnds(s.q);
      assert AddBlock(s.q).blocks[s.q.tailBlock] == s.q.blocks[s.q.tailBlock];
    } else {
      ProducerReads(s, Allocate(s, m).(enqueued := s.enqueued));
    }
  }

  lemma StepConstructNew<T>(s: State<T>)
    requires Inv(s) && s.p.pc == PConstructNew
    ensures Sane(s)
    ensures var t := Construct(s, s.p.next, 0, PStoreNewTail); Inv(t) && SameOldest(s.q, t.q)
  {
    hide RingOk, MasksOk, Roomy, ConsumerOk, PointerOk, BlockOk, IsPow2, BitAnd, ProducerKeeps, Contents, SameOldest;
    InvSane(s);
    WriteBuild(s.q, s.p.next, s.p.arg.value);
    ProducerMoves(s, Construct(s, s.p.next, 0, PStoreNewTail));
  }

  lemma StepStoreNewTail<T>(s: State<T>)
    requires Inv(s) && s.p.pc == PStoreNewTail
    ensures Sane(s) && Inv(StoreNewTail(s)) && SameOldest(s.q, StoreNewTail(s).q)
  {
    hide RingOk, MasksOk, Roomy, ConsumerOk, PointerOk, BlockOk, IsPow2, BitAnd, ProducerKeeps, Contents, SameOldest;
    InvSane(s);
    WritePublishNew(s.q, s.p.next, s.p.arg.value);
    ProducerMoves(s, StoreNewTail(s));
  }

  lemma StepStoreNewNext<T>(s: State<T>)
    requires Inv(s) && s.p.pc == PStoreNewNext
    ensures Sane(s) && Inv(StoreNewNext(s)) && SameOldest(s.q, StoreNewNext(s).q)
  {
    hide RingOk, MasksOk, Roomy, ConsumerOk, PointerOk, BlockOk, IsPow2, BitAnd, ProducerKeeps, Contents, SameOldest;
    InvSane(s);
    WriteSetNext(s.q, s.p.next, s.q.blocks[s.p.block].next);
    ProducerMoves(s, StoreNewNext(s));
  }

  lemma StepLinkNew<T>(s: State<T>)
    requires Inv(s) && s.p.pc == PLinkNew
    ensures Sane(s) && Inv(LinkNew(s)) && SameOldest(s.q, LinkNew(s).q)
  {
    hide RingOk, MasksOk, Roomy, ConsumerOk, PointerOk, BlockOk, IsPow2, BitAnd, ProducerKeeps, Contents, SameOldest,
      IndicesOk;
    InvSane(s);
    WriteSplice(s.q, s.p.next);
    ProducerMoves(s, LinkNew(s));
  }

  lemma StepStoreTailBlock<T>(s: State<T>)
    requires Inv(s) && s.p.pc == PStoreTailBlock
    ensures Sane(s) && Inv(StoreTailBlock(s)) && SameOldest(s.q, StoreTailBlock(s).q)
    ensures Contents(StoreTailBlock(s).q) == Contents(s.q) + [s.p.arg.value]
  {
    hide RingOk, MasksOk, Roomy, ConsumerOk, PointerOk, BlockOk, IsPow2, BitAnd, ProducerKeeps, Contents, SameOldest;
    InvSane(s);
    WriteMoveTailBlock(s.q, s.p.next, s.p.arg.value);
    ProducerMoves(s, StoreTailBlock(s));
  }

  // ---- Consumer ----------------------------------------------------------------

  lemma StepLoadFrontBlock<T>(s: State<T>)
    requires Inv(s) && s.c.pc == CLoadFrontBlock
    ensures Sane(s) && Inv(LoadFrontBlock(s))
  {
    hide RingOk, MasksOk, Roomy, ProducerOk, BlockOk, IsPow2, BitAnd, ConsumerKeeps, Contents;
    InvSane(s);
    ConsumerReads(s, LoadFrontBlock(s));
  }

  /** An element found in the front block is there to be peeked at or removed. */
  lemma FoundFront<T>(s: State<T>)
    requires Inv(s) && s.c.pc != CStoreFront && s.c.block == s.q.frontBlock && Sane(s)
    requires s.q.blocks[s.q.frontBlock].known >= 1
    ensures Inv(Found(s, s.q.frontBlock, s.q.blocks[s.q.frontBlock].front))
  {
    hide RingOk, MasksOk, Roomy, ProducerOk, BlockOk, IsPow2, BitAnd, ConsumerKeeps, Contents;
    InvSane(s);
    RingEnds(s.q);
    ConsumerReads(s, Found(s, s.q.frontBlock, s.q.blocks[s.q.frontBlock].front));
  }

  lemma StepLoadFront<T>(s: State<T>)
    requires Inv(s) && s.c.pc == CLoadFront
    ensures Sane(s) && Inv(LoadFront(s))
  {
    hide RingOk, MasksOk, Roomy, ProducerOk, BlockOk, IsPow2, BitAnd, ConsumerKeeps, Contents;
    InvSane(s);
    ReadTail(s.q.blocks[s.c.block]);
    if s.q.blocks[s.c.block].front != s.c.blockTail {
      FoundFront(s);
    } else {
      ConsumerReads(s, LoadFront(s));
    }
  }

  /** Refreshing `localTail` of the front block. */
  lemma Refreshed<T>(s: State<T>, c': Consumer<T>)
    requires Inv(s) && Sane(s) && s.c.block == s.q.frontBlock && s.c.pc in {CLoadTail, CReloadTail}
    requires c'.pc in {CLoadTail, CReloadFront, CLoadTailBlock} && c' == s.c.(pc := c'.pc, blockTail := c'.blockTail)
    requires c'.pc == CLoadTail ==> s.c.pc == CLoadTail
    requires c'.pc == CReloadFront ==> s.c.pc == CReloadTail && c'.blockTail == s.q.blocks[s.c.block].tail
    ensures Inv(s.(q := Put(s.q, s.c.block, RefreshTail(s.q.blocks[s.c.block])), c := c'))
    ensures Contents(Put(s.q, s.c.block, RefreshTail(s.q.blocks[s.c.block]))) == Contents(s.q)
  {
    hide RingOk, MasksOk, Roomy, ProducerOk, BlockOk, IsPow2, BitAnd, ConsumerKeeps, Contents;
    InvSane(s);
    var b := s.q.blocks[s.c.block];
    ReadTail(b);
    WriteRefreshTail(s.q, s.c.block);
    RingEnds(s.q);
    ConsumerMoves(s, s.(q := Put(s.q, s.c.block, RefreshTail(b)), c := c'));
  }

  lemma StepReadFrontTail<T>(s: State<T>)
    requires Inv(s) && s.c.pc == CLoadTail
    ensures Sane(s) && Inv(ReadFrontTail(s))
  {
    hide RingOk, MasksOk, Roomy, ProducerOk, BlockOk, IsPow2, BitAnd, ConsumerKeeps, Contents;
    InvSane(s);
    var b := s.q.blocks[s.c.block];
    ReadTail(b);
    if s.c.blockFront != b.tail {
      Refreshed(s, s.c);
      FoundFront(s.(q := Put(s.q, s.c.block, RefreshTail(b))));
    } else {
      Refreshed(s, s.c.(pc := CLoadTailBlock));
    }
  }

  lemma StepReadTailBlock<T>(s: State<T>)
    requires Inv(s) && s.c.pc == CLoadTailBlock
    ensures Sane(s) && Inv(ReadTailBlock(s))
  {
    hide RingOk, MasksOk, Roomy, ProducerOk, BlockOk, IsPow2, BitAnd, ConsumerKeeps, Contents;
    InvSane(s);
    RingEnds(s.q);
    FrontIsTail(s.q);
    ConsumerReads(s, ReadTailBlock(s));
  }

  lemma StepReloadFrontBlock<T>(s: State<T>)
    requires Inv(s) && s.c.pc == CReloadFrontBlock
    ensures Sane(s) && Inv(ReloadFrontBlock(s))
  {
    hide RingOk, MasksOk, Roomy, ProducerOk, BlockOk, IsPow2, BitAnd, ConsumerKeeps, Contents;
    InvSane(s);
    ConsumerReads(s, ReloadFrontBlock(s));
  }

  lemma StepReloadTail<T>(s: State<T>)
    requires Inv(s) && s.c.pc == CReloadTail
    ensures Sane(s) && Inv(ReloadTail(s))
  {
    hide RingOk, MasksOk, Roomy, ProducerOk, BlockOk, IsPow2, BitAnd, ConsumerKeeps, Contents;
    InvSane(s);
    Refreshed(s, ReloadTail(s).c);
  }

  lemma StepRecheckFront<T>(s: State<T>)
    requires Inv(s) && s.c.pc == CReloadFront
    ensures Sane(s) && Inv(RecheckFront(s))
  {
    hide RingOk, MasksOk, Roomy, ProducerOk, BlockOk, IsPow2, BitAnd, ConsumerKeeps, Contents;
    InvSane(s);
    ReadTail(s.q.blocks[s.c.block]);
    if s.q.blocks[s.c.block].front != s.c.blockTail {
      FoundFront(s);
    } else {
      ConsumerReads(s, RecheckFront(s));
    }
  }

  lemma StepLoadNextBlock<T>(s: State<T>)
    requires Inv(s) && s.c.pc == CLoadNext
    ensures Sane(s) && Inv(LoadNextBlock(s))
  {
    hide RingOk, MasksOk, Roomy, ProducerOk, BlockOk, IsPow2, BitAnd, ConsumerKeeps, Contents;
    InvSane(s);
    SecondBlock(s.q);
    ConsumerReads(s, LoadNextBlock(s));
  }

  lemma StepLoadNextFront<T>(s: State<T>)
    requires Inv(s) && s.c.pc == CNextFront
    ensures Sane(s) && Inv(LoadNextFront(s))
  {
    hide RingOk, MasksOk, Roomy, ProducerOk, BlockOk, IsPow2, BitAnd, ConsumerKeeps, Contents;
    InvSane(s);
    SecondBlock(s.q);
    ConsumerReads(s, LoadNextFront(s));
  }

  lemma StepLoadNextTail<T>(s: State<T>)
    requires Inv(s) && s.c.pc == CNextTail
    ensures Sane(s) && Inv(LoadNextTail(s))
  {
    hide RingOk, MasksOk, Roomy, ProducerOk, BlockOk, IsPow2, BitAnd, ConsumerKeeps, Contents;
    InvSane(s);
    SecondBlock(s.q);
    ReadTail(s.q.blocks[s.c.next]);
    if s.c.op == Peek {
      ConsumerReads(s, LoadNextTail(s));
    } else {
      WriteRefreshTail(s.q, s.c.next);
      ConsumerMoves(s, LoadNextTail(s));
    }
  }

  lemma StepStoreFrontBlock<T>(s: State<T>)
    requires Inv(s) && s.c.pc == CStoreFrontBlock
    ensures Sane(s) && Inv(StoreFrontBlock(s))
  {
    hide RingOk, MasksOk, Roomy, ProducerOk, BlockOk, IsPow2, BitAnd, ConsumerKeeps, Contents;
    InvSane(s);
    SecondBlock(s.q);
    WriteMoveFrontBlock(s.q);
    ConsumerMoves(s, StoreFrontBlock(s));
  }

  lemma StepMoveOut<T>(s: State<T>)
    requires Inv(s) && s.c.pc == CMoveOut
    ensures Sane(s) && Inv(MoveOut(s))
  {
    hide RingOk, MasksOk, Roomy, ProducerOk, BlockOk, IsPow2, BitAnd, ConsumerKeeps, Contents;
    InvSane(s);
    WriteDestroy(s.q);
    ConsumerReads(s, MoveOut(s));
  }

  lemma StepDestroy<T>(s: State<T>)
    requires Inv(s) && s.c.pc == CDestroy
    ensures Sane(s) && Inv(Destroy(s))
  {
    hide RingOk, MasksOk, Roomy, ProducerOk, BlockOk, IsPow2, BitAnd, ConsumerKeeps, Contents;
    InvSane(s);
    WriteDestroy(s.q);
    RingEnds(s.q);
    ConsumerMoves(s, Destroy(s));
  }

  lemma FreeFrontWrap<T>(b: Block<T>)
    requires IndicesOk(b) && IsPow2(b.mask + 1)
    ensures b.front <= b.mask && BitAnd(b.front + 1, b.mask) == Wrap(b.front + 1, b.mask + 1)
  {
    AndMaskWraps(b.front, b.mask);
  }

  lemma StepStoreFront<T>(s: State<T>)
    requires Inv(s) && s.c.pc == CStoreFront
    ensures Sane(s) && Inv(StoreFront(s))
    ensures s.c.hand.Some? && Contents(s.q) == [s.c.hand.value] + Contents(StoreFront(s).q)
    ensures s.c.peeked.Some? && s.c.pointer.Some? ==> s.c.peeked == s.c.hand
  {
    hide RingOk, MasksOk, Roomy, ProducerOk, BlockOk, IsPow2, BitAnd, ConsumerKeeps, Contents, IndicesOk;
    InvSane(s);
    var b := s.q.blocks[s.c.block];
    FreeFrontWrap(b);
    var front := BitAnd(s.c.blockFront + 1, b.mask);
    WriteRemove(s.q, front);
    RingEnds(s.q);
    ConsumerMoves(s, StoreFront(s));
  }
}
