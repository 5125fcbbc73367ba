/** Exactly which constructor arguments give a queue that keeps its promises. */
module QueueLimits {
  import opened Wrappers
  import opened Bits
  import opened QueueModel
  import opened QueueTheorems

  // ---- Running one thread ----------------------------------------------------------------

  function Repeat<T>(a: Action<T>, n: nat): seq<Action<T>> { seq(n, _ => a) }

  /** `n` times the same action. */
  function Go<T>(s: State<T>, a: Action<T>, n: nat): State<T>
    decreases n
  {
    if n == 0 then s else Go(Next(s, a), a, n - 1)
  }

  lemma {:induction false} RunAppend<T>(s: State<T>, a: seq<Action<T>>, b: seq<Action<T>>)
    ensures Run(s, a + b) == Run(Run(s, a), b)
    decreases |b|
  {
    hide Next;
    if b == [] {
      assert a + b == a;
    } else {
      var n := |a + b| - 1;
      assert (a + b)[..n] == a + b[..|b| - 1];
      RunAppend(s, a, b[..|b| - 1]);
    }
  }

  lemma RunOne<T>(s: State<T>, a: Action<T>)
    ensures Run(s, [a]) == Next(s, a)
  {
    hide Next;
    assert [a][..0] == [];
  }

  lemma {:induction false} RunRepeat<T>(s: State<T>, a: Action<T>, n: nat)
    ensures Run(s, Repeat(a, n)) == Go(s, a, n)
    decreases n
  {
    hide Next;
    if n > 0 {
      assert Repeat(a, n) == [a] + Repeat(a, n - 1);
      RunAppend(s, [a], Repeat(a, n - 1));
      RunOne(s, a);
      RunRepeat(Next(s, a), a, n - 1);
    }
  }

  lemma {:induction false} GoAgain<T>(s: State<T>, a: Action<T>, m: nat, n: nat)
    ensures Go(Go(s, a, m), a, n) == Go(s, a, m + n)
    decreases m
  {
    hide Next;
    if m > 0 { GoAgain(Next(s, a), a, m - 1, n); }
  }

  /** Remembering emptiness and fullness changes nothing else. */
  lemma Observed<T>(t: State<T>)
    ensures var o := Observe(t);
      && o.q == t.q && o.p == t.p.(sawFull := o.p.sawFull) && o.c == t.c.(sawEmpty := o.c.sawEmpty)
      && o.fault == t.fault
  {
    hide Contents;
  }

  /** The producer's next step, by name. */
  lemma Producing<T>(s: State<T>)
    requires !s.fault && Sane(s) && s.p.arg.Some?
    ensures var t := Next(s, Action.Produce(true));
      && (s.p.pc == PLoadTailBlock ==> t == Observe(LoadTailBlock(s)))
      && (s.p.pc == PLoadTail ==> t == Observe(LoadTail(s)))
      && (s.p.pc == PReloadFront ==> t == Observe(ReloadFront(s)))
      && (s.p.pc == PLoadNext ==> t == Observe(LoadNext(s, PCompareFront)))
      && (s.p.pc == PConstruct ==> t == Observe(Construct(s, s.p.block, s.p.blockTail, PStoreTail)))
      && (s.p.pc == PCompareFront ==> t == Observe(CompareFront(s)))
      && (s.p.pc == PLoadFreeBlock ==> t == Observe(LoadNext(s, PLoadFreeFront)))
      && (s.p.pc == PLoadFreeFront ==> t == Observe(LoadFreeFront(s)))
      && (s.p.pc == PLoadFreeTail ==> t == Observe(LoadFreeTail(s)))
      && (s.p.pc == PConstructFree ==> t == Observe(Construct(s, s.p.next, s.p.nextTail, PStoreFreeTail)))
      && (s.p.pc == PStoreFreeTail ==> t == Observe(StoreFreeTail(s)))
      && (s.p.pc == PAllocate ==> t == Observe(Allocate(s, true)))
      && (s.p.pc == PConstructNew ==> t == Observe(Construct(s, s.p.next, 0, PStoreNewTail)))
      && (s.p.pc == PStoreNewTail ==> t == Observe(StoreNewTail(s)))
      && (s.p.pc == PStoreNewNext ==> t == Observe(StoreNewNext(s)))
      && (s.p.pc == PLinkNew ==> t == Observe(LinkNew(s)))
      && (s.p.pc == PStoreTailBlock ==> t == Observe(StoreTailBlock(s)))
  {
    hide Observe, LoadTailBlock, LoadTail, ReloadFront, LoadNext, Construct, CompareFront, LoadFreeFront,
      LoadFreeTail, StoreFreeTail, Allocate, StoreNewTail, StoreNewNext, LinkNew, StoreTailBlock, ConsumerStep;
  }

  /** The consumer's next step, by name. */
  lemma Consuming<T>(s: State<T>)
    requires !s.fault && Sane(s)
    ensures var t := Next(s, Action.Consume);
      && (s.c.pc == CLoadFrontBlock ==> t == Observe(LoadFrontBlock(s)))
      && (s.c.pc == CLoadFront ==> t == Observe(LoadFront(s)))
      && (s.c.pc == CLoadTail ==> t == Observe(ReadFrontTail(s)))
      && (s.c.pc == CLoadTailBlock ==> t == Observe(ReadTailBlock(s)))
      && (s.c.pc == CReloadFrontBlock ==> t == Observe(ReloadFrontBlock(s)))
      && (s.c.pc == CReloadTail ==> t == Observe(ReloadTail(s)))
      && (s.c.pc == CReloadFront ==> t == Observe(RecheckFront(s)))
      && (s.c.pc == CLoadNext ==> t == Observe(LoadNextBlock(s)))
      && (s.c.pc == CNextFront ==> t == Observe(LoadNextFront(s)))
      && (s.c.pc == CNextTail ==> t == Observe(LoadNextTail(s)))
      && (s.c.pc == CStoreFrontBlock ==> t == Observe(StoreFrontBlock(s)))
      && (s.c.pc == CMoveOut ==> t == Observe(MoveOut(s)))
      && (s.c.pc == CDestroy ==> t == Observe(Destroy(s)))
      && (s.c.pc == CStoreFront ==> t == Observe(StoreFront(s)))
  {
    hide Observe, LoadFrontBlock, LoadFront, ReadFrontTail, ReadTailBlock, ReloadFrontBlock, ReloadTail, RecheckFront,
      LoadNextBlock, LoadNextFront, LoadNextTail, StoreFrontBlock, MoveOut, Destroy, StoreFront, ProducerStep;
  }

  lemma Masks()
    ensures BitAnd(1, 0) == 0 && BitAnd(2, 1) == 0 && BitAnd(1, 1) == 1
  {
    assert BitAnd(2, 1) == 2 * BitAnd(1, 0);
  }

  // ---- size = 0 --------------------------------------------------------------------------

  ghost predicate Core<T>(s: State<T>, blocks: seq<Block<T>>, frontBlock: nat, tailBlock: nat, largest: nat) {
    && !s.fault && s.q.blocks == blocks && s.q.frontBlock == frontBlock && s.q.tailBlock == tailBlock
    && s.q.largest == largest && s.q.maxBlock >= 2
  }

  /** The constructor's block for `size = 0`: one cell, so that it never has room. */
  function Tiny<T>(next: nat): Block<T> { Block(0, 0, 0, 0, next, [Raw], 0, [], 0, 0, false, None) }

  /** The block `enqueue` adds, holding `v`. */
  function Added<T>(v: T): Block<T> { Block(0, 1, 1, 0, 0, [Live(v), Raw], 1, [v], 1, 0, false, None) }

  /** The one-cell block once it has been given an element: it still looks empty. */
  function Lost<T>(v: T): Block<T> { Block(0, 0, 0, 0, 1, [Live(v)], 0, [v], 0, 0, false, None) }

  /** The added block after its element has been removed. */
  function Spent<T>(): Block<T> { Block(1, 1, 1, 0, 0, [Raw, Raw], 1, [], 0, 1, false, None) }

  /** The producer is at the start of `enqueue(v)`. */
  ghost predicate Enqueuing<T>(s: State<T>, v: T) {
    && s.p.pc == PLoadTailBlock && s.p.arg == Some(v) && s.p.canAlloc
    && s.p.block < |s.q.blocks| && s.p.next < |s.q.blocks|
  }

  ghost predicate ConsumerIn<T>(s: State<T>) { s.c.block < |s.q.blocks| && s.c.next < |s.q.blocks| }

  /** An `enqueue` that finds the tail block `b` full: the reads of its indices, */
  lemma ReadsFull<T>(s: State<T>, v: T, b: Block<T>) returns (t: State<T>)
    requires !s.fault && Sane(s) && Enqueuing(s, v) && b == s.q.blocks[s.q.tailBlock]
    requires BitAnd(b.tail + 1, b.mask) == b.front == b.localFront && b.stale == 0
    ensures t == Next(Next(Next(s, Action.Produce(true)), Action.Produce(true)), Action.Produce(true))
    ensures !t.fault && t.q == s.q && t.c == s.c.(sawEmpty := t.c.sawEmpty) && t.p.pc == PLoadNext && t.p.canAlloc
    ensures t.p.block == s.q.tailBlock && t.p.arg == Some(v) && t.p.next == s.p.next
  {
    hide BitAnd, Next, Observe, Put, RefreshFront, LoadNext, Construct, CompareFront, LoadFreeFront, LoadFreeTail,
      StoreFreeTail, Allocate, StoreNewTail, StoreNewNext, LinkNew, StoreTailBlock;
    var a: Action<T> := Action.Produce(true);
    Producing(s);
    Observed(LoadTailBlock(s));
    var s1 := Next(s, a);
    Producing(s1);
    Observed(LoadTail(s1));
    var s2 := Next(s1, a);
    Producing(s2);
    SameBlock(s.q, s.q.tailBlock, b);
    Observed(ReloadFront(s2));
    t := Next(s2, a);
  }

  /** Refreshing an index that is up to date changes nothing. */
  lemma SameBlock<T>(q: Ring<T>, i: nat, b: Block<T>)
    requires i < |q.blocks| && b == q.blocks[i]
    ensures b.front == b.localFront && b.stale == 0 ==> Put(q, i, RefreshFront(b)) == q
    ensures b.tail == b.localTail && b.known == |b.items| ==> Put(q, i, RefreshTail(b)) == q
  {
    assert q.blocks[i := b] == q.blocks;
  }

  /** and the comparison of the next block with the front block. */
  lemma FindsFull<T>(s: State<T>, v: T, b: Block<T>) returns (t: State<T>)
    requires !s.fault && Sane(s) && Enqueuing(s, v) && b == s.q.blocks[s.q.tailBlock]
    requires BitAnd(b.tail + 1, b.mask) == b.front == b.localFront && b.stale == 0 && b.next < |s.q.blocks|
    ensures t == Go(s, Action.Produce(true), 5)
    ensures !t.fault && t.q == s.q && t.c == s.c.(sawEmpty := t.c.sawEmpty)
    ensures t.p.block == s.q.tailBlock && t.p.arg == Some(v) && t.p.next == b.next
    ensures t.p.pc == if b.next == s.q.frontBlock then PAllocate else PLoadFreeBlock
  {
    hide BitAnd, Next, Observe, LoadTailBlock, LoadTail, ReloadFront, Construct, LoadFreeFront, LoadFreeTail,
      StoreFreeTail, Allocate, StoreNewTail, StoreNewNext, LinkNew, StoreTailBlock;
    var a: Action<T> := Action.Produce(true);
    var s3 := ReadsFull(s, v, b);
    Producing(s3);
    Observed(LoadNext(s3, PCompareFront));
    var s4 := Next(s3, a);
    Producing(s4);
    Observed(CompareFront(s4));
    t := Next(s4, a);
    FiveSteps(s, a);
  }

  lemma FiveSteps<T>(s: State<T>, a: Action<T>)
    ensures Go(s, a, 5) == Next(Next(Next(Next(Next(s, a), a), a), a), a)
    ensures Go(s, a, 6) == Next(Go(s, a, 5), a)
  {
    hide Next;
    GoAgain(s, a, 5, 1);
    assert Go(Go(s, a, 5), a, 1) == Next(Go(s, a, 5), a);
  }

  lemma TwoRaw<T>()
    ensures FreshBlock<T>(2, 0) == Block(0, 0, 0, 0, 0, [Raw, Raw], 1, [], 0, 0, false, None)
  {
    assert RawCells<T>(2) == [Raw, Raw];
  }

  /** The first `enqueue` makes a block of two cells and fills one, */
  lemma MakesBlock<T>(s: State<T>, v: T) returns (t: State<T>)
    requires Core(s, [Tiny(0)], 0, 0, 1) && s.p.pc == PAllocate && s.p.block == 0 && s.p.arg == Some(v) && ConsumerIn(s)
    requires s.p.next == 0
    ensures t == Go(s, Action.Produce(true), 3)
    ensures Core(t, [Tiny(0), Added(v)], 0, 0, 2) && t.p.pc == PStoreNewNext && t.c == s.c.(sawEmpty := t.c.sawEmpty)
    ensures t.p.block == 0 && t.p.next == 1 && t.p.arg == Some(v)
  {
    hide BitAnd, Next, Observe, FreshBlock, LoadTailBlock, LoadTail, ReloadFront, LoadNext, CompareFront,
      LoadFreeFront, LoadFreeTail, StoreFreeTail, StoreNewNext, LinkNew, StoreTailBlock;
    var a: Action<T> := Action.Produce(true);
    TwoRaw<T>();
    Producing(s);
    Observed(Allocate(s, true));
    var s1 := Next(s, a);
    assert s1.q.blocks == [Tiny(0), FreshBlock(2, 0)];
    Producing(s1);
    Observed(Construct(s1, 1, 0, PStoreNewTail));
    var s2 := Next(s1, a);
    assert s2.q.blocks[1].cells == [Live(v), Raw];
    Producing(s2);
    Observed(StoreNewTail(s2));
    t := Next(s2, a);
    var none: seq<T> := [];
    assert none + [v] == [v];
    assert t.q.blocks == [Tiny(0), Added(v)];
    ThreeSteps(s, a);
  }

  lemma ThreeSteps<T>(s: State<T>, a: Action<T>)
    ensures Go(s, a, 3) == Next(Next(Next(s, a), a), a)
  {
    hide Next;
    assert Go(s, a, 3) == Go(Next(s, a), a, 2) == Go(Next(Next(s, a), a), a, 1);
  }

  /** and links it in. */
  lemma LinksBlock<T>(s: State<T>, v: T) returns (t: State<T>)
    requires Core(s, [Tiny(0), Added(v)], 0, 0, 2) && s.p.pc == PStoreNewNext && s.p.block == 0 && s.p.next == 1
    requires s.p.arg == Some(v) && ConsumerIn(s)
    ensures t == Go(s, Action.Produce(true), 3)
    ensures Core(t, [Tiny(1), Added(v)], 0, 1, 2) && t.p.pc == PIdle && t.c == s.c.(sawEmpty := t.c.sawEmpty)
    ensures t.p.block == 0 && t.p.next == 1
  {
    hide BitAnd, Next, Observe, LoadTailBlock, LoadTail, ReloadFront, LoadNext, Construct, CompareFront,
      LoadFreeFront, LoadFreeTail, StoreFreeTail, Allocate, StoreNewTail;
    var a: Action<T> := Action.Produce(true);
    Producing(s);
    Observed(StoreNewNext(s));
    var s1 := Next(s, a);
    assert s1.q.blocks == [Tiny(0), Added(v)];
    Producing(s1);
    Observed(LinkNew(s1));
    var s2 := Next(s1, a);
    assert s2.q.blocks == [Tiny(1), Added(v)];
    Producing(s2);
    Observed(StoreTailBlock(s2));
    t := Next(s2, a);
    ThreeSteps(s, a);
  }

  /** A consumer that finds its front block empty though the tail block is another, up to the
      look at the next block. */
  lemma LooksFurther<T>(s: State<T>, b: Block<T>) returns (t: State<T>)
    requires !s.fault && Sane(s) && s.c.pc == CLoadFrontBlock && b == s.q.blocks[s.q.frontBlock]
    requires b.front == b.tail == b.localTail && b.known == |b.items| == 0 && s.q.frontBlock != s.q.tailBlock
    requires b.next < |s.q.blocks|
    ensures t == Go(s, Action.Consume, 8)
    ensures !t.fault && t.q == s.q && t.p == s.p.(sawFull := t.p.sawFull)
    ensures t.c.pc == CNextFront && t.c.block == s.q.frontBlock && t.c.next == b.next && t.c.op == s.c.op
  {
    hide BitAnd, Next, Observe, Put, RefreshTail, LoadFrontBlock, LoadFront, ReadFrontTail, ReadTailBlock,
      LoadNextFront, LoadNextTail, StoreFrontBlock, MoveOut, Destroy, StoreFront;
    var a: Action<T> := Action.Consume;
    var s4 := FindsEmpty(s, b);
    Consuming(s4);
    Observed(ReloadFrontBlock(s4));
    var s5 := Next(s4, a);
    Consuming(s5);
    SameBlock(s.q, s.q.frontBlock, b);
    Observed(ReloadTail(s5));
    var s6 := Next(s5, a);
    assert s6.q == s.q;
    Consuming(s6);
    Observed(RecheckFront(s6));
    var s7 := Next(s6, a);
    Consuming(s7);
    Observed(LoadNextBlock(s7));
    t := Next(s7, a);
    FourSteps(s4, a);
    GoAgain(s, a, 4, 4);
  }

  lemma FindsEmpty<T>(s: State<T>, b: Block<T>) returns (t: State<T>)
    requires !s.fault && Sane(s) && s.c.pc == CLoadFrontBlock && b == s.q.blocks[s.q.frontBlock]
    requires b.front == b.tail == b.localTail && b.known == |b.items| == 0 && s.q.frontBlock != s.q.tailBlock
    ensures t == Go(s, Action.Consume, 4)
    ensures !t.fault && t.q == s.q && t.p == s.p.(sawFull := t.p.sawFull)
    ensures t.c.pc == CReloadFrontBlock && t.c.block == s.q.frontBlock && t.c.next == s.c.next && t.c.op == s.c.op
  {
    hide BitAnd, Next, Observe, Put, RefreshTail, ReloadFrontBlock, ReloadTail, RecheckFront, LoadNextBlock,
      LoadNextFront, LoadNextTail, StoreFrontBlock, MoveOut, Destroy, StoreFront;
    var a: Action<T> := Action.Consume;
    Consuming(s);
    Observed(LoadFrontBlock(s));
    var s1 := Next(s, a);
    Consuming(s1);
    Observed(LoadFront(s1));
    var s2 := Next(s1, a);
    Consuming(s2);
    SameBlock(s.q, s.q.frontBlock, b);
    Observed(ReadFrontTail(s2));
    var s3 := Next(s2, a);
    assert s3.q == s.q;
    Consuming(s3);
    Observed(ReadTailBlock(s3));
    t := Next(s3, a);
    FourSteps(s, a);
  }

  lemma FourSteps<T>(s: State<T>, a: Action<T>)
    ensures Go(s, a, 4) == Next(Next(Next(Next(s, a), a), a), a)
  {
    hide Next;
    assert Go(s, a, 4) == Go(Next(s, a), a, 3) == Go(Next(Next(s, a), a), a, 2);
  }

  /** The first `try_dequeue` moves on to the added block. */
  lemma MovesOn<T>(s: State<T>, v: T) returns (t: State<T>)
    requires Core(s, [Tiny(1), Added(v)], 0, 1, 2) && s.c.pc == CNextFront && s.c.op == Dequeue && s.c.block == 0
    requires s.c.next == 1
    requires s.p.block == 0 && s.p.next == 1
    ensures t == Go(s, Action.Consume, 3)
    ensures Core(t, [Tiny(1), Added(v)], 1, 1, 2) && t.p == s.p.(sawFull := t.p.sawFull)
    ensures t.c.pc == CMoveOut && t.c.op == Dequeue && t.c.block == 1 && t.c.blockFront == 0 && t.c.next == 1
  {
    hide BitAnd, Next, Observe, LoadFrontBlock, LoadFront, ReadFrontTail, ReadTailBlock, ReloadFrontBlock, ReloadTail,
      RecheckFront, LoadNextBlock, MoveOut, Destroy, StoreFront;
    var a: Action<T> := Action.Consume;
    Consuming(s);
    Observed(LoadNextFront(s));
    var s1 := Next(s, a);
    Consuming(s1);
    Observed(LoadNextTail(s1));
    var s2 := Next(s1, a);
    assert s2.q.blocks == [Tiny(1), Added(v)];
    Consuming(s2);
    Observed(StoreFrontBlock(s2));
    t := Next(s2, a);
    ThreeSteps(s, a);
  }

  /** The second `enqueue` reuses the one-cell block: its tail index comes round to its front index. */
  lemma LosesElement<T>(s: State<T>, v: T) returns (t: State<T>)
    requires Core(s, [Tiny(1), Added(v)], 1, 1, 2) && s.p.pc == PLoadFreeBlock && s.p.block == 1
    requires s.p.arg == Some(v) && ConsumerIn(s)
    requires s.p.next == 0
    ensures t == Go(s, Action.Produce(true), 6)
    ensures Core(t, [Lost(v), Added(v)], 1, 0, 2) && t.p.pc == PIdle && t.c == s.c.(sawEmpty := t.c.sawEmpty)
    ensures t.p.block == 1 && t.p.next == 0
  {
    hide BitAnd, Next, Observe, LoadTailBlock, LoadTail, ReloadFront, Construct, CompareFront, StoreFreeTail,
      Allocate, StoreNewTail, StoreNewNext, LinkNew, StoreTailBlock;
    var a: Action<T> := Action.Produce(true);
    Masks();
    Producing(s);
    Observed(LoadNext(s, PLoadFreeFront));
    var s1 := Next(s, a);
    Producing(s1);
    Observed(LoadFreeFront(s1));
    var s2 := Next(s1, a);
    assert s2.q.blocks == [Tiny(1), Added(v)];
    Producing(s2);
    Observed(LoadFreeTail(s2));
    var s3 := Next(s2, a);
    t := FillsTiny(s3, v);
    ThreeSteps(s, a);
    GoAgain(s, a, 3, 3);
  }

  lemma FillsTiny<T>(s: State<T>, v: T) returns (t: State<T>)
    requires Core(s, [Tiny(1), Added(v)], 1, 1, 2) && s.p.pc == PConstructFree && s.p.block == 1
    requires s.p.arg == Some(v) && ConsumerIn(s)
    requires s.p.next == 0 && s.p.nextTail == 0
    ensures t == Go(s, Action.Produce(true), 3)
    ensures Core(t, [Lost(v), Added(v)], 1, 0, 2) && t.p.pc == PIdle && t.c == s.c.(sawEmpty := t.c.sawEmpty)
    ensures t.p.block == 1 && t.p.next == 0
  {
    hide BitAnd, Next, Observe, LoadTailBlock, LoadTail, ReloadFront, LoadNext, CompareFront, LoadFreeFront,
      LoadFreeTail, Allocate, StoreNewTail, StoreNewNext, LinkNew;
    var a: Action<T> := Action.Produce(true);
    Masks();
    Producing(s);
    Observed(Construct(s, 0, 0, PStoreFreeTail));
    var s1 := Next(s, a);
    assert s1.q.blocks[0].cells == [Live(v)];
    Producing(s1);
    Observed(StoreFreeTail(s1));
    var s2 := Next(s1, a);
    var none: seq<T> := [];
    assert none + [v] == [v];
    assert s2.q.blocks == [Lost(v), Added(v)];
    Producing(s2);
    Observed(StoreTailBlock(s2));
    t := Next(s2, a);
    ThreeSteps(s, a);
  }

  /** The added block with its element moved out and destroyed, before the front index moves. */
  function Gutted<T>(v: T): Block<T> { Block(0, 1, 1, 0, 0, [Raw, Raw], 1, [v], 1, 0, true, None) }

  lemma GutsFirst<T>(s: State<T>, v: T) returns (t: State<T>)
    requires Core(s, [Lost(v), Added(v)], 1, 0, 2) && s.p.block == 1 && s.p.next == 0
    requires s.c.pc == CMoveOut && s.c.op == Dequeue && s.c.block == 1 && s.c.blockFront == 0 && s.c.next == 1
    ensures t == Next(Next(s, Action.Consume), Action.Consume) && t.p == s.p.(sawFull := t.p.sawFull)
    ensures Core(t, [Lost(v), Gutted(v)], 1, 0, 2) && t.c.pc == CStoreFront && t.c.block == 1 && t.c.blockFront == 0
    ensures t.c.next == 1
  {
    hide BitAnd, Next, Observe, LoadFrontBlock, LoadFront, ReadFrontTail, ReadTailBlock, ReloadFrontBlock, ReloadTail,
      RecheckFront, LoadNextBlock, LoadNextFront, LoadNextTail, StoreFrontBlock, StoreFront;
    var a: Action<T> := Action.Consume;
    Consuming(s);
    Observed(MoveOut(s));
    var s1 := Next(s, a);
    Consuming(s1);
    Observed(Destroy(s1));
    t := Next(s1, a);
    assert t.q.blocks[1].cells == [Raw, Raw];
    assert t.q.blocks == [Lost(v), Gutted(v)];
  }

  /** The `try_dequeue` under way takes the first element. */
  lemma TakesFirst<T>(s: State<T>, v: T) returns (t: State<T>)
    requires Core(s, [Lost(v), Added(v)], 1, 0, 2) && s.p.block == 1 && s.p.next == 0
    requires s.c.pc == CMoveOut && s.c.op == Dequeue && s.c.block == 1 && s.c.blockFront == 0 && s.c.next == 1
    ensures t == Go(s, Action.Consume, 3)
    ensures Core(t, [Lost(v), Spent()], 1, 0, 2) && t.c.pc == CIdle && t.p == s.p.(sawFull := t.p.sawFull)
    ensures ConsumerIn(t)
  {
    hide BitAnd, Next, Observe, LoadFrontBlock, LoadFront, ReadFrontTail, ReadTailBlock, ReloadFrontBlock, ReloadTail,
      RecheckFront, LoadNextBlock, LoadNextFront, LoadNextTail, StoreFrontBlock, MoveOut, Destroy;
    var a: Action<T> := Action.Consume;
    Masks();
    var s2 := GutsFirst(s, v);
    Consuming(s2);
    Observed(StoreFront(s2));
    t := Next(s2, a);
    assert t.q.blocks == [Lost(v), Spent()];
    ThreeSteps(s, a);
  }

  /** The next `try_dequeue` looks into the block after its own and fails the assert of line 351. */
  lemma AssertFails<T>(s: State<T>, v: T)
    requires Core(s, [Lost(v), Spent()], 1, 0, 2) && s.c.pc == CNextFront && s.c.block == 1 && s.c.next == 0
    requires s.p.block == 1 && s.p.next == 0
    ensures Go(s, Action.Consume, 2).fault
  {
    hide BitAnd, Next, Observe, LoadFrontBlock, LoadFront, ReadFrontTail, ReadTailBlock, ReloadFrontBlock, ReloadTail,
      RecheckFront, LoadNextBlock, StoreFrontBlock, MoveOut, Destroy, StoreFront;
    var a: Action<T> := Action.Consume;
    Consuming(s);
    Observed(LoadNextFront(s));
    var s1 := Next(s, a);
    Consuming(s1);
    Observed(LoadNextTail(s1));
    assert Go(s, a, 2) == Next(s1, a);
  }

  // ---- The whole run -----------------------------------------------------------------------

  /** The start of a call by a resting thread. */
  lemma Starts<T>(s: State<T>, a: Action<T>)
    requires !s.fault && ((a.Enqueue? && s.p.pc == PIdle) || (a.Call? && s.c.pc == CIdle))
    ensures var t := Next(s, a);
      && t.q == s.q && !t.fault
      && (a.Enqueue? ==> t.c == s.c.(sawEmpty := t.c.sawEmpty) && t.p.pc == PLoadTailBlock && t.p.arg == Some(a.value))
      && (a.Enqueue? ==> t.p.canAlloc == a.canAlloc && t.p.block == s.p.block && t.p.next == s.p.next)
      && (a.Call? ==> t.p == s.p.(sawFull := t.p.sawFull) && t.c.pc == CLoadFrontBlock && t.c.op == a.op)
      && (a.Call? ==> t.c.block == s.c.block && t.c.next == s.c.next)
  {
    hide Observe, ProducerStep, ConsumerStep;
    Observed(Act(s, a));
  }

  function Call1<T>(v: T): seq<Action<T>> { [Enqueue(v, true)] + Repeat(Action.Produce(true), 11) }

  function Call2<T>(n: nat): seq<Action<T>> { [Action.Call(Dequeue)] + Repeat(Action.Consume, n) }

  lemma RunCall<T>(s: State<T>, start: Action<T>, step: Action<T>, n: nat)
    ensures Run(s, [start] + Repeat(step, n)) == Go(Next(s, start), step, n)
  {
    hide Next;
    RunAppend(s, [start], Repeat(step, n));
    RunOne(s, start);
    RunRepeat(Next(s, start), step, n);
  }

  lemma FirstEnqueue<T>(s: State<T>, v: T) returns (t: State<T>)
    requires Core(s, [Tiny(0)], 0, 0, 1) && s.p.pc == PIdle && s.p.block == 0 && s.p.next == 0 && ConsumerIn(s)
    ensures t == Run(s, Call1(v)) && Core(t, [Tiny(1), Added(v)], 0, 1, 2) && t.p.pc == PIdle
    ensures t.c == s.c.(sawEmpty := t.c.sawEmpty) && t.p.block == 0 && t.p.next == 1
  {
    hide BitAnd, Next, Observe, Run, Go, Repeat;
    var a: Action<T> := Action.Produce(true);
    Masks();
    Starts(s, Enqueue(v, true));
    var s1 := Next(s, Enqueue(v, true));
    var s2 := FindsFull(s1, v, Tiny(0));
    var s3 := MakesBlock(s2, v);
    t := LinksBlock(s3, v);
    GoAgain(s1, a, 5, 3);
    GoAgain(s1, a, 8, 3);
    RunCall(s, Enqueue(v, true), a, 11);
  }

  lemma FirstDequeue<T>(s: State<T>, v: T) returns (t: State<T>)
    requires Core(s, [Tiny(1), Added(v)], 0, 1, 2) && s.c.pc == CIdle && s.p.pc == PIdle && s.p.block == 0
    requires s.p.next == 1 && ConsumerIn(s)
    ensures t == Run(s, Call2(11)) && Core(t, [Tiny(1), Added(v)], 1, 1, 2) && t.p == s.p.(sawFull := t.p.sawFull)
    ensures t.c.pc == CMoveOut && t.c.op == Dequeue && t.c.block == 1 && t.c.blockFront == 0 && t.c.next == 1
  {
    hide BitAnd, Next, Observe, Run, Go, Repeat;
    var a: Action<T> := Action.Consume;
    Starts(s, Action.Call(Dequeue));
    var s1 := Next(s, Action.Call(Dequeue));
    var s2 := LooksFurther(s1, Tiny(1));
    t := MovesOn(s2, v);
    GoAgain(s1, a, 8, 3);
    RunCall(s, Action.Call(Dequeue), a, 11);
  }

  lemma SecondEnqueue<T>(s: State<T>, v: T) returns (t: State<T>)
    requires Core(s, [Tiny(1), Added(v)], 1, 1, 2) && s.p.pc == PIdle && s.p.block == 0 && s.p.next == 1
    requires ConsumerIn(s)
    ensures t == Run(s, Call1(v)) && Core(t, [Lost(v), Added(v)], 1, 0, 2) && t.p.pc == PIdle
    ensures t.c == s.c.(sawEmpty := t.c.sawEmpty) && t.p.block == 1 && t.p.next == 0
  {
    hide BitAnd, Next, Observe, Run, Go, Repeat;
    var a: Action<T> := Action.Produce(true);
    Masks();
    Starts(s, Enqueue(v, true));
    var s1 := Next(s, Enqueue(v, true));
    var s2 := FindsFull(s1, v, Added(v));
    t := LosesElement(s2, v);
    GoAgain(s1, a, 5, 6);
    RunCall(s, Enqueue(v, true), a, 11);
  }

  lemma LastDequeue<T>(s: State<T>, v: T)
    requires Core(s, [Lost(v), Spent()], 1, 0, 2) && s.c.pc == CIdle && s.p.block == 1 && s.p.next == 0 && ConsumerIn(s)
    ensures Run(s, Call2(10)).fault
  {
    hide BitAnd, Next, Observe, Run, Go, Repeat;
    var a: Action<T> := Action.Consume;
    Starts(s, Action.Call(Dequeue));
    var s1 := Next(s, Action.Call(Dequeue));
    var s2 := LooksFurther(s1, Spent());
    AssertFails(s2, v);
    GoAgain(s1, a, 8, 2);
    RunCall(s, Action.Call(Dequeue), a, 10);
  }

  /** An `enqueue`, a `try_dequeue` overtaken by a second `enqueue`, and another `try_dequeue`: the
      second element is lost and an assert fails. */
  lemma ZeroFails<T>(s: State<T>, v: T) returns (actions: seq<Action<T>>)
    requires Core(s, [Tiny(0)], 0, 0, 1) && s.p.pc == PIdle && s.p.block == 0 && s.p.next == 0
    requires s.c.pc == CIdle && s.c.block == 0 && s.c.next == 0
    ensures Run(s, actions).fault
  {
    hide BitAnd, Next, Observe, Run, Go, Repeat;
    var s1 := FirstEnqueue(s, v);
    var s2 := FirstDequeue(s1, v);
    var s3 := SecondEnqueue(s2, v);
    var s4 := TakesFirst(s3, v);
    LastDequeue(s4, v);
    RunRepeat(s3, Action.Consume, 3);
    var b := Call1(v) + Call2(11);
    var c := b + Call1(v);
    var d := c + Repeat(Action.Consume, 3);
    RunAppend(s, Call1(v), Call2(11));
    RunAppend(s, b, Call1(v));
    RunAppend(s, c, Repeat(Action.Consume, 3));
    RunAppend(s, d, Call2(10));
    actions := d + Call2(10);
  }

  // ---- size >= 2^63 ------------------------------------------------------------------------

  /** The rounding gives 0: a block without cells, into which the first element is constructed. */
  lemma HugeFails<T>(s: State<T>, v: T) returns (actions: seq<Action<T>>)
    requires !s.fault && s.q.blocks == [Block(0, 0, 0, 0, 0, [], WORD - 1, [], 0, 0, false, None)]
    requires s.q.tailBlock == 0 == s.q.frontBlock
    requires s.p.pc == PIdle && s.p.block == 0 && s.p.next == 0 && s.c.block == 0 && s.c.next == 0
    ensures Run(s, actions).fault
  {
    hide BitAnd, Next, Observe, Run, ReloadFront, LoadNext, CompareFront, LoadFreeFront, LoadFreeTail, StoreFreeTail,
      Allocate, StoreNewTail, StoreNewNext, LinkNew, StoreTailBlock;
    var a: Action<T> := Action.Produce(true);
    OddMask();
    Starts(s, Enqueue(v, true));
    var s1 := Next(s, Enqueue(v, true));
    Producing(s1);
    Observed(LoadTailBlock(s1));
    var s2 := Next(s1, a);
    Producing(s2);
    Observed(LoadTail(s2));
    var s3 := Next(s2, a);
    Producing(s3);
    Observed(Construct(s3, 0, 0, PStoreTail));
    ThreeSteps(s1, a);
    RunCall(s, Enqueue(v, true), a, 3);
    actions := [Enqueue(v, true)] + Repeat(a, 3);
  }

  lemma OddMask()
    ensures BitAnd(1, WORD - 1) == 1
  {
    assert BitAnd(1, WORD - 1) == 2 * BitAnd(0, (WORD - 1) / 2) + 1;
  }

  // ---- The exact condition ---------------------------------------------------------------------

  lemma ZeroStart<T>(maxBlock: nat)
    requires maxBlock >= 2
    ensures var s: State<T> := Init(0, maxBlock);
      Core(s, [Tiny(0)], 0, 0, 1) && s.p.pc == PIdle && s.p.block == 0 && s.p.next == 0
      && s.c.pc == CIdle && s.c.block == 0 && s.c.next == 0
  {
    assert RoundedUp(1 % WORD) == 1;
    assert RawCells<T>(1) == [Raw];
    assert RingOf<T>(1, 1) == [Tiny(0)];
  }

  lemma HugeStart<T>(size: nat, maxBlock: nat)
    requires HALF_WORD <= size < WORD && maxBlock >= 2
    ensures var s: State<T> := Init(size, maxBlock);
      && !s.fault && s.q.blocks == [Block(0, 0, 0, 0, 0, [], WORD - 1, [], 0, 0, false, None)]
      && s.q.tailBlock == 0 == s.q.frontBlock
      && s.p.pc == PIdle && s.p.block == 0 && s.p.next == 0 && s.c.block == 0 && s.c.next == 0
  {
    hide LeastPow2;
    assert RoundedUp((size + 1) % WORD) == 0;
    assert RawCells<T>(0) == [];
    assert RingOf<T>(0, 1) == [FreshBlock(0, 0)];
  }

  /** For every 64-bit size, the queue is free of faults on every run exactly when the size is
      positive and rounds up to a 64-bit power of two. */
  lemma SizeExact<T>(size: nat, maxBlock: nat, v: T)
    requires size < WORD && maxBlock >= 2 && IsPow2(maxBlock)
    ensures (forall actions: seq<Action<T>> :: !Run(Init<T>(size, maxBlock), actions).fault) <==> 1 <= size < HALF_WORD
  {
    hide Run, Init, IsPow2, Core;
    if 1 <= size < HALF_WORD {
      forall actions: seq<Action<T>> ensures !Run(Init<T>(size, maxBlock), actions).fault {
        QueueSafety(size, maxBlock, actions);
      }
    } else if size == 0 {
      ZeroStart<T>(maxBlock);
      var actions := ZeroFails(Init<T>(size, maxBlock), v);
    } else {
      HugeStart<T>(size, maxBlock);
      var actions := HugeFails(Init<T>(size, maxBlock), v);
    }
  }
}
