/** The code of the two threads, one access to the queue object per step. Every step of this
    code is the step of the machine in QueueModel, so all that is proved there holds of it. */
module QueueThreads {
  import opened Wrappers
  import opened Bits
  import opened QueueModel
  import opened QueueInvariant
  import opened QueueSteps
  import opened QueueTheorems
  import opened QueueHeap
  import opened QueueDestructor

  /** The local variables of a running `inner_enqueue`. */
  datatype ProducerVars<!T> = ProducerVars(
    pc: ProducerPc, canAlloc: bool, arg: Option<T>, block: BlockNode<T>, blockFront: nat, blockTail: nat, nextTail: nat,
    next: BlockNode<T>, nextFront: nat, result: Option<bool>)

  /** The local variables of a running `try_dequeue`, `pop` or `peek`, and the pointer the last
      `peek` returned, to an element of a block's data. */
  datatype ConsumerVars<!T> = ConsumerVars(
    pc: ConsumerPc, op: ConsumerOp, block: BlockNode<T>, blockTail: nat, blockFront: nat,
    next: BlockNode<T>, nextFront: nat, hand: Option<T>, result: Option<bool>, pointer: Option<(BlockNode<T>, nat)>)

  /** The variables hold what the machine's registers hold, with blocks for their indices. */
  ghost predicate ProducerFits<T>(v: ProducerVars<T>, r: Producer<T>, nodes: seq<BlockNode<T>>) {
    && v.pc == r.pc && v.canAlloc == r.canAlloc && v.arg == r.arg && IsNode(v.block, r.block, nodes)
    && v.blockFront == r.blockFront && v.blockTail == r.blockTail && v.nextTail == r.nextTail
    && IsNode(v.next, r.next, nodes) && v.nextFront == r.nextFront && v.result == r.result
  }

  ghost predicate ConsumerFits<T>(v: ConsumerVars<T>, r: Consumer<T>, nodes: seq<BlockNode<T>>) {
    && v.pc == r.pc && v.op == r.op && IsNode(v.block, r.block, nodes) && v.blockTail == r.blockTail
    && v.blockFront == r.blockFront && IsNode(v.next, r.next, nodes) && v.nextFront == r.nextFront
    && v.hand == r.hand && v.result == r.result && (v.pointer.Some? <==> r.pointer.Some?)
    && (v.pointer.Some? ==>
          IsNode(v.pointer.value.0, r.pointer.value.0, nodes) && v.pointer.value.1 == r.pointer.value.1)
  }

  /** A further block leaves the variables what they are. */
  lemma FitsMore<T>(v: ConsumerVars<T>, r: Consumer<T>, nodes: seq<BlockNode<T>>, n: BlockNode<T>)
    requires ConsumerFits(v, r, nodes)
    ensures ConsumerFits(v, r, nodes + [n])
  {
  }

  lemma StepTo<T>(s: State<T>, a: Action<T>, t: State<T>)
    requires Good(s) && t == Act(s, a)
    ensures var n := Observe(t);
      && n == Next(s, a) && Good(n) && Sane(n) && n.q == t.q
      && n.p == t.p.(sawFull := n.p.sawFull) && n.c == t.c.(sawEmpty := n.c.sawEmpty)
  {
    hide Good, Act, Contents, Run;
    GoodSane(s);
    NextGood(s, a);
    GoodSane(Observe(t));
  }

  lemma GoodSane<T>(s: State<T>)
    requires Good(s)
    ensures !s.fault && Sane(s) && (s.p.pc != PIdle ==> s.p.arg.Some?) && s.q.largest >= 1
  {
    InvSane(s);
  }

  lemma InitialFront<T>(size: nat, maxBlock: nat)
    requires maxBlock >= 2
    ensures InitialRing<T>(size, maxBlock).frontBlock == 0
  {
  }

  // ---- The machine's step at some of its points -------------------------------------

  lemma AtStoreFreeTail<T>(s: State<T>)
    requires Good(s) && s.p.pc == PStoreFreeTail
    ensures Sane(s) && s.p.arg.Some? && Act(s, Action.Produce(true)) == QueueModel.StoreFreeTail(s)
  {
    hide Good, QueueModel.StoreFreeTail;
    GoodSane(s);
  }

  lemma AtConstruct<T>(s: State<T>)
    requires Good(s) && s.p.pc in {PConstruct, PConstructFree, PConstructNew}
    ensures Sane(s) && s.p.arg.Some? && s.p.block < |s.q.blocks| && s.p.next < |s.q.blocks|
    ensures Act(s, Action.Produce(true)) ==
      if s.p.pc == PConstruct then QueueModel.Construct(s, s.p.block, s.p.blockTail, PStoreTail)
      else if s.p.pc == PConstructFree then QueueModel.Construct(s, s.p.next, s.p.nextTail, PStoreFreeTail)
      else QueueModel.Construct(s, s.p.next, 0, PStoreNewTail)
  {
    hide Good, QueueModel.Construct;
    GoodSane(s);
  }

  lemma AtAllocate<T>(s: State<T>, mallocOk: bool)
    requires Good(s) && s.p.pc == PAllocate
    ensures Sane(s) && Act(s, Action.Produce(mallocOk)) == QueueModel.Allocate(s, mallocOk)
  {
    hide Good, QueueModel.Allocate;
    GoodSane(s);
  }

  lemma AtStoreNewTail<T>(s: State<T>)
    requires Good(s) && s.p.pc == PStoreNewTail
    ensures Sane(s) && s.p.arg.Some? && Act(s, Action.Produce(true)) == QueueModel.StoreNewTail(s)
  {
    hide Good, QueueModel.StoreNewTail;
    GoodSane(s);
  }

  lemma AtStoreNewNext<T>(s: State<T>)
    requires Good(s) && s.p.pc == PStoreNewNext
    ensures Sane(s) && s.p.block < |s.q.blocks| && Act(s, Action.Produce(true)) == QueueModel.StoreNewNext(s)
  {
    hide Good, QueueModel.StoreNewNext;
    GoodSane(s);
  }

  lemma AtDestroy<T>(s: State<T>)
    requires Good(s) && s.c.pc == CDestroy
    ensures Sane(s) && Act(s, Action.Consume) == QueueModel.Destroy(s)
  {
    hide Good, QueueModel.Destroy;
    GoodSane(s);
  }

  lemma AtStoreFront<T>(s: State<T>)
    requires Good(s) && s.c.pc == CStoreFront
    ensures Sane(s) && Act(s, Action.Consume) == QueueModel.StoreFront(s)
  {
    hide Good, QueueModel.StoreFront;
    GoodSane(s);
  }

  class Threads<T> {
    const queue: ReaderWriterQueue<T>
    var p: ProducerVars<T>
    var c: ConsumerVars<T>
    ghost var view: State<T>

    ghost predicate Vars()
      reads this, queue
    {
      ProducerFits(p, view.p, queue.nodes) && ConsumerFits(c, view.c, queue.nodes)
    }

    /** Before it is linked in, the new block has been given its successor. */
    ghost predicate NewHasNext()
      reads this, p.next
    {
      p.pc == PLinkNew ==> p.next.next != null
    }

    ghost predicate Valid()
      reads this, p.next, queue, queue.nodes, set n | n in queue.nodes :: n.data
    {
      queue.Valid() && view.q == queue.q && Good(view) && Sane(view) && Vars() && NewHasNext()
    }

    constructor (size: nat, maxBlock: nat)
      requires 1 <= size < HALF_WORD && maxBlock >= 2 && IsPow2(maxBlock)
      ensures Valid() && view == Init<T>(size, maxBlock)
    {
      hide Good, InitialRing;
      InitGood<T>(size, maxBlock);
      InitialFront<T>(size, maxBlock);
      GoodSane(Init<T>(size, maxBlock));
      var made := new ReaderWriterQueue<T>(size, maxBlock);
      queue := made;
      var first := made.frontBlock;
      p := ProducerVars(PIdle, false, None, first, 0, 0, 0, first, 0, None);
      c := ConsumerVars(CIdle, Dequeue, first, 0, 0, first, 0, None, None, None);
      view := Init(size, maxBlock);
    }

    /** The machine takes the step that the code has just taken. */
    ghost method Settle(a: Action<T>, t: State<T>)
      requires queue.Valid() && Good(view) && NewHasNext() && t == Act(view, a) && t.q == queue.q
      requires ProducerFits(p, t.p, queue.nodes) && ConsumerFits(c, t.c, queue.nodes)
      modifies this`view
      ensures Valid() && view == Next(old(view), a)
    {
      hide Good, Act, Contents, Next, Observe, ReaderWriterQueue.Valid;
      StepTo(view, a, t);
      view := Observe(t);
    }

    // ---- inner_enqueue -------------------------------------------------------------

    method LoadTailBlock()
      requires Valid() && p.pc == PLoadTailBlock
      modifies this`p, this`view
      ensures Valid() && view == Next(old(view), Action.Produce(true))
    {
      hide Good, Contents, Next, Observe, Sane, ReaderWriterQueue.Valid, ConsumerFits, ConsumerStep;
      GoodSane(view);
      var b := queue.LoadTailBlock();
      var f := queue.ReadLocalFront(b, queue.q.tailBlock);
      p := p.(pc := PLoadTail, block := b, blockFront := f);
      Settle(Action.Produce(true), QueueModel.LoadTailBlock(view));
    }

    method LoadTail()
      requires Valid() && p.pc == PLoadTail
      modifies this`p, this`view
      ensures Valid() && view == Next(old(view), Action.Produce(true))
    {
      hide Good, Contents, Next, Observe, Sane, ReaderWriterQueue.Valid, ConsumerFits, BitAnd, ConsumerStep;
      GoodSane(view);
      var blockTail := queue.LoadTail(p.block, view.p.block);
      var nextTail := queue.Advance(p.block, view.p.block, blockTail);
      p := p.(pc := if nextTail != p.blockFront then PConstruct else PReloadFront,
              blockTail := blockTail, nextTail := nextTail);
      Settle(Action.Produce(true), QueueModel.LoadTail(view));
    }

    method ReloadFront()
      requires Valid() && p.pc == PReloadFront
      modifies this`p, this`view, queue`q, p.block`localFront
      ensures Valid() && view == Next(old(view), Action.Produce(true))
    {
      hide Good, Contents, Next, Observe, Sane, ReaderWriterQueue.Valid, ConsumerFits, ConsumerStep;
      GoodSane(view);
      var front := queue.RefreshLocalFront(p.block, view.p.block);
      p := p.(pc := if p.nextTail != front then PConstruct else PLoadNext);
      Settle(Action.Produce(true), QueueModel.ReloadFront(view));
    }

    method Construct()
      requires Valid() && p.pc == PConstruct
      modifies this`p, this`view, queue`q, p.block.data
      ensures Valid() && view == Next(old(view), Action.Produce(true))
    {
      hide Good, Contents, Next, Observe, Sane, Act, ReaderWriterQueue.Valid, ConsumerFits, Build;
      AtConstruct(view);
      TailRaw(view);
      queue.ConstructElement(p.block, view.p.block, p.blockTail, p.arg.value);
      p := p.(pc := PStoreTail);
      Settle(Action.Produce(true), QueueModel.Construct(view, view.p.block, view.p.blockTail, PStoreTail));
    }

    method StoreTail()
      requires Valid() && p.pc == PStoreTail
      modifies this`p, this`view, queue`q, p.block`tail
      ensures Valid() && view == Next(old(view), Action.Produce(true))
    {
      hide Good, Contents, Next, Observe, Sane, ReaderWriterQueue.Valid, ConsumerFits, ConsumerStep;
      GoodSane(view);
      queue.StoreTail(p.block, view.p.block, p.nextTail, p.arg.value, false);
      p := p.(pc := PIdle, result := Some(true));
      Settle(Action.Produce(true), QueueModel.StoreTail(view));
    }

    method LoadNext()
      requires Valid() && p.pc == PLoadNext
      modifies this`p, this`view
      ensures Valid() && view == Next(old(view), Action.Produce(true))
    {
      hide Good, Contents, Next, Observe, Sane, ReaderWriterQueue.Valid, ConsumerFits, ConsumerStep;
      GoodSane(view);
      NotLoose(view);
      var n := queue.LoadNext(p.block, view.p.block);
      p := p.(pc := PCompareFront, next := n);
      Settle(Action.Produce(true), QueueModel.LoadNext(view, PCompareFront));
    }

    method CompareFront()
      requires Valid() && p.pc == PCompareFront
      modifies this`p, this`view
      ensures Valid() && view == Next(old(view), Action.Produce(true))
    {
      hide Good, Contents, Next, Observe, Sane, ReaderWriterQueue.Valid, ConsumerFits, ConsumerStep;
      GoodSane(view);
      var front := queue.LoadFrontBlock();
      SameNode(queue, p.next, view.p.next, front, queue.q.frontBlock);
      p := if p.next != front then p.(pc := PLoadFreeBlock)
           else if p.canAlloc then p.(pc := PAllocate)
           else p.(pc := PIdle, result := Some(false));
      Settle(Action.Produce(true), QueueModel.CompareFront(view));
    }

    method LoadFreeBlock()
      requires Valid() && p.pc == PLoadFreeBlock
      modifies this`p, this`view
      ensures Valid() && view == Next(old(view), Action.Produce(true))
    {
      hide Good, Contents, Next, Observe, Sane, ReaderWriterQueue.Valid, ConsumerFits, ConsumerStep;
      GoodSane(view);
      NotLoose(view);
      var n := queue.LoadNext(p.block, view.p.block);
      p := p.(pc := PLoadFreeFront, next := n);
      Settle(Action.Produce(true), QueueModel.LoadNext(view, PLoadFreeFront));
    }

    method LoadFreeFront()
      requires Valid() && p.pc == PLoadFreeFront
      modifies this`p, this`view, queue`q, p.next`localFront
      ensures Valid() && view == Next(old(view), Action.Produce(true))
    {
      hide Good, Contents, Next, Observe, Sane, ReaderWriterQueue.Valid, ConsumerFits, ConsumerStep;
      GoodSane(view);
      var front := queue.RefreshLocalFront(p.next, view.p.next);
      p := p.(pc := PLoadFreeTail, nextFront := front);
      Settle(Action.Produce(true), QueueModel.LoadFreeFront(view));
    }

    method LoadFreeTail()
      requires Valid() && p.pc == PLoadFreeTail
      modifies this`p, this`view
      ensures Valid() && view == Next(old(view), Action.Produce(true))
    {
      hide Good, Contents, Next, Observe, Sane, ReaderWriterQueue.Valid, ConsumerFits, ConsumerStep;
      GoodSane(view);
      FreeIsEmpty(view);
      var nextTail := queue.LoadTail(p.next, view.p.next);
      assert p.nextFront == nextTail;  // line 588
      p := p.(pc := PConstructFree, nextTail := nextTail);
      Settle(Action.Produce(true), QueueModel.LoadFreeTail(view));
    }

    method ConstructFree()
      requires Valid() && p.pc == PConstructFree
      modifies this`p, this`view, queue`q, p.next.data
      ensures Valid() && view == Next(old(view), Action.Produce(true))
    {
      hide Good, Contents, Next, Observe, Sane, Act, ReaderWriterQueue.Valid, ConsumerFits, Build;
      AtConstruct(view);
      FreeRaw(view);
      queue.ConstructElement(p.next, view.p.next, p.nextTail, p.arg.value);
      p := p.(pc := PStoreFreeTail);
      Settle(Action.Produce(true), QueueModel.Construct(view, view.p.next, view.p.nextTail, PStoreFreeTail));
    }

    method StoreFreeTail()
      requires Valid() && p.pc == PStoreFreeTail
      modifies this`p, this`view, queue`q, p.next`tail
      ensures Valid() && view == Next(old(view), Action.Produce(true))
    {
      hide Good, Contents, Next, Observe, Sane, Act, ReaderWriterQueue.Valid, ConsumerFits, BitAnd, PublishAhead;
      AtStoreFreeTail(view);
      var tail := queue.Advance(p.next, view.p.next, p.nextTail);
      queue.StoreTail(p.next, view.p.next, tail, p.arg.value, true);
      p := p.(pc := PStoreTailBlock);
      Settle(Action.Produce(true), QueueModel.StoreFreeTail(view));
    }

    method Allocate(mallocOk: bool)
      requires Valid() && p.pc == PAllocate
      modifies this`p, this`view, queue`q, queue`nodes, queue`largestBlockSize
      ensures Valid() && view == Next(old(view), Action.Produce(mallocOk))
      ensures
        || queue.nodes == old(queue.nodes)
        || (queue.nodes == old(queue.nodes) + [p.next] && fresh(p.next) && fresh(p.next.data))
    {
      hide Good, Contents, Next, Observe, Sane, Act, ReaderWriterQueue.Valid, ConsumerFits, AddBlock;
      AtAllocate(view, mallocOk);
      NotLoose(view);
      if mallocOk {
        var b := queue.MakeBlock();
        FitsMore(c, view.c, old(queue.nodes), b);
        p := p.(pc := PConstructNew, next := b);
      } else {
        p := p.(pc := PIdle, result := Some(false));
      }
      Settle(Action.Produce(mallocOk), QueueModel.Allocate(view, mallocOk));
    }

    method ConstructNew()
      requires Valid() && p.pc == PConstructNew
      modifies this`p, this`view, queue`q, p.next.data
      ensures Valid() && view == Next(old(view), Action.Produce(true))
    {
      hide Good, Contents, Next, Observe, Sane, Act, ReaderWriterQueue.Valid, ConsumerFits, Build;
      AtConstruct(view);
      NewRaw(view);
      queue.ConstructElement(p.next, view.p.next, 0, p.arg.value);
      p := p.(pc := PStoreNewTail);
      Settle(Action.Produce(true), QueueModel.Construct(view, view.p.next, 0, PStoreNewTail));
    }

    method StoreNewTail()
      requires Valid() && p.pc == PStoreNewTail
      modifies this`p, this`view, queue`q, p.next`tail, p.next`localTail
      ensures Valid() && view == Next(old(view), Action.Produce(true))
    {
      hide Good, Contents, Next, Observe, Sane, Act, ReaderWriterQueue.Valid, ConsumerFits, PublishNew;
      AtStoreNewTail(view);
      NewIsAtZero(view);
      var front := queue.LoadFront(p.next, view.p.next);
      assert front == 0;  // line 618
      queue.StoreNewTail(p.next, view.p.next, p.arg.value);
      p := p.(pc := PStoreNewNext);
      Settle(Action.Produce(true), QueueModel.StoreNewTail(view));
    }

    method StoreNewNext()
      requires Valid() && p.pc == PStoreNewNext
      modifies this`p, this`view, queue`q, p.next`next
      ensures Valid() && view == Next(old(view), Action.Produce(true))
    {
      hide Good, Contents, Next, Observe, Sane, Act, ReaderWriterQueue.Valid, ConsumerFits, SetNext;
      AtStoreNewNext(view);
      NotLoose(view);
      var n := queue.LoadNext(p.block, view.p.block);
      queue.StoreNext(p.next, view.p.next, n, queue.q.blocks[view.p.block].next);
      p := p.(pc := PLinkNew);
      Settle(Action.Produce(true), QueueModel.StoreNewNext(view));
    }

    method LinkNew()
      requires Valid() && p.pc == PLinkNew
      modifies this`p, this`view, queue`q, p.block`next
      ensures Valid() && view == Next(old(view), Action.Produce(true))
    {
      hide Good, Contents, Next, Observe, Sane, ReaderWriterQueue.Valid, ConsumerFits, ConsumerStep;
      GoodSane(view);
      NewIsLoose(view);
      queue.LinkBlock(p.block, view.p.block, p.next, view.p.next);
      p := p.(pc := PStoreTailBlock);
      Settle(Action.Produce(true), QueueModel.LinkNew(view));
    }

    method StoreTailBlock()
      requires Valid() && p.pc == PStoreTailBlock
      modifies this`p, this`view, queue`q, queue`tailBlock
      ensures Valid() && view == Next(old(view), Action.Produce(true))
    {
      hide Good, Contents, Next, Observe, Sane, ReaderWriterQueue.Valid, ConsumerFits, ConsumerStep;
      GoodSane(view);
      queue.StoreTailBlock(p.next, view.p.next);
      p := p.(pc := PIdle, result := Some(true));
      Settle(Action.Produce(true), QueueModel.StoreTailBlock(view));
    }

    // ---- try_dequeue, pop, peek ------------------------------------------------------

    /** The variables after an element has been found at `index` of block `b`. */
    function FoundAt(v: ConsumerVars<T>, b: BlockNode<T>, index: nat): ConsumerVars<T> {
      if v.op == Peek then v.(pc := CIdle, result := Some(true), pointer := Some((b, index)))
      else v.(pc := if v.op == Dequeue then CMoveOut else CDestroy, block := b, blockFront := index)
    }

    method LoadFrontBlock()
      requires Valid() && c.pc == CLoadFrontBlock
      modifies this`c, this`view
      ensures Valid() && view == Next(old(view), Action.Consume)
    {
      hide Good, Contents, Next, Observe, Sane, ReaderWriterQueue.Valid, ProducerFits, ProducerStep;
      GoodSane(view);
      var b := queue.LoadFrontBlock();
      var i := queue.ReadLocalTail(b, queue.q.frontBlock);
      c := c.(pc := CLoadFront, block := b, blockTail := i);
      Settle(Action.Consume, QueueModel.LoadFrontBlock(view));
    }

    method LoadFront()
      requires Valid() && c.pc == CLoadFront
      modifies this`c, this`view
      ensures Valid() && view == Next(old(view), Action.Consume)
    {
      hide Good, Contents, Next, Observe, Sane, ReaderWriterQueue.Valid, ProducerFits, ProducerStep;
      GoodSane(view);
      var front := queue.LoadFront(c.block, view.c.block);
      c := if front != c.blockTail then FoundAt(c, c.block, front) else c.(pc := CLoadTail, blockFront := front);
      Settle(Action.Consume, QueueModel.LoadFront(view));
    }

    method ReadFrontTail()
      requires Valid() && c.pc == CLoadTail
      modifies this`c, this`view, queue`q, c.block`localTail
      ensures Valid() && view == Next(old(view), Action.Consume)
    {
      hide Good, Contents, Next, Observe, Sane, ReaderWriterQueue.Valid, ProducerFits, ProducerStep;
      GoodSane(view);
      var tail := queue.RefreshLocalTail(c.block, view.c.block);
      c := if c.blockFront != tail then FoundAt(c, c.block, c.blockFront) else c.(pc := CLoadTailBlock);
      Settle(Action.Consume, QueueModel.ReadFrontTail(view));
    }

    method ReadTailBlock()
      requires Valid() && c.pc == CLoadTailBlock
      modifies this`c, this`view
      ensures Valid() && view == Next(old(view), Action.Consume)
    {
      hide Good, Contents, Next, Observe, Sane, ReaderWriterQueue.Valid, ProducerFits, ProducerStep;
      GoodSane(view);
      var tail := queue.LoadTailBlock();
      SameNode(queue, c.block, view.c.block, tail, queue.q.tailBlock);
      c := if c.block != tail then c.(pc := CReloadFrontBlock)
           else c.(pc := CIdle, result := Some(false), pointer := if c.op == Peek then None else c.pointer);
      Settle(Action.Consume, QueueModel.ReadTailBlock(view));
    }

    method ReloadFrontBlock()
      requires Valid() && c.pc == CReloadFrontBlock
      modifies this`c, this`view
      ensures Valid() && view == Next(old(view), Action.Consume)
    {
      hide Good, Contents, Next, Observe, Sane, ReaderWriterQueue.Valid, ProducerFits, ProducerStep;
      GoodSane(view);
      var b := queue.LoadFrontBlock();
      c := c.(pc := CReloadTail, block := b);
      Settle(Action.Consume, QueueModel.ReloadFrontBlock(view));
    }

    method ReloadTail()
      requires Valid() && c.pc == CReloadTail
      modifies this`c, this`view, queue`q, c.block`localTail
      ensures Valid() && view == Next(old(view), Action.Consume)
    {
      hide Good, Contents, Next, Observe, Sane, ReaderWriterQueue.Valid, ProducerFits, ProducerStep;
      GoodSane(view);
      var tail := queue.RefreshLocalTail(c.block, view.c.block);
      c := c.(pc := CReloadFront, blockTail := tail);
      Settle(Action.Consume, QueueModel.ReloadTail(view));
    }

    method RecheckFront()
      requires Valid() && c.pc == CReloadFront
      modifies this`c, this`view
      ensures Valid() && view == Next(old(view), Action.Consume)
    {
      hide Good, Contents, Next, Observe, Sane, ReaderWriterQueue.Valid, ProducerFits, ProducerStep;
      GoodSane(view);
      var front := queue.LoadFront(c.block, view.c.block);
      c := if front != c.blockTail then FoundAt(c, c.block, front) else c.(pc := CLoadNext, blockFront := front);
      Settle(Action.Consume, QueueModel.RecheckFront(view));
    }

    method LoadNextBlock()
      requires Valid() && c.pc == CLoadNext
      modifies this`c, this`view
      ensures Valid() && view == Next(old(view), Action.Consume)
    {
      hide Good, Contents, Next, Observe, Sane, ReaderWriterQueue.Valid, ProducerFits, ProducerStep;
      GoodSane(view);
      NotLoose(view);
      var n := queue.LoadNext(c.block, view.c.block);
      c := c.(pc := CNextFront, next := n);
      Settle(Action.Consume, QueueModel.LoadNextBlock(view));
    }

    method LoadNextFront()
      requires Valid() && c.pc == CNextFront
      modifies this`c, this`view
      ensures Valid() && view == Next(old(view), Action.Consume)
    {
      hide Good, Contents, Next, Observe, Sane, ReaderWriterQueue.Valid, ProducerFits, ProducerStep;
      GoodSane(view);
      var front := queue.LoadFront(c.next, view.c.next);
      c := c.(pc := CNextTail, nextFront := front);
      Settle(Action.Consume, QueueModel.LoadNextFront(view));
    }

    method LoadNextTail()
      requires Valid() && c.pc == CNextTail
      modifies this`c, this`view, queue`q, c.next`localTail
      ensures Valid() && view == Next(old(view), Action.Consume)
    {
      hide Good, Contents, Next, Observe, Sane, ReaderWriterQueue.Valid, ProducerFits, ProducerStep;
      GoodSane(view);
      NextNotEmpty(view);
      if c.op == Peek {
        var tail := queue.LoadTail(c.next, view.c.next);
        assert c.nextFront != tail;  // line 416
        c := FoundAt(c, c.next, c.nextFront);
      } else {
        var tail := queue.RefreshLocalTail(c.next, view.c.next);
        assert c.nextFront != tail;  // lines 351 and 467
        c := c.(pc := CStoreFrontBlock);
      }
      Settle(Action.Consume, QueueModel.LoadNextTail(view));
    }

    method StoreFrontBlock()
      requires Valid() && c.pc == CStoreFrontBlock
      modifies this`c, this`view, queue`q, queue`frontBlock
      ensures Valid() && view == Next(old(view), Action.Consume)
    {
      hide Good, Contents, Next, Observe, Sane, ReaderWriterQueue.Valid, ProducerFits, ProducerStep;
      GoodSane(view);
      queue.StoreFrontBlock(c.next, view.c.next);
      c := FoundAt(c, c.next, c.nextFront);
      Settle(Action.Consume, QueueModel.StoreFrontBlock(view));
    }

    method MoveOut()
      requires Valid() && c.pc == CMoveOut
      modifies this`c, this`view
      ensures Valid() && view == Next(old(view), Action.Consume)
    {
      hide Good, Contents, Next, Observe, Sane, ReaderWriterQueue.Valid, ProducerFits, ProducerStep;
      GoodSane(view);
      CellLive(view);
      var v := queue.Element(c.block, view.c.block, c.blockFront);
      c := c.(pc := CDestroy, hand := Some(v));
      Settle(Action.Consume, QueueModel.MoveOut(view));
    }

    method Destroy()
      requires Valid() && c.pc == CDestroy
      modifies this`c, this`view, queue`q, c.block.data
      ensures Valid() && view == Next(old(view), Action.Consume)
    {
      hide Good, Contents, Next, Observe, Sane, Act, ReaderWriterQueue.Valid, ProducerFits, DestroyCell;
      AtDestroy(view);
      CellLive(view);
      var v := queue.Element(c.block, view.c.block, c.blockFront);
      queue.DestroyElement(c.block, view.c.block, c.blockFront);
      c := c.(pc := CStoreFront, hand := if c.op == Pop then Some(v) else c.hand);
      Settle(Action.Consume, QueueModel.Destroy(view));
    }

    method StoreFront()
      requires Valid() && c.pc == CStoreFront
      modifies this`c, this`view, queue`q, c.block`front
      ensures Valid() && view == Next(old(view), Action.Consume)
    {
      hide Good, Contents, Next, Observe, Sane, Act, ReaderWriterQueue.Valid, ProducerFits, BitAnd, Remove;
      AtStoreFront(view);
      var front := queue.Advance(c.block, view.c.block, c.blockFront);
      queue.StoreFront(c.block, view.c.block, front);
      c := c.(pc := CIdle, result := Some(true), pointer := None);  // the element pointed to is gone
      Settle(Action.Consume, QueueModel.StoreFront(view));
    }

    // ---- Schedules -------------------------------------------------------------------

    /** Everything the two threads may change. */
    ghost function Repr(): set<object>
      reads this, queue
    {
      {this, queue} + (set n | n in queue.nodes) + (set n | n in queue.nodes :: n.data)
    }

    /** The producer calls `enqueue` (`canAlloc`) or `try_enqueue`. */
    method BeginEnqueue(v: T, canAlloc: bool)
      requires Valid()
      modifies this`p, this`view
      ensures Valid() && view == Next(old(view), Enqueue(v, canAlloc))
    {
      hide Good, Contents, Next, Observe, Sane, ReaderWriterQueue.Valid, ConsumerStep, ProducerStep;
      if p.pc == PIdle { p := p.(pc := PLoadTailBlock, canAlloc := canAlloc, arg := Some(v), result := None); }
      Settle(Enqueue(v, canAlloc), Act(view, Enqueue(v, canAlloc)));
    }

    /** The consumer calls `try_dequeue`, `pop` or `peek`. */
    method BeginCall(op: ConsumerOp)
      requires Valid()
      modifies this`c, this`view
      ensures Valid() && view == Next(old(view), Call(op))
    {
      hide Good, Contents, Next, Observe, Sane, ReaderWriterQueue.Valid, ConsumerStep, ProducerStep;
      if c.pc == CIdle { c := c.(pc := CLoadFrontBlock, op := op, hand := None, result := None); }
      Settle(Call(op), Act(view, Call(op)));
    }

    /** A step of a thread that is in no call. */
    method Rest(producer: bool, mallocOk: bool)
      requires Valid() && (if producer then p.pc == PIdle else c.pc == CIdle)
      modifies this`view
      ensures Valid() && view == Next(old(view), if producer then Action.Produce(mallocOk) else Action.Consume)
    {
      hide Good, Contents, Next, Observe, Sane, ReaderWriterQueue.Valid;
      ghost var a := if producer then Action.Produce(mallocOk) else Action.Consume;
      StepTo(view, a, view);
      view := Observe(view);
    }

    /** One step of the producer, whatever it is at. */
    method Produce(mallocOk: bool)
      requires Valid()
      modifies Repr()
      ensures Valid() && fresh(Repr() - old(Repr())) && view == Next(old(view), Action.Produce(mallocOk))
    {
      hide Good, Contents, Next, Observe, Sane, ReaderWriterQueue.Valid, ConsumerStep, ProducerStep;
      MallocOnlyThere(view, mallocOk);
      match p.pc
      case PIdle => Rest(true, mallocOk);
      case PLoadTailBlock => LoadTailBlock();
      case PLoadTail => LoadTail();
      case PReloadFront => ReloadFront();
      case PConstruct => Construct();
      case PStoreTail => StoreTail();
      case PLoadNext => LoadNext();
      case PCompareFront => CompareFront();
      case PLoadFreeBlock => LoadFreeBlock();
      case PLoadFreeFront => LoadFreeFront();
      case PLoadFreeTail => LoadFreeTail();
      case PConstructFree => ConstructFree();
      case PStoreFreeTail => StoreFreeTail();
      case PAllocate => Allocate(mallocOk);
      case PConstructNew => ConstructNew();
      case PStoreNewTail => StoreNewTail();
      case PStoreNewNext => StoreNewNext();
      case PLinkNew => LinkNew();
      case PStoreTailBlock => StoreTailBlock();
    }

    /** One step of the consumer, whatever it is at. */
    method Consume()
      requires Valid()
      modifies Repr()
      ensures Valid() && fresh(Repr() - old(Repr())) && view == Next(old(view), Action.Consume)
    {
      hide Good, Contents, Next, Observe, Sane, ReaderWriterQueue.Valid, ConsumerStep, ProducerStep;
      match c.pc
      case CIdle => Rest(false, false);
      case CLoadFrontBlock => LoadFrontBlock();
      case CLoadFront => LoadFront();
      case CLoadTail => ReadFrontTail();
      case CLoadTailBlock => ReadTailBlock();
      case CReloadFrontBlock => ReloadFrontBlock();
      case CReloadTail => ReloadTail();
      case CReloadFront => RecheckFront();
      case CLoadNext => LoadNextBlock();
      case CNextFront => LoadNextFront();
      case CNextTail => LoadNextTail();
      case CStoreFrontBlock => StoreFrontBlock();
      case CMoveOut => MoveOut();
      case CDestroy => Destroy();
      case CStoreFront => StoreFront();
    }

    /** Runs the two threads as `schedule` interleaves them. */
    method RunThreads(schedule: seq<Action<T>>)
      requires Valid()
      modifies Repr()
      ensures Valid() && fresh(Repr() - old(Repr())) && view == Run(old(view), schedule)
    {
      hide Good, Contents, Next, Observe, Sane, Vars, ReaderWriterQueue.Valid, ConsumerStep, ProducerStep;
      var i := 0;
      assert schedule[..0] == [];
      while i < |schedule|
        invariant 0 <= i <= |schedule| && Valid() && view == Run(old(view), schedule[..i])
        invariant fresh(Repr() - old(Repr()))
        decreases |schedule| - i
      {
        assert schedule[..i + 1][..i] == schedule[..i];
        match schedule[i] {
          case Enqueue(v, canAlloc) => BeginEnqueue(v, canAlloc);
          case Produce(mallocOk) => Produce(mallocOk);
          case Call(op) => BeginCall(op);
          case Consume => Consume();
        }
        i := i + 1;
      }
      assert schedule[..i] == schedule;
    }

    /** Lines 204-228, run when neither thread is in a call: over the whole life of the queue every
        element put in is destroyed exactly once, by a removal or here, and every block is freed once. */
    method Destruct() returns (ghost destroyed: seq<T>, ghost freed: seq<BlockNode<T>>)
      requires Valid() && p.pc == PIdle && c.pc == CIdle
      modifies set n | n in queue.nodes :: n.data
      ensures view.enqueued == view.dequeued + destroyed
      ensures forall n :: n in queue.nodes <==> n in freed
      ensures forall i, j :: 0 <= i < j < |freed| ==> freed[i] != freed[j]
      ensures forall n, j :: n in queue.nodes && 0 <= j < n.data.Length ==> n.data[j] == Raw
    {
      hide Good, Contents, Quiet, ReaderWriterQueue.Valid;
      IdleQuiet(view);
      destroyed, freed := QueueDestructor.Destruct(queue);
    }
  }

  /** Between calls nothing is half done. */
  lemma IdleQuiet<T>(s: State<T>)
    requires Good(s) && s.p.pc == PIdle && s.c.pc == CIdle
    ensures Quiet(s.q) && s.enqueued == s.dequeued + Contents(s.q)
  {
    hide RingOk, MasksOk, Contents, Roomy;
    assert RingOk(s.q);
    InOrder(s.q);
  }

  // ---- What the invariant says at these points ----------------------------------------

  /** Only the allocation depends on `malloc`. */
  lemma MallocOnlyThere<T>(s: State<T>, mallocOk: bool)
    ensures s.p.pc != PAllocate ==> Next(s, Action.Produce(mallocOk)) == Next(s, Action.Produce(true))
  {
    hide Contents, Observe, Sane;
  }

  /** The cell about to be constructed is raw memory of the block. */
  lemma TailRaw<T>(s: State<T>)
    requires Good(s) && s.p.pc == PConstruct
    ensures IsRaw(s.q, s.p.block, s.p.blockTail)
  {
    hide MasksOk, Roomy, ConsumerOk, PointerOk, Linked, Witnessed, Contents, IsPow2, BlockOk, Occupied;
    InvSane(s);
    ConstructBlock(s.q.blocks[s.q.tailBlock], s.p.arg.value);
  }

  lemma FreeRaw<T>(s: State<T>)
    requires Good(s) && s.p.pc == PConstructFree
    ensures IsRaw(s.q, s.p.next, s.p.nextTail)
  {
    hide MasksOk, Roomy, ConsumerOk, PointerOk, Linked, Witnessed, Contents, IsPow2, IndicesOk;
    InvSane(s);
    FreeEmpty(s.q);
    InvIndices(s.q.blocks[s.p.next]);
    ConstructBlock(s.q.blocks[s.p.next], s.p.arg.value);
  }

  lemma NewRaw<T>(s: State<T>)
    requires Good(s) && s.p.pc == PConstructNew
    ensures IsRaw(s.q, s.p.next, 0)
  {
    hide MasksOk, Roomy, ConsumerOk, PointerOk, Linked, Witnessed, Contents, IsPow2, Occupied;
    InvSane(s);
    ConstructBlock(s.q.blocks[s.p.next], s.p.arg.value);
  }

  ghost predicate IsRaw<T>(q: Ring<T>, id: nat, i: nat) {
    id < |q.blocks| && i < |q.blocks[id].cells| && q.blocks[id].cells[i].Raw?
  }

  lemma CellLive<T>(s: State<T>)
    requires Good(s) && s.c.pc in {CMoveOut, CDestroy}
    ensures s.c.block < |s.q.blocks|
    ensures var b := s.q.blocks[s.c.block]; s.c.blockFront < |b.cells| && b.cells[s.c.blockFront].Live?
  {
    hide MasksOk, Roomy, ProducerOk, PointerOk, Linked, Witnessed, Contents, IsPow2;
    InvSane(s);
    DestroyBlock(s.q.blocks[s.q.frontBlock]);
  }

  /** Blocks that the threads follow links from are linked in. */
  lemma NotLoose<T>(s: State<T>)
    requires Good(s)
    ensures s.p.pc !in {PIdle, PLoadTailBlock} ==> s.q.loose != Some(s.p.block)
    ensures s.p.pc == PAllocate ==> s.q.loose.None?
    ensures s.c.pc == CLoadNext ==> s.q.loose != Some(s.c.block)
  {
    hide BlockOk, MasksOk, Roomy, PointerOk, Linked, Occupied, Witnessed, Contents;
  }

  lemma NewIsLoose<T>(s: State<T>)
    requires Good(s) && s.p.pc == PLinkNew
    ensures s.q.loose == Some(s.p.next)
  {
  }

  lemma NewIsAtZero<T>(s: State<T>)
    requires Good(s) && s.p.pc == PStoreNewTail
    ensures s.p.next < |s.q.blocks| && s.q.blocks[s.p.next].front == 0
  {
  }

  lemma FreeIsEmpty<T>(s: State<T>)
    requires Good(s) && s.p.pc == PLoadFreeTail
    ensures s.p.next < |s.q.blocks| && s.p.nextFront == s.q.blocks[s.p.next].tail
  {
    hide MasksOk, Roomy, ConsumerOk, PointerOk, Linked, Witnessed, Contents, BlockOk;
    InvSane(s);
    ReadTail(s.q.blocks[s.p.next]);
  }

  lemma NextNotEmpty<T>(s: State<T>)
    requires Good(s) && s.c.pc == CNextTail
    ensures s.c.next < |s.q.blocks| && s.c.nextFront != s.q.blocks[s.c.next].tail
  {
    hide MasksOk, Roomy, ProducerOk, PointerOk, Linked, Witnessed, Contents, BlockOk;
    InvSane(s);
    ReadTail(s.q.blocks[s.c.next]);
  }

  /** Two references are equal exactly when they are the same block. */
  lemma SameNode<T>(queue: ReaderWriterQueue<T>, a: BlockNode<T>, i: nat, b: BlockNode<T>, j: nat)
    requires queue.Valid() && queue.Is(a, i) && queue.Is(b, j)
    ensures a == b <==> i == j
  {
  }
}
