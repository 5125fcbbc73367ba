/** What the queue promises, over every run of one producer and one consumer. */
module QueueTheorems {
  import opened Wrappers
  import opened Bits
  import opened QueueModel
  import opened QueueInvariant
  import opened QueueWrites
  import opened QueueSteps

  // ---- Every step ----------------------------------------------------------------

  lemma ProducerStepKeeps<T>(s: State<T>, m: bool)
    requires Inv(s)
    ensures Inv(ProducerStep(s, m)) && SameOldest(s.q, ProducerStep(s, m).q)
  {
    hide Inv, SameOldest;
    if s.p.pc == PIdle {
      SameStays(s.q);
    } else {
      InvSane(s);
      match s.p.pc
      case PLoadTailBlock => StepLoadTailBlock(s);
      case PLoadTail => StepLoadTail(s);
      case PReloadFront => StepReloadFront(s);
      case PConstruct => StepConstruct(s);
      case PStoreTail => StepStoreTail(s);
      case PLoadNext => StepLoadNext(s);
      case PCompareFront => StepCompareFront(s);
      case PLoadFreeBlock => StepLoadFreeBlock(s);
      case PLoadFreeFront => StepLoadFreeFront(s);
      case PLoadFreeTail => StepLoadFreeTail(s);
      case PConstructFree => StepConstructFree(s);
      case PStoreFreeTail => StepStoreFreeTail(s);
      case PAllocate => StepAllocate(s, m);
      case PConstructNew => StepConstructNew(s);
      case PStoreNewTail => StepStoreNewTail(s);
      case PStoreNewNext => StepStoreNewNext(s);
      case PLinkNew => StepLinkNew(s);
      case PStoreTailBlock => StepStoreTailBlock(s);
    }
  }

  lemma SameStays<T>(q: Ring<T>)
    ensures SameOldest(q, q)
  {
  }

  lemma ConsumerStepKeeps<T>(s: State<T>)
    requires Inv(s)
    ensures Inv(ConsumerStep(s))
  {
    hide Inv;
    if s.c.pc != CIdle {
      InvSane(s);
      match s.c.pc
      case CLoadFrontBlock => StepLoadFrontBlock(s);
      case CLoadFront => StepLoadFront(s);
      case CLoadTail => StepReadFrontTail(s);
      case CLoadTailBlock => StepReadTailBlock(s);
      case CReloadFrontBlock => StepReloadFrontBlock(s);
      case CReloadTail => StepReloadTail(s);
      case CReloadFront => StepRecheckFront(s);
      case CLoadNext => StepLoadNextBlock(s);
      case CNextFront => StepLoadNextFront(s);
      case CNextTail => StepLoadNextTail(s);
      case CStoreFrontBlock => StepStoreFrontBlock(s);
      case CMoveOut => StepMoveOut(s);
      case CDestroy => StepDestroy(s);
      case CStoreFront => StepStoreFront(s);
    }
  }

  lemma ActKeeps<T>(s: State<T>, a: Action<T>)
    requires Inv(s)
    ensures Inv(Act(s, a))
  {
    match a
    case Enqueue(v, canAlloc) =>
      hide RingOk, MasksOk, Roomy, ConsumerOk, PointerOk, Contents;
      ProducerReads(s, Act(s, a));
    case Produce(m) => ProducerStepKeeps(s, m);
    case Call(op) =>
      hide RingOk, MasksOk, Roomy, ProducerOk, Contents;
      ConsumerReads(s, Act(s, a));
    case Consume => ConsumerStepKeeps(s);
  }

  lemma ObserveKeeps<T>(s: State<T>)
    requires Inv(s)
    ensures Inv(Observe(s))
  {
    hide RingOk, MasksOk, Roomy, Contents;
  }

  // ---- What a refusal means --------------------------------------------------------

  /** A consumer about to give up on a one-block arc, or that has given up, saw the queue
      empty; a producer about to give up, or that has given up, saw `size` elements. */
  ghost predicate Witnessed<T>(s: State<T>) {
    && (s.c.pc == CLoadTailBlock && |s.q.arc| == 1 ==> s.c.sawEmpty)
    && (s.c.pc == CIdle && s.c.result == Some(false) ==> s.c.sawEmpty)
    && (s.p.pc in {PLoadNext, PCompareFront} && |s.q.arc| + |s.q.free| == 1 ==> s.p.sawFull)
    && (s.p.pc == PCompareFront && s.q.free == [] ==> s.p.sawFull)
    && (s.p.pc == PAllocate ==> s.p.canAlloc && s.p.sawFull)
    && (s.p.pc == PIdle && s.p.result == Some(false) && !s.p.canAlloc ==> s.p.sawFull)
    && (s.p.pc == PIdle && s.p.result == Some(true) ==>
          s.enqueued != [] && s.p.arg == Some(s.enqueued[|s.enqueued| - 1]))
    && (s.c.pc == CIdle && s.c.op != Peek && s.c.result == Some(true) ==>
          s.dequeued != [] && s.c.hand == Some(s.dequeued[|s.dequeued| - 1]))
    && (s.c.pc == CIdle && s.c.op == Peek && s.c.result.Some? ==> s.c.result.value == s.c.pointer.Some?)
  }

  lemma {:induction false} FlattenLength<T>(blocks: seq<Block<T>>, ids: seq<nat>, k: nat)
    requires forall i :: 0 <= i < |ids| ==> |ItemsOf(blocks, ids[i])| >= k
    ensures |Flatten(blocks, ids)| >= |ids| * k
  {
    if ids != [] {
      FlattenLength(blocks, ids[1..], k);
      assert |ids| * k == k + (|ids| - 1) * k;
    }
  }

  /** With the tail block full, every block but the front one holds at least `base` elements. */
  lemma RestFull<T>(q: Ring<T>)
    requires RingOk(q) && MasksOk(q) && TailFull(q) && |q.arc| >= 2
    ensures forall i :: 0 <= i < |q.arc[1..]| ==> |ItemsOf(q.blocks, q.arc[1..][i])| >= q.base
    ensures |Contents(q)| >= |Flatten(q.blocks, q.arc[1..])|
  {
    hide IsPow2, BlockOk, Linked, Flagged;
    assert forall i :: 0 <= i < |q.arc| - 1 ==> q.arc[1..][i] == q.arc[i + 1];
  }

  lemma RoomEnough<T>(q: Ring<T>, size: nat, held: nat)
    requires Roomy(q, size) && q.free == [] && |q.arc| >= 2 && held >= (|q.arc| - 1) * q.base
    ensures held >= size
  {
    if q.base >= size { MulMono(1, |q.arc| - 1, q.base); }
  }

  /** When the tail block is full and no free block is left, every block but the front one is
      full, so at least `size` elements are held. */
  lemma FullRing<T>(s: State<T>)
    requires Inv(s) && TailFull(s.q) && s.q.free == [] && |s.q.arc| >= 2
    ensures |Contents(s.q)| >= s.size
  {
    hide RingOk, MasksOk, Roomy, ProducerOk, ConsumerOk, PointerOk, Flatten, Contents;
    RestFull(s.q);
    FlattenLength(s.q.blocks, s.q.arc[1..], s.q.base);
    RoomEnough(s.q, s.size, |Contents(s.q)|);
  }

  lemma OneBlock<T>(s: State<T>)
    requires Inv(s) && |s.q.arc| == 1
    ensures s.q.frontBlock == s.q.tailBlock < |s.q.blocks| && Contents(s.q) == s.q.blocks[s.q.frontBlock].items
    ensures |s.q.free| == 0 && |s.q.blocks[s.q.frontBlock].items| == s.q.blocks[s.q.frontBlock].mask ==>
      |Contents(s.q)| >= s.size
  {
    hide IsPow2, BlockOk, Linked, Occupied, ProducerOk, ConsumerOk, PointerOk;
    assert s.q.arc[1..] == [];
    assert Flatten(s.q.blocks, s.q.arc) == ItemsOf(s.q.blocks, s.q.arc[0]) + [];
  }

  lemma SeesFull<T>(s: State<T>)
    requires Inv(s) && s.p.pc in {PLoadNext, PCompareFront}
    ensures s.p.pc == PCompareFront && s.q.free == [] && |s.q.arc| >= 2 ==> |Contents(s.q)| >= s.size
    ensures |s.q.arc| >= 1
  {
    hide RingOk, MasksOk, Roomy, ConsumerOk, PointerOk, Contents;
    RingEnds(s.q);
    if s.q.free == [] && |s.q.arc| >= 2 { FullRing(s); }
  }

  /** What a producer step does to the lists of blocks and to the registers kept over a call. */
  lemma ProducerEffect<T>(s: State<T>, m: bool)
    requires Inv(s)
    ensures var s' := ProducerStep(s, m);
      && s'.c == s.c && s.q.arc <= s'.q.arc && s'.size == s.size
      && (s'.p.pc in {PLoadNext, PCompareFront} ==> s'.q.arc == s.q.arc && s'.q.free == s.q.free)
      && s'.p.sawFull == s.p.sawFull && s'.p.canAlloc == s.p.canAlloc
  {
    hide RingOk, MasksOk, Roomy, ConsumerOk, PointerOk, ProducerFlags, BitAnd, Contents, NewBlockSize, FreshBlock,
      IndicesOk, BlockOk, IsPow2, AdvanceTail, RefreshFront;
    InvSane(s);
  }

  lemma ProducerControl<T>(s: State<T>, m: bool)
    requires Inv(s)
    ensures var s' := ProducerStep(s, m);
      && (s'.p.pc == PLoadNext ==> s.p.pc == PReloadFront && FullTail(s'))
      && (s'.p.pc == PCompareFront ==> s.p.pc == PLoadNext)
      && (s'.p.pc == PAllocate ==> s.p.canAlloc && s.p.pc == PCompareFront && s.q.free == [])
      && (s'.p.pc == PIdle && s'.p.result == Some(false) ==>
            || (s.p.pc == PCompareFront && s.q.free == [] && !s.p.canAlloc)
            || (s.p.pc == PAllocate && !m) || s' == s)
      && (s'.p.pc == PIdle && s'.p.result == Some(true) ==>
            s' == s || (s'.p.arg.Some? && s'.enqueued == s.enqueued + [s'.p.arg.value]))
      && s'.dequeued == s.dequeued && s.enqueued <= s'.enqueued
  {
    hide RingOk, MasksOk, Roomy, ConsumerOk, PointerOk, ProducerFlags, BitAnd, Contents, NewBlockSize, FreshBlock,
      IndicesOk, BlockOk;
    InvSane(s);
    TailNext(s.q);
    if s.p.pc == PReloadFront { ReadFront(s.q.blocks[s.q.tailBlock]); }
  }

  ghost predicate FullTail<T>(s: State<T>) {
    s.q.tailBlock < |s.q.blocks| && |s.q.blocks[s.q.tailBlock].items| == s.q.blocks[s.q.tailBlock].mask
  }

  lemma WitnessProducer<T>(s: State<T>, m: bool)
    requires Inv(s) && Witnessed(s)
    ensures Witnessed(Observe(ProducerStep(s, m)))
  {
    hide RingOk, MasksOk, Roomy, ConsumerOk, PointerOk, BlockOk, IsPow2, BitAnd, ProducerStep, Contents;
    var s1 := ProducerStep(s, m);
    ProducerStepKeeps(s, m);
    ProducerEffect(s, m);
    ProducerControl(s, m);
    RingEnds(s.q);
    if s1.p.pc in {PLoadNext, PCompareFront} {
      SeesFull(s1);
      if s1.p.pc == PLoadNext && |s1.q.arc| == 1 { OneBlock(s1); }
    }
  }

  /** What a consumer step does to the lists of blocks and to the registers kept over a call. */
  lemma ConsumerEffect<T>(s: State<T>)
    requires Inv(s)
    ensures var s' := ConsumerStep(s);
      && s'.p == s.p && s'.size == s.size && s'.c.sawEmpty == s.c.sawEmpty
      && |s'.q.arc| + |s'.q.free| == |s.q.arc| + |s.q.free| && (s'.q.free == [] ==> s.q.free == [])
  {
    hide RingOk, MasksOk, Roomy, ProducerOk, ConsumerOk, PointerOk, BitAnd, IndicesOk, BlockOk, Contents;
    InvSane(s);
    RingEnds(s.q);
    if s.c.pc == CStoreFrontBlock { MovesFrom(s); }
  }

  lemma MovesFrom<T>(s: State<T>)
    requires Inv(s) && s.c.pc == CStoreFrontBlock
    ensures |s.q.arc| >= 2
  {
  }

  lemma EmptySeen<T>(s: State<T>)
    requires Inv(s)
    ensures var s' := ConsumerStep(s);
      s'.c.pc == CLoadTailBlock && |s'.q.arc| == 1 ==> s.c.pc == CLoadTail && Contents(s'.q) == []
  {
    hide RingOk, MasksOk, Roomy, ProducerOk, PointerOk, BitAnd, IndicesOk, BlockOk, Contents;
    InvSane(s);
    RingEnds(s.q);
    ConsumerStepKeeps(s);
    ReadTail(s.q.blocks[s.q.frontBlock]);
    if |ConsumerStep(s).q.arc| == 1 { OneBlock(ConsumerStep(s)); }
  }

  lemma ConsumerControl<T>(s: State<T>)
    requires Inv(s)
    ensures var s' := ConsumerStep(s);
      && (s'.c.pc == CIdle && s'.c.result == Some(false) ==> s' == s || (s.c.pc == CLoadTailBlock && |s.q.arc| == 1))
      && (s'.c.pc == CIdle && s'.c.op != Peek && s'.c.result == Some(true) ==>
            s' == s || (s'.c.hand.Some? && s'.dequeued == s.dequeued + [s'.c.hand.value]))
      && (s'.c.pc == CIdle && s'.c.op == Peek && s'.c.result.Some? ==>
            s' == s || s'.c.result.value == s'.c.pointer.Some?)
      && s'.enqueued == s.enqueued && s.dequeued <= s'.dequeued
  {
    hide RingOk, MasksOk, Roomy, ProducerOk, PointerOk, BitAnd, IndicesOk, BlockOk, Contents;
    InvSane(s);
    FrontIsTail(s.q);
  }

  lemma WitnessConsumer<T>(s: State<T>)
    requires Inv(s) && Witnessed(s)
    ensures Witnessed(Observe(ConsumerStep(s)))
  {
    hide RingOk, MasksOk, Roomy, ProducerOk, ConsumerOk, PointerOk, ConsumerStep, Contents;
    var s1 := ConsumerStep(s);
    ConsumerStepKeeps(s);
    ConsumerEffect(s);
    EmptySeen(s);
    ConsumerControl(s);
    if s1.p.pc in {PLoadNext, PCompareFront} { SeesFull(s1); }
  }

  /** The full invariant of reachable states. */
  ghost predicate Good<T>(s: State<T>) { Inv(s) && Witnessed(s) }

  lemma NextGood<T>(s: State<T>, a: Action<T>)
    requires Good(s)
    ensures Good(Next(s, a))
  {
    hide RingOk, MasksOk, Roomy, ProducerOk, ConsumerOk, PointerOk, ConsumerStep, ProducerStep, Contents;
    ActKeeps(s, a);
    ObserveKeeps(Act(s, a));
    match a
    case Enqueue(v, canAlloc) =>
    case Produce(m) => WitnessProducer(s, m);
    case Call(op) =>
    case Consume => WitnessConsumer(s);
  }

  lemma {:induction false} RunGood<T>(s: State<T>, actions: seq<Action<T>>)
    requires Good(s)
    ensures Good(Run(s, actions))
    decreases |actions|
  {
    if actions != [] {
      RunGood(s, actions[..|actions| - 1]);
      NextGood(Run(s, actions[..|actions| - 1]), actions[|actions| - 1]);
    }
  }

  // ---- Refusals, told by the run alone ------------------------------------------------

  predicate StartsCall<T>(s: State<T>, a: Action<T>) { a.Call? && s.c.pc == CIdle }

  predicate StartsEnqueue<T>(s: State<T>, a: Action<T>) { a.Enqueue? && s.p.pc == PIdle }

  /** The run after its first `k` actions. */
  function At<T>(s: State<T>, actions: seq<Action<T>>, k: nat): State<T>
    requires k <= |actions|
  {
    Run(s, actions[..k])
  }

  /** The queue was empty at an instant since which the consumer has begun no other call. */
  ghost predicate EmptyDuringCall<T>(s: State<T>, actions: seq<Action<T>>) {
    exists k: nat :: k <= |actions| && Contents(At(s, actions, k).q) == [] && At(s, actions, k).c.pc != CIdle
      && forall j :: k <= j < |actions| ==> !StartsCall(At(s, actions, j), actions[j])
  }

  /** The queue held `size` elements at an instant since which the producer has begun no other call. */
  ghost predicate FullDuringCall<T>(s: State<T>, actions: seq<Action<T>>) {
    exists k: nat :: k <= |actions| && |Contents(At(s, actions, k).q)| >= s.size && At(s, actions, k).p.pc != PIdle
      && forall j :: k <= j < |actions| ==> !StartsEnqueue(At(s, actions, j), actions[j])
  }

  lemma RunLast<T>(s: State<T>, actions: seq<Action<T>>)
    ensures actions != [] ==> Run(s, actions) == Next(Run(s, actions[..|actions| - 1]), actions[|actions| - 1])
    ensures actions == [] ==> Run(s, actions) == s
    ensures At(s, actions, |actions|) == Run(s, actions)
    ensures actions != [] ==> At(s, actions, |actions| - 1) == Run(s, actions[..|actions| - 1])
  {
    hide Next;
    assert actions[..|actions|] == actions;
  }

  lemma AtPrefix<T>(s: State<T>, actions: seq<Action<T>>, k: nat)
    requires actions != [] && k <= |actions| - 1
    ensures At(s, actions[..|actions| - 1], k) == At(s, actions, k)
  {
    assert actions[..|actions| - 1][..k] == actions[..k];
  }

  lemma SawNothing<T>(s: State<T>, a: Action<T>)
    requires Good(s)
    ensures var s' := Next(s, a);
      && s'.size == s.size
      && (s'.c.sawEmpty ==> (Contents(s'.q) == [] && s'.c.pc != CIdle) || (s.c.sawEmpty && !StartsCall(s, a)))
      && (s'.p.sawFull ==> (|Contents(s'.q)| >= s'.size && s'.p.pc != PIdle) || (s.p.sawFull && !StartsEnqueue(s, a)))
  {
    hide RingOk, MasksOk, Roomy, ProducerOk, ConsumerOk, PointerOk, ConsumerStep, ProducerStep, Contents, Witnessed;
    match a
    case Enqueue(v, canAlloc) =>
    case Produce(m) => ProducerEffect(s, m);
    case Call(op) =>
    case Consume => ConsumerEffect(s);
  }

  lemma {:induction false} SawEmptyMeans<T>(s: State<T>, actions: seq<Action<T>>)
    requires Good(s) && !s.c.sawEmpty && Run(s, actions).c.sawEmpty
    ensures EmptyDuringCall(s, actions)
    decreases |actions|
  {
    hide Good, Contents, Next, StartsCall, Run, At;
    var n := |actions|;
    RunLast(s, actions);
    if actions != [] {
      var prefix := actions[..n - 1];
      RunGood(s, prefix);
      SawNothing(Run(s, prefix), actions[n - 1]);
      if !(Contents(Run(s, actions).q) == [] && Run(s, actions).c.pc != CIdle) {
        SawEmptyMeans(s, prefix);
        var k: nat :| k <= |prefix| && Contents(At(s, prefix, k).q) == [] && At(s, prefix, k).c.pc != CIdle
          && forall j :: k <= j < |prefix| ==> !StartsCall(At(s, prefix, j), prefix[j]);
        AtPrefix(s, actions, k);
        forall j | k <= j < n ensures !StartsCall(At(s, actions, j), actions[j]) {
          if j < n - 1 { AtPrefix(s, actions, j); assert !StartsCall(At(s, prefix, j), prefix[j]); }
        }
      }
    }
  }

  lemma {:induction false} SawFullMeans<T>(s: State<T>, actions: seq<Action<T>>)
    requires Good(s) && !s.p.sawFull && Run(s, actions).p.sawFull
    ensures FullDuringCall(s, actions) && Run(s, actions).size == s.size
    decreases |actions|
  {
    hide Good, Contents, Next, StartsEnqueue, Run, At;
    var n := |actions|;
    RunSize(s, actions);
    RunLast(s, actions);
    if actions != [] {
      var prefix := actions[..n - 1];
      RunGood(s, prefix);
      SawNothing(Run(s, prefix), actions[n - 1]);
      if !(|Contents(Run(s, actions).q)| >= s.size && Run(s, actions).p.pc != PIdle) {
        SawFullMeans(s, prefix);
        var k: nat :| k <= |prefix| && |Contents(At(s, prefix, k).q)| >= s.size && At(s, prefix, k).p.pc != PIdle
          && forall j :: k <= j < |prefix| ==> !StartsEnqueue(At(s, prefix, j), prefix[j]);
        AtPrefix(s, actions, k);
        forall j | k <= j < n ensures !StartsEnqueue(At(s, actions, j), actions[j]) {
          if j < n - 1 { AtPrefix(s, actions, j); assert !StartsEnqueue(At(s, prefix, j), prefix[j]); }
        }
      }
    }
  }

  lemma {:induction false} RunSize<T>(s: State<T>, actions: seq<Action<T>>)
    requires Good(s)
    ensures Run(s, actions).size == s.size
    decreases |actions|
  {
    hide Good, Next;
    if actions != [] {
      RunGood(s, actions[..|actions| - 1]);
      RunSize(s, actions[..|actions| - 1]);
      SawNothing(Run(s, actions[..|actions| - 1]), actions[|actions| - 1]);
    }
  }

  // ---- What a call has done -----------------------------------------------------------

  /** The consumer's call that began with `before` removed has taken out nothing so far, or has
      returned: with one element more when a removal answers true, with nothing otherwise. */
  ghost predicate Taken<T>(s: State<T>, before: seq<T>) {
    if s.c.pc != CIdle then s.dequeued == before
    else
      && s.c.result.Some?
      && (if s.c.result.value && s.c.op != Peek then s.c.hand.Some? && s.dequeued == before + [s.c.hand.value]
          else s.dequeued == before)
  }

  /** The producer's call that began with `before` put in has added nothing so far, or has
      returned: with its argument added when it answers true, with nothing otherwise. */
  ghost predicate Added<T>(s: State<T>, before: seq<T>) {
    && s.p.arg.Some?
    && if s.p.pc != PIdle then s.enqueued == before
       else s.p.result.Some? && s.enqueued == (if s.p.result.value then before + [s.p.arg.value] else before)
  }

  lemma GoodInv<T>(s: State<T>)
    requires Good(s)
    ensures Inv(s)
  {
  }

  lemma RestStays<T>(s: State<T>, a: Action<T>)
    ensures a.Produce? && s.p.pc == PIdle ==> ProducerStep(s, a.mallocOk) == s
    ensures a.Consume? && s.c.pc == CIdle ==> ConsumerStep(s) == s
  {
    hide BitAnd, Contents;
  }

  lemma ConsumerTakes<T>(s: State<T>)
    requires Inv(s) && s.c.pc != CIdle
    ensures Taken(ConsumerStep(s), s.dequeued) && ConsumerStep(s).c.op == s.c.op
  {
    hide RingOk, MasksOk, Roomy, ProducerOk, PointerOk, BitAnd, IndicesOk, BlockOk, Contents, RefreshTail,
      AdvanceFront, MoveFrontBlock;
    InvSane(s);
  }

  lemma ProducerAdds<T>(s: State<T>, m: bool)
    requires Inv(s) && s.p.pc != PIdle
    ensures Added(ProducerStep(s, m), s.enqueued) && ProducerStep(s, m).p.arg == s.p.arg
    ensures ProducerStep(s, m).p.canAlloc == s.p.canAlloc
  {
    hide RingOk, MasksOk, Roomy, ConsumerOk, PointerOk, ProducerFlags, BitAnd, Contents, NewBlockSize, FreshBlock,
      IndicesOk, BlockOk;
    InvSane(s);
  }

  lemma NextTaken<T>(s: State<T>, a: Action<T>, before: seq<T>)
    requires Good(s) && Taken(s, before) && !StartsCall(s, a)
    ensures Taken(Next(s, a), before) && Next(s, a).c.op == s.c.op
  {
    hide Good, Contents, ConsumerStep, ProducerStep;
    GoodInv(s);
    RestStays(s, a);
    match a
    case Enqueue(v, canAlloc) =>
    case Produce(m) =>
      ProducerEffect(s, m);
      ProducerControl(s, m);
    case Call(op) =>
    case Consume => if s.c.pc != CIdle { ConsumerTakes(s); }
  }

  lemma NextAdded<T>(s: State<T>, a: Action<T>, before: seq<T>)
    requires Good(s) && Added(s, before) && !StartsEnqueue(s, a)
    ensures Added(Next(s, a), before) && Next(s, a).p.arg == s.p.arg && Next(s, a).p.canAlloc == s.p.canAlloc
  {
    hide Good, Contents, ConsumerStep, ProducerStep;
    GoodInv(s);
    RestStays(s, a);
    match a
    case Enqueue(v, canAlloc) =>
    case Produce(m) => if s.p.pc != PIdle { ProducerAdds(s, m); }
    case Call(op) =>
    case Consume =>
      ConsumerEffect(s);
      ConsumerControl(s);
  }

  /** Action `k` starts the consumer's last call of the run. */
  ghost predicate LastCall<T>(s: State<T>, actions: seq<Action<T>>, k: nat) {
    && k < |actions| && StartsCall(At(s, actions, k), actions[k])
    && forall j :: k < j < |actions| ==> !StartsCall(At(s, actions, j), actions[j])
  }

  ghost predicate LastEnqueue<T>(s: State<T>, actions: seq<Action<T>>, k: nat) {
    && k < |actions| && StartsEnqueue(At(s, actions, k), actions[k])
    && forall j :: k < j < |actions| ==> !StartsEnqueue(At(s, actions, j), actions[j])
  }

  /** Over every run: until the consumer's call returns nothing has been taken out since it began;
      then exactly one element, the one it hands over, when a removal answers true, else nothing. */
  lemma {:induction false} CallEffect<T>(s: State<T>, actions: seq<Action<T>>, k: nat)
    requires Good(s) && LastCall(s, actions, k)
    ensures Taken(Run(s, actions), At(s, actions, k).dequeued) && Run(s, actions).c.op == actions[k].op
    decreases |actions|
  {
    hide Good, Run, At, ProducerStep, ConsumerStep, Contents;
    var n := |actions| - 1;
    RunLast(s, actions);
    if k < n {
      hide Taken, Next, StartsCall;
      var prefix := actions[..n];
      AtPrefix(s, actions, k);
      forall j | k < j < n ensures !StartsCall(At(s, prefix, j), prefix[j]) { AtPrefix(s, actions, j); }
      CallEffect(s, prefix, k);
      RunGood(s, prefix);
      NextTaken(Run(s, prefix), actions[n], At(s, actions, k).dequeued);
    } else {
      RunGood(s, actions[..n]);
      NotFaulty(Run(s, actions[..n]));
    }
  }

  lemma NotFaulty<T>(s: State<T>)
    requires Good(s)
    ensures !s.fault
  {
  }

  /** The same for the producer's call, which adds its argument when it answers true. */
  lemma {:induction false} EnqueueEffect<T>(s: State<T>, actions: seq<Action<T>>, k: nat)
    requires Good(s) && LastEnqueue(s, actions, k)
    ensures Added(Run(s, actions), At(s, actions, k).enqueued)
    ensures Run(s, actions).p.arg == Some(actions[k].value) && Run(s, actions).p.canAlloc == actions[k].canAlloc
    decreases |actions|
  {
    hide Good, Run, At, ProducerStep, ConsumerStep, Contents;
    var n := |actions| - 1;
    RunLast(s, actions);
    if k < n {
      hide Added, Next, StartsEnqueue;
      var prefix := actions[..n];
      AtPrefix(s, actions, k);
      forall j | k < j < n ensures !StartsEnqueue(At(s, prefix, j), prefix[j]) { AtPrefix(s, actions, j); }
      EnqueueEffect(s, prefix, k);
      RunGood(s, prefix);
      NextAdded(Run(s, prefix), actions[n], At(s, actions, k).enqueued);
    } else {
      RunGood(s, actions[..n]);
      NotFaulty(Run(s, actions[..n]));
    }
  }

  // ---- Construction ------------------------------------------------------------------

  /** The block-count formula reserves `size` slots besides one block. */
  lemma BlockCountSuffices(size: nat, maxBlock: nat)
    requires maxBlock >= 2
    ensures ((size + maxBlock * 2 - 3) / (maxBlock - 1) - 1) * (maxBlock - 1) >= size
    ensures (size + maxBlock * 2 - 3) / (maxBlock - 1) >= 1
  {
    var m := maxBlock - 1;
    var n := size + maxBlock * 2 - 3;
    DivPositive(n, m);
    assert (n / m - 1) * m == (n / m) * m - m;
  }

  ghost predicate IsFreshRing<T>(q: Ring<T>, n: nat, count: nat) {
    && count >= 1 && n >= 1
    && q == Ring(RingOf(n, count), 0, 0, n, q.maxBlock, [0], Ids(1, count), None, false, None, None, n - 1)
  }

  lemma FreshShape<T>(q: Ring<T>, n: nat, count: nat)
    requires n >= 2 && IsFreshRing(q, n, count)
    ensures Shape(q) && |q.free| == count - 1 && forall i :: 0 <= i < |q.free| ==> q.free[i] == 1 + i
  {
    hide RingOf, Ids, RawCells;
    assert forall i :: 0 <= i < |q.free| ==> q.free[i] == 1 + i;
    forall id | 0 <= id < count ensures id in q.arc || id in q.free {
      if id > 0 { assert q.free[id - 1] == id; } else { assert q.arc[0] == 0; }
    }
  }

  /** A ring of fresh blocks of one size is in order. */
  lemma FreshRing<T>(q: Ring<T>, n: nat, count: nat)
    requires n >= 2 && IsPow2(n) && IsFreshRing(q, n, count)
    ensures RingOk(q) && MasksOk(q) && |q.arc| + |q.free| == count && Contents(q) == []
  {
    hide BlockOk, IsPow2, RingOf, Ids, RawCells, Shape;
    FreshShape(q, n, count);
    forall id | 0 <= id < count ensures BlockOk(q.blocks[id]) {
      FreshBlockOk<T>(n, if id + 1 == count then 0 else id + 1);
    }
    assert forall i :: 0 <= i < |q.free| ==> q.blocks[q.free[i]] == FreshBlock(n, if i + 2 == count then 0 else i + 2);
    assert q.arc[1..] == [];
    assert Flatten(q.blocks, q.arc) == ItemsOf(q.blocks, 0) + Flatten(q.blocks, q.arc[1..]);
  }

  /** The threads before their first calls. */
  lemma InitThreads<T>(s: State<T>, size: nat, maxBlock: nat)
    requires maxBlock >= 2 && s == Init(size, maxBlock) && RingOk(s.q) && MasksOk(s.q) && Roomy(s.q, size)
    requires Contents(s.q) == []
    ensures Good(s)
  {
    hide RingOk, MasksOk, Roomy, Contents, InitialBlockSize, InitialBlockCount, RingOf, Ids;
    InOrder(s.q);
    OneInArc(s.q);
  }

  lemma OneInArc<T>(q: Ring<T>)
    requires Shape(q)
    ensures q.frontBlock < |q.blocks| && q.tailBlock < |q.blocks|
  {
  }

  lemma InitGood<T>(size: nat, maxBlock: nat)
    requires 1 <= size < HALF_WORD && maxBlock >= 2 && IsPow2(maxBlock)
    ensures Good(Init<T>(size, maxBlock))
  {
    hide RingOk, MasksOk, IsPow2, Contents, LeastPow2, InitialBlockCount, InitialBlockSize, Good, RingOf, Ids;
    var q: Ring<T> := InitialRing(size, maxBlock);
    InitialSizes(size, maxBlock);
    FreshRing<T>(q, InitialBlockSize(size, maxBlock), InitialBlockCount(size, maxBlock));
    InitThreads<T>(Init(size, maxBlock), size, maxBlock);
  }

  lemma InitialSizes(size: nat, maxBlock: nat)
    requires 1 <= size < HALF_WORD && maxBlock >= 2 && IsPow2(maxBlock)
    ensures var n, count := InitialBlockSize(size, maxBlock), InitialBlockCount(size, maxBlock);
      && n >= 2 && IsPow2(n) && count >= 1 && (n - 1 >= size || (count - 1) * (n - 1) >= size)
  {
    hide IsPow2, LeastPow2;
    LeastPow2Above(size + 1);
    BlockCountSuffices(size, maxBlock);
  }

  // ---- The promises --------------------------------------------------------------------

  /** Whatever the interleaving: no assert fails, no cell is read, destroyed or constructed
      over wrongly, and the elements taken out are the first of those put in, in order. A
      refused `try_dequeue` or `pop` (or a null `peek`) means the queue was empty during the
      call, and a `peek` that does not answer null has a pointer; a refused `try_enqueue` means at
      least `size` elements were held during the call, and so does an allocation by `enqueue`. */
  lemma QueueSafety<T>(size: nat, maxBlock: nat, actions: seq<Action<T>>)
    requires 1 <= size < HALF_WORD && maxBlock >= 2 && IsPow2(maxBlock)
    ensures var s0: State<T> := Init(size, maxBlock); var s := Run(s0, actions);
      && !s.fault && s.enqueued == s.dequeued + Contents(s.q)
      && (s.c.pc == CIdle && s.c.result == Some(false) ==> EmptyDuringCall(s0, actions))
      && (s.p.pc == PIdle && s.p.result == Some(false) && !s.p.canAlloc ==> FullDuringCall(s0, actions))
      && (s.p.pc == PIdle && s.p.result == Some(true) ==>
            s.enqueued != [] && s.p.arg == Some(s.enqueued[|s.enqueued| - 1]))
      && (s.p.pc == PAllocate ==> s.p.canAlloc && FullDuringCall(s0, actions))
      && (s.c.pc == CIdle && s.c.op != Peek && s.c.result == Some(true) ==>
            s.dequeued != [] && s.c.hand == Some(s.dequeued[|s.dequeued| - 1]))
      && (s.c.pc == CIdle && s.c.op == Peek && s.c.result.Some? ==> s.c.result.value == s.c.pointer.Some?)
  {
    hide RingOk, MasksOk, Roomy, ProducerOk, ConsumerOk, PointerOk, Run, InitialRing, EmptyDuringCall, FullDuringCall,
      Contents;
    InitGood<T>(size, maxBlock);
    var s0: State<T> := Init(size, maxBlock);
    RunGood(s0, actions);
    if Run(s0, actions).c.sawEmpty { SawEmptyMeans(s0, actions); }
    if Run(s0, actions).p.sawFull { SawFullMeans(s0, actions); }
  }

  lemma NextGrows<T>(s: State<T>, a: Action<T>)
    requires Good(s)
    ensures s.dequeued <= Next(s, a).dequeued && s.enqueued <= Next(s, a).enqueued
  {
    hide RingOk, MasksOk, Roomy, ProducerOk, ConsumerOk, PointerOk, ConsumerStep, ProducerStep, Contents, Witnessed;
    match a
    case Enqueue(v, canAlloc) =>
    case Produce(m) => ProducerControl(s, m);
    case Call(op) =>
    case Consume => ConsumerControl(s);
  }

  lemma {:induction false} RunGrows<T>(s: State<T>, more: seq<Action<T>>)
    requires Good(s)
    ensures s.dequeued <= Run(s, more).dequeued && s.enqueued <= Run(s, more).enqueued
    decreases |more|
  {
    hide Good, Next;
    if more != [] {
      RunGood(s, more[..|more| - 1]);
      RunGrows(s, more[..|more| - 1]);
      NextGrows(Run(s, more[..|more| - 1]), more[|more| - 1]);
    }
  }

  /** Blocks whose items and front indices stay hold the oldest element where it was. */
  lemma OldestStays<T>(q: Ring<T>, q': Ring<T>)
    requires q'.arc == q.arc && |q'.blocks| == |q.blocks|
    requires forall id :: 0 <= id < |q.blocks| ==>
      q'.blocks[id].items == q.blocks[id].items && q'.blocks[id].front == q.blocks[id].front
    ensures Oldest(q') == Oldest(q)
  {
  }

  lemma OldestMoves<T>(q: Ring<T>)
    requires RingOk(q) && FrontDone(q)
    ensures Oldest(MoveFrontBlock(q, q.arc[1])) == Oldest(q)
  {
    hide BlocksOk, Linked, Flagged, Contents;
  }

  /** No step of the consumer moves the oldest element, except the one that removes it. */
  lemma ConsumerOldest<T>(s: State<T>)
    requires Inv(s) && s.c.pc != CStoreFront
    ensures Oldest(ConsumerStep(s).q) == Oldest(s.q)
  {
    hide RingOk, MasksOk, Roomy, ProducerOk, PointerOk, BitAnd, IndicesOk, BlockOk, Contents, Oldest, StoreFront;
    InvSane(s);
    if s.c.pc == CStoreFrontBlock {
      OldestMoves(s.q);
    } else {
      OldestStays(s.q, ConsumerStep(s).q);
    }
  }

  lemma NextOldest<T>(s: State<T>, a: Action<T>)
    requires Good(s) && Contents(s.q) != []
    ensures |Next(s, a).dequeued| == |s.dequeued| ==>
      Oldest(Next(s, a).q) == Oldest(s.q) && Contents(Next(s, a).q) != []
  {
    hide RingOk, MasksOk, Roomy, ProducerOk, PointerOk, ConsumerStep, ProducerStep, Contents, Witnessed, Oldest;
    NextGood(s, a);
    NextGrows(s, a);
    match a
    case Enqueue(v, canAlloc) =>
    case Produce(m) => ProducerStepKeeps(s, m);
    case Call(op) =>
    case Consume => if s.c.pc == CStoreFront { Removes(s); } else { ConsumerOldest(s); }
  }

  lemma Removes<T>(s: State<T>)
    requires Inv(s) && s.c.pc == CStoreFront
    ensures |ConsumerStep(s).dequeued| == |s.dequeued| + 1
  {
    hide RingOk, MasksOk, Roomy, ProducerOk, PointerOk, BitAnd, IndicesOk, BlockOk, Contents;
    InvSane(s);
  }

  /** As long as nothing is removed the oldest element stays where it is. */
  lemma {:induction false} RunOldest<T>(s: State<T>, more: seq<Action<T>>)
    requires Good(s) && Contents(s.q) != []
    ensures |Run(s, more).dequeued| == |s.dequeued| ==>
      Oldest(Run(s, more).q) == Oldest(s.q) && Contents(Run(s, more).q) != []
    decreases |more|
  {
    hide Good, Next, Oldest, Contents;
    if more != [] {
      var prefix := more[..|more| - 1];
      RunGood(s, prefix);
      RunGrows(s, prefix);
      NextGrows(Run(s, prefix), more[|more| - 1]);
      if |Run(s, more).dequeued| == |s.dequeued| {
        RunOldest(s, prefix);
        NextOldest(Run(s, prefix), more[|more| - 1]);
      }
    }
  }

  /** The cell `at` is constructed and holds `v`. */
  ghost predicate LiveAt<T>(q: Ring<T>, at: (nat, nat), v: T) {
    at.0 < |q.blocks| && at.1 < |q.blocks[at.0].cells| && q.blocks[at.0].cells[at.1] == Live(v)
  }

  /** The oldest element is in its cell until it has been destroyed. */
  lemma OldestLive<T>(s: State<T>)
    requires Good(s) && Contents(s.q) != []
    ensures s.c.pc != CStoreFront ==> LiveAt(s.q, Oldest(s.q), Contents(s.q)[0])
  {
    hide MasksOk, Roomy, ProducerOk, PointerOk, Linked, Witnessed, IsPow2;
    var q, id := s.q, Oldest(s.q).0;
    OldestItem(q);
    assert BlockOk(q.blocks[id]);
    assert q.blocks[id].cells[q.blocks[id].front] == Expected(q.blocks[id], q.blocks[id].front);
  }

  lemma OldestItem<T>(q: Ring<T>)
    requires RingOk(q) && Contents(q) != []
    ensures var (id, i) := Oldest(q);
      id < |q.blocks| && i == q.blocks[id].front && q.blocks[id].items != [] && q.blocks[id].items[0] == Contents(q)[0]
  {
    hide BlocksOk, Linked, Flagged;
    assert Contents(q) == q.blocks[q.arc[0]].items + Flatten(q.blocks, q.arc[1..]);
    if |q.arc| == 1 {
      assert q.arc[1..] == [];
    } else if q.blocks[q.arc[0]].items == [] {
      assert q.arc[1..][0] == q.arc[1];
      assert Flatten(q.blocks, q.arc[1..]) == q.blocks[q.arc[1]].items + Flatten(q.blocks, q.arc[1..][1..]);
      assert Contents(q) == Flatten(q.blocks, q.arc[1..]);
    }
  }

  /** A pointer returned by `peek` is to the oldest element. */
  lemma Pointed<T>(s: State<T>)
    requires Good(s) && s.c.pointer.Some?
    ensures Contents(s.q) != [] && s.c.peeked == Some(Contents(s.q)[0]) && s.c.pointer.value == Oldest(s.q)
  {
    hide MasksOk, Roomy, ProducerOk, ConsumerOk, Linked, Witnessed, IsPow2, BlocksOk, Flagged;
    var q, id := s.q, s.c.pointer.value.0;
    assert Contents(q) == q.blocks[q.arc[0]].items + Flatten(q.blocks, q.arc[1..]);
    if id != q.arc[0] {
      assert q.arc[1..][0] == q.arc[1];
      assert Flatten(q.blocks, q.arc[1..]) == q.blocks[q.arc[1]].items + Flatten(q.blocks, q.arc[1..][1..]);
      assert Contents(q) == Flatten(q.blocks, q.arc[1..]);
    }
    OldestItem(q);
  }

  /** The element whose address `peek` returned stays constructed at that address, and is the
      next one removed, until the consumer itself destroys it. */
  lemma PeekStable<T>(size: nat, maxBlock: nat, actions: seq<Action<T>>, more: seq<Action<T>>)
    requires 1 <= size < HALF_WORD && maxBlock >= 2 && IsPow2(maxBlock)
    requires Run(Init<T>(size, maxBlock), actions).c.pointer.Some?
    ensures var s := Run(Init<T>(size, maxBlock), actions); var s' := Run(s, more);
      && Contents(s.q) != [] && s.c.peeked == Some(Contents(s.q)[0])
      && (|s'.dequeued| == |s.dequeued| && s'.c.pc != CStoreFront ==>
            LiveAt(s'.q, s.c.pointer.value, Contents(s.q)[0]))
      && s.dequeued <= s'.dequeued
      && (|s'.dequeued| > |s.dequeued| ==> s'.dequeued[|s.dequeued|] == Contents(s.q)[0])
  {
    hide RingOk, MasksOk, Roomy, ProducerOk, ConsumerOk, PointerOk, Run, Contents, Witnessed, Oldest, LiveAt;
    InitGood<T>(size, maxBlock);
    var s := Run(Init<T>(size, maxBlock), actions);
    RunGood(Init<T>(size, maxBlock), actions);
    RunGood(s, more);
    RunGrows(s, more);
    Pointed(s);
    RunOldest(s, more);
    var k, s' := |s.dequeued|, Run(s, more);
    assert s'.enqueued[k] == s.enqueued[k] == Contents(s.q)[0];
    if |s'.dequeued| > k {
      assert s'.enqueued[k] == s'.dequeued[k];
    } else {
      OldestLive(s');
      assert s'.enqueued[k] == Contents(s'.q)[0];
    }
  }

  /** `enqueue` (which may allocate) is refused only when a `malloc` fails. */
  lemma {:induction false} EnqueueAlwaysFits<T>(size: nat, maxBlock: nat, actions: seq<Action<T>>)
    requires 1 <= size < HALF_WORD && maxBlock >= 2 && IsPow2(maxBlock)
    requires forall i :: 0 <= i < |actions| ==> actions[i] != Produce(false)
    ensures var s := Run(Init<T>(size, maxBlock), actions);
      s.p.pc == PIdle && s.p.canAlloc ==> s.p.result != Some(false)
    decreases |actions|
  {
    hide Good, ProducerStep, ConsumerStep, Contents, InitialRing;
    if actions != [] {
      var prefix, a := actions[..|actions| - 1], actions[|actions| - 1];
      EnqueueAlwaysFits<T>(size, maxBlock, prefix);
      InitGood<T>(size, maxBlock);
      RunGood(Init<T>(size, maxBlock), prefix);
      var s := Run(Init<T>(size, maxBlock), prefix);
      GoodInv(s);
      if a.Produce? {
        ProducerEffect(s, a.mallocOk);
        ProducerControl(s, a.mallocOk);
      } else if a.Consume? {
        ConsumerEffect(s);
      }
    }
  }

  // ---- Wait-freedom ------------------------------------------------------------------------

  /** How many of its own steps a call may still take. */
  function ProducerRank(pc: ProducerPc): nat {
    match pc
    case PIdle => 0
    case PLoadTailBlock => 11
    case PLoadTail => 10
    case PReloadFront => 9
    case PLoadNext => 8
    case PCompareFront => 7
    case PLoadFreeBlock => 6
    case PLoadFreeFront => 5
    case PLoadFreeTail => 4
    case PConstructFree => 3
    case PAllocate => 6
    case PConstructNew => 5
    case PStoreNewTail => 4
    case PStoreNewNext => 3
    case PConstruct => 2
    case PStoreFreeTail => 2
    case PLinkNew => 2
    case PStoreTail => 1
    case PStoreTailBlock => 1
  }

  function ConsumerRank(pc: ConsumerPc): nat {
    match pc
    case CIdle => 0
    case CLoadFrontBlock => 14
    case CLoadFront => 13
    case CLoadTail => 12
    case CLoadTailBlock => 11
    case CReloadFrontBlock => 10
    case CReloadTail => 9
    case CReloadFront => 8
    case CLoadNext => 7
    case CNextFront => 6
    case CNextTail => 5
    case CStoreFrontBlock => 4
    case CMoveOut => 3
    case CDestroy => 2
    case CStoreFront => 1
  }

  lemma ProducerProgress<T>(s: State<T>, m: bool)
    requires Inv(s)
    ensures var s' := ProducerStep(s, m); s.p.pc != PIdle ==> ProducerRank(s'.p.pc) < ProducerRank(s.p.pc)
  {
    hide RingOk, MasksOk, Roomy, ProducerOk, ConsumerOk, PointerOk, BlockOk, IndicesOk, IsPow2, BitAnd, Contents, Put,
      RefreshFront, RefreshTail, Build, AdvanceTail, Publish, PublishAhead, AddBlock, PublishNew, SetNext, Splice,
      MoveTailBlock, MoveFrontBlock, DestroyCell, AdvanceFront, Remove, ItemsOf;
    ProducerStepKeeps(s, m);
    InvSane(s);
  }

  lemma ConsumerProgress<T>(s: State<T>)
    requires Inv(s)
    ensures var s' := ConsumerStep(s); s.c.pc != CIdle ==> ConsumerRank(s'.c.pc) < ConsumerRank(s.c.pc)
  {
    hide RingOk, MasksOk, Roomy, ProducerOk, ConsumerOk, PointerOk, BlockOk, IndicesOk, IsPow2, BitAnd, Contents, Put,
      RefreshFront, RefreshTail, Build, AdvanceTail, Publish, PublishAhead, AddBlock, PublishNew, SetNext, Splice,
      MoveTailBlock, MoveFrontBlock, DestroyCell, AdvanceFront, Remove, ItemsOf;
    ConsumerStepKeeps(s);
    InvSane(s);
  }

  function Count<T(==)>(actions: seq<Action<T>>, producer: bool): nat {
    if actions == [] then 0
    else Count(actions[..|actions| - 1], producer)
         + (if (if producer then actions[|actions| - 1].Produce? else actions[|actions| - 1].Consume?) then 1 else 0)
  }

  function Less(a: nat, b: nat): nat { if a >= b then a - b else 0 }

  /** A step of the producer lowers its rank; a step of the consumer, or a call of it, leaves
      the producer where it is. */
  lemma ProducerRanks<T>(s: State<T>, a: Action<T>)
    requires Good(s) && !StartsEnqueue(s, a)
    ensures ProducerRank(Next(s, a).p.pc) <= Less(ProducerRank(s.p.pc), if a.Produce? then 1 else 0)
  {
    hide Good, Contents, ProducerStep, ConsumerStep, ProducerRank;
    GoodInv(s);
    RestStays(s, a);
    RestRanks();
    if a.Produce? {
      ProducerProgress(s, a.mallocOk);
    } else if a.Consume? {
      ConsumerEffect(s);
    }
  }

  lemma ConsumerRanks<T>(s: State<T>, a: Action<T>)
    requires Good(s) && !StartsCall(s, a)
    ensures ConsumerRank(Next(s, a).c.pc) <= Less(ConsumerRank(s.c.pc), if a.Consume? then 1 else 0)
  {
    hide Good, Contents, ProducerStep, ConsumerStep, ConsumerRank;
    GoodInv(s);
    RestStays(s, a);
    RestRanks();
    if a.Consume? {
      ConsumerProgress(s);
    } else if a.Produce? {
      ProducerEffect(s, a.mallocOk);
    }
  }

  lemma RestRanks()
    ensures ProducerRank(PIdle) == 0 == ConsumerRank(CIdle)
    ensures forall pc :: ProducerRank(pc) <= 11 && (ProducerRank(pc) == 0 ==> pc == PIdle)
    ensures forall pc :: ConsumerRank(pc) <= 14 && (ConsumerRank(pc) == 0 ==> pc == CIdle)
  {
  }

  /** A call of the producer returns within 11 steps of its own thread, whatever the consumer
      does meanwhile and however many calls it makes. */
  lemma {:induction false} ProducerWaitFree<T>(s: State<T>, actions: seq<Action<T>>)
    requires Good(s)
    requires forall i :: 0 <= i < |actions| ==> !StartsEnqueue(At(s, actions, i), actions[i])
    ensures ProducerRank(Run(s, actions).p.pc) <= Less(ProducerRank(s.p.pc), Count(actions, true))
    ensures Count(actions, true) >= 11 ==> Run(s, actions).p.pc == PIdle
    decreases |actions|
  {
    hide Good, Next, ProducerRank, StartsEnqueue, At;
    RestRanks();
    RunLast(s, actions);
    if actions != [] {
      var prefix := actions[..|actions| - 1];
      forall i | 0 <= i < |prefix| ensures !StartsEnqueue(At(s, prefix, i), prefix[i]) {
        AtPrefix(s, actions, i);
      }
      ProducerWaitFree(s, prefix);
      RunGood(s, prefix);
      ProducerRanks(Run(s, prefix), actions[|actions| - 1]);
    }
  }

  /** A call of the consumer returns within 14 steps of its own thread, whatever the producer
      does meanwhile and however many calls it makes. */
  lemma {:induction false} ConsumerWaitFree<T>(s: State<T>, actions: seq<Action<T>>)
    requires Good(s)
    requires forall i :: 0 <= i < |actions| ==> !StartsCall(At(s, actions, i), actions[i])
    ensures ConsumerRank(Run(s, actions).c.pc) <= Less(ConsumerRank(s.c.pc), Count(actions, false))
    ensures Count(actions, false) >= 14 ==> Run(s, actions).c.pc == CIdle
    decreases |actions|
  {
    hide Good, Next, ConsumerRank, StartsCall, At;
    RestRanks();
    RunLast(s, actions);
    if actions != [] {
      var prefix := actions[..|actions| - 1];
      forall i | 0 <= i < |prefix| ensures !StartsCall(At(s, prefix, i), prefix[i]) {
        AtPrefix(s, actions, i);
      }
      ConsumerWaitFree(s, prefix);
      RunGood(s, prefix);
      ConsumerRanks(Run(s, prefix), actions[|actions| - 1]);
    }
  }

  // ---- Block sizes -------------------------------------------------------------------------

  lemma BlockCountLeast(size: nat, maxBlock: nat)
    requires maxBlock >= 2 && size >= 1
    ensures ((size + maxBlock * 2 - 3) / (maxBlock - 1) - 2) * (maxBlock - 1) < size
  {
    var m := maxBlock - 1;
    var n := size + maxBlock * 2 - 3;
    DivPositive(n, m);
    assert (n / m - 2) * m == (n / m) * m - 2 * m;
  }

  /** The blocks a queue starts with: one of the least power of two above `size`, or, when that is
      more than twice the maximum, the least number of maximal blocks that leaves room for `size`
      elements besides one block. */
  lemma InitialExact<T>(size: nat, maxBlock: nat)
    requires 1 <= size < HALF_WORD && maxBlock >= 2
    ensures var blocks := InitialRing<T>(size, maxBlock).blocks;
      if LeastPow2(size + 1) <= 2 * maxBlock then |blocks| == 1 && blocks[0].mask + 1 == LeastPow2(size + 1)
      else
        && (|blocks| - 1) * (maxBlock - 1) >= size > (|blocks| - 2) * (maxBlock - 1)
        && forall i :: 0 <= i < |blocks| ==> blocks[i].mask + 1 == maxBlock
  {
    hide LeastPow2;
    LeastPow2Above(size + 1);
    BlockCountSuffices(size, maxBlock);
    BlockCountLeast(size, maxBlock);
  }

  /** Blocks keep their sizes; a block added is as large as the largest, or twice that while it is
      below the maximum. */
  ghost predicate Resized<T>(q: Ring<T>, q': Ring<T>) {
    && q'.maxBlock == q.maxBlock && |q'.blocks| >= |q.blocks|
    && (forall id :: 0 <= id < |q.blocks| ==> q'.blocks[id].mask == q.blocks[id].mask)
    && (|q'.blocks| == |q.blocks| ==> q'.largest == q.largest)
    && (|q'.blocks| > |q.blocks| ==>
          && |q'.blocks| == |q.blocks| + 1 && q'.blocks[|q.blocks|].mask + 1 == q'.largest
          && q'.largest == if q.largest < q.maxBlock then 2 * q.largest else q.largest)
  }

  /** A block is added exactly by an allocation that succeeds, and nothing changes a block's size. */
  lemma ProducerSizes<T>(s: State<T>, m: bool)
    requires Inv(s)
    ensures Resized(s.q, ProducerStep(s, m).q)
    ensures |ProducerStep(s, m).q.blocks| > |s.q.blocks| <==> s.p.pc == PAllocate && m
  {
    hide RingOk, MasksOk, Roomy, ProducerOk, ConsumerOk, PointerOk, BitAnd, Contents, IndicesOk, BlockOk, IsPow2;
    InvSane(s);
  }

  lemma ConsumerSizes<T>(s: State<T>)
    requires Inv(s)
    ensures Resized(s.q, ConsumerStep(s).q) && |ConsumerStep(s).q.blocks| == |s.q.blocks|
  {
    hide RingOk, MasksOk, Roomy, ProducerOk, ConsumerOk, PointerOk, BitAnd, Contents, IndicesOk, BlockOk, IsPow2;
    InvSane(s);
  }

  lemma {:induction false} Pow2Gap(a: nat, b: nat)
    requires IsPow2(a) && IsPow2(b) && a < b
    ensures 2 * a <= b
    decreases a
  {
    if a > 1 { Pow2Gap(a / 2, b / 2); }
  }

  /** `largest` is the size of the largest block, at most `bound`. */
  ghost predicate SizedBy<T>(q: Ring<T>, bound: nat) {
    && q.largest <= bound && q.maxBlock <= bound
    && (forall id :: 0 <= id < |q.blocks| ==> q.blocks[id].mask + 1 <= q.largest)
    && (exists id :: 0 <= id < |q.blocks| && q.blocks[id].mask + 1 == q.largest)
  }

  lemma SizedOn<T>(q: Ring<T>, q': Ring<T>, bound: nat)
    requires SizedBy(q, bound) && Resized(q, q') && IsPow2(q.largest) && IsPow2(q.maxBlock)
    ensures SizedBy(q', bound)
  {
    hide IsPow2;
    if q.largest < q.maxBlock { Pow2Gap(q.largest, q.maxBlock); }
    var id :| 0 <= id < |q.blocks| && q.blocks[id].mask + 1 == q.largest;
    assert q'.blocks[id].mask == q.blocks[id].mask;
    if |q'.blocks| > |q.blocks| { assert q'.blocks[|q.blocks|].mask + 1 == q'.largest; }
  }

  lemma NextSizes<T>(s: State<T>, a: Action<T>, bound: nat)
    requires Good(s) && SizedBy(s.q, bound) && IsPow2(s.q.maxBlock)
    ensures SizedBy(Next(s, a).q, bound) && Next(s, a).q.maxBlock == s.q.maxBlock
  {
    hide Good, SizedBy, ProducerStep, ConsumerStep, Contents, IsPow2;
    GoodInv(s);
    LargestPow2(s);
    match a
    case Enqueue(v, canAlloc) =>
    case Produce(m) =>
      ProducerSizes(s, m);
      SizedOn(s.q, ProducerStep(s, m).q, bound);
    case Call(op) =>
    case Consume =>
      ConsumerSizes(s);
      SizedOn(s.q, ConsumerStep(s).q, bound);
  }

  lemma LargestPow2<T>(s: State<T>)
    requires Inv(s)
    ensures IsPow2(s.q.largest)
  {
    hide IsPow2, RingOk, Roomy;
  }

  /** Over every run no block is larger than the maximum or than the blocks the queue starts with. */
  lemma {:induction false} BlockSizes<T>(size: nat, maxBlock: nat, actions: seq<Action<T>>)
    requires 1 <= size < HALF_WORD && maxBlock >= 2 && IsPow2(maxBlock)
    ensures var s0: State<T> := Init(size, maxBlock); var q := Run(s0, actions).q; var first := s0.q.largest;
      SizedBy(q, if first > maxBlock then first else maxBlock) && q.maxBlock == maxBlock
    decreases |actions|
  {
    hide Good, Next, InitialRing, IsPow2, SizedBy;
    if actions == [] {
      FirstSizes<T>(size, maxBlock);
    } else {
      var prefix := actions[..|actions| - 1];
      var s0: State<T> := Init(size, maxBlock);
      BlockSizes(size, maxBlock, prefix);
      InitGood<T>(size, maxBlock);
      RunGood(s0, prefix);
      NextSizes(Run(s0, prefix), actions[|actions| - 1], if s0.q.largest > maxBlock then s0.q.largest else maxBlock);
    }
  }

  lemma FirstSizes<T>(size: nat, maxBlock: nat)
    requires 1 <= size < HALF_WORD && maxBlock >= 2 && IsPow2(maxBlock)
    ensures var q := InitialRing<T>(size, maxBlock);
      SizedBy(q, if q.largest > maxBlock then q.largest else maxBlock) && q.maxBlock == maxBlock
  {
    hide IsPow2, InitialBlockSize, InitialBlockCount;
    InitialSizes(size, maxBlock);
    var q := InitialRing<T>(size, maxBlock);
    assert q.blocks[0].mask + 1 == q.largest;
  }
}
