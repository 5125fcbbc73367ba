/** `BlockingReaderWriterQueue`: the queue with a semaphore that counts its elements. The asserts
    that a wait is always followed by a successful removal hold only across the two threads. */
module BlockingQueue {
  import opened Wrappers
  import opened Bits
  import opened QueueModel
  import opened QueueInvariant
  import opened QueueTheorems
  import QueueSteps
  import S = Semaphore

  datatype Request = TryDequeue | WaitDequeue | WaitDequeueTimed(usecs: int) | TryPop | PeekFront

  datatype ProducerPhase = PRest | PInner | PSignal
  datatype ConsumerPhase = CRest | CWait | CInner

  /** The inner queue, the semaphore, and where each thread is in its call; `put` and `got` are
      the results of the last finished calls. */
  datatype Blocking<T> = Blocking(
    inner: State<T>, sema: S.Sema, producer: ProducerPhase, consumer: ConsumerPhase, request: Request,
    put: Option<bool>, got: Option<bool>, fault: bool)

  function Start<T>(size: nat, maxBlock: nat): Blocking<T>
    requires maxBlock >= 2
  {
    Blocking(QueueModel.Init(size, maxBlock), S.Init(0), PRest, CRest, TryDequeue, None, None, false)
  }

  function ModeOf(r: Request): S.Mode {
    match r
    case WaitDequeue => S.Wait(-1)
    case WaitDequeueTimed(usecs) => S.Wait(usecs)
    case _ => S.Try
  }

  function OpOf(r: Request): ConsumerOp {
    match r
    case TryPop => Pop
    case PeekFront => Peek
    case _ => Dequeue
  }

  // ---- The calls, line by line ------------------------------------------------------

  /** `if (inner.try_enqueue(..)) { sema->signal(); return true; } return false;` */
  function ProducerMove<T>(b: Blocking<T>, mallocOk: bool): Blocking<T> {
    match b.producer
    case PRest => b
    case PInner =>
      var i := Next(b.inner, Action.Produce(mallocOk));
      if i.p.pc != PIdle then b.(inner := i)
      else if i.p.result == Some(true) then b.(inner := i, producer := PSignal, sema := S.BeginSignal(b.sema, 1))
      else b.(inner := i, producer := PRest, put := Some(false))
    case PSignal =>
      var s := S.SignalStep(b.sema);
      if s.signaller.SIdle? then b.(sema := s, producer := PRest, put := Some(true)) else b.(sema := s)
  }

  /** The semaphore wait of the request has returned `s`. `wait_dequeue` repeats a failed wait. */
  function Waited<T>(b: Blocking<T>, s: S.Sema): Blocking<T> {
    if s.waiter.result == Some(true) then
      b.(sema := s, consumer := CInner, inner := Next(b.inner, Action.Call(OpOf(b.request))))
    else if b.request.WaitDequeue? then b.(sema := S.BeginWait(s, S.Wait(-1)))
    else b.(sema := s, consumer := CRest, got := Some(false))
  }

  /** The inner call has returned; unless it was `peek`, it must have succeeded (lines 865,
      881, 900 and 938). */
  function Removed<T>(b: Blocking<T>, i: State<T>): Blocking<T> {
    b.(inner := i, consumer := CRest, got := i.c.result,
       fault := b.fault || (b.request != PeekFront && i.c.result != Some(true)))
  }

  function ConsumerMove<T>(b: Blocking<T>, woken: bool): Blocking<T> {
    match b.consumer
    case CRest => b
    case CWait =>
      var s := S.WaitStep(b.sema, woken);
      if s.waiter.pc != S.WIdle then b.(sema := s) else Waited(b, s)
    case CInner =>
      var i := Next(b.inner, Action.Consume);
      if i.c.pc != CIdle then b.(inner := i) else Removed(b, i)
  }

  datatype Move<T> =
    | Put(value: T, canAlloc: bool) | Producing(mallocOk: bool) | Get(request: Request) | Consuming(woken: bool)

  function Step<T>(b: Blocking<T>, m: Move<T>): Blocking<T> {
    match m
    case Put(v, canAlloc) =>
      if b.producer != PRest then b
      else b.(inner := Next(b.inner, Action.Enqueue(v, canAlloc)), producer := PInner, put := None)
    case Producing(mallocOk) => ProducerMove(b, mallocOk)
    case Get(r) =>
      if b.consumer != CRest then b
      else if r == PeekFront then
        b.(inner := Next(b.inner, Action.Call(Peek)), consumer := CInner, request := r, got := None)
      else b.(sema := S.BeginWait(b.sema, ModeOf(r)), consumer := CWait, request := r, got := None)
    case Consuming(woken) => ConsumerMove(b, woken)
  }

  function Steps<T>(b: Blocking<T>, moves: seq<Move<T>>): Blocking<T>
    decreases |moves|
  {
    if moves == [] then b else Step(Steps(b, moves[..|moves| - 1]), moves[|moves| - 1])
  }

  // ---- Invariant --------------------------------------------------------------------

  /** The consumer holds a permit for an element it has not removed yet. */
  function InHand<T>(b: Blocking<T>): nat { if b.consumer == CInner && b.request != PeekFront then 1 else 0 }

  ghost predicate ProducerPhaseOk<T>(b: Blocking<T>) {
    match b.producer
    case PRest => b.inner.p.pc == PIdle && b.sema.signaller == S.SIdle
    case PInner => b.inner.p.pc != PIdle && b.sema.signaller == S.SIdle
    case PSignal => b.inner.p.pc == PIdle && (b.sema.signaller == S.SAdd(1) || b.sema.signaller == S.SPost)
  }

  ghost predicate ConsumerPhaseOk<T>(b: Blocking<T>) {
    match b.consumer
    case CRest => b.inner.c.pc == CIdle && b.sema.waiter.pc == S.WIdle
    case CWait => b.inner.c.pc == CIdle && b.sema.waiter.pc != S.WIdle && b.request != PeekFront
    case CInner =>
      && b.inner.c.pc != CIdle && b.sema.waiter.pc == S.WIdle && b.inner.c.op == OpOf(b.request)
      && (b.request != PeekFront ==> !b.inner.c.sawEmpty)
  }

  /** Every element held is a permit, an element about to be signalled, or the one whose permit
      the consumer has taken. */
  ghost predicate BlockingOk<T>(b: Blocking<T>) {
    && !b.fault && Good(b.inner) && S.Good(b.sema) && b.sema.initial == 0
    && ProducerPhaseOk(b) && ConsumerPhaseOk(b)
    && |b.inner.enqueued| == b.sema.signalled + S.Unsignalled(b.sema)
    && b.sema.acquired == |b.inner.dequeued| + InHand(b)
  }

  lemma Balance<T>(b: Blocking<T>)
    requires BlockingOk(b)
    ensures |Contents(b.inner.q)| == S.Permits(b.sema) + S.Unsignalled(b.sema) + InHand(b)
    ensures 0 <= S.Permits(b.sema) <= |Contents(b.inner.q)|
  {
    hide RingOk, MasksOk, Roomy, ProducerOk, ConsumerOk, PointerOk, Witnessed, Contents;
  }

  // ---- What the inner steps do ---------------------------------------------------------

  /** A call that returns true has added, or taken out, one element; nothing else does. */
  lemma ProducerCounts<T>(s: State<T>, m: bool)
    requires Inv(s)
    ensures var s' := QueueModel.ProducerStep(s, m);
      && s'.dequeued == s.dequeued
      && |s'.enqueued| == |s.enqueued| +
           (if s.p.pc != PIdle && s'.p.pc == PIdle && s'.p.result == Some(true) then 1 else 0)
  {
    hide RingOk, MasksOk, Roomy, ConsumerOk, PointerOk, ProducerFlags, BitAnd, Contents, NewBlockSize, FreshBlock,
      IndicesOk, BlockOk;
    QueueSteps.InvSane(s);
  }

  lemma ConsumerCounts<T>(s: State<T>)
    requires Inv(s)
    ensures var s' := QueueModel.ConsumerStep(s);
      && s'.enqueued == s.enqueued && s'.c.op == s.c.op
      && |s'.dequeued| == |s.dequeued| +
           (if s.c.pc != CIdle && s'.c.pc == CIdle && s'.c.result == Some(true) && s.c.op != Peek then 1 else 0)
      && (s.c.pc != CIdle && s'.c.pc == CIdle ==> s'.c.result == Some(true) || s'.c.result == Some(false))
  {
    hide RingOk, MasksOk, Roomy, ProducerOk, PointerOk, BitAnd, Contents, IndicesOk, BlockOk, RefreshTail,
      AdvanceFront, MoveFrontBlock;
    QueueSteps.InvSane(s);
  }

  lemma InnerProduces<T>(s: State<T>, m: bool)
    requires Good(s)
    ensures var s' := Next(s, Action.Produce(m));
      && Good(s') && s'.dequeued == s.dequeued
      && |s'.enqueued| == |s.enqueued| +
           (if s.p.pc != PIdle && s'.p.pc == PIdle && s'.p.result == Some(true) then 1 else 0)
      && SameConsumer(s, s')
  {
    hide RingOk, MasksOk, Roomy, ProducerOk, ConsumerOk, PointerOk, Contents, Witnessed, QueueModel.ProducerStep,
      QueueModel.ConsumerStep;
    NextGood(s, Action.Produce(m));
    ProducerCounts(s, m);
    ProducerEffect(s, m);
  }

  /** The consumer's registers are as before, and the queue may have been seen empty only if it is. */
  ghost predicate SameConsumer<T>(s: State<T>, s': State<T>) {
    s'.c == s.c.(sawEmpty := s'.c.sawEmpty) && (s'.c.sawEmpty ==> s.c.sawEmpty || Contents(s'.q) == [])
  }

  ghost predicate SameProducer<T>(s: State<T>, s': State<T>) { s'.p == s.p.(sawFull := s'.p.sawFull) }

  lemma InnerConsumes<T>(s: State<T>)
    requires Good(s)
    ensures var s' := Next(s, Action.Consume);
      && Good(s') && s'.enqueued == s.enqueued && SameProducer(s, s') && s'.c.op == s.c.op
      && |s'.dequeued| == |s.dequeued| +
           (if s.c.pc != CIdle && s'.c.pc == CIdle && s'.c.result == Some(true) && s.c.op != Peek then 1 else 0)
      && (s'.c.sawEmpty ==> s.c.sawEmpty || (s'.c.pc != CIdle && Contents(s'.q) == []))
      && (s.c.pc != CIdle && s'.c.pc == CIdle && s'.c.result != Some(true) ==> s'.c.sawEmpty)
  {
    hide RingOk, MasksOk, Roomy, ProducerOk, ConsumerOk, PointerOk, Contents, QueueModel.ProducerStep,
      QueueModel.ConsumerStep;
    NextGood(s, Action.Consume);
    ConsumerCounts(s);
    ConsumerEffect(s);
  }

  lemma InnerStarts<T>(s: State<T>, a: Action<T>)
    requires Good(s) && ((a.Enqueue? && s.p.pc == PIdle) || (a.Call? && s.c.pc == CIdle))
    ensures var s' := Next(s, a);
      && Good(s') && s'.enqueued == s.enqueued && s'.dequeued == s.dequeued && s'.q == s.q
      && (a.Enqueue? ==> s'.p.pc != PIdle && SameConsumer(s, s'))
      && (a.Call? ==>
            SameProducer(s, s') && s'.c.pc != CIdle && s'.c.op == a.op && (s'.c.sawEmpty ==> Contents(s.q) == []))
  {
    hide RingOk, MasksOk, Roomy, ProducerOk, ConsumerOk, PointerOk, Witnessed, Contents;
    NextGood(s, a);
  }

  // ---- Every move ---------------------------------------------------------------------

  lemma ProducerMoveOk<T>(b: Blocking<T>, m: bool)
    requires BlockingOk(b) && S.Permits(ProducerMove(b, m).sema) < HALF_WORD
    ensures BlockingOk(ProducerMove(b, m))
  {
    hide Good, Contents, Next, S.Inv;
    match b.producer
    case PRest =>
    case PInner =>
      InnerProduces(b.inner, m);
      HandHeld(b, Next(b.inner, Action.Produce(m)));
      S.NextGood(b.sema, S.Signals(1));
    case PSignal =>
      S.NextGood(b.sema, S.SignallerStep);
  }

  /** While the consumer has a permit in hand, a producer step leaves an element for it. */
  lemma HandHeld<T>(b: Blocking<T>, i: State<T>)
    requires BlockingOk(b) && Good(i) && |b.inner.enqueued| <= |i.enqueued| && i.dequeued == b.inner.dequeued
    ensures InHand(b) == 1 ==> Contents(i.q) != []
  {
  }

  lemma ConsumerMoveOk<T>(b: Blocking<T>, woken: bool)
    requires BlockingOk(b) && S.Permits(b.sema) < HALF_WORD
    ensures BlockingOk(ConsumerMove(b, woken))
  {
    hide Good, Contents, Next, S.Inv;
    match b.consumer
    case CRest =>
    case CWait =>
      var s := S.WaitStep(b.sema, woken);
      S.WaitTakes(b.sema, woken);
      if s.waiter.pc == S.WIdle && s.waiter.result == Some(true) {
        InnerStarts(b.inner, Action.Call(OpOf(b.request)));
        PermitMeansElement(b, s);
      }
    case CInner =>
      InnerConsumes(b.inner);
      if Next(b.inner, Action.Consume).c.pc != CIdle { HandHeldOn(b, Next(b.inner, Action.Consume)); }
  }

  lemma PermitMeansElement<T>(b: Blocking<T>, s: S.Sema)
    requires BlockingOk(b) && S.Good(s) && s.initial == 0 && s.signaller == b.sema.signaller
    requires s.signalled == b.sema.signalled
    requires s.acquired == b.sema.acquired + 1 && b.consumer == CWait
    ensures Contents(b.inner.q) != []
  {
    hide RingOk, MasksOk, Roomy, ProducerOk, ConsumerOk, PointerOk, Witnessed, Contents;
  }

  lemma HandHeldOn<T>(b: Blocking<T>, i: State<T>)
    requires BlockingOk(b) && Good(i) && i.enqueued == b.inner.enqueued && |i.dequeued| == |b.inner.dequeued|
    ensures InHand(b) == 1 ==> Contents(i.q) != []
  {
    hide RingOk, MasksOk, Roomy, ProducerOk, ConsumerOk, PointerOk, Witnessed, Contents;
  }

  lemma StepOk<T>(b: Blocking<T>, m: Move<T>)
    requires BlockingOk(b) && S.Permits(b.sema) < HALF_WORD && S.Permits(Step(b, m).sema) < HALF_WORD
    ensures BlockingOk(Step(b, m))
  {
    hide Good, Contents, Next, S.Inv;
    match m
    case Put(v, canAlloc) =>
      if b.producer == PRest {
        InnerStarts(b.inner, Action.Enqueue(v, canAlloc));
        HandHeldOn(b, Next(b.inner, Action.Enqueue(v, canAlloc)));
      }
    case Producing(mallocOk) => ProducerMoveOk(b, mallocOk);
    case Get(r) =>
      if b.consumer == CRest {
        InnerStarts(b.inner, Action.Call(Peek));
        S.NextGood(b.sema, S.Waits(ModeOf(r)));
      }
    case Consuming(woken) => ConsumerMoveOk(b, woken);
  }

  // ---- Every run ------------------------------------------------------------------------

  lemma PermitsBound<T>(b: Blocking<T>, m: Move<T>)
    requires BlockingOk(b)
    ensures S.Permits(b.sema) <= |Contents(b.inner.q)| && S.Permits(Step(b, m).sema) <= |Contents(b.inner.q)|
  {
    hide Good, Contents, Next, S.Inv;
    Balance(b);
  }

  /** The number of elements held always fits the semaphore's 64-bit count. */
  ghost predicate Bounded<T>(b: Blocking<T>, moves: seq<Move<T>>) {
    forall k :: 0 <= k < |moves| ==> |Contents(Steps(b, moves[..k]).inner.q)| < HALF_WORD
  }

  lemma {:induction false} StepsOk<T>(b: Blocking<T>, moves: seq<Move<T>>)
    requires BlockingOk(b) && Bounded(b, moves)
    ensures BlockingOk(Steps(b, moves))
    decreases |moves|
  {
    hide BlockingOk, Contents, Step;
    if moves != [] {
      var n := |moves| - 1;
      forall k | 0 <= k < n ensures |Contents(Steps(b, moves[..n][..k]).inner.q)| < HALF_WORD {
        assert moves[..n][..k] == moves[..k];
      }
      StepsOk(b, moves[..n]);
      assert |Contents(Steps(b, moves[..n]).inner.q)| < HALF_WORD;
      PermitsBound(Steps(b, moves[..n]), moves[n]);
      StepOk(Steps(b, moves[..n]), moves[n]);
    }
  }

  lemma StartPhases<T>(size: nat, maxBlock: nat)
    requires maxBlock >= 2
    ensures var b := Start<T>(size, maxBlock);
      && !b.fault && b.inner == QueueModel.Init(size, maxBlock) && b.sema == S.Init(0) && b.sema.initial == 0
      && ProducerPhaseOk(b) && ConsumerPhaseOk(b)
      && |b.inner.enqueued| == 0 == b.sema.signalled + S.Unsignalled(b.sema)
      && b.sema.acquired == 0 == |b.inner.dequeued| + InHand(b)
  {
    hide InitialRing, Contents;
  }

  lemma SemaStart()
    ensures S.Good(S.Init(0))
  {
  }

  lemma StartOk<T>(size: nat, maxBlock: nat)
    requires 1 <= size < HALF_WORD && maxBlock >= 2 && IsPow2(maxBlock)
    ensures BlockingOk(Start<T>(size, maxBlock))
  {
    hide Good, Start, QueueModel.Init, S.Good, ProducerPhaseOk, ConsumerPhaseOk;
    StartPhases<T>(size, maxBlock);
    SemaStart();
    InitGood<T>(size, maxBlock);
  }

  /** Whatever the interleaving: a wait that succeeds is always followed by a removal that
      succeeds, no assert of the queue or the semaphore fails, the elements come out in the
      order they went in, and permits never exceed the elements held. */
  lemma BlockingSafety<T>(size: nat, maxBlock: nat, moves: seq<Move<T>>)
    requires 1 <= size < HALF_WORD && maxBlock >= 2 && IsPow2(maxBlock) && Bounded(Start<T>(size, maxBlock), moves)
    ensures var b := Steps(Start<T>(size, maxBlock), moves);
      && !b.fault && !b.inner.fault && !b.sema.fault
      && b.inner.enqueued == b.inner.dequeued + Contents(b.inner.q)
      && 0 <= S.Permits(b.sema) <= |Contents(b.inner.q)|
      && (b.producer == PRest && b.consumer != CInner ==> S.Permits(b.sema) == |Contents(b.inner.q)|)
  {
    hide Start, Steps, Contents, RingOk, MasksOk, Roomy, ProducerOk, ConsumerOk, PointerOk, Witnessed;
    StartOk<T>(size, maxBlock);
    StepsOk(Start<T>(size, maxBlock), moves);
    Balance(Steps(Start<T>(size, maxBlock), moves));
  }

  // ---- What the calls answer ------------------------------------------------------------

  predicate BeginsGet<T>(b: Blocking<T>, m: Move<T>) { m.Get? && b.consumer == CRest }

  predicate BeginsPut<T>(b: Blocking<T>, m: Move<T>) { m.Put? && b.producer == PRest }

  /** The consumer's call `r` that began with `before` taken out: nothing has been taken out since
      until it returns; then one element, the one it hands over, when it answers true, else nothing.
      `wait_dequeue` never answers false; `peek` takes nothing and answers whether it has a pointer. */
  ghost predicate Getting<T>(b: Blocking<T>, r: Request, before: seq<T>) {
    && b.request == r
    && if b.consumer != CRest then b.inner.dequeued == before
       else
         && b.got.Some?
         && (if r == PeekFront then b.inner.dequeued == before && b.got.value == b.inner.c.pointer.Some?
             else if b.got.value then b.inner.c.hand.Some? && b.inner.dequeued == before + [b.inner.c.hand.value]
             else b.inner.dequeued == before && !r.WaitDequeue?)
  }

  /** The producer's call that began with `before` put in: it adds its argument exactly when it
      answers true, and its answer is that of the queue inside. */
  ghost predicate Putting<T>(b: Blocking<T>, v: T, canAlloc: bool, before: seq<T>) {
    && b.inner.p.arg == Some(v) && b.inner.p.canAlloc == canAlloc
    && match b.producer
       case PInner => b.inner.enqueued == before
       case PSignal => b.inner.enqueued == before + [v] && b.inner.p.result == Some(true)
       case PRest =>
         && b.put.Some? && b.inner.enqueued == (if b.put.value then before + [v] else before)
         && b.inner.p.result == b.put
  }

  lemma InnerTakes<T>(s: State<T>)
    requires Good(s) && s.c.pc != CIdle
    ensures var s' := Next(s, Action.Consume);
      && Taken(s', s.dequeued) && s'.c.op == s.c.op
      && (s'.c.pc == CIdle && s'.c.op == Peek ==> s'.c.result.Some? && s'.c.result.value == s'.c.pointer.Some?)
  {
    hide RingOk, MasksOk, Roomy, ProducerOk, ConsumerOk, PointerOk, Contents, QueueModel.ProducerStep,
      QueueModel.ConsumerStep;
    NextTaken(s, Action.Consume, s.dequeued);
    NextGood(s, Action.Consume);
  }

  lemma InnerAdds<T>(s: State<T>, m: bool)
    requires Good(s) && s.p.pc != PIdle
    ensures var s' := Next(s, Action.Produce(m));
      && Added(s', s.enqueued) && s'.p.arg == s.p.arg && s'.p.canAlloc == s.p.canAlloc
  {
    hide RingOk, MasksOk, Roomy, ProducerOk, ConsumerOk, PointerOk, Contents, QueueModel.ProducerStep,
      QueueModel.ConsumerStep;
    ArgThere(s);
    NextAdded(s, Action.Produce(m), s.enqueued);
    NextGood(s, Action.Produce(m));
  }

  lemma ArgThere<T>(s: State<T>)
    requires Good(s) && s.p.pc != PIdle
    ensures s.p.arg.Some?
  {
    QueueSteps.InvSane(s);
  }

  lemma StepGetting<T>(b: Blocking<T>, m: Move<T>, r: Request, before: seq<T>)
    requires BlockingOk(b) && BlockingOk(Step(b, m)) && Getting(b, r, before) && !BeginsGet(b, m)
    ensures Getting(Step(b, m), r, before)
  {
    hide Good, Contents, Next, S.Inv, S.Good, S.SignalStep, S.WaitStep;
    match m
    case Put(v, canAlloc) => if b.producer == PRest { InnerStarts(b.inner, Action.Enqueue(v, canAlloc)); }
    case Producing(mallocOk) => if b.producer == PInner { InnerProduces(b.inner, mallocOk); }
    case Get(_) =>
    case Consuming(woken) =>
      if b.consumer == CWait {
        InnerStarts(b.inner, Action.Call(OpOf(b.request)));
      } else if b.consumer == CInner {
        InnerTakes(b.inner);
      }
  }

  lemma StepPutting<T>(b: Blocking<T>, m: Move<T>, v: T, canAlloc: bool, before: seq<T>)
    requires BlockingOk(b) && BlockingOk(Step(b, m)) && Putting(b, v, canAlloc, before) && !BeginsPut(b, m)
    ensures Putting(Step(b, m), v, canAlloc, before)
  {
    hide Good, Contents, Next, S.Inv, S.Good, S.SignalStep, S.WaitStep, S.BeginWait, S.BeginSignal, S.Unsignalled,
      InHand, ModeOf, OpOf, SameConsumer;
    match m
    case Put(_, _) =>
    case Producing(mallocOk) => if b.producer == PInner { InnerAdds(b.inner, mallocOk); }
    case Get(r) => if b.consumer == CRest { InnerStarts(b.inner, Action.Call(Peek)); }
    case Consuming(woken) =>
      if b.consumer == CWait {
        InnerStarts(b.inner, Action.Call(OpOf(b.request)));
      } else if b.consumer == CInner {
        InnerConsumes(b.inner);
      }
  }

  lemma StepsLast<T>(b: Blocking<T>, moves: seq<Move<T>>)
    requires moves != []
    ensures Steps(b, moves) == Step(Steps(b, moves[..|moves| - 1]), moves[|moves| - 1])
  {
    hide Step;
  }

  lemma BoundedPrefix<T>(b: Blocking<T>, moves: seq<Move<T>>)
    requires Bounded(b, moves) && moves != []
    ensures Bounded(b, moves[..|moves| - 1])
  {
    hide Contents, Steps;
    var prefix := moves[..|moves| - 1];
    forall k | 0 <= k < |prefix| ensures |Contents(Steps(b, prefix[..k]).inner.q)| < HALF_WORD {
      assert prefix[..k] == moves[..k];
    }
  }

  /** Move `k` begins the consumer's last call of the run. */
  ghost predicate LastGet<T>(b: Blocking<T>, moves: seq<Move<T>>, k: nat) {
    && k < |moves| && BeginsGet(Steps(b, moves[..k]), moves[k])
    && forall j :: k < j < |moves| ==> !BeginsGet(Steps(b, moves[..j]), moves[j])
  }

  ghost predicate LastPut<T>(b: Blocking<T>, moves: seq<Move<T>>, k: nat) {
    && k < |moves| && BeginsPut(Steps(b, moves[..k]), moves[k])
    && forall j :: k < j < |moves| ==> !BeginsPut(Steps(b, moves[..j]), moves[j])
  }

  lemma GetStarts<T>(b: Blocking<T>, r: Request)
    requires BlockingOk(b) && b.consumer == CRest
    ensures Getting(Step(b, Get(r)), r, b.inner.dequeued)
  {
    hide Good, Contents, Next, S.Inv, S.Good;
    InnerStarts(b.inner, Action.Call(Peek));
  }

  lemma PutStarts<T>(b: Blocking<T>, v: T, canAlloc: bool)
    requires BlockingOk(b) && b.producer == PRest
    ensures Putting(Step(b, Put(v, canAlloc)), v, canAlloc, b.inner.enqueued)
  {
    hide RingOk, MasksOk, Roomy, ProducerOk, ConsumerOk, PointerOk, Contents, Witnessed, S.Good;
  }

  lemma {:induction false} RunGetting<T>(b: Blocking<T>, moves: seq<Move<T>>, k: nat)
    requires BlockingOk(b) && Bounded(b, moves) && LastGet(b, moves, k)
    ensures Getting(Steps(b, moves), moves[k].request, Steps(b, moves[..k]).inner.dequeued)
    decreases |moves|
  {
    hide BlockingOk, Getting, Step, Steps, Contents, BeginsGet;
    var n := |moves| - 1;
    var prefix := moves[..n];
    ItIsGet(Steps(b, moves[..k]), moves[k]);
    StepsLast(b, moves);
    BoundedPrefix(b, moves);
    StepsOk(b, prefix);
    StepsOk(b, moves);
    if k < n {
      assert prefix[..k] == moves[..k];
      forall j | k < j < n ensures !BeginsGet(Steps(b, prefix[..j]), prefix[j]) { assert prefix[..j] == moves[..j]; }
      RunGetting(b, prefix, k);
      StepGetting(Steps(b, prefix), moves[n], moves[k].request, Steps(b, moves[..k]).inner.dequeued);
    } else {
      GetStarts(Steps(b, prefix), moves[n].request);
    }
  }

  lemma ItIsGet<T>(b: Blocking<T>, m: Move<T>)
    requires BeginsGet(b, m)
    ensures m == Get(m.request) && b.consumer == CRest
  {
  }

  lemma ItIsPut<T>(b: Blocking<T>, m: Move<T>)
    requires BeginsPut(b, m)
    ensures m == Put(m.value, m.canAlloc) && b.producer == PRest
  {
  }

  lemma {:induction false} RunPutting<T>(b: Blocking<T>, moves: seq<Move<T>>, k: nat)
    requires BlockingOk(b) && Bounded(b, moves) && LastPut(b, moves, k)
    ensures Putting(Steps(b, moves), moves[k].value, moves[k].canAlloc, Steps(b, moves[..k]).inner.enqueued)
    decreases |moves|
  {
    hide BlockingOk, Putting, Step, Steps, Contents, BeginsPut;
    var n := |moves| - 1;
    var prefix := moves[..n];
    ItIsPut(Steps(b, moves[..k]), moves[k]);
    StepsLast(b, moves);
    BoundedPrefix(b, moves);
    StepsOk(b, prefix);
    StepsOk(b, moves);
    if k < n {
      assert prefix[..k] == moves[..k];
      forall j | k < j < n ensures !BeginsPut(Steps(b, prefix[..j]), prefix[j]) { assert prefix[..j] == moves[..j]; }
      RunPutting(b, prefix, k);
      StepPutting(
        Steps(b, prefix), moves[n], moves[k].value, moves[k].canAlloc, Steps(b, moves[..k]).inner.enqueued);
    } else {
      PutStarts(Steps(b, prefix), moves[n].value, moves[n].canAlloc);
    }
  }

  /** Over every run, once the consumer's last call has returned: a removal answers true exactly
      when it has taken one element out since it began, which is then the last of those taken out
      and the one handed over, and false only when it has taken none; `wait_dequeue` does not
      answer false; `peek` takes nothing and answers true exactly when it has a pointer. */
  lemma GetAnswers<T>(size: nat, maxBlock: nat, moves: seq<Move<T>>, k: nat)
    requires 1 <= size < HALF_WORD && maxBlock >= 2 && IsPow2(maxBlock) && Bounded(Start<T>(size, maxBlock), moves)
    requires LastGet(Start<T>(size, maxBlock), moves, k)
    ensures var b := Steps(Start<T>(size, maxBlock), moves);
      var before := Steps(Start<T>(size, maxBlock), moves[..k]).inner.dequeued;
      && (b.consumer != CRest ==> b.inner.dequeued == before)
      && (b.consumer == CRest ==>
            && (moves[k].request != PeekFront ==>
                  && (b.got == Some(true) <==> |b.inner.dequeued| == |before| + 1)
                  && (b.got == Some(true) ==>
                        b.inner.c.hand.Some? && b.inner.dequeued == before + [b.inner.c.hand.value])
                  && (b.got == Some(false) <==> b.inner.dequeued == before)
                  && (b.got == Some(false) ==> moves[k].request != WaitDequeue))
            && (moves[k].request == PeekFront ==>
                  b.inner.dequeued == before && b.got == Some(b.inner.c.pointer.Some?)))
  {
    hide Start, Steps, Contents, BlockingOk, LastGet, Bounded;
    StartOk<T>(size, maxBlock);
    RunGetting(Start<T>(size, maxBlock), moves, k);
  }

  /** And once the producer's last call has returned: it answers true exactly when it has added its
      argument, and nothing else, since it began, and false exactly when it has added nothing; a
      refused `try_enqueue` has seen at least `size` elements. */
  lemma PutAnswers<T>(size: nat, maxBlock: nat, moves: seq<Move<T>>, k: nat)
    requires 1 <= size < HALF_WORD && maxBlock >= 2 && IsPow2(maxBlock) && Bounded(Start<T>(size, maxBlock), moves)
    requires LastPut(Start<T>(size, maxBlock), moves, k)
    ensures var b := Steps(Start<T>(size, maxBlock), moves);
      var before := Steps(Start<T>(size, maxBlock), moves[..k]).inner.enqueued;
      && (b.producer == PInner ==> b.inner.enqueued == before)
      && (b.producer == PRest ==>
            && (b.put == Some(true) <==> |b.inner.enqueued| == |before| + 1)
            && (b.put == Some(true) ==> b.inner.enqueued == before + [moves[k].value])
            && (b.put == Some(false) <==> b.inner.enqueued == before)
            && (b.put == Some(false) && !moves[k].canAlloc ==> b.inner.p.sawFull))
  {
    hide Start, Steps, Contents, LastPut, Bounded, RingOk, MasksOk, Roomy, ProducerOk, ConsumerOk, PointerOk, S.Good;
    StartOk<T>(size, maxBlock);
    StepsOk(Start<T>(size, maxBlock), moves);
    RunPutting(Start<T>(size, maxBlock), moves, k);
  }

  /** What one move does to the queue inside: one action or none. */
  lemma InnerStep<T>(b: Blocking<T>, m: Move<T>) returns (actions: seq<Action<T>>)
    ensures |actions| <= 1 && Step(b, m).inner == (if actions == [] then b.inner else Next(b.inner, actions[0]))
  {
    hide Next, S.WaitStep, S.SignalStep;
    actions := [];
    match m
    case Put(v, canAlloc) => if b.producer == PRest { actions := [Action.Enqueue(v, canAlloc)]; }
    case Producing(mallocOk) => if b.producer == PInner { actions := [Action.Produce(mallocOk)]; }
    case Get(r) => if b.consumer == CRest && r == PeekFront { actions := [Action.Call(Peek)]; }
    case Consuming(woken) =>
      if b.consumer == CInner {
        actions := [Action.Consume];
      } else if b.consumer == CWait && S.WaitStep(b.sema, woken).waiter.pc == S.WIdle
                && S.WaitStep(b.sema, woken).waiter.result == Some(true) {
        actions := [Action.Call(OpOf(b.request))];
      }
  }

  /** The queue inside goes through a run of its own, of which all that is proved of the queue holds. */
  lemma {:induction false} InnerRuns<T>(b: Blocking<T>, moves: seq<Move<T>>) returns (actions: seq<Action<T>>)
    ensures Steps(b, moves).inner == Run(b.inner, actions)
    decreases |moves|
  {
    hide Step, Next;
    if moves == [] {
      actions := [];
    } else {
      var before := InnerRuns(b, moves[..|moves| - 1]);
      var more := InnerStep(Steps(b, moves[..|moves| - 1]), moves[|moves| - 1]);
      actions := before + more;
      if more == [] {
        assert actions == before;
      } else {
        assert actions[..|actions| - 1] == before && actions[|actions| - 1] == more[0];
      }
    }
  }

  /** A refused `try_enqueue` means at least `size` elements were held at an instant of the call. */
  lemma RefusedPutMeansFull<T>(size: nat, maxBlock: nat, moves: seq<Move<T>>, k: nat)
    requires 1 <= size < HALF_WORD && maxBlock >= 2 && IsPow2(maxBlock) && Bounded(Start<T>(size, maxBlock), moves)
    requires LastPut(Start<T>(size, maxBlock), moves, k)
    requires var b := Steps(Start<T>(size, maxBlock), moves);
      b.producer == PRest && b.put == Some(false) && moves[k].Put? && !moves[k].canAlloc
    ensures exists actions: seq<Action<T>> ::
      && Steps(Start<T>(size, maxBlock), moves).inner == Run(QueueModel.Init<T>(size, maxBlock), actions)
      && FullDuringCall(QueueModel.Init<T>(size, maxBlock), actions)
  {
    hide Steps, Bounded, LastPut, Run, QueueModel.Init, FullDuringCall, BlockingOk, EmptyDuringCall, Contents;
    var b0 := Start<T>(size, maxBlock);
    StartOk<T>(size, maxBlock);
    StepsOk(b0, moves);
    RunPutting(b0, moves, k);
    ProducerRests(Steps(b0, moves));
    var actions := InnerRuns(b0, moves);
    QueueSafety<T>(size, maxBlock, actions);
  }

  lemma ProducerRests<T>(b: Blocking<T>)
    requires BlockingOk(b) && b.producer == PRest
    ensures b.inner.p.pc == PIdle
  {
  }

  // ---- Which calls sleep ------------------------------------------------------------------

  /** While the consumer waits for a permit its wait is the one its request asks for. */
  ghost predicate WaitFits<T>(b: Blocking<T>) {
    && S.SleepsOnlyIfAsked(b.sema) && (b.consumer != CWait ==> b.sema.waiter.pc == S.WIdle)
    && (b.consumer == CWait ==>
          && (b.request == TryDequeue || b.request == TryPop ==> b.sema.waiter.mode == S.Try)
          && (b.request == WaitDequeue ==> b.sema.waiter.mode == S.Wait(-1))
          && (b.request.WaitDequeueTimed? ==> b.sema.waiter.mode == S.Wait(b.request.usecs)))
  }

  lemma StepFits<T>(b: Blocking<T>, m: Move<T>)
    requires WaitFits(b)
    ensures WaitFits(Step(b, m))
  {
    hide Next;
    match m
    case Put(_, _) =>
    case Producing(mallocOk) =>
    case Get(r) => if b.consumer == CRest { S.NextAsked(b.sema, S.Waits(ModeOf(r))); }
    case Consuming(woken) => if b.consumer == CWait { S.NextAsked(b.sema, S.WaiterStep(woken)); }
  }

  /** Over every run `try_dequeue`, `pop` and a timed wait of 0 never sleep in the kernel. */
  lemma {:induction false} TryNeverSleeps<T>(size: nat, maxBlock: nat, moves: seq<Move<T>>)
    requires maxBlock >= 2
    ensures WaitFits(Steps(Start<T>(size, maxBlock), moves))
    ensures var b := Steps(Start<T>(size, maxBlock), moves);
      b.consumer == CWait && b.request in {TryDequeue, TryPop, WaitDequeueTimed(0)} ==>
        b.sema.waiter.pc != S.WKernel
    decreases |moves|
  {
    hide Step, QueueModel.Init;
    if moves != [] {
      TryNeverSleeps<T>(size, maxBlock, moves[..|moves| - 1]);
      StepFits(Steps(Start<T>(size, maxBlock), moves[..|moves| - 1]), moves[|moves| - 1]);
    }
  }

  /** A `wait_dequeue`, or a timed one whose time-out is not 0, whose kernel wait is not given up. */
  ghost predicate Unbroken<T>(b: Blocking<T>) {
    && (b.request.WaitDequeue? || (b.request.WaitDequeueTimed? && b.request.usecs != 0))
    && match b.consumer
       case CWait => S.Patient(b.sema)
       case CInner => true
       case CRest => b.got == Some(true)
  }

  lemma StepUnbroken<T>(b: Blocking<T>, m: Move<T>)
    requires BlockingOk(b) && BlockingOk(Step(b, m)) && Unbroken(b) && !BeginsGet(b, m) && m != Consuming(false)
    ensures Unbroken(Step(b, m))
  {
    hide Good, Contents, Next, S.Inv, S.Good, S.Patient, S.SignalStep, S.BeginSignal;
    match m
    case Put(_, _) =>
    case Producing(mallocOk) =>
      if b.consumer == CWait {
        S.NextPatient(b.sema, S.Signals(1));
        S.NextPatient(b.sema, S.SignallerStep);
      }
    case Get(_) =>
    case Consuming(woken) => if b.consumer == CWait { S.PatientReturns(b.sema); }
  }

  lemma WaitStarts<T>(b: Blocking<T>, r: Request)
    requires BlockingOk(b) && b.consumer == CRest && (r.WaitDequeue? || (r.WaitDequeueTimed? && r.usecs != 0))
    ensures Unbroken(Step(b, Get(r)))
  {
    hide Good, Contents, Next, S.Inv, S.Good;
  }

  /** `wait_dequeue` and a timed wait with a time-out other than 0, negative or positive, answer
      true unless a kernel wait of theirs is given up. */
  lemma {:induction false} WaitsAnswerTrue<T>(b: Blocking<T>, moves: seq<Move<T>>, k: nat)
    requires BlockingOk(b) && Bounded(b, moves) && LastGet(b, moves, k)
    requires moves[k].request.WaitDequeue? || (moves[k].request.WaitDequeueTimed? && moves[k].request.usecs != 0)
    requires forall j :: k < j < |moves| ==> moves[j] != Consuming(false)
    ensures Unbroken(Steps(b, moves))
    ensures Steps(b, moves).consumer == CRest ==> Steps(b, moves).got == Some(true)
    decreases |moves|
  {
    hide BlockingOk, Step, Steps, Contents, BeginsGet, S.Patient;
    var n := |moves| - 1;
    var prefix := moves[..n];
    ItIsGet(Steps(b, moves[..k]), moves[k]);
    StepsLast(b, moves);
    BoundedPrefix(b, moves);
    StepsOk(b, prefix);
    StepsOk(b, moves);
    if k < n {
      assert prefix[..k] == moves[..k];
      forall j | k < j < n ensures !BeginsGet(Steps(b, prefix[..j]), prefix[j]) { assert prefix[..j] == moves[..j]; }
      WaitsAnswerTrue(b, prefix, k);
      StepUnbroken(Steps(b, prefix), moves[n]);
    } else {
      WaitStarts(Steps(b, prefix), moves[n].request);
    }
  }

  /** A `try_dequeue`, `pop` or timed wait that is refused finds nothing but, at most, an element
      whose `signal` the producer has not reached yet. */
  lemma RefusedMeansEmpty<T>(b: Blocking<T>, woken: bool)
    requires BlockingOk(b) && S.Permits(b.sema) < HALF_WORD && b.consumer == CWait
    requires var b' := ConsumerMove(b, woken); b'.consumer == CRest
    ensures var b' := ConsumerMove(b, woken);
      b'.got == Some(false) && !b.request.WaitDequeue? && |Contents(b.inner.q)| == S.Unsignalled(b.sema) <= 1
  {
    hide Good, Contents, Next, S.Inv;
    Balance(b);
    S.WaitOutcome(b.sema, woken);
  }

  /** A consumer asleep in the kernel while the producer is between calls and something is held
      can always be woken, and then goes on to remove an element. */
  lemma NoLostElement<T>(b: Blocking<T>)
    requires BlockingOk(b) && b.consumer == CWait && b.sema.waiter.pc == S.WKernel
    requires b.producer == PRest && Contents(b.inner.q) != []
    ensures b.sema.tokens == 1 && ConsumerMove(b, true).consumer == CInner
  {
    hide Good, Contents, Next, S.Inv;
    Balance(b);
    S.NoLostWakeup(b.sema);
  }
}
