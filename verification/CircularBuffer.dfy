/** `BlockingReaderWriterCircularBuffer` of include/readerwritercircularbuffer.h: a ring of slots
    between two semaphores, `slots` counting the free ones and `items` the elements, as a step
    machine with one program counter per thread. */
module CircularBuffer {
  import opened Wrappers
  import opened Bits
  import S = Semaphore

  /** `try_..`, `wait_..`, or `wait_.._timed`. */
  datatype Patience = Attempt | Forever | Timed(usecs: int)

  datatype ProducerPc = PIdle | PWait | PConstruct | PSignal
  datatype Producer<T> = Producer(pc: ProducerPc, patience: Patience, arg: Option<T>, result: Option<bool>)

  datatype ConsumerOp = Dequeue | Pop
  datatype ConsumerPc = CIdle | CPeek | CWait | CTake | CMoveOut | CDestroy | CSignal

  /** `index` is the local copy of `nextItem`; `hand` the element taken out by the call;
      `pointer` the slot whose address `peek` returned. */
  datatype Consumer<T> = Consumer(
    pc: ConsumerPc, op: ConsumerOp, patience: Patience, index: nat, hand: Option<T>, result: Option<bool>,
    pointer: Option<nat>)

  /** History: `put` and `taken`, the elements constructed and destroyed so far. */
  datatype Circular<T> = Circular(
    cells: seq<Cell<T>>, maxcap: nat, mask: nat, nextSlot: nat, nextItem: nat, slots: S.Sema, items: S.Sema,
    p: Producer<T>, c: Consumer<T>, put: seq<T>, taken: seq<T>, fault: bool)

  /** A `size_t` as the semaphore's signed count. */
  function Signed(x: nat): int { if x >= HALF_WORD then x - WORD else x }

  /** The constructor: the semaphore's own assert refuses a negative count. */
  function Start<T>(capacity: nat): Circular<T> {
    var size := RoundedUp(capacity);
    Circular(seq(size, _ => Raw), capacity, if size == 0 then WORD - 1 else size - 1, 0, 0,
             S.Init(Signed(capacity)), S.Init(0),
             Producer(PIdle, Attempt, None, None), Consumer(CIdle, Dequeue, Attempt, 0, None, None, None), [], [],
             Signed(capacity) < 0)
  }

  function ModeOf(p: Patience): S.Mode {
    match p
    case Attempt => S.Try
    case Forever => S.Wait(-1)
    case Timed(usecs) => S.Wait(usecs)
  }

  function Increment(i: nat): nat { (i + 1) % WORD }

  // ---- The calls, line by line --------------------------------------------------------

  function ProducerDone<T>(b: Circular<T>, result: bool): Circular<T> {
    b.(p := b.p.(pc := PIdle, result := Some(result)))
  }

  function Construct<T>(b: Circular<T>): Circular<T> {
    var i := BitAnd(b.nextSlot, b.mask);
    if i < |b.cells| && b.cells[i].Raw? && b.p.arg.Some? then
      b.(cells := b.cells[i := Live(b.p.arg.value)], nextSlot := Increment(b.nextSlot),
         items := S.BeginSignal(b.items, 1), p := b.p.(pc := PSignal), put := b.put + [b.p.arg.value])
    else b.(fault := true)
  }

  function ProducerMove<T>(b: Circular<T>, woken: bool): Circular<T> {
    match b.p.pc
    case PIdle => b
    case PWait =>
      var s := S.WaitStep(b.slots, woken);
      if s.waiter.pc != S.WIdle then b.(slots := s)
      else if s.waiter.result == Some(true) then b.(slots := s, p := b.p.(pc := PConstruct))
      else if b.p.patience == Forever then b.(slots := S.BeginWait(s, S.Wait(-1)))
      else ProducerDone(b.(slots := s), false)
    case PConstruct => Construct(b)
    case PSignal =>
      var s := S.SignalStep(b.items);
      if s.signaller.SIdle? then ProducerDone(b.(items := s), true) else b.(items := s)
  }

  function ConsumerDone<T>(b: Circular<T>, result: bool): Circular<T> {
    b.(c := b.c.(pc := CIdle, result := Some(result)))
  }

  function Take<T>(b: Circular<T>): Circular<T> {
    b.(nextItem := Increment(b.nextItem),
       c := b.c.(pc := if b.c.op == Dequeue then CMoveOut else CDestroy, index := b.nextItem))
  }

  function MoveOut<T>(b: Circular<T>): Circular<T> {
    var i := BitAnd(b.c.index, b.mask);
    if i < |b.cells| && b.cells[i].Live? then b.(c := b.c.(pc := CDestroy, hand := Some(b.cells[i].value)))
    else b.(fault := true)
  }

  function Destroy<T>(b: Circular<T>): Circular<T> {
    var i := BitAnd(b.c.index, b.mask);
    if i < |b.cells| && b.cells[i].Live? then
      b.(cells := b.cells[i := Raw], slots := S.BeginSignal(b.slots, 1), taken := b.taken + [b.cells[i].value],
         c := b.c.(pc := CSignal, pointer := None))
    else b.(fault := true)
  }

  function ConsumerMove<T>(b: Circular<T>, woken: bool): Circular<T> {
    match b.c.pc
    case CIdle => b
    case CPeek =>
      if b.items.count > 0 then ConsumerDone(b.(c := b.c.(pointer := Some(BitAnd(b.nextItem, b.mask)))), true)
      else ConsumerDone(b.(c := b.c.(pointer := None)), false)
    case CWait =>
      var s := S.WaitStep(b.items, woken);
      if s.waiter.pc != S.WIdle then b.(items := s)
      else if s.waiter.result == Some(true) then b.(items := s, c := b.c.(pc := CTake))
      else if b.c.patience == Forever then b.(items := S.BeginWait(s, S.Wait(-1)))
      else ConsumerDone(b.(items := s), false)
    case CTake => Take(b)
    case CMoveOut => MoveOut(b)
    case CDestroy => Destroy(b)
    case CSignal =>
      var s := S.SignalStep(b.slots);
      if s.signaller.SIdle? then ConsumerDone(b.(slots := s), true) else b.(slots := s)
  }

  datatype Move<T> =
    | Put(value: T, patience: Patience) | Producing(woken: bool)
    | Get(op: ConsumerOp, patience: Patience) | PeekFront | Consuming(woken: bool)

  function Step<T>(b: Circular<T>, m: Move<T>): Circular<T> {
    match m
    case Put(v, patience) =>
      if b.p.pc != PIdle then b
      else b.(p := Producer(PWait, patience, Some(v), None), slots := S.BeginWait(b.slots, ModeOf(patience)))
    case Producing(woken) => ProducerMove(b, woken)
    case Get(op, patience) =>
      if b.c.pc != CIdle then b
      else b.(c := b.c.(pc := CWait, op := op, patience := patience, hand := None, result := None),
              items := S.BeginWait(b.items, ModeOf(patience)))
    case PeekFront => if b.c.pc != CIdle then b else b.(c := b.c.(pc := CPeek, result := None))
    case Consuming(woken) => ConsumerMove(b, woken)
  }

  function Steps<T>(b: Circular<T>, moves: seq<Move<T>>): Circular<T>
    decreases |moves|
  {
    if moves == [] then b else Step(Steps(b, moves[..|moves| - 1]), moves[|moves| - 1])
  }

  // ---- Invariant ------------------------------------------------------------------------

  /** The elements held, oldest first. */
  function Contents<T>(b: Circular<T>): seq<T> { if |b.taken| <= |b.put| then b.put[|b.taken|..] else [] }

  /** The slot of the oldest element. */
  function Head<T>(b: Circular<T>): nat {
    if b.c.pc in {CMoveOut, CDestroy} then BitAnd(b.c.index, b.mask) else BitAnd(b.nextItem, b.mask)
  }

  /** What slot `j` must hold: the elements in order from the head, raw memory elsewhere. */
  function Expected<T>(items: seq<T>, head: nat, size: nat, j: nat): Cell<T>
    requires j < size && head < size
  {
    var k := Offset(j, head, size);
    if k < |items| then Live(items[k]) else Raw
  }

  ghost predicate CellsOk<T>(cells: seq<Cell<T>>, items: seq<T>, head: nat) {
    && head < |cells| && |items| <= |cells|
    && forall j :: 0 <= j < |cells| ==> cells[j] == Expected(items, head, |cells|, j)
  }

  /** The ring of slots; the two counters only ever matter modulo the number of slots. */
  ghost predicate StoreOk<T>(b: Circular<T>) {
    var size := b.mask + 1;
    && |b.cells| == size <= HALF_WORD && IsPow2(size) && b.maxcap <= size
    && b.taken <= b.put && CellsOk(b.cells, Contents(b), Head(b))
    && BitAnd(b.nextSlot, b.mask) == Wrap(Head(b) + |Contents(b)|, size)
    && (b.c.pc in {CMoveOut, CDestroy} ==> BitAnd(b.nextItem, b.mask) == Wrap(Head(b) + 1, size))
  }

  /** Permits and elements the threads hold between a semaphore and the ring. */
  function SlotInHand<T>(b: Circular<T>): nat { if b.p.pc == PConstruct then 1 else 0 }

  function ItemInHand<T>(b: Circular<T>): nat { if b.c.pc in {CTake, CMoveOut, CDestroy} then 1 else 0 }

  ghost predicate CountsOk<T>(b: Circular<T>) {
    && b.slots.initial == b.maxcap && b.items.initial == 0
    && b.slots.acquired == |b.put| + SlotInHand(b) && b.slots.signalled + S.Unsignalled(b.slots) == |b.taken|
    && b.items.acquired == |b.taken| + ItemInHand(b) && b.items.signalled + S.Unsignalled(b.items) == |b.put|
  }

  ghost predicate SignallerOk(s: S.Sema, signalling: bool) {
    if signalling then s.signaller == S.SAdd(1) || s.signaller == S.SPost else s.signaller == S.SIdle
  }

  ghost predicate PhasesOk<T>(b: Circular<T>) {
    && (b.p.pc == PWait <==> b.slots.waiter.pc != S.WIdle) && SignallerOk(b.items, b.p.pc == PSignal)
    && (b.c.pc == CWait <==> b.items.waiter.pc != S.WIdle) && SignallerOk(b.slots, b.c.pc == CSignal)
    && (b.p.pc != PIdle ==> b.p.arg.Some?)
    && (b.p.pc == PSignal ==> b.put != [] && b.p.arg == Some(b.put[|b.put| - 1]))
    && (b.c.pc == CDestroy && b.c.op == Dequeue ==> Contents(b) != [] && b.c.hand == Some(Contents(b)[0]))
    && (b.p.pc == PIdle && b.p.result == Some(true) ==> b.put != [] && b.p.arg == Some(b.put[|b.put| - 1]))
    && (b.c.pc == CMoveOut ==> b.c.op == Dequeue)
    && (b.c.pc in {CWait, CTake, CMoveOut} || (b.c.pc == CDestroy && b.c.op == Pop) ==> b.c.hand.None?)
    && (b.c.pc == CSignal && b.c.op == Dequeue ==> b.c.hand.Some?)
    && (b.c.pc !in {CMoveOut, CDestroy} && b.c.hand.Some? ==> b.taken != [] && b.c.hand == Some(b.taken[|b.taken| - 1]))
    && (b.c.pointer.Some? ==> Contents(b) != [] && b.c.pointer.value == Head(b))
  }

  ghost predicate BufferOk<T>(b: Circular<T>) {
    && !b.fault && S.Good(b.slots) && S.Good(b.items) && 1 <= b.maxcap < HALF_WORD
    && StoreOk(b) && CountsOk(b) && PhasesOk(b)
  }

  // ---- Slots ----------------------------------------------------------------------------

  /** A power of two up to 2^64 divides 2^64. */
  lemma DividesWord(size: nat) returns (q: nat)
    requires IsPow2(size) && size <= HALF_WORD
    ensures WORD == size * q && q >= 1
  {
    var n := Pow2Exponent(size);
    Pow2Word();
    if n > 64 { Pow2Mono(64, n); }
    Pow2Add(n, 64 - n);
    q := Pow2(64 - n);
  }

  lemma ModMod(x: nat, size: nat, q: nat)
    requires size >= 1 && q >= 1
    ensures size * q > 0 && (x % (size * q)) % size == x % size
  {
    Bits.MulGe(q, size);
    assert size * q == q * size;
    var w := size * q;
    var a, r := x / w, x % w;
    assert x == a * w + r;
    assert a * w == (a * q) * size;
    var b, t := r / size, r % size;
    assert r == b * size + t;
    assert (a * q) * size + b * size == (a * q + b) * size;
    ModUnique(x, size, a * q + b, t);
  }

  /** Incrementing a counter, also across 2^64, moves its slot to the next one of the ring. */
  lemma IncrementWraps(i: nat, mask: nat)
    requires IsPow2(mask + 1) && mask + 1 <= HALF_WORD
    ensures BitAnd(i, mask) <= mask && BitAnd(Increment(i), mask) == Wrap(BitAnd(i, mask) + 1, mask + 1)
  {
    hide IsPow2, BitAnd;
    var size := mask + 1;
    AndMaskIsMod(i, mask);
    AndMaskIsMod(Increment(i), mask);
    var q := DividesWord(size);
    ModMod(i + 1, size, q);
    NextMod(i, size);
  }

  lemma NextMod(i: nat, size: nat)
    requires size >= 1
    ensures (i + 1) % size == Wrap(i % size + 1, size)
  {
    var a, r := i / size, i % size;
    assert i == a * size + r;
    if r + 1 == size {
      assert (a + 1) * size == a * size + size;
      ModUnique(i + 1, size, a + 1, 0);
    } else {
      ModUnique(i + 1, size, a, r + 1);
    }
  }

  lemma CellsConstruct<T>(cells: seq<Cell<T>>, items: seq<T>, head: nat, v: T)
    requires CellsOk(cells, items, head) && |items| < |cells|
    ensures var i := Wrap(head + |items|, |cells|);
      0 <= i < |cells| && cells[i].Raw? && CellsOk(cells[i := Live(v)], items + [v], head)
  {
    var i := Wrap(head + |items|, |cells|);
    assert cells[i] == Expected(items, head, |cells|, i);
  }

  lemma CellsDestroy<T>(cells: seq<Cell<T>>, items: seq<T>, head: nat)
    requires CellsOk(cells, items, head) && items != []
    ensures cells[head] == Live(items[0]) && CellsOk(cells[head := Raw], items[1..], Wrap(head + 1, |cells|))
  {
    assert cells[head] == Expected(items, head, |cells|, head);
  }

  // ---- Counts ---------------------------------------------------------------------------

  /** Free slots, available items and what the threads have in hand always add up to `maxcap`. */
  lemma Conservation<T>(b: Circular<T>)
    requires BufferOk(b)
    ensures S.Permits(b.slots) + S.Permits(b.items) + SlotInHand(b) + S.Unsignalled(b.items)
              + ItemInHand(b) + S.Unsignalled(b.slots) == b.maxcap
    ensures S.Permits(b.slots) >= 0 && S.Permits(b.items) >= 0
    ensures |Contents(b)| == S.Permits(b.items) + S.Unsignalled(b.items) + ItemInHand(b) <= b.maxcap
  {
    hide CellsOk, PhasesOk;
  }

  // ---- Every move -------------------------------------------------------------------------

  lemma ConstructCell<T>(b: Circular<T>)
    requires BufferOk(b) && b.p.pc == PConstruct
    ensures var i, items := BitAnd(b.nextSlot, b.mask), Contents(b) + [b.p.arg.value];
      && i < |b.cells| && b.cells[i].Raw? && |items| <= |b.cells|
      && CellsOk(b.cells[i := Live(b.p.arg.value)], items, Head(b))
  {
    hide CellsOk, S.Inv, IsPow2, BitAnd, S.BeginSignal, Contents, Head;
    Conservation(b);
    HeadOk(b);
    CellsConstruct(b.cells, Contents(b), Head(b), b.p.arg.value);
  }

  lemma ConstructStore<T>(b: Circular<T>)
    requires BufferOk(b) && b.p.pc == PConstruct
    ensures var i := BitAnd(b.nextSlot, b.mask); i < |b.cells| && b.cells[i].Raw?
    ensures StoreOk(Construct(b)) && Contents(Construct(b)) == Contents(b) + [b.p.arg.value]
    ensures Head(Construct(b)) == Head(b)
  {
    hide CellsOk, S.Good, IsPow2, BitAnd, S.BeginSignal, Increment;
    HeadOk(b);
    ConstructCell(b);
    IncrementWraps(b.nextSlot, b.mask);
    assert Contents(Construct(b)) == Contents(b) + [b.p.arg.value];
  }

  lemma ConstructOk<T>(b: Circular<T>)
    requires BufferOk(b) && b.p.pc == PConstruct
    ensures BufferOk(Construct(b))
  {
    hide StoreOk, S.Inv, BitAnd, Contents, Head;
    Conservation(b);
    ConstructStore(b);
    S.NextGood(b.items, S.Signals(1));
  }

  lemma HeadOk<T>(b: Circular<T>)
    requires StoreOk(b)
    ensures Head(b) < |b.cells| && |Contents(b)| <= |b.cells| == b.mask + 1
  {
  }

  lemma TakeOk<T>(b: Circular<T>)
    requires BufferOk(b) && b.c.pc == CTake
    ensures BufferOk(Take(b)) && Head(Take(b)) == Head(b)
  {
    hide CellsOk, S.Inv, IsPow2, BitAnd;
    IncrementWraps(b.nextItem, b.mask);
  }

  lemma MoveOutOk<T>(b: Circular<T>)
    requires BufferOk(b) && b.c.pc == CMoveOut
    ensures BufferOk(MoveOut(b))
  {
    hide CellsOk, S.Inv, IsPow2, BitAnd;
    Conservation(b);
    HeadOk(b);
    CellsDestroy(b.cells, Contents(b), Head(b));
  }

  lemma DestroyStore<T>(b: Circular<T>)
    requires BufferOk(b) && b.c.pc == CDestroy
    ensures var i := BitAnd(b.c.index, b.mask);
      i == Head(b) < |b.cells| && Contents(b) != [] && b.cells[i] == Live(Contents(b)[0]) == Live(b.put[|b.taken|])
    ensures StoreOk(Destroy(b)) && Contents(Destroy(b)) == Contents(b)[1..]
  {
    hide CellsOk, S.Good, IsPow2, BitAnd, S.BeginSignal;
    Conservation(b);
    HeadOk(b);
    CellsDestroy(b.cells, Contents(b), Head(b));
    assert b.put[|b.taken|] == Contents(b)[0];
    assert Contents(Destroy(b)) == Contents(b)[1..];
  }

  lemma DestroyOk<T>(b: Circular<T>)
    requires BufferOk(b) && b.c.pc == CDestroy
    ensures BufferOk(Destroy(b))
  {
    hide StoreOk, S.Inv, BitAnd, Contents, Head;
    Conservation(b);
    DestroyStore(b);
    S.NextGood(b.slots, S.Signals(1));
  }

  /** The store and the history are as before. */
  ghost predicate SameStore<T>(b: Circular<T>, b': Circular<T>) {
    && b'.cells == b.cells && b'.maxcap == b.maxcap && b'.mask == b.mask && b'.put == b.put && b'.taken == b.taken
    && b'.nextSlot == b.nextSlot && b'.nextItem == b.nextItem
    && (b.c.pc in {CMoveOut, CDestroy} <==> b'.c.pc in {CMoveOut, CDestroy}) && b'.c.index == b.c.index
  }

  lemma StoreSame<T>(b: Circular<T>, b': Circular<T>)
    requires StoreOk(b) && SameStore(b, b')
    ensures StoreOk(b') && Contents(b') == Contents(b) && Head(b') == Head(b)
  {
    hide CellsOk, IsPow2, BitAnd;
  }

  /** What a step of the signalling thread does to the counts of a semaphore. */
  lemma Signals(s: S.Sema)
    requires S.Good(s) && s.signaller != S.SIdle && S.Permits(s) + S.Unsignalled(s) < HALF_WORD && SignallerOk(s, true)
    ensures var s' := S.SignalStep(s);
      && S.Good(s') && s'.initial == s.initial && s'.waiter == s.waiter && s'.acquired == s.acquired
      && s'.signalled + S.Unsignalled(s') == s.signalled + S.Unsignalled(s) && S.Unsignalled(s') == 0
      && SignallerOk(s', s'.signaller != S.SIdle)
  {
    S.NextGood(s, S.SignallerStep);
  }

  lemma ProducerMoveOk<T>(b: Circular<T>, woken: bool)
    requires BufferOk(b)
    ensures BufferOk(ProducerMove(b, woken))
  {
    hide StoreOk, S.Good, Contents, Head, S.WaitStep, S.SignalStep, Construct, BitAnd;
    Conservation(b);
    var b' := ProducerMove(b, woken);
    match b.p.pc
    case PIdle =>
    case PWait => S.WaitTakes(b.slots, woken); StoreSame(b, b');
    case PConstruct => ConstructOk(b);
    case PSignal => Signals(b.items); StoreSame(b, b');
  }

  lemma ConsumerMoveOk<T>(b: Circular<T>, woken: bool)
    requires BufferOk(b)
    ensures BufferOk(ConsumerMove(b, woken))
  {
    hide StoreOk, S.Good, Contents, Head, S.WaitStep, S.SignalStep, Take, MoveOut, Destroy, BitAnd;
    Conservation(b);
    var b' := ConsumerMove(b, woken);
    match b.c.pc
    case CIdle =>
    case CPeek => Peeks(b); StoreSame(b, b');
    case CWait => S.WaitTakes(b.items, woken); StoreSame(b, b');
    case CTake => TakeOk(b);
    case CMoveOut => MoveOutOk(b);
    case CDestroy => DestroyOk(b);
    case CSignal => Signals(b.slots); StoreSame(b, b');
  }

  lemma Peeks<T>(b: Circular<T>)
    requires BufferOk(b) && b.c.pc == CPeek
    ensures b.items.count > 0 ==> Contents(b) != [] && Head(b) == BitAnd(b.nextItem, b.mask)
  {
    hide StoreOk;
    Conservation(b);
  }

  lemma StepOk<T>(b: Circular<T>, m: Move<T>)
    requires BufferOk(b)
    ensures BufferOk(Step(b, m))
  {
    hide StoreOk, S.Inv, Contents, Head, ProducerMove, ConsumerMove;
    Conservation(b);
    match m
    case Put(v, patience) =>
      S.NextGood(b.slots, S.Waits(ModeOf(patience)));
      StoreSame(b, Step(b, m));
    case Producing(woken) => ProducerMoveOk(b, woken);
    case Get(op, patience) =>
      S.NextGood(b.items, S.Waits(ModeOf(patience)));
      StoreSame(b, Step(b, m));
    case PeekFront => StoreSame(b, Step(b, m));
    case Consuming(woken) => ConsumerMoveOk(b, woken);
  }

  lemma {:induction false} StepsOk<T>(b: Circular<T>, moves: seq<Move<T>>)
    requires BufferOk(b)
    ensures BufferOk(Steps(b, moves))
    decreases |moves|
  {
    if moves != [] {
      StepsOk(b, moves[..|moves| - 1]);
      StepOk(Steps(b, moves[..|moves| - 1]), moves[|moves| - 1]);
    }
  }

  // ---- Construction -------------------------------------------------------------------------

  lemma StartStore<T>(capacity: nat)
    requires 1 <= capacity < HALF_WORD
    ensures StoreOk(Start<T>(capacity)) && Start<T>(capacity).mask + 1 == LeastPow2(capacity)
  {
    hide LeastPow2, IsPow2;
    LeastPow2Above(capacity);
    Pow2Word();
    Pow2IsPow2(63);
    LeastPow2IsLeast(capacity, HALF_WORD);
    AndZeroLeft(Start<T>(capacity).mask);
  }

  lemma AndZeroLeft(mask: nat)
    ensures BitAnd(0, mask) == 0
  {
  }

  lemma StartOk<T>(capacity: nat)
    requires 1 <= capacity < HALF_WORD
    ensures BufferOk(Start<T>(capacity))
  {
    hide StoreOk, RoundedUp;
    StartStore<T>(capacity);
    SemaStart(capacity);
    SemaStart(0);
    StartPhases<T>(capacity);
  }

  lemma SemaStart(n: nat)
    requires n < HALF_WORD
    ensures S.Good(S.Init(n))
  {
  }

  lemma StartPhases<T>(capacity: nat)
    requires 1 <= capacity < HALF_WORD
    ensures CountsOk(Start<T>(capacity)) && PhasesOk(Start<T>(capacity))
  {
    hide RoundedUp, S.Good, Contents, Head;
  }

  // ---- Every run ----------------------------------------------------------------------------

  /** A thread is asleep in the kernel and nothing there will wake it. */
  predicate Asleep(s: S.Sema) { s.waiter.pc == S.WKernel && s.tokens == 0 }

  /** Both threads sleep, each waiting for the other. */
  predicate Deadlocked<T>(b: Circular<T>) { Asleep(b.slots) && Asleep(b.items) }

  lemma NeverBothAsleep<T>(b: Circular<T>)
    requires BufferOk(b)
    ensures !Deadlocked(b)
  {
    hide StoreOk;
    Conservation(b);
  }

  /** Over every run and across every wrap of the counters: no live slot is constructed over, no
      raw slot read or destroyed, the elements come out in order, at most `maxcap` are held, no
      assert of the semaphores fails, and the two threads never sleep both. */
  lemma CircularSafety<T>(capacity: nat, moves: seq<Move<T>>)
    requires 1 <= capacity < HALF_WORD
    ensures var b := Steps(Start<T>(capacity), moves);
      && !b.fault && !b.slots.fault && !b.items.fault && !Deadlocked(b)
      && b.put == b.taken + Contents(b) && |Contents(b)| <= capacity
      && S.Permits(b.slots) + S.Permits(b.items) + SlotInHand(b) + S.Unsignalled(b.items)
           + ItemInHand(b) + S.Unsignalled(b.slots) == capacity
      && (b.p.pc == PIdle && b.p.result == Some(true) ==> b.put != [] && b.p.arg == Some(b.put[|b.put| - 1]))
      && (b.c.pc == CIdle && b.c.hand.Some? ==> b.taken != [] && b.c.hand == Some(b.taken[|b.taken| - 1]))
  {
    hide Start, Steps, CellsOk, IsPow2, BitAnd;
    StartOk<T>(capacity);
    var b := Steps(Start<T>(capacity), moves);
    StepsOk(Start<T>(capacity), moves);
    StepsCapacity(Start<T>(capacity), moves);
    StartCapacity<T>(capacity);
    Conservation(b);
    NeverBothAsleep(b);
  }

  lemma StartCapacity<T>(capacity: nat)
    ensures Start<T>(capacity).maxcap == capacity
  {
  }

  lemma {:induction false} StepsCapacity<T>(b: Circular<T>, moves: seq<Move<T>>)
    ensures Steps(b, moves).maxcap == b.maxcap
    decreases |moves|
  {
    hide Step;
    if moves != [] {
      StepsCapacity(b, moves[..|moves| - 1]);
      StepCapacity(Steps(b, moves[..|moves| - 1]), moves[|moves| - 1]);
    }
  }

  lemma StepCapacity<T>(b: Circular<T>, m: Move<T>)
    ensures Step(b, m).maxcap == b.maxcap
  {
    hide BitAnd, S.WaitStep, S.SignalStep;
  }

  /** A `peek` pointer is to the oldest element, which is constructed and next to be taken. */
  lemma PeekIsOldest<T>(b: Circular<T>)
    requires BufferOk(b) && b.c.pointer.Some?
    ensures var i := b.c.pointer.value;
      Contents(b) != [] && i < |b.cells| && b.cells[i] == Live(Contents(b)[0])
  {
    hide IsPow2, BitAnd, S.Good;
    CellsDestroy(b.cells, Contents(b), Head(b));
  }

  /** `try_enqueue` and timed waits are refused only when `maxcap` slots are used or about to be
      given back; `try_dequeue` and the like only when no element has been signalled. */
  lemma RefusalsMean<T>(b: Circular<T>, woken: bool)
    requires BufferOk(b)
    ensures b.p.pc == PWait && ProducerMove(b, woken).p.pc == PIdle ==>
      ProducerMove(b, woken).p.result == Some(false) && |Contents(b)| + S.Unsignalled(b.slots) == b.maxcap
    ensures b.c.pc == CWait && ConsumerMove(b, woken).c.pc == CIdle ==>
      ConsumerMove(b, woken).c.result == Some(false) && |Contents(b)| == S.Unsignalled(b.items)
  {
    hide StoreOk, S.Inv, Contents;
    Conservation(b);
    if b.p.pc == PWait && ProducerMove(b, woken).p.pc == PIdle { S.WaitOutcome(b.slots, woken); }
    if b.c.pc == CWait && ConsumerMove(b, woken).c.pc == CIdle { S.WaitOutcome(b.items, woken); }
  }

  // ---- What the calls answer ------------------------------------------------------------------

  predicate BeginsPut<T>(b: Circular<T>, m: Move<T>) { m.Put? && b.p.pc == PIdle }

  predicate BeginsGet<T>(b: Circular<T>, m: Move<T>) { (m.Get? || m.PeekFront?) && b.c.pc == CIdle }

  /** The producer's call that began with `before` put in: nothing has been put in until its element
      is, and it answers true exactly when it was; `wait_enqueue` never answers false. */
  ghost predicate Putting<T>(b: Circular<T>, v: T, patience: Patience, before: seq<T>) {
    && b.p.arg == Some(v) && b.p.patience == patience
    && match b.p.pc
       case PWait => b.put == before
       case PConstruct => b.put == before
       case PSignal => b.put == before + [v]
       case PIdle =>
         && b.p.result.Some? && b.put == (if b.p.result.value then before + [v] else before)
         && (!b.p.result.value ==> patience != Forever)
  }

  /** One element more than `before` has been taken, by a dequeue the one handed over. */
  ghost predicate TookOne<T>(b: Circular<T>, before: seq<T>) {
    && |b.taken| == |before| + 1 && before <= b.taken
    && (b.c.op == Dequeue ==> b.c.hand == Some(b.taken[|before|]))
  }

  /** The consumer's removal that began with `before` taken. */
  ghost predicate Getting<T>(b: Circular<T>, op: ConsumerOp, patience: Patience, before: seq<T>) {
    && b.c.op == op && b.c.patience == patience && b.c.pc != CPeek
    && (b.c.pc in {CWait, CTake, CMoveOut, CDestroy} ==> b.taken == before)
    && (b.c.pc == CSignal ==> TookOne(b, before))
    && (b.c.pc == CIdle ==>
          && b.c.result.Some? && (if b.c.result.value then TookOne(b, before) else b.taken == before)
          && (!b.c.result.value ==> patience != Forever))
  }

  /** `peek`, which takes nothing and answers whether it has a pointer. */
  ghost predicate Peeking<T>(b: Circular<T>, before: seq<T>) {
    && b.taken == before && b.c.pc in {CPeek, CIdle}
    && (b.c.pc == CIdle ==> b.c.result == Some(b.c.pointer.Some?))
  }

  lemma StepPutting<T>(b: Circular<T>, m: Move<T>, v: T, patience: Patience, before: seq<T>)
    requires BufferOk(b) && BufferOk(Step(b, m)) && Putting(b, v, patience, before) && !BeginsPut(b, m)
    ensures Putting(Step(b, m), v, patience, before)
  {
    hide StoreOk, CountsOk, S.Good, Contents, Head, BitAnd, S.SignalStep, S.WaitStep;
  }

  lemma StepGetting<T>(b: Circular<T>, m: Move<T>, op: ConsumerOp, patience: Patience, before: seq<T>)
    requires BufferOk(b) && BufferOk(Step(b, m)) && Getting(b, op, patience, before) && !BeginsGet(b, m)
    ensures Getting(Step(b, m), op, patience, before)
  {
    hide StoreOk, CountsOk, S.Good, Contents, Head, BitAnd, S.SignalStep, S.WaitStep;
  }

  lemma StepPeeking<T>(b: Circular<T>, m: Move<T>, before: seq<T>)
    requires BufferOk(b) && BufferOk(Step(b, m)) && Peeking(b, before) && !BeginsGet(b, m)
    ensures Peeking(Step(b, m), before)
  {
    hide StoreOk, CountsOk, S.Good, Contents, Head, BitAnd, S.SignalStep, S.WaitStep;
  }

  /** `peek` answers null exactly when no element has been signalled. */
  lemma PeekNull<T>(b: Circular<T>, woken: bool)
    requires BufferOk(b) && b.c.pc == CPeek
    ensures ConsumerMove(b, woken).c.pointer.Some? <==> |Contents(b)| > S.Unsignalled(b.items)
  {
    hide StoreOk, Contents, Head, BitAnd;
    Conservation(b);
  }

  /** Move `k` begins the producer's, or the consumer's, last call of the run. */
  ghost predicate LastPut<T>(b: Circular<T>, moves: seq<Move<T>>, k: nat) {
    && k < |moves| && BeginsPut(Steps(b, moves[..k]), moves[k])
    && forall j :: k < j < |moves| ==> !BeginsPut(Steps(b, moves[..j]), moves[j])
  }

  ghost predicate LastGet<T>(b: Circular<T>, moves: seq<Move<T>>, k: nat) {
    && k < |moves| && BeginsGet(Steps(b, moves[..k]), moves[k])
    && forall j :: k < j < |moves| ==> !BeginsGet(Steps(b, moves[..j]), moves[j])
  }

  lemma StepsLast<T>(b: Circular<T>, moves: seq<Move<T>>)
    requires moves != []
    ensures Steps(b, moves) == Step(Steps(b, moves[..|moves| - 1]), moves[|moves| - 1])
  {
    hide Step;
  }

  lemma ItIsPut<T>(b: Circular<T>, m: Move<T>)
    requires BeginsPut(b, m)
    ensures m == Put(m.value, m.patience) && Putting(Step(b, m), m.value, m.patience, b.put)
  {
    hide S.BeginWait;
  }

  lemma ItIsGet<T>(b: Circular<T>, m: Move<T>)
    requires BeginsGet(b, m)
    ensures m.Get? || m.PeekFront?
    ensures if m.Get? then Getting(Step(b, m), m.op, m.patience, b.taken) else Peeking(Step(b, m), b.taken)
  {
    hide S.BeginWait;
  }

  /** Over every run: the producer's last call has put in nothing since it began or, once it has,
      exactly its element; it answers true exactly in the second case, and `wait_enqueue` always. */
  lemma {:induction false} PutAnswers<T>(capacity: nat, moves: seq<Move<T>>, k: nat)
    requires 1 <= capacity < HALF_WORD && LastPut(Start<T>(capacity), moves, k)
    ensures var b, before := Steps(Start<T>(capacity), moves), Steps(Start<T>(capacity), moves[..k]).put;
      && Putting(b, moves[k].value, moves[k].patience, before)
      && (b.p.pc == PIdle ==>
            && (b.p.result == Some(true) <==> b.put == before + [moves[k].value])
            && (b.p.result == Some(false) <==> b.put == before)
            && (moves[k].patience == Forever ==> b.p.result == Some(true)))
    decreases |moves|
  {
    hide BufferOk, Step, Steps, Start, BeginsPut;
    var b0, n := Start<T>(capacity), |moves| - 1;
    var prefix := moves[..n];
    StartOk<T>(capacity);
    StepsLast(b0, moves);
    StepsOk(b0, prefix);
    StepsOk(b0, moves);
    ItIsPut(Steps(b0, moves[..k]), moves[k]);
    if k < n {
      assert prefix[..k] == moves[..k];
      forall j | k < j < n ensures !BeginsPut(Steps(b0, prefix[..j]), prefix[j]) { assert prefix[..j] == moves[..j]; }
      PutAnswers<T>(capacity, prefix, k);
      StepPutting(Steps(b0, prefix), moves[n], moves[k].value, moves[k].patience, Steps(b0, moves[..k]).put);
    }
  }

  /** Over every run: the consumer's last removal has taken nothing since it began or, once it has,
      exactly one element, for a dequeue the one handed over; it answers true exactly in the second
      case, and `wait_dequeue` always. `peek` takes nothing and answers whether it has a pointer. */
  lemma {:induction false} GetAnswers<T>(capacity: nat, moves: seq<Move<T>>, k: nat)
    requires 1 <= capacity < HALF_WORD && LastGet(Start<T>(capacity), moves, k)
    ensures moves[k].Get? || moves[k].PeekFront?
    ensures var b, before := Steps(Start<T>(capacity), moves), Steps(Start<T>(capacity), moves[..k]).taken;
      && (if moves[k].Get? then Getting(b, moves[k].op, moves[k].patience, before) else Peeking(b, before))
      && (moves[k].Get? && b.c.pc == CIdle ==>
            && (b.c.result == Some(true) <==> |b.taken| == |before| + 1)
            && (b.c.result == Some(false) <==> b.taken == before)
            && (moves[k].patience == Forever ==> b.c.result == Some(true)))
    decreases |moves|
  {
    hide BufferOk, Step, Steps, Start, BeginsGet;
    var b0, n := Start<T>(capacity), |moves| - 1;
    var prefix := moves[..n];
    StartOk<T>(capacity);
    StepsLast(b0, moves);
    StepsOk(b0, prefix);
    StepsOk(b0, moves);
    ItIsGet(Steps(b0, moves[..k]), moves[k]);
    if k < n {
      assert prefix[..k] == moves[..k];
      forall j | k < j < n ensures !BeginsGet(Steps(b0, prefix[..j]), prefix[j]) { assert prefix[..j] == moves[..j]; }
      GetAnswers<T>(capacity, prefix, k);
      var before := Steps(b0, moves[..k]).taken;
      if moves[k].Get? {
        StepGetting(Steps(b0, prefix), moves[n], moves[k].op, moves[k].patience, before);
      } else {
        StepPeeking(Steps(b0, prefix), moves[n], before);
      }
    }
  }

  // ---- Which calls sleep ------------------------------------------------------------------------

  /** A semaphore's wait under way is the one the call asks for. */
  predicate AskedFor(s: S.Sema, patience: Patience) {
    match patience
    case Attempt => s.waiter.mode == S.Try
    case Forever => s.waiter.mode == S.Wait(-1)
    case Timed(usecs) => s.waiter.mode == S.Wait(usecs)
  }

  ghost predicate WaitsFit<T>(b: Circular<T>) {
    && S.SleepsOnlyIfAsked(b.slots) && S.SleepsOnlyIfAsked(b.items)
    && (if b.p.pc == PWait then AskedFor(b.slots, b.p.patience) else b.slots.waiter.pc == S.WIdle)
    && (if b.c.pc == CWait then AskedFor(b.items, b.c.patience) else b.items.waiter.pc == S.WIdle)
  }

  lemma ProducingFits<T>(b: Circular<T>, woken: bool)
    requires WaitsFit(b)
    ensures WaitsFit(ProducerMove(b, woken))
  {
    hide BitAnd, S.WaitStep, S.SignalStep, S.SleepsOnlyIfAsked, Construct;
    S.NextAsked(b.slots, S.WaiterStep(woken));
    S.NextAsked(b.items, S.SignallerStep);
    S.NextAsked(S.WaitStep(b.slots, woken), S.Waits(S.Wait(-1)));
    S.ModeStays(b.slots, woken);
    S.ModeStays(b.items, woken);
    AccessesFit(b, true);
  }

  lemma ConsumingFits<T>(b: Circular<T>, woken: bool)
    requires WaitsFit(b)
    ensures WaitsFit(ConsumerMove(b, woken))
  {
    hide BitAnd, S.WaitStep, S.SignalStep, S.SleepsOnlyIfAsked, Take, MoveOut, Destroy;
    S.NextAsked(b.items, S.WaiterStep(woken));
    S.NextAsked(b.slots, S.SignallerStep);
    S.NextAsked(S.WaitStep(b.items, woken), S.Waits(S.Wait(-1)));
    S.ModeStays(b.items, woken);
    S.ModeStays(b.slots, woken);
    AccessesFit(b, false);
  }

  lemma StepFits<T>(b: Circular<T>, m: Move<T>)
    requires WaitsFit(b)
    ensures WaitsFit(Step(b, m))
  {
    hide BitAnd, S.SleepsOnlyIfAsked, ProducerMove, ConsumerMove;
    match m
    case Put(v, patience) => S.NextAsked(b.slots, S.Waits(ModeOf(patience)));
    case Get(op, patience) => S.NextAsked(b.items, S.Waits(ModeOf(patience)));
    case PeekFront =>
    case Producing(woken) => ProducingFits(b, woken);
    case Consuming(woken) => ConsumingFits(b, woken);
  }

  /** The accesses to the ring touch neither thread's wait. */
  lemma AccessesFit<T>(b: Circular<T>, producer: bool)
    requires WaitsFit(b)
    ensures producer && b.p.pc == PConstruct ==> WaitsFit(Construct(b))
    ensures !producer && b.c.pc == CTake ==> WaitsFit(Take(b))
    ensures !producer && b.c.pc == CMoveOut ==> WaitsFit(MoveOut(b))
    ensures !producer && b.c.pc == CDestroy ==> WaitsFit(Destroy(b))
  {
    hide BitAnd;
    S.NextAsked(b.items, S.Signals(1));
    S.NextAsked(b.slots, S.Signals(1));
  }

  /** Over every run `try_enqueue`, `try_dequeue`, `try_pop` and timed calls with time-out 0 never
      sleep in the kernel. */
  lemma {:induction false} TryNeverSleeps<T>(capacity: nat, moves: seq<Move<T>>)
    ensures WaitsFit(Steps(Start<T>(capacity), moves))
    ensures var b := Steps(Start<T>(capacity), moves);
      && (b.p.pc == PWait && b.p.patience in {Attempt, Timed(0)} ==> b.slots.waiter.pc != S.WKernel)
      && (b.c.pc == CWait && b.c.patience in {Attempt, Timed(0)} ==> b.items.waiter.pc != S.WKernel)
    decreases |moves|
  {
    hide Step, RoundedUp;
    if moves != [] {
      TryNeverSleeps<T>(capacity, moves[..|moves| - 1]);
      StepFits(Steps(Start<T>(capacity), moves[..|moves| - 1]), moves[|moves| - 1]);
    }
  }

  /** A call that waits, for ever or with a time-out other than 0, whose kernel wait is not given up. */
  ghost predicate Unbroken<T>(b: Circular<T>, producer: bool) {
    var patience := if producer then b.p.patience else b.c.patience;
    && (patience == Forever || (patience.Timed? && patience.usecs != 0))
    && (if producer then b.p.pc == PWait ==> S.Patient(b.slots) else b.c.pc == CWait ==> S.Patient(b.items))
    && (if producer then b.p.pc == PIdle ==> b.p.result == Some(true)
        else b.c.pc != CPeek && (b.c.pc == CIdle ==> b.c.result == Some(true)))
  }

  lemma StepUnbroken<T>(b: Circular<T>, m: Move<T>, producer: bool)
    requires BufferOk(b) && BufferOk(Step(b, m)) && Unbroken(b, producer)
    requires if producer then !BeginsPut(b, m) && m != Producing(false) else !BeginsGet(b, m) && m != Consuming(false)
    ensures Unbroken(Step(b, m), producer)
  {
    hide StoreOk, CountsOk, S.Good, Contents, Head, BitAnd, S.WaitStep, S.SignalStep, S.Patient;
    if producer && b.p.pc == PWait { S.PatientReturns(b.slots); }
    if !producer && b.c.pc == CWait { S.PatientReturns(b.items); }
    PatientAnyway(b);
  }

  /** The other thread's `signal` of a further permit leaves a wait unbroken. */
  lemma PatientAnyway<T>(b: Circular<T>)
    ensures S.Patient(b.slots) ==> S.Patient(S.BeginSignal(b.slots, 1))
    ensures S.Patient(b.items) ==> S.Patient(S.BeginSignal(b.items, 1))
  {
  }

  lemma WaitStarts<T>(b: Circular<T>, m: Move<T>, producer: bool)
    requires BufferOk(b) && (if producer then BeginsPut(b, m) else BeginsGet(b, m) && m.Get?)
    requires m.patience == Forever || (m.patience.Timed? && m.patience.usecs != 0)
    ensures Unbroken(Step(b, m), producer)
  {
    hide StoreOk, CountsOk, S.Good, Contents, Head, BitAnd;
  }

  /** Over every run a call that waits, for ever or with a time-out other than 0, answers true
      unless a kernel wait of it is given up: with `producer` an enqueue, else a removal. */
  lemma {:induction false} WaitsAnswerTrue<T>(capacity: nat, moves: seq<Move<T>>, k: nat, producer: bool)
    requires 1 <= capacity < HALF_WORD
    requires if producer then LastPut(Start<T>(capacity), moves, k) else LastGet(Start<T>(capacity), moves, k)
    requires moves[k].Put? || moves[k].Get?
    requires moves[k].patience == Forever || (moves[k].patience.Timed? && moves[k].patience.usecs != 0)
    requires forall j :: k < j < |moves| ==> moves[j] != if producer then Producing(false) else Consuming(false)
    ensures Unbroken(Steps(Start<T>(capacity), moves), producer)
    ensures var b := Steps(Start<T>(capacity), moves);
      if producer then b.p.pc == PIdle ==> b.p.result == Some(true) else b.c.pc == CIdle ==> b.c.result == Some(true)
    decreases |moves|
  {
    hide BufferOk, Step, Steps, Start, BeginsGet, BeginsPut, S.Patient;
    var b0, n := Start<T>(capacity), |moves| - 1;
    var prefix := moves[..n];
    StartOk<T>(capacity);
    StepsLast(b0, moves);
    StepsOk(b0, prefix);
    StepsOk(b0, moves);
    RightKind(Steps(b0, moves[..k]), moves[k], producer);
    if k < n {
      assert prefix[..k] == moves[..k];
      forall j | k < j < n
        ensures producer ==> !BeginsPut(Steps(b0, prefix[..j]), prefix[j])
        ensures !producer ==> !BeginsGet(Steps(b0, prefix[..j]), prefix[j])
      {
        assert prefix[..j] == moves[..j];
      }
      WaitsAnswerTrue<T>(capacity, prefix, k, producer);
      StepUnbroken(Steps(b0, prefix), moves[n], producer);
    } else {
      WaitStarts(Steps(b0, prefix), moves[n], producer);
    }
  }

  lemma RightKind<T>(b: Circular<T>, m: Move<T>, producer: bool)
    requires (if producer then BeginsPut(b, m) else BeginsGet(b, m)) && (m.Put? || m.Get?)
    ensures if producer then m.Put? else m.Get?
  {
  }

  // ---- Which capacities work ------------------------------------------------------------------

  lemma {:induction false} StepsAppend<T>(b: Circular<T>, m: seq<Move<T>>, n: seq<Move<T>>)
    ensures Steps(b, m + n) == Steps(Steps(b, m), n)
    decreases |n|
  {
    hide Step;
    if n == [] {
      assert m + n == m;
    } else {
      assert (m + n)[..|m + n| - 1] == m + n[..|n| - 1];
      StepsAppend(b, m, n[..|n| - 1]);
    }
  }

  lemma StepsFirst<T>(b: Circular<T>, m: Move<T>, rest: seq<Move<T>>)
    ensures Steps(b, [m] + rest) == Steps(Step(b, m), rest)
  {
    hide Step;
    StepsAppend(b, [m], rest);
    assert [m][..0] == [];
  }

  function Spinning<T>(n: nat, producer: bool): seq<Move<T>> {
    seq(n, _ => if producer then Producing(true) else Consuming(true))
  }

  lemma {:induction false} Spins<T>(b: Circular<T>, n: nat, producer: bool)
    requires var s := if producer then b.slots else b.items;
      && (if producer then b.p.pc == PWait else b.c.pc == CWait)
      && s.waiter.pc == S.WSpin && s.count <= 0 && n <= s.waiter.spin
    ensures var t := Steps(b, Spinning(n, producer));
      if producer then t == b.(slots := b.slots.(waiter := b.slots.waiter.(spin := b.slots.waiter.spin - n)))
      else t == b.(items := b.items.(waiter := b.items.waiter.(spin := b.items.waiter.spin - n)))
    decreases n
  {
    if n > 0 {
      Spins(b, n - 1, producer);
      assert Spinning<T>(n, producer)[..n - 1] == Spinning(n - 1, producer);
    }
  }

  /** A semaphore without permits once its waiter has gone to sleep. */
  function Slept(s: S.Sema): S.Sema { s.(count := -1, waiter := S.Waiter(S.WKernel, S.Wait(-1), 0, None)) }

  lemma PutSleeps<T>(b: Circular<T>, v: T, spins: nat) returns (moves: seq<Move<T>>)
    requires b.p.pc == PIdle && b.slots.waiter.pc == S.WIdle && b.slots.count == 0 && spins == S.SPINS
    ensures Steps(b, moves) == b.(p := Producer(PWait, Forever, Some(v), None), slots := Slept(b.slots))
  {
    hide Steps;
    var spinning := Spinning<T>(spins, true);
    moves := [Put(v, Forever)] + ([Producing(true)] + (spinning + [Producing(true)]));
    var b1 := Step(b, Put(v, Forever));
    var b2 := Step(b1, Producing(true));
    StepsFirst(b, Put(v, Forever), [Producing(true)] + (spinning + [Producing(true)]));
    StepsFirst(b1, Producing(true), spinning + [Producing(true)]);
    Spins(b2, spins, true);
    StepsAppend(b2, spinning, [Producing(true)]);
    StepsOne(Steps(b2, spinning), Producing(true));
  }

  lemma GetSleeps<T>(b: Circular<T>, spins: nat) returns (moves: seq<Move<T>>)
    requires b.c.pc == CIdle && b.items.waiter.pc == S.WIdle && b.items.count == 0 && spins == S.SPINS
    ensures var t := Steps(b, moves); t.slots == b.slots && t.items == Slept(b.items)
  {
    hide Steps;
    var spinning := Spinning<T>(spins, false);
    moves := [Get(Dequeue, Forever)] + ([Consuming(true)] + (spinning + [Consuming(true)]));
    var b1 := Step(b, Get(Dequeue, Forever));
    var b2 := Step(b1, Consuming(true));
    StepsFirst(b, Get(Dequeue, Forever), [Consuming(true)] + (spinning + [Consuming(true)]));
    StepsFirst(b1, Consuming(true), spinning + [Consuming(true)]);
    Spins(b2, spins, false);
    StepsAppend(b2, spinning, [Consuming(true)]);
    StepsOne(Steps(b2, spinning), Consuming(true));
  }

  lemma StepsOne<T>(b: Circular<T>, m: Move<T>)
    ensures Steps(b, [m]) == Step(b, m)
  {
    hide Step;
    assert [m][..0] == [];
  }

  /** With capacity 0 a `wait_enqueue` and a `wait_dequeue` put both threads to sleep. */
  lemma ZeroDeadlocks<T>(v: T, start: Circular<T>) returns (moves: seq<Move<T>>)
    requires start == Start(0)
    ensures Deadlocked(Steps(start, moves))
  {
    hide Steps;
    var first := PutSleeps(start, v, S.SPINS);
    var second := GetSleeps(Steps(start, first), S.SPINS);
    StepsAppend(start, first, second);
    moves := first + second;
  }

  /** A buffer of any 64-bit capacity is free of faults and of deadlock on every run exactly when
      the capacity is positive and fits the signed count of the semaphore. */
  lemma CapacityExact<T>(capacity: nat, v: T)
    requires capacity < WORD
    ensures (forall moves: seq<Move<T>> :: var b := Steps(Start<T>(capacity), moves); !b.fault && !Deadlocked(b))
              <==> 1 <= capacity < HALF_WORD
  {
    hide Start, Steps, Deadlocked;
    if 1 <= capacity < HALF_WORD {
      forall moves: seq<Move<T>> ensures var b := Steps(Start<T>(capacity), moves); !b.fault && !Deadlocked(b) {
        CircularSafety(capacity, moves);
      }
    } else if capacity == 0 {
      var moves := ZeroDeadlocks(v, Start(capacity));
    } else {
      RefusedStart<T>(capacity);
    }
  }

  lemma RefusedStart<T>(capacity: nat)
    requires HALF_WORD <= capacity < WORD
    ensures Steps(Start<T>(capacity), []).fault
  {
  }

  // ---- The object -----------------------------------------------------------------------------

  /** The buffer's own fields, updated in place. `view` is the whole machine: what the methods do
      to the store is what the machine does, and the accesses to the semaphores, which are objects
      of their own, appear as moves of `view` alone. */
  class BlockingReaderWriterCircularBuffer<T> {
    const maxcap: nat
    const mask: nat
    const data: array<Cell<T>>
    var nextSlot: nat
    var nextItem: nat
    ghost var view: Circular<T>

    /** The fields are those of the machine. */
    ghost predicate Shows()
      reads this, data
    {
      && data[..] == view.cells && maxcap == view.maxcap && mask == view.mask
      && nextSlot == view.nextSlot && nextItem == view.nextItem
    }

    ghost predicate Valid()
      reads this, data
    {
      Shows() && BufferOk(view)
    }

    /** Lines 34-51, for every 64-bit capacity; the mask wraps when the rounding gives 0. Only a
        capacity that fits keeps the buffer's promises. */
    constructor (capacity: nat)
      requires capacity < WORD
      ensures Shows() && view == Start<T>(capacity) && fresh(data)
      ensures 1 <= capacity < HALF_WORD ==> Valid()
    {
      hide BufferOk, RoundedUp;
      var size := CeilToPow2(capacity);
      if 1 <= capacity < HALF_WORD { StartOk<T>(capacity); }
      maxcap, mask := capacity, if size == 0 then WORD - 1 else size - 1;
      data := new Cell<T>[size](_ => Raw);
      nextSlot, nextItem := 0, 0;
      view := Start(capacity);
    }

    /** `new (data + (nextSlot++ & mask)) T(item)`, in `inner_enqueue`. */
    method ConstructItem(item: T)
      requires Valid() && view.p.pc == PConstruct && view.p.arg == Some(item)
      modifies this, data
      ensures Valid() && view == Step(old(view), Producing(true)) && Contents(view) == Contents(old(view)) + [item]
    {
      hide BufferOk, BitAnd, Contents, Head, StoreOk;
      StepOk(view, Producing(true));
      ConstructStore(view);
      var i := nextSlot;
      nextSlot := (nextSlot + 1) % WORD;
      assert |data[..]| == |view.cells|;
      data[BitAnd(i, mask)] := Live(item);
      view := Step(view, Producing(true));
    }

    /** `i = nextItem++`. */
    method TakeItem() returns (i: nat)
      requires Valid() && view.c.pc == CTake
      modifies this
      ensures Valid() && view == Step(old(view), Consuming(true)) && i == view.c.index
    {
      hide BufferOk, BitAnd, Contents, Head, StoreOk;
      StepOk(view, Consuming(true));
      i := nextItem;
      nextItem := (nextItem + 1) % WORD;
      view := Step(view, Consuming(true));
    }

    /** `item = std::move(data[i & mask])`: the oldest element. */
    method MoveOutItem(i: nat) returns (item: T)
      requires Valid() && view.c.pc == CMoveOut && i == view.c.index
      modifies this`view
      ensures Valid() && view == Step(old(view), Consuming(true))
      ensures Contents(view) == Contents(old(view)) != [] && item == Contents(view)[0]
    {
      hide BufferOk, BitAnd, Contents, Head, StoreOk;
      StepOk(view, Consuming(true));
      OldestHere(view);
      assert |data[..]| == |view.cells| && data[BitAnd(i, mask)] == data[..][BitAnd(i, mask)];
      item := data[BitAnd(i, mask)].value;
      view := Step(view, Consuming(true));
    }

    /** `data[i & mask].~T()`, in `inner_dequeue` and `inner_pop`. */
    method DestroyItem(i: nat)
      requires Valid() && view.c.pc == CDestroy && i == view.c.index
      modifies this`view, data
      ensures Valid() && view == Step(old(view), Consuming(true))
      ensures Contents(old(view)) != [] && Contents(view) == Contents(old(view))[1..]
    {
      hide BufferOk, BitAnd, Contents, Head, StoreOk;
      StepOk(view, Consuming(true));
      OldestHere(view);
      assert |data[..]| == |view.cells|;
      data[BitAnd(i, mask)] := Raw;
      view := Step(view, Consuming(true));
    }

    /** An access that does not touch the store: the semaphores, and the starts of calls. */
    ghost method Elsewhere(m: Move<T>)
      requires Valid() && (m.Producing? ==> view.p.pc != PConstruct)
      requires m.Consuming? ==> view.c.pc !in {CTake, CMoveOut, CDestroy}
      modifies this`view
      ensures Valid() && view == Step(old(view), m)
    {
      hide BufferOk, BitAnd, Contents, Head, StoreOk;
      StepOk(view, m);
      view := Step(view, m);
    }

    /** `inner_enqueue`, the consumer standing still: adds the element and gives one item permit. */
    method InnerEnqueue(item: T)
      requires Valid() && view.p.pc == PConstruct && view.p.arg == Some(item)
      modifies this, data
      ensures Valid() && view.p.pc == PIdle && view.p.result == Some(true) && view.c == old(view).c
      ensures Contents(view) == Contents(old(view)) + [item]
      ensures S.Permits(view.items) == S.Permits(old(view).items) + 1 && view.slots == old(view).slots
    {
      hide BufferOk, BitAnd, Contents, Head, S.SignalStep, Step;
      ConstructFields(view);
      ConstructItem(item);
      ItemSignal(view);
      Elsewhere(Producing(true));
      if view.p.pc == PSignal {
        ItemSignal(view);
        Elsewhere(Producing(true));
      }
    }

    /** `inner_dequeue`, the producer standing still: the oldest element comes out and one slot
        permit is given. */
    method InnerDequeue() returns (item: T)
      requires Valid() && view.c.pc == CTake && view.c.op == Dequeue
      modifies this, data
      ensures Valid() && view.c.pc == CIdle && view.c.result == Some(true) && view.p == old(view).p
      ensures Contents(old(view)) == [item] + Contents(view)
      ensures S.Permits(view.slots) == S.Permits(old(view).slots) + 1 && view.items == old(view).items
    {
      hide BufferOk, BitAnd, Contents, Head, S.SignalStep, Step;
      TakeFields(view);
      var i := TakeItem();
      MoveOutFields(view);
      item := MoveOutItem(i);
      DestroyFields(view);
      DestroyItem(i);
      SlotSignal(view);
      Elsewhere(Consuming(true));
      if view.c.pc == CSignal {
        SlotSignal(view);
        Elsewhere(Consuming(true));
      }
    }

    /** `inner_pop`, which destroys the oldest element without reading it. */
    method InnerPop()
      requires Valid() && view.c.pc == CTake && view.c.op == Pop
      modifies this, data
      ensures Valid() && view.c.pc == CIdle && view.c.result == Some(true) && view.p == old(view).p
      ensures Contents(old(view)) != [] && Contents(view) == Contents(old(view))[1..]
      ensures S.Permits(view.slots) == S.Permits(old(view).slots) + 1 && view.items == old(view).items
    {
      hide BufferOk, BitAnd, Contents, Head, S.SignalStep, Step;
      TakeFields(view);
      var i := TakeItem();
      DestroyFields(view);
      DestroyItem(i);
      SlotSignal(view);
      Elsewhere(Consuming(true));
      if view.c.pc == CSignal {
        SlotSignal(view);
        Elsewhere(Consuming(true));
      }
    }

    /** Lines 66-71, run between calls: every element left is destroyed exactly once, oldest first,
        and no slot stays constructed. */
    method Destruct(available: nat) returns (ghost destroyed: seq<T>)
      requires Valid() && view.p.pc == PIdle && view.c.pc == CIdle
      requires available == if view.items.count > 0 then view.items.count else 0  // items->availableApprox()
      modifies data
      ensures view.put == view.taken + destroyed
      ensures forall j :: 0 <= j < data.Length ==> data[j] == Raw
    {
      hide BufferOk, BitAnd, S.Good, IsPow2, CellsOk;
      RestingCounts(view);
      destroyed := [];
      ghost var items := Contents(view);
      var i := 0;
      assert items[0..] == items && items[..0] == [];
      while i != available
        invariant 0 <= i <= available == |items| && destroyed == items[..i] && data.Length == mask + 1
        invariant CellsOk(data[..], items[i..], BitAnd(Counter(nextItem, i), mask))
        decreases available - i
      {
        var slot := BitAnd(Counter(nextItem, i), mask);
        CellsDestroy(data[..], items[i..], slot);
        CounterNext(nextItem, i);
        IncrementWraps(Counter(nextItem, i), mask);
        SlotIn(data[..], items[i..], slot);
        assert data[slot] == data[..][slot];
        destroyed := destroyed + [data[slot].value];
        ghost var before := data[..];
        data[slot] := Raw;
        assert data[..] == before[slot := Raw] && items[i..][1..] == items[i + 1..];
        i := i + 1;
      }
      assert items[..i] == items && items[i..] == [];
      AllRaw(data[..], BitAnd(Counter(nextItem, i), mask));
      assert forall j :: 0 <= j < data.Length ==> data[j] == data[..][j];
    }
  }

  // ---- What each access does to the rest of the machine ------------------------------------------

  lemma ConstructFields<T>(b: Circular<T>)
    requires BufferOk(b) && b.p.pc == PConstruct
    ensures var t := Step(b, Producing(true));
      && t.p.pc == PSignal && t.c == b.c && t.slots == b.slots
      && t.items.signaller == S.SAdd(1) && S.Permits(t.items) == S.Permits(b.items)
  {
    hide StoreOk, S.Good, Contents, Head, BitAnd;
    ConstructStore(b);
  }

  /** One access of `items->signal()`: it adds the permit, and a second access may post. */
  lemma ItemSignal<T>(b: Circular<T>)
    requires BufferOk(b) && b.p.pc == PSignal
    ensures var t := Step(b, Producing(true));
      && t.c == b.c && t.slots == b.slots && Contents(t) == Contents(b)
      && S.Permits(t.items) == S.Permits(b.items) + S.Unsignalled(b.items)
      && (if t.p.pc == PIdle then t.p.result == Some(true)
          else t.p.pc == PSignal && t.items.signaller == S.SPost && b.items.signaller.SAdd?)
  {
    hide StoreOk, S.Good, Head, BitAnd;
  }

  lemma TakeFields<T>(b: Circular<T>)
    requires BufferOk(b) && b.c.pc == CTake
    ensures var t := Step(b, Consuming(true));
      && t.c.pc == (if b.c.op == Dequeue then CMoveOut else CDestroy) && t.c.op == b.c.op && t.p == b.p
      && t.slots == b.slots && t.items == b.items && Contents(t) == Contents(b)
  {
    hide StoreOk, S.Good, Head, BitAnd;
  }

  lemma MoveOutFields<T>(b: Circular<T>)
    requires BufferOk(b) && b.c.pc == CMoveOut
    ensures var t := Step(b, Consuming(true));
      t.c.pc == CDestroy && t.c.index == b.c.index && t.p == b.p && t.slots == b.slots && t.items == b.items
  {
    hide StoreOk, S.Good, Head, BitAnd, Contents;
    OldestHere(b);
  }

  lemma DestroyFields<T>(b: Circular<T>)
    requires BufferOk(b) && b.c.pc == CDestroy
    ensures var t := Step(b, Consuming(true));
      && t.c.pc == CSignal && t.p == b.p && t.items == b.items
      && t.slots.signaller == S.SAdd(1) && S.Permits(t.slots) == S.Permits(b.slots)
  {
    hide StoreOk, S.Good, Head, BitAnd, Contents;
    OldestHere(b);
  }

  /** One access of `slots_->signal()`. */
  lemma SlotSignal<T>(b: Circular<T>)
    requires BufferOk(b) && b.c.pc == CSignal
    ensures var t := Step(b, Consuming(true));
      && t.p == b.p && t.items == b.items && Contents(t) == Contents(b)
      && S.Permits(t.slots) == S.Permits(b.slots) + S.Unsignalled(b.slots)
      && (if t.c.pc == CIdle then t.c.result == Some(true)
          else t.c.pc == CSignal && t.slots.signaller == S.SPost && b.slots.signaller.SAdd?)
  {
    hide StoreOk, S.Good, Head, BitAnd;
  }

  /** `nextItem + i` on a 64-bit counter. */
  function Counter(start: nat, i: nat): nat { (start + i) % WORD }

  lemma CounterNext(start: nat, i: nat)
    ensures Counter(start, i + 1) == Increment(Counter(start, i))
  {
    NextMod(start + i, WORD);
    NextMod((start + i) % WORD, WORD);
  }

  lemma SlotIn<T>(cells: seq<Cell<T>>, items: seq<T>, head: nat)
    requires CellsOk(cells, items, head)
    ensures head < |cells|
  {
  }

  lemma AllRaw<T>(cells: seq<Cell<T>>, head: nat)
    requires CellsOk(cells, [], head)
    ensures forall j :: 0 <= j < |cells| ==> cells[j] == Raw
  {
  }

  /** The slot the consumer is at holds the oldest element. */
  lemma OldestHere<T>(b: Circular<T>)
    requires BufferOk(b) && b.c.pc in {CMoveOut, CDestroy}
    ensures var i := BitAnd(b.c.index, b.mask);
      && i < |b.cells| && Contents(b) != [] && b.cells[i] == Live(Contents(b)[0])
      && (b.c.pc == CMoveOut ==> Contents(MoveOut(b)) == Contents(b))
      && (b.c.pc == CDestroy ==> Contents(Destroy(b)) == Contents(b)[1..])
  {
    hide S.Good, IsPow2, BitAnd;
    Conservation(b);
    CellsDestroy(b.cells, Contents(b), Head(b));
    assert b.put[|b.taken|] == Contents(b)[0];
  }

  /** Between calls the items semaphore counts the elements exactly. */
  lemma RestingCounts<T>(b: Circular<T>)
    requires BufferOk(b) && b.p.pc == PIdle && b.c.pc == CIdle
    ensures b.items.count == |Contents(b)| && b.put == b.taken + Contents(b) && CellsOk(b.cells, Contents(b), Head(b))
    ensures IsPow2(b.mask + 1) && b.mask + 1 <= HALF_WORD && |b.cells| == b.mask + 1
    ensures Head(b) == BitAnd(Counter(b.nextItem, 0), b.mask)
  {
    hide CellsOk, IsPow2, BitAnd;
    Conservation(b);
    SlotOfCounter(b.nextItem, b.mask);
  }

  /** A counter's slot is that of its 64-bit value. */
  lemma SlotOfCounter(i: nat, mask: nat)
    requires IsPow2(mask + 1) && mask + 1 <= HALF_WORD
    ensures BitAnd(i, mask) == BitAnd(Counter(i, 0), mask)
  {
    hide IsPow2, BitAnd;
    AndMaskIsMod(i, mask);
    AndMaskIsMod(Counter(i, 0), mask);
    var q := DividesWord(mask + 1);
    ModMod(i, mask + 1, q);
  }
}
