/** The single-producer single-consumer queue of include/readerwriterqueue.h as a step machine:
    one program counter per thread, one shared access per step, steps interleaved in any order
    (sequential consistency; fences do nothing). Every step is total: an access that the source
    may not make (wild block, element access outside a live cell, failed assert) sets `fault`. */
module QueueModel {
  import opened Wrappers
  import opened Bits

  /** A block of the ring. The last five fields are history, read by no step: the elements
      published and not yet removed, how many of them `localTail` accounts for, by how many
      removals `localFront` lags, and whether the head has been destroyed, or a further
      element constructed, ahead of the index store that says so. */
  datatype Block<T> = Block(
    front: nat, localTail: nat, tail: nat, localFront: nat, next: nat, cells: seq<Cell<T>>, mask: nat,
    items: seq<T>, known: nat, stale: nat, headGone: bool, spare: Option<T>)

  /** The queue object. History: `arc`, the blocks from the front block to the tail block in
      ring order; `free`, those after it; `loose`, a block not linked in yet; `ready`, the
      first free block already holds the element about to be published; `building` and
      `dying`, the blocks where an element is being constructed or destroyed; `base`, the
      smallest block mask. */
  datatype Ring<T> = Ring(
    blocks: seq<Block<T>>, frontBlock: nat, tailBlock: nat, largest: nat, maxBlock: nat,
    arc: seq<nat>, free: seq<nat>, loose: Option<nat>, ready: bool, building: Option<nat>, dying: Option<nat>,
    base: nat)

  datatype ProducerPc =
    PIdle | PLoadTailBlock | PLoadTail | PReloadFront | PConstruct | PStoreTail
    | PLoadNext | PCompareFront | PLoadFreeBlock | PLoadFreeFront | PLoadFreeTail | PConstructFree | PStoreFreeTail
    | PAllocate | PConstructNew | PStoreNewTail | PStoreNewNext | PLinkNew | PStoreTailBlock

  /** The producer's registers, the argument and outcome of its call, and whether at some
      instant of the call at least `size` elements were held. */
  datatype Producer<T> = Producer(
    pc: ProducerPc, canAlloc: bool, arg: Option<T>, block: nat, blockFront: nat, blockTail: nat, nextTail: nat,
    next: nat, nextFront: nat, result: Option<bool>, sawFull: bool)

  datatype ConsumerPc =
    CIdle | CLoadFrontBlock | CLoadFront | CLoadTail | CLoadTailBlock
    | CReloadFrontBlock | CReloadTail | CReloadFront | CLoadNext | CNextFront | CNextTail | CStoreFrontBlock
    | CMoveOut | CDestroy | CStoreFront

  datatype ConsumerOp = Dequeue | Pop | Peek

  /** The consumer's registers, the outcome of its call, the element a returned `Peek`
      pointer refers to, and whether the queue was empty at some instant of the call. */
  datatype Consumer<T> = Consumer(
    pc: ConsumerPc, op: ConsumerOp, block: nat, blockTail: nat, blockFront: nat, next: nat, nextFront: nat,
    hand: Option<T>, result: Option<bool>, pointer: Option<(nat, nat)>, peeked: Option<T>, sawEmpty: bool)

  /** The queue with both threads, the values of the successful calls so far and the
      constructor's argument. */
  datatype State<T> = State(
    q: Ring<T>, p: Producer<T>, c: Consumer<T>, size: nat, enqueued: seq<T>, dequeued: seq<T>, fault: bool)

  // ---- Construction ------------------------------------------------------------

  function RawCells<T>(n: nat): (r: seq<Cell<T>>)
    ensures |r| == n && forall i :: 0 <= i < n ==> r[i] == Raw
  {
    seq(n, i => Raw)
  }

  function FreshBlock<T>(size: nat, next: nat): Block<T> {
    Block(0, 0, 0, 0, next, RawCells(size), if size == 0 then WORD - 1 else size - 1, [], 0, 0, false, None)
  }

  /** Whether the constructor makes several blocks of the maximal size rather than one block. */
  predicate ManyBlocks(size: nat, maxBlock: nat) { RoundedUp((size + 1) % WORD) > maxBlock * 2 }

  function InitialBlockSize(size: nat, maxBlock: nat): nat {
    if ManyBlocks(size, maxBlock) then maxBlock else RoundedUp((size + 1) % WORD)
  }

  function InitialBlockCount(size: nat, maxBlock: nat): nat
    requires maxBlock >= 2
  {
    if ManyBlocks(size, maxBlock) then (size + maxBlock * 2 - 3) / (maxBlock - 1) else 1
  }

  function RingOf<T>(size: nat, count: nat): (r: seq<Block<T>>)
    ensures |r| == count
    ensures forall i :: 0 <= i < count ==> r[i] == FreshBlock(size, if i + 1 == count then 0 else i + 1)
  {
    seq(count, i requires 0 <= i < count => FreshBlock(size, if i + 1 == count then 0 else i + 1))
  }

  function Ids(lo: nat, hi: nat): (r: seq<nat>)
    ensures |r| == (if lo <= hi then hi - lo else 0)
    ensures forall i :: 0 <= i < |r| ==> r[i] == lo + i
  {
    seq(if lo <= hi then hi - lo else 0, i requires i >= 0 => lo + i)
  }

  function InitialRing<T>(size: nat, maxBlock: nat): Ring<T>
    requires maxBlock >= 2
  {
    var blockSize, count := InitialBlockSize(size, maxBlock), InitialBlockCount(size, maxBlock);
    Ring(RingOf(blockSize, count), 0, 0, blockSize, maxBlock,
         [0], Ids(1, count), None, false, None, None, if blockSize == 0 then 0 else blockSize - 1)
  }

  function Init<T>(size: nat, maxBlock: nat): State<T>
    requires maxBlock >= 2
  {
    State(InitialRing(size, maxBlock),
          Producer(PIdle, false, None, 0, 0, 0, 0, 0, 0, None, false),
          Consumer(CIdle, Dequeue, 0, 0, 0, 0, 0, None, None, None, None, false), size, [], [], false)
  }

  // ---- Contents ----------------------------------------------------------------

  function ItemsOf<T>(blocks: seq<Block<T>>, id: nat): seq<T> {
    if id < |blocks| then blocks[id].items else []
  }

  function Flatten<T>(blocks: seq<Block<T>>, ids: seq<nat>): seq<T> {
    if ids == [] then [] else ItemsOf(blocks, ids[0]) + Flatten(blocks, ids[1..])
  }

  /** The elements held, oldest first: those of the blocks from the front block to the tail block. */
  function Contents<T>(q: Ring<T>): seq<T> { Flatten(q.blocks, q.arc) }

  // ---- Writes to the shared structure ------------------------------------------

  function Put<T>(q: Ring<T>, id: nat, b: Block<T>): Ring<T>
    requires id < |q.blocks|
  {
    q.(blocks := q.blocks[id := b])
  }

  /** `localFront = front.load()` */
  function RefreshFront<T>(b: Block<T>): Block<T> { b.(localFront := b.front, stale := 0) }

  /** `localTail = tail.load()` */
  function RefreshTail<T>(b: Block<T>): Block<T> { b.(localTail := b.tail, known := |b.items|) }

  function Build<T>(q: Ring<T>, id: nat, i: nat, v: T): Ring<T>
    requires id < |q.blocks| && i < |q.blocks[id].cells|
  {
    var b := q.blocks[id];
    Put(q, id, b.(cells := b.cells[i := Live(v)], spare := Some(v))).(building := Some(id))
  }

  /** The store of the advanced tail index. */
  function AdvanceTail<T>(b: Block<T>, tail: nat, v: T): Block<T> {
    b.(tail := tail, items := b.items + [v], spare := None)
  }

  function Publish<T>(q: Ring<T>, id: nat, tail: nat, v: T): Ring<T>
    requires id < |q.blocks|
  {
    Put(q, id, AdvanceTail(q.blocks[id], tail, v)).(building := None)
  }

  function PublishAhead<T>(q: Ring<T>, id: nat, tail: nat, v: T): Ring<T>
    requires id < |q.blocks|
  {
    Publish(q, id, tail, v).(ready := true)
  }

  function NewBlockSize<T>(q: Ring<T>): nat { if q.largest >= q.maxBlock then q.largest else q.largest * 2 }

  function AddBlock<T>(q: Ring<T>): Ring<T> {
    q.(blocks := q.blocks + [FreshBlock(NewBlockSize(q), 0)], largest := NewBlockSize(q), loose := Some(|q.blocks|))
  }

  /** `newBlock->tail = newBlock->localTail = 1` */
  function PublishNew<T>(q: Ring<T>, id: nat, v: T): Ring<T>
    requires id < |q.blocks|
  {
    Put(q, id, AdvanceTail(q.blocks[id], 1, v).(localTail := 1, known := 1)).(building := None)
  }

  function SetNext<T>(q: Ring<T>, id: nat, next: nat): Ring<T>
    requires id < |q.blocks|
  {
    Put(q, id, q.blocks[id].(next := next))
  }

  function Splice<T>(q: Ring<T>, id: nat, added: nat): Ring<T>
    requires id < |q.blocks|
  {
    SetNext(q, id, added).(free := [added] + q.free, loose := None, ready := true)
  }

  function MoveTailBlock<T>(q: Ring<T>, next: nat): Ring<T> {
    q.(tailBlock := next, arc := q.arc + [next], free := if q.free == [] then [] else q.free[1..], ready := false)
  }

  function MoveFrontBlock<T>(q: Ring<T>, next: nat): Ring<T> {
    q.(frontBlock := next, arc := if q.arc == [] then [] else q.arc[1..],
       free := if q.arc == [] then q.free else q.free + [q.arc[0]])
  }

  function DestroyCell<T>(q: Ring<T>, id: nat, i: nat): Ring<T>
    requires id < |q.blocks| && i < |q.blocks[id].cells|
  {
    var b := q.blocks[id];
    Put(q, id, b.(cells := b.cells[i := Raw], headGone := true)).(dying := Some(id))
  }

  /** The store of the advanced front index. */
  function AdvanceFront<T>(b: Block<T>, front: nat): Block<T> {
    b.(front := front, items := if b.items == [] then [] else b.items[1..],
       known := if b.known == 0 then 0 else b.known - 1, stale := b.stale + 1, headGone := false)
  }

  function Remove<T>(q: Ring<T>, id: nat, front: nat): Ring<T>
    requires id < |q.blocks|
  {
    Put(q, id, AdvanceFront(q.blocks[id], front)).(dying := None)
  }

  // ---- Steps of inner_enqueue, in program order ---------------------------------

  predicate Sane<T>(s: State<T>) {
    var n := |s.q.blocks|;
    && s.q.frontBlock < n && s.q.tailBlock < n
    && s.p.block < n && s.p.next < n && s.c.block < n && s.c.next < n
  }

  function Fail<T>(s: State<T>): State<T> { s.(fault := true) }

  function ProducerReturns<T>(s: State<T>, result: bool): State<T> {
    s.(p := s.p.(pc := PIdle, result := Some(result)),
       enqueued := if result && s.p.arg.Some? then s.enqueued + [s.p.arg.value] else s.enqueued)
  }

  function LoadTailBlock<T>(s: State<T>): State<T> requires Sane(s) {
    s.(p := s.p.(pc := PLoadTail, block := s.q.tailBlock, blockFront := s.q.blocks[s.q.tailBlock].localFront))
  }

  function LoadTail<T>(s: State<T>): State<T> requires Sane(s) {
    var b := s.q.blocks[s.p.block];
    var nextTail := BitAnd(b.tail + 1, b.mask);
    s.(p := s.p.(pc := if nextTail != s.p.blockFront then PConstruct else PReloadFront,
                 blockTail := b.tail, nextTail := nextTail))
  }

  function ReloadFront<T>(s: State<T>): State<T> requires Sane(s) {
    var b := s.q.blocks[s.p.block];
    s.(q := Put(s.q, s.p.block, RefreshFront(b)),
       p := s.p.(pc := if s.p.nextTail != b.front then PConstruct else PLoadNext))
  }

  /** Constructs the argument in cell `i` of block `id`; the cell must be raw. */
  function Construct<T>(s: State<T>, id: nat, i: nat, pc: ProducerPc): State<T>
    requires id < |s.q.blocks|
  {
    var b := s.q.blocks[id];
    if i < |b.cells| && b.cells[i].Raw? && s.p.arg.Some? then
      s.(q := Build(s.q, id, i, s.p.arg.value), p := s.p.(pc := pc))
    else Fail(s)
  }

  function StoreTail<T>(s: State<T>): State<T> requires Sane(s) && s.p.arg.Some? {
    ProducerReturns(s.(q := Publish(s.q, s.p.block, s.p.nextTail, s.p.arg.value)), true)
  }

  function LoadNext<T>(s: State<T>, pc: ProducerPc): State<T> requires Sane(s) {
    s.(p := s.p.(pc := pc, next := s.q.blocks[s.p.block].next))
  }

  function CompareFront<T>(s: State<T>): State<T> {
    if s.p.next != s.q.frontBlock then s.(p := s.p.(pc := PLoadFreeBlock))
    else if s.p.canAlloc then s.(p := s.p.(pc := PAllocate))
    else ProducerReturns(s, false)
  }

  function LoadFreeFront<T>(s: State<T>): State<T> requires Sane(s) {
    var b := s.q.blocks[s.p.next];
    s.(q := Put(s.q, s.p.next, RefreshFront(b)), p := s.p.(pc := PLoadFreeTail, nextFront := b.front))
  }

  function LoadFreeTail<T>(s: State<T>): State<T> requires Sane(s) {
    var b := s.q.blocks[s.p.next];
    if s.p.nextFront != b.tail then Fail(s)  // the assert of line 588
    else s.(p := s.p.(pc := PConstructFree, nextTail := b.tail))
  }

  function StoreFreeTail<T>(s: State<T>): State<T> requires Sane(s) && s.p.arg.Some? {
    s.(q := PublishAhead(s.q, s.p.next, BitAnd(s.p.nextTail + 1, s.q.blocks[s.p.next].mask), s.p.arg.value),
       p := s.p.(pc := PStoreTailBlock))
  }

  function Allocate<T>(s: State<T>, mallocOk: bool): State<T> {
    if !mallocOk then ProducerReturns(s, false)
    else s.(q := AddBlock(s.q), p := s.p.(pc := PConstructNew, next := |s.q.blocks|))
  }

  function StoreNewTail<T>(s: State<T>): State<T> requires Sane(s) && s.p.arg.Some? {
    if s.q.blocks[s.p.next].front != 0 then Fail(s)  // the assert of line 618
    else s.(q := PublishNew(s.q, s.p.next, s.p.arg.value), p := s.p.(pc := PStoreNewNext))
  }

  function StoreNewNext<T>(s: State<T>): State<T> requires Sane(s) {
    s.(q := SetNext(s.q, s.p.next, s.q.blocks[s.p.block].next), p := s.p.(pc := PLinkNew))
  }

  function LinkNew<T>(s: State<T>): State<T> requires Sane(s) {
    s.(q := Splice(s.q, s.p.block, s.p.next), p := s.p.(pc := PStoreTailBlock))
  }

  function StoreTailBlock<T>(s: State<T>): State<T> {
    ProducerReturns(s.(q := MoveTailBlock(s.q, s.p.next)), true)
  }

  /** One step of `inner_enqueue`; `mallocOk` says whether the `malloc` of this step succeeds. */
  function ProducerStep<T>(s: State<T>, mallocOk: bool): State<T> {
    if s.p.pc == PIdle then s
    else if !Sane(s) || s.p.arg.None? then Fail(s)
    else match s.p.pc
      case PIdle => s
      case PLoadTailBlock => LoadTailBlock(s)
      case PLoadTail => LoadTail(s)
      case PReloadFront => ReloadFront(s)
      case PConstruct => Construct(s, s.p.block, s.p.blockTail, PStoreTail)
      case PStoreTail => StoreTail(s)
      case PLoadNext => LoadNext(s, PCompareFront)
      case PCompareFront => CompareFront(s)
      case PLoadFreeBlock => LoadNext(s, PLoadFreeFront)
      case PLoadFreeFront => LoadFreeFront(s)
      case PLoadFreeTail => LoadFreeTail(s)
      case PConstructFree => Construct(s, s.p.next, s.p.nextTail, PStoreFreeTail)
      case PStoreFreeTail => StoreFreeTail(s)
      case PAllocate => Allocate(s, mallocOk)
      case PConstructNew => Construct(s, s.p.next, 0, PStoreNewTail)
      case PStoreNewTail => StoreNewTail(s)
      case PStoreNewNext => StoreNewNext(s)
      case PLinkNew => LinkNew(s)
      case PStoreTailBlock => StoreTailBlock(s)
  }

  // ---- Steps of try_dequeue, pop and peek, in program order -----------------------

  function ConsumerReturns<T>(s: State<T>, result: bool): State<T> {
    s.(c := s.c.(pc := CIdle, result := Some(result)))
  }

  /** The consumer has found an element at `index` of block `id`: `peek` returns its address,
      `try_dequeue` and `pop` go on to remove it. */
  function Found<T>(s: State<T>, id: nat, index: nat): State<T> {
    if s.c.op == Peek then
      var items := ItemsOf(s.q.blocks, id);
      ConsumerReturns(
        s.(c := s.c.(pointer := Some((id, index)), peeked := if items == [] then None else Some(items[0]))), true)
    else s.(c := s.c.(pc := if s.c.op == Dequeue then CMoveOut else CDestroy, block := id, blockFront := index))
  }

  function LoadFrontBlock<T>(s: State<T>): State<T> requires Sane(s) {
    s.(c := s.c.(pc := CLoadFront, block := s.q.frontBlock, blockTail := s.q.blocks[s.q.frontBlock].localTail))
  }

  function LoadFront<T>(s: State<T>): State<T> requires Sane(s) {
    var b := s.q.blocks[s.c.block];
    if b.front != s.c.blockTail then Found(s, s.c.block, b.front)
    else s.(c := s.c.(pc := CLoadTail, blockFront := b.front))
  }

  function ReadFrontTail<T>(s: State<T>): State<T> requires Sane(s) {
    var b := s.q.blocks[s.c.block];
    var s' := s.(q := Put(s.q, s.c.block, RefreshTail(b)));
    if s.c.blockFront != b.tail then Found(s', s.c.block, s.c.blockFront)
    else s'.(c := s.c.(pc := CLoadTailBlock))
  }

  function ReadTailBlock<T>(s: State<T>): State<T> {
    if s.c.block != s.q.tailBlock then s.(c := s.c.(pc := CReloadFrontBlock))
    else ConsumerReturns(if s.c.op == Peek then s.(c := s.c.(pointer := None, peeked := None)) else s, false)
  }

  function ReloadFrontBlock<T>(s: State<T>): State<T> {
    s.(c := s.c.(pc := CReloadTail, block := s.q.frontBlock))
  }

  function ReloadTail<T>(s: State<T>): State<T> requires Sane(s) {
    var b := s.q.blocks[s.c.block];
    s.(q := Put(s.q, s.c.block, RefreshTail(b)), c := s.c.(pc := CReloadFront, blockTail := b.tail))
  }

  function RecheckFront<T>(s: State<T>): State<T> requires Sane(s) {
    var b := s.q.blocks[s.c.block];
    if b.front != s.c.blockTail then Found(s, s.c.block, b.front)
    else s.(c := s.c.(pc := CLoadNext, blockFront := b.front))
  }

  function LoadNextBlock<T>(s: State<T>): State<T> requires Sane(s) {
    s.(c := s.c.(pc := CNextFront, next := s.q.blocks[s.c.block].next))
  }

  function LoadNextFront<T>(s: State<T>): State<T> requires Sane(s) {
    s.(c := s.c.(pc := CNextTail, nextFront := s.q.blocks[s.c.next].front))
  }

  function LoadNextTail<T>(s: State<T>): State<T> requires Sane(s) {
    var b := s.q.blocks[s.c.next];
    if s.c.nextFront == b.tail then Fail(s)  // the asserts of lines 351, 416 and 467
    else if s.c.op == Peek then Found(s, s.c.next, s.c.nextFront)
    else s.(q := Put(s.q, s.c.next, RefreshTail(b)), c := s.c.(pc := CStoreFrontBlock))
  }

  function StoreFrontBlock<T>(s: State<T>): State<T> {
    Found(s.(q := MoveFrontBlock(s.q, s.c.next)), s.c.next, s.c.nextFront)
  }

  function MoveOut<T>(s: State<T>): State<T> requires Sane(s) {
    var b := s.q.blocks[s.c.block];
    if s.c.blockFront < |b.cells| && b.cells[s.c.blockFront].Live? then
      s.(c := s.c.(pc := CDestroy, hand := Some(b.cells[s.c.blockFront].value)))
    else Fail(s)
  }

  function Destroy<T>(s: State<T>): State<T> requires Sane(s) {
    var b := s.q.blocks[s.c.block];
    if s.c.blockFront < |b.cells| && b.cells[s.c.blockFront].Live? then
      s.(q := DestroyCell(s.q, s.c.block, s.c.blockFront),
         c := s.c.(pc := CStoreFront, hand := if s.c.op == Pop then Some(b.cells[s.c.blockFront].value) else s.c.hand))
    else Fail(s)
  }

  function StoreFront<T>(s: State<T>): State<T> requires Sane(s) {
    var b := s.q.blocks[s.c.block];
    ConsumerReturns(
      s.(q := Remove(s.q, s.c.block, BitAnd(s.c.blockFront + 1, b.mask)),
         dequeued := if s.c.hand.Some? then s.dequeued + [s.c.hand.value] else s.dequeued,
         c := s.c.(pointer := None, peeked := None)), true)
  }

  /** One step of `try_dequeue`, `pop` or `peek`. */
  function ConsumerStep<T>(s: State<T>): State<T> {
    if s.c.pc == CIdle then s
    else if !Sane(s) then Fail(s)
    else match s.c.pc
      case CIdle => s
      case CLoadFrontBlock => LoadFrontBlock(s)
      case CLoadFront => LoadFront(s)
      case CLoadTail => ReadFrontTail(s)
      case CLoadTailBlock => ReadTailBlock(s)
      case CReloadFrontBlock => ReloadFrontBlock(s)
      case CReloadTail => ReloadTail(s)
      case CReloadFront => RecheckFront(s)
      case CLoadNext => LoadNextBlock(s)
      case CNextFront => LoadNextFront(s)
      case CNextTail => LoadNextTail(s)
      case CStoreFrontBlock => StoreFrontBlock(s)
      case CMoveOut => MoveOut(s)
      case CDestroy => Destroy(s)
      case CStoreFront => StoreFront(s)
  }

  // ---- Runs --------------------------------------------------------------------

  datatype Action<T> = Enqueue(value: T, canAlloc: bool) | Produce(mallocOk: bool) | Call(op: ConsumerOp) | Consume

  /** A call may start only when the thread's previous call has returned. */
  function Act<T>(s: State<T>, a: Action<T>): State<T> {
    match a
    case Enqueue(v, canAlloc) =>
      if s.p.pc != PIdle then s
      else s.(p := s.p.(pc := PLoadTailBlock, canAlloc := canAlloc, arg := Some(v), result := None, sawFull := false))
    case Produce(mallocOk) => ProducerStep(s, mallocOk)
    case Call(op) =>
      if s.c.pc != CIdle then s
      else s.(c := s.c.(pc := CLoadFrontBlock, op := op, hand := None, result := None, sawEmpty := false))
    case Consume => ConsumerStep(s)
  }

  /** Calls in progress remember the emptiness or fullness of every instant. */
  function Observe<T>(s: State<T>): State<T> {
    s.(c := if s.c.pc == CIdle then s.c else s.c.(sawEmpty := s.c.sawEmpty || Contents(s.q) == []),
       p := if s.p.pc == PIdle then s.p else s.p.(sawFull := s.p.sawFull || |Contents(s.q)| >= s.size))
  }

  function Next<T>(s: State<T>, a: Action<T>): State<T> { if s.fault then s else Observe(Act(s, a)) }

  /** The state after any interleaving of actions. */
  function Run<T>(s: State<T>, actions: seq<Action<T>>): State<T>
    decreases |actions|
  {
    if actions == [] then s
    else Next(Run(s, actions[..|actions| - 1]), actions[|actions| - 1])
  }
}
