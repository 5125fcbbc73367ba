/** The queue object: blocks linked by references, elements in arrays, everything updated in
    place. Each method is one access of the source to the object and is proved to read or
    write what the machine of QueueModel reads or writes. */
module QueueHeap {
  import opened Wrappers
  import opened Bits
  import opened QueueModel

  class BlockNode<T> {
    var front: nat
    var localTail: nat
    var tail: nat
    var localFront: nat
    var next: BlockNode?<T>
    const data: array<Cell<T>>
    const sizeMask: nat

    /** `size - 1` wraps for size 0. */
    constructor (size: nat)
      ensures front == localTail == tail == localFront == 0 && next == null
      ensures sizeMask == if size == 0 then WORD - 1 else size - 1
      ensures fresh(data) && data[..] == RawCells<T>(size)
    {
      front, localTail, tail, localFront, next := 0, 0, 0, 0, null;
      sizeMask := if size == 0 then WORD - 1 else size - 1;
      data := new Cell<T>[size](_ => Raw);
    }
  }

  /** Node `n` is block `b` of the machine; only a block not linked in yet has no successor. */
  ghost predicate Matches<T>(n: BlockNode<T>, b: Block<T>, nodes: seq<BlockNode<T>>, loose: bool)
    reads n, n.data
  {
    && n.front == b.front && n.localTail == b.localTail && n.tail == b.tail && n.localFront == b.localFront
    && n.sizeMask == b.mask && n.data[..] == b.cells
    && (n.next == null ==> loose)
    && (n.next != null ==> b.next < |nodes| && n.next == nodes[b.next])
  }

  /** Node `n` is the one with index `id`. */
  ghost predicate IsNode<T>(n: BlockNode<T>, id: nat, nodes: seq<BlockNode<T>>) { id < |nodes| && n == nodes[id] }

  class ReaderWriterQueue<T> {
    var frontBlock: BlockNode<T>
    var tailBlock: BlockNode<T>
    var largestBlockSize: nat
    const maxBlock: nat
    ghost var nodes: seq<BlockNode<T>>
    ghost var q: Ring<T>

    ghost predicate Valid()
      reads this, nodes, set n | n in nodes :: n.data
    {
      && |nodes| == |q.blocks| && q.frontBlock < |nodes| && q.tailBlock < |nodes|
      && (forall i, j :: 0 <= i < j < |nodes| ==> nodes[i] != nodes[j] && nodes[i].data != nodes[j].data)
      && frontBlock == nodes[q.frontBlock] && tailBlock == nodes[q.tailBlock]
      && largestBlockSize == q.largest && maxBlock == q.maxBlock
      && (forall i {:trigger q.blocks[i]} :: 0 <= i < |nodes| ==>
            Matches(nodes[i], q.blocks[i], nodes, q.loose == Some(i)))
    }

    ghost predicate Is(b: BlockNode<T>, id: nat)
      reads this
    {
      IsNode(b, id, nodes)
    }

    /** Lines 110-157, for every 64-bit size: one block, or several of the maximal size, linked in
        a ring. The rounding gives 0 when `size + 1` wraps or is larger than 2^63. */
    constructor (size: nat, maxBlockSize: nat)
      requires size < WORD && maxBlockSize >= 2
      ensures Valid() && q == InitialRing<T>(size, maxBlockSize)
      ensures fresh(nodes) && forall n :: n in nodes ==> fresh(n.data)
    {
      hide RingOf, RoundedUp, IsPow2;
      var largest := CeilToPow2((size + 1) % WORD);
      var count := 1;
      if largest > maxBlockSize * 2 {
        BlockCountPositive(size, maxBlockSize);
        count := (size + maxBlockSize * 2 - 3) / (maxBlockSize - 1);
        largest := maxBlockSize;
      }
      var first, blocks := MakeRing<T>(largest, count);
      maxBlock := maxBlockSize;
      largestBlockSize := largest;
      frontBlock, tailBlock := first, first;
      nodes, q := blocks, InitialRing(size, maxBlockSize);
    }

    // ---- Loads -------------------------------------------------------------------

    method LoadFrontBlock() returns (b: BlockNode<T>)
      requires Valid()
      ensures Is(b, q.frontBlock)
    {
      b := frontBlock;
    }

    method LoadTailBlock() returns (b: BlockNode<T>)
      requires Valid()
      ensures Is(b, q.tailBlock)
    {
      b := tailBlock;
    }

    method LoadFront(b: BlockNode<T>, ghost id: nat) returns (i: nat)
      requires Valid() && Is(b, id)
      ensures i == q.blocks[id].front
    {
      i := b.front;
    }

    method LoadTail(b: BlockNode<T>, ghost id: nat) returns (i: nat)
      requires Valid() && Is(b, id)
      ensures i == q.blocks[id].tail
    {
      i := b.tail;
    }

    method LoadNext(b: BlockNode<T>, ghost id: nat) returns (n: BlockNode<T>)
      requires Valid() && Is(b, id) && q.loose != Some(id)
      ensures Is(n, q.blocks[id].next)
    {
      assert Matches(nodes[id], q.blocks[id], nodes, false);
      n := b.next;
    }

    method ReadLocalFront(b: BlockNode<T>, ghost id: nat) returns (i: nat)
      requires Valid() && Is(b, id)
      ensures i == q.blocks[id].localFront
    {
      i := b.localFront;
    }

    method ReadLocalTail(b: BlockNode<T>, ghost id: nat) returns (i: nat)
      requires Valid() && Is(b, id)
      ensures i == q.blocks[id].localTail
    {
      i := b.localTail;
    }

    /** `(i + 1) & sizeMask` */
    method Advance(b: BlockNode<T>, ghost id: nat, i: nat) returns (j: nat)
      requires Valid() && Is(b, id)
      ensures j == BitAnd(i + 1, q.blocks[id].mask)
    {
      j := BitAnd(i + 1, b.sizeMask);
    }

    /** Reads the element in cell `i`, which must be constructed. */
    method Element(b: BlockNode<T>, ghost id: nat, i: nat) returns (v: T)
      requires Valid() && Is(b, id) && i < |q.blocks[id].cells| && q.blocks[id].cells[i].Live?
      ensures v == q.blocks[id].cells[i].value
    {
      assert b.data[..][i] == q.blocks[id].cells[i];
      v := b.data[i].value;
    }

    // ---- Stores ------------------------------------------------------------------

    method RefreshLocalFront(b: BlockNode<T>, ghost id: nat) returns (i: nat)
      requires Valid() && Is(b, id)
      modifies this`q, b`localFront
      ensures Valid() && i == old(q).blocks[id].front && q == Put(old(q), id, RefreshFront(old(q).blocks[id]))
    {
      i := b.front;
      b.localFront := i;
      q := Put(q, id, RefreshFront(q.blocks[id]));
    }

    method RefreshLocalTail(b: BlockNode<T>, ghost id: nat) returns (i: nat)
      requires Valid() && Is(b, id)
      modifies this`q, b`localTail
      ensures Valid() && i == old(q).blocks[id].tail && q == Put(old(q), id, RefreshTail(old(q).blocks[id]))
    {
      i := b.tail;
      b.localTail := i;
      q := Put(q, id, RefreshTail(q.blocks[id]));
    }

    /** Constructs `v` in cell `i`, which must be raw memory. */
    method ConstructElement(b: BlockNode<T>, ghost id: nat, i: nat, v: T)
      requires Valid() && Is(b, id) && i < |q.blocks[id].cells| && q.blocks[id].cells[i].Raw?
      modifies this`q, b.data
      ensures Valid() && q == Build(old(q), id, i, v)
    {
      assert |b.data[..]| == |q.blocks[id].cells|;
      b.data[i] := Live(v);
      q := Build(q, id, i, v);
    }

    method DestroyElement(b: BlockNode<T>, ghost id: nat, i: nat)
      requires Valid() && Is(b, id) && i < |q.blocks[id].cells| && q.blocks[id].cells[i].Live?
      modifies this`q, b.data
      ensures Valid() && q == DestroyCell(old(q), id, i)
    {
      assert |b.data[..]| == |q.blocks[id].cells|;
      b.data[i] := Raw;
      q := DestroyCell(q, id, i);
    }

    /** `b->tail = i`, publishing `v`; `ahead` when the block is not the tail block yet. */
    method StoreTail(b: BlockNode<T>, ghost id: nat, i: nat, ghost v: T, ghost ahead: bool)
      requires Valid() && Is(b, id)
      modifies this`q, b`tail
      ensures Valid() && q == if ahead then PublishAhead(old(q), id, i, v) else Publish(old(q), id, i, v)
    {
      b.tail := i;
      q := if ahead then PublishAhead(q, id, i, v) else Publish(q, id, i, v);
    }

    /** `b->tail = b->localTail = 1` on a new block. */
    method StoreNewTail(b: BlockNode<T>, ghost id: nat, ghost v: T)
      requires Valid() && Is(b, id)
      modifies this`q, b`tail, b`localTail
      ensures Valid() && q == PublishNew(old(q), id, v)
    {
      b.localTail := 1;
      b.tail := 1;
      q := PublishNew(q, id, v);
    }

    method StoreFront(b: BlockNode<T>, ghost id: nat, i: nat)
      requires Valid() && Is(b, id)
      modifies this`q, b`front
      ensures Valid() && q == Remove(old(q), id, i)
    {
      b.front := i;
      q := Remove(q, id, i);
    }

    method StoreNext(b: BlockNode<T>, ghost id: nat, n: BlockNode<T>, ghost next: nat)
      requires Valid() && Is(b, id) && Is(n, next)
      modifies this`q, b`next
      ensures Valid() && q == SetNext(old(q), id, next) && b.next != null
    {
      b.next := n;
      q := SetNext(q, id, next);
    }

    /** `tailBlock->next = newBlock`, which links the new block in. */
    method LinkBlock(b: BlockNode<T>, ghost id: nat, n: BlockNode<T>, ghost added: nat)
      requires Valid() && Is(b, id) && Is(n, added) && q.loose == Some(added) && n.next != null
      modifies this`q, b`next
      ensures Valid() && q == Splice(old(q), id, added)
    {
      b.next := n;
      q := Splice(q, id, added);
    }

    method StoreTailBlock(n: BlockNode<T>, ghost next: nat)
      requires Valid() && Is(n, next)
      modifies this`q, this`tailBlock
      ensures Valid() && q == MoveTailBlock(old(q), next)
    {
      tailBlock := n;
      q := MoveTailBlock(q, next);
    }

    method StoreFrontBlock(n: BlockNode<T>, ghost next: nat)
      requires Valid() && Is(n, next)
      modifies this`q, this`frontBlock
      ensures Valid() && q == MoveFrontBlock(old(q), next)
    {
      frontBlock := n;
      q := MoveFrontBlock(q, next);
    }

    /** `make_block` with the size of the largest block, or twice that while it is below the maximum. */
    method MakeBlock() returns (b: BlockNode<T>)
      requires Valid() && q.loose.None?
      modifies this`q, this`largestBlockSize, this`nodes
      ensures Valid() && q == AddBlock(old(q)) && nodes == old(nodes) + [b] && fresh(b) && fresh(b.data)
      ensures b.next == null && Is(b, |old(q).blocks|)
    {
      var size := if largestBlockSize >= maxBlock then largestBlockSize else largestBlockSize * 2;
      b := new BlockNode(size);
      largestBlockSize := size;
      nodes := nodes + [b];
      q := AddBlock(q);
    }
  }

  lemma BlockCountPositive(size: nat, maxBlock: nat)
    requires maxBlock >= 2
    ensures (size + maxBlock * 2 - 3) / (maxBlock - 1) >= 1
  {
    DivPositive(size + maxBlock * 2 - 3, maxBlock - 1);
  }

  ghost predicate FreshNode<T>(n: BlockNode<T>, size: nat)
    reads n, n.data
  {
    && n.front == n.localTail == n.tail == n.localFront == 0
    && n.sizeMask == FreshBlock<T>(size, 0).mask && n.data[..] == RawCells<T>(size)
  }

  /** Makes `count` blocks, each linked to the next and the last to the first. */
  method MakeRing<T>(size: nat, count: nat) returns (firstBlock: BlockNode<T>, ghost nodes: seq<BlockNode<T>>)
    requires count >= 1
    ensures |nodes| == count && firstBlock == nodes[0]
    ensures forall i, j :: 0 <= i < j < count ==> nodes[i] != nodes[j] && nodes[i].data != nodes[j].data
    ensures forall i :: 0 <= i < count ==> fresh(nodes[i]) && fresh(nodes[i].data)
    ensures var bs := RingOf<T>(size, count);
      forall i {:trigger bs[i]} :: 0 <= i < count ==> Matches(nodes[i], bs[i], nodes, false)
  {
    firstBlock := new BlockNode(size);
    firstBlock.next := firstBlock;
    var lastBlock := firstBlock;
    nodes := [firstBlock];
    var i := 1;
    while i != count
      invariant 1 <= i <= count && |nodes| == i && firstBlock == nodes[0] && lastBlock == nodes[i - 1]
      invariant forall j, k :: 0 <= j < k < i ==> nodes[j] != nodes[k] && nodes[j].data != nodes[k].data
      invariant forall j :: 0 <= j < i ==> fresh(nodes[j]) && fresh(nodes[j].data) && FreshNode(nodes[j], size)
      invariant forall j :: 0 <= j < i ==> nodes[j].next == nodes[if j + 1 == i then 0 else j + 1]
      decreases count - i
    {
      var block := new BlockNode(size);
      lastBlock.next := block;
      lastBlock := block;
      block.next := firstBlock;
      nodes := nodes + [block];
      i := i + 1;
    }
    ghost var bs := RingOf<T>(size, count);
    forall j | 0 <= j < count ensures Matches(nodes[j], bs[j], nodes, false) {
      assert FreshNode(nodes[j], size);
      assert nodes[j].next == nodes[if j + 1 == i then 0 else j + 1];
    }
  }
}
