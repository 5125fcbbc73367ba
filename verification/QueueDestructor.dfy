/** The destructor (lines 204-228): every remaining element is destroyed exactly once, oldest
    first, and every block of the ring is freed exactly once. */
module QueueDestructor {
  import opened Wrappers
  import opened Bits
  import opened QueueModel
  import opened QueueInvariant
  import opened QueueWrites
  import opened QueueHeap

  /** The block after `ring[i]` going round. */
  lemma RingNext<T>(q: Ring<T>, i: nat)
    requires RingOk(q) && i < |q.arc| + |q.free|
    ensures var ring := q.arc + q.free;
      ring[i] < |q.blocks| && q.blocks[ring[i]].next == ring[if i + 1 == |ring| then 0 else i + 1]
  {
    hide BlockOk;
    var ring := q.arc + q.free;
    if i + 1 < |q.arc| {
    } else if i < |q.arc| {
    } else {
      assert ring[i] == q.free[i - |q.arc|];
    }
  }

  /** Outside the arc nothing is held, so going round the whole ring meets just the contents. */
  lemma {:induction false} FlattenEmpty<T>(blocks: seq<Block<T>>, arc: seq<nat>, free: seq<nat>)
    requires forall i :: 0 <= i < |free| ==> ItemsOf(blocks, free[i]) == []
    ensures Flatten(blocks, arc + free) == Flatten(blocks, arc)
    decreases |free|
  {
    var n := |free|;
    if n == 0 {
      assert arc + free == arc;
    } else {
      assert arc + free == (arc + free[..n - 1]) + [free[n - 1]];
      FlattenSnoc(blocks, arc + free[..n - 1], free[n - 1]);
      FlattenEmpty(blocks, arc, free[..n - 1]);
    }
  }

  /** Destroys the elements of one block, from its front index to its tail index. */
  method DestroyItems<T>(block: BlockNode<T>, ghost b: Block<T>) returns (ghost destroyed: seq<T>)
    requires BlockOk(b) && !b.headGone && b.spare.None? && IsPow2(b.mask + 1)
    requires block.front == b.front && block.tail == b.tail && block.sizeMask == b.mask && block.data[..] == b.cells
    modifies block.data
    ensures destroyed == b.items
    ensures forall j :: 0 <= j < block.data.Length ==> block.data[j] == Raw
  {
    destroyed := [];
    var i := block.front;
    var blockTail := block.tail;
    ghost var size := b.mask + 1;
    assert |block.data[..]| == size;
    while i != blockTail
      invariant |destroyed| <= |b.items| && i == Wrap(b.front + |destroyed|, size)
      invariant destroyed == b.items[..|destroyed|]
      invariant forall j :: 0 <= j < size ==>
        block.data[j] == if Offset(j, b.front, size) < |destroyed| then Raw else b.cells[j]
      decreases |b.items| - |destroyed|
    {
      assert block.data[i] == Expected(b, i) == Live(b.items[|destroyed|]);
      destroyed := destroyed + [block.data[i].value];
      block.data[i] := Raw;
      AndMaskWraps(i, b.mask);
      i := BitAnd(i + 1, block.sizeMask);
    }
    assert forall j :: 0 <= j < size ==> b.cells[j] == Expected(b, j);
  }

  /** Neither thread is inside a call: nothing is half constructed, destroyed or linked. */
  ghost predicate Quiet<T>(q: Ring<T>) {
    RingOk(q) && MasksOk(q) && q.loose.None? && !q.ready && q.building.None? && q.dying.None?
  }

  /** Everything the ring loop needs of block `ring[i]`. */
  lemma RingBlock<T>(q: Ring<T>, i: nat)
    requires Quiet(q) && i < |q.arc| + |q.free|
    ensures var ring := q.arc + q.free; var b := q.blocks[ring[i]];
      && ring[i] < |q.blocks| && BlockOk(b) && !b.headGone && b.spare.None? && IsPow2(b.mask + 1)
    ensures var ring := q.arc + q.free; forall j :: 0 <= j < i ==> ring[j] != ring[i]
  {
    hide BlockOk, IsPow2, Linked, Occupied;
    var ring := q.arc + q.free;
    assert ring[i] == if i < |q.arc| then q.arc[i] else q.free[i - |q.arc|];
    assert forall j :: 0 <= j < i ==> ring[j] == if j < |q.arc| then q.arc[j] else q.free[j - |q.arc|];
  }

  lemma RingCovers<T>(q: Ring<T>)
    requires Quiet(q)
    ensures q.arc != [] && q.arc[0] == q.frontBlock
    ensures forall i :: 0 <= i < |q.arc + q.free| ==> (q.arc + q.free)[i] < |q.blocks|
    ensures q.frontBlock < |q.blocks| && forall id :: 0 <= id < |q.blocks| ==> id in q.arc + q.free
    ensures Flatten(q.blocks, q.arc + q.free) == Contents(q)
  {
    hide BlockOk, IsPow2, Linked;
    FlattenEmpty(q.blocks, q.arc, q.free);
  }

  lemma RingDistinct<T>(q: Ring<T>)
    requires Quiet(q)
    ensures var ring := q.arc + q.free; forall i, j :: 0 <= i < j < |ring| ==> ring[i] != ring[j]
  {
    hide BlockOk, IsPow2, Linked, Occupied;
    var ring := q.arc + q.free;
    assert forall i :: 0 <= i < |ring| ==> ring[i] == if i < |q.arc| then q.arc[i] else q.free[i - |q.arc|];
  }

  lemma QuietLoose<T>(q: Ring<T>)
    requires Quiet(q)
    ensures q.loose.None?
  {
  }

  lemma FlattenNone<T>(blocks: seq<Block<T>>)
    ensures Flatten(blocks, []) == []
  {
  }

  lemma RingNext2<T>(q: Ring<T>, i: nat)
    requires Quiet(q) && i < |q.arc| + |q.free|
    ensures var ring := q.arc + q.free; var next := if i + 1 == |ring| then 0 else i + 1;
      && ring[i] < |q.blocks| && q.blocks[ring[i]].next == ring[next]
      && (ring[next] == q.frontBlock <==> i + 1 == |ring|)
  {
    hide BlockOk, IsPow2;
    RingNext(q, i);
    RingBlock(q, if i + 1 == |q.arc + q.free| then i else i + 1);
  }

  /** The nodes' arrays hold the cells of the machine from ring position `k` on, and raw memory before. */
  ghost predicate Remaining<T>(nodes: seq<BlockNode<T>>, q: Ring<T>, ring: seq<nat>, k: nat)
    requires forall i :: 0 <= i < |ring| ==> ring[i] < |nodes| == |q.blocks|
    reads set n | n in nodes :: n.data
  {
    forall i :: 0 <= i < |ring| ==>
      if i < k then forall j :: 0 <= j < nodes[ring[i]].data.Length ==> nodes[ring[i]].data[j] == Raw
      else nodes[ring[i]].data[..] == q.blocks[ring[i]].cells
  }

  /** What the loop reads of the nodes, none of which it changes. */
  ghost predicate Laid<T>(nodes: seq<BlockNode<T>>, q: Ring<T>)
    reads nodes
  {
    && |nodes| == |q.blocks|
    && (forall i, j :: 0 <= i < j < |nodes| ==> nodes[i] != nodes[j] && nodes[i].data != nodes[j].data)
    && (forall id {:trigger q.blocks[id]} :: 0 <= id < |nodes| ==>
          && nodes[id].front == q.blocks[id].front && nodes[id].tail == q.blocks[id].tail
          && nodes[id].sizeMask == q.blocks[id].mask
          && nodes[id].next != null && q.blocks[id].next < |nodes| && nodes[id].next == nodes[q.blocks[id].next])
  }

  lemma QueueLaid<T>(queue: ReaderWriterQueue<T>)
    requires queue.Valid() && Quiet(queue.q)
    ensures Laid(queue.nodes, queue.q) && queue.frontBlock == queue.nodes[queue.q.frontBlock]
    ensures forall id {:trigger queue.q.blocks[id]} :: 0 <= id < |queue.nodes| ==>
      queue.nodes[id].data[..] == queue.q.blocks[id].cells
  {
    QuietLoose(queue.q);
  }

  /** One turn of the loop: destroys what is left in the block at ring position `k`. */
  method FreeBlock<T>(
    block: BlockNode<T>, ghost nodes: seq<BlockNode<T>>, ghost q: Ring<T>, ghost ring: seq<nat>, ghost k: nat)
    returns (nextBlock: BlockNode<T>, ghost items: seq<T>)
    requires Quiet(q) && ring == q.arc + q.free && k < |ring| && Laid(nodes, q)
    requires (forall i :: 0 <= i < |ring| ==> ring[i] < |nodes|) && block == nodes[ring[k]]
    requires Remaining(nodes, q, ring, k)
    modifies block.data
    ensures Remaining(nodes, q, ring, k + 1) && items == q.blocks[ring[k]].items
    ensures nextBlock == nodes[if k + 1 == |ring| then q.frontBlock else ring[k + 1]]
    ensures nextBlock == nodes[q.frontBlock] <==> k + 1 == |ring|
  {
    hide BlockOk, IsPow2, Quiet, Flatten;
    RingBlock(q, k);
    RingNext2(q, k);
    RingDistinct(q);
    RingCovers(q);
    nextBlock := block.next;
    ghost var next := ring[if k + 1 == |ring| then 0 else k + 1];
    assert next != q.frontBlock ==> nodes[next] != nodes[q.frontBlock];
    items := DestroyItems(block, q.blocks[ring[k]]);
  }

  lemma NothingFreed<T>(nodes: seq<BlockNode<T>>, q: Ring<T>, ring: seq<nat>)
    requires |nodes| == |q.blocks| && forall i :: 0 <= i < |ring| ==> ring[i] < |nodes|
    requires forall id {:trigger q.blocks[id]} :: 0 <= id < |nodes| ==> nodes[id].data[..] == q.blocks[id].cells
    ensures Remaining(nodes, q, ring, 0)
  {
  }

  lemma FlattenPrefix<T>(blocks: seq<Block<T>>, ring: seq<nat>, k: nat)
    requires k < |ring|
    ensures Flatten(blocks, ring[..k + 1]) == Flatten(blocks, ring[..k]) + ItemsOf(blocks, ring[k])
  {
    assert ring[..k + 1] == ring[..k] + [ring[k]];
    FlattenSnoc(blocks, ring[..k], ring[k]);
  }

  method FreeRing<T>(first: BlockNode<T>, ghost nodes: seq<BlockNode<T>>, ghost q: Ring<T>)
    returns (ghost destroyed: seq<T>, ghost freed: seq<BlockNode<T>>)
    requires Quiet(q) && |nodes| == |q.blocks| && Laid(nodes, q) && q.frontBlock < |nodes|
    requires first == nodes[q.frontBlock]
    requires forall id {:trigger q.blocks[id]} :: 0 <= id < |nodes| ==> nodes[id].data[..] == q.blocks[id].cells
    modifies set n | n in nodes :: n.data
    ensures forall i :: 0 <= i < |q.arc + q.free| ==> (q.arc + q.free)[i] < |nodes|
    ensures destroyed == Contents(q) && |freed| == |q.arc + q.free|
    ensures forall i :: 0 <= i < |freed| ==> freed[i] == nodes[(q.arc + q.free)[i]]
    ensures Remaining(nodes, q, q.arc + q.free, |q.arc + q.free|)
  {
    hide BlockOk, IsPow2, Quiet, RingOk, Flatten, Contents, Laid, Remaining;
    ghost var ring := q.arc + q.free;
    RingCovers(q);
    FlattenNone(q.blocks);
    NothingFreed(nodes, q, ring);
    assert ring[0] == q.frontBlock && ring[..0] == [];
    var block := first;
    destroyed, freed := [], [];
    ghost var k := 0;
    while true
      invariant 0 <= k < |ring| && block == nodes[ring[k]]
      invariant |freed| == k && forall i :: 0 <= i < k ==> freed[i] == nodes[ring[i]]
      invariant destroyed == Flatten(q.blocks, ring[..k])
      invariant Laid(nodes, q) && Remaining(nodes, q, ring, k)
      decreases |ring| - k
    {
      freed := freed + [block];
      ghost var items;
      block, items := FreeBlock(block, nodes, q, ring, k);
      destroyed := destroyed + items;
      FlattenPrefix(q.blocks, ring, k);
      k := k + 1;
      if block == first { break; }
    }
    assert ring[..k] == ring;
  }

  method Destruct<T>(queue: ReaderWriterQueue<T>) returns (ghost destroyed: seq<T>, ghost freed: seq<BlockNode<T>>)
    requires queue.Valid() && Quiet(queue.q)
    modifies set n | n in queue.nodes :: n.data
    ensures destroyed == Contents(queue.q)
    ensures forall n :: n in queue.nodes <==> n in freed
    ensures forall i, j :: 0 <= i < j < |freed| ==> freed[i] != freed[j]
    ensures forall n, j :: n in queue.nodes && 0 <= j < n.data.Length ==> n.data[j] == Raw
  {
    hide BlockOk, IsPow2, Quiet, RingOk, Flatten, Contents;
    ghost var q, nodes := queue.q, queue.nodes;
    ghost var ring := q.arc + q.free;
    QueueLaid(queue);
    destroyed, freed := FreeRing(queue.frontBlock, nodes, q);
    RingCovers(q);
    RingDistinct(q);
    forall id | 0 <= id < |nodes|
      ensures nodes[id] in freed && forall j :: 0 <= j < nodes[id].data.Length ==> nodes[id].data[j] == Raw
    {
      assert id in ring;
      var i :| 0 <= i < |ring| && ring[i] == id;
      assert freed[i] == nodes[id];
    }
  }
}
