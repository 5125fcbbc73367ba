/** Each write to the shared structure keeps the ring in order, has the stated effect on the
    contents, and disturbs nothing the other thread relies on. */
module QueueWrites {
  import opened Wrappers
  import opened Bits
  import opened QueueModel
  import opened QueueInvariant

  // ---- Contents ----------------------------------------------------------------

  lemma {:induction false} FlattenSame<T>(blocks: seq<Block<T>>, blocks': seq<Block<T>>, ids: seq<nat>)
    requires forall i :: 0 <= i < |ids| ==> ItemsOf(blocks, ids[i]) == ItemsOf(blocks', ids[i])
    ensures Flatten(blocks, ids) == Flatten(blocks', ids)
  {
    if ids != [] { FlattenSame(blocks, blocks', ids[1..]); }
  }

  lemma {:induction false} FlattenSnoc<T>(blocks: seq<Block<T>>, ids: seq<nat>, id: nat)
    ensures Flatten(blocks, ids + [id]) == Flatten(blocks, ids) + ItemsOf(blocks, id)
  {
    if ids == [] {
      assert ids + [id] == [id];
    } else {
      assert (ids + [id])[1..] == ids[1..] + [id];
      FlattenSnoc(blocks, ids[1..], id);
    }
  }

  /** Appending to the tail block's items appends to the contents. */
  lemma FlattenGrow<T>(blocks: seq<Block<T>>, blocks': seq<Block<T>>, ids: seq<nat>, v: T)
    requires ids != []
    requires forall i :: 0 <= i < |ids| - 1 ==> ItemsOf(blocks', ids[i]) == ItemsOf(blocks, ids[i])
    requires ItemsOf(blocks', ids[|ids| - 1]) == ItemsOf(blocks, ids[|ids| - 1]) + [v]
    ensures Flatten(blocks', ids) == Flatten(blocks, ids) + [v]
  {
    var k := |ids| - 1;
    assert ids == ids[..k] + [ids[k]];
    FlattenSnoc(blocks, ids[..k], ids[k]);
    FlattenSnoc(blocks', ids[..k], ids[k]);
    FlattenSame(blocks, blocks', ids[..k]);
  }

  lemma FlattenTail<T>(q: Ring<T>, q': Ring<T>, b: Block<T>, v: T)
    requires Shape(q) && q'.blocks == q.blocks[q.tailBlock := b] && q'.arc == q.arc
    requires b.items == q.blocks[q.tailBlock].items + [v]
    ensures Contents(q') == Contents(q) + [v]
  {
    FlattenGrow(q.blocks, q'.blocks, q.arc, v);
  }

  lemma FlattenCons<T>(blocks: seq<Block<T>>, ids: seq<nat>)
    requires ids != []
    ensures Flatten(blocks, ids) == ItemsOf(blocks, ids[0]) + Flatten(blocks, ids[1..])
  {
  }

  /** Dropping the front block's first item drops the first of the contents. */
  lemma FlattenHead<T>(q: Ring<T>, q': Ring<T>, b: Block<T>)
    requires Shape(q) && q'.blocks == q.blocks[q.frontBlock := b] && q'.arc == q.arc
    requires q.blocks[q.frontBlock].items != [] && b.items == q.blocks[q.frontBlock].items[1..]
    ensures Contents(q) == [q.blocks[q.frontBlock].items[0]] + Contents(q')
  {
    hide Flatten;
    FlattenSame(q.blocks, q'.blocks, q.arc[1..]);
    FlattenCons(q.blocks, q.arc);
    FlattenCons(q'.blocks, q.arc);
    var items := q.blocks[q.frontBlock].items;
    assert items == [items[0]] + items[1..];
  }

  // ---- What each thread relies on ----------------------------------------------

  /** A write by the producer: the front of the queue, the consumer's indices and the items
      the consumer can see stay; the arc and the tail block may grow. */
  ghost predicate ProducerKeeps<T>(q: Ring<T>, q': Ring<T>)
    requires Shape(q) && Shape(q')
  {
    && |q.blocks| <= |q'.blocks| && q'.frontBlock == q.frontBlock && q'.dying == q.dying
    && q.arc <= q'.arc
    && (forall i :: 0 <= i < |q.arc| ==>
          var b, b' := q.blocks[q.arc[i]], q'.blocks[q.arc[i]];
          && b'.front == b.front && b'.known == b.known && b'.localTail == b.localTail && b'.headGone == b.headGone
          && b.items <= b'.items)
    && (forall i :: 0 <= i < |q.arc| - 1 ==> q'.blocks[q.arc[i]].items == q.blocks[q.arc[i]].items)
  }

  /** A write by the consumer: tails, links, blocks other than the front one and the free
      blocks already there stay; the front block may shrink and move to the free blocks. */
  ghost predicate ConsumerKeeps<T>(q: Ring<T>, q': Ring<T>)
    requires Shape(q) && Shape(q')
  {
    && |q'.blocks| == |q.blocks| && q'.tailBlock == q.tailBlock
    && q'.loose == q.loose && q'.ready == q.ready && q'.building == q.building
    && |q'.arc| <= |q.arc| && q.free <= q'.free
    && (forall id :: 0 <= id < |q.blocks| ==>
          var b, b' := q.blocks[id], q'.blocks[id];
          && b'.tail == b.tail && b'.spare == b.spare && b'.localFront == b.localFront && b'.next == b.next
          && b'.mask == b.mask && b'.stale + |b'.items| == b.stale + |b.items|)
    && (forall id :: 0 <= id < |q.blocks| && id != q.frontBlock ==>
          var b, b' := q.blocks[id], q'.blocks[id];
          b'.items == b.items && b'.stale == b.stale && b'.front == b.front)
  }

  lemma ConsumerStable<T>(q: Ring<T>, q': Ring<T>, c: Consumer<T>)
    requires RingOk(q) && RingOk(q') && ProducerKeeps(q, q')
    requires ConsumerOk(q, c) && PointerOk(q, c)
    ensures ConsumerOk(q', c) && PointerOk(q', c)
  {
    assert q'.arc[0] == q.arc[0];
    if |q.arc| >= 2 { assert q'.arc[1] == q.arc[1]; }
  }

  lemma ProducerStable<T>(q: Ring<T>, q': Ring<T>, p: Producer<T>)
    requires RingOk(q) && RingOk(q') && ConsumerKeeps(q, q')
    requires ProducerOk(q, p)
    ensures ProducerOk(q', p)
  {
    if q.free != [] { assert q'.free[0] == q.free[0]; }
  }

  /** Where the oldest element is: the first block of the arc that holds anything, at its front. */
  ghost function Oldest<T>(q: Ring<T>): (nat, nat) {
    var id :=
      if |q.arc| >= 2 && ItemsOf(q.blocks, q.arc[0]) == [] then q.arc[1] else if q.arc != [] then q.arc[0] else 0;
    (id, if id < |q.blocks| then q.blocks[id].front else 0)
  }

  ghost predicate SameOldest<T>(q: Ring<T>, q': Ring<T>) { Contents(q) != [] ==> Oldest(q') == Oldest(q) }

  /** No write of the producer moves the oldest element. */
  lemma ProducerOldest<T>(q: Ring<T>, q': Ring<T>)
    requires Shape(q) && Shape(q') && ProducerKeeps(q, q')
    ensures SameOldest(q, q')
  {
    assert q'.arc[0] == q.arc[0];
    if |q.arc| >= 2 {
      assert q'.arc[1] == q.arc[1];
    } else {
      assert q.arc[1..] == [];
      assert Contents(q) == q.blocks[q.arc[0]].items + Flatten(q.blocks, q.arc[1..]);
    }
  }

  // ---- One block is overwritten --------------------------------------------------

  lemma SameShape<T>(q: Ring<T>, q': Ring<T>)
    requires Shape(q) && |q'.blocks| == |q.blocks| && q'.arc == q.arc && q'.free == q.free && q'.loose == q.loose
    requires q'.frontBlock == q.frontBlock && q'.tailBlock == q.tailBlock
    ensures Shape(q')
  {
  }

  lemma PutLinked<T>(q: Ring<T>, q': Ring<T>, id: nat, b: Block<T>)
    requires Shape(q) && Shape(q') && Linked(q) && id < |q.blocks| && b.next == q.blocks[id].next
    requires q'.blocks == q.blocks[id := b] && q'.arc == q.arc && q'.free == q.free
    ensures Linked(q')
  {
  }

  lemma PutOccupied<T>(q: Ring<T>, q': Ring<T>, id: nat, b: Block<T>)
    requires Shape(q) && Shape(q') && Occupied(q) && id < |q.blocks| && b.mask == q.blocks[id].mask
    requires id in q.arc && id != q.frontBlock ==> b.items != [] && (id == q.tailBlock || |b.items| == b.mask)
    requires forall i :: 0 <= i < |q.free| && id == q.free[i] ==> b.items == [] || (i == 0 && q'.ready)
    requires q.ready ==> q'.ready
    requires q'.blocks == q.blocks[id := b] && q'.arc == q.arc && q'.free == q.free
    ensures Occupied(q')
  {
  }

  /** A block may be replaced when the replacement is itself in order and keeps the link, the
      mask, and the occupancy its place in the ring calls for. */
  lemma PutOk<T>(q: Ring<T>, id: nat, b: Block<T>, building: Option<nat>, dying: Option<nat>, ready: bool)
    requires RingOk(q) && id < |q.blocks| && BlockOk(b)
    requires b.next == q.blocks[id].next && b.mask == q.blocks[id].mask
    requires id in q.arc && id != q.frontBlock ==> b.items != [] && (id == q.tailBlock || |b.items| == b.mask)
    requires forall i :: 0 <= i < |q.free| && id == q.free[i] ==> b.items == [] || (i == 0 && ready)
    requires q.ready ==> ready
    requires b.spare.Some? ==> building == Some(id)
    requires building == q.building || (b.spare.None? && q.building == Some(id)) || q.building.None?
    requires b.headGone ==> dying == Some(id)
    requires dying == q.dying || (!b.headGone && q.dying == Some(id)) || q.dying.None?
    ensures RingOk(Put(q, id, b).(building := building, dying := dying, ready := ready))
  {
    hide BlockOk, Shape, Linked, Occupied;
    var q' := Put(q, id, b).(building := building, dying := dying, ready := ready);
    SameShape(q, q');
    PutLinked(q, q', id, b);
    PutOccupied(q, q', id, b);
  }

  lemma ProducerPut<T>(q: Ring<T>, q': Ring<T>, id: nat, b: Block<T>)
    requires Shape(q) && Shape(q') && id < |q.blocks| && q'.blocks == q.blocks[id := b]
    requires q'.arc == q.arc && q'.frontBlock == q.frontBlock && q'.dying == q.dying
    requires id in q.arc ==>
      var o := q.blocks[id];
      && b.front == o.front && b.known == o.known && b.localTail == o.localTail && b.headGone == o.headGone
      && o.items <= b.items && (id == q.tailBlock || b.items == o.items)
    ensures ProducerKeeps(q, q')
  {
  }

  lemma ConsumerPut<T>(q: Ring<T>, q': Ring<T>, id: nat, b: Block<T>)
    requires Shape(q) && Shape(q') && id < |q.blocks| && q'.blocks == q.blocks[id := b]
    requires q'.arc == q.arc && q'.free == q.free && q'.tailBlock == q.tailBlock
    requires q'.loose == q.loose && q'.ready == q.ready && q'.building == q.building
    requires
      var o := q.blocks[id];
      && b.tail == o.tail && b.spare == o.spare && b.localFront == o.localFront && b.next == o.next && b.mask == o.mask
      && b.stale + |b.items| == o.stale + |o.items|
      && (id == q.frontBlock || (b.items == o.items && b.stale == o.stale && b.front == o.front))
    ensures ConsumerKeeps(q, q')
  {
  }

  lemma Ends<T>(q: Ring<T>)
    requires Shape(q)
    ensures q.frontBlock < |q.blocks| && q.tailBlock < |q.blocks| && q.frontBlock in q.arc && q.tailBlock in q.arc
    ensures forall i :: 0 <= i < |q.free| ==> q.free[i] !in q.arc && q.free[i] < |q.blocks|
    ensures forall i, j :: 0 <= i < j < |q.free| ==> q.free[i] != q.free[j]
    ensures q.loose.Some? ==> q.loose.value < |q.blocks| && q.loose.value !in q.arc && q.loose.value !in q.free
  {
  }

  lemma RingEnds<T>(q: Ring<T>)
    requires RingOk(q)
    ensures q.frontBlock < |q.blocks| && q.tailBlock < |q.blocks| && q.frontBlock in q.arc && q.tailBlock in q.arc
    ensures q.arc != [] && q.arc[0] == q.frontBlock
    ensures forall i :: 0 <= i < |q.free| ==> q.free[i] !in q.arc && q.free[i] < |q.blocks|
    ensures q.loose.Some? ==> q.loose.value < |q.blocks| && q.loose.value !in q.arc && q.loose.value !in q.free
  {
  }

  /** Every block is in order. */
  lemma Facts<T>(q: Ring<T>, id: nat)
    requires RingOk(q) && id < |q.blocks|
    ensures id in q.arc && id != q.frontBlock ==>
      q.blocks[id].items != [] && (id == q.tailBlock || |q.blocks[id].items| == q.blocks[id].mask)
    ensures forall i :: 0 <= i < |q.free| && q.free[i] == id ==> q.blocks[id].items == [] || (i == 0 && q.ready)
    ensures BlockOk(q.blocks[id]) && IndicesOk(q.blocks[id]) && |q.blocks[id].cells| == q.blocks[id].mask + 1
    ensures q.blocks[id].spare.Some? ==> q.building == Some(id)
    ensures q.blocks[id].headGone ==> q.dying == Some(id)
  {
  }

  // ---- Producer writes -----------------------------------------------------------

  lemma WriteRefreshFront<T>(q: Ring<T>, id: nat)
    requires RingOk(q) && id < |q.blocks|
    ensures var q' := Put(q, id, RefreshFront(q.blocks[id]));
      RingOk(q') && ProducerKeeps(q, q') && Contents(q') == Contents(q)
  {
    hide BlockOk, Shape, Linked, Occupied, ProducerKeeps, ConsumerKeeps;
    Ends(q);
    var b := q.blocks[id];
    var q' := Put(q, id, RefreshFront(b));
    Facts(q, id);
    ReadFront(b);
    PutOk(q, id, RefreshFront(b), q.building, q.dying, q.ready);
    ProducerPut(q, q', id, RefreshFront(b));
    FlattenSame(q.blocks, q'.blocks, q.arc);
  }

  lemma WriteBuild<T>(q: Ring<T>, id: nat, v: T)
    requires RingOk(q) && id < |q.blocks| && q.building.None? && |q.blocks[id].items| < q.blocks[id].mask
    ensures var i := q.blocks[id].tail;
      && i < |q.blocks[id].cells| && q.blocks[id].cells[i].Raw?
      && var q' := Build(q, id, i, v); RingOk(q') && ProducerKeeps(q, q') && Contents(q') == Contents(q)
  {
    hide BlockOk, Shape, Linked, Occupied, ProducerKeeps, ConsumerKeeps;
    Ends(q);
    var b := q.blocks[id];
    Facts(q, id);
    ConstructBlock(b, v);
    var b' := b.(cells := b.cells[b.tail := Live(v)], spare := Some(v));
    var q' := Build(q, id, b.tail, v);
    PutOk(q, id, b', Some(id), q.dying, q.ready);
    ProducerPut(q, q', id, b');
    FlattenSame(q.blocks, q'.blocks, q.arc);
  }

  /** Publication in the tail block appends to the contents. */
  lemma WritePublish<T>(q: Ring<T>, tail: nat, v: T)
    requires RingOk(q)
    requires var b := q.blocks[q.tailBlock];
      && q.building == Some(q.tailBlock) && b.spare == Some(v) && b.stale + |b.items| < b.mask
      && tail == Wrap(b.tail + 1, b.mask + 1)
    ensures var q' := Publish(q, q.tailBlock, tail, v);
      RingOk(q') && ProducerKeeps(q, q') && Contents(q') == Contents(q) + [v]
  {
    hide BlockOk, Shape, Linked, Occupied, ProducerKeeps, ConsumerKeeps;
    Ends(q);
    var b := q.blocks[q.tailBlock];
    var b' := AdvanceTail(b, tail, v);
    var q' := Publish(q, q.tailBlock, tail, v);
    Facts(q, q.tailBlock);
    PublishBlock(b, tail, v);
    PutOk(q, q.tailBlock, b', None, q.dying, q.ready);
    ProducerPut(q, q', q.tailBlock, b');
    FlattenTail(q, q', b', v);
  }

  /** Publication in the first free block is not visible yet. */
  lemma WritePublishAhead<T>(q: Ring<T>, id: nat, tail: nat, v: T)
    requires RingOk(q) && q.free != [] && id == q.free[0]
    requires var b := q.blocks[id];
      && q.building == Some(id) && b.spare == Some(v) && b.stale + |b.items| < b.mask
      && tail == Wrap(b.tail + 1, b.mask + 1)
    ensures var q' := PublishAhead(q, id, tail, v);
      RingOk(q') && ProducerKeeps(q, q') && Contents(q') == Contents(q)
  {
    hide BlockOk, Shape, Linked, Occupied, ProducerKeeps, ConsumerKeeps;
    Ends(q);
    var b := q.blocks[id];
    var b' := AdvanceTail(b, tail, v);
    var q' := PublishAhead(q, id, tail, v);
    Facts(q, id);
    PublishBlock(b, tail, v);
    PutOk(q, id, b', None, q.dying, true);
    ProducerPut(q, q', id, b');
    FlattenSame(q.blocks, q'.blocks, q.arc);
  }

  lemma AddShape<T>(q: Ring<T>)
    requires Shape(q) && q.loose.None?
    ensures Shape(AddBlock(q))
  {
    var q' := AddBlock(q);
    assert q'.loose == Some(|q.blocks|);
  }

  /** Facts about listed blocks survive when those blocks stay as they are. */
  lemma ListedStay<T>(q: Ring<T>, q': Ring<T>)
    requires Shape(q) && Shape(q') && Linked(q) && Occupied(q)
    requires q'.arc == q.arc && q'.free == q.free && q'.ready == q.ready
    requires |q.blocks| <= |q'.blocks| && forall id :: 0 <= id < |q.blocks| ==> q'.blocks[id] == q.blocks[id]
    ensures Linked(q') && Occupied(q')
  {
  }

  lemma AddKeeps<T>(q: Ring<T>)
    requires Shape(q) && Shape(AddBlock(q))
    ensures ProducerKeeps(q, AddBlock(q))
  {
    hide FreshBlock, NewBlockSize;
  }

  lemma AddRest<T>(q: Ring<T>)
    requires Shape(q) && Linked(q) && Occupied(q) && Shape(AddBlock(q))
    ensures Linked(AddBlock(q)) && Occupied(AddBlock(q)) && ProducerKeeps(q, AddBlock(q))
  {
    hide Shape, Linked, Occupied, ProducerKeeps, FreshBlock, NewBlockSize;
    ListedStay(q, AddBlock(q));
    AddKeeps(q);
  }

  lemma AddContents<T>(q: Ring<T>)
    requires Shape(q)
    ensures Contents(AddBlock(q)) == Contents(q)
  {
    hide Flatten, FreshBlock, NewBlockSize;
    FlattenSame(q.blocks, AddBlock(q).blocks, q.arc);
  }

  lemma WriteAddBlock<T>(q: Ring<T>)
    requires RingOk(q) && q.loose.None? && q.largest >= 2
    ensures var q' := AddBlock(q);
      RingOk(q') && ProducerKeeps(q, q') && Contents(q') == Contents(q)
  {
    hide BlockOk, Shape, Linked, Occupied, ProducerKeeps;
    var q' := AddBlock(q);
    FreshBlockOk<T>(NewBlockSize(q), 0);
    AddShape(q);
    AddRest(q);
    AddContents(q);
  }

  lemma WritePublishNew<T>(q: Ring<T>, id: nat, v: T)
    requires RingOk(q) && q.loose == Some(id)
    requires var b := q.blocks[id];
      q.building == Some(id) && b.spare == Some(v) && b.stale == 0 && b.items == [] && b.front == 0
    ensures var q' := PublishNew(q, id, v);
      RingOk(q') && ProducerKeeps(q, q') && Contents(q') == Contents(q)
  {
    hide BlockOk, Shape, Linked, Occupied, ProducerKeeps, ConsumerKeeps;
    Ends(q);
    var b := q.blocks[id];
    var b1 := AdvanceTail(b, 1, v);
    var b' := b1.(localTail := 1, known := 1);
    var q' := PublishNew(q, id, v);
    Facts(q, id);
    PublishBlock(b, 1, v);
    ReadTail(b1);
    PutOk(q, id, b', None, q.dying, q.ready);
    ProducerPut(q, q', id, b');
    FlattenSame(q.blocks, q'.blocks, q.arc);
  }

  lemma Relink<T>(q: Ring<T>, q': Ring<T>, id: nat, next: nat)
    requires id < |q.blocks| && q'.blocks == q.blocks[id := q.blocks[id].(next := next)] && BlocksOk(q) && Flagged(q)
    requires q'.building == q.building && q'.dying == q.dying
    ensures BlocksOk(q') && Flagged(q')
  {
    assert BlockOk(q.blocks[id]);
    assert BlockOk(q.blocks[id].(next := next));
    forall i | 0 <= i < |q'.blocks| ensures BlockOk(q'.blocks[i]) {
      hide BlockOk;
    }
  }

  lemma OutsideLinked<T>(q: Ring<T>, q': Ring<T>, id: nat, b: Block<T>)
    requires Shape(q) && Shape(q') && Linked(q) && q.loose == Some(id)
    requires q'.blocks == q.blocks[id := b] && q'.arc == q.arc && q'.free == q.free
    ensures Linked(q')
  {
  }

  lemma PutOutside<T>(q: Ring<T>, q': Ring<T>, id: nat, b: Block<T>)
    requires Shape(q) && Shape(q') && Linked(q) && Occupied(q) && q.loose == Some(id)
    requires q'.blocks == q.blocks[id := b] && q'.arc == q.arc && q'.free == q.free && q'.ready == q.ready
    ensures Linked(q') && Occupied(q')
  {
    hide Linked;
    OutsideLinked(q, q', id, b);
  }

  /** The link of a block outside the ring may be set freely. */
  lemma WriteSetNext<T>(q: Ring<T>, id: nat, next: nat)
    requires RingOk(q) && q.loose == Some(id)
    ensures var q' := SetNext(q, id, next);
      RingOk(q') && ProducerKeeps(q, q') && Contents(q') == Contents(q)
  {
    hide BlocksOk, Flagged, Shape, Linked, Occupied, ProducerKeeps;
    Ends(q);
    var q' := SetNext(q, id, next);
    var b := q.blocks[id].(next := next);
    Relink(q, q', id, next);
    SameShape(q, q');
    PutOutside(q, q', id, b);
    ProducerPut(q, q', id, b);
    FlattenSame(q.blocks, q'.blocks, q.arc);
  }

  lemma SpliceShape<T>(q: Ring<T>, added: nat)
    requires Shape(q) && q.loose == Some(added)
    ensures Shape(Splice(q, q.tailBlock, added))
  {
    var q' := Splice(q, q.tailBlock, added);
    assert forall i :: 1 <= i < |q'.free| ==> q'.free[i] == q.free[i - 1];
    assert added in q'.free;
    assert forall i :: 0 <= i < |q.free| ==> q.free[i] == q'.free[i + 1];
  }

  lemma SpliceLinked<T>(q: Ring<T>, added: nat)
    requires Shape(q) && Linked(q) && q.loose == Some(added) && q.blocks[added].next == q.blocks[q.tailBlock].next
    requires Shape(Splice(q, q.tailBlock, added))
    ensures Linked(Splice(q, q.tailBlock, added))
  {
    var q' := Splice(q, q.tailBlock, added);
    assert forall i :: 1 <= i < |q'.free| ==> q'.free[i] == q.free[i - 1];
  }

  lemma SpliceOccupied<T>(q: Ring<T>, added: nat)
    requires Shape(q) && Occupied(q) && q.loose == Some(added) && !q.ready
    requires Shape(Splice(q, q.tailBlock, added))
    ensures Occupied(Splice(q, q.tailBlock, added))
  {
    var q' := Splice(q, q.tailBlock, added);
    assert forall i :: 1 <= i < |q'.free| ==> q'.free[i] == q.free[i - 1];
    assert forall id :: 0 <= id < |q.blocks| ==>
        q'.blocks[id].items == q.blocks[id].items && q'.blocks[id].mask == q.blocks[id].mask;
  }

  /** Splicing in the new block after the tail block keeps one ring. */
  lemma WriteSplice<T>(q: Ring<T>, added: nat)
    requires RingOk(q) && q.loose == Some(added) && !q.ready && q.tailBlock < |q.blocks|
    requires q.blocks[added].next == q.blocks[q.tailBlock].next
    ensures var q' := Splice(q, q.tailBlock, added);
      RingOk(q') && ProducerKeeps(q, q') && Contents(q') == Contents(q)
  {
    hide BlocksOk, Flagged, Shape, Linked, Occupied, ProducerKeeps;
    var q' := Splice(q, q.tailBlock, added);
    Relink(q, q', q.tailBlock, added);
    SpliceShape(q, added);
    SpliceLinked(q, added);
    SpliceOccupied(q, added);
    ProducerPut(q, q', q.tailBlock, q.blocks[q.tailBlock].(next := added));
    FlattenSame(q.blocks, q'.blocks, q.arc);
  }

  /** Moving the tail block moves the first free block to the end of the arc. */
  lemma MoveTailLists<T>(q: Ring<T>)
    requires q.free != []
    ensures var q' := MoveTailBlock(q, q.free[0]);
      && |q'.free| == |q.free| - 1 && (forall i :: 0 <= i < |q'.free| ==> q'.free[i] == q.free[i + 1])
      && |q'.arc| == |q.arc| + 1 && q'.arc[|q.arc|] == q.free[0]
      && (forall i :: 0 <= i < |q.arc| ==> q'.arc[i] == q.arc[i])
  {
  }

  lemma MoveTailCovers<T>(q: Ring<T>, id: nat)
    requires Shape(q) && q.free != [] && id < |q.blocks|
    ensures var q' := MoveTailBlock(q, q.free[0]); id in q'.arc || id in q'.free || q.loose == Some(id)
    ensures var q' := MoveTailBlock(q, q.free[0]); q.loose == Some(id) ==> id !in q'.arc && id !in q'.free
  {
    var q' := MoveTailBlock(q, q.free[0]);
    MoveTailLists(q);
    if id in q.arc {
      var i :| 0 <= i < |q.arc| && q.arc[i] == id;
      assert q'.arc[i] == id;
    } else if id in q.free {
      var i :| 0 <= i < |q.free| && q.free[i] == id;
      if i > 0 { assert q'.free[i - 1] == id; } else { assert q'.arc[|q.arc|] == id; }
    }
  }

  lemma MoveTailShape<T>(q: Ring<T>)
    requires Shape(q) && q.free != []
    ensures Shape(MoveTailBlock(q, q.free[0]))
  {
    var q' := MoveTailBlock(q, q.free[0]);
    MoveTailLists(q);
    forall id: nat | id < |q.blocks|
      ensures id in q'.arc || id in q'.free || q.loose == Some(id)
      ensures q.loose == Some(id) ==> id !in q'.arc && id !in q'.free
    {
      MoveTailCovers(q, id);
    }
  }

  lemma MoveTailLinked<T>(q: Ring<T>)
    requires Shape(q) && Linked(q) && q.free != [] && Shape(MoveTailBlock(q, q.free[0]))
    ensures Linked(MoveTailBlock(q, q.free[0]))
  {
    var q' := MoveTailBlock(q, q.free[0]);
    assert forall i :: 0 <= i < |q'.free| ==> q'.free[i] == q.free[i + 1];
    assert forall i :: 0 <= i < |q.arc| ==> q'.arc[i] == q.arc[i];
  }

  lemma MoveTailOccupied<T>(q: Ring<T>)
    requires Shape(q) && Occupied(q) && q.free != [] && TailFull(q) && q.blocks[q.free[0]].items != []
    requires Shape(MoveTailBlock(q, q.free[0]))
    ensures Occupied(MoveTailBlock(q, q.free[0]))
  {
    var q' := MoveTailBlock(q, q.free[0]);
    assert forall i :: 0 <= i < |q'.free| ==> q'.free[i] == q.free[i + 1];
    assert forall i :: 0 <= i < |q.arc| ==> q'.arc[i] == q.arc[i];
  }

  /** Moving the tail block publishes the element that is ready there. */
  lemma WriteMoveTailBlock<T>(q: Ring<T>, next: nat, v: T)
    requires RingOk(q) && TailFull(q) && q.free != [] && next == q.free[0] && next < |q.blocks|
    requires q.blocks[next].items == [v]
    ensures var q' := MoveTailBlock(q, next);
      RingOk(q') && ProducerKeeps(q, q') && Contents(q') == Contents(q) + [v]
  {
    hide BlockOk, Shape, Linked, Occupied;
    MoveTailShape(q);
    MoveTailLinked(q);
    MoveTailOccupied(q);
    FlattenSnoc(q.blocks, q.arc, next);
  }

  // ---- Consumer writes -----------------------------------------------------------

  lemma WriteRefreshTail<T>(q: Ring<T>, id: nat)
    requires RingOk(q) && id < |q.blocks|
    ensures var q' := Put(q, id, RefreshTail(q.blocks[id]));
      RingOk(q') && ConsumerKeeps(q, q') && Contents(q') == Contents(q)
  {
    hide BlockOk, Shape, Linked, Occupied, ProducerKeeps, ConsumerKeeps;
    Ends(q);
    var b := q.blocks[id];
    var q' := Put(q, id, RefreshTail(b));
    Facts(q, id);
    ReadTail(b);
    PutOk(q, id, RefreshTail(b), q.building, q.dying, q.ready);
    ConsumerPut(q, q', id, RefreshTail(b));
    FlattenSame(q.blocks, q'.blocks, q.arc);
  }

  lemma MoveFrontShape<T>(q: Ring<T>)
    requires Shape(q) && |q.arc| >= 2
    ensures Shape(MoveFrontBlock(q, q.arc[1]))
  {
    var q' := MoveFrontBlock(q, q.arc[1]);
    assert forall i :: 0 <= i < |q'.arc| ==> q'.arc[i] == q.arc[i + 1];
    assert forall i :: 1 <= i < |q.arc| ==> q.arc[i] == q'.arc[i - 1];
    assert forall i :: 0 <= i < |q.free| ==> q'.free[i] == q.free[i];
    assert q'.free[|q.free|] == q.arc[0];
  }

  lemma MoveFrontLinked<T>(q: Ring<T>)
    requires Shape(q) && Linked(q) && |q.arc| >= 2 && Shape(MoveFrontBlock(q, q.arc[1]))
    ensures Linked(MoveFrontBlock(q, q.arc[1]))
  {
    var q' := MoveFrontBlock(q, q.arc[1]);
    assert forall i :: 0 <= i < |q'.arc| ==> q'.arc[i] == q.arc[i + 1];
    assert forall i :: 0 <= i < |q.free| ==> q'.free[i] == q.free[i];
    assert q'.free[|q.free|] == q.arc[0];
  }

  lemma MoveFrontOccupied<T>(q: Ring<T>)
    requires Shape(q) && Occupied(q) && FrontDone(q) && Shape(MoveFrontBlock(q, q.arc[1]))
    ensures Occupied(MoveFrontBlock(q, q.arc[1]))
  {
    var q' := MoveFrontBlock(q, q.arc[1]);
    assert forall i :: 0 <= i < |q'.arc| ==> q'.arc[i] == q.arc[i + 1];
    assert forall i :: 0 <= i < |q.free| ==> q'.free[i] == q.free[i];
    assert q'.free[|q.free|] == q.arc[0];
  }

  lemma MoveFrontKeeps<T>(q: Ring<T>)
    requires Shape(q) && FrontDone(q) && Shape(MoveFrontBlock(q, q.arc[1]))
    ensures ConsumerKeeps(q, MoveFrontBlock(q, q.arc[1]))
    ensures Contents(MoveFrontBlock(q, q.arc[1])) == Contents(q)
  {
    assert ItemsOf(q.blocks, q.arc[0]) == [];
  }

  /** Leaving the used-up front block loses nothing. */
  lemma WriteMoveFrontBlock<T>(q: Ring<T>)
    requires RingOk(q) && FrontDone(q)
    ensures var q' := MoveFrontBlock(q, q.arc[1]);
      RingOk(q') && ConsumerKeeps(q, q') && Contents(q') == Contents(q)
  {
    hide BlockOk, Shape, Linked, Occupied, ConsumerKeeps;
    MoveFrontShape(q);
    MoveFrontLinked(q);
    MoveFrontOccupied(q);
    MoveFrontKeeps(q);
  }

  lemma WriteDestroy<T>(q: Ring<T>)
    requires RingOk(q) && q.dying.None? && q.blocks[q.frontBlock].items != []
    ensures var b := q.blocks[q.frontBlock];
      && b.front < |b.cells| && b.cells[b.front] == Live(b.items[0])
      && var q' := DestroyCell(q, q.frontBlock, b.front);
         RingOk(q') && ConsumerKeeps(q, q') && Contents(q') == Contents(q)
  {
    hide BlockOk, Shape, Linked, Occupied, ProducerKeeps, ConsumerKeeps;
    Ends(q);
    var id := q.frontBlock;
    Facts(q, id);
    var b := q.blocks[id];
    DestroyBlock(b);
    var b' := b.(cells := b.cells[b.front := Raw], headGone := true);
    var q' := DestroyCell(q, id, b.front);
    PutOk(q, id, b', q.building, Some(id), q.ready);
    ConsumerPut(q, q', id, b');
    FlattenSame(q.blocks, q'.blocks, q.arc);
  }

  /** Advancing the front index removes the oldest element. */
  lemma WriteRemove<T>(q: Ring<T>, front: nat)
    requires RingOk(q)
    requires var b := q.blocks[q.frontBlock];
      b.known >= 1 && b.headGone && front == Wrap(b.front + 1, b.mask + 1)
    ensures var b := q.blocks[q.frontBlock];
      && b.items != []
      && var q' := Remove(q, q.frontBlock, front);
         RingOk(q') && ConsumerKeeps(q, q') && Contents(q) == [b.items[0]] + Contents(q')
  {
    hide BlockOk, Shape, Linked, Occupied, ProducerKeeps, ConsumerKeeps;
    Ends(q);
    var id := q.frontBlock;
    Facts(q, id);
    var b := q.blocks[id];
    var b' := AdvanceFront(b, front);
    var q' := Remove(q, id, front);
    RemoveBlock(b, front);
    PutOk(q, id, b', q.building, None, q.ready);
    ConsumerPut(q, q', id, b');
    FlattenHead(q, q', b');
  }
}
