/** The queue between the IQ callback and readStream, as the driver keeps it: a ring of buffers whose read index moves when
    a buffer is taken and whose count when it is given back. Each method is one atomic step. */
module StreamQueue {
  import opened Modular
  import opened StreamIndices
  import opened StreamSpec

  /** Slot by slot from `first`, the ring holds these blocks. */
  ghost predicate Holds<S>(slots: seq<seq<S>>, first: nat, blocks: seq<seq<S>>) {
    first < |slots| && |blocks| <= |slots| && forall k | 0 <= k < |blocks| :: HoldsAt(slots, first, blocks, k)
  }

  ghost predicate HoldsAt<S>(slots: seq<seq<S>>, first: nat, blocks: seq<seq<S>>, k: nat)
    requires first < |slots| && k < |blocks| <= |slots|
  {
    slots[Wrap(first + k, |slots|)] == blocks[k]
  }

  /** A block stored behind the last one. */
  lemma HoldsOneMore<S>(slots: seq<seq<S>>, first: nat, blocks: seq<seq<S>>, data: seq<S>)
    requires Holds(slots, first, blocks) && |blocks| < |slots|
    ensures Holds(slots[Wrap(first + |blocks|, |slots|) := data], first, blocks + [data])
  {
    var slots', blocks' := slots[Wrap(first + |blocks|, |slots|) := data], blocks + [data];
    forall k | 0 <= k < |blocks'| ensures HoldsAt(slots', first, blocks', k) {
      assert k < |blocks| ==> HoldsAt(slots, first, blocks, k);
    }
  }

  lemma HoldsOneLess<S>(slots: seq<seq<S>>, first: nat, blocks: seq<seq<S>>)
    requires Holds(slots, first, blocks) && blocks != []
    ensures slots[first] == blocks[0] && Holds(slots, Wrap(first + 1, |slots|), blocks[1..])
  {
    assert HoldsAt(slots, first, blocks, 0);
    var next, rest := Wrap(first + 1, |slots|), blocks[1..];
    forall k | 0 <= k < |rest| ensures HoldsAt(slots, next, rest, k) {
      assert HoldsAt(slots, first, blocks, k + 1);
    }
  }

  class StreamQueue<S> {
    var slots: seq<seq<S>>  // samples_buffer
    var blockWrite: nat
    var blockRead: nat
    var bufCount: nat
    var overflowEvent: bool
    var resetBuffer: bool
    var bufferedElems: nat
    var currentSlot: nat    // _currentBuff points into this slot ...
    var currentOffset: nat  // ... at this sample
    ghost var held: bool    // a buffer is taken and not yet given back
    ghost var queue: Queue<S>

    ghost function Ix(): Indices
      reads this
    {
      Indices(|slots|, blockRead, blockWrite, bufCount, held)
    }

    /** The indices agree, the ring holds the blocks waiting, and the fragment lies in its own slot. */
    ghost predicate Valid()
      reads this
    {
      && Ix().Bounded() && Ix().Gap() == 0
      && bufCount == |queue.blocks| + (if held then 1 else 0)
      && Holds(slots, blockRead, queue.blocks)
      && queue.capacity == |slots| && queue.overflow == overflowEvent && queue.reset == resetBuffer
      && FragmentInPlace()
    }

    ghost predicate FragmentInPlace()
      reads this
    {
      if held then
        && currentSlot < |slots| && blockRead == Wrap(currentSlot + 1, |slots|)
        && currentOffset <= |slots[currentSlot]| && queue.fragment == slots[currentSlot][currentOffset..]
      else queue.fragment == []
    }

    /** Between calls a buffer is held exactly while some of it is still to be returned. */
    ghost predicate Steady()
      reads this
    {
      Valid() && (held <==> queue.fragment != []) && bufferedElems == |queue.fragment|
    }

    /** setupStream on a new stream. */
    constructor (numBuffers: nat)
      requires numBuffers > 0
      ensures Steady() && queue == Fresh(numBuffers)
    {
      slots := seq(numBuffers, _ => []);
      blockWrite, blockRead, bufCount := 0, 0, 0;
      overflowEvent, resetBuffer, bufferedElems := false, false, 0;
      currentSlot, currentOffset := 0, 0;
      held, queue := false, Fresh(numBuffers);
    }

    /** activateStream. In the middle of a block it abandons the buffer. */
    method ActivateStream()
      requires Steady()
      modifies this`resetBuffer, this`bufferedElems, this`held, this`queue
      ensures resetBuffer && bufferedElems == 0 && !held
      ensures queue == old(queue).(reset := true, fragment := [])
      ensures Ix() == if old(held) then old(Ix()).After(Abandon) else old(Ix())
      ensures Steady() <==> !old(held)
    {
      resetBuffer := true;
      bufferedElems := 0;
      held := false;
      queue := queue.(reset := true, fragment := []);
    }

    /** Callback: queues a block, or drops it and records an overflow when every buffer is taken up. */
    method Callback(data: seq<S>)
      requires Steady()
      modifies this`blockWrite, this`bufCount, this`overflowEvent, this`slots, this`queue
      ensures Steady() && queue == old(queue).Arrived(data)
      ensures queue == if old(bufCount) == |slots| then old(queue).(overflow := true)
                       else old(queue).(blocks := old(queue).blocks + [data])
      ensures Ix() == if old(bufCount) == |slots| then old(Ix()) else old(Ix()).After(Put)
    {
      if bufCount == |slots| {
        overflowEvent := true;
        queue := queue.Arrived(data);
      } else {
        Accept(data);
      }
    }

    method Accept(data: seq<S>)
      requires Steady() && bufCount < |slots|
      modifies this`blockWrite, this`bufCount, this`slots, this`queue
      ensures Steady() && queue == old(queue).Arrived(data) && Ix() == old(Ix()).After(Put)
    {
      Store(data);
      queue := queue.Arrived(data);
    }

    /** The block goes into the slot behind the last one queued, which is never the slot being read. */
    method Store(data: seq<S>)
      requires Ix().Bounded() && Ix().Gap() == 0 && bufCount < |slots| && FragmentInPlace()
      requires Holds(slots, blockRead, queue.blocks) && bufCount == |queue.blocks| + (if held then 1 else 0)
      modifies this`blockWrite, this`bufCount, this`slots
      ensures slots == old(slots)[old(blockWrite) := data] && Ix() == old(Ix()).After(Put) && Ix().Gap() == 0
      ensures old(blockWrite) == Wrap(blockRead + (old(bufCount) - if held then 1 else 0), |slots|)
      ensures FragmentInPlace() && (held ==> currentSlot != old(blockWrite))
      ensures Holds(slots, blockRead, queue.blocks + [data])
    {
      Ix().WriteIsBehind();
      HoldsOneMore(slots, blockRead, queue.blocks, data);
      Ix().GapAfter(Put);
      slots := slots[blockWrite := data];
      blockWrite := AddIndex(blockWrite, 1, |slots|);
      bufCount := bufCount + 1;
    }

    /** Everything queued is thrown away. The indices end up together unless a buffer was abandoned. */
    method Discard()
      requires Ix().Bounded() && !held && queue.fragment == []
      requires queue.capacity == |slots| && queue.reset == resetBuffer
      modifies this`blockRead, this`bufCount, this`overflowEvent, this`queue
      ensures Ix() == old(Ix()).After(StreamIndices.Discard)
      ensures queue == old(queue).(blocks := [], overflow := false)
      ensures Valid() <==> old(Ix()).Gap() == 0
    {
      Ix().GapAfter(StreamIndices.Discard);
      blockRead := AddIndex(blockRead, bufCount, |slots|);
      bufCount := 0;
      overflowEvent := false;
      queue := queue.(blocks := [], overflow := false);
    }

    /** activateStream and the reset that follows leave the queue consistent exactly when no buffer was held, or there is
        only one. */
    method Reactivate()
      requires Steady()
      modifies this
      ensures Steady() <==> !old(held) || |slots| == 1
    {
      if held { Ix().GapAfter(Abandon); }
      ActivateStream();
      Discard();
    }

    /** The callbacks that arrive during a wait. */
    method Arrivals(blocks: seq<seq<S>>)
      requires Steady()
      modifies this`blockWrite, this`bufCount, this`overflowEvent, this`slots, this`queue
      ensures Steady() && queue == old(queue).AllArrived(blocks)
    {
      for i := 0 to |blocks|
        invariant Steady() && queue == old(queue).AllArrived(blocks[..i])
      {
        Callback(blocks[i]);
        assert blocks[..i + 1][..i] == blocks[..i];
      }
      assert blocks[..|blocks|] == blocks;
    }

    /** acquireReadBuffer: after a reset or an overflow everything queued is discarded; otherwise the oldest block is
        taken, if need be after waiting. The read index moves on at once, the count does not. */
    method AcquireReadBuffer(arriving: seq<seq<S>>) returns (r: Acquired)
      requires Steady() && !held
      modifies this
      ensures Valid() && bufferedElems == 0
      ensures r.NoneOverflow? <==> old(queue).Cleaned().overflow
      ensures r.NoneTimeout? <==> old(queue).Waits() && old(queue).Cleaned().AllArrived(arriving).blocks == []
      ensures r.NoneOverflow? ==> !held && queue == old(queue).Cleaned().(blocks := [], overflow := false)
      ensures r.NoneTimeout? ==> !held && queue == old(queue).Cleaned().AllArrived(arriving)
      ensures r.Taken? ==> held && queue == old(queue).Cleaned().Taken(arriving) && r.count == |queue.fragment|
    {
      if resetBuffer {
        Reset();
      }
      if overflowEvent {
        Discard();
        return NoneOverflow;
      }
      if bufCount == 0 {
        Arrivals(arriving);
        if bufCount == 0 { return NoneTimeout; }
      }
      Take();
      return Taken(|slots[currentSlot]|);
    }

    method Reset()
      requires Steady() && !held && resetBuffer
      modifies this`blockRead, this`bufCount, this`overflowEvent, this`resetBuffer, this`queue
      ensures Steady() && !held && queue == old(queue).Cleaned()
    {
      Discard();
      resetBuffer := false;
      queue := queue.(reset := false);
    }

    method Take()
      requires Valid() && !held && queue.blocks != []
      modifies this`blockRead, this`currentSlot, this`currentOffset, this`held, this`queue
      ensures Valid() && held && queue.fragment == slots[currentSlot] && Ix() == old(Ix()).After(StreamIndices.Take)
      ensures queue == old(queue).(blocks := old(queue).blocks[1..], fragment := old(queue).blocks[0])
    {
      HoldsOneLess(slots, blockRead, queue.blocks);
      Ix().GapAfter(StreamIndices.Take);
      currentSlot, currentOffset := blockRead, 0;
      blockRead := AddIndex(blockRead, 1, |slots|);
      held, queue := true, queue.(blocks := queue.blocks[1..], fragment := queue.blocks[0]);
      assert slots[currentSlot][0..] == slots[currentSlot];
    }

    /** releaseReadBuffer: the slot joins the free ones. */
    method ReleaseReadBuffer()
      requires Valid() && held && queue.fragment == []
      modifies this`bufCount, this`held
      ensures Valid() && !held && Ix() == old(Ix()).After(Release)
    {
      Ix().GapAfter(Release);
      bufCount := bufCount - 1;
      held := false;
    }

    /** readStream does exactly what the queue's meaning says, reply and all. */
    method ReadStream(numElems: nat, arriving: seq<seq<S>>) returns (r: Reply<S>)
      requires Steady()
      modifies this
      ensures Steady() && (queue, r) == old(queue).DoneRead(numElems, arriving)
      ensures old(queue).Possible(Read(numElems, arriving)) ==>
                && (r == Overflow <==> !old(held) && old(overflowEvent) && !old(resetBuffer))
                && (r == Timeout <==>
                      !old(held) && arriving == [] && (old(resetBuffer) || (!old(overflowEvent) && old(bufCount) == 0)))
                && (r != Overflow && r != Timeout ==> r.Samples? && HandsOut(old(queue), arriving, queue, r.data))
      ensures r.Samples? ==> |r.data| <= numElems && (|r.data| == numElems || !held) && (r.moreFragments <==> held)
    {
      if queue.Possible(Read(numElems, arriving)) { ReadMeans(queue, numElems, arriving); }
      if bufferedElems == 0 {
        var a := AcquireReadBuffer(arriving);
        if a.NoneOverflow? { return Overflow; }
        if a.NoneTimeout? { return Timeout; }
        bufferedElems := a.count;
      }
      r := Deliver(numElems);
    }

    /** The rest of readStream: as much of the held block as was asked for, read from its slot, and the block back once it
        is used up. */
    method Deliver(numElems: nat) returns (r: Reply<S>)
      requires Valid() && held && bufferedElems == |queue.fragment|
      modifies this`bufferedElems, this`currentOffset, this`bufCount, this`held, this`queue
      ensures Steady() && (queue, r) == old(queue).Delivered(numElems)
      ensures r.Samples? && old(queue.fragment) == r.data + queue.fragment && (r.moreFragments <==> held)
      ensures |r.data| == if numElems < old(bufferedElems) then numElems else old(bufferedElems)
    {
      var n := if bufferedElems < numElems then bufferedElems else numElems;
      var data := slots[currentSlot][currentOffset..currentOffset + n];
      assert data == queue.fragment[..n];
      bufferedElems := bufferedElems - n;
      currentOffset := currentOffset + n;
      queue := queue.(fragment := queue.fragment[n..]);
      assert queue.fragment == slots[currentSlot][currentOffset..];
      r := Samples(data, bufferedElems != 0);
      if bufferedElems == 0 {
        ReleaseReadBuffer();
      }
    }

    /** Any number of events in any order: every reply is the one the queue's meaning gives, so the samples read since the
        last discard, and what is left of the block being read, are the beginning of those offered since, and without an
        overflow the blocks waiting are the rest. */
    method Session(events: seq<Event<S>>) returns (replies: seq<Reply<S>>)
      requires Steady() && queue == Fresh(|slots|) && AllPossible(queue, events)
      modifies this
      ensures Steady() && queue == QueueAfter(old(queue), events) && replies == Replies(old(queue), events)
      ensures Conserved(queue, Got(events, replies), Offered(events, replies))
    {
      NothingLostOrReordered(|slots|, events);
      replies := HandleAll(events);
    }

    method HandleAll(events: seq<Event<S>>) returns (replies: seq<Reply<S>>)
      requires Steady() && AllPossible(queue, events)
      modifies this
      ensures Steady() && queue == QueueAfter(old(queue), events) && replies == Replies(old(queue), events)
    {
      replies := [];
      for i := 0 to |events|
        invariant Steady() && queue == QueueAfter(old(queue), events[..i]) && replies == Replies(old(queue), events[..i])
      {
        OneMoreEvent(old(queue), events, i);
        var r := Handle(events[i]);
        replies := replies + [r];
      }
      assert events[..|events|] == events;
    }

    method Handle(event: Event<S>) returns (r: Reply<S>)
      requires Steady() && queue.Possible(event)
      modifies this
      ensures Steady() && (queue, r) == old(queue).After(event)
    {
      match event
      case Arrive(data) =>
        Callback(data);
        return Silent;
      case Activate =>
        ActivateStream();
        return Silent;
      case Read(numElems, arriving) =>
        r := ReadStream(numElems, arriving);
    }
  }

  datatype Acquired = NoneOverflow | NoneTimeout | Taken(count: nat)

  lemma OneMoreEvent<S>(q: Queue<S>, events: seq<Event<S>>, i: nat)
    requires AllPossible(q, events) && i < |events|
    ensures QueueAfter(q, events[..i]).Possible(events[i])
    ensures var (q', r) := QueueAfter(q, events[..i]).After(events[i]);
            QueueAfter(q, events[..i + 1]) == q' && Replies(q, events[..i + 1]) == Replies(q, events[..i]) + [r]
  {
    EachPossible(q, events, i);
    assert events[..i + 1][..i] == events[..i];
  }

  lemma {:induction false} EachPossible<S>(q: Queue<S>, events: seq<Event<S>>, i: nat)
    requires AllPossible(q, events) && i < |events|
    ensures QueueAfter(q, events[..i]).Possible(events[i])
    decreases |events|
  {
    var n := |events| - 1;
    if i < n {
      EachPossible(q, events[..n], i);
      assert events[..n][..i] == events[..i];
    }
  }
}
