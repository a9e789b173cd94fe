/** What the stream queue means: a bounded queue of blocks, the oldest of which may be handed out in fragments. */
module StreamSpec {

  datatype Reply<S> =
    | Silent                                     // nothing is returned
    | Overflow
    | Timeout
    | Samples(data: seq<S>, moreFragments: bool)

  /** `arriving` are the callbacks during the wait, if the read waits. */
  datatype Event<S> = Arrive(data: seq<S>) | Activate | Read(numElems: nat, arriving: seq<seq<S>>)

  /** The blocks waiting, oldest first, and what is left of the block being read. */
  datatype Queue<S> = Queue(capacity: nat, blocks: seq<seq<S>>, fragment: seq<S>, overflow: bool, reset: bool) {

    /** Buffers taken up: those waiting and the one being read. */
    function Count(): nat {
      |blocks| + if fragment == [] then 0 else 1
    }

    /** Callback: a block with nowhere to go is dropped and the overflow noted. */
    function Arrived(data: seq<S>): Queue<S> {
      if Count() == capacity then this.(overflow := true) else this.(blocks := blocks + [data])
    }

    function AllArrived(datas: seq<seq<S>>): Queue<S> {
      if datas == [] then this
      else AllArrived(datas[..|datas| - 1]).Arrived(datas[|datas| - 1])
    }

    /** A read that has to take a block finds this after a reset. */
    function Cleaned(): Queue<S> {
      if reset then this.(blocks := [], overflow := false, reset := false) else this
    }

    predicate Waits() {
      fragment == [] && !Cleaned().overflow && Cleaned().blocks == []
    }

    /** As much as was asked for of what is left of the block. */
    function Delivered(numElems: nat): (Queue<S>, Reply<S>) {
      var n := if |fragment| < numElems then |fragment| else numElems;
      (this.(fragment := fragment[n..]), Samples(fragment[..n], n < |fragment|))
    }

    /** The next block, if need be after a wait. */
    function Taken(arriving: seq<seq<S>>): Queue<S> {
      var q := if blocks == [] then AllArrived(arriving) else this;
      if q.blocks == [] then q else q.(blocks := q.blocks[1..], fragment := q.blocks[0])
    }

    /** readStream. */
    function DoneRead(numElems: nat, arriving: seq<seq<S>>): (Queue<S>, Reply<S>) {
      if fragment != [] then Delivered(numElems)
      else
        var q := Cleaned();
        if q.overflow then (q.(blocks := [], overflow := false), Overflow)
        else if q.blocks == [] && q.AllArrived(arriving).blocks == [] then (q.AllArrived(arriving), Timeout)
        else q.Taken(arriving).Delivered(numElems)
    }

    function After(e: Event<S>): (Queue<S>, Reply<S>) {
      match e
      case Arrive(data) => (Arrived(data), Silent)
      case Activate => (this.(reset := true), Silent)
      case Read(n, arriving) => DoneRead(n, arriving)
    }

    /** Activation comes between blocks, and callbacks arrive during a wait only if there is one. */
    predicate Possible(e: Event<S>) {
      match e
      case Arrive(_) => true
      case Activate => fragment == []
      case Read(_, arriving) => arriving == [] || Waits()
    }
  }

  function Fresh<S>(capacity: nat): Queue<S> {
    Queue(capacity, [], [], false, false)
  }

  function QueueAfter<S>(q: Queue<S>, events: seq<Event<S>>): Queue<S> {
    if events == [] then q
    else QueueAfter(q, events[..|events| - 1]).After(events[|events| - 1]).0
  }

  /** The reply to each event. */
  function Replies<S>(q: Queue<S>, events: seq<Event<S>>): (replies: seq<Reply<S>>)
    ensures |replies| == |events|
  {
    if events == [] then []
    else
      var n := |events| - 1;
      Replies(q, events[..n]) + [QueueAfter(q, events[..n]).After(events[n]).1]
  }

  predicate AllPossible<S>(q: Queue<S>, events: seq<Event<S>>) {
    events == [] ||
    (AllPossible(q, events[..|events| - 1]) && QueueAfter(q, events[..|events| - 1]).Possible(events[|events| - 1]))
  }

  // ---- what a caller sees of it ----

  /** An activation since the last read. */
  predicate Pending<S>(events: seq<Event<S>>) {
    events != [] &&
    match events[|events| - 1]
    case Activate => true
    case Arrive(_) => Pending(events[..|events| - 1])
    case Read(_, _) => false
  }

  /** The samples read since the last discard, that is since the last overflow reported or the first read after an
      activation. */
  function Got<S>(events: seq<Event<S>>, replies: seq<Reply<S>>): seq<S>
    requires |replies| == |events|
  {
    if events == [] then []
    else
      var n := |events| - 1;
      var before := Got(events[..n], replies[..n]);
      var kept := if events[n].Read? && Pending(events[..n]) then [] else before;
      match replies[n]
      case Overflow => []
      case Samples(data, _) => kept + data
      case _ => kept
  }

  /** The samples offered by the callback since the last discard, those it had to drop included. */
  function Offered<S>(events: seq<Event<S>>, replies: seq<Reply<S>>): seq<S>
    requires |replies| == |events|
  {
    if events == [] then []
    else
      var n := |events| - 1;
      var before := Offered(events[..n], replies[..n]);
      match events[n]
      case Arrive(data) => before + data
      case Activate => before
      case Read(_, arriving) =>
        if replies[n] == Overflow then []
        else (if Pending(events[..n]) then [] else before) + Flat(arriving)
  }

  function Flat<S>(blocks: seq<seq<S>>): seq<S> {
    if blocks == [] then [] else blocks[0] + Flat(blocks[1..])
  }

  // ---- no gap, no duplicate, no reordering ----

  /** What has been read, then what is left of the block being read, is the beginning of what was offered; and unless a
      block was dropped the blocks waiting are all the rest. */
  ghost predicate Conserved<S>(q: Queue<S>, got: seq<S>, offered: seq<S>) {
    && got + q.fragment <= offered
    && (!q.overflow ==> offered == got + q.fragment + Flat(q.blocks))
  }

  lemma {:induction false} FlatAppend<S>(a: seq<seq<S>>, b: seq<seq<S>>)
    ensures Flat(a + b) == Flat(a) + Flat(b)
  {
    if a == [] {
      assert a + b == b;
    } else {
      FlatAppend(a[1..], b);
      assert (a + b)[1..] == a[1..] + b;
      Associates(a[0], Flat(a[1..]), Flat(b));
    }
  }

  lemma Associates<S>(a: seq<S>, b: seq<S>, c: seq<S>)
    ensures a + b + c == a + (b + c)
  {
  }

  lemma FlatOne<S>(data: seq<S>)
    ensures Flat([data]) == data
  {
    assert Flat([data]) == data + Flat([data][1..]);
  }

  lemma ConservedByArrival<S>(q: Queue<S>, data: seq<S>, got: seq<S>, offered: seq<S>)
    requires Conserved(q, got, offered)
    ensures Conserved(q.Arrived(data), got, offered + data)
  {
    FlatAppend(q.blocks, [data]);
    FlatOne(data);
  }

  lemma {:induction false} ConservedByArrivals<S>(q: Queue<S>, datas: seq<seq<S>>, got: seq<S>, offered: seq<S>)
    requires Conserved(q, got, offered)
    ensures Conserved(q.AllArrived(datas), got, offered + Flat(datas))
    decreases |datas|
  {
    if datas == [] {
      assert offered + Flat(datas) == offered;
    } else {
      var n := |datas| - 1;
      ConservedByArrivals(q, datas[..n], got, offered);
      ConservedByArrival(q.AllArrived(datas[..n]), datas[n], got, offered + Flat(datas[..n]));
      FlatAppend(datas[..n], [datas[n]]);
      FlatOne(datas[n]);
      assert datas == datas[..n] + [datas[n]];
      assert offered + Flat(datas[..n]) + datas[n] == offered + Flat(datas);
    }
  }

  /** What arrives during a wait is queued from the first block on, up to a first one dropped. */
  lemma {:induction false} ArrivalsQueue<S>(q: Queue<S>, datas: seq<seq<S>>)
    requires q.fragment == [] && q.blocks == [] && !q.overflow
    ensures q.AllArrived(datas) == Queue(q.capacity, q.AllArrived(datas).blocks, [], q.AllArrived(datas).overflow, q.reset)
    ensures q.AllArrived(datas).blocks <= datas
    ensures q.AllArrived(datas).overflow ==> |q.AllArrived(datas).blocks| == q.capacity
    ensures !q.AllArrived(datas).overflow ==> q.AllArrived(datas).blocks == datas
    decreases |datas|
  {
    if datas != [] {
      ArrivalsQueue(q, datas[..|datas| - 1]);
    }
  }

  lemma ConservedByDelivery<S>(q: Queue<S>, numElems: nat, got: seq<S>, offered: seq<S>)
    requires Conserved(q, got, offered)
    ensures Conserved(q.Delivered(numElems).0, got + q.Delivered(numElems).1.data, offered)
  {
    var n := if |q.fragment| < numElems then |q.fragment| else numElems;
    assert got + q.fragment[..n] + q.fragment[n..] == got + q.fragment;
  }

  /** What a read hands out comes from the block being read, else from the oldest one waiting, else from the first that
      arrives while it waits: as much of it as was asked for, and the rest stays for later. */
  ghost predicate HandsOut<S>(q: Queue<S>, arriving: seq<seq<S>>, q': Queue<S>, data: seq<S>) {
    && q'.capacity == q.capacity
    && (q.fragment != [] ==> data + q'.fragment == q.fragment && q'.blocks == q.blocks)
    && (q.fragment == [] && !q.reset && q.blocks != [] ==> data + q'.fragment == q.blocks[0] && q'.blocks == q.blocks[1..])
    && (q.fragment == [] && (q.reset || q.blocks == []) ==>
          && arriving != [] && data + q'.fragment == arriving[0] && q'.blocks <= arriving[1..]
          && (!q'.overflow ==> q'.blocks == arriving[1..]))
  }

  /** As much as was asked for, of what there is. */
  lemma DeliveredMeans<S>(q: Queue<S>, numElems: nat)
    ensures var (q', r) := q.Delivered(numElems);
            && r.Samples? && r.data + q'.fragment == q.fragment && q' == q.(fragment := q'.fragment)
            && |r.data| == (if numElems < |q.fragment| then numElems else |q.fragment|)
            && (r.moreFragments <==> q'.fragment != [])
  {
  }

  /** When a read reports an overflow, when it times out, and what it returns otherwise. */
  lemma ReadMeans<S>(q: Queue<S>, numElems: nat, arriving: seq<seq<S>>)
    requires q.capacity > 0 && q.Possible(Read(numElems, arriving))
    ensures var (q', r) := q.DoneRead(numElems, arriving);
            && (r == Overflow <==> q.fragment == [] && q.overflow && !q.reset)
            && (r == Timeout <==> q.fragment == [] && arriving == [] && (q.reset || (!q.overflow && q.blocks == [])))
            && (r != Overflow && r != Timeout ==>
                  && r.Samples? && HandsOut(q, arriving, q', r.data)
                  && |r.data| <= numElems && (|r.data| == numElems || q'.fragment == [])
                  && (r.moreFragments <==> q'.fragment != []))
            && (r == Overflow || r == Timeout ==> q'.blocks == [] && !q'.overflow && q'.fragment == [])
            && (q.fragment == [] ==> !q'.reset)
  {
    if q.fragment != [] {
      DeliveredMeans(q, numElems);
    } else if !q.Cleaned().overflow {
      TakenMeans(q.Cleaned(), arriving);
      DeliveredMeans(q.Cleaned().Taken(arriving), numElems);
    }
  }

  /** The block taken is the oldest waiting, else the first to arrive. */
  lemma TakenMeans<S>(q: Queue<S>, arriving: seq<seq<S>>)
    requires q.capacity > 0 && q.fragment == [] && !q.overflow && (q.blocks != [] ==> arriving == [])
    ensures q.blocks != [] ==> q.Taken(arriving) == q.(blocks := q.blocks[1..], fragment := q.blocks[0])
    ensures q.blocks == [] ==>
              (q.AllArrived(arriving).blocks == [] <==> arriving == []) && (arriving == [] ==> q.AllArrived(arriving) == q)
    ensures q.blocks == [] && arriving != [] ==>
              && q.Taken(arriving).fragment == arriving[0] && q.Taken(arriving).blocks <= arriving[1..]
              && q.Taken(arriving).capacity == q.capacity && q.Taken(arriving).reset == q.reset
              && (!q.Taken(arriving).overflow ==> q.Taken(arriving).blocks == arriving[1..])
  {
    if q.blocks == [] { ArrivalsQueue(q, arriving); }
  }

  /** Taking the oldest block. */
  lemma ConservedByTaking<S>(q: Queue<S>, arriving: seq<seq<S>>, got: seq<S>, offered: seq<S>)
    requires Conserved(q, got, offered) && q.fragment == [] && !q.overflow && (q.blocks != [] ==> arriving == [])
    ensures Conserved(q.Taken(arriving), got, offered + Flat(arriving))
  {
    if q.blocks == [] {
      var w := q.AllArrived(arriving);
      ConservedByArrivals(q, arriving, got, offered);
      ArrivalsQueue(q, arriving);
      PrefixFlat(w.blocks, arriving);
      assert offered == got;
      if w.blocks != [] { FirstTaken(w, got, offered + Flat(arriving)); }
    } else {
      assert offered + Flat(arriving) == offered;
      assert got + [] + Flat(q.blocks) == got + Flat(q.blocks);
      FirstTaken(q, got, offered);
    }
  }

  lemma FirstTaken<S>(q: Queue<S>, got: seq<S>, offered: seq<S>)
    requires q.fragment == [] && q.blocks != [] && got + Flat(q.blocks) <= offered
    requires !q.overflow ==> offered == got + Flat(q.blocks)
    ensures Conserved(q.(blocks := q.blocks[1..], fragment := q.blocks[0]), got, offered)
  {
    Associates(got, q.blocks[0], Flat(q.blocks[1..]));
  }

  lemma PrefixFlat<S>(a: seq<seq<S>>, b: seq<seq<S>>)
    requires a <= b
    ensures Flat(a) <= Flat(b)
  {
    assert b == a + b[|a|..];
    FlatAppend(a, b[|a|..]);
  }

  /** From an empty queue, over any events in any order: what the caller has read since the last discard, and then what is
      left of its block, is the beginning of what the callback has offered since; and if nothing was dropped the blocks
      waiting are exactly the rest. */
  lemma {:induction false} NothingLostOrReordered<S>(capacity: nat, events: seq<Event<S>>)
    requires AllPossible(Fresh(capacity), events)
    ensures var q, replies := QueueAfter(Fresh(capacity), events), Replies(Fresh(capacity), events);
            && Conserved(q, Got(events, replies), Offered(events, replies))
            && (q.reset <==> Pending(events)) && (q.reset ==> q.fragment == [])
    decreases |events|
  {
    if events != [] {
      var n := |events| - 1;
      var start: Queue<S> := Fresh(capacity);
      NothingLostOrReordered(capacity, events[..n]);
      var q, replies := QueueAfter(start, events[..n]), Replies(start, events);
      assert replies[..n] == Replies(start, events[..n]);
      var got, offered := Got(events[..n], replies[..n]), Offered(events[..n], replies[..n]);
      match events[n]
      case Arrive(data) => ConservedByArrival(q, data, got, offered);
      case Activate =>
      case Read(numElems, arriving) => ConservedByRead(q, numElems, arriving, got, offered);
    }
  }

  /** What a read leaves of the record: nothing after an overflow, and a fresh start after a reset. */
  lemma ConservedByRead<S>(q: Queue<S>, numElems: nat, arriving: seq<seq<S>>, got: seq<S>, offered: seq<S>)
    requires Conserved(q, got, offered) && q.Possible(Read(numElems, arriving)) && (q.reset ==> q.fragment == [])
    ensures var (q', reply) := q.DoneRead(numElems, arriving);
            var got' := if q.reset then [] else got;
            var offered' := (if q.reset then [] else offered) + Flat(arriving);
            && !q'.reset && reply != Silent
            && match reply
               case Overflow => Conserved(q', [], [])
               case Samples(data, _) => Conserved(q', got' + data, offered')
               case _ => Conserved(q', got', offered')
  {
    if q.fragment != [] {
      ConservedByDelivery(q, numElems, got, offered);
      assert offered + Flat(arriving) == offered;
    } else {
      var c := q.Cleaned();
      var got', offered' := if q.reset then [] else got, if q.reset then [] else offered;
      if !c.overflow {
        if c.blocks == [] { ArrivalsQueue(c, arriving); }
        ConservedByTaking(c, arriving, got', offered');
        ConservedByDelivery(c.Taken(arriving), numElems, got', offered' + Flat(arriving));
      }
    }
  }

  // ---- without discards: one stream ----

  /** All samples returned, in order. */
  function AllData<S>(replies: seq<Reply<S>>): seq<S> {
    if replies == [] then []
    else Returned(replies[0]) + AllData(replies[1..])
  }

  function Returned<S>(reply: Reply<S>): seq<S> {
    if reply.Samples? then reply.data else []
  }

  /** All samples the callback brought, in order. */
  function AllBrought<S>(events: seq<Event<S>>): seq<S> {
    if events == [] then [] else Brought(events[0]) + AllBrought(events[1..])
  }

  function Brought<S>(event: Event<S>): seq<S> {
    match event
    case Arrive(data) => data
    case Activate => []
    case Read(_, arriving) => Flat(arriving)
  }

  lemma {:induction false} AllDataSnoc<S>(replies: seq<Reply<S>>, r: Reply<S>)
    ensures AllData(replies + [r]) == AllData(replies) + Returned(r)
  {
    if replies == [] {
      assert replies + [r] == [r] && [r][1..] == [];
    } else {
      AllDataSnoc(replies[1..], r);
      assert (replies + [r])[1..] == replies[1..] + [r];
      Associates(Returned(replies[0]), AllData(replies[1..]), Returned(r));
    }
  }

  lemma {:induction false} AllBroughtSnoc<S>(events: seq<Event<S>>, e: Event<S>)
    ensures AllBrought(events + [e]) == AllBrought(events) + Brought(e)
  {
    if events == [] {
      assert events + [e] == [e] && [e][1..] == [];
    } else {
      AllBroughtSnoc(events[1..], e);
      assert (events + [e])[1..] == events[1..] + [e];
      Associates(Brought(events[0]), AllBrought(events[1..]), Brought(e));
    }
  }

  /** No activation and no overflow reported. */
  ghost predicate Undisturbed<S>(events: seq<Event<S>>, replies: seq<Reply<S>>)
    requires |events| == |replies|
  {
    forall i | 0 <= i < |events| :: Quiet(events[i], replies[i])
  }

  predicate Quiet<S>(event: Event<S>, reply: Reply<S>) {
    !event.Activate? && !reply.Overflow?
  }

  /** Then the record is everything read and everything brought. */
  lemma {:induction false} RecordIsAll<S>(events: seq<Event<S>>, replies: seq<Reply<S>>)
    requires |events| == |replies| && Undisturbed(events, replies)
    ensures Got(events, replies) == AllData(replies) && Offered(events, replies) == AllBrought(events)
    ensures !Pending(events)
    decreases |events|
  {
    if events != [] {
      var n := |events| - 1;
      var es, rs := events[..n], replies[..n];
      UndisturbedSoFar(events, replies, n);
      RecordIsAll(es, rs);
      OneMoreRecord(es, rs, events[n], replies[n]);
      assert events == es + [events[n]];
      assert replies == rs + [replies[n]];
    }
  }

  lemma UndisturbedSoFar<S>(events: seq<Event<S>>, replies: seq<Reply<S>>, n: nat)
    requires |events| == |replies| == n + 1 && Undisturbed(events, replies)
    ensures Undisturbed(events[..n], replies[..n]) && Quiet(events[n], replies[n])
  {
    forall i | 0 <= i < n ensures Quiet(events[..n][i], replies[..n][i]) {
      assert Quiet(events[i], replies[i]);
    }
  }

  lemma OneMoreRecord<S>(events: seq<Event<S>>, replies: seq<Reply<S>>, e: Event<S>, r: Reply<S>)
    requires |events| == |replies| && Quiet(e, r) && !Pending(events)
    requires Got(events, replies) == AllData(replies) && Offered(events, replies) == AllBrought(events)
    ensures Got(events + [e], replies + [r]) == AllData(replies + [r])
    ensures Offered(events + [e], replies + [r]) == AllBrought(events + [e]) && !Pending(events + [e])
  {
    AllDataSnoc(replies, r);
    AllBroughtSnoc(events, e);
    assert (events + [e])[..|events|] == events && (replies + [r])[..|events|] == replies;
  }

  /** From an empty queue, without activation and overflow, what all the reads have returned is the beginning of what the
      callback has brought; and the rest of it, unless a block was just dropped, is still there. */
  lemma ReadsAreTheStream<S>(capacity: nat, events: seq<Event<S>>)
    requires AllPossible(Fresh(capacity), events) && Undisturbed(events, Replies(Fresh(capacity), events))
    ensures var q, got, brought := QueueAfter(Fresh(capacity), events), AllData(Replies(Fresh(capacity), events)),
                                   AllBrought(events);
            got + q.fragment <= brought && (!q.overflow ==> brought == got + q.fragment + Flat(q.blocks))
  {
    NothingLostOrReordered(capacity, events);
    RecordIsAll(events, Replies(Fresh(capacity), events));
  }
}
