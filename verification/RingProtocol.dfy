/** Every interleaving of one producer, one consumer and one thread that calls Stop and Start, over the ring.
    Reads and writes of the atomics outside the mutex are single steps, in one total order. */
module RingProtocol {
  import opened Modular
  import opened RingState

  const SPIN_COUNT := 100

  /** Where an endpoint is. The states after Lock and EndLock hold the mutex until the endpoint leaves them. */
  datatype Pc =
    | Idle                 // between calls
    | Spin(i: nat)         // acquire: about to read `stopped` for the i-th time
    | Test(i: nat)         // acquire: about to read `blocks_available`
    | Fetch                // acquire: about to read its own index
    | Lock                 // acquire: waiting for the mutex
    | Check                // acquire: in the mutex, about to evaluate the wait predicate
    | Asleep               // acquire: waiting on its condition variable
    | Woken                // acquire: waiting to get the mutex back
    | Hold(slot: nat)      // a block is acquired; the caller works on it
    | EndLock(slot: nat)   // commit or release: waiting for the mutex
    | EndBody(slot: nat)   // commit or release: in the mutex, before the index moves
    | EndCount(slot: nat)  // commit or release: in the mutex, before the count moves
    | Notify               // commit or release: mutex released, notify_one still to come

  /** Where the controlling thread is within Stop or Start. */
  datatype Control =
    | Resting
    | StopLock             // Stop: waiting for the mutex
    | StopSet              // in the mutex, about to set `stopped`
    | NotifyWriters        // in the mutex, about to notify the writers
    | NotifyReaders        // in the mutex, about to notify the readers, then unlock
    | StartLock            // Start: waiting for the mutex
    | StartRead            // in the mutex, about to store 0 in `read_index`
    | StartWrite           // in the mutex, about to store 0 in `write_index`
    | StartCount           // in the mutex, about to store 0 in `blocks_available`
    | StartOpen            // in the mutex, about to clear `stopped`, then unlock

  datatype Owner = Nobody | Endpoint(side: Side) | Controller

  datatype State<T> = State(ring: Ring<T>, owner: Owner, producer: Pc, consumer: Pc, control: Control)

  function PcOf<T>(s: State<T>, side: Side): Pc {
    if side == Producer then s.producer else s.consumer
  }

  function WithPc<T>(s: State<T>, side: Side, pc: Pc): State<T> {
    if side == Producer then s.(producer := pc) else s.(consumer := pc)
  }

  /** notify_one and notify_all coincide: at most one thread sleeps on each condition variable. */
  function Wake<T>(s: State<T>, side: Side): State<T> {
    if PcOf(s, side) == Asleep then WithPc(s, side, Woken) else s
  }

  datatype Action<T> =
    | Call(side: Side)      // acquireWriteBlock or acquireReadBlock is entered
    | Turn(side: Side)      // an endpoint runs its next step
    | Write(value: T)       // the producer stores into the block it holds
    | Edit(value: T)        // the consumer changes the block it holds, as the fine mixer does in place
    | Forget(side: Side)    // an endpoint's thread ends with a block in hand
    | Finish(side: Side)    // commitWriteBlock or releaseReadBlock is entered
    | Spurious(side: Side)  // a wake-up without a notification
    | StopCall
    | StartCall
    | ControlTurn

  /** An endpoint's next step on its own is possible: it is inside a call, awake, and any mutex it needs is free. */
  predicate CanTurn<T>(s: State<T>, side: Side) {
    match PcOf(s, side)
    case Idle => false
    case Asleep => false
    case Hold(_) => false
    case Lock => s.owner == Nobody
    case Woken => s.owner == Nobody
    case EndLock(_) => s.owner == Nobody
    case _ => true
  }

  /** Slots named by program counters exist, so a step is defined. */
  predicate Sensible<T>(s: State<T>) {
    && |s.ring.slots| > 0
    && (HasSlot(s.producer) ==> s.producer.slot < |s.ring.slots|)
    && (HasSlot(s.consumer) ==> s.consumer.slot < |s.ring.slots|)
    && (s.consumer.EndCount? ==> s.ring.available > 0)
  }

  function AfterTurn<T>(s: State<T>, side: Side): State<T>
    requires CanTurn(s, side) && Sensible(s)
  {
    var mine := Endpoint(side);
    match PcOf(s, side)
    case Spin(i) =>
      if i >= SPIN_COUNT then WithPc(s, side, Lock)
      else if s.ring.stopped then WithPc(s, side, Idle)
      else WithPc(s, side, Test(i))
    case Test(i) => WithPc(s, side, if Ready(s.ring, side) then Fetch else Spin(i + 1))
    case Fetch => WithPc(s, side, Hold(Index(s.ring, side))).(ring := Acquire(s.ring, side))
    case Lock => WithPc(s, side, Check).(owner := mine)
    case Woken => WithPc(s, side, Check).(owner := mine)
    case Check =>
      if s.ring.stopped then WithPc(s, side, Idle).(owner := Nobody)
      else if Ready(s.ring, side)
      then WithPc(s, side, Hold(Index(s.ring, side))).(ring := Acquire(s.ring, side), owner := Nobody)
      else WithPc(s, side, Asleep).(owner := Nobody)
    case EndLock(slot) => WithPc(s, side, EndBody(slot)).(owner := mine)
    case EndBody(slot) =>
      if (if side == Producer then s.ring.stopped else s.ring.available == 0)
      then WithPc(s, side, Idle).(owner := Nobody)
      else WithPc(s, side, EndCount(slot)).(ring := Advance(s.ring, side))
    case EndCount(slot) => WithPc(s, side, Notify).(ring := Count(s.ring, side, slot), owner := Nobody)
    case Notify => WithPc(Wake(s, Other(side)), side, Idle)
    case _ => s
  }

  predicate CanControl<T>(s: State<T>) {
    s.control != Resting && (s.control.StopLock? || s.control.StartLock? ==> s.owner == Nobody)
  }

  function AfterControl<T>(s: State<T>): State<T>
    requires CanControl(s)
  {
    match s.control
    case StopLock => s.(control := StopSet, owner := Controller)
    case StopSet => s.(control := NotifyWriters, ring := s.ring.(stopped := true))
    case NotifyWriters => Wake(s, Producer).(control := NotifyReaders)
    case NotifyReaders => Wake(s, Consumer).(control := Resting, owner := Nobody)
    case StartLock => s.(control := StartRead, owner := Controller)
    case StartRead => s.(control := StartWrite, ring := s.ring.(readIndex := 0))
    case StartWrite => s.(control := StartCount, ring := s.ring.(writeIndex := 0))
    case StartCount => s.(control := StartOpen, ring := s.ring.(available := 0))
    case StartOpen => s.(control := Resting, owner := Nobody, ring := Reset(s.ring))
  }

  /** Start has been entered and has not returned. */
  predicate Starting(control: Control) {
    control.StartLock? || control.StartRead? || control.StartWrite? || control.StartCount? || control.StartOpen?
  }

  /** Start has stored the read index and has not yet opened the ring: its fields do not fit together. */
  predicate Resetting(control: Control) {
    control.StartWrite? || control.StartCount? || control.StartOpen?
  }

  ghost predicate Step<T>(s: State<T>, a: Action<T>, s': State<T>) {
    Sensible(s) &&
    match a
    case Call(side) => PcOf(s, side) == Idle && s' == WithPc(s, side, Spin(0))
    case Turn(side) => CanTurn(s, side) && s' == AfterTurn(s, side)
    case Write(v) => s.producer.Hold? && s' == s.(ring := s.ring.(slots := s.ring.slots[s.producer.slot := v]))
    case Edit(v) => s.consumer.Hold? && s' == s.(ring := s.ring.(slots := s.ring.slots[s.consumer.slot := v]))
    case Forget(side) => PcOf(s, side).Hold? && s' == WithPc(s, side, Idle)
    case Finish(side) => PcOf(s, side).Hold? && s' == WithPc(s, side, EndLock(PcOf(s, side).slot))
    case Spurious(side) => PcOf(s, side) == Asleep && s' == WithPc(s, side, Woken)
    case StopCall => s.control == Resting && s' == s.(control := StopLock)
    case ControlTurn => CanControl(s) && s' == AfterControl(s)
    case StartCall => s.control == Resting && s' == s.(control := StartLock)
  }

  /** What callers must see to: Start is called with the consumer outside every call and the producer either outside or
      holding slot 0; and no acquire is entered while Start runs on a ring that is not stopped. TurnOn does both: its
      endpoints begin to run after it has called Start. */
  predicate Allowed<T>(s: State<T>, a: Action<T>) {
    match a
    case StartCall => OutsideForStart(s)
    case Call(_) => Starting(s.control) ==> s.ring.stopped
    case _ => true
  }

  predicate OutsideForStart<T>(s: State<T>) {
    s.consumer == Idle && (s.producer == Idle || s.producer == Hold(0))
  }

  predicate Quiescent<T>(s: State<T>) {
    s.owner == Nobody && s.control == Resting && s.producer == Idle && s.consumer == Idle
  }

  // ---- the invariant ----

  /** Where an endpoint's next block really is: in the middle of a commit or release, its index is one ahead. */
  function Position<T>(s: State<T>, side: Side): nat {
    match PcOf(s, side)
    case EndCount(slot) => slot
    case _ => Index(s.ring, side)
  }

  predicate InMutex(pc: Pc) {
    pc.Check? || pc.EndBody? || pc.EndCount?
  }

  /** The endpoint has found a block available and has not yet counted it out. */
  predicate Claims(pc: Pc) {
    pc.Fetch? || HasSlot(pc)
  }

  predicate HasSlot(pc: Pc) {
    pc.Hold? || pc.EndLock? || pc.EndBody? || pc.EndCount?
  }

  predicate StopNotifyComing<T>(s: State<T>, side: Side) {
    s.control == NotifyWriters || (side == Consumer && s.control == NotifyReaders)
  }

  ghost predicate EndpointInv<T>(s: State<T>, side: Side)
    requires |s.ring.slots| > 0
  {
    var pc := PcOf(s, side);
    && (InMutex(pc) <==> s.owner == Endpoint(side))
    && (Claims(pc) ==> Ready(s.ring, side))
    && (HasSlot(pc) ==> pc.slot == Position(s, side) && (side == Consumer ==> s.ring.found.Some?))
    && (pc.EndCount? ==> Index(s.ring, side) == Wrap(pc.slot + 1, |s.ring.slots|))
    // No lost wake-up: an endpoint asleep with its predicate true has a notification still to come.
    && (pc == Asleep && s.ring.stopped ==> StopNotifyComing(s, side))
    && (pc == Asleep && Ready(s.ring, side) ==> PcOf(s, Other(side)) == Notify || StopNotifyComing(s, side))
  }

  /** An endpoint between calls, or inside an acquire that can only return null while the ring stays stopped. */
  predicate Refused<T>(s: State<T>, side: Side) {
    var pc := PcOf(s, side);
    pc == Idle || (s.ring.stopped && (pc.Spin? || pc == Lock || pc == Check))
  }

  /** While Start runs the endpoints are out of its way; only a producer that held slot 0 may still be committing it. */
  predicate Aside<T>(s: State<T>) {
    && Refused(s, Consumer)
    && (Refused(s, Producer) || s.producer == Notify || (HasSlot(s.producer) && s.producer.slot == 0))
  }

  predicate ControlInMutex(control: Control) {
    !control.Resting? && !control.StopLock? && !control.StartLock?
  }

  ghost predicate Orderly<T>(s: State<T>)
    requires |s.ring.slots| > 0
  {
    && (ControlInMutex(s.control) <==> s.owner == Controller)
    && (s.control.NotifyWriters? || s.control.NotifyReaders? ==> s.ring.stopped)
    && (Starting(s.control) ==> Aside(s))
    && EndpointInv(s, Producer)
    && EndpointInv(s, Consumer)
  }

  /** The ring in the middle of Start: what has been stored so far. */
  ghost predicate PartlyReset<T>(s: State<T>) {
    && s.ring.readIndex == 0 && s.ring.available <= |s.ring.slots| && s.ring.writeIndex < |s.ring.slots|
    && (s.control != StartWrite ==> s.ring.writeIndex == 0)
    && (s.control == StartOpen ==> s.ring.available == 0)
  }

  ghost predicate RingInv<T>(s: State<T>) {
    if Resetting(s.control) then PartlyReset(s) else Coherent(s.ring, Position(s, Consumer), Position(s, Producer))
  }

  ghost predicate Inv<T>(s: State<T>) {
    |s.ring.slots| > 0 && RingInv(s) && Orderly(s)
  }

  ghost predicate Initial<T>(s: State<T>) {
    && |s.ring.slots| > 0 && s.ring == Reset(s.ring) && Quiescent(s)
  }

  lemma InitiallyInv<T>(s: State<T>)
    requires Initial(s)
    ensures Inv(s)
  {
  }

  // Each action keeps the invariant; an endpoint's turn is taken apart into what it does to itself, to the other
  // endpoint and to the ring.

  lemma TurnKeepsMine<T>(s: State<T>, side: Side)
    requires Sensible(s) && Orderly(s) && CanTurn(s, side) && s.ring.readIndex < |s.ring.slots|
    ensures EndpointInv(AfterTurn(s, side), side)
  {
    var pc := PcOf(s, side);
    if pc.EndBody? {
      EndBodyKeepsMine(s, side);
    } else if pc == Check {
      CheckKeepsMine(s, side);
    }
  }

  lemma EndBodyKeepsMine<T>(s: State<T>, side: Side)
    requires Sensible(s) && Orderly(s) && PcOf(s, side).EndBody?
    ensures EndpointInv(AfterTurn(s, side), side)
  {
    WrapIsMod(PcOf(s, side).slot + 1, |s.ring.slots|);
  }

  lemma CheckKeepsMine<T>(s: State<T>, side: Side)
    requires Sensible(s) && Orderly(s) && PcOf(s, side) == Check && s.ring.readIndex < |s.ring.slots|
    ensures EndpointInv(AfterTurn(s, side), side)
  {
  }

  lemma TurnKeepsOther<T>(s: State<T>, side: Side)
    requires Sensible(s) && Orderly(s) && CanTurn(s, side)
    ensures EndpointInv(AfterTurn(s, side), Other(side))
  {
    if PcOf(s, side) == Notify {
      NotifyKeepsOther(s, side);
    } else if PcOf(s, side).EndCount? {
      CountKeepsOther(s, side);
    } else if PcOf(s, side).EndBody? {
      EndBodyKeepsOther(s, side);
    }
  }

  lemma EndBodyKeepsOther<T>(s: State<T>, side: Side)
    requires Sensible(s) && Orderly(s) && PcOf(s, side).EndBody?
    ensures EndpointInv(AfterTurn(s, side), Other(side))
  {
  }

  lemma NotifyKeepsOther<T>(s: State<T>, side: Side)
    requires Sensible(s) && Orderly(s) && PcOf(s, side) == Notify
    ensures EndpointInv(AfterTurn(s, side), Other(side))
  {
  }

  lemma CountKeepsOther<T>(s: State<T>, side: Side)
    requires Sensible(s) && Orderly(s) && PcOf(s, side).EndCount?
    ensures EndpointInv(AfterTurn(s, side), Other(side))
  {
  }

  lemma TurnKeepsControl<T>(s: State<T>, side: Side)
    requires Sensible(s) && Orderly(s) && CanTurn(s, side)
    ensures var s' := AfterTurn(s, side);
            && s'.control == s.control && s'.ring.stopped == s.ring.stopped
            && (s'.owner == Controller <==> s.owner == Controller)
            && (Starting(s.control) ==> Aside(s'))
  {
  }

  lemma TurnKeepsRing<T>(s: State<T>, side: Side)
    requires Inv(s) && Sensible(s) && CanTurn(s, side)
    ensures RingInv(AfterTurn(s, side))
  {
    if PcOf(s, side).EndCount? {
      CountKeepsRing(s, side);
    } else {
      TurnKeepsPositions(s, side);
      if !Resetting(s.control) { TurnKeepsBlocks(s, side); }
    }
  }

  lemma TurnKeepsBlocks<T>(s: State<T>, side: Side)
    requires Inv(s) && Sensible(s) && CanTurn(s, side) && !Resetting(s.control) && !PcOf(s, side).EndCount?
    ensures Coherent(AfterTurn(s, side).ring, Position(s, Consumer), Position(s, Producer))
  {
    var s' := AfterTurn(s, side);
    TurnKeepsPositions(s, side);
    if PcOf(s', side).Hold? {
      AcquireKeeps(s.ring, Position(s, Consumer), Position(s, Producer), side);
      SameBlocks(Acquire(s.ring, side), s'.ring, Position(s, Consumer), Position(s, Producer));
    } else {
      SameBlocks(s.ring, s'.ring, Position(s, Consumer), Position(s, Producer));
    }
  }

  lemma TurnKeepsPositions<T>(s: State<T>, side: Side)
    requires Sensible(s) && Orderly(s) && CanTurn(s, side) && !PcOf(s, side).EndCount?
    ensures var s' := AfterTurn(s, side);
            && Position(s', Consumer) == Position(s, Consumer) && Position(s', Producer) == Position(s, Producer)
            && s'.ring.slots == s.ring.slots && s'.ring.available == s.ring.available && s'.control == s.control
            && s'.ring.committed == s.ring.committed && s'.ring.released == s.ring.released
            && (s'.ring.found == if PcOf(s', side).Hold? then Acquire(s.ring, side).found else s.ring.found)
            && (Resetting(s.control) ==> s'.ring == s.ring)
  {
  }

  lemma CountKeepsRing<T>(s: State<T>, side: Side)
    requires Inv(s) && Sensible(s) && PcOf(s, side).EndCount?
    ensures RingInv(AfterTurn(s, side))
  {
    match side
    case Producer => CommitKeepsRing(s);
    case Consumer => ReleaseKeepsRing(s);
  }

  lemma CommitKeepsRing<T>(s: State<T>)
    requires Inv(s) && Sensible(s) && s.producer.EndCount?
    ensures RingInv(AfterTurn(s, Producer))
  {
    assert s.owner == Endpoint(Producer);
    CommitKeeps(s.ring, Position(s, Consumer), s.producer.slot);
  }

  lemma ReleaseKeepsRing<T>(s: State<T>)
    requires Inv(s) && Sensible(s) && s.consumer.EndCount?
    ensures RingInv(AfterTurn(s, Consumer))
  {
    assert s.owner == Endpoint(Consumer);
    ReleaseKeeps(s.ring, s.consumer.slot, Position(s, Producer));
  }

  lemma TurnKeepsInv<T>(s: State<T>, side: Side)
    requires Inv(s) && Sensible(s) && CanTurn(s, side)
    ensures Inv(AfterTurn(s, side))
  {
    assert Position(s, Consumer) < |s.ring.slots|;
    TurnKeepsMine(s, side);
    TurnKeepsOther(s, side);
    TurnKeepsControl(s, side);
    TurnKeepsRing(s, side);
  }

  lemma ControlKeepsRing<T>(s: State<T>)
    requires Inv(s) && CanControl(s)
    ensures RingInv(AfterControl(s))
  {
    if !Starting(s.control) {
      SameBlocks(s.ring, AfterControl(s).ring, Position(s, Consumer), Position(s, Producer));
    }
  }

  lemma ControlKeepsOrder<T>(s: State<T>)
    requires Inv(s) && CanControl(s)
    ensures Orderly(AfterControl(s))
  {
  }

  lemma ControlKeepsInv<T>(s: State<T>)
    requires Inv(s) && CanControl(s)
    ensures Inv(AfterControl(s))
  {
    ControlKeepsRing(s);
    ControlKeepsOrder(s);
  }

  lemma CallKeepsInv<T>(s: State<T>, side: Side, s': State<T>)
    requires Inv(s) && Step(s, Call(side), s') && Allowed(s, Call(side))
    ensures Inv(s')
  {
    assert Position(s', Consumer) == Position(s, Consumer) && Position(s', Producer) == Position(s, Producer);
  }

  lemma FinishKeepsInv<T>(s: State<T>, side: Side, s': State<T>)
    requires Inv(s) && Step(s, Finish(side), s')
    ensures Inv(s')
  {
    assert Position(s', Consumer) == Position(s, Consumer) && Position(s', Producer) == Position(s, Producer);
  }

  lemma SpuriousKeepsInv<T>(s: State<T>, side: Side, s': State<T>)
    requires Inv(s) && Step(s, Spurious(side), s')
    ensures Inv(s')
  {
    assert Position(s', Consumer) == Position(s, Consumer) && Position(s', Producer) == Position(s, Producer);
  }

  lemma ControlCallKeepsInv<T>(s: State<T>, a: Action<T>, s': State<T>)
    requires Inv(s) && Step(s, a, s') && Allowed(s, a) && (a.StopCall? || a.StartCall?)
    ensures Inv(s')
  {
    assert Position(s', Consumer) == Position(s, Consumer) && Position(s', Producer) == Position(s, Producer);
  }

  lemma WriteKeepsInv<T>(s: State<T>, v: T, s': State<T>)
    requires Inv(s) && Step(s, Write(v), s')
    ensures Inv(s')
  {
    if !Resetting(s.control) {
      WriteKeeps(s.ring, Position(s, Consumer), s.producer.slot, v);
    }
  }

  lemma EditKeepsInv<T>(s: State<T>, v: T, s': State<T>)
    requires Inv(s) && Step(s, Edit(v), s')
    ensures Inv(s')
  {
    EditKeeps(s.ring, Position(s, Consumer), Position(s, Producer), v);
  }

  lemma ForgetKeepsInv<T>(s: State<T>, side: Side, s': State<T>)
    requires Inv(s) && Step(s, Forget(side), s')
    ensures Inv(s')
  {
    assert Position(s', Consumer) == Position(s, Consumer) && Position(s', Producer) == Position(s, Producer);
  }

  lemma StepKeepsInv<T>(s: State<T>, a: Action<T>, s': State<T>)
    requires Inv(s) && Step(s, a, s') && Allowed(s, a)
    ensures Inv(s')
  {
    match a
    case Turn(side) => TurnKeepsInv(s, side);
    case ControlTurn => ControlKeepsInv(s);
    case Write(v) => WriteKeepsInv(s, v, s');
    case Edit(v) => EditKeepsInv(s, v, s');
    case Forget(side) => ForgetKeepsInv(s, side, s');
    case Call(side) => CallKeepsInv(s, side, s');
    case Finish(side) => FinishKeepsInv(s, side, s');
    case Spurious(side) => SpuriousKeepsInv(s, side, s');
    case _ => ControlCallKeepsInv(s, a, s');
  }
}
