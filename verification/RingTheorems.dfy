/** What every run of the ring guarantees. */
module RingTheorems {
  import opened Modular
  import opened RingState
  import opened RingProtocol

  /** A run whose callers keep to their side of Start. */
  ghost predicate IsRun<T>(run: seq<State<T>>, actions: seq<Action<T>>) {
    && |run| == |actions| + 1
    && Initial(run[0])
    && forall i | 0 <= i < |actions| :: StepsAt(run, actions, i)
  }

  ghost predicate StepsAt<T>(run: seq<State<T>>, actions: seq<Action<T>>, i: nat)
    requires i < |actions| && |run| == |actions| + 1
  {
    Step(run[i], actions[i], run[i + 1]) && Allowed(run[i], actions[i])
  }

  lemma {:induction false} RunKeepsInv<T>(run: seq<State<T>>, actions: seq<Action<T>>, i: nat)
    requires IsRun(run, actions) && i < |run|
    ensures Inv(run[i])
  {
    if i == 0 {
      InitiallyInv(run[0]);
    } else {
      RunKeepsInv(run, actions, i - 1);
      assert StepsAt(run, actions, i - 1);
      StepKeepsInv(run[i - 1], actions[i - 1], run[i]);
    }
  }

  /** What callers rely on. The endpoints never own the same slot. An endpoint owns the slot its index names. What a consumer
      found in the block it holds is the oldest block committed and not yet released, as it was committed. And, away from
      the middle of Start, what has been released is a prefix of what was committed since Start; away from the middle of a
      commit or release too, the write index is the read index plus the count, modulo the size. */
  ghost predicate Safe<T>(s: State<T>) {
    var ring, m := s.ring, |s.ring.slots|;
    && m > 0 && ring.available <= m && ring.readIndex < m && ring.writeIndex < m
    && (HasSlot(s.producer) && HasSlot(s.consumer) ==> s.producer.slot != s.consumer.slot)
    && (HasSlot(s.producer) ==> s.producer.slot == Position(s, Producer))
    && (HasSlot(s.consumer) ==>
          && s.consumer.slot == Position(s, Consumer) < m && |ring.released| < |ring.committed|
          && ring.found == Some(ring.committed[|ring.released|]))
    && (!Resetting(s.control) ==>
          ring.released <= ring.committed && |ring.committed| == |ring.released| + ring.available)
    && (!Resetting(s.control) && !s.producer.EndCount? && !s.consumer.EndCount? ==>
          ring.writeIndex == (ring.readIndex + ring.available) % m)
  }

  lemma InvIsSafe<T>(s: State<T>)
    requires Inv(s)
    ensures Safe(s)
  {
    if !Resetting(s.control) && !s.producer.EndCount? && !s.consumer.EndCount? {
      WrapIsMod(s.ring.readIndex + s.ring.available, |s.ring.slots|);
    }
  }

  /** Safety in every state of every run. */
  lemma EveryRunIsSafe<T>(run: seq<State<T>>, actions: seq<Action<T>>, i: nat)
    requires IsRun(run, actions) && i < |run|
    ensures Safe(run[i])
  {
    RunKeepsInv(run, actions, i);
    InvIsSafe(run[i]);
  }

  /** The block an endpoint holds stays its own: while the consumer works on one, no step but the consumer's own edit
      changes that slot. */
  lemma HeldBlockIsStable<T>(s: State<T>, a: Action<T>, s': State<T>)
    requires Inv(s) && Step(s, a, s') && s.consumer.Hold?
    ensures s.consumer.slot < |s.ring.slots| == |s'.ring.slots|
    ensures a.Edit? || s'.ring.slots[s.consumer.slot] == s.ring.slots[s.consumer.slot]
    ensures s.producer.Hold? ==> s.producer.slot != s.consumer.slot
  {
  }

  /** On acquiring, the consumer finds what its slot holds, unless it gave the block up unreleased and has it back. */
  lemma AcquiredIsFound<T>(s: State<T>)
    requires Inv(s) && CanTurn(s, Consumer) && AfterTurn(s, Consumer).consumer.Hold?
    ensures var s' := AfterTurn(s, Consumer);
            && s'.consumer.slot < |s.ring.slots| && s'.ring.found.Some?
            && s'.ring.found == if s.ring.found.None? then Some(s.ring.slots[s'.consumer.slot]) else s.ring.found
  {
  }

  predicate NotifyComing<T>(s: State<T>, side: Side) {
    PcOf(s, Other(side)) == Notify || StopNotifyComing(s, side)
  }

  /** No lost wake-up: in every run, an endpoint asleep with its predicate true has a notification still to come,
      and the two are never both asleep with none coming. */
  lemma NoLostWakeUp<T>(run: seq<State<T>>, actions: seq<Action<T>>, i: nat, side: Side)
    requires IsRun(run, actions) && i < |run|
    ensures PcOf(run[i], side) == Asleep && (run[i].ring.stopped || Ready(run[i].ring, side)) ==>
              NotifyComing(run[i], side)
    ensures run[i].producer == Asleep && run[i].consumer == Asleep ==>
              NotifyComing(run[i], Producer) || NotifyComing(run[i], Consumer)
  {
    RunKeepsInv(run, actions, i);
  }

  /** An endpoint that no step of its own can move and that is not waiting for the mutex: its caller has the next move,
      or it sleeps because the ring really is full, or empty, and not stopped. */
  predicate WaitsForOthers<T>(s: State<T>, side: Side) {
    var pc := PcOf(s, side);
    pc == Idle || pc.Hold? || (pc == Asleep && !s.ring.stopped && !Ready(s.ring, side))
  }

  /** No deadlock: if nothing can move on its own, every thread is waiting legitimately and not both endpoints sleep. */
  lemma NoDeadlock<T>(run: seq<State<T>>, actions: seq<Action<T>>, i: nat)
    requires IsRun(run, actions) && i < |run|
    ensures var s := run[i];
      || CanTurn(s, Producer) || CanTurn(s, Consumer) || CanControl(s)
      || (s.control == Resting && WaitsForOthers(s, Producer) && WaitsForOthers(s, Consumer)
          && !(s.producer == Asleep && s.consumer == Asleep))
  {
    RunKeepsInv(run, actions, i);
  }

  /** What Turn and ControlTurn do is defined in every reachable state, so the moves above really can be made. */
  lemma EnabledMovesExist<T>(run: seq<State<T>>, actions: seq<Action<T>>, i: nat, side: Side)
    requires IsRun(run, actions) && i < |run|
    ensures Sensible(run[i])
    ensures CanTurn(run[i], side) ==> Step(run[i], Turn(side), AfterTurn(run[i], side))
    ensures CanControl(run[i]) ==> Step(run[i], ControlTurn, AfterControl(run[i]))
  {
    RunKeepsInv(run, actions, i);
  }

  // ---- Stop ----

  /** Once Stop has returned no endpoint is asleep, in any state until the next Start. */
  lemma StopWakesEveryone<T>(run: seq<State<T>>, actions: seq<Action<T>>, i: nat, side: Side)
    requires IsRun(run, actions) && i < |run|
    requires run[i].ring.stopped && !run[i].control.NotifyWriters? && !run[i].control.NotifyReaders?
    ensures PcOf(run[i], side) != Asleep
  {
    RunKeepsInv(run, actions, i);
  }

  /** Only the last store of Start reopens the ring. */
  lemma OnlyStartReopens<T>(s: State<T>, a: Action<T>, s': State<T>)
    requires Step(s, a, s') && s.ring.stopped && !s'.ring.stopped
    ensures a == ControlTurn && s.control == StartOpen
  {
  }

  ghost predicate StaysStopped<T>(run: seq<State<T>>, first: nat, last: nat)
    requires last < |run|
  {
    forall i | first <= i <= last :: run[i].ring.stopped
  }

  /** Every acquire entered after `stopped` is set returns null: while the ring stays stopped no step takes it to a block
      or to sleep. */
  lemma {:induction false} LaterAcquiresReturnNull<T>(run: seq<State<T>>, actions: seq<Action<T>>, first: nat, last: nat,
                                                      side: Side)
    requires IsRun(run, actions) && first <= last < |run| && PcOf(run[first], side) == Idle
    requires StaysStopped(run, first, last)
    ensures Refused(run[last], side)
    decreases last
  {
    assert run[last].ring.stopped;
    if first < last {
      LaterAcquiresReturnNull(run, actions, first, last - 1, side);
      RefusedGoesOn(run, actions, last - 1, side);
    }
  }

  lemma RefusedGoesOn<T>(run: seq<State<T>>, actions: seq<Action<T>>, i: nat, side: Side)
    requires IsRun(run, actions) && i < |actions|
    requires Refused(run[i], side) && run[i].ring.stopped && run[i + 1].ring.stopped
    ensures Refused(run[i + 1], side)
  {
    assert StepsAt(run, actions, i);
    RefusedStaysRefused(run[i], actions[i], run[i + 1], side);
  }

  lemma RefusedStaysRefused<T>(s: State<T>, a: Action<T>, s': State<T>, side: Side)
    requires Step(s, a, s') && Refused(s, side) && s.ring.stopped && s'.ring.stopped
    ensures Refused(s', side)
  {
  }

  function TurnsLeft(pc: Pc): nat {
    match pc
    case Check => 1
    case Lock => 2
    case Spin(_) => 3
    case _ => 0
  }

  /** ... and it returns after at most three turns of its own. */
  lemma RefusedCallEnds<T>(s: State<T>, side: Side)
    requires Sensible(s) && Refused(s, side) && s.ring.stopped && CanTurn(s, side)
    ensures TurnsLeft(PcOf(AfterTurn(s, side), side)) < TurnsLeft(PcOf(s, side)) <= 3
    ensures TurnsLeft(PcOf(AfterTurn(s, side), side)) == 0 ==> PcOf(AfterTurn(s, side), side) == Idle
  {
  }
}
