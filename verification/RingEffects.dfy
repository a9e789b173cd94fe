/** What each call of the ring brings about, whatever the other threads do meanwhile. */
module RingEffects {
  import opened Modular
  import opened RingState
  import opened RingProtocol
  import opened RingTheorems

  predicate InAcquire(pc: Pc) {
    pc.Spin? || pc.Test? || pc.Fetch? || pc.Lock? || pc.Check? || pc.Asleep? || pc.Woken?
  }

  /** Inside a commit or release, which has not taken effect. */
  predicate InEnd(pc: Pc) {
    pc.EndLock? || pc.EndBody? || pc.EndCount?
  }

  /** A call is entered; nothing but the endpoint's place changes. */
  lemma CallsAreEntered<T>(s: State<T>, a: Action<T>, s': State<T>, side: Side)
    requires Step(s, a, s') && (a == Call(side) || a == Finish(side))
    ensures if a == Call(side) then InAcquire(PcOf(s', side))
            else InEnd(PcOf(s', side)) && PcOf(s, side).Hold? && PcOf(s', side).slot == PcOf(s, side).slot
    ensures s'.ring == s.ring && s'.owner == s.owner && s'.control == s.control
    ensures PcOf(s', Other(side)) == PcOf(s, Other(side))
  {
  }

  /** Only the holder of a block works on it, and only that slot changes; giving a block up unfinished, or waking without a
      notification, changes nothing but the endpoint's place. */
  lemma HoldersMove<T>(s: State<T>, a: Action<T>, s': State<T>)
    requires Step(s, a, s')
    ensures a.Write? ==> s.producer.Hold? && s' == s.(ring := s'.ring) && OneSlotSet(s.ring, s'.ring, s.producer.slot, a.value)
    ensures a.Edit? ==> s.consumer.Hold? && s' == s.(ring := s'.ring) && OneSlotSet(s.ring, s'.ring, s.consumer.slot, a.value)
    ensures a == Forget(Producer) ==> s.producer.Hold? && s' == s.(producer := Idle)
    ensures a == Forget(Consumer) ==> s.consumer.Hold? && s' == s.(consumer := Idle)
    ensures a == Spurious(Producer) ==> s.producer == Asleep && s' == s.(producer := Woken)
    ensures a == Spurious(Consumer) ==> s.consumer == Asleep && s' == s.(consumer := Woken)
  {
  }

  ghost predicate OneSlotSet<T>(ring: Ring<T>, ring': Ring<T>, slot: nat, value: T) {
    && slot < |ring.slots| == |ring'.slots| && ring' == ring.(slots := ring'.slots) && ring'.slots[slot] == value
    && forall i | 0 <= i < |ring.slots| && i != slot :: ring'.slots[i] == ring.slots[i]
  }

  /** An acquire returns null only on a stopped ring, and otherwise the endpoint's own slot: a free one for the producer, the
      one with the oldest block waiting for the consumer. */
  lemma AcquireOutcome<T>(s: State<T>, a: Action<T>, s': State<T>, side: Side)
    requires Inv(s) && Step(s, a, s') && InAcquire(PcOf(s, side)) && !InAcquire(PcOf(s', side))
    ensures a == Turn(side)
    ensures PcOf(s', side) == Idle || PcOf(s', side) == Hold(if side == Producer then s.ring.writeIndex else s.ring.readIndex)
    ensures PcOf(s', side) == Idle ==> s.ring.stopped && s'.ring == s.ring
    ensures PcOf(s', side).Hold? && side == Producer ==> s.ring.available < |s.ring.slots| && s'.ring == s.ring
    ensures PcOf(s', side).Hold? && side == Consumer ==> s.ring.available > 0 && s'.ring == s.ring.(found := s'.ring.found)
  {
  }

  /** An acquire goes to sleep only on a full or an empty ring that is not stopped. */
  lemma SleepsOnlyWithCause<T>(s: State<T>, a: Action<T>, s': State<T>, side: Side)
    requires Step(s, a, s') && PcOf(s, side) != Asleep && PcOf(s', side) == Asleep
    ensures !s.ring.stopped && (if side == Producer then s.ring.available >= |s.ring.slots| else s.ring.available == 0)
  {
  }

  /** A commit ends in one of two ways: refused, which only a stopped ring does, or with the producer's block behind those
      committed before and one more available. */
  lemma CommitOutcome<T>(s: State<T>, a: Action<T>, s': State<T>)
    requires Inv(s) && Step(s, a, s') && InEnd(s.producer) && !InEnd(s'.producer)
    ensures a == Turn(Producer) && s.producer.slot < |s.ring.slots|
    ensures s.producer == EndBody(s.producer.slot) && s.ring.stopped ==> s'.producer == Idle && s'.ring == s.ring
    ensures !(s.producer.EndBody? && s.ring.stopped) ==>
              && s'.producer == Notify && s'.ring.available == s.ring.available + 1
              && s'.ring.committed == s.ring.committed + [s.ring.slots[s.producer.slot]]
              && s'.ring.slots == s.ring.slots && s'.ring.writeIndex == (s.producer.slot + 1) % |s.ring.slots|
  {
    if s.producer.EndCount? { WrapIsMod(s.producer.slot + 1, |s.ring.slots|); }
  }

  /** In its mutex a commit looks at `stopped` once: it is refused if it is set there, and otherwise it is not. */
  lemma CommitLooksOnce<T>(s: State<T>, s': State<T>)
    requires Step(s, Turn(Producer), s') && s.producer.EndBody?
    ensures if s.ring.stopped then s'.producer == Idle else s'.producer == EndCount(s.producer.slot)
  {
  }

  /** A release always ends with the oldest block released, as it was committed, and one less available. */
  lemma ReleaseOutcome<T>(s: State<T>, a: Action<T>, s': State<T>)
    requires Inv(s) && Step(s, a, s') && InEnd(s.consumer) && !InEnd(s'.consumer)
    ensures a == Turn(Consumer) && s'.consumer == Notify && s'.ring.available + 1 == s.ring.available
    ensures |s.ring.released| < |s.ring.committed| == |s'.ring.committed|
    ensures s'.ring.released == s.ring.released + [s.ring.committed[|s.ring.released|]]
    ensures s'.ring.slots == s.ring.slots && s'.ring.readIndex == (s.consumer.slot + 1) % |s.ring.slots|
  {
    WrapIsMod(s.consumer.slot + 1, |s.ring.slots|);
  }

  // ---- bounded calls ----

  /** Turns an endpoint can still make before it returns or goes to sleep. */
  function Rank(pc: Pc): nat {
    match pc
    case Spin(i) => 3 + 2 * Left(i)
    case Test(i) => 4 + 2 * Left(i + 1)
    case Fetch => 1
    case Lock => 2
    case Woken => 2
    case Check => 1
    case EndLock(_) => 4
    case EndBody(_) => 3
    case EndCount(_) => 2
    case Notify => 1
    case _ => 0
  }

  /** Rounds of the spin not yet made. */
  function Left(i: nat): nat {
    if i < SPIN_COUNT then SPIN_COUNT - i else 0
  }

  /** Every call ends: each turn of an endpoint lowers a bound of 203, which is 0 only between calls, with a block in hand, or
      asleep. */
  lemma CallsEnd<T>(s: State<T>, side: Side)
    requires Sensible(s) && CanTurn(s, side)
    ensures Rank(PcOf(AfterTurn(s, side), side)) < Rank(PcOf(s, side)) <= 203
    ensures var pc := PcOf(AfterTurn(s, side), side); Rank(pc) == 0 ==> pc == Idle || pc.Hold? || pc == Asleep
  {
  }

  // ---- Stop and Start ----

  predicate Stopping(control: Control) {
    control.StopLock? || control.StopSet? || control.NotifyWriters? || control.NotifyReaders?
  }

  /** Stop and Start are entered, and return only with what they are called for done. */
  lemma ControlOutcome<T>(s: State<T>, a: Action<T>, s': State<T>)
    requires Inv(s) && Step(s, a, s')
    ensures a == StopCall ==> Stopping(s'.control)
    ensures a == StartCall ==> Starting(s'.control)
    ensures Stopping(s.control) ==> Stopping(s'.control) || (s'.control == Resting && s'.ring.stopped)
    ensures Stopping(s.control) && s'.control == Resting ==> s'.ring == s.ring
    ensures Starting(s.control) ==> Starting(s'.control) || s'.control == Resting
    ensures Starting(s.control) && s'.control == Resting ==>
              && s'.ring.readIndex == s'.ring.writeIndex == s'.ring.available == 0 && !s'.ring.stopped
              && s'.ring.slots == s.ring.slots && s'.ring.committed == s'.ring.released == []
  {
  }

  // ---- the ring as a queue ----

  /** The blocks waiting, oldest first. */
  function Waiting<T>(ring: Ring<T>): seq<T>
    requires |ring.released| <= |ring.committed|
  {
    ring.committed[|ring.released|..]
  }

  /** The ring is a bounded queue: only a commit's count puts a block behind the others, the one in the producer's slot; only
      a release's count takes the first; only the end of Start empties it; no other step of any thread changes it. */
  lemma IsQueue<T>(s: State<T>, a: Action<T>, s': State<T>)
    requires Inv(s) && Step(s, a, s') && Allowed(s, a) && !Resetting(s.control)
    ensures |s.ring.released| <= |s.ring.committed| && |s'.ring.released| <= |s'.ring.committed|
    ensures |Waiting(s.ring)| == s.ring.available <= |s.ring.slots|
    ensures a == Turn(Producer) && s.producer.EndCount? ==>
              s.producer.slot < |s.ring.slots| && Waiting(s'.ring) == Waiting(s.ring) + [s.ring.slots[s.producer.slot]]
    ensures a == Turn(Consumer) && s.consumer.EndCount? ==>
              Waiting(s.ring) != [] && Waiting(s'.ring) == Waiting(s.ring)[1..]
    ensures !(a == Turn(Producer) && s.producer.EndCount?) && !(a == Turn(Consumer) && s.consumer.EndCount?) ==>
              Waiting(s'.ring) == Waiting(s.ring)
  {
    match a
    case Turn(side) => if !PcOf(s, side).EndCount? { TurnKeepsPositions(s, side); }
    case _ =>
  }

  // ---- what is written is what is committed, and what is found is what is released ----

  /** The producer has a block and v is in it. */
  ghost predicate Has<T>(s: State<T>, v: T) {
    HasSlot(s.producer) && s.producer.slot < |s.ring.slots| && s.ring.slots[s.producer.slot] == v
  }

  /** While the producer has a block, only its own writes change it. */
  lemma ProducersBlockIsStable<T>(s: State<T>, a: Action<T>, s': State<T>, v: T)
    requires Inv(s) && Step(s, a, s') && HasSlot(s.producer) && HasSlot(s'.producer)
    ensures a == Write(v) || (!a.Write? && Has(s, v)) ==> Has(s', v)
  {
    match a
    case Turn(side) => TurnLeavesSlots(s, side);
    case _ =>
  }

  lemma TurnLeavesSlots<T>(s: State<T>, side: Side)
    requires Sensible(s) && CanTurn(s, side)
    ensures var s' := AfterTurn(s, side);
            && s'.ring.slots == s.ring.slots
            && (HasSlot(s.producer) && HasSlot(s'.producer) ==> s'.producer.slot == s.producer.slot)
  {
  }

  /** The step of a run at k. */
  ghost predicate Steps<T>(s: State<T>, a: Action<T>, s': State<T>) {
    Inv(s) && Step(s, a, s') && Allowed(s, a)
  }

  lemma StepOf<T>(run: seq<State<T>>, actions: seq<Action<T>>, k: nat)
    requires IsRun(run, actions) && k < |actions|
    ensures Steps(run[k], actions[k], run[k + 1])
  {
    RunKeepsInv(run, actions, k);
    assert StepsAt(run, actions, k);
  }

  /** The producer has its block from state i to before state j and writes nothing into it after step i. */
  ghost predicate LastWrite<T>(run: seq<State<T>>, actions: seq<Action<T>>, i: nat, j: nat, v: T) {
    && i < j <= |actions| && actions[i] == Write(v)
    && (forall k | i <= k < j :: Kept(run, k, Producer))
    && (forall k | i < k < j :: !actions[k].Write?)
  }

  predicate Kept<T>(run: seq<State<T>>, k: nat, side: Side) {
    k < |run| && HasSlot(PcOf(run[k], side))
  }

  lemma {:induction false} WrittenStays<T>(run: seq<State<T>>, actions: seq<Action<T>>, i: nat, j: nat, v: T, k: nat)
    requires IsRun(run, actions) && LastWrite(run, actions, i, j, v) && i < k < j
    ensures Has(run[k], v)
    decreases k
  {
    StepOf(run, actions, k - 1);
    assert Kept(run, k - 1, Producer) && Kept(run, k, Producer);
    if k - 1 > i { WrittenStays(run, actions, i, j, v, k - 1); }
    ProducersBlockIsStable(run[k - 1], actions[k - 1], run[k], v);
  }

  /** A block given up is committed, refused by a stopped ring, or forgotten. */
  ghost predicate GivenUp<T>(s: State<T>, a: Action<T>, s': State<T>, v: T) {
    || (a == Forget(Producer) && s'.ring == s.ring)
    || (s.producer.EndBody? && s.ring.stopped && s'.ring == s.ring)
    || (s'.ring.committed == s.ring.committed + [v] && s'.ring.available == s.ring.available + 1)
  }

  lemma GivesUp<T>(s: State<T>, a: Action<T>, s': State<T>, v: T)
    requires Inv(s) && Step(s, a, s') && Has(s, v) && !HasSlot(s'.producer)
    ensures GivenUp(s, a, s', v)
  {
    if InEnd(s.producer) { CommitOutcome(s, a, s'); }
  }

  /** In every run, the value last written into a block is the value committed, unless the ring is stopped when the commit
      looks, or the producer's thread ends without a commit. */
  lemma WrittenIsCommitted<T>(run: seq<State<T>>, actions: seq<Action<T>>, i: nat, j: nat, v: T)
    requires IsRun(run, actions) && LastWrite(run, actions, i, j, v) && !Kept(run, j, Producer)
    ensures GivenUp(run[j - 1], actions[j - 1], run[j], v)
  {
    HeldAfterWrite(run, actions, i);
    StepOf(run, actions, j - 1);
    WrittenStays(run, actions, i, j, v, j - 1);
    GivesUp(run[j - 1], actions[j - 1], run[j], v);
  }

  lemma HeldAfterWrite<T>(run: seq<State<T>>, actions: seq<Action<T>>, i: nat)
    requires IsRun(run, actions) && i < |actions| && actions[i].Write?
    ensures Kept(run, i + 1, Producer)
  {
    assert StepsAt(run, actions, i);
  }

  /** The consumer has its block from state i + 1 to before state j. */
  ghost predicate Keeps<T>(run: seq<State<T>>, i: nat, j: nat) {
    forall k | i < k < j :: Kept(run, k, Consumer)
  }

  /** What the consumer found, and what has been released so far. */
  ghost predicate Record<T>(s: State<T>, found: T, released: seq<T>) {
    s.ring.found == Some(found) && s.ring.released == released
  }

  /** While the consumer has a block, what it found stays on record and nothing is released. */
  lemma FoundIsStable<T>(s: State<T>, a: Action<T>, s': State<T>, found: T, released: seq<T>)
    requires Inv(s) && Step(s, a, s') && Allowed(s, a) && HasSlot(s.consumer) && HasSlot(s'.consumer)
    requires Record(s, found, released)
    ensures Record(s', found, released)
  {
  }

  lemma {:induction false} FoundStays<T>(run: seq<State<T>>, actions: seq<Action<T>>, i: nat, j: nat, found: T,
                                         released: seq<T>, k: nat)
    requires IsRun(run, actions) && i + 1 <= k < j <= |actions| && Keeps(run, i, j)
    requires Record(run[i + 1], found, released)
    ensures Record(run[k], found, released)
    decreases k
  {
    if k > i + 1 {
      FoundStays(run, actions, i, j, found, released, k - 1);
      StepOf(run, actions, k - 1);
      assert Kept(run, k - 1, Consumer) && Kept(run, k, Consumer);
      FoundIsStable(run[k - 1], actions[k - 1], run[k], found, released);
    }
  }

  /** The oldest block waiting. */
  ghost predicate Oldest<T>(ring: Ring<T>, block: T) {
    |ring.released| < |ring.committed| && block == ring.committed[|ring.released|]
  }

  /** In every run, the block a consumer releases is the oldest one that was waiting when it acquired it, whatever was
      committed meanwhile; exactly that one leaves, unless the consumer's thread ends without a release. */
  lemma FoundIsReleased<T>(run: seq<State<T>>, actions: seq<Action<T>>, i: nat, j: nat) returns (oldest: T)
    requires IsRun(run, actions) && i + 1 < j <= |actions| && Keeps(run, i, j)
    requires !Kept(run, i, Consumer) && !Kept(run, j, Consumer)
    ensures Oldest(run[i].ring, oldest)
    ensures run[j].ring.released == run[i].ring.released + if actions[j - 1] == Forget(Consumer) then [] else [oldest]
  {
    StepOf(run, actions, i);
    StepOf(run, actions, j - 1);
    assert Kept(run, i + 1, Consumer) && Kept(run, j - 1, Consumer);
    oldest := Acquires(run[i], actions[i], run[i + 1]);
    FoundStays(run, actions, i, j, oldest, run[i].ring.released, j - 1);
    Releases(run[j - 1], actions[j - 1], run[j], oldest, run[i].ring.released);
  }

  lemma Acquires<T>(s: State<T>, a: Action<T>, s': State<T>) returns (oldest: T)
    requires Inv(s) && Step(s, a, s') && !HasSlot(s.consumer) && HasSlot(s'.consumer)
    ensures Oldest(s.ring, oldest) && Record(s', oldest, s.ring.released)
  {
    AcquireOutcome(s, a, s', Consumer);
    AcquireKeeps(s.ring, Position(s, Consumer), Position(s, Producer), Consumer);
    oldest := s.ring.committed[|s.ring.released|];
  }

  lemma Releases<T>(s: State<T>, a: Action<T>, s': State<T>, found: T, released: seq<T>)
    requires Inv(s) && Step(s, a, s') && HasSlot(s.consumer) && !HasSlot(s'.consumer) && Record(s, found, released)
    ensures s'.ring.released == released + if a == Forget(Consumer) then [] else [found]
  {
    if InEnd(s.consumer) { ReleaseOutcome(s, a, s'); }
  }
}
