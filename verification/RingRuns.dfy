/** Runs of the ring step by step, whatever its callers do, and the stretches they are put together from. */
module RingRuns {
  import opened RingState
  import opened RingProtocol

  /** `actions` lead from s to s' in the code itself, whatever its callers do. When `patient`, no acquire is entered while
      Start runs. */
  ghost predicate Reaches<T(!new)>(s: State<T>, actions: seq<Action<T>>, s': State<T>, patient: bool)
    decreases |actions|
  {
    if actions == [] then s' == s
    else
      var n := |actions| - 1;
      exists mid: State<T> :: Reaches(s, actions[..n], mid, patient) && Move(mid, actions[n], s', patient)
  }

  ghost predicate Move<T>(s: State<T>, a: Action<T>, s': State<T>, patient: bool) {
    Step(s, a, s') && (patient && a.Call? ==> !Starting(s.control))
  }

  lemma Extend<T(!new)>(s: State<T>, actions: seq<Action<T>>, mid: State<T>, a: Action<T>, s': State<T>, patient: bool)
    requires Reaches(s, actions, mid, patient) && Move(mid, a, s', patient)
    ensures Reaches(s, actions + [a], s', patient)
  {
    assert (actions + [a])[..|actions|] == actions;
  }

  /** One call of Start, then anything but another. */
  ghost predicate StartsOnce<T>(actions: seq<Action<T>>) {
    actions != [] && actions[0] == StartCall && forall i | 1 <= i < |actions| :: actions[i] != StartCall
  }

  /** Some interleaving leads from s to s'; when `started`, it begins with the only call of Start in it. */
  ghost predicate Leads<T(!new)>(s: State<T>, s': State<T>, patient: bool, started: bool) {
    exists actions :: Reaches(s, actions, s', patient) && (started ==> StartsOnce(actions))
  }

  lemma Begin<T(!new)>(s: State<T>, patient: bool)
    requires s.control == Resting && Sensible(s)
    ensures Leads(s, s.(control := StartLock), patient, true)
  {
    var nothing: seq<Action<T>> := [];
    var one: seq<Action<T>> := [StartCall];
    assert nothing + one == one;
    Extend(s, nothing, s, StartCall, s.(control := StartLock), patient);
    assert Reaches(s, one, s.(control := StartLock), patient) && StartsOnce(one);
  }

  lemma NoMove<T(!new)>(s: State<T>, patient: bool)
    ensures Leads(s, s, patient, false)
  {
    var nothing: seq<Action<T>> := [];
    assert Reaches(s, nothing, s, patient);
  }

  /** One more move of the run. */
  lemma Go<T(!new)>(s: State<T>, t: State<T>, a: Action<T>, t': State<T>, patient: bool, started: bool)
    requires Leads(s, t, patient, started) && Move(t, a, t', patient) && (started ==> a != StartCall)
    ensures Leads(s, t', patient, started)
  {
    var actions :| Reaches(s, actions, t, patient) && (started ==> StartsOnce(actions));
    Extend(s, actions, t, a, t', patient);
    assert started ==> StartsOnce(actions + [a]);
  }

  /** Start runs to its end by itself. */
  lemma RunStart<T(!new)>(s: State<T>, t: State<T>, patient: bool, started: bool)
    requires Leads(s, t, patient, started)
    requires t.control == StartLock && t.owner == Nobody && Sensible(t) && !t.consumer.EndCount?
    ensures Leads(s, t.(control := Resting, ring := Reset(t.ring)), patient, started)
  {
    var t1 := t.(control := StartRead, owner := Controller);
    var t2 := t1.(control := StartWrite, ring := t1.ring.(readIndex := 0));
    Go(s, t, ControlTurn, t1, patient, started);
    Go(s, t1, ControlTurn, t2, patient, started);
    FinishStart(s, t2, patient, started);
  }

  lemma FinishStart<T(!new)>(s: State<T>, t: State<T>, patient: bool, started: bool)
    requires Leads(s, t, patient, started) && t.control == StartWrite && Sensible(t) && !t.consumer.EndCount?
    ensures Leads(s, t.(control := Resting, owner := Nobody, ring := Reset(t.ring)), patient, started)
  {
    var t3 := t.(control := StartCount, ring := t.ring.(writeIndex := 0));
    Go(s, t, ControlTurn, t3, patient, started);
    OpenRing(s, t3, patient, started);
  }

  lemma OpenRing<T(!new)>(s: State<T>, t: State<T>, patient: bool, started: bool)
    requires Leads(s, t, patient, started) && t.control == StartCount && Sensible(t) && !t.consumer.EndCount?
    ensures Leads(s, t.(control := Resting, owner := Nobody, ring := Reset(t.ring)), patient, started)
  {
    var t4 := t.(control := StartOpen, ring := t.ring.(available := 0));
    Go(s, t, ControlTurn, t4, patient, started);
    Go(s, t4, ControlTurn, t.(control := Resting, owner := Nobody, ring := Reset(t.ring)), patient, started);
  }

  /** An endpoint that has acquired a block. */
  function Acquired<T>(t: State<T>, side: Side): State<T> {
    WithPc(t, side, Hold(Index(t.ring, side))).(ring := Acquire(t.ring, side))
  }

  /** An endpoint outside every call acquires a block on the lock-free path. */
  lemma AcquireBlock<T(!new)>(s: State<T>, t: State<T>, side: Side, patient: bool, started: bool)
    requires Leads(s, t, patient, started) && (patient ==> !Starting(t.control))
    requires Sensible(t) && PcOf(t, side) == Idle && !t.ring.stopped && Ready(t.ring, side)
    ensures Leads(s, Acquired(t, side), patient, started)
  {
    var t1, t2, t3 := WithPc(t, side, Spin(0)), WithPc(t, side, Test(0)), WithPc(t, side, Fetch);
    Go(s, t, Call(side), t1, patient, started);
    Go(s, t1, Turn(side), t2, patient, started);
    Go(s, t2, Turn(side), t3, patient, started);
    Go(s, t3, Turn(side), Acquired(t, side), patient, started);
  }

  /** The mutex is free, the other endpoint is between calls, and a block of this one's may be counted in or out. */
  predicate MayEnd<T>(t: State<T>, side: Side) {
    && Sensible(t) && PcOf(t, Other(side)) == Idle && t.owner == Nobody && !t.ring.stopped
    && Index(t.ring, side) < |t.ring.slots| && Ready(t.ring, side)
  }

  /** An endpoint that has committed or released its block. */
  function Ended<T>(t: State<T>, side: Side): State<T>
    requires MayEnd(t, side)
  {
    WithPc(t, side, Idle).(ring := Count(Advance(t.ring, side), side, Index(t.ring, side)))
  }

  /** An endpoint that holds its block commits or releases it. */
  lemma EndBlock<T(!new)>(s: State<T>, t: State<T>, side: Side, patient: bool, started: bool)
    requires Leads(s, t, patient, started) && MayEnd(t, side) && PcOf(t, side) == Hold(Index(t.ring, side))
    ensures Leads(s, Ended(t, side), patient, started)
  {
    var slot := Index(t.ring, side);
    var t1 := WithPc(t, side, EndLock(slot));
    var t2 := WithPc(t, side, EndBody(slot)).(owner := Endpoint(side));
    Go(s, t, Finish(side), t1, patient, started);
    Go(s, t1, Turn(side), t2, patient, started);
    EndInMutex(s, t2, side, patient, started);
  }

  lemma EndInMutex<T(!new)>(s: State<T>, t: State<T>, side: Side, patient: bool, started: bool)
    requires Leads(s, t, patient, started) && Sensible(t) && PcOf(t, Other(side)) == Idle && !t.ring.stopped
    requires PcOf(t, side) == EndBody(Index(t.ring, side)) && (side == Consumer ==> t.ring.available > 0)
    ensures Leads(s, WithPc(t, side, Idle).(ring := Count(Advance(t.ring, side), side, Index(t.ring, side)), owner := Nobody),
                  patient, started)
  {
    var slot := Index(t.ring, side);
    var t3 := WithPc(t, side, EndCount(slot)).(ring := Advance(t.ring, side));
    var t4 := WithPc(t, side, Notify).(ring := Count(t3.ring, side, slot), owner := Nobody);
    Go(s, t, Turn(side), t3, patient, started);
    Go(s, t3, Turn(side), t4, patient, started);
    Go(s, t4, Turn(side), WithPc(t4, side, Idle), patient, started);
  }

  /** One block more behind the others, the one the producer had, and everything else as it was. */
  ghost predicate OneMoreIn<T>(t: State<T>, t': State<T>)
    requires t.ring.writeIndex < |t.ring.slots|
  {
    && t'.producer == t'.consumer == Idle && t'.control == t.control && t'.owner == Nobody
    && t'.ring == t.ring.(available := t.ring.available + 1, writeIndex := (t.ring.writeIndex + 1) % |t.ring.slots|,
                          committed := t.ring.committed + [t.ring.slots[t.ring.writeIndex]])
  }

  /** A producer outside every call, or holding its slot, commits a block. */
  lemma CommitOne<T(!new)>(s: State<T>, t: State<T>, patient: bool, started: bool) returns (t': State<T>)
    requires Leads(s, t, patient, started) && MayEnd(t, Producer) && (patient ==> !Starting(t.control))
    requires t.producer == Idle || t.producer == Hold(t.ring.writeIndex)
    ensures Leads(s, t', patient, started) && OneMoreIn(t, t')
  {
    var t0 := WithPc(t, Producer, Hold(t.ring.writeIndex));
    if t.producer == Idle { AcquireBlock(s, t, Producer, patient, started); }
    PutsOne(t, t0);
    EndBlock(s, t0, Producer, patient, started);
    t' := Ended(t0, Producer);
  }

  lemma PutsOne<T>(t: State<T>, t0: State<T>)
    requires MayEnd(t, Producer) && t0 == t.(producer := Hold(t.ring.writeIndex))
    ensures MayEnd(t0, Producer) && OneMoreIn(t, Ended(t0, Producer))
  {
  }

  /** The oldest block gone, and everything else as it was. */
  ghost predicate OneLessIn<T>(t: State<T>, t': State<T>)
    requires t.ring.readIndex < |t.ring.slots| && t.ring.available > 0
  {
    && t'.producer == t'.consumer == Idle && t'.control == t.control && t'.owner == Nobody
    && t'.ring == t.ring.(available := t.ring.available - 1, readIndex := (t.ring.readIndex + 1) % |t.ring.slots|,
                          released := t.ring.released + [t.ring.slots[t.ring.readIndex]])
  }

  /** A consumer outside every call takes a block that nobody has changed since it was committed, and releases it. */
  lemma ReleaseOne<T(!new)>(s: State<T>, t: State<T>, patient: bool, started: bool) returns (t': State<T>)
    requires Leads(s, t, patient, started) && MayEnd(t, Consumer) && (patient ==> !Starting(t.control))
    requires t.consumer == Idle && t.ring.found == None
    ensures Leads(s, t', patient, started) && OneLessIn(t, t')
  {
    AcquireBlock(s, t, Consumer, patient, started);
    TakesOne(t);
    EndBlock(s, Acquired(t, Consumer), Consumer, patient, started);
    t' := Ended(Acquired(t, Consumer), Consumer);
  }

  lemma TakesOne<T>(t: State<T>)
    requires MayEnd(t, Consumer) && t.consumer == Idle && t.ring.found == None
    ensures MayEnd(Acquired(t, Consumer), Consumer) && OneLessIn(t, Ended(Acquired(t, Consumer), Consumer))
  {
  }

  /** A ring between blocks: all that was committed has been released. */
  ghost predicate Drained<T>(t: State<T>, passed: seq<T>) {
    && |t.ring.slots| > 0 && Quiescent(t) && !t.ring.stopped && t.ring.available == 0 && t.ring.found == None
    && t.ring.readIndex == t.ring.writeIndex < |t.ring.slots| && t.ring.committed == t.ring.released == passed
  }

  /** The producer takes a block and writes v into it. */
  lemma WriteOne<T(!new)>(s: State<T>, t: State<T>, v: T, patient: bool, started: bool) returns (t': State<T>)
    requires Leads(s, t, patient, started) && MayEnd(t, Producer) && t.producer == Idle && (patient ==> !Starting(t.control))
    ensures t' == Written(t, v) && Leads(s, t', patient, started)
  {
    AcquireBlock(s, t, Producer, patient, started);
    t' := Written(t, v);
    Go(s, WithPc(t, Producer, Hold(t.ring.writeIndex)), Write(v), t', patient, started);
  }

  /** The producer has its block and v is in it. */
  function Written<T>(t: State<T>, v: T): State<T>
    requires t.ring.writeIndex < |t.ring.slots|
  {
    t.(producer := Hold(t.ring.writeIndex), ring := t.ring.(slots := t.ring.slots[t.ring.writeIndex := v]))
  }

  lemma MayFill<T>(t: State<T>, passed: seq<T>, v: T)
    requires Drained(t, passed)
    ensures MayEnd(t, Producer) && t.producer == Idle && MayEnd(Written(t, v), Producer) && t.control == Resting
  {
  }

  lemma MayDrain<T>(t: State<T>, passed: seq<T>, v: T, t': State<T>)
    requires Drained(t, passed) && OneMoreIn(Written(t, v), t')
    ensures MayEnd(t', Consumer) && t'.consumer == Idle && t'.ring.found == None && t'.control == Resting
  {
  }

  lemma Passed<T>(t: State<T>, passed: seq<T>, v: T, t1: State<T>, t': State<T>)
    requires Drained(t, passed) && OneMoreIn(Written(t, v), t1) && t1.ring.readIndex < |t1.ring.slots|
    requires OneLessIn(t1, t')
    ensures Drained(t', passed + [v]) && |t'.ring.slots| == |t.ring.slots|
  {
  }

  /** One value goes through a drained ring. */
  lemma PassOne<T(!new)>(s: State<T>, t: State<T>, passed: seq<T>, v: T, patient: bool, started: bool) returns (t': State<T>)
    requires Leads(s, t, patient, started) && Drained(t, passed)
    ensures Leads(s, t', patient, started) && Drained(t', passed + [v]) && |t'.ring.slots| == |t.ring.slots|
  {
    MayFill(t, passed, v);
    var t0 := WriteOne(s, t, v, patient, started);
    var t1 := CommitOne(s, t0, patient, started);
    MayDrain(t, passed, v, t1);
    t' := ReleaseOne(s, t1, patient, started);
    Passed(t, passed, v, t1, t');
  }

  /** Calls do take effect: any sequence of values can be written, committed, read and released, in order, through a fresh
      ring of any size. */
  lemma {:induction false} AnySequencePasses<T(!new)>(s: State<T>, values: seq<T>) returns (t: State<T>)
    requires Initial(s)
    ensures Leads(s, t, true, false) && Quiescent(t) && t.ring.committed == t.ring.released == values
    ensures Drained(t, values)
    decreases |values|
  {
    if values == [] {
      NoMove(s, true);
      t := s;
    } else {
      var n := |values| - 1;
      t := AnySequencePasses(s, values[..n]);
      t := PassOne(s, t, values[..n], values[n], true, false);
      assert values[..n] + [values[n]] == values;
    }
  }
}
