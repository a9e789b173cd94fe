/** When Start is safe: every interleaving of its four stores with two endpoints that run freely. */
module RingStart {
  import opened RingState
  import opened RingProtocol
  import opened RingRuns
  import opened RingTheorems

  /** Whatever happens during Start and after it, callers can rely on the ring. */
  ghost predicate StartIsSafe<T(!new)>(s: State<T>, patient: bool) {
    forall s' :: Leads(s, s', patient, true) ==> Safe(s')
  }

  /** Each endpoint is where its caller knows it to be: outside every call, or holding a block. */
  predicate BetweenCalls<T>(s: State<T>) {
    && s.control == Resting
    && (s.producer == Idle || s.producer.Hold?)
    && (s.consumer == Idle || s.consumer.Hold?)
  }

  /** Start is safe exactly when the consumer is outside every call, the producer outside or holding slot 0, and either the
      ring is stopped or the endpoints enter no acquire until Start returns. */
  lemma StartSafety<T(!new)>(s: State<T>, patient: bool)
    requires Inv(s) && BetweenCalls(s)
    ensures StartIsSafe(s, patient) <==> OutsideForStart(s) && (patient || s.ring.stopped)
  {
    if OutsideForStart(s) && (patient || s.ring.stopped) {
      forall s' | Leads(s, s', patient, true) ensures Safe(s') {
        var actions :| Reaches(s, actions, s', patient) && StartsOnce(actions);
        GoodStart(s, actions, s', patient);
        InvIsSafe(s');
      }
    } else {
      var s' := BadStart(s, patient);
    }
  }

  /** A start under these conditions keeps the invariant through every interleaving. */
  lemma {:induction false} GoodStart<T(!new)>(s: State<T>, actions: seq<Action<T>>, s': State<T>, patient: bool)
    requires Inv(s) && BetweenCalls(s) && OutsideForStart(s) && (patient || s.ring.stopped)
    requires Reaches(s, actions, s', patient) && StartsOnce(actions)
    ensures Inv(s') && (Starting(s'.control) ==> patient || s'.ring.stopped)
    decreases |actions|
  {
    var n := |actions| - 1;
    var a := actions[n];
    var mid: State<T> :| Reaches(s, actions[..n], mid, patient) && Move(mid, a, s', patient);
    if n == 0 {
      assert mid == s;
    } else {
      assert StartsOnce(actions[..n]);
      GoodStart(s, actions[..n], mid, patient);
    }
    StepKeepsInv(mid, a, s');
    StoppedWhileStarting(mid, a, s');
  }

  lemma StoppedWhileStarting<T>(s: State<T>, a: Action<T>, s': State<T>)
    requires Step(s, a, s')
    ensures Starting(s'.control) ==> s'.ring.stopped == s.ring.stopped && (Starting(s.control) || a == StartCall)
  {
  }

  // ---- the runs that go wrong ----

  lemma BadStart<T(!new)>(s: State<T>, patient: bool) returns (s': State<T>)
    requires Inv(s) && BetweenCalls(s) && !(OutsideForStart(s) && (patient || s.ring.stopped))
    ensures Leads(s, s', patient, true) && !Safe(s')
  {
    var t := s.(control := StartLock);
    Begin(s, patient);
    if OutsideForStart(s) {
      t := ConsumerGetsIn(s, t);
    }
    s' := t.(control := Resting, ring := Reset(t.ring));
    RunStart(s, t, patient, true);
  }

  /** While Start waits for the mutex of a running ring, the consumer acquires a block. */
  lemma ConsumerGetsIn<T(!new)>(s: State<T>, t: State<T>) returns (t': State<T>)
    requires Leads(s, t, false, true) && MayGetIn(t)
    ensures Leads(s, t', false, true)
    ensures Sensible(t') && t'.consumer.Hold? && t'.control == StartLock && t'.owner == Nobody
  {
    t' := MakeReady(s, t);
    AcquireBlock(s, t', Consumer, false, true);
    t' := Acquired(t', Consumer);
  }

  /** Start waits for the mutex of a running ring and both endpoints are free to go on. */
  predicate MayGetIn<T>(t: State<T>) {
    && Sensible(t) && OutsideForStart(t) && t.control == StartLock && t.owner == Nobody
    && !t.ring.stopped && t.ring.writeIndex < |t.ring.slots| && t.ring.readIndex < |t.ring.slots|
    && (t.producer == Hold(0) ==> t.ring.writeIndex == 0)
  }

  /** There is a block to read, the producer's if there was none. */
  lemma MakeReady<T(!new)>(s: State<T>, t: State<T>) returns (t': State<T>)
    requires Leads(s, t, false, true) && MayGetIn(t)
    ensures Leads(s, t', false, true) && Sensible(t') && OutsideForStart(t') && t'.control == StartLock
    ensures t'.owner == Nobody && !t'.ring.stopped && t'.ring.available > 0 && t'.ring.readIndex < |t'.ring.slots|
  {
    t' := t;
    if t.ring.available == 0 { t' := CommitOne(s, t, false, true); }
  }

  /** Start over a ring that is not stopped can end with both endpoints owning slot 0. */
  lemma BothCanOwnSlotZero<T(!new)>(s: State<T>) returns (s': State<T>)
    requires Inv(s) && BetweenCalls(s) && OutsideForStart(s) && !s.ring.stopped
    ensures Leads(s, s', false, true) && s'.producer == s'.consumer == Hold(0)
  {
    Begin(s, false);
    var t := MakeReady(s, s.(control := StartLock));
    t := ReadsTheNewIndex(s, t);
    FinishStart(s, t, false, true);
    s' := ProducerTakesZero(s, t.(control := Resting, owner := Nobody, ring := Reset(t.ring)));
  }

  lemma ProducerTakesZero<T(!new)>(s: State<T>, t: State<T>) returns (s': State<T>)
    requires Leads(s, t, false, true) && Sensible(t) && t.ring == Reset(t.ring)
    requires t.producer == Idle || t.producer == Hold(0)
    ensures Leads(s, s', false, true) && s' == t.(producer := Hold(0))
  {
    if t.producer == Idle { AcquireBlock(s, t, Producer, false, true); }
    s' := t.(producer := Hold(0));
  }

  /** The consumer finds a block, and fetches its index after Start has stored it. */
  lemma ReadsTheNewIndex<T(!new)>(s: State<T>, t: State<T>) returns (t': State<T>)
    requires Leads(s, t, false, true) && Sensible(t) && OutsideForStart(t) && t.control == StartLock
    requires t.owner == Nobody && !t.ring.stopped && t.ring.available > 0
    ensures Leads(s, t', false, true) && Sensible(t') && t'.control == StartWrite && t'.consumer == Hold(0)
    ensures t'.producer == t.producer && |t'.ring.slots| == |t.ring.slots|
  {
    var t1, t2, t3 := t.(consumer := Spin(0)), t.(consumer := Test(0)), t.(consumer := Fetch);
    Go(s, t, Call(Consumer), t1, false, true);
    Go(s, t1, Turn(Consumer), t2, false, true);
    Go(s, t2, Turn(Consumer), t3, false, true);
    var t4 := t3.(control := StartRead, owner := Controller);
    t' := ReadsZero(s, t3, t4);
  }

  lemma ReadsZero<T(!new)>(s: State<T>, t: State<T>, t4: State<T>) returns (t': State<T>)
    requires Leads(s, t, false, true) && Sensible(t) && t.control == StartLock && t.owner == Nobody
    requires t.consumer == Fetch && t4 == t.(control := StartRead, owner := Controller)
    ensures Leads(s, t', false, true) && Sensible(t') && t'.control == StartWrite && t'.consumer == Hold(0)
    ensures t'.producer == t.producer && |t'.ring.slots| == |t.ring.slots|
  {
    var t5 := t4.(control := StartWrite, ring := t.ring.(readIndex := 0));
    t' := AfterTurn(t5, Consumer);
    Go(s, t, ControlTurn, t4, false, true);
    Go(s, t4, ControlTurn, t5, false, true);
    Go(s, t5, Turn(Consumer), t', false, true);
  }

  // ---- a sleeping producer ----

  /** The producer sleeps on an empty running ring and the consumer has nothing to release. */
  predicate Stranded<T>(s: State<T>) {
    && s.producer == Asleep && s.control == Resting && !s.ring.stopped && s.ring.available == 0
    && !Claims(s.consumer) && s.consumer != Notify
  }

  /** Nothing but a Stop, another Start or a spurious wake-up ends that. */
  predicate Rescues<T>(a: Action<T>) {
    a == StopCall || a == StartCall || a == Spurious(Producer)
  }

  lemma {:induction false} StrandedForGood<T(!new)>(s: State<T>, actions: seq<Action<T>>, s': State<T>)
    requires Stranded(s) && Reaches(s, actions, s', false) && forall i | 0 <= i < |actions| :: !Rescues(actions[i])
    ensures Stranded(s')
    decreases |actions|
  {
    if actions != [] {
      var n := |actions| - 1;
      var mid: State<T> :| Reaches(s, actions[..n], mid, false) && Move(mid, actions[n], s', false);
      StrandedForGood(s, actions[..n], mid);
      StrandedStays(mid, actions[n], s');
    }
  }

  lemma StrandedStays<T>(s: State<T>, a: Action<T>, s': State<T>)
    requires Stranded(s) && Step(s, a, s') && !Rescues(a)
    ensures Stranded(s')
  {
  }

  /** Start strands every producer it finds asleep, if nothing else is under way. */
  lemma StartStrandsASleeper<T(!new)>(s: State<T>, t: State<T>) returns (s': State<T>)
    requires Leads(s, t, true, false) && Sensible(t) && t.producer == Asleep && t.consumer == Idle
    requires t.control == Resting && t.owner == Nobody
    ensures Leads(s, s', true, false) && Stranded(s') && |s'.ring.slots| == |t.ring.slots|
  {
    Go(s, t, StartCall, t.(control := StartLock), true, false);
    RunStart(s, t.(control := StartLock), true, false);
    s' := t.(ring := Reset(t.ring));
  }

  /** A fresh ring of any size can get there: the producer fills it, finds no room and falls asleep. */
  lemma StartStrandsTheProducer<T(!new)>(slots: seq<T>) returns (s: State<T>, s': State<T>)
    requires slots != []
    ensures Initial(s) && s.ring.slots == slots
    ensures Leads(s, s', true, false) && Stranded(s') && |s'.ring.slots| == |slots|
  {
    s := State(Ring(0, 0, 0, false, slots, [], [], None), Nobody, Idle, Idle, Resting);
    var t := FillsUp(s, |slots|);
    t := FallsAsleep(s, t);
    s' := StartStrandsASleeper(s, t);
  }

  /** After n blocks committed and none read. */
  lemma FillsUp<T(!new)>(s: State<T>, n: nat) returns (t: State<T>)
    requires Initial(s) && n <= |s.ring.slots|
    ensures Leads(s, t, true, false) && Quiescent(t) && !t.ring.stopped
    ensures t.ring.available == n && |t.ring.slots| == |s.ring.slots| && t.ring.writeIndex < |s.ring.slots|
  {
    if n == 0 {
      NoMove(s, true);
      t := s;
    } else {
      t := FillsUp(s, n - 1);
      t := CommitOne(s, t, true, false);
    }
  }

  lemma FallsAsleep<T(!new)>(s: State<T>, t: State<T>) returns (t': State<T>)
    requires Leads(s, t, true, false) && t.producer == t.consumer == Idle && t.control == Resting && t.owner == Nobody
    requires 0 < |t.ring.slots| == t.ring.available && !t.ring.stopped
    ensures Leads(s, t', true, false) && t' == t.(producer := Asleep)
  {
    Go(s, t, Call(Producer), t.(producer := Spin(0)), true, false);
    Spins(s, t, SPIN_COUNT);
    var t1, t2 := t.(producer := Lock), t.(producer := Check, owner := Endpoint(Producer));
    Go(s, t.(producer := Spin(SPIN_COUNT)), Turn(Producer), t1, true, false);
    Go(s, t1, Turn(Producer), t2, true, false);
    t' := t.(producer := Asleep);
    Go(s, t2, Turn(Producer), t', true, false);
  }

  /** n rounds of the spin. */
  lemma Spins<T(!new)>(s: State<T>, t: State<T>, n: nat)
    requires Spinning(s, t, 0) && n <= SPIN_COUNT
    ensures Spinning(s, t, n)
  {
    for i := 0 to n
      invariant Spinning(s, t, i)
    {
      SpinsOnce(s, t, i);
    }
  }

  /** The ring is full and the producer has spun i times. */
  ghost predicate Spinning<T(!new)>(s: State<T>, t: State<T>, i: nat) {
    && Leads(s, t.(producer := Spin(i)), true, false)
    && t.consumer == Idle && 0 < |t.ring.slots| == t.ring.available && !t.ring.stopped
  }

  lemma SpinsOnce<T(!new)>(s: State<T>, t: State<T>, i: nat)
    requires Spinning(s, t, i) && i < SPIN_COUNT
    ensures Spinning(s, t, i + 1)
  {
    Go(s, t.(producer := Spin(i)), Turn(Producer), t.(producer := Test(i)), true, false);
    Go(s, t.(producer := Test(i)), Turn(Producer), t.(producer := Spin(i + 1)), true, false);
  }
}
