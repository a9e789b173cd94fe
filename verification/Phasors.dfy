/** Rotating phasors: powers of a unit rotor, the stream every mixer must produce, and angles. */
module Phasors {
  import opened Complex

  /** r to the n: the rotation of n samples. */
  function Power(r: Cplx, n: nat): Cplx {
    if n == 0 then ONE else Power(r, n - 1).Mul(r)
  }

  lemma MulCommutes(x: Cplx, y: Cplx)
    ensures x.Mul(y) == y.Mul(x)
  {
  }

  lemma MulAssociates(x: Cplx, y: Cplx, z: Cplx)
    ensures x.Mul(y).Mul(z) == x.Mul(y.Mul(z))
  {
  }

  lemma MulOne(x: Cplx)
    ensures x.Mul(ONE) == x == ONE.Mul(x)
  {
  }

  /** The modulus is multiplicative, so rotations keep it. */
  lemma NormMul(x: Cplx, y: Cplx)
    ensures x.Mul(y).NormSq() == x.NormSq() * y.NormSq()
  {
  }

  lemma {:induction false} PowerAdd(r: Cplx, m: nat, n: nat)
    ensures Power(r, m + n) == Power(r, m).Mul(Power(r, n))
  {
    if n == 0 {
      MulOne(Power(r, m));
    } else {
      PowerAdd(r, m, n - 1);
      MulAssociates(Power(r, m), Power(r, n - 1), r);
    }
  }

  lemma {:induction false} PowerUnit(r: Cplx, n: nat)
    requires r.NormSq() == 1.0
    ensures Power(r, n).NormSq() == 1.0
  {
    if n > 0 {
      PowerUnit(r, n - 1);
      NormMul(Power(r, n - 1), r);
    }
  }

  /** The phasor that has turned n samples on from `start`. */
  function Turned(start: Cplx, r: Cplx, n: nat): Cplx {
    start.Mul(Power(r, n))
  }

  lemma TurnedZero(start: Cplx, r: Cplx)
    ensures Turned(start, r, 0) == start
  {
    MulOne(start);
  }

  lemma TurnedAgain(start: Cplx, r: Cplx, m: nat, n: nat)
    ensures Turned(Turned(start, r, m), r, n) == Turned(start, r, m + n)
    ensures Power(r, n).Mul(Turned(start, r, m)) == Turned(start, r, m + n)
  {
    PowerAdd(r, m, n);
    MulAssociates(start, Power(r, m), Power(r, n));
    MulCommutes(Power(r, n), Turned(start, r, m));
  }

  lemma TurnedUnit(start: Cplx, r: Cplx, n: nat)
    requires start.NormSq() == 1.0 && r.NormSq() == 1.0
    ensures Turned(start, r, n).NormSq() == 1.0
  {
    PowerUnit(r, n);
    NormMul(start, Power(r, n));
  }

  /** Sample n times the phasor that has turned n samples on. */
  function MixedAt(x: Cplx, start: Cplx, r: Cplx, n: nat): Cplx {
    x.Mul(Turned(start, r, n))
  }

  /** What every mixer must produce. */
  function Mixed(input: seq<Cplx>, start: Cplx, r: Cplx): (output: seq<Cplx>)
    ensures |output| == |input|
  {
    seq(|input|, n requires 0 <= n < |input| => MixedAt(input[n], start, r, n))
  }

  /** A stream can be cut anywhere, if the second part starts from the phasor the first part ends on. */
  lemma MixedSplit(a: seq<Cplx>, b: seq<Cplx>, start: Cplx, r: Cplx)
    ensures Mixed(a + b, start, r) == Mixed(a, start, r) + Mixed(b, Turned(start, r, |a|), r)
  {
    forall n | 0 <= n < |b| ensures Turned(start, r, |a| + n) == Turned(Turned(start, r, |a|), r, n) {
      TurnedAgain(start, r, |a|, n);
    }
  }

  /** The samples of a list of calls, one after the other. */
  function Joined(calls: seq<seq<Cplx>>): seq<Cplx> {
    if calls == [] then [] else calls[0] + Joined(calls[1..])
  }

  lemma {:induction false} JoinedSnoc(calls: seq<seq<Cplx>>, call: seq<Cplx>)
    ensures Joined(calls + [call]) == Joined(calls) + call
  {
    if calls == [] {
      assert calls + [call] == [call] && [call][1..] == [];
    } else {
      JoinedSnoc(calls[1..], call);
      assert (calls + [call])[1..] == calls[1..] + [call];
    }
  }

  /** The output of successive calls, each starting from the phasor its predecessor left. */
  function MixedCalls(calls: seq<seq<Cplx>>, start: Cplx, r: Cplx): seq<Cplx> {
    if calls == [] then []
    else Mixed(calls[0], start, r) + MixedCalls(calls[1..], Turned(start, r, |calls[0]|), r)
  }

  /** Any split of a stream into calls gives the output of one call. */
  lemma {:induction false} SplitsAreInvisible(calls: seq<seq<Cplx>>, start: Cplx, r: Cplx)
    ensures MixedCalls(calls, start, r) == Mixed(Joined(calls), start, r)
    decreases |calls|
  {
    if calls != [] {
      SplitsAreInvisible(calls[1..], Turned(start, r, |calls[0]|), r);
      MixedSplit(calls[0], Joined(calls[1..]), start, r);
    }
  }

  /** The library's functions of a real angle, known only by the laws in Lawful(). */
  datatype Trig = Trig(cos: real -> real, sin: real -> real, tan: real -> real, sqrt: real -> real, pi: real) {
    function At(angle: real): Cplx {
      Cplx(cos(angle), sin(angle))
    }

    /** Addition of angles is multiplication of phasors. */
    ghost predicate Adds(a: real, b: real) {
      At(a + b) == At(a).Mul(At(b))
    }

    ghost predicate OnCircle(a: real) {
      At(a).NormSq() == 1.0 && (cos(a) != 0.0 ==> tan(a) * cos(a) == sin(a))
    }

    ghost predicate Lawful() {
      && pi >= 3.0 && At(0.0) == ONE && At(2.0 * pi) == ONE && sqrt(1.0) == 1.0
      && (forall a: real, b: real :: Adds(a, b))
      && (forall a: real :: OnCircle(a))
    }

    /** Brings a phase into a range one turn wide: the phasor stays. */
    method WrapPhase(phase: real, low: real) returns (p: real)
      requires Lawful()
      ensures At(p) == At(phase) && low <= p <= low + 2.0 * pi
    {
      p := phase;
      while p > low + 2.0 * pi
        invariant At(p) == At(phase)
        decreases p - low
      {
        FullTurn(p - 2.0 * pi);
        p := p - 2.0 * pi;
      }
      while p < low
        invariant At(p) == At(phase) && p <= low + 2.0 * pi
        decreases low - p
      {
        FullTurn(p);
        p := p + 2.0 * pi;
      }
    }

    lemma FullTurn(a: real)
      requires Lawful()
      ensures At(a + 2.0 * pi) == At(a)
    {
      assert Adds(a, 2.0 * pi);
      MulOne(At(a));
    }

    /** n phase increments turn n samples on. */
    lemma {:induction false} Multiples(a: real, n: nat, total: real)
      requires Lawful() && total == n as real * a
      ensures At(total) == Power(At(a), n)
    {
      if n == 0 {
        assert total == 0.0;
      } else {
        var before := total - a;
        assert before == (n - 1) as real * a;
        Multiples(a, n - 1, before);
        assert Adds(before, a);
      }
    }

    /** A phase that has moved on by n increments. */
    lemma Onward(phase: real, increment: real, n: nat)
      requires Lawful()
      ensures At(phase + n as real * increment) == Turned(At(phase), At(increment), n)
    {
      Multiples(increment, n, n as real * increment);
      assert Adds(phase, n as real * increment);
    }

    /** In terms of angles: sample n of a mixed stream is input n turned by phase + n * increment. */
    lemma MixedTurns(input: seq<Cplx>, phase: real, increment: real, n: nat)
      requires Lawful() && n < |input|
      ensures var x, a := input[n], phase + n as real * increment;
              Mixed(input, At(phase), At(increment))[n] ==
              Cplx(x.re * cos(a) - x.im * sin(a), x.im * cos(a) + x.re * sin(a))
    {
      Onward(phase, increment, n);
    }
  }
}
