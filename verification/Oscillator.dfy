/** The recursive quadrature oscillator: three multiply-adds per step that are an exact rotation, run in eight lanes. */
module Oscillator {
  import opened Complex
  import opened Phasors
  import Mixer

  /** a - k b. */
  function MulSub(a: real, k: real, b: real): real {
    a - k * b
  }

  /** a + k b. */
  function MulAdd(a: real, k: real, b: real): real {
    a + k * b
  }

  /** The three-line update of one lane. */
  function Step(z: Cplx, k1: real, k2: real): Cplx {
    var tmp := MulSub(z.re, k1, z.im);
    var v := MulAdd(z.im, k2, tmp);
    Cplx(MulSub(tmp, k1, v), v)
  }

  /** The rotation the update stands for. */
  function Rotor(k1: real, k2: real): Cplx {
    Cplx(1.0 - k1 * k2, k2)
  }

  /** The relation between the constants that update_rate establishes. */
  ghost predicate Exact(k1: real, k2: real) {
    k2 * (1.0 + k1 * k1) == 2.0 * k1
  }

  /** The update rotates every phasor exactly when k2 (1 + k1^2) = 2 k1. */
  lemma StepIsRotation(k1: real, k2: real)
    ensures (forall z: Cplx :: Step(z, k1, k2) == z.Mul(Rotor(k1, k2))) <==> k2 * (1.0 + k1 * k1) == 2.0 * k1
  {
    if Exact(k1, k2) {
      forall z: Cplx ensures Step(z, k1, k2) == z.Mul(Rotor(k1, k2)) {
        OneStep(z, k1, k2);
      }
    } else {
      var i := Cplx(0.0, 1.0);
      assert Step(i, k1, k2).re == k1 * k1 * k2 - 2.0 * k1;
      assert i.Mul(Rotor(k1, k2)).re == -k2;
    }
  }

  lemma OneStep(z: Cplx, k1: real, k2: real)
    requires Exact(k1, k2)
    ensures Step(z, k1, k2) == z.Mul(Rotor(k1, k2))
  {
    var p, c := k1 * k2, k1 * (k1 * k2);
    assert c + k2 == 2.0 * k1 by { assert k2 * (1.0 + k1 * k1) == k2 + c; }
    StepParts(z.re, z.im, k1, k2, p, c);
  }

  /** Both parts of a step, with the products named. */
  lemma StepParts(u: real, v: real, k1: real, k2: real, p: real, c: real)
    requires p == k1 * k2 && c == k1 * p && c + k2 == 2.0 * k1
    ensures var tmp := u - k1 * v;
            var v' := v + k2 * tmp;
            v' == v * (1.0 - p) + u * k2 && tmp - k1 * v' == u * (1.0 - p) - v * k2
  {
    var tmp := u - k1 * v;
    assert k2 * tmp == k2 * u - p * v;
    assert k1 * (v * (1.0 - p) + u * k2) == k1 * v - c * v + p * u;
    assert (2.0 * k1 - c) * v == k2 * v;
  }

  /** That rotation is a unit one, so u^2 + v^2 never changes. */
  lemma RotorIsUnit(k1: real, k2: real)
    requires Exact(k1, k2)
    ensures Rotor(k1, k2).NormSq() == 1.0
  {
    var p := k1 * k2;
    assert p * p + k2 * k2 == k2 * (k2 * (1.0 + k1 * k1));
    assert k2 * (2.0 * k1) == 2.0 * p;
    assert (1.0 - p) * (1.0 - p) == 1.0 - 2.0 * p + p * p;
  }

  /** n steps from a phasor. */
  function Steps(z: Cplx, k1: real, k2: real, n: nat): Cplx {
    if n == 0 then z else Step(Steps(z, k1, k2, n - 1), k1, k2)
  }

  /** Over any number of steps the oscillator is the n-fold rotation and keeps its amplitude. */
  lemma {:induction false} StepsRotate(z: Cplx, k1: real, k2: real, n: nat)
    requires Exact(k1, k2)
    ensures Steps(z, k1, k2, n) == Turned(z, Rotor(k1, k2), n)
    ensures Steps(z, k1, k2, n).NormSq() == z.NormSq()
  {
    var r := Rotor(k1, k2);
    if n == 0 {
      TurnedZero(z, r);
    } else {
      StepsRotate(z, k1, k2, n - 1);
      OneStep(Steps(z, k1, k2, n - 1), k1, k2);
      Mixer.OneStep(z, r, n - 1);
      RotorIsUnit(k1, k2);
      NormMul(Steps(z, k1, k2, n - 1), r);
    }
  }

  /** The constants from half the angle give the rotation by the angle; the tangent exists unless that is half a turn. */
  lemma HalfAngle(t: Trig, angle: real, k1: real, k2: real)
    requires t.Lawful() && t.cos(angle) != -1.0
    requires k1 == t.tan(0.5 * angle) && k2 == 2.0 * k1 / (1.0 + k1 * k1)
    ensures Exact(k1, k2) && Rotor(k1, k2) == t.At(angle)
  {
    var h := 0.5 * angle;
    assert t.Adds(h, h) && h + h == angle;
    assert t.OnCircle(h);
    HalfTangent(t.cos(h), t.sin(h), k1, k2, t.At(angle));
  }

  lemma HalfTangent(c: real, s: real, k1: real, k2: real, full: Cplx)
    requires c * c + s * s == 1.0 && full == Cplx(c, s).Mul(Cplx(c, s)) && full.re != -1.0
    requires (c != 0.0 ==> k1 * c == s) && Exact(k1, k2)
    ensures Rotor(k1, k2) == full
  {
    assert c != 0.0;
    assert c * c * (1.0 + k1 * k1) == 1.0 by {
      assert k1 * c * (k1 * c) == s * s;
    }
    assert k2 == 2.0 * s * c by {
      assert k2 == k2 * (c * c * (1.0 + k1 * k1)) == (k2 * (1.0 + k1 * k1)) * (c * c) == 2.0 * k1 * (c * c);
      assert k1 * (c * c) == s * c;
    }
    assert k1 * k2 == 2.0 * s * s by {
      assert k1 * (2.0 * s * c) == 2.0 * s * (k1 * c);
    }
  }

  /** The constants for one phase increment. */
  method Constants(t: Trig, increment: real) returns (k1: real, k2: real)
    requires t.Lawful() && t.cos(increment) != -1.0
    ensures Exact(k1, k2) && Rotor(k1, k2) == t.At(increment)
  {
    k1 := t.tan(0.5 * increment);
    k2 := 2.0 * k1 / (1.0 + k1 * k1);
    HalfAngle(t, increment, k1, k2);
  }

  /** The constants for as many steps as there are lanes. */
  method BlockConstants(t: Trig, small: real, lanes: nat) returns (k1: real, k2: real)
    requires t.Lawful() && lanes == 8 && t.cos(8.0 * small) != -1.0
    ensures Exact(k1, k2) && Rotor(k1, k2) == Power(t.At(small), lanes)
  {
    var large := small * 8.0;
    t.Multiples(small, lanes, large);
    assert t.At(large) == t.At(8.0 * small);
    large := t.WrapPhase(large, -t.pi);
    k1, k2 := Constants(t, large);
  }

  /** Lane j of the eight. */
  function Lane(u: seq<real>, v: seq<real>, j: nat): Cplx
    requires j < |u| == |v|
  {
    Cplx(u[j], v[j])
  }

  /** The first m lanes stand at successive samples from n on. */
  ghost predicate Lanes(u: seq<real>, v: seq<real>, m: nat, start: Cplx, r: Cplx, n: nat) {
    m <= |u| == |v| && forall j | 0 <= j < m :: Lane(u, v, j) == Turned(start, r, n + j)
  }

  /** When every lane is turned by as many steps as there are lanes, the lanes stand that many samples on. */
  lemma AllOn(u: seq<real>, v: seq<real>, u': seq<real>, v': seq<real>, lanes: nat, start: Cplx, r: Cplx, n: nat)
    requires Lanes(u, v, lanes, start, r, n) && |u| == |u'| == |v'| == lanes
    requires forall j | 0 <= j < lanes :: Lane(u', v', j) == Lane(u, v, j).Mul(Power(r, lanes))
    ensures Lanes(u', v', lanes, start, r, n + lanes)
  {
    forall j | 0 <= j < lanes ensures Lane(u', v', j) == Turned(start, r, n + lanes + j) {
      TurnedAgain(start, r, n + j, lanes);
      assert Lane(u', v', j) == Lane(u, v, j).Mul(Power(r, lanes));
    }
  }

  /** One lane's update, as the three loops make it. */
  lemma LaneStepped(u: seq<real>, v: seq<real>, u': seq<real>, v': seq<real>, tmp: seq<real>, k1: real, k2: real, j: nat)
    requires |u| == |v| == |u'| == |v'| == |tmp| && j < |u| && Exact(k1, k2)
    requires tmp[j] == MulSub(u[j], k1, v[j]) && v'[j] == MulAdd(v[j], k2, tmp[j]) && u'[j] == MulSub(tmp[j], k1, v'[j])
    ensures Lane(u', v', j) == Lane(u, v, j).Mul(Rotor(k1, k2))
  {
    OneStep(Lane(u, v, j), k1, k2);
  }

  /** The lanes at sample n are those of an oscillator that starts from the phasor of sample n. */
  lemma FromHere(u: seq<real>, v: seq<real>, start: Cplx, r: Cplx, n: nat)
    requires Lanes(u, v, |u|, start, r, n) && u != []
    ensures Lane(u, v, 0) == Turned(start, r, n) && Lanes(u, v, |u|, Lane(u, v, 0), r, 0)
  {
    assert Lane(u, v, 0) == Turned(start, r, n + 0);
    forall j | 0 <= j < |u| ensures Lane(u, v, j) == Turned(Turned(start, r, n), r, 0 + j) {
      TurnedAgain(start, r, n, j);
    }
  }

  lemma OneMoreLane(u: seq<real>, v: seq<real>, u': seq<real>, v': seq<real>, j: nat, start: Cplx, k1: real, k2: real)
    requires Exact(k1, k2) && 1 <= j < |u| == |v| == |u'| == |v'|
    requires Lanes(u, v, j, start, Rotor(k1, k2), 0)
    requires u' == u[j := u'[j]] && v' == v[j := v'[j]] && Lane(u', v', j) == Step(Lane(u, v, j - 1), k1, k2)
    ensures Lanes(u', v', j + 1, start, Rotor(k1, k2), 0)
  {
    var r := Rotor(k1, k2);
    OneStep(Lane(u, v, j - 1), k1, k2);
    Mixer.OneStep(start, r, j - 1);
    forall i | 0 <= i < j + 1 ensures Lane(u', v', i) == Turned(start, r, 0 + i) {
      assert i < j ==> Lane(u', v', i) == Lane(u, v, i);
    }
  }

  class Oscillator {
    const u: array<real>
    const v: array<real>
    var k1: real
    var k2: real
    ghost var rotor: Cplx       // one sample's rotation

    /** The phasor of the next sample. */
    function Phase(): Cplx
      requires u.Length == v.Length == 8
      reads this, u, v
    {
      Cplx(u[0], v[0])
    }

    /** The constants stand for as many steps as there are lanes. */
    ghost predicate Tuned()
      reads this
    {
      Exact(k1, k2) && Rotor(k1, k2) == Power(rotor, u.Length)
    }

    ghost predicate Valid()
      reads this, u, v
    {
      u.Length == v.Length == 8 && u != v && Tuned() && Lanes(u[..], v[..], 8, Phase(), rotor, 0)
    }

    /** Lane j becomes one step on from its predecessor. */
    method NextLane(j: nat, k1: real, k2: real)
      requires u.Length == v.Length == 8 && u != v && 1 <= j < 8
      modifies u, v
      ensures Lane(u[..], v[..], j) == Step(old(Lane(u[..], v[..], j - 1)), k1, k2)
      ensures u[..] == old(u[..])[j := u[j]] && v[..] == old(v[..])[j := v[j]]
    {
      u[j] := u[j - 1];
      v[j] := v[j - 1];
      var tmp := MulSub(u[j], k1, v[j]);
      v[j] := MulAdd(v[j], k2, tmp);
      u[j] := MulSub(tmp, k1, v[j]);
    }

    /** The loop of shift_recursive_osc_update_rate. */
    method SpaceLanes(k1: real, k2: real)
      requires u.Length == v.Length == 8 && u != v && Exact(k1, k2)
      modifies u, v
      ensures Phase() == old(Phase()) && Lanes(u[..], v[..], 8, Phase(), Rotor(k1, k2), 0)
    {
      ghost var start, r := Phase(), Rotor(k1, k2);
      TurnedZero(start, r);
      for j := 1 to 8
        invariant Phase() == start && Lanes(u[..], v[..], j, start, r, 0)
      {
        ghost var u0, v0 := u[..], v[..];
        NextLane(j, k1, k2);
        OneMoreLane(u0, v0, u[..], v[..], j, start, k1, k2);
      }
    }

    /** shift_recursive_osc_update_rate: a step is rate * pi, and the constants are those of eight steps. The rates
        excluded are those where a half step or a half block is a quarter turn, whose tangent does not exist. */
    method UpdateRate(t: Trig, rate: real)
      requires t.Lawful() && u.Length == v.Length == 8 && u != v
      requires t.cos(rate * t.pi) != -1.0 && t.cos(8.0 * (rate * t.pi)) != -1.0
      modifies this`k1, this`k2, this`rotor, u, v
      ensures Valid() && rotor == t.At(rate * t.pi) && Phase() == old(Phase())
    {
      TuneLanes(t, rate * t.pi);
      TuneBlock(t, rate * t.pi);
    }

    /** The single step. */
    method TuneLanes(t: Trig, increment: real)
      requires t.Lawful() && u.Length == v.Length == 8 && u != v && t.cos(increment) != -1.0
      modifies this`rotor, u, v
      ensures rotor == t.At(increment) && Phase() == old(Phase()) && Lanes(u[..], v[..], 8, Phase(), rotor, 0)
    {
      var s1, s2 := Constants(t, increment);
      SpaceLanes(s1, s2);
      rotor := t.At(increment);
    }

    /** The step of a whole block. */
    method TuneBlock(t: Trig, increment: real)
      requires t.Lawful() && u.Length == 8 && rotor == t.At(increment) && t.cos(8.0 * increment) != -1.0
      modifies this`k1, this`k2
      ensures Tuned()
    {
      k1, k2 := BlockConstants(t, increment, u.Length);
    }

    /** shift_recursive_osc_init. */
    constructor (t: Trig, rate: real, startingPhase: real)
      requires t.Lawful()
      requires t.cos(rate * t.pi) != -1.0 && t.cos(8.0 * (rate * t.pi)) != -1.0
      ensures Valid() && rotor == t.At(rate * t.pi) && Phase() == t.At(startingPhase) && fresh(u) && fresh(v)
    {
      u := new real[8];
      v := new real[8];
      new;
      if startingPhase != 0.0 {
        u[0] := t.cos(startingPhase);
        v[0] := t.sin(startingPhase);
      } else {
        u[0] := 1.0;
        v[0] := 0.0;
      }
      UpdateRate(t, rate);
    }

    /** The end of each loop body: every lane is stepped by the block constants. */
    method StepLanes()
      requires u.Length == v.Length == 8 && u != v && Tuned()
      modifies u, v
      ensures forall j | 0 <= j < 8 :: Lane(u[..], v[..], j) == old(Lane(u[..], v[..], j)).Mul(Rotor(k1, k2))
    {
      ghost var u0, v0 := u[..], v[..];
      var tmp := new real[8];
      for j := 0 to 8
        invariant u[..] == u0 && v[..] == v0 && forall i | 0 <= i < j :: tmp[i] == MulSub(u0[i], k1, v0[i])
      {
        tmp[j] := MulSub(u[j], k1, v[j]);
      }
      ghost var mid := tmp[..];
      for j := 0 to 8
        invariant u[..] == u0 && tmp[..] == mid && forall i | j <= i < 8 :: v[i] == v0[i]
        invariant forall i | 0 <= i < j :: v[i] == MulAdd(v0[i], k2, mid[i])
      {
        v[j] := MulAdd(v[j], k2, tmp[j]);
      }
      ghost var v1 := v[..];
      for j := 0 to 8
        invariant v[..] == v1 && tmp[..] == mid && forall i | 0 <= i < j :: u[i] == MulSub(mid[i], k1, v1[i])
      {
        u[j] := MulSub(tmp[j], k1, v[j]);
      }
      forall j | 0 <= j < 8 ensures Lane(u[..], v[..], j) == Lane(u0, v0, j).Mul(Rotor(k1, k2)) {
        LaneStepped(u0, v0, u[..], v[..], mid, k1, k2, j);
      }
    }

    /** A group of eight samples, each times its lane. */
    method MixGroup(inp: seq<Cplx>, output: array<Cplx>, at: nat, ghost was: seq<Cplx>, ghost input: seq<Cplx>,
                    ghost start: Cplx)
      requires u.Length == v.Length == 8 && Lanes(u[..], v[..], 8, start, rotor, at)
      requires |inp| == 8 && at + 8 <= |input| && at + 8 <= output.Length == |was| && inp == input[at..at + 8]
      requires Mixer.Done(output[..], was, input, at, start, rotor)
      modifies output
      ensures Mixer.Done(output[..], was, input, at + 8, start, rotor)
    {
      for j := 0 to 8
        invariant Mixer.Done(output[..], was, input, at + j, start, rotor)
      {
        assert Lane(u[..], v[..], j) == Turned(start, rotor, at + j);
        output[at + j] := Mixer.Times(inp[j], u[j], v[j]);
      }
    }

    /** The end of a loop body moves every lane eight samples on. */
    method Onward(ghost start: Cplx, ghost at: nat)
      requires u.Length == v.Length == 8 && u != v && Tuned() && Lanes(u[..], v[..], 8, start, rotor, at)
      modifies u, v
      ensures Lanes(u[..], v[..], 8, start, rotor, at + 8)
    {
      ghost var u0, v0 := u[..], v[..];
      StepLanes();
      AllOn(u0, v0, u[..], v[..], u.Length, start, rotor, at);
    }

    /** shift_recursive_osc_cc: the eight-lane loop mixes with the scalar oscillator's sequence. Samples beyond the last
        whole group of eight are left alone. */
    method Mix(input: seq<Cplx>, output: array<Cplx>)
      requires Valid() && |input| <= output.Length
      modifies u, v, output
      ensures Valid() && Phase() == Turned(old(Phase()), rotor, |input| / 8 * 8)
      ensures var k := |input| / 8 * 8;
              output[..k] == Mixed(input[..k], old(Phase()), rotor) && output[k..] == old(output[k..])
    {
      ghost var start, was := Phase(), output[..];
      for i := 0 to |input| / 8
        invariant Lanes(u[..], v[..], 8, start, rotor, 8 * i)
        invariant Mixer.Done(output[..], was, input, 8 * i, start, rotor)
      {
        MixGroup(input[8 * i..8 * i + 8], output, 8 * i, was, input, start);
        Onward(start, 8 * i);
      }
      FromHere(u[..], v[..], start, rotor, |input| / 8 * 8);
      Mixer.DoneIsMixed(output[..], was, input, |input| / 8 * 8, start, rotor);
    }

    /** shift_recursive_osc_inp_c: the same in place; a group is read before it is written. */
    method MixInPlace(inOut: array<Cplx>, size: nat)
      requires Valid() && size <= inOut.Length
      modifies u, v, inOut
      ensures Valid() && Phase() == Turned(old(Phase()), rotor, size / 8 * 8)
      ensures var k := size / 8 * 8;
              inOut[..k] == Mixed(old(inOut[..k]), old(Phase()), rotor) && inOut[k..] == old(inOut[k..])
    {
      ghost var start, was := Phase(), inOut[..];
      for i := 0 to size / 8
        invariant Lanes(u[..], v[..], 8, start, rotor, 8 * i)
        invariant Mixer.Done(inOut[..], was, was, 8 * i, start, rotor)
      {
        var inp := inOut[8 * i..8 * i + 8];
        assert inp == was[8 * i..8 * i + 8];
        MixGroup(inp, inOut, 8 * i, was, was, start);
        Onward(start, 8 * i);
      }
      FromHere(u[..], v[..], start, rotor, size / 8 * 8);
      Mixer.DoneIsMixed(inOut[..], was, was, size / 8 * 8, start, rotor);
    }

    /** A group of eight oscillator values. */
    method GenerateGroup(output: array<Cplx>, at: nat, ghost start: Cplx)
      requires u.Length == v.Length == 8 && Lanes(u[..], v[..], 8, start, rotor, at) && at + 8 <= output.Length
      modifies output
      ensures forall n | at <= n < at + 8 :: output[n] == Turned(start, rotor, n)
      ensures forall n | 0 <= n < output.Length && !(at <= n < at + 8) :: output[n] == old(output[n])
    {
      for j := 0 to 8
        invariant forall n | at <= n < at + j :: output[n] == Turned(start, rotor, n)
        invariant forall n | 0 <= n < output.Length && !(at <= n < at + j) :: output[n] == old(output[n])
      {
        assert Lane(u[..], v[..], j) == Turned(start, rotor, at + j);
        output[at + j] := Cplx(u[j], v[j]);
      }
    }

    /** gen_recursive_osc_c: the bare oscillator sequence. */
    method Generate(output: array<Cplx>, size: nat)
      requires Valid() && size <= output.Length
      modifies u, v, output
      ensures Valid() && Phase() == Turned(old(Phase()), rotor, size / 8 * 8)
      ensures forall n | 0 <= n < size / 8 * 8 :: output[n] == Turned(old(Phase()), rotor, n)
      ensures output[size / 8 * 8..] == old(output[size / 8 * 8..])
    {
      ghost var start := Phase();
      for i := 0 to size / 8
        invariant Lanes(u[..], v[..], 8, start, rotor, 8 * i)
        invariant forall n | 0 <= n < 8 * i :: output[n] == Turned(start, rotor, n)
        invariant forall n | 8 * i <= n < output.Length :: output[n] == old(output[n])
      {
        GenerateGroup(output, 8 * i, start);
        Onward(start, 8 * i);
      }
      FromHere(u[..], v[..], start, rotor, size / 8 * 8);
    }
  }
}
