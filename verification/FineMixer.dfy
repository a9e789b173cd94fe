/** The mixer behind fine tuning (shift_limited_unroll_C_sse): four lanes of phasors, a table of every fourth rotation, all
    kept between calls. */
module FineMixer {
  import opened Complex
  import opened Phasors
  import Mixer

  /** Four floats in a vector register. */
  datatype V4 = V4(f0: real, f1: real, f2: real, f3: real) {
    function Mul(b: V4): V4 { V4(f0 * b.f0, f1 * b.f1, f2 * b.f2, f3 * b.f3) }
    function Add(b: V4): V4 { V4(f0 + b.f0, f1 + b.f1, f2 + b.f2, f3 + b.f3) }
    function Sub(b: V4): V4 { V4(f0 - b.f0, f1 - b.f1, f2 - b.f2, f3 - b.f3) }
    function At(k: nat): real
      requires k < 4
    {
      if k == 0 then f0 else if k == 1 then f1 else if k == 2 then f2 else f3
    }
  }

  /** _mm_unpacklo_ps and _mm_unpackhi_ps. */
  function Interleave(a: V4, b: V4): (V4, V4) {
    (V4(a.f0, b.f0, a.f1, b.f1), V4(a.f2, b.f2, a.f3, b.f3))
  }

  /** _mm_shuffle_ps, even positions and odd positions. */
  function Uninterleave(a: V4, b: V4): (V4, V4) {
    (V4(a.f0, a.f2, b.f0, b.f2), V4(a.f1, a.f3, b.f1, b.f3))
  }

  /** Lane k of a register of cosines and one of sines. */
  function Lane(c: V4, s: V4, k: nat): Cplx
    requires k < 4
  {
    Cplx(c.At(k), s.At(k))
  }

  /** Lane k stands k samples ahead of sample n. */
  ghost predicate Lanes(c: V4, s: V4, start: Cplx, r: Cplx, n: nat) {
    forall k | 0 <= k < 4 :: Lane(c, s, k) == Turned(start, r, n + k)
  }

  /** The four-lane complex product multiplies lane by lane. */
  lemma LanewiseProduct(aRe: V4, aIm: V4, bRe: V4, bIm: V4, k: nat)
    requires k < 4
    ensures Lane(aRe.Mul(bRe).Sub(aIm.Mul(bIm)), aIm.Mul(bRe).Add(aRe.Mul(bIm)), k) ==
            Lane(aRe, aIm, k).Mul(Lane(bRe, bIm, k))
  {
    if k == 0 {
    } else if k == 1 {
    } else if k == 2 {
    } else {
    }
  }

  /** Two registers of samples (real and imaginary parts alternating), each times its lane. */
  function Product(u0: V4, u1: V4, cosVals: V4, sinVals: V4): (V4, V4) {
    var (re, im) := Uninterleave(u0, u1);
    var (productRe, productIm) := (re.Mul(cosVals).Sub(im.Mul(sinVals)), im.Mul(cosVals).Add(re.Mul(sinVals)));
    Interleave(productRe, productIm)
  }

  /** Entry t of the table is the rotor to the 4 (t + 1), four times over: four cosines, then four sines. */
  ghost predicate Interleaved(table: seq<real>, r: Cplx, entries: nat) {
    && 8 * entries <= |table|
    && forall e, k | 0 <= e < entries && 0 <= k < 4 :: Trig4(table, e, k) == Power(r, 4 * (e + 1))
  }

  function Trig4(table: seq<real>, e: nat, k: nat): Cplx
    requires k < 4 && 8 * e + 8 <= |table|
  {
    Cplx(table[8 * e + k], table[8 * e + 4 + k])
  }

  /** Vectors are loaded from and stored to arrays four floats at a time. */
  function Load(a: seq<real>, at: nat): V4
    requires at + 4 <= |a|
  {
    V4(a[at], a[at + 1], a[at + 2], a[at + 3])
  }

  /** The lanes' phasors, from entry e of the table and the phasors the block started with. */
  lemma LookUp(table: seq<real>, e: nat, entries: nat, cosStarts: V4, sinStarts: V4, start: Cplx, r: Cplx, n: nat)
    requires Interleaved(table, r, entries) && e < entries && Lanes(cosStarts, sinStarts, start, r, n)
    ensures var c, s := Load(table, 8 * e), Load(table, 8 * e + 4);
            Lanes(c.Mul(cosStarts).Sub(s.Mul(sinStarts)), s.Mul(cosStarts).Add(c.Mul(sinStarts)), start, r, n + 4 * (e + 1))
  {
    var c, s := Load(table, 8 * e), Load(table, 8 * e + 4);
    forall k | 0 <= k < 4
      ensures Lane(c.Mul(cosStarts).Sub(s.Mul(sinStarts)), s.Mul(cosStarts).Add(c.Mul(sinStarts)), k) ==
              Turned(start, r, n + 4 * (e + 1) + k)
    {
      LanewiseProduct(c, s, cosStarts, sinStarts, k);
      assert Lane(c, s, k) == Trig4(table, e, k);
      TurnedAgain(start, r, n + k, 4 * (e + 1));
    }
  }

  /** Four complex samples as the two registers they occupy. */
  function Samples(x: seq<Cplx>): (V4, V4)
    requires |x| == 4
  {
    (V4(x[0].re, x[0].im, x[1].re, x[1].im), V4(x[2].re, x[2].im, x[3].re, x[3].im))
  }

  lemma ProductOfSamples(x: seq<Cplx>, y: seq<Cplx>, cosVals: V4, sinVals: V4, k: nat)
    requires |x| == |y| == 4 && k < 4
    requires var (u0, u1) := Samples(x); Samples(y) == Product(u0, u1, cosVals, sinVals)
    ensures y[k] == x[k].Mul(Lane(cosVals, sinVals, k))
  {
    if k == 0 {
    } else if k == 1 {
    } else if k == 2 {
    } else {
    }
  }

  /** Division of every lane by its magnitude: nothing happens to unit phasors. */
  method NormaliseLanes(t: Trig, cosVals: V4, sinVals: V4) returns (c: V4, s: V4)
    requires t.Lawful() && forall k | 0 <= k < 4 :: Lane(cosVals, sinVals, k).NormSq() == 1.0
    ensures c == cosVals && s == sinVals
  {
    var square := cosVals.Mul(cosVals).Add(sinVals.Mul(sinVals));
    forall k | 0 <= k < 4 ensures square.At(k) == 1.0 {
      assert Lane(cosVals, sinVals, k).NormSq() == square.At(k);
    }
    assert square.At(0) == square.At(1) == square.At(2) == square.At(3) == 1.0;
    var mag := V4(t.sqrt(square.f0), t.sqrt(square.f1), t.sqrt(square.f2), t.sqrt(square.f3));
    c := V4(cosVals.f0 / mag.f0, cosVals.f1 / mag.f1, cosVals.f2 / mag.f2, cosVals.f3 / mag.f3);
    s := V4(sinVals.f0 / mag.f0, sinVals.f1 / mag.f1, sinVals.f2 / mag.f2, sinVals.f3 / mag.f3);
  }

  lemma LanesUnit(c: V4, s: V4, start: Cplx, r: Cplx, n: nat)
    requires Lanes(c, s, start, r, n) && start.NormSq() == 1.0 && r.NormSq() == 1.0
    ensures forall k | 0 <= k < 4 :: Lane(c, s, k).NormSq() == 1.0
  {
    forall k | 0 <= k < 4 ensures Lane(c, s, k).NormSq() == 1.0 {
      TurnedUnit(start, r, n + k);
    }
  }

  /** The lanes at sample n are those of a mixer that starts from the phasor of sample n. */
  lemma Arrived(c: V4, s: V4, start: Cplx, r: Cplx, n: nat)
    requires Lanes(c, s, start, r, n) && start.NormSq() == 1.0 && r.NormSq() == 1.0
    ensures Lane(c, s, 0) == Turned(start, r, n)
    ensures Lanes(c, s, Lane(c, s, 0), r, 0) && Lane(c, s, 0).NormSq() == 1.0
  {
    assert Lane(c, s, 0) == Turned(start, r, n + 0);
    TurnedUnit(start, r, n);
    forall k | 0 <= k < 4 ensures Lane(c, s, k) == Turned(Turned(start, r, n), r, 0 + k) {
      TurnedAgain(start, r, n, k);
    }
  }

  lemma WholeGroups(groups: nat)
    ensures 4 * groups % 4 == 0
  {
  }

  /** One entry of the table: a cosine and a sine, each four times. */
  method FillEntry(table: array<real>, at: nat, cosine: real, sine: real)
    requires at + 8 <= table.Length
    modifies table
    ensures forall n | at <= n < at + 4 :: table[n] == cosine
    ensures forall n | at + 4 <= n < at + 8 :: table[n] == sine
    ensures forall n | 0 <= n < table.Length && !(at <= n < at + 8) :: table[n] == old(table[n])
  {
    table[at] := cosine;
    table[at + 4] := sine;
    for k := 1 to 4
      invariant forall n | at <= n < at + k :: table[n] == cosine
      invariant forall n | at + 4 <= n < at + 4 + k :: table[n] == sine
      invariant forall n | 0 <= n < table.Length && !(at <= n < at + 8) :: table[n] == old(table[n])
    {
      table[at + k] := table[at];
      table[at + k + 4] := table[at + 4];
    }
  }

  lemma OneMoreEntry(was: seq<real>, table: seq<real>, e: nat, r: Cplx)
    requires Interleaved(was, r, e) && |table| == |was| >= 8 * e + 8
    requires forall n | 0 <= n < 8 * e :: table[n] == was[n]
    requires forall k | 0 <= k < 4 :: Trig4(table, e, k) == Power(r, 4 * (e + 1))
    ensures Interleaved(table, r, e + 1)
  {
    forall f, k | 0 <= f < e + 1 && 0 <= k < 4 ensures Trig4(table, f, k) == Power(r, 4 * (f + 1)) {
      if f < e {
        assert Trig4(table, f, k) == Trig4(was, f, k);
      }
    }
  }

  /** Four phase increments, each brought back into range. */
  method FourSteps(t: Trig, phase: real, phaseIncrement: real, ghost n: nat) returns (myphase: real)
    requires t.Lawful() && t.At(phase) == Power(t.At(phaseIncrement), n)
    ensures t.At(myphase) == Power(t.At(phaseIncrement), n + 4)
  {
    myphase := phase;
    for k := 0 to 4
      invariant t.At(myphase) == Power(t.At(phaseIncrement), n + k)
    {
      assert t.Adds(myphase, phaseIncrement);
      myphase := t.WrapPhase(myphase + phaseIncrement, -t.pi);
    }
  }

  /** The first loop of shift_limited_unroll_C_sse_init. */
  method FillTable(t: Trig, phaseIncrement: real, table: array<real>)
    requires t.Lawful() && table.Length == 264
    modifies table
    ensures Interleaved(table[..], t.At(phaseIncrement), 33)
  {
    ghost var r := t.At(phaseIncrement);
    var myphase := 0.0;
    for e := 0 to 33
      invariant t.At(myphase) == Power(r, 4 * e)
      invariant Interleaved(table[..], r, e)
    {
      myphase := FourSteps(t, myphase, phaseIncrement, 4 * e);
      ghost var was := table[..];
      FillEntry(table, 8 * e, t.cos(myphase), t.sin(myphase));
      OneMoreEntry(was, table[..], e, r);
    }
  }

  /** The second loop: lane i starts i samples on. */
  method FirstLanes(t: Trig, phaseIncrement: real, phaseStart: real) returns (c: V4, s: V4)
    requires t.Lawful()
    ensures Lanes(c, s, t.At(phaseStart), t.At(phaseIncrement), 0)
  {
    ghost var start, r := t.At(phaseStart), t.At(phaseIncrement);
    var cs, ss, myphase := [], [], phaseStart;
    TurnedZero(start, r);
    for i := 0 to 4
      invariant |cs| == |ss| == i && t.At(myphase) == Turned(start, r, i)
      invariant forall k | 0 <= k < i :: Cplx(cs[k], ss[k]) == Turned(start, r, k)
    {
      cs, ss := cs + [t.cos(myphase)], ss + [t.sin(myphase)];
      Mixer.OneStep(start, r, i);
      assert t.Adds(myphase, phaseIncrement);
      myphase := t.WrapPhase(myphase + phaseIncrement, -t.pi);
    }
    c, s := V4(cs[0], cs[1], cs[2], cs[3]), V4(ss[0], ss[1], ss[2], ss[3]);
    forall k | 0 <= k < 4 ensures Lane(c, s, k) == Turned(start, r, 0 + k) {
      assert Lane(c, s, k) == Cplx(cs[k], ss[k]);
    }
  }

  /** Four samples in place. */
  method Quad(inOut: array<Cplx>, at: nat, cosVals: V4, sinVals: V4, ghost was: seq<Cplx>, ghost start: Cplx, ghost r: Cplx)
    requires at + 4 <= inOut.Length == |was| && Mixer.Done(inOut[..], was, was, at, start, r)
    requires Lanes(cosVals, sinVals, start, r, at)
    modifies inOut
    ensures Mixer.Done(inOut[..], was, was, at + 4, start, r)
  {
    ghost var x := inOut[at..at + 4];
    assert forall k | 0 <= k < 4 :: x[k] == was[at + k];
    var (u0, u1) := Samples(inOut[at..at + 4]);
    var (a, b) := Product(u0, u1, cosVals, sinVals);
    ghost var y := [Cplx(a.f0, a.f1), Cplx(a.f2, a.f3), Cplx(b.f0, b.f1), Cplx(b.f2, b.f3)];
    forall k | 0 <= k < 4 ensures y[k] == MixedAt(was[at + k], start, r, at + k) {
      ProductOfSamples(x, y, cosVals, sinVals, k);
    }
    inOut[at], inOut[at + 1] := Cplx(a.f0, a.f1), Cplx(a.f2, a.f3);
    inOut[at + 2], inOut[at + 3] := Cplx(b.f0, b.f1), Cplx(b.f2, b.f3);
    forall n | at <= n < at + 4 ensures inOut[n] == MixedAt(was[n], start, r, n) {
      assert inOut[n] == y[n - at];
    }
  }

  class FineTune {
    const table: array<real>
    const phaseIncrement: real
    var stateI: V4
    var stateQ: V4

    /** The phasor of the next sample. */
    function Phase(): Cplx
      reads this
    {
      Lane(stateI, stateQ, 0)
    }

    ghost predicate Filled(t: Trig)
      reads table
    {
      table.Length == 264 && Interleaved(table[..], t.At(phaseIncrement), 33)
    }

    ghost predicate Valid(t: Trig)
      reads this, table
    {
      Filled(t) && Lanes(stateI, stateQ, Phase(), t.At(phaseIncrement), 0) && Phase().NormSq() == 1.0
    }

    /** shift_limited_unroll_C_sse_init. */
    constructor (t: Trig, relativeFreq: real, phaseStart: real)
      requires t.Lawful()
      ensures Valid(t) && phaseIncrement == 2.0 * relativeFreq * t.pi && Phase() == t.At(phaseStart) && fresh(table)
    {
      phaseIncrement := 2.0 * relativeFreq * t.pi;
      table := new real[264];
      new;
      FillTable(t, phaseIncrement, table);
      stateI, stateQ := FirstLanes(t, phaseIncrement, phaseStart);
      TurnedZero(t.At(phaseStart), t.At(phaseIncrement));
      assert Phase() == Turned(t.At(phaseStart), t.At(phaseIncrement), 0 + 0);
      assert t.OnCircle(phaseStart);
    }

    /** One block of at most 128 samples. Every four samples the table gives the lanes' phasors from those at the start of
        the block. */
    method Block(t: Trig, inOut: array<Cplx>, at: nat, size: nat, cosStarts: V4, sinStarts: V4, ghost was: seq<Cplx>,
                 ghost start: Cplx)
      returns (cosVals: V4, sinVals: V4)
      requires Filled(t) && size <= 128 && size % 4 == 0 && at + size <= inOut.Length == |was|
      requires Lanes(cosStarts, sinStarts, start, t.At(phaseIncrement), at)
      requires Mixer.Done(inOut[..], was, was, at, start, t.At(phaseIncrement))
      modifies inOut
      ensures Mixer.Done(inOut[..], was, was, at + size, start, t.At(phaseIncrement))
      ensures Lanes(cosVals, sinVals, start, t.At(phaseIncrement), at + size)
    {
      ghost var r := t.At(phaseIncrement);
      cosVals, sinVals := cosStarts, sinStarts;
      var b, e := size, 0;
      ghost var groups := size / 4;
      while b > 0
        invariant b == 4 * (groups - e) && e <= groups
        invariant Mixer.Done(inOut[..], was, was, at + 4 * e, start, r)
        invariant Lanes(cosVals, sinVals, start, r, at + 4 * e)
      {
        Quad(inOut, at + 4 * e, cosVals, sinVals, was, start, r);
        LookUp(table[..], e, 33, cosStarts, sinStarts, start, r, at);
        var c, s := Load(table[..], 8 * e), Load(table[..], 8 * e + 4);
        cosVals := c.Mul(cosStarts).Sub(s.Mul(sinStarts));
        sinVals := s.Mul(cosStarts).Add(c.Mul(sinStarts));
        b, e := b - 4, e + 1;
      }
    }

    /** One pass of the outer loop: a block, then every lane is divided by its magnitude. */
    method Pass(t: Trig, inOut: array<Cplx>, at: nat, size: nat, cosStarts: V4, sinStarts: V4, ghost was: seq<Cplx>,
                ghost start: Cplx)
      returns (c: V4, s: V4)
      requires t.Lawful() && Filled(t) && size <= 128 && size % 4 == 0 && at + size <= inOut.Length == |was|
      requires Lanes(cosStarts, sinStarts, start, t.At(phaseIncrement), at) && start.NormSq() == 1.0
      requires Mixer.Done(inOut[..], was, was, at, start, t.At(phaseIncrement))
      modifies inOut
      ensures Mixer.Done(inOut[..], was, was, at + size, start, t.At(phaseIncrement))
      ensures Lanes(c, s, start, t.At(phaseIncrement), at + size)
    {
      assert t.OnCircle(phaseIncrement);
      c, s := Block(t, inOut, at, size, cosStarts, sinStarts, was, start);
      LanesUnit(c, s, start, t.At(phaseIncrement), at + size);
      c, s := NormaliseLanes(t, c, s);
    }

    /** The loop over blocks. */
    method Blocks(t: Trig, inOut: array<Cplx>, count: nat, ghost start: Cplx) returns (c: V4, s: V4)
      requires t.Lawful() && Filled(t) && count <= inOut.Length && count % 4 == 0
      requires Lanes(stateI, stateQ, start, t.At(phaseIncrement), 0) && start.NormSq() == 1.0
      modifies inOut
      ensures Mixer.Done(inOut[..], old(inOut[..]), old(inOut[..]), count, start, t.At(phaseIncrement))
      ensures Lanes(c, s, start, t.At(phaseIncrement), count)
    {
      ghost var was := inOut[..];
      c, s := stateI, stateQ;
      var left, at := count, 0;
      ghost var groups := count / 4;
      while left > 0
        invariant at + left == count && left == 4 * groups
        invariant Mixer.Done(inOut[..], was, was, at, start, t.At(phaseIncrement))
        invariant Lanes(c, s, start, t.At(phaseIncrement), at)
      {
        var size := if left >= 128 then 128 else left;
        WholeGroups(if left >= 128 then 32 else groups);
        c, s := Pass(t, inOut, at, size, c, s, was, start);
        left, at, groups := left - size, at + size, if left >= 128 then groups - 32 else 0;
      }
    }

    /** shift_limited_unroll_C_sse_inp_c: in place, for any whole number of groups of four. */
    method Mix(t: Trig, inOut: array<Cplx>, count: nat)
      requires t.Lawful() && Valid(t) && count <= inOut.Length && count % 4 == 0
      modifies this`stateI, this`stateQ, inOut
      ensures Valid(t) && Phase() == Turned(old(Phase()), t.At(phaseIncrement), count)
      ensures inOut[..count] == Mixed(old(inOut[..count]), old(Phase()), t.At(phaseIncrement))
      ensures inOut[count..] == old(inOut[count..])
    {
      ghost var start, r, was := Phase(), t.At(phaseIncrement), inOut[..];
      var c, s := Blocks(t, inOut, count, start);
      Mixer.DoneIsMixed(inOut[..], was, was, count, start, r);
      assert t.OnCircle(phaseIncrement);
      Arrived(c, s, start, r, count);
      stateI, stateQ := c, s;
    }

    /** However a stream is split into calls, their outputs joined are those of one call. */
    method MixCalls(t: Trig, calls: seq<seq<Cplx>>) returns (outputs: seq<seq<Cplx>>)
      requires t.Lawful() && Valid(t) && forall call | call in calls :: |call| % 4 == 0
      modifies this`stateI, this`stateQ
      ensures Valid(t) && |outputs| == |calls| && Phase() == Turned(old(Phase()), t.At(phaseIncrement), |Joined(calls)|)
      ensures Joined(outputs) == Mixed(Joined(calls), old(Phase()), t.At(phaseIncrement))
    {
      ghost var start, r := Phase(), t.At(phaseIncrement);
      outputs := [];
      TurnedZero(start, r);
      for i := 0 to |calls|
        invariant Valid(t) && |outputs| == i && Phase() == Turned(start, r, |Joined(calls[..i])|)
        invariant Joined(outputs) == Mixed(Joined(calls[..i]), start, r)
      {
        ghost var before := Joined(calls[..i]);
        var output := MixCall(t, calls[i]);
        JoinedSnoc(calls[..i], calls[i]);
        JoinedSnoc(outputs, output);
        assert calls[..i + 1] == calls[..i] + [calls[i]];
        MixedSplit(before, calls[i], start, r);
        TurnedAgain(start, r, |before|, |calls[i]|);
        outputs := outputs + [output];
      }
      assert calls[..|calls|] == calls;
    }

    /** One call on a buffer of its own. */
    method MixCall(t: Trig, input: seq<Cplx>) returns (output: seq<Cplx>)
      requires t.Lawful() && Valid(t) && |input| % 4 == 0
      modifies this`stateI, this`stateQ
      ensures Valid(t) && Phase() == Turned(old(Phase()), t.At(phaseIncrement), |input|)
      ensures output == Mixed(input, old(Phase()), t.At(phaseIncrement))
    {
      var buffer := new Cplx[|input|](n requires 0 <= n < |input| => input[n]);
      assert buffer[..|input|] == input;
      Mix(t, buffer, |input|);
      output := buffer[..|input|];
    }
  }
}
