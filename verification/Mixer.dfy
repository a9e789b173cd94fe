/** The scalar mixers of the DSP library, each proved to produce the one-step-at-a-time rotation of its input. */
module Mixer {
  import opened Complex
  import opened Phasors

  /** Whether the first k outputs are mixed, and the others are as they were. */
  ghost predicate Done(output: seq<Cplx>, was: seq<Cplx>, input: seq<Cplx>, k: nat, start: Cplx, r: Cplx)
    requires k <= |input| && k <= |output| == |was|
  {
    && (forall n | 0 <= n < k :: output[n] == MixedAt(input[n], start, r, n))
    && (forall n | k <= n < |was| :: output[n] == was[n])
  }

  lemma DoneIsMixed(output: seq<Cplx>, was: seq<Cplx>, input: seq<Cplx>, k: nat, start: Cplx, r: Cplx)
    requires k <= |input| && k <= |output| == |was| && Done(output, was, input, k, start, r)
    ensures output[..k] == Mixed(input[..k], start, r) && output[k..] == was[k..]
  {
  }

  /** shift_math_cc: a cosine and a sine per sample. */
  method ShiftMath(t: Trig, input: seq<Cplx>, output: array<Cplx>, rate: real, startingPhase: real) returns (phase: real)
    requires t.Lawful() && |input| <= output.Length
    modifies output
    ensures var start, r := t.At(startingPhase), t.At(2.0 * rate * t.pi);
            && output[..|input|] == Mixed(input, start, r) && output[|input|..] == old(output[|input|..])
            && t.At(phase) == Turned(start, r, |input|)
    ensures input != [] ==> 0.0 <= phase <= 2.0 * t.pi
  {
    phase := startingPhase;
    var phaseIncrement := 2.0 * rate * t.pi;
    ghost var start, r, was := t.At(startingPhase), t.At(phaseIncrement), output[..];
    TurnedZero(start, r);
    for i := 0 to |input|
      invariant t.At(phase) == Turned(start, r, i) && (i > 0 ==> 0.0 <= phase <= 2.0 * t.pi)
      invariant Done(output[..], was, input, i, start, r)
    {
      var cosval, sinval := t.cos(phase), t.sin(phase);
      output[i] := Times(input[i], cosval, sinval);
      OneStep(start, r, i);
      assert t.Adds(phase, phaseIncrement);
      phase := t.WrapPhase(phase + phaseIncrement, 0.0);
    }
    DoneIsMixed(output[..], was, input, |input|, start, r);
    assert input[..|input|] == input;
  }

  /** The product as the mixers write it. */
  function Times(x: Cplx, cosval: real, sinval: real): (y: Cplx)
    ensures y == x.Mul(Cplx(cosval, sinval))
  {
    Cplx(cosval * x.re - sinval * x.im, sinval * x.re + cosval * x.im)
  }

  lemma OneStep(start: Cplx, r: Cplx, n: nat)
    ensures Turned(start, r, n + 1) == Turned(start, r, n).Mul(r)
  {
    MulAssociates(start, Power(r, n), r);
  }

  /** Entry i of a table of cosines and sines is the rotor to the i + 1. */
  ghost predicate Tabulates(dcos: seq<real>, dsin: seq<real>, r: Cplx) {
    |dcos| == |dsin| && forall i | 0 <= i < |dcos| :: Entry(dcos, dsin, i) == Power(r, i + 1)
  }

  function Entry(dcos: seq<real>, dsin: seq<real>, i: nat): Cplx
    requires i < |dcos| == |dsin|
  {
    Cplx(dcos[i], dsin[i])
  }

  lemma OneMoreEntry(dcos: seq<real>, dsin: seq<real>, next: Cplx, r: Cplx)
    requires Tabulates(dcos, dsin, r) && next == Power(r, |dcos| + 1)
    ensures Tabulates(dcos + [next.re], dsin + [next.im], r)
  {
    var c, s := dcos + [next.re], dsin + [next.im];
    forall i | 0 <= i < |c| ensures Entry(c, s, i) == Power(r, i + 1) {
      assert i < |dcos| ==> Entry(c, s, i) == Entry(dcos, dsin, i);
    }
  }

  /** A table entry takes a phasor from sample `at` to the sample that many steps on. */
  lemma Lookup(dcos: seq<real>, dsin: seq<real>, i: nat, start: Cplx, r: Cplx, at: nat)
    requires Tabulates(dcos, dsin, r) && i < |dcos|
    ensures Turned(start, r, at).Mul(Cplx(dcos[i], dsin[i])) == Turned(start, r, at + i + 1)
  {
    assert Entry(dcos, dsin, i) == Power(r, i + 1);
    TurnedAgain(start, r, at, i + 1);
    MulCommutes(Power(r, i + 1), Turned(start, r, at));
  }

  /** The loop of shift_unroll_init and shift_limited_unroll_init. */
  method FillTable(t: Trig, phaseIncrement: real, dcos: array<real>, dsin: array<real>)
    requires t.Lawful() && dcos != dsin && dcos.Length == dsin.Length
    modifies dcos, dsin
    ensures Tabulates(dcos[..], dsin[..], t.At(phaseIncrement))
  {
    ghost var r := t.At(phaseIncrement);
    var myphase := 0.0;
    for i := 0 to dcos.Length
      invariant t.At(myphase) == Power(r, i)
      invariant Tabulates(dcos[..i], dsin[..i], r)
    {
      assert t.Adds(myphase, phaseIncrement);
      myphase := t.WrapPhase(myphase + phaseIncrement, -t.pi);
      ghost var c, s := dcos[..i], dsin[..i];
      dsin[i] := t.sin(myphase);
      dcos[i] := t.cos(myphase);
      OneMoreEntry(c, s, t.At(myphase), r);
      assert dcos[..i + 1] == c + [dcos[i]] && dsin[..i + 1] == s + [dsin[i]];
    }
    assert dcos[..dcos.Length] == dcos[..] && dsin[..dsin.Length] == dsin[..];
  }

  /** The loop of shift_addfast_init. */
  method FillMultiples(t: Trig, phaseIncrement: real, dcos: array<real>, dsin: array<real>)
    requires t.Lawful() && dcos != dsin && dcos.Length == dsin.Length
    modifies dcos, dsin
    ensures Tabulates(dcos[..], dsin[..], t.At(phaseIncrement))
  {
    ghost var r := t.At(phaseIncrement);
    for i := 0 to dcos.Length
      invariant Tabulates(dcos[..i], dsin[..i], r)
    {
      var angle := phaseIncrement * (i + 1) as real;
      t.Multiples(phaseIncrement, i + 1, angle);
      ghost var c, s := dcos[..i], dsin[..i];
      dsin[i] := t.sin(angle);
      dcos[i] := t.cos(angle);
      OneMoreEntry(c, s, t.At(angle), r);
      assert dcos[..i + 1] == c + [dcos[i]] && dsin[..i + 1] == s + [dsin[i]];
    }
    assert dcos[..dcos.Length] == dcos[..] && dsin[..dsin.Length] == dsin[..];
  }

  /** A phase after `count` samples, brought back into range. */
  method EndPhase(t: Trig, startingPhase: real, phaseIncrement: real, count: nat) returns (phase: real)
    requires t.Lawful()
    ensures t.At(phase) == Turned(t.At(startingPhase), t.At(phaseIncrement), count) && -t.pi <= phase <= t.pi
  {
    t.Onward(startingPhase, phaseIncrement, count);
    phase := t.WrapPhase(startingPhase + count as real * phaseIncrement, -t.pi);
  }

  /** The table of shift_unroll_init: as many entries as there will be samples in a call. */
  class UnrollData {
    const dsin: array<real>
    const dcos: array<real>
    const phaseIncrement: real

    ghost predicate Valid(t: Trig)
      reads dsin, dcos
    {
      dcos.Length == dsin.Length && Tabulates(dcos[..], dsin[..], t.At(phaseIncrement))
    }

    constructor (t: Trig, rate: real, size: nat)
      requires t.Lawful()
      ensures Valid(t) && dcos.Length == size && phaseIncrement == 2.0 * rate * t.pi && fresh(dsin) && fresh(dcos)
    {
      phaseIncrement := 2.0 * rate * t.pi;
      dsin := new real[size];
      dcos := new real[size];
      new;
      FillTable(t, phaseIncrement, dcos, dsin);
    }

    /** shift_unroll_cc: one table entry per sample, always from the first. */
    method Mix(t: Trig, input: seq<Cplx>, output: array<Cplx>, startingPhase: real) returns (phase: real)
      requires t.Lawful() && Valid(t) && |input| <= output.Length && |input| <= dcos.Length
      modifies output
      ensures var start, r := t.At(startingPhase), t.At(phaseIncrement);
              && output[..|input|] == Mixed(input, start, r) && output[|input|..] == old(output[|input|..])
              && t.At(phase) == Turned(start, r, |input|)
      ensures -t.pi <= phase <= t.pi
    {
      var cosStart, sinStart := t.cos(startingPhase), t.sin(startingPhase);
      var cosVal, sinVal := cosStart, sinStart;
      ghost var start, r, was := t.At(startingPhase), t.At(phaseIncrement), output[..];
      TurnedZero(start, r);
      for i := 0 to |input|
        invariant Cplx(cosVal, sinVal) == Turned(start, r, i)
        invariant Done(output[..], was, input, i, start, r)
      {
        output[i] := Times(input[i], cosVal, sinVal);
        Lookup(dcos[..], dsin[..], i, start, r, 0);
        cosVal := cosStart * dcos[i] - sinStart * dsin[i];
        sinVal := sinStart * dcos[i] + cosStart * dsin[i];
      }
      DoneIsMixed(output[..], was, input, |input|, start, r);
      assert input[..|input|] == input;
      phase := EndPhase(t, startingPhase, phaseIncrement, |input|);
    }
  }

  /** shift_addfast: four phasors at a time from the last of the four before, so every output is one step ahead of the
      phase. Samples beyond the last whole group of four are left alone. */
  class AddFastData {
    const dsin: array<real>
    const dcos: array<real>
    const phaseIncrement: real

    ghost predicate Valid(t: Trig)
      reads dsin, dcos
    {
      dcos.Length == dsin.Length == 4 && Tabulates(dcos[..], dsin[..], t.At(phaseIncrement))
    }

    constructor (t: Trig, rate: real)
      requires t.Lawful()
      ensures Valid(t) && phaseIncrement == 2.0 * rate * t.pi && fresh(dsin) && fresh(dcos)
    {
      phaseIncrement := 2.0 * rate * t.pi;
      dsin := new real[4];
      dcos := new real[4];
      new;
      FillMultiples(t, phaseIncrement, dcos, dsin);
    }

    /** The four phasors of a group, from the last one of the group before. */
    method Group(t: Trig, from: Cplx, ghost start: Cplx, ghost n: nat) returns (vals: seq<Cplx>)
      requires Valid(t) && from == Turned(start, t.At(phaseIncrement), n)
      ensures |vals| == 4 && forall k | 0 <= k < 4 :: vals[k] == Turned(start, t.At(phaseIncrement), n + k + 1)
    {
      vals := [];
      for j := 0 to 4
        invariant |vals| == j && forall k | 0 <= k < j :: vals[k] == Turned(start, t.At(phaseIncrement), n + k + 1)
      {
        Lookup(dcos[..], dsin[..], j, start, t.At(phaseIncrement), n);
        vals := vals + [from.Mul(Cplx(dcos[j], dsin[j]))];
      }
    }

    method Mix(t: Trig, input: seq<Cplx>, output: array<Cplx>, startingPhase: real) returns (phase: real)
      requires t.Lawful() && Valid(t) && |input| <= output.Length
      modifies output
      ensures var start, r, k := t.At(startingPhase), t.At(phaseIncrement), |input| / 4 * 4;
              && output[..k] == Mixed(input[..k], Turned(start, r, 1), r) && output[k..] == old(output[k..])
              && t.At(phase) == Turned(start, r, |input|)
      ensures -t.pi <= phase <= t.pi
    {
      var from := Cplx(t.cos(startingPhase), t.sin(startingPhase));
      ghost var start, r, was := t.At(startingPhase), t.At(phaseIncrement), output[..];
      ghost var first := Turned(start, r, 1);
      TurnedZero(start, r);
      for i := 0 to |input| / 4
        invariant from == Turned(start, r, 4 * i)
        invariant Done(output[..], was, input, 4 * i, first, r)
      {
        var vals := Group(t, from, start, 4 * i);
        Ahead(vals, start, r, 4 * i);
        MixGroup(input, output, 4 * i, vals, was, first, r);
        from := vals[3];
      }
      DoneIsMixed(output[..], was, input, |input| / 4 * 4, first, r);
      phase := EndPhase(t, startingPhase, phaseIncrement, |input|);
    }
  }

  lemma Ahead(vals: seq<Cplx>, start: Cplx, r: Cplx, n: nat)
    requires |vals| == 4 && forall k | 0 <= k < 4 :: vals[k] == Turned(start, r, n + k + 1)
    ensures forall k | 0 <= k < 4 :: vals[k] == Turned(Turned(start, r, 1), r, n + k)
  {
    forall k | 0 <= k < 4 ensures vals[k] == Turned(Turned(start, r, 1), r, n + k) {
      TurnedAgain(start, r, 1, n + k);
    }
  }

  /** Four samples, each times its own phasor. */
  method MixGroup(input: seq<Cplx>, output: array<Cplx>, at: nat, vals: seq<Cplx>, ghost was: seq<Cplx>,
                  ghost start: Cplx, ghost r: Cplx)
    requires at + 4 <= |input| <= output.Length == |was| && Done(output[..], was, input, at, start, r)
    requires |vals| == 4 && forall k | 0 <= k < 4 :: vals[k] == Turned(start, r, at + k)
    modifies output
    ensures Done(output[..], was, input, at + 4, start, r)
  {
    for j := 0 to 4
      invariant Done(output[..], was, input, at + j, start, r)
    {
      output[at + j] := Times(input[at + j], vals[j].re, vals[j].im);
      assert vals[j] == Turned(start, r, at + j);
    }
  }

  /** shift_limited_unroll: a table of 128 entries used over and over, the phase kept between calls. */
  class LimitedUnrollData {
    const dcos: array<real>
    const dsin: array<real>
    const phaseIncrement: real
    var complexPhase: Cplx

    ghost predicate Filled(t: Trig)
      reads dsin, dcos
    {
      dcos.Length == dsin.Length == 128 && Tabulates(dcos[..], dsin[..], t.At(phaseIncrement))
    }

    ghost predicate Valid(t: Trig)
      reads this, dsin, dcos
    {
      Filled(t) && complexPhase.NormSq() == 1.0
    }

    constructor (t: Trig, rate: real)
      requires t.Lawful()
      ensures Valid(t) && phaseIncrement == 2.0 * rate * t.pi && complexPhase == ONE && fresh(dsin) && fresh(dcos)
    {
      phaseIncrement := 2.0 * rate * t.pi;
      dcos := new real[128];
      dsin := new real[128];
      complexPhase := Cplx(1.0, 0.0);
      new;
      FillTable(t, phaseIncrement, dcos, dsin);
    }

    /** Sample e of a block is mixed, and table entry e gives the phasor of the next from that of the block's first. */
    method MixOne(t: Trig, x: Cplx, output: array<Cplx>, at: nat, e: nat, from: Cplx, val: Cplx, ghost was: seq<Cplx>,
                  ghost input: seq<Cplx>, ghost start: Cplx)
      returns (next: Cplx)
      requires Filled(t) && e < 128 && at + e < |input| && at + e < output.Length == |was| && x == input[at + e]
      requires from == Turned(start, t.At(phaseIncrement), at) && val == Turned(start, t.At(phaseIncrement), at + e)
      requires Done(output[..], was, input, at + e, start, t.At(phaseIncrement))
      modifies output
      ensures Done(output[..], was, input, at + e + 1, start, t.At(phaseIncrement))
      ensures next == Turned(start, t.At(phaseIncrement), at + e + 1)
    {
      output[at + e] := Times(x, val.re, val.im);
      Lookup(dcos[..], dsin[..], e, start, t.At(phaseIncrement), at);
      next := from.Mul(Cplx(dcos[e], dsin[e]));
    }

    /** Four samples, from sample e of the block on. */
    method MixFour(t: Trig, xs: seq<Cplx>, output: array<Cplx>, at: nat, e: nat, from: Cplx, first: Cplx,
                   ghost was: seq<Cplx>, ghost input: seq<Cplx>, ghost start: Cplx)
      returns (val: Cplx)
      requires Filled(t) && e + 4 <= 128 && at + e + 4 <= |input| && at + e + 4 <= output.Length == |was|
      requires |xs| == 4 && forall j | 0 <= j < 4 :: xs[j] == input[at + e + j]
      requires from == Turned(start, t.At(phaseIncrement), at) && first == Turned(start, t.At(phaseIncrement), at + e)
      requires Done(output[..], was, input, at + e, start, t.At(phaseIncrement))
      modifies output
      ensures Done(output[..], was, input, at + e + 4, start, t.At(phaseIncrement))
      ensures val == Turned(start, t.At(phaseIncrement), at + e + 4)
    {
      val := first;
      for j := 0 to 4
        invariant val == Turned(start, t.At(phaseIncrement), at + (e + j))
        invariant Done(output[..], was, input, at + (e + j), start, t.At(phaseIncrement))
      {
        val := MixOne(t, xs[j], output, at, e + j, from, val, was, input, start);
      }
    }

    /** One block of at most 128 samples: whole groups of four are mixed. The phasor then stands that much further on. */
    method Block(t: Trig, input: seq<Cplx>, output: array<Cplx>, at: nat, size: nat, from: Cplx, ghost was: seq<Cplx>,
                 ghost start: Cplx)
      returns (val: Cplx)
      requires Filled(t) && size <= 128 && at + size <= |input| <= output.Length == |was|
      requires from == Turned(start, t.At(phaseIncrement), at)
      requires Done(output[..], was, input, at, start, t.At(phaseIncrement))
      modifies output
      ensures Done(output[..], was, input, at + Whole(size), start, t.At(phaseIncrement))
      ensures val == Turned(start, t.At(phaseIncrement), at + Whole(size))
    {
      ghost var r := t.At(phaseIncrement);
      val := from;
      WholeIs(size);
      for i := 0 to size / 4
        invariant val == Turned(start, r, at + 4 * i)
        invariant Done(output[..], was, input, at + 4 * i, start, r)
      {
        val := MixFour(t, input[at + 4 * i..at + 4 * i + 4], output, at, 4 * i, from, val, was, input, start);
      }
    }

    /** One pass of the outer loop: a block, then the phasor is divided by its magnitude, which changes nothing. */
    method Pass(t: Trig, input: seq<Cplx>, output: array<Cplx>, at: nat, size: nat, from: Cplx, ghost was: seq<Cplx>,
                ghost start: Cplx)
      returns (val: Cplx)
      requires t.Lawful() && Filled(t) && size <= 128 && at + size <= |input| <= output.Length == |was|
      requires start.NormSq() == 1.0 && from == Turned(start, t.At(phaseIncrement), at)
      requires Done(output[..], was, input, at, start, t.At(phaseIncrement))
      modifies output
      ensures Done(output[..], was, input, at + Whole(size), start, t.At(phaseIncrement))
      ensures val == Turned(start, t.At(phaseIncrement), at + Whole(size))
    {
      val := Block(t, input, output, at, size, from, was, start);
      assert t.OnCircle(phaseIncrement);
      TurnedUnit(start, t.At(phaseIncrement), at + Whole(size));
      val := Normalised(t, val);
    }

    /** The outer loop. */
    method Blocks(t: Trig, input: seq<Cplx>, output: array<Cplx>, start: Cplx) returns (val: Cplx)
      requires t.Lawful() && Filled(t) && |input| <= output.Length && start.NormSq() == 1.0
      modifies output
      ensures Done(output[..], old(output[..]), input, Whole(|input|), start, t.At(phaseIncrement))
      ensures val == Turned(start, t.At(phaseIncrement), Whole(|input|)) && val.NormSq() == 1.0
    {
      ghost var r, was := t.At(phaseIncrement), output[..];
      TurnedZero(start, r);
      val := start;
      var size: int, at := |input|, 0;
      ghost var mixed, passes := 0, 0;
      while size > 0
        invariant at == 128 * passes && size == |input| - at
        invariant mixed == if size > 0 then at else Whole(|input|)
        invariant val == Turned(start, r, mixed) && Done(output[..], was, input, mixed, start, r)
      {
        var n := if size >= 128 then 128 else size;
        val := Pass(t, input, output, at, n, val, was, start);
        NextMixed(|input|, passes, n);
        mixed := at + Whole(n);
        size, at, passes := size - 128, at + 128, passes + 1;
      }
      assert t.OnCircle(phaseIncrement);
      TurnedUnit(start, r, mixed);
    }

    /** shift_limited_unroll_cc. */
    method Mix(t: Trig, input: seq<Cplx>, output: array<Cplx>)
      requires t.Lawful() && Valid(t) && |input| <= output.Length
      modifies output, this`complexPhase
      ensures Valid(t)
      ensures var start, r, k := old(complexPhase), t.At(phaseIncrement), |input| / 4 * 4;
              && output[..k] == Mixed(input[..k], start, r) && output[k..] == old(output[k..])
              && complexPhase == Turned(start, r, k)
    {
      ghost var start, was := complexPhase, output[..];
      WholeIs(|input|);
      var val := Blocks(t, input, output, complexPhase);
      DoneIsMixed(output[..], was, input, |input| / 4 * 4, start, t.At(phaseIncrement));
      complexPhase := val;
    }

    /** A block of shift_limited_unroll_inp_c: four samples at a time are read before any of them is written. */
    method BlockInPlace(t: Trig, inOut: array<Cplx>, at: nat, size: nat, from: Cplx, ghost was: seq<Cplx>,
                        ghost start: Cplx)
      returns (val: Cplx)
      requires Filled(t) && size <= 128 && at + size <= inOut.Length == |was|
      requires from == Turned(start, t.At(phaseIncrement), at)
      requires Done(inOut[..], was, was, at, start, t.At(phaseIncrement))
      modifies inOut
      ensures Done(inOut[..], was, was, at + Whole(size), start, t.At(phaseIncrement))
      ensures val == Turned(start, t.At(phaseIncrement), at + Whole(size))
    {
      ghost var r := t.At(phaseIncrement);
      val := from;
      WholeIs(size);
      for i := 0 to size / 4
        invariant val == Turned(start, r, at + 4 * i)
        invariant Done(inOut[..], was, was, at + 4 * i, start, r)
      {
        var inp := inOut[at + 4 * i..at + 4 * i + 4];
        assert forall k | 0 <= k < 4 :: inp[k] == was[at + 4 * i + k];
        val := MixFour(t, inp, inOut, at, 4 * i, from, val, was, was, start);
      }
    }

    /** One pass of its outer loop. */
    method PassInPlace(t: Trig, inOut: array<Cplx>, at: nat, size: nat, from: Cplx, ghost was: seq<Cplx>,
                       ghost start: Cplx)
      returns (val: Cplx)
      requires t.Lawful() && Filled(t) && size <= 128 && at + size <= inOut.Length == |was|
      requires start.NormSq() == 1.0 && from == Turned(start, t.At(phaseIncrement), at)
      requires Done(inOut[..], was, was, at, start, t.At(phaseIncrement))
      modifies inOut
      ensures Done(inOut[..], was, was, at + Whole(size), start, t.At(phaseIncrement))
      ensures val == Turned(start, t.At(phaseIncrement), at + Whole(size))
    {
      val := BlockInPlace(t, inOut, at, size, from, was, start);
      assert t.OnCircle(phaseIncrement);
      TurnedUnit(start, t.At(phaseIncrement), at + Whole(size));
      val := Normalised(t, val);
    }

    /** The outer loop: it stops at 0, or once the count has passed it. */
    method BlocksInPlace(t: Trig, inOut: array<Cplx>, size: nat, start: Cplx) returns (val: Cplx, ended: bool)
      requires t.Lawful() && Filled(t) && size <= inOut.Length && start.NormSq() == 1.0
      modifies inOut
      ensures Done(inOut[..], old(inOut[..]), old(inOut[..]), Whole(size), start, t.At(phaseIncrement))
      ensures val == Turned(start, t.At(phaseIncrement), Whole(size)) && val.NormSq() == 1.0
      ensures (ended <==> size % 128 == 0) && (ended ==> Whole(size) == size)
    {
      ghost var r, was := t.At(phaseIncrement), inOut[..];
      TurnedZero(start, r);
      val := start;
      var left: int, at := size, 0;
      ghost var mixed, passes := 0, 0;
      while left > 0
        invariant at == 128 * passes && left == size - at && at < size + 128
        invariant mixed == if left > 0 then at else Whole(size)
        invariant val == Turned(start, r, mixed) && Done(inOut[..], was, was, mixed, start, r)
      {
        var n := if left >= 128 then 128 else left;
        val := PassInPlace(t, inOut, at, n, val, was, start);
        NextMixed(size, passes, n);
        mixed := at + Whole(n);
        left, at, passes := left - 128, at + 128, passes + 1;
      }
      WholeBlocks(size, passes);
      assert t.OnCircle(phaseIncrement);
      TurnedUnit(start, r, Whole(size));
      ended := left == 0;
    }

    /** shift_limited_unroll_inp_c, for any size. Its outer loop ends when the count of samples left is exactly 0, so it
        ends only for whole blocks of 128: otherwise the count passes 0 and the loop goes on with nothing left to mix,
        which is where this method stops. The phase is stored only at the end. */
    method MixInPlace(t: Trig, inOut: array<Cplx>, size: nat) returns (ended: bool)
      requires t.Lawful() && Valid(t) && size <= inOut.Length
      modifies inOut, this`complexPhase
      ensures Valid(t) && (ended <==> size % 128 == 0)
      ensures var start, r, k := old(complexPhase), t.At(phaseIncrement), size / 4 * 4;
              && inOut[..k] == Mixed(old(inOut[..k]), start, r) && inOut[k..] == old(inOut[k..])
              && complexPhase == if ended then Turned(start, r, size) else start
    {
      ghost var start, r, was := complexPhase, t.At(phaseIncrement), inOut[..];
      WholeIs(size);
      var val;
      val, ended := BlocksInPlace(t, inOut, size, complexPhase);
      DoneIsMixed(inOut[..], was, was, size / 4 * 4, start, r);
      if ended {
        complexPhase := val;
      }
    }
  }

  /** Counting down by 128 as often as it takes. */
  lemma WholeBlocks(size: nat, passes: nat)
    requires 128 * (passes - 1) < size <= 128 * passes
    ensures size == 128 * passes <==> size % 128 == 0
    ensures size == 128 * passes ==> Whole(size) == size
  {
    if size == 128 * passes {
      WholeAfter(32 * passes, 0);
    } else {
      assert size == 128 * (passes - 1) + (size - 128 * (passes - 1));
    }
  }

  /** The count of samples left comes to 0 after some number of blocks exactly for a multiple of 128, although the header
      asks only for a multiple of 4. */
  lemma InPlaceEnds(size: nat)
    ensures (exists passes: nat :: LeftAfter(size, passes) == 0) <==> size % 128 == 0
  {
    if size % 128 == 0 {
      assert LeftAfter(size, size / 128) == 0;
    }
  }

  function LeftAfter(size: nat, passes: nat): int {
    size - 128 * passes
  }

  /** The samples in whole groups of four. */
  ghost function Whole(n: nat): (w: nat)
    ensures w <= n
  {
    if n < 4 then 0 else 4 + Whole(n - 4)
  }

  lemma {:induction false} WholeIs(n: nat)
    ensures Whole(n) == n / 4 * 4
  {
    if n >= 4 { WholeIs(n - 4); }
  }

  lemma {:induction false} WholeAfter(groups: nat, n: nat)
    ensures Whole(4 * groups + n) == 4 * groups + Whole(n)
  {
    if groups > 0 { WholeAfter(groups - 1, n); }
  }

  /** After one more block of n samples: everything so far if more are left, and at the end all whole groups. */
  lemma NextMixed(total: nat, passes: nat, n: nat)
    requires 128 * passes < total && n == if total - 128 * passes >= 128 then 128 else total - 128 * passes
    ensures 128 * passes + Whole(n) == if total - 128 * (passes + 1) > 0 then 128 * (passes + 1) else Whole(total)
  {
    WholeAfter(32 * passes, n);
    WholeIs(n);
  }

  /** Division by the magnitude: nothing happens to a unit phasor. */
  method Normalised(t: Trig, val: Cplx) returns (unit: Cplx)
    requires t.Lawful() && val.NormSq() == 1.0
    ensures unit == val
  {
    var square := val.re * val.re + val.im * val.im;
    assert square == 1.0;
    var mag := t.sqrt(square);
    unit := Cplx(val.re / mag, val.im / mag);
  }
}
