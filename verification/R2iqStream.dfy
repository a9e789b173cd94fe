/** The block-free meaning of the real-to-IQ conversion: overlapping windows of one continuous sample stream, each put
    through the forward transform, the shift-and-filter, and the short inverse transform. */
module R2iqStream {
  import opened Words
  import opened Complex
  import opened Spectrum
  import opened Tuning

  /** A 16-bit ADC sample. */
  type Sample = x: int | -32768 <= x < 32768

  /** A sample's 16 bits, and what 16 bits stand for. */
  function Pattern(x: Sample): nat {
    if x < 0 then x + 0x1_0000 else x
  }

  function Signed(p: nat): Sample
    requires p < 0x1_0000
  {
    if p < 0x8000 then p else p - 0x1_0000
  }

  /** `x ^ (-2)` flips every bit but the lowest: it negates odd numbers and sends even ones to -x - 2. */
  function XorMinus2(x: Sample): (y: Sample)
    ensures y == if x % 2 == 1 then -x else -2 - x
  {
    FlipsAllButOne(Pattern(x));
    Signed(Xor(Pattern(x), Pattern(-2)))
  }

  lemma FlipsAllButOne(p: nat)
    requires p < 0x1_0000
    ensures Xor(p, 0xFFFE) == if p % 2 == 1 then 0x1_0000 - p else 0xFFFE - p
  {
    if p > 0 {
      assert Pow2(15) == 0x8000 by { assert Pow2(8) == 0x100; }
      XorOnes(15, p / 2);
      assert 0xFFFE / 2 == 0x7FFF;
    }
  }

  /** convert_float for one sample: with the ADC's randomiser on, odd samples change their sign. */
  function Convert(x: Sample, rand: bool): (r: real)
    ensures r == if rand && x % 2 == 1 then -(x as real) else x as real
  {
    (if rand && x % 2 == 1 then XorMinus2(x) else x) as real
  }

  /** The randomiser is its own inverse, so conversion recovers every sample it scrambled. */
  lemma RandomiserUndone(x: Sample)
    ensures var scrambled: Sample := if x % 2 == 1 then XorMinus2(x) else x;
            Convert(scrambled, true) == x as real
  {
  }

  function ConvertAll(xs: seq<Sample>, rand: bool): (r: seq<real>)
    ensures |r| == |xs|
  {
    seq(|xs|, i requires 0 <= i < |xs| => Convert(xs[i], rand))
  }

  lemma ConvertAppend(a: seq<Sample>, b: seq<Sample>, rand: bool)
    ensures ConvertAll(a + b, rand) == ConvertAll(a, rand) + ConvertAll(b, rand)
  {
  }

  /** What stays fixed during a run. The transforms are arbitrary functions with the right sizes. */
  datatype Setup = Setup(fft: seq<real> -> seq<Cplx>, ifft: seq<Cplx> -> seq<Cplx>, filter: seq<Cplx>, center: nat,
                         decimation: nat, lsb: bool, rand: bool)
  {
    ghost predicate Ok() {
      && |filter| == 5120 && center <= 5120 && decimation < NDECIDX
      && (forall w: seq<real> :: |fft(w)| == 5121)
      && (forall y: seq<Cplx> :: |ifft(y)| == |y|)
    }

    function Half(): nat {
      ShortSize(decimation) / 2
    }

    /** The samples one window contributes: the first part of its short inverse transform, mirrored for the lower
        sideband. */
    ghost function Yield(window: seq<real>): (r: seq<Cplx>)
      requires Ok()
      ensures |r| == Useful(decimation)
    {
      SizesDivide(decimation);
      Sided(ifft(Rotated(fft(window), filter, center, Half()))[..Useful(decimation)], lsb)
    }

    /** The output for a sample stream: windows of 10240 samples, 8192 apart, for as long as they fit. */
    ghost function Out(x: seq<real>): seq<Cplx>
      requires Ok()
      decreases |x|
    {
      if |x| < 10240 then [] else Yield(x[..10240]) + Out(x[8192..])
    }
  }

  /** copy<flip>: the lower sideband is mirrored by negating Q. */
  function Sided(y: seq<Cplx>, lsb: bool): (r: seq<Cplx>)
    ensures |r| == |y| && forall i | 0 <= i < |y| :: r[i].re == y[i].re && r[i].im == if lsb then -y[i].im else y[i].im
  {
    seq(|y|, i requires 0 <= i < |y| => if lsb then y[i].Conj() else y[i])
  }

  /** Sample i of a window's contribution is sample i of the short inverse transform, mirrored for the lower sideband. */
  lemma YieldAt(s: Setup, window: seq<real>, i: nat)
    requires s.Ok() && i < Useful(s.decimation) && ShortSize(s.decimation) % 2 == 0 && ShortSize(s.decimation) <= 5120
    ensures var y := s.ifft(Rotated(s.fft(window), s.filter, s.center, ShortSize(s.decimation) / 2));
            && |s.Yield(window)| == Useful(s.decimation) <= |y| == ShortSize(s.decimation)
            && s.Yield(window)[i] == Cplx(y[i].re, if s.lsb then -y[i].im else y[i].im)
  {
    SizesDivide(s.decimation);
  }

  /** Window `j` of the stream starts at sample 8192 j and fills output samples [j * useful, (j + 1) * useful). */
  lemma {:induction false} OutOfWindow(s: Setup, x: seq<real>, j: nat)
    requires s.Ok() && 8192 * j + 10240 <= |x|
    ensures var u := Useful(s.decimation);
            && u > 0 && 0 <= j * u && (j + 1) * u <= |s.Out(x)|
            && s.Out(x)[j * u..(j + 1) * u] == s.Yield(x[8192 * j..8192 * j + 10240])
    decreases j
  {
    SizesDivide(s.decimation);
    var u := Useful(s.decimation);
    if j > 0 {
      OutOfWindow(s, x[8192..], j - 1);
      assert x[8192..][8192 * (j - 1)..8192 * (j - 1) + 10240] == x[8192 * j..8192 * j + 10240];
      assert j * u == u + (j - 1) * u && (j + 1) * u == u + (j - 1 + 1) * u;
      PartBehind(s.Yield(x[..10240]), s.Out(x[8192..]), (j - 1) * u, (j - 1 + 1) * u);
    } else {
      assert s.Out(x)[..u] == s.Yield(x[..10240]);
      assert x[0..10240] == x[..10240];
    }
  }

  lemma PartBehind<T>(a: seq<T>, b: seq<T>, i: nat, k: nat)
    requires i <= k <= |b|
    ensures (a + b)[|a| + i..|a| + k] == b[i..k]
  {
  }

  /** The stream can be cut at any window boundary if the last 2048 samples are carried over: block boundaries are
      invisible in the output. */
  lemma {:induction false} BoundariesAreInvisible(s: Setup, x: seq<real>, y: seq<real>, windows: nat)
    requires s.Ok() && |x| == 2048 + 8192 * windows
    ensures s.Out(x + y) == s.Out(x) + s.Out(x[|x| - 2048..] + y)
    decreases windows
  {
    if windows == 0 {
      assert x[0..] + y == x + y;
    } else {
      var rest := x[8192..];
      BoundariesAreInvisible(s, rest, y, windows - 1);
      assert (x + y)[..10240] == x[..10240];
      assert (x + y)[8192..] == rest + y;
      assert rest[|rest| - 2048..] == x[|x| - 2048..];
      assert s.Out(x + y) == s.Yield(x[..10240]) + (s.Out(rest) + s.Out(x[|x| - 2048..] + y));
    }
  }

  /** One more window at the end of the stream. */
  lemma OneMoreWindow(s: Setup, x: seq<real>, step: seq<real>, windows: nat)
    requires s.Ok() && |x| == 2048 + 8192 * windows && |step| == 8192
    ensures s.Out(x + step) == s.Out(x) + s.Yield(x[|x| - 2048..] + step)
  {
    BoundariesAreInvisible(s, x, step, windows);
    var w := x[|x| - 2048..] + step;
    assert w[..10240] == w;
    assert s.Out(w) == s.Yield(w) + s.Out(w[8192..]) == s.Yield(w);
  }

  /** Window k of a stretch of samples adds the output beyond that of the samples before its last 8192. */
  lemma NextWindow(s: Setup, x: seq<real>, k: nat)
    requires s.Ok() && 8192 * k + 10240 <= |x|
    ensures s.Out(x[..2048 + 8192 * (k + 1)]) == s.Out(x[..2048 + 8192 * k]) + s.Yield(x[8192 * k..8192 * k + 10240])
  {
    var before, step := x[..2048 + 8192 * k], x[2048 + 8192 * k..2048 + 8192 * (k + 1)];
    OneMoreWindow(s, before, step, k);
    assert before + step == x[..2048 + 8192 * (k + 1)];
    assert before[|before| - 2048..] + step == x[8192 * k..8192 * k + 10240];
  }
}
