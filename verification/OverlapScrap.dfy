/** What the conversion does when its transforms are discrete Fourier transforms: it mixes the input down by the centre bin,
    filters it and keeps every 2 * ratio-th sample. */
module OverlapScrap {
  import opened Words
  import opened Complex
  import opened Phasors
  import opened Sums
  import opened Dft
  import opened Convolution
  import opened Spectrum
  import opened Tuning
  import opened R2iqStream

  /** Input samples per output sample. */
  function Spacing(s: Setup): nat {
    2 * Pow2(s.decimation)
  }

  lemma Sizes(s: Setup)
    requires s.Ok()
    ensures ShortSize(s.decimation) * Spacing(s) == 10240 && 0 < Spacing(s)
    ensures Useful(s.decimation) * Spacing(s) == 8192 && 0 < Useful(s.decimation) <= ShortSize(s.decimation)
    ensures s.Half() <= 2560 && 2 * s.Half() == ShortSize(s.decimation)
  {
    SizesDivide(s.decimation);
    Twice(ShortSize(s.decimation), Pow2(s.decimation));
    Twice(Useful(s.decimation), Pow2(s.decimation));
  }

  lemma Twice(a: int, b: int)
    ensures a * (2 * b) == 2 * (a * b)
  {
  }

  /** The transforms are discrete Fourier transforms of 10240 real samples and of the short size. */
  ghost predicate Transforms(s: Setup, w: Root)
    requires s.Ok()
  {
    && (forall x: seq<real>, b: nat | |x| == 10240 && b <= 5120 :: IsForward(s, w, x, b))
    && (forall y: seq<Cplx>, m: nat | |y| == ShortSize(s.decimation) && m < |y| :: IsBackward(s, w, y, m))
  }

  ghost predicate IsForward(s: Setup, w: Root, x: seq<real>, b: nat)
    requires s.Ok() && b <= 5120
  {
    s.fft(x)[b] == Forward(w, x, b)
  }

  ghost predicate IsBackward(s: Setup, w: Root, y: seq<Cplx>, m: nat)
    requires s.Ok() && m < |y|
  {
    s.ifft(y)[m] == Backward(w, y, m * Spacing(s))
  }

  /** The bin that comes to index i, relative to the centre. */
  function Offset(s: Setup, i: int): int {
    if i < s.Half() then i else i - 2 * s.Half()
  }

  /** The filter at that bin, or zero outside the spectrum. */
  ghost function Coefficient(s: Setup, i: int): Cplx
    requires s.Ok()
  {
    var j := Offset(s, i);
    if -5120 <= j < 5120 && 0 <= s.center + j < 5120 then s.filter[if j < 0 then j + 5120 else j] else ZERO
  }

  ghost function ResponseTerm(s: Setup, w: Root, lag: int): int -> Cplx
    requires s.Ok()
  {
    i => Coefficient(s, i).Mul(w(Offset(s, i) * lag))
  }

  /** The impulse response, counted round the circle of 10240 samples. */
  ghost function Response(s: Setup, w: Root): int -> Cplx
    requires s.Ok()
  {
    lag => Sum(2 * s.Half(), ResponseTerm(s, w, lag))
  }

  lemma ResponseGoesRound(s: Setup, w: Root)
    requires s.Ok() && IsRoot(w)
    ensures GoesRound(Response(s, w), 10240)
  {
    forall lag: int ensures SameOneTurnOn(Response(s, w), 10240, lag) {
      OneTurnOn(s, w, lag);
    }
  }

  lemma OneTurnOn(s: Setup, w: Root, lag: int)
    requires s.Ok() && IsRoot(w)
    ensures Response(s, w)(lag + 10240) == Response(s, w)(lag)
  {
    forall i | 0 <= i < 2 * s.Half() ensures ResponseTerm(s, w, lag + 10240)(i) == ResponseTerm(s, w, lag)(i) {
      var j := Offset(s, i);
      assert j * (lag + 10240) == j * lag + 10240 * j;
      WholeTurns(w, j * lag, j);
    }
    SumSame(2 * s.Half(), ResponseTerm(s, w, lag + 10240), ResponseTerm(s, w, lag));
  }

  /** The input, mixed down by the centre bin. */
  ghost function MixedDown(s: Setup, w: Root, x: seq<real>): int -> Cplx {
    p => if 0 <= p < |x| then Real(x[p]).Mul(w(-(s.center * p))) else ZERO
  }

  // ---- one window ----

  /** What sample n of the window contributes by way of index i of the short spectrum. */
  ghost function Table(s: Setup, w: Root, x: seq<real>, at: int): (int, int) -> Cplx
    requires s.Ok()
  {
    (i, n) => if 0 <= n < |x|
              then Real(x[n]).Mul(w(-((s.center + Offset(s, i)) * n))).Mul(Coefficient(s, i).Mul(w(i * at)))
              else ZERO
  }

  /** A row of the table adds up to the bin times the filter times the turn. */
  lemma RowIsBin(s: Setup, w: Root, x: seq<real>, at: int, i: nat)
    requires s.Ok()
    ensures Sum(|x|, Row(Table(s, w, x, at), i)) ==
            Forward(w, x, s.center + Offset(s, i)).Mul(Coefficient(s, i).Mul(w(i * at)))
  {
    var term, row := ForwardTerm(w, x, s.center + Offset(s, i)), Row(Table(s, w, x, at), i);
    var turned := Coefficient(s, i).Mul(w(i * at));
    forall n | 0 <= n < |x| ensures row(n) == term(n).Mul(turned) {
      EntryOfRow(s, w, x, at, i, n);
    }
    SumScale(|x|, term, turned, row);
  }

  lemma EntryOfRow(s: Setup, w: Root, x: seq<real>, at: int, i: nat, n: nat)
    requires s.Ok() && n < |x|
    ensures Row(Table(s, w, x, at), i)(n) ==
            ForwardTerm(w, x, s.center + Offset(s, i))(n).Mul(Coefficient(s, i).Mul(w(i * at)))
  {
  }

  /** Index i of the short spectrum. */
  lemma EntryOfSpectrum(s: Setup, spectrum: seq<Cplx>, i: nat, bin: Cplx)
    requires s.Ok() && |spectrum| == 5121 && i < 2 * s.Half() && s.Half() <= 2560
    requires 0 <= s.center + Offset(s, i) < 5120 ==> spectrum[s.center + Offset(s, i)] == bin
    ensures Rotated(spectrum, s.filter, s.center, s.Half())[i] == bin.Mul(Coefficient(s, i))
  {
    var j := Offset(s, i);
    assert Rotated(spectrum, s.filter, s.center, s.Half())[i] == Shifted(spectrum, s.filter, s.center, j);
    if 0 <= s.center + j < 5120 {
      assert Shifted(spectrum, s.filter, s.center, j) == bin.Mul(Coefficient(s, i));
    } else {
      TimesZero(bin);
    }
  }

  lemma BinIs(s: Setup, w: Root, x: seq<real>, b: nat)
    requires s.Ok() && Transforms(s, w) && |x| == 10240 && b <= 5120
    ensures s.fft(x)[b] == Forward(w, x, b)
  {
    assert IsForward(s, w, x, b);
  }

  /** Index i of the short spectrum, turned for the output at position `at`, is row i of the table. */
  lemma RowIsTerm(s: Setup, w: Root, x: seq<real>, at: int, i: nat, entry: Cplx)
    requires s.Ok() && entry == Forward(w, x, s.center + Offset(s, i)).Mul(Coefficient(s, i))
    ensures entry.Mul(w(i * at)) == Sum(|x|, Row(Table(s, w, x, at), i))
  {
    RowIsBin(s, w, x, at, i);
    TurnLater(Forward(w, x, s.center + Offset(s, i)), Coefficient(s, i), w(i * at), entry);
  }

  lemma TurnLater(bin: Cplx, c: Cplx, turn: Cplx, entry: Cplx)
    requires entry == bin.Mul(c)
    ensures entry.Mul(turn) == bin.Mul(c.Mul(turn))
  {
    MulAssociates(bin, c, turn);
  }

  /** A turn by index i is a turn by its offset: the two differ by whole turns. */
  lemma IndexIsOffset(s: Setup, w: Root, i: int, m: nat)
    requires s.Ok() && IsRoot(w)
    ensures w(i * (m * Spacing(s))) == w(Offset(s, i) * (m * Spacing(s)))
  {
    Sizes(s);
    var j, at := Offset(s, i), m * Spacing(s);
    if i != j {
      assert i * at == j * at + ShortSize(s.decimation) * (m * Spacing(s));
      assert ShortSize(s.decimation) * (m * Spacing(s)) == 10240 * m by {
        Regroup(ShortSize(s.decimation), m, Spacing(s));
      }
      WholeTurns(w, j * at, m);
    }
  }

  lemma Regroup(a: int, m: int, b: int)
    ensures a * (m * b) == a * b * m
  {
  }

  /** x a b times c d is c times d b, times x a. */
  lemma Rearrange(x: Cplx, a: Cplx, b: Cplx, c: Cplx, d: Cplx)
    ensures x.Mul(a.Mul(b)).Mul(c.Mul(d)) == c.Mul(d.Mul(b)).Mul(x.Mul(a))
  {
    var xa := x.Mul(a);
    MulAssociates(x, a, b);
    assert x.Mul(a.Mul(b)) == xa.Mul(b);
    MulAssociates(xa, b, c.Mul(d));
    MulCommutes(b, c.Mul(d));
    MulAssociates(c, d, b);
    MulCommutes(xa, c.Mul(d.Mul(b)));
  }

  /** One entry of the table, by lag. */
  /** Its two turns, apart. */
  lemma TurnsApart(w: Root, c: int, j: int, n: int, at: int)
    requires IsRoot(w)
    ensures w(-((c + j) * n)) == w(-(c * n)).Mul(w(-(j * n)))
    ensures w(j * (at - n)) == w(j * at).Mul(w(-(j * n)))
  {
    var a, b := -(c * n), -(j * n);
    assert -((c + j) * n) == a + b;
    assert Adds(w, a, b);
    assert j * (at - n) == j * at + b;
    assert Adds(w, j * at, b);
  }

  lemma EntryIs(s: Setup, w: Root, x: seq<real>, m: nat, at: int, i: int, n: int, mixed: Cplx)
    requires s.Ok() && IsRoot(w) && 0 <= n < |x| && at == m * Spacing(s) && mixed == MixedDown(s, w, x)(n)
    ensures Column(Table(s, w, x, at), n)(i) == ResponseTerm(s, w, at - n)(i).Mul(mixed)
  {
    var j := Offset(s, i);
    IndexIsOffset(s, w, i, m);
    TurnsApart(w, s.center, j, n, at);
    Rearrange(Real(x[n]), w(-(s.center * n)), w(-(j * n)), Coefficient(s, i), w(j * at));
  }

  /** Each column is the share of one sample. */
  lemma ColumnIsShare(s: Setup, w: Root, x: seq<real>, m: nat, at: int, n: nat)
    requires s.Ok() && IsRoot(w) && n < |x| && at == m * Spacing(s)
    ensures Share(MixedDown(s, w, x), Response(s, w), at)(n) == Sum(2 * s.Half(), Column(Table(s, w, x, at), n))
  {
    ColumnIs(s, w, x, m, at, n, MixedDown(s, w, x)(n), Column(Table(s, w, x, at), n), ResponseTerm(s, w, at - n));
    ShareIs(MixedDown(s, w, x), Response(s, w), at, n);
  }

  lemma ColumnIs(s: Setup, w: Root, x: seq<real>, m: nat, at: int, n: nat, mixed: Cplx, column: int -> Cplx,
                 term: int -> Cplx)
    requires s.Ok() && IsRoot(w) && n < |x| && at == m * Spacing(s) && mixed == MixedDown(s, w, x)(n)
    requires column == Column(Table(s, w, x, at), n) && term == ResponseTerm(s, w, at - n)
    ensures Sum(2 * s.Half(), column) == Sum(2 * s.Half(), term).Mul(mixed)
  {
    forall i | 0 <= i < 2 * s.Half() ensures column(i) == term(i).Mul(mixed) {
      EntryIs(s, w, x, m, at, i, n, mixed);
    }
    SumScale(2 * s.Half(), term, mixed, column);
  }

  lemma ShareIs(x: int -> Cplx, g: int -> Cplx, at: int, n: int)
    ensures Share(x, g, at)(n) == g(at - n).Mul(x(n))
  {
    MulCommutes(g(at - n), x(n));
  }

  /** The table summed by rows is the backward transform, and by columns the filtered window. */
  lemma BothWays(s: Setup, w: Root, x: seq<real>, y: seq<Cplx>, m: nat)
    requires s.Ok() && IsRoot(w) && |y| == 2 * s.Half()
    requires forall i | 0 <= i < |y| ::
               y[i].Mul(w(i * (m * Spacing(s)))) == Sum(|x|, Row(Table(s, w, x, m * Spacing(s)), i))
    ensures Backward(w, y, m * Spacing(s)) == Circular(MixedDown(s, w, x), Response(s, w), |x|, m * Spacing(s))
  {
    var at := m * Spacing(s);
    var shares := Share(MixedDown(s, w, x), Response(s, w), at);
    forall n | 0 <= n < |x| ensures shares(n) == Sum(|y|, Column(Table(s, w, x, at), n)) {
      ColumnIsShare(s, w, x, m, at, n);
    }
    TwoWays(|y|, |x|, Table(s, w, x, at), BackwardTerm(w, y, at), shares);
  }

  /** Sample m of a window's short inverse transform is the window mixed down by the centre bin and filtered, circularly, at
      position m * 2 * ratio: for every filter, centre bin and decimation. */
  lemma WindowIsFiltered(s: Setup, w: Root, x: seq<real>, m: nat)
    requires s.Ok() && IsRoot(w) && Transforms(s, w) && |x| == 10240 && m < ShortSize(s.decimation)
    requires s.Half() <= 2560 && 2 * s.Half() == ShortSize(s.decimation)
    ensures s.ifft(Rotated(s.fft(x), s.filter, s.center, s.Half()))[m] ==
            Circular(MixedDown(s, w, x), Response(s, w), |x|, m * Spacing(s))
  {
    var at, y := m * Spacing(s), Rotated(s.fft(x), s.filter, s.center, s.Half());
    assert IsBackward(s, w, y, m);
    forall i | 0 <= i < |y| ensures y[i].Mul(w(i * at)) == Sum(|x|, Row(Table(s, w, x, at), i)) {
      var b := s.center + Offset(s, i);
      if 0 <= b < 5120 { BinIs(s, w, x, b); }
      EntryOfSpectrum(s, s.fft(x), i, Forward(w, x, b));
      RowIsTerm(s, w, x, at, i, y[i]);
    }
    BothWays(s, w, x, y, m);
  }

  // ---- the stream ----

  /** A centre bin that is a multiple of 5, as the tuning chooses it, keeps one phase from window to window. */
  lemma OnePhase(s: Setup, w: Root, j: nat, n: nat)
    requires IsRoot(w) && s.center % 5 == 0
    ensures w(-(s.center * (8192 * j + n))) == w(-(s.center * n))
  {
    var turns := s.center / 5 * (4 * j);
    assert s.center == 5 * (s.center / 5);
    assert s.center * (8192 * j + n) == s.center * n + 8192 * (s.center * j);
    assert 8192 * (s.center * j) == 10240 * turns by {
      Regroup(s.center / 5, 5, j);
      Regroup(s.center / 5, 4, j);
    }
    WholeTurns(w, -(s.center * n), -turns);
  }

  /** Where sample m of window j stands. */
  lemma PositionIs(s: Setup, j: nat, m: nat)
    requires s.Ok()
    ensures (j * Useful(s.decimation) + m) * Spacing(s) == 8192 * j + m * Spacing(s)
  {
    Sizes(s);
    Regroup(j, 1, Useful(s.decimation) * Spacing(s));
    assert (j * Useful(s.decimation) + m) * Spacing(s) == j * Useful(s.decimation) * Spacing(s) + m * Spacing(s);
    assert j * Useful(s.decimation) * Spacing(s) == j * (Useful(s.decimation) * Spacing(s));
  }

  /** A window of the stream, mixed down, is the stream mixed down there. */
  lemma WindowMixedDown(s: Setup, w: Root, x: seq<real>, j: nat, n: nat)
    requires IsRoot(w) && s.center % 5 == 0 && 8192 * j + 10240 <= |x| && n < 10240
    ensures MixedDown(s, w, x[8192 * j..8192 * j + 10240])(n) == MixedDown(s, w, x)(8192 * j + n)
  {
    OnePhase(s, w, j, n);
    assert x[8192 * j..8192 * j + 10240][n] == x[8192 * j + n];
  }

  lemma WindowsMixedDown(s: Setup, w: Root, x: seq<real>, j: nat)
    requires IsRoot(w) && s.center % 5 == 0 && 8192 * j + 10240 <= |x|
    ensures IsWindow(MixedDown(s, w, x[8192 * j..8192 * j + 10240]), MixedDown(s, w, x), 10240, 8192 * j)
  {
    var window := MixedDown(s, w, x[8192 * j..8192 * j + 10240]);
    forall n | 0 <= n < 10240 ensures window(n) == MixedDown(s, w, x)(8192 * j + n) {
      WindowMixedDown(s, w, x, j, n);
    }
  }

  lemma InWindow(s: Setup, x: seq<real>, j: nat, m: nat)
    requires s.Ok() && 8192 * j + 10240 <= |x| && m < Useful(s.decimation)
    ensures var k := j * Useful(s.decimation) + m;
            0 <= k < |s.Out(x)| && s.Out(x)[k] == s.Yield(x[8192 * j..8192 * j + 10240])[m]
  {
    var u := Useful(s.decimation);
    OutOfWindow(s, x, j);
    assert (j + 1) * u == j * u + u;
    assert s.Out(x)[j * u..(j + 1) * u][m] == s.Out(x)[j * u + m];
  }

  /** The lower sideband is mirrored. */
  function Mirrored(z: Cplx, lsb: bool): Cplx {
    Cplx(z.re, if lsb then -z.im else z.im)
  }

  /** Sample m of window j of a stream. */
  lemma SampleOfWindow(s: Setup, w: Root, x: seq<real>, j: nat, m: nat, k: nat)
    requires s.Ok() && IsRoot(w) && Transforms(s, w) && 8192 * j + 10240 <= |x| && m < Useful(s.decimation)
    requires k == j * Useful(s.decimation) + m
    ensures k < |s.Out(x)|
    ensures s.Out(x)[k] == Mirrored(Circular(MixedDown(s, w, x[8192 * j..8192 * j + 10240]), Response(s, w), 10240,
                                             m * Spacing(s)), s.lsb)
  {
    Sizes(s);
    InWindow(s, x, j, m);
    YieldAt(s, x[8192 * j..8192 * j + 10240], m);
    WindowIsFiltered(s, w, x[8192 * j..8192 * j + 10240], m);
  }

  /** Every output sample, of every stream: the input mixed down by the centre bin with one phase from the first sample of
      the stream to the last, filtered over the 10240 samples of its window, at 2 * ratio input samples per output sample;
      mirrored for the lower sideband. */
  lemma StreamIsFiltered(s: Setup, w: Root, x: seq<real>, j: nat, m: nat, k: nat, at: nat)
    requires s.Ok() && IsRoot(w) && Transforms(s, w) && s.center % 5 == 0
    requires 8192 * j + 10240 <= |x| && m < Useful(s.decimation)
    requires k == j * Useful(s.decimation) + m && at == k * Spacing(s)
    ensures k < |s.Out(x)|
    ensures s.Out(x)[k] == Mirrored(Sum(10240, From(Share(MixedDown(s, w, x), Response(s, w), at), 8192 * j)), s.lsb)
  {
    SampleOfWindow(s, w, x, j, m, k);
    PositionIs(s, j, m);
    WindowsMixedDown(s, w, x, j);
    WindowOfStream(MixedDown(s, w, x), MixedDown(s, w, x[8192 * j..8192 * j + 10240]), Response(s, w), 10240, 8192 * j,
                   m * Spacing(s), at);
  }

  // ---- when the overlap is enough ----

  ghost predicate ExactAt(s: Setup, w: Root, x: seq<real>, m: nat)
    requires s.Ok()
  {
    Circular(MixedDown(s, w, x), Response(s, w), |x|, m * Spacing(s)) ==
    Linear(MixedDown(s, w, x), Response(s, w), 2048, m * Spacing(s))
  }

  /** A window with a single 1 at sample n. */
  function Impulse(n: nat): (x: seq<real>)
    ensures |x| == 10240
  {
    seq(10240, i => if i == n then 1.0 else 0.0)
  }

  lemma ImpulseMixedDown(s: Setup, w: Root, n: nat, a: int)
    requires n < 10240 && a == -(s.center * n)
    ensures IsWindow(MixedDown(s, w, Impulse(n)), Lone(w(a), n), 10240, 0)
  {
    var x := MixedDown(s, w, Impulse(n));
    forall p | 0 <= p < 10240 ensures x(p) == Lone(w(a), n)(0 + p) {
      MulOne(w(-(s.center * p)));
      TimesZero(w(-(s.center * p)));
    }
  }

  ghost predicate ExactAtImpulse(s: Setup, w: Root, n: nat)
    requires s.Ok()
  {
    ExactAt(s, w, Impulse(n), 0)
  }

  lemma ExactForLone(s: Setup, w: Root, n: nat, a: int, g: int -> Cplx)
    requires s.Ok() && n < 10240 && a == -(s.center * n) && g == Response(s, w) && ExactAtImpulse(s, w, n)
    ensures Circular(Lone(w(a), n), g, 10240, 0) == Linear(Lone(w(a), n), g, 2048, 0)
  {
    assert 0 * Spacing(s) == 0;
    var x := MixedDown(s, w, Impulse(n));
    ImpulseMixedDown(s, w, n, a);
    WindowAlone(Lone(w(a), n), x, g);
  }

  /** A window that is all of the input. */
  lemma WindowAlone(x: int -> Cplx, window: int -> Cplx, g: int -> Cplx)
    requires IsWindow(window, x, 10240, 0)
    ensures Circular(window, g, 10240, 0) == Circular(x, g, 10240, 0) && Linear(window, g, 2048, 0) == Linear(x, g, 2048, 0)
  {
    WindowOfStream(x, window, g, 10240, 0, 0, 0);
    LineOfStream(x, window, g, 10240, 2048, 0, 0, 0);
    SumSame(10240, From(Share(x, g, 0), 0), Share(x, g, 0));
  }

  lemma ExactMustFit(s: Setup, w: Root, g: int -> Cplx, n: nat, lag: nat)
    requires s.Ok() && IsRoot(w) && g == Response(s, w) && 2049 <= n < 10240 && ExactAtImpulse(s, w, n) && n + lag == 10240
    ensures Vanishes(g, lag)
  {
    var a := -(s.center * n);
    ExactForLone(s, w, n, a, g);
    ResponseGoesRound(s, w);
    LoneShows(w(a), g, 10240, 2048, n, lag);
    Cancels(w, a, g(lag));
  }

  /** Overlap-scrap is exact, at every useful sample of every window, if and only if the filter's response vanishes outside
      the overlap of 2048 samples. */
  lemma OverlapIsExact(s: Setup, w: Root)
    requires s.Ok() && IsRoot(w)
    ensures (forall x: seq<real>, m: nat | |x| == 10240 && m < Useful(s.decimation) :: ExactAt(s, w, x, m)) <==>
            Fits(Response(s, w), 10240, 2048)
  {
    Sizes(s);
    if forall x: seq<real>, m: nat | |x| == 10240 && m < Useful(s.decimation) :: ExactAt(s, w, x, m) {
      forall n: nat | 2049 <= n < 10240 ensures ExactAtImpulse(s, w, n) {
        assert ExactAt(s, w, Impulse(n), 0);
      }
      ImpulsesShow(s, w, Response(s, w));
    }
    if Fits(Response(s, w), 10240, 2048) {
      forall x: seq<real>, m: nat | |x| == 10240 && m < Useful(s.decimation) ensures ExactAt(s, w, x, m) {
        FittingIsExact(s, w, x, m);
      }
    }
  }

  lemma ImpulsesShow(s: Setup, w: Root, g: int -> Cplx)
    requires s.Ok() && IsRoot(w) && g == Response(s, w) && forall n: nat | 2049 <= n < 10240 :: ExactAtImpulse(s, w, n)
    ensures Fits(g, 10240, 2048)
  {
    forall lag | 1 <= lag < 10240 - 2048 ensures Vanishes(g, lag) {
      ExactMustFit(s, w, g, 10240 - lag, lag);
    }
  }

  lemma FittingIsExact(s: Setup, w: Root, x: seq<real>, m: nat)
    requires s.Ok() && IsRoot(w) && Fits(Response(s, w), 10240, 2048) && |x| == 10240 && m < Useful(s.decimation)
    ensures ExactAt(s, w, x, m)
  {
    ResponseGoesRound(s, w);
    LastPosition(s, m);
    FitsIsExact(MixedDown(s, w, x), Response(s, w), |x|, 2048, m * Spacing(s));
  }

  lemma LastPosition(s: Setup, m: nat)
    requires s.Ok() && m < Useful(s.decimation)
    ensures 0 <= m * Spacing(s) <= 8190
  {
    Sizes(s);
    OneBelow(m, Useful(s.decimation), Spacing(s));
  }

  lemma OneBelow(m: nat, u: nat, spacing: nat)
    requires m < u
    ensures m * spacing + spacing <= u * spacing
  {
    if m + 1 < u { OneBelow(m, u - 1, spacing); }
  }

  /** Then no window shows in the stream: every output sample is the same filter over the 2049 samples from its own position
      on. */
  lemma WindowsAreInvisible(s: Setup, w: Root, x: seq<real>, j: nat, m: nat, k: nat, at: nat)
    requires s.Ok() && IsRoot(w) && Transforms(s, w) && s.center % 5 == 0 && Fits(Response(s, w), 10240, 2048)
    requires 8192 * j + 10240 <= |x| && m < Useful(s.decimation)
    requires k == j * Useful(s.decimation) + m && at == k * Spacing(s)
    ensures k < |s.Out(x)| && s.Out(x)[k] == Mirrored(Linear(MixedDown(s, w, x), Response(s, w), 2048, at), s.lsb)
  {
    var window := x[8192 * j..8192 * j + 10240];
    SampleOfWindow(s, w, x, j, m, k);
    PositionIs(s, j, m);
    LastPosition(s, m);
    ResponseGoesRound(s, w);
    FitsIsExact(MixedDown(s, w, window), Response(s, w), 10240, 2048, m * Spacing(s));
    WindowsMixedDown(s, w, x, j);
    LineOfStream(MixedDown(s, w, x), MixedDown(s, w, window), Response(s, w), 10240, 2048, 8192 * j, m * Spacing(s), at);
  }
}
