/** The filter the program uses, and whether the overlap is enough for it. */
module FilterTaps {
  import opened Complex
  import opened Phasors
  import opened Sums
  import opened Dft
  import opened Convolution
  import opened R2iqStream
  import opened OverlapScrap

  ghost function TapTerm(w: Root, taps: seq<real>, b: int): int -> Cplx {
    t => if 0 <= t < |taps| then Real(taps[t]).Mul(w(-(b * (2 * t)))) else ZERO
  }

  /** The filter is the transform of 5120 taps, at half the input's rate. */
  ghost predicate HasTaps(s: Setup, w: Root, taps: seq<real>)
    requires s.Ok()
  {
    |taps| == 5120 && forall b | 0 <= b < 5120 :: FilterBin(s, w, taps, b)
  }

  ghost predicate FilterBin(s: Setup, w: Root, taps: seq<real>, b: nat)
    requires s.Ok() && b < 5120
  {
    s.filter[b] == Sum(|taps|, TapTerm(w, taps, b))
  }

  /** What tap t contributes to the response at lag 2 t0 by way of index i. */
  ghost function TapTable(w: Root, taps: seq<real>, t0: int): (int, int) -> Cplx {
    (i, t) => if 0 <= t < |taps| then Real(taps[t]).Mul(w(-(i * (2 * t)))).Mul(w(i * (2 * t0))) else ZERO
  }

  /** Without decimation and with the centre in the middle, every index has its bin's filter. */
  lemma WholeSpectrum(s: Setup, i: nat)
    requires s.Ok() && s.decimation == 0 && s.center == 2560 && i < 5120
    ensures s.Half() == 2560 && Coefficient(s, i) == s.filter[i]
  {
  }

  lemma RowOfTaps(w: Root, taps: seq<real>, t0: nat, i: nat)
    ensures Sum(|taps|, Row(TapTable(w, taps, t0), i)) == Sum(|taps|, TapTerm(w, taps, i)).Mul(w(i * (2 * t0)))
  {
    SumScale(|taps|, TapTerm(w, taps, i), w(i * (2 * t0)), Row(TapTable(w, taps, t0), i));
  }

  lemma TurnByIndex(s: Setup, w: Root, t0: nat, i: nat)
    requires s.Ok() && IsRoot(w) && s.decimation == 0 && s.center == 2560 && i < 5120
    ensures w(Offset(s, i) * (2 * t0)) == w(i * (2 * t0))
  {
    WholeSpectrum(s, i);
    var j := Offset(s, i);
    if i != j {
      assert i * (2 * t0) == j * (2 * t0) + 10240 * t0;
      WholeTurns(w, j * (2 * t0), t0);
    }
  }

  lemma TapRow(s: Setup, w: Root, taps: seq<real>, t0: nat, i: nat)
    requires s.Ok() && IsRoot(w) && HasTaps(s, w, taps) && s.decimation == 0 && s.center == 2560 && i < 5120
    ensures ResponseTerm(s, w, 2 * t0)(i) == Sum(|taps|, Row(TapTable(w, taps, t0), i))
  {
    assert FilterBin(s, w, taps, i);
    WholeSpectrum(s, i);
    TurnByIndex(s, w, t0, i);
    RowOfTaps(w, taps, t0, i);
  }

  /** A tap's column is its value times equally spaced powers. */
  lemma TapEntry(w: Root, taps: seq<real>, t0: int, i: int, t: nat)
    requires IsRoot(w) && t < |taps|
    ensures TapTable(w, taps, t0)(i, t) == Spaced(w, 2 * (t0 - t))(i).Mul(Real(taps[t]))
  {
    var a, b := -(i * (2 * t)), i * (2 * t0);
    assert i * (2 * (t0 - t)) == a + b;
    assert Adds(w, a, b);
    MulAssociates(Real(taps[t]), w(a), w(b));
    MulCommutes(Real(taps[t]), w(a + b));
  }

  lemma ColumnOfTap(w: Root, taps: seq<real>, t0: int, t: nat)
    requires IsRoot(w) && t < |taps|
    ensures Sum(|taps|, Column(TapTable(w, taps, t0), t)) == Sum(|taps|, Spaced(w, 2 * (t0 - t))).Mul(Real(taps[t]))
  {
    var f, d := Column(TapTable(w, taps, t0), t), 2 * (t0 - t);
    forall i | 0 <= i < |taps| ensures f(i) == Spaced(w, d)(i).Mul(Real(taps[t])) {
      TapEntry(w, taps, t0, i, t);
    }
    SumScale(|taps|, Spaced(w, d), Real(taps[t]), f);
  }

  /** All 5120 powers add up, or they cancel out. */
  function SpacedValue(d: int): Cplx {
    if d == 0 then Cplx(5120.0, 0.0) else ZERO
  }

  lemma SpacedSum(w: Root, d: int, n: nat)
    requires IsRoot(w) && IsPrimitive(w) && d % 2 == 0 && -10240 < d < 10240 && n == 5120
    ensures Sum(n, Spaced(w, d)) == SpacedValue(d)
  {
    if d == 0 {
      SumOfOnes(n, Spaced(w, d));
    } else {
      if d < 0 { Inverse(w, d); MulOne(w(-d)); }
      assert n * d == 0 + 10240 * (d / 2);
      WholeTurns(w, 0, d / 2);
      SpacedCancel(w, d, n);
    }
  }

  lemma OwnColumn(w: Root, taps: seq<real>, t0: nat)
    requires IsRoot(w) && IsPrimitive(w) && |taps| == 5120 && t0 < 5120
    ensures Sum(|taps|, Column(TapTable(w, taps, t0), t0)) == Cplx(5120.0, 0.0).Mul(Real(taps[t0]))
  {
    SpacedSum(w, 2 * (t0 - t0), |taps|);
    ColumnOfTap(w, taps, t0, t0);
  }

  lemma OtherColumn(w: Root, taps: seq<real>, t0: nat, t: nat)
    requires IsRoot(w) && IsPrimitive(w) && |taps| == 5120 && t0 < 5120 && t < 5120 && t != t0
    ensures Vanishes(ColumnSums(TapTable(w, taps, t0), |taps|), t)
  {
    SpacedSum(w, 2 * (t0 - t), |taps|);
    ColumnOfTap(w, taps, t0, t);
    TimesZero(Real(taps[t]));
  }

  lemma TapColumns(w: Root, taps: seq<real>, t0: nat)
    requires IsRoot(w) && IsPrimitive(w) && |taps| == 5120 && t0 < 5120
    ensures forall t | 0 <= t < |taps| && t != t0 :: Vanishes(ColumnSums(TapTable(w, taps, t0), |taps|), t)
  {
    forall t | 0 <= t < |taps| && t != t0 ensures Vanishes(ColumnSums(TapTable(w, taps, t0), |taps|), t) {
      OtherColumn(w, taps, t0, t);
    }
  }

  lemma TapRows(s: Setup, w: Root, taps: seq<real>, t0: nat)
    requires s.Ok() && IsRoot(w) && HasTaps(s, w, taps) && s.decimation == 0 && s.center == 2560
    ensures forall i | 0 <= i < |taps| :: ResponseTerm(s, w, 2 * t0)(i) == Sum(|taps|, Row(TapTable(w, taps, t0), i))
  {
    forall i | 0 <= i < |taps| ensures ResponseTerm(s, w, 2 * t0)(i) == Sum(|taps|, Row(TapTable(w, taps, t0), i)) {
      TapRow(s, w, taps, t0, i);
    }
  }

  /** At even lags the response is the taps themselves. */
  lemma ResponseIsTaps(s: Setup, w: Root, taps: seq<real>, t0: nat)
    requires s.Ok() && IsRoot(w) && IsPrimitive(w) && HasTaps(s, w, taps) && s.decimation == 0 && s.center == 2560
    requires t0 < 5120
    ensures Response(s, w)(2 * t0) == Real(5120.0).Mul(Real(taps[t0]))
  {
    TapRows(s, w, taps, t0);
    OwnColumn(w, taps, t0);
    TapColumns(w, taps, t0);
    OneColumn(|taps|, |taps|, TapTable(w, taps, t0), ResponseTerm(s, w, 2 * t0), t0);
    WholeSpectrum(s, 0);
  }

  /** So the overlap is enough only if every tap but the first and the last 1024 vanishes. The program's filter is 1281 taps,
      tap t at place 5119 - t: those from 1024 on lie beyond the overlap. */
  lemma TapsBeyondTheOverlap(s: Setup, w: Root, taps: seq<real>, kaiser: seq<real>)
    requires s.Ok() && IsRoot(w) && IsPrimitive(w) && HasTaps(s, w, taps) && s.decimation == 0 && s.center == 2560
    requires |kaiser| == 1281 && forall t | 0 <= t < 1281 :: taps[5119 - t] == kaiser[t]
    requires Fits(Response(s, w), 10240, 2048)
    ensures forall t | 1 <= t < 4096 :: taps[t] == 0.0
    ensures forall t | 1024 <= t < 1281 :: kaiser[t] == 0.0
  {
    forall t | 1 <= t < 4096 ensures taps[t] == 0.0 {
      ResponseIsTaps(s, w, taps, t);
      assert Vanishes(Response(s, w), 2 * t);
    }
  }
}
