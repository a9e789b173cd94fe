/** Roots of unity and the discrete Fourier transforms built from them, with the sign and scale conventions of FFTW. */
module Dft {
  import opened Complex
  import opened Phasors
  import opened Sums

  /** w(k) is the k-th power of a rotation by one part in 10240 of a turn. */
  type Root = int -> Cplx

  ghost predicate Adds(w: Root, a: int, b: int) {
    w(a + b) == w(a).Mul(w(b))
  }

  ghost predicate IsRoot(w: Root) {
    w(0) == ONE && w(10240) == ONE && forall a: int, b: int :: Adds(w, a, b)
  }

  /** No smaller power is a whole turn. */
  ghost predicate IsPrimitive(w: Root) {
    forall k | 0 < k < 10240 :: w(k) != ONE
  }

  /** The library's cosine and sine give such a root. */
  ghost function RootOf(t: Trig): Root {
    k => t.At(Angle(t, k))
  }

  function Angle(t: Trig, k: int): real {
    k as real * (t.pi / 5120.0)
  }

  lemma AnglesAdd(t: Trig, a: int, b: int)
    ensures Angle(t, a + b) == Angle(t, a) + Angle(t, b)
  {
  }

  lemma RootExists(t: Trig)
    requires t.Lawful()
    ensures IsRoot(RootOf(t))
  {
    assert Angle(t, 0) == 0.0 && Angle(t, 10240) == 2.0 * t.pi;
    forall a: int, b: int ensures Adds(RootOf(t), a, b) {
      AnglesAdd(t, a, b);
      assert t.Adds(Angle(t, a), Angle(t, b));
    }
  }

  /** Whole turns do not matter. */
  lemma {:induction false} WholeTurns(w: Root, a: int, turns: int)
    requires IsRoot(w)
    ensures w(a + 10240 * turns) == w(a)
    decreases if turns < 0 then -turns else turns
  {
    if turns > 0 {
      WholeTurns(w, a, turns - 1);
      assert Adds(w, a + 10240 * (turns - 1), 10240);
      MulOne(w(a));
    } else if turns < 0 {
      WholeTurns(w, a, turns + 1);
      assert Adds(w, a + 10240 * turns, 10240);
      MulOne(w(a + 10240 * turns));
    }
  }

  lemma Inverse(w: Root, a: int)
    requires IsRoot(w)
    ensures w(a).Mul(w(-a)) == ONE
  {
    assert Adds(w, a, -a);
  }

  /** A product with a power vanishes only if the other factor does. */
  lemma Cancels(w: Root, a: int, z: Cplx)
    requires IsRoot(w) && w(a).Mul(z) == ZERO
    ensures z == ZERO
  {
    Inverse(w, a);
    MulAssociates(w(-a), w(a), z);
    MulCommutes(w(-a), w(a));
    MulOne(z);
    assert w(-a).Mul(ZERO) == ZERO;
  }

  // ---- the transforms ----

  ghost function Real(r: real): Cplx {
    Cplx(r, 0.0)
  }

  ghost function ForwardTerm(w: Root, x: seq<real>, b: int): int -> Cplx {
    n => if 0 <= n < |x| then Real(x[n]).Mul(w(-(b * n))) else ZERO
  }

  /** Bin b of the forward transform. */
  ghost function Forward(w: Root, x: seq<real>, b: int): Cplx {
    Sum(|x|, ForwardTerm(w, x, b))
  }

  ghost function BackwardTerm(w: Root, y: seq<Cplx>, at: int): int -> Cplx {
    i => if 0 <= i < |y| then y[i].Mul(w(i * at)) else ZERO
  }

  /** The backward transform of |y| entries, not scaled: at sample m, `at` is m * 10240 / |y|. */
  ghost function Backward(w: Root, y: seq<Cplx>, at: int): Cplx {
    Sum(|y|, BackwardTerm(w, y, at))
  }

  // ---- a sum of equally spaced powers ----

  ghost function Spaced(w: Root, d: int): int -> Cplx {
    i => w(i * d)
  }

  lemma {:induction false} NextSpaced(w: Root, d: int, n: nat)
    requires IsRoot(w)
    ensures Sum(n, Spaced(w, d)).Mul(w(d)).Add(ONE) == Sum(n, Spaced(w, d)).Add(w(n * d))
  {
    if n == 0 {
      assert ZERO.Mul(w(d)) == ZERO;
    } else {
      var before := Sum(n - 1, Spaced(w, d));
      NextSpaced(w, d, n - 1);
      assert Adds(w, (n - 1) * d, d);
      assert (n - 1) * d + d == n * d;
      Distributes(before, w((n - 1) * d), w(d));
    }
  }

  /** Spaced round the circle they cancel out, unless they coincide. */
  lemma SpacedCancel(w: Root, d: int, n: nat)
    requires IsRoot(w) && w(n * d) == ONE && w(d) != ONE
    ensures Sum(n, Spaced(w, d)) == ZERO
  {
    NextSpaced(w, d, n);
    FixedIsZero(Sum(n, Spaced(w, d)), w(d));
  }

  lemma FixedIsZero(z: Cplx, a: Cplx)
    requires z.Mul(a) == z && a != ONE
    ensures z == ZERO
  {
    var p, q := a.re - 1.0, a.im;
    var u, v := z.re, z.im;
    assert u * p - v * q == 0.0 && v * p + u * q == 0.0;
    assert (u * u + v * v) * (p * p + q * q) == (u * p - v * q) * (u * p - v * q) + (v * p + u * q) * (v * p + u * q);
    SquaresPositive(p, q);
    SquaresPositive(u, v);
    ProductZero(u * u + v * v, p * p + q * q);
  }

  lemma SquaresPositive(p: real, q: real)
    ensures p != 0.0 || q != 0.0 ==> p * p + q * q > 0.0
  {
  }

  lemma ProductZero(a: real, b: real)
    requires a * b == 0.0
    ensures a == 0.0 || b == 0.0
  {
  }

  lemma {:induction false} SumOfOnes(n: nat, f: int -> Cplx)
    requires forall k | 0 <= k < n :: f(k) == ONE
    ensures Sum(n, f) == Real(n as real)
  {
    if n > 0 { SumOfOnes(n - 1, f); }
  }
}
