/** Filtering round a circle of `size` samples, and when it is the same as filtering along a line with `overlap` samples more
    than the one filtered for. */
module Convolution {
  import opened Complex
  import opened Phasors
  import opened Sums

  /** The share of sample p in the output at position `at`, for input x and response g. */
  ghost function Share(x: int -> Cplx, g: int -> Cplx, at: int): int -> Cplx {
    p => x(p).Mul(g(at - p))
  }

  /** The output at position `at` over samples `at` to `at` + overlap alone, as a filter without windows has it. */
  ghost function Linear(x: int -> Cplx, g: int -> Cplx, overlap: nat, at: int): Cplx {
    Sum(overlap + 1, From(Share(x, g, at), at))
  }

  /** The output at position `at` over a window. */
  ghost function Circular(x: int -> Cplx, g: int -> Cplx, size: nat, at: int): Cplx {
    Sum(size, Share(x, g, at))
  }

  ghost predicate SameOneTurnOn(g: int -> Cplx, size: nat, lag: int) {
    g(lag + size) == g(lag)
  }

  ghost predicate GoesRound(g: int -> Cplx, size: nat) {
    forall lag: int :: SameOneTurnOn(g, size, lag)
  }

  /** The response vanishes outside the overlap. */
  ghost predicate Fits(g: int -> Cplx, size: nat, overlap: nat) {
    forall lag | 1 <= lag < size - overlap :: Vanishes(g, lag)
  }

  lemma TimesZero(z: Cplx)
    ensures ZERO.Mul(z) == ZERO == z.Mul(ZERO)
  {
  }

  lemma NoShare(x: int -> Cplx, g: int -> Cplx, size: nat, overlap: nat, at: nat, p: nat)
    requires GoesRound(g, size) && Fits(g, size, overlap) && at + overlap + 1 < size && p < size
    requires p < at || p > at + overlap
    ensures Vanishes(Share(x, g, at), p)
  {
    assert SameOneTurnOn(g, size, at - p);
    assert Vanishes(g, if p < at then at - p else at - p + size);
    TimesZero(x(p));
  }

  /** Such a response filters a window exactly, at every position whose overlap lies in it. */
  lemma FitsIsExact(x: int -> Cplx, g: int -> Cplx, size: nat, overlap: nat, at: nat)
    requires GoesRound(g, size) && Fits(g, size, overlap) && at + overlap + 1 < size
    ensures Circular(x, g, size, at) == Linear(x, g, overlap, at)
  {
    forall p | 0 <= p < size && (p < at || p > at + overlap) ensures Vanishes(Share(x, g, at), p) {
      NoShare(x, g, size, overlap, at, p);
    }
    OnlyMiddle(Share(x, g, at), at, overlap + 1, size - at - (overlap + 1));
  }

  /** An input that is v at n and nothing else. */
  ghost function Lone(v: Cplx, n: int): int -> Cplx {
    p => if p == n then v else ZERO
  }

  lemma LoneShare(v: Cplx, g: int -> Cplx, n: int, p: int)
    ensures Share(Lone(v, n), g, 0)(p) == if p == n then v.Mul(g(0 - n)) else ZERO
  {
    TimesZero(g(0 - p));
  }

  /** Beyond the overlap, only the window sees it. */
  lemma LoneBeyond(v: Cplx, g: int -> Cplx, size: nat, overlap: nat, n: nat)
    requires overlap < n < size
    ensures Circular(Lone(v, n), g, size, 0) == v.Mul(g(0 - n)) && Linear(Lone(v, n), g, overlap, 0) == ZERO
  {
    var f := Share(Lone(v, n), g, 0);
    forall p | 0 <= p < size && p != n ensures Vanishes(f, p) && Vanishes(From(f, 0), p) {
      LoneShare(v, g, n, p);
    }
    LoneShare(v, g, n, n);
    SumOne(size, f, n);
    EndVanishes(0, overlap + 1, From(f, 0));
  }

  /** Filtered exactly, it shows that the response vanishes there. */
  lemma LoneShows(v: Cplx, g: int -> Cplx, size: nat, overlap: nat, n: nat, lag: nat)
    requires overlap < n < size && n + lag == size && GoesRound(g, size)
    requires Circular(Lone(v, n), g, size, 0) == Linear(Lone(v, n), g, overlap, 0)
    ensures v.Mul(g(lag)) == ZERO
  {
    LoneBeyond(v, g, size, overlap, n);
    assert SameOneTurnOn(g, size, 0 - n);
  }

  /** `window` is the input from `base` on. */
  ghost predicate IsWindow(window: int -> Cplx, x: int -> Cplx, size: nat, base: int) {
    forall n | 0 <= n < size :: window(n) == x(base + n)
  }

  /** A window of the input, taken from `base` on, is filtered as the input is there. */
  lemma WindowOfStream(x: int -> Cplx, window: int -> Cplx, g: int -> Cplx, size: nat, base: int, at: int, there: int)
    requires IsWindow(window, x, size, base) && there == base + at
    ensures Circular(window, g, size, at) == Sum(size, From(Share(x, g, there), base))
  {
    forall n | 0 <= n < size ensures Share(window, g, at)(n) == From(Share(x, g, there), base)(n) {
      assert there - (base + n) == at - n;
    }
    SumSame(size, Share(window, g, at), From(Share(x, g, there), base));
  }

  /** ... and along the line too. */
  lemma LineOfStream(x: int -> Cplx, window: int -> Cplx, g: int -> Cplx, size: nat, overlap: nat, base: int, at: nat,
                     there: int)
    requires at + overlap < size && IsWindow(window, x, size, base) && there == base + at
    ensures Linear(window, g, overlap, at) == Linear(x, g, overlap, there)
  {
    forall n | 0 <= n < overlap + 1 ensures From(Share(window, g, at), at)(n) == From(Share(x, g, there), there)(n) {
      assert window(at + n) == x(base + (at + n));
      assert there - (there + n) == at - (at + n);
    }
    SumSame(overlap + 1, From(Share(window, g, at), at), From(Share(x, g, there), there));
  }
}
