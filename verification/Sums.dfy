/** Finite sums of complex numbers. */
module Sums {
  import opened Complex
  import opened Phasors

  /** f(0) + ... + f(n - 1) */
  ghost function Sum(n: nat, f: int -> Cplx): Cplx {
    if n == 0 then ZERO else Sum(n - 1, f).Add(f(n - 1))
  }

  lemma {:induction false} SumSame(n: nat, f: int -> Cplx, g: int -> Cplx)
    requires forall k | 0 <= k < n :: f(k) == g(k)
    ensures Sum(n, f) == Sum(n, g)
  {
    if n > 0 { SumSame(n - 1, f, g); }
  }

  lemma {:induction false} SumZero(n: nat, f: int -> Cplx)
    requires forall k | 0 <= k < n :: f(k) == ZERO
    ensures Sum(n, f) == ZERO
  {
    if n > 0 { SumZero(n - 1, f); }
  }

  lemma {:induction false} SumAdd(n: nat, f: int -> Cplx, g: int -> Cplx, h: int -> Cplx)
    requires forall k | 0 <= k < n :: h(k) == f(k).Add(g(k))
    ensures Sum(n, h) == Sum(n, f).Add(Sum(n, g))
  {
    if n > 0 { SumAdd(n - 1, f, g, h); }
  }

  lemma {:induction false} SumScale(n: nat, f: int -> Cplx, a: Cplx, h: int -> Cplx)
    requires forall k | 0 <= k < n :: h(k) == f(k).Mul(a)
    ensures Sum(n, h) == Sum(n, f).Mul(a)
  {
    if n > 0 {
      SumScale(n - 1, f, a, h);
      Distributes(Sum(n - 1, f), f(n - 1), a);
    }
  }

  lemma Distributes(x: Cplx, y: Cplx, a: Cplx)
    ensures x.Add(y).Mul(a) == x.Mul(a).Add(y.Mul(a))
  {
  }

  ghost function From(f: int -> Cplx, start: int): int -> Cplx {
    k => f(start + k)
  }

  lemma {:induction false} SumSplit(a: nat, b: nat, f: int -> Cplx)
    ensures Sum(a + b, f) == Sum(a, f).Add(Sum(b, From(f, a)))
  {
    if b > 0 { SumSplit(a, b - 1, f); }
  }

  /** All terms but one vanish. */
  lemma SumOne(n: nat, f: int -> Cplx, at: nat)
    requires at < n && forall k | 0 <= k < n && k != at :: Vanishes(f, k)
    ensures Sum(n, f) == f(at)
  {
    EndVanishes(at + 1, n - at - 1, f);
    EndVanishes(0, at, f);
  }

  /** The rows and columns of a table. */
  ghost function Row(f: (int, int) -> Cplx, i: int): int -> Cplx {
    j => f(i, j)
  }

  ghost function Column(f: (int, int) -> Cplx, j: int): int -> Cplx {
    i => f(i, j)
  }

  ghost function RowSums(f: (int, int) -> Cplx, m: nat): int -> Cplx {
    i => Sum(m, Row(f, i))
  }

  ghost function ColumnSums(f: (int, int) -> Cplx, n: nat): int -> Cplx {
    j => Sum(n, Column(f, j))
  }

  /** Summing a table of n rows and m columns by rows or by columns. */
  lemma {:induction false} SumSwap(n: nat, m: nat, f: (int, int) -> Cplx)
    ensures Sum(n, RowSums(f, m)) == Sum(m, ColumnSums(f, n))
  {
    if n == 0 {
      SumZero(m, ColumnSums(f, 0));
    } else {
      SumSwap(n - 1, m, f);
      SumAdd(m, ColumnSums(f, n - 1), Row(f, n - 1), ColumnSums(f, n));
    }
  }

  /** The same for what equals the row sums and what equals the column sums. */
  lemma TwoWays(n: nat, m: nat, f: (int, int) -> Cplx, rows: int -> Cplx, columns: int -> Cplx)
    requires forall i | 0 <= i < n :: rows(i) == Sum(m, Row(f, i))
    requires forall j | 0 <= j < m :: columns(j) == Sum(n, Column(f, j))
    ensures Sum(n, rows) == Sum(m, columns)
  {
    SumSame(n, rows, RowSums(f, m));
    SumSame(m, columns, ColumnSums(f, n));
    SumSwap(n, m, f);
  }

  ghost predicate Vanishes(f: int -> Cplx, k: int) {
    f(k) == ZERO
  }

  lemma {:induction false} EndVanishes(n: nat, after: nat, f: int -> Cplx)
    requires forall k | n <= k < n + after :: Vanishes(f, k)
    ensures Sum(n + after, f) == Sum(n, f)
  {
    if after > 0 {
      EndVanishes(n, after - 1, f);
      assert Vanishes(f, n + after - 1);
    }
  }

  lemma {:induction false} BeginVanishes(before: nat, n: nat, f: int -> Cplx)
    requires forall k | 0 <= k < before :: Vanishes(f, k)
    ensures Sum(before + n, f) == Sum(n, From(f, before))
  {
    EndVanishes(0, before, f);
    SumSplit(before, n, f);
  }

  /** A sum whose terms before and after a stretch vanish. */
  lemma OnlyMiddle(f: int -> Cplx, before: nat, middle: nat, after: nat)
    requires forall k | 0 <= k < before :: Vanishes(f, k)
    requires forall k | before + middle <= k < before + middle + after :: Vanishes(f, k)
    ensures Sum(before + middle + after, f) == Sum(middle, From(f, before))
  {
    EndVanishes(before + middle, after, f);
    BeginVanishes(before, middle, f);
  }

  /** A table of which only one column does not add up to zero. */
  lemma OneColumn(n: nat, m: nat, f: (int, int) -> Cplx, rows: int -> Cplx, at: nat)
    requires forall i | 0 <= i < n :: rows(i) == Sum(m, Row(f, i))
    requires at < m && forall j | 0 <= j < m && j != at :: Vanishes(ColumnSums(f, n), j)
    ensures Sum(n, rows) == Sum(n, Column(f, at))
  {
    TwoWays(n, m, f, rows, ColumnSums(f, n));
    SumOne(m, ColumnSums(f, n), at);
  }
}
