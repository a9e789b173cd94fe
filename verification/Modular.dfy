/** Indices that go round a buffer. */
module Modular {

  /** `i % m` for an index at most one turn past the end. */
  function Wrap(i: nat, m: nat): nat {
    if i < m then i else i - m
  }

  lemma WrapIsMod(i: nat, m: nat)
    requires i < 2 * m
    ensures i % m == Wrap(i, m)
  {
    if i >= m { OneTurn(i - m, m); }
  }

  lemma OneTurn(r: nat, m: nat)
    requires r < m
    ensures (m + r) % m == r
  {
  }

  /** `(i + k) % m` as the programs compute it. */
  method AddIndex(i: nat, k: nat, m: nat) returns (r: nat)
    requires i < m && k <= m
    ensures r == Wrap(i + k, m)
  {
    WrapIsMod(i + k, m);
    r := (i + k) % m;
  }

  /** A quotient and remainder are what division finds. */
  lemma ModUnique(x: nat, m: nat, q: nat, s: nat)
    requires s < m && x == m * q + s
    ensures x % m == s && x / m == q
  {
    var q', s' := x / m, x % m;
    assert x == m * q' + s';
    if q != q' {
      Multiples(m, q, q');
    }
  }

  lemma Multiples(m: nat, a: nat, b: nat)
    requires a != b
    ensures m * a >= m * b + m || m * b >= m * a + m
  {
    if a < b { ProductGrows(m, a, b - a - 1); } else { ProductGrows(m, b, a - b - 1); }
  }

  lemma ProductGrows(m: nat, a: nat, more: nat)
    ensures m * (a + 1 + more) == m * a + m + m * more >= m * a + m
  {
  }
}
