/** Choosing the bin the output is centred on, and the sizes that go with each decimation. */
module Tuning {
  import opened Modular
  import opened Words

  const NDECIDX := 7

  /** setFreqOffset: the chosen bin is the multiple of 20 nearest to the request (the upper one of two), and what it leaves
      to the fine mixer makes up the difference exactly. Requests outside [0, 1] get the first or the last bin. */
  method SetFreqOffset(offset: real, ratio: nat) returns (bin: nat, residual: real)
    requires ratio > 0
    ensures bin % 20 == 0 && bin <= 5120
    ensures 0.0 <= offset <= 1.0 ==>
              && -10.0 < bin as real - offset * 5120.0 <= 10.0
              && bin as real / 5120.0 - residual / ratio as real == offset
    ensures offset > 1.0 ==> bin == 5120 && residual == 0.0
    ensures offset < 0.0 ==> bin == 0 && residual == 0.0
  {
    var o := offset;
    if o > 1.0 { o := 1.0; }
    if o < 0.0 { o := 0.0; }
    var b := ((o * 5120.0 + 10.0) / 20.0).Floor * 20;
    bin := if b < 5120 then b else 5120;
    var delta := bin as real / 5120.0 - o;
    residual := delta * ratio as real;
    TimesThenOver(delta, ratio as real);
  }

  lemma TimesThenOver(a: real, k: real)
    requires k != 0.0
    ensures a * k / k == a
  {
  }

  /** Phase continuity: successive windows start 8192 samples apart in a transform of 10240, so a whole number of turns
      of bin `bin` passes between them, and hence up to window n, exactly for multiples of 5. */
  lemma PhaseContinuity(bin: nat)
    ensures (forall n: nat :: n * bin * 8192 % 10240 == 0) <==> bin % 5 == 0
  {
    if bin % 5 == 0 {
      forall n: nat ensures n * bin * 8192 % 10240 == 0 {
        var turns := n * (bin / 5) * 4;
        assert bin == bin / 5 * 5;
        assert n * bin * 8192 == turns * 10240 by {
          assert n * bin == n * (bin / 5) * 5;
        }
        MultipleLeavesNothing(turns);
      }
    } else {
      OneWindow(bin);
      assert 1 * bin * 8192 % 10240 != 0;
    }
  }

  lemma OneWindow(bin: nat)
    ensures bin * 8192 % 10240 == 0 ==> bin % 5 == 0
  {
    var q := bin * 8192 / 10240;
    assert bin * 8192 == 10240 * q + bin * 8192 % 10240;
  }

  lemma MultipleLeavesNothing(turns: nat)
    ensures turns * 10240 % 10240 == 0
  {
  }

  /** The constructor's tables: ratio 2^d and short transform size 5120 / 2^d. */
  method DecimationTables() returns (ratio: array<nat>, size: array<nat>)
    ensures ratio.Length == size.Length == NDECIDX && fresh(ratio) && fresh(size)
    ensures forall d | 0 <= d < NDECIDX :: ratio[d] == Pow2(d) && size[d] == ShortSize(d)
  {
    ratio := new nat[NDECIDX];
    ratio[0] := 1;
    for i := 1 to NDECIDX
      invariant forall d | 0 <= d < i :: ratio[d] == Pow2(d)
    {
      ratio[i] := ratio[i - 1] * 2;
    }
    size := new nat[NDECIDX];
    size[0] := 5120;
    for i := 1 to NDECIDX
      invariant forall d | 0 <= d < NDECIDX :: ratio[d] == Pow2(d)
      invariant forall d | 0 <= d < i :: size[d] == ShortSize(d)
    {
      size[i] := size[i - 1] / 2;
    }
  }

  /** The size of the short transform at decimation d. */
  function ShortSize(d: nat): nat {
    if d == 0 then 5120 else ShortSize(d - 1) / 2
  }

  /** Useful output samples per window: the short transform less its scrap. */
  function Useful(d: nat): int {
    ShortSize(d) - 2048 / 2 / Pow2(d)
  }

  /** Every decimation divides the sizes evenly: the short transform times the ratio is 5120, the useful part 4096. */
  lemma SizesDivide(d: nat)
    requires d < NDECIDX
    ensures ShortSize(d) * Pow2(d) == 5120 && Useful(d) * Pow2(d) == 4096
    ensures 0 < Useful(d) <= ShortSize(d) <= 5120 && ShortSize(d) % 2 == 0
  {
    assert Pow2(3) == 8 && Pow2(4) == 16 && Pow2(5) == 32 && Pow2(6) == 64;
    assert ShortSize(3) == 640 && ShortSize(4) == 320 && ShortSize(5) == 160 && ShortSize(6) == 80;
    assert d in {0, 1, 2, 3, 4, 5, 6};
  }
}
