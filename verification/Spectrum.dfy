/** Moving the wanted part of the spectrum to the bottom of a shorter one, and choosing the bin it is centred on. */
module Spectrum {
  import opened Complex

  // BASE_FFT_SIZE = 10240 samples, of which 2048 overlap the previous window; the spectrum has HALF = 5120 bins.

  /** Spectrum entry at signed offset `j` from the centre bin: the bin times the filter, whose negative offsets lie at
      its top end, or zero outside the spectrum. */
  function Shifted(spectrum: seq<Cplx>, filter: seq<Cplx>, center: nat, j: int): Cplx
    requires |spectrum| >= 5120 && |filter| == 5120 && -5120 <= j < 5120
  {
    if 0 <= center + j < 5120
    then spectrum[center + j].Mul(filter[if j < 0 then j + 5120 else j])
    else ZERO
  }

  /** The short spectrum of 2 * half entries: offset j at index j modulo 2 * half. */
  function Rotated(spectrum: seq<Cplx>, filter: seq<Cplx>, center: nat, half: nat): (r: seq<Cplx>)
    requires |spectrum| >= 5120 && |filter| == 5120 && half <= 2560
    ensures |r| == 2 * half
  {
    seq(2 * half, i requires 0 <= i < 2 * half =>
      Shifted(spectrum, filter, center, if i < half then i else i - 2 * half))
  }

  /** Bin by bin: a sequence that has bin b, j = b - center bins from the centre, times the filter at j modulo 5120, at
      index j modulo 2 * half, and zero wherever no bin comes to, is the short spectrum. */
  lemma RotatedBins(y: seq<Cplx>, spectrum: seq<Cplx>, filter: seq<Cplx>, center: nat, half: nat)
    requires |spectrum| >= 5120 && |filter| == 5120 && center <= 5120 && half <= 2560 && |y| == 2 * half
    requires forall b | center <= b < 5120 && b < center + half :: y[b - center] == spectrum[b].Mul(filter[b - center])
    requires forall b | center - half <= b < center && b >= 0 ::
               y[b - center + 2 * half] == spectrum[b].Mul(filter[b - center + 5120])
    requires forall i | 0 <= i < half && center + i >= 5120 :: y[i] == Cplx(0.0, 0.0)
    requires forall i | half <= i < 2 * half && center + i < 2 * half :: y[i] == Cplx(0.0, 0.0)
    ensures y == Rotated(spectrum, filter, center, half)
  {
    forall i | 0 <= i < 2 * half
      ensures y[i] == Shifted(spectrum, filter, center, if i < half then i else i - 2 * half)
    {
      var b: int := if i < half then center + i else center + i - 2 * half;
      if 0 <= b < 5120 {
        if i < half { assert y[b - center] == y[i]; } else { assert y[b - center + 2 * half] == y[i]; }
      }
    }
  }

  /** shift_freq over entries [start, end): dest, source1 and source2 are taken from the given offsets. */
  method ShiftFreq(dest: array<Cplx>, destAt: nat, source1: array<Cplx>, source1At: int, source2: seq<Cplx>, source2At: nat,
                   start: nat, end: nat)
    requires dest != source1
    requires start < end ==> destAt + end <= dest.Length && source2At + end <= |source2|
    requires start < end ==> 0 <= source1At + start && source1At + end <= source1.Length
    modifies dest
    ensures forall i | 0 <= i < dest.Length :: dest[i] ==
              if destAt + start <= i < destAt + end
              then source1[source1At + (i - destAt)].Mul(source2[source2At + (i - destAt)]) else old(dest[i])
  {
    var m := start;
    while m < end
      invariant start <= m && (m <= end || m == start)
      invariant forall i | 0 <= i < dest.Length :: dest[i] ==
                  if destAt + start <= i < destAt + m
                  then source1[source1At + (i - destAt)].Mul(source2[source2At + (i - destAt)]) else old(dest[i])
    {
      dest[destAt + m] := source1[source1At + m].Mul(source2[source2At + m]);
      m := m + 1;
    }
  }

  /** memset to zero of entries [start, end). */
  method Zero(dest: array<Cplx>, start: nat, end: nat)
    requires start <= end <= dest.Length
    modifies dest
    ensures forall i | 0 <= i < dest.Length :: dest[i] == if start <= i < end then ZERO else old(dest[i])
  {
    forall i | start <= i < end {
      dest[i] := ZERO;
    }
  }

  /** The first half: the bins from the centre on, and zeros past the end of the spectrum. */
  method FillUpper(short: array<Cplx>, spectrum: array<Cplx>, filter: seq<Cplx>, center: nat, half: nat)
    requires short != spectrum && spectrum.Length >= 5120 && |filter| == 5120
    requires center <= 5120 && half <= 2560 && 2 * half <= short.Length
    modifies short
    ensures forall b | center <= b < 5120 && b < center + half :: short[b - center] == spectrum[b].Mul(filter[b - center])
    ensures forall i | 0 <= i < half && center + i >= 5120 :: short[i] == Cplx(0.0, 0.0)
    ensures forall i | half <= i < short.Length :: short[i] == old(short[i])
  {
    var upperLen := if 5120 - center < half then 5120 - center else half;
    ShiftFreq(short, 0, spectrum, center, filter, 0, 0, upperLen);
    if half != upperLen {
      Zero(short, upperLen, half);
    }
    forall b | center <= b < 5120 && b < center + half ensures short[b - center] == spectrum[b].Mul(filter[b - center]) {
      assert 0 <= b - center < upperLen;
    }
  }

  /** The second half: zeros before the beginning of the spectrum, and the bins below the centre. */
  method FillLower(short: array<Cplx>, spectrum: array<Cplx>, filter: seq<Cplx>, center: nat, half: nat)
    requires short != spectrum && spectrum.Length >= 5120 && |filter| == 5120
    requires center <= 5120 && half <= 2560 && 2 * half <= short.Length
    modifies short
    ensures forall b | center - half <= b < center && b >= 0 ::
              short[b - center + 2 * half] == spectrum[b].Mul(filter[b - center + 5120])
    ensures forall i | half <= i < 2 * half && center + i < 2 * half :: short[i] == Cplx(0.0, 0.0)
    ensures forall i | 0 <= i < short.Length && !(half <= i < 2 * half) :: short[i] == old(short[i])
  {
    var lowerStart := if half - center > 0 then half - center else 0;
    ShiftFreq(short, half, spectrum, center - half, filter, 5120 - half, lowerStart, half);
    if lowerStart != 0 {
      Zero(short, half, half + lowerStart);
    }
  }

  /** The circular shift with padding: for every centre bin and size, two shift_freq calls and two memsets fill the whole
      short spectrum. */
  method FillShort(short: array<Cplx>, spectrum: array<Cplx>, filter: seq<Cplx>, center: nat, half: nat)
    requires short != spectrum && spectrum.Length >= 5120 && |filter| == 5120
    requires center <= 5120 && half <= 2560 && 2 * half <= short.Length
    modifies short
    ensures forall b | center <= b < 5120 && b < center + half :: short[b - center] == spectrum[b].Mul(filter[b - center])
    ensures forall b | center - half <= b < center && b >= 0 ::
              short[b - center + 2 * half] == spectrum[b].Mul(filter[b - center + 5120])
    ensures forall i | 0 <= i < half && center + i >= 5120 :: short[i] == Cplx(0.0, 0.0)
    ensures forall i | half <= i < 2 * half && center + i < 2 * half :: short[i] == Cplx(0.0, 0.0)
    ensures short[..2 * half] == Rotated(spectrum[..], filter, center, half)
    ensures short[2 * half..] == old(short[2 * half..])
  {
    FillUpper(short, spectrum, filter, center, half);
    FillLower(short, spectrum, filter, center, half);
    RotatedBins(short[..2 * half], spectrum[..], filter, center, half);
  }
}
