/** Programming of the Si5351 clock generator: divider choice, fractional PLL multiplier and register packing. */
module Si5351 {
  import opened Words

  // Crystal 27 MHz; the PLL fraction is num / 1048575.

  /** The two outputs the firmware drives; each has its own PLL, synthesiser and registers. */
  datatype Clock = ClockA | ClockB

  /** One transfer on the I2C bus: consecutive registers from `reg`. */
  datatype Transfer = Transfer(reg: nat, data: seq<nat>)

  /** P1, P2 and P3 of a PLL or synthesiser and the R divider exponent, as the chip reads them back from 8 bytes. */
  datatype Params = Params(p1: nat, p2: nat, p3: nat, r: nat)

  // ---- register packing ----

  /** The eight bytes, masked and shifted as setupPLL and setupMultisynth do. */
  function Pack(p1: nat, p2: nat, p3: nat, rDiv: nat): seq<nat> {
    [ Shr(And(p3, 0xFF00), 8),
      And(p3, 0xFF),
      Or(Shr(And(p1, 0x3_0000), 16), rDiv),
      Shr(And(p1, 0xFF00), 8),
      And(p1, 0xFF),
      Or(Shr(And(p3, 0xF_0000), 12), Shr(And(p2, 0xF_0000), 16)),
      Shr(And(p2, 0xFF00), 8),
      And(p2, 0xFF) ]
  }

  /** Masking out d bits from bit s on and shifting them down. */
  lemma Picked(p: nat, d: nat, s: nat, down: nat)
    requires down <= s
    ensures Shr(And(p, Shl(Pow2(d) - 1, s)), down) == Shl(p / Pow2(s) % Pow2(d), s - down)
  {
    AndShifted(p, Pow2(d) - 1, s);
    ShrShl(And(Shr(p, s), Pow2(d) - 1), s, down);
    ShrIs(p, s);
    MaskIsMod(p / Pow2(s), d, Pow2(d));
  }

  /** The masks. */
  lemma Masks()
    ensures Pow2(2) == 4 && Pow2(4) == 0x10 && Pow2(8) == 0x100 && Pow2(16) == 0x1_0000
    ensures Shl(0xFF, 8) == 0xFF00 && Shl(3, 16) == 0x3_0000 && Shl(0xF, 16) == 0xF_0000
  {
    assert Pow2(12) == 0x1000;
    ShlIs(0xFF, 8);
    ShlIs(3, 16);
    ShlIs(0xF, 16);
  }

  /** What each mask and shift picks. */
  lemma Parts(p: nat)
    ensures And(p, 0xFF) == p % 0x100 && Shr(And(p, 0xFF00), 8) == p / 0x100 % 0x100
    ensures Shr(And(p, 0x3_0000), 16) == p / 0x1_0000 % 4
    ensures Shr(And(p, 0xF_0000), 16) == p / 0x1_0000 % 0x10
    ensures Shr(And(p, 0xF_0000), 12) == Shl(p / 0x1_0000 % 0x10, 4)
  {
    Masks();
    MaskIsMod(p, 8, 0x100);
    Picked(p, 8, 8, 8);
    Picked(p, 2, 16, 16);
    Picked(p, 4, 16, 16);
    Picked(p, 4, 16, 12);
  }

  lemma UpFour(x: nat)
    ensures Shl(x, 4) == 0x10 * x
  {
    ShlIs(x, 4);
    Masks();
  }

  lemma TopByte(p1: nat, r: nat)
    ensures Or(Shr(And(p1, 0x3_0000), 16), 0x10 * r) == p1 / 0x10000 % 4 + 0x10 * r
  {
    Parts(p1);
    UpFour(r);
    OrSmall(r, p1 / 0x10000 % 4);
  }

  /** A number of at most four bits below others. */
  lemma OrSmall(high: nat, low: nat)
    requires low < 0x10
    ensures Or(Shl(high, 4), low) == Or(low, Shl(high, 4)) == Shl(high, 4) + low
  {
    Masks();
    OrAdds(high, low, 4);
  }

  lemma MiddleByte(p2: nat, p3: nat)
    ensures Or(Shr(And(p3, 0xF_0000), 12), Shr(And(p2, 0xF_0000), 16)) ==
            p3 / 0x10000 % 0x10 * 0x10 + p2 / 0x10000 % 0x10
  {
    Parts(p2);
    Parts(p3);
    UpFour(p3 / 0x10000 % 0x10);
    OrSmall(p3 / 0x10000 % 0x10, p2 / 0x10000 % 0x10);
  }

  /** The bytes as numbers. */
  lemma PackIs(p1: nat, p2: nat, p3: nat, r: nat)
    ensures Pack(p1, p2, p3, 0x10 * r) ==
            [ p3 / 0x100 % 0x100,
              p3 % 0x100,
              p1 / 0x10000 % 4 + 0x10 * r,
              p1 / 0x100 % 0x100,
              p1 % 0x100,
              p3 / 0x10000 % 0x10 * 0x10 + p2 / 0x10000 % 0x10,
              p2 / 0x100 % 0x100,
              p2 % 0x100 ]
  {
    Parts(p1);
    Parts(p2);
    Parts(p3);
    TopByte(p1, r);
    MiddleByte(p2, p3);
  }

  /** How the chip decodes the 8 bytes. */
  function Unpack(data: seq<nat>): Params
    requires |data| == 8
  {
    Params(data[2] % 4 * 0x10000 + data[3] * 0x100 + data[4],
           data[5] % 0x10 * 0x10000 + data[6] * 0x100 + data[7],
           data[5] / 0x10 * 0x10000 + data[0] * 0x100 + data[1],
           data[2] / 0x10)
  }

  /** A number is put together again from its low byte, its next byte and what lies above. */
  lemma Bytes(p: nat)
    ensures p == p / 0x10000 * 0x10000 + p / 0x100 % 0x100 * 0x100 + p % 0x100
  {
    assert p / 0x10000 == p / 0x100 / 0x100 by { DivTwice(p); }
  }

  lemma DivTwice(p: nat)
    ensures p / 0x10000 == p / 0x100 / 0x100
  {
    var a, q := p % 0x100, p / 0x100;
    var b, c := q % 0x100, q / 0x100;
    assert p == 0x10000 * c + (0x100 * b + a);
    assert 0 <= 0x100 * b + a < 0x10000;
  }

  lemma Low18(p: nat)
    ensures p / 0x10000 % 4 * 0x10000 + p / 0x100 % 0x100 * 0x100 + p % 0x100 == p % 0x4_0000
  {
    Bytes(p);
    var e, f, low := p / 0x10000 / 4, p / 0x10000 % 4, p / 0x100 % 0x100 * 0x100 + p % 0x100;
    assert p == 0x4_0000 * e + (0x10000 * f + low);
  }

  lemma Low20(p: nat)
    ensures p / 0x10000 % 0x10 * 0x10000 + p / 0x100 % 0x100 * 0x100 + p % 0x100 == p % 0x10_0000
  {
    Bytes(p);
    var e, f, low := p / 0x10000 / 0x10, p / 0x10000 % 0x10, p / 0x100 % 0x100 * 0x100 + p % 0x100;
    assert p == 0x10_0000 * e + (0x10000 * f + low);
  }

  lemma Nibbles(high: nat, low: nat)
    requires low < 0x10
    ensures (high * 0x10 + low) / 0x10 == high && (high * 0x10 + low) % 0x10 == low
  {
  }

  lemma UnpackOfPack(p1: nat, p2: nat, p3: nat, r: nat)
    ensures Unpack(Pack(p1, p2, p3, 0x10 * r)) == Params(p1 % 0x4_0000, p2 % 0x10_0000, p3 % 0x10_0000, r)
  {
    PackIs(p1, p2, p3, r);
    Low18(p1);
    Low20(p2);
    Low20(p3);
    Nibbles(p3 / 0x10000 % 0x10, p2 / 0x10000 % 0x10);
    Nibbles(r, p1 / 0x10000 % 4);
    FourDividesSixteen(r, p1 / 0x10000 % 4);
  }

  lemma FourDividesSixteen(r: nat, top: nat)
    requires top < 4
    ensures (top + 0x10 * r) % 4 == top
  {
  }

  /** Packing loses nothing exactly when P1 fits 18 bits and P2 and P3 fit 20. */
  lemma PackRoundTrips(p1: nat, p2: nat, p3: nat, r: nat)
    ensures Unpack(Pack(p1, p2, p3, 0x10 * r)) == Params(p1, p2, p3, r) <==>
            p1 < 0x4_0000 && p2 < 0x10_0000 && p3 < 0x10_0000
  {
    UnpackOfPack(p1, p2, p3, r);
    Fits(p1, 0x4_0000);
    Fits(p2, 0x10_0000);
    Fits(p3, 0x10_0000);
  }

  lemma Fits(p: nat, m: nat)
    requires m > 0
    ensures p % m == p <==> p < m
  {
  }

  // ---- what the chip makes of its registers ----

  /** PLL multiplier: P1 and P2 encode a + b/c as 128 a + floor(128 b/c) - 512 and the remainder. */
  function Multiplier(pll: Params): real
    requires pll.p3 > 0
  {
    ((pll.p1 + 512) * pll.p3 + pll.p2) as real / (128 * pll.p3) as real
  }

  /** The frequency at the output: crystal times multiplier, over the synthesiser divider and the R divider. */
  function OutputHz(pll: Params, ms: Params): real
    requires pll.p3 > 0 && ms.p3 > 0
  {
    27_000_000.0 * Multiplier(pll) / (Multiplier(ms) * Pow2(ms.r) as real)
  }

  /** The chip's registers. */
  type Registers = r: seq<nat> | |r| == 256 witness seq(256, i => 0)

  /** A transfer stores its bytes from its register on. */
  function Stored(regs: Registers, t: Transfer): Registers
    requires t.reg + |t.data| <= 256
  {
    regs[..t.reg] + t.data + regs[t.reg + |t.data|..]
  }

  predicate InRange(sent: seq<Transfer>) {
    forall t | t in sent :: t.reg + |t.data| <= 256
  }

  /** The registers after some transfers. */
  function AllStored(regs: Registers, sent: seq<Transfer>): Registers
    requires InRange(sent)
  {
    if sent == [] then regs else Stored(AllStored(regs, sent[..|sent| - 1]), sent[|sent| - 1])
  }

  // Output n (0 to 2) is controlled by register 16 + n: bit 7 powers it down, bit 5 selects PLL B, and bits 3 and 2 both
  // set connect its own synthesiser, registers 42 + 8 n on. PLL A has registers 26 on, PLL B 34 on; bits 5 and 7 of
  // register 177 reset PLL A and PLL B.

  predicate Running(regs: Registers, n: nat)
    requires n <= 2
  {
    regs[16 + n] / 0x80 % 2 == 0 && regs[16 + n] / 4 % 4 == 3
  }

  predicate OnPllB(regs: Registers, n: nat)
    requires n <= 2
  {
    regs[16 + n] / 0x20 % 2 == 1
  }

  function PllOf(regs: Registers, n: nat): Params
    requires n <= 2
  {
    Unpack(if OnPllB(regs, n) then regs[34..42] else regs[26..34])
  }

  function SynthOf(regs: Registers, n: nat): Params
    requires n <= 2
  {
    Unpack(regs[42 + 8 * n..50 + 8 * n])
  }

  /** The doubling loop stops short of this many hertz: `< 1000000` for A, `<= 1000000` for B. */
  predicate TooLow(clock: Clock, frequency: nat) {
    frequency < 1_000_000 || (clock == ClockB && frequency == 1_000_000)
  }

  function Doubled(freq: nat, k: nat): nat {
    if k == 0 then freq else 2 * Doubled(freq, k - 1)
  }

  lemma {:induction false} DoubledIsTimesPow2(freq: nat, k: nat)
    ensures Doubled(freq, k) == freq * Pow2(k)
  {
    if k > 0 { DoubledIsTimesPow2(freq, k - 1); }
  }

  lemma SevenDoublings(freq: nat, k: nat)
    requires k <= 7
    ensures Doubled(freq, k) <= Doubled(freq, 7) == 128 * freq
  {
    assert Doubled(freq, 1) == 2 * freq;
    assert Doubled(freq, 2) == 4 * freq;
    assert Doubled(freq, 3) == 8 * freq;
    assert Doubled(freq, 4) == 16 * freq;
    assert Doubled(freq, 5) == 32 * freq;
    assert Doubled(freq, 6) == 64 * freq;
    assert k in {0, 1, 2, 3, 4, 5, 6, 7};
  }

  /** The doubling loop. Seven doublings, the most the R divider offers, are enough exactly from 7813 Hz on. */
  method Normalise(clock: Clock, freq: nat) returns (frequency: nat, rdiv: nat, ghost k: nat)
    requires freq > 0
    ensures frequency == freq * Pow2(k) && rdiv == 0x10 * k
    ensures if clock == ClockA then frequency >= 1_000_000 else frequency > 1_000_000
    ensures k > 0 ==> if clock == ClockA then frequency < 2_000_000 else frequency <= 2_000_000
    ensures (k <= 7 <==> freq >= 7813) && (k == 0 ==> frequency == freq)
  {
    frequency, rdiv, k := freq, 0, 0;
    while TooLow(clock, frequency)
      invariant frequency == Doubled(freq, k) > 0 && rdiv == 0x10 * k
      invariant k > 0 ==> if clock == ClockA then frequency < 2_000_000 else frequency <= 2_000_000
      invariant freq >= 7813 ==> k <= 7
      decreases 2_000_000 - frequency
    {
      SevenDoublings(freq, 7);
      frequency := frequency * 2;
      rdiv := rdiv + 0x10;
      k := k + 1;
    }
    if k <= 7 { SevenDoublings(freq, k); }
    DoubledIsTimesPow2(freq, k);
  }

  /** Divider, PLL multiplier and fraction for a normalised frequency of at most 150 MHz. */
  ghost predicate Plan(frequency: nat, divider: nat, pllFreq: nat, mult: nat, num: nat) {
    && divider % 2 == 0 && 6 <= divider <= 900
    && pllFreq == divider * frequency <= 900_000_000
    && 25 <= mult <= 33 && num < 1_048_575
    && mult == pllFreq / 27_000_000
    && num == pllFreq % 27_000_000 * 1_048_575 / 27_000_000
  }

  /** `divider = 900000000 / frequency; if (divider % 2) divider--;` */
  function EvenDivider(frequency: nat): nat
    requires frequency > 0
  {
    var q := 900_000_000 / frequency;
    if q % 2 == 1 then q - 1 else q
  }

  /** The largest even divider that keeps the PLL at or below 900 MHz puts it above 675 MHz. */
  lemma PllRange(frequency: nat)
    requires 1_000_000 <= frequency <= 150_000_000
    ensures var d := EvenDivider(frequency);
            d % 2 == 0 && 6 <= d <= 900 && 675_000_000 < d * frequency <= 900_000_000
  {
    var q, d := 900_000_000 / frequency, EvenDivider(frequency);
    QuotientBounds(frequency);
    QuotientAtLeast(frequency, q, 6);
    QuotientAtMost(frequency, q, 900);
    ProductMonotone(q + 1, d + 2, frequency);
    ProductMonotone(6, d, frequency);
    ProductMonotone(d, q, frequency);
    assert (d + 2) * frequency == d * frequency + 2 * frequency;
  }

  /** No larger even divider will do. */
  lemma LargestDivider(frequency: nat)
    requires frequency > 0
    ensures EvenDivider(frequency) * frequency <= 900_000_000 < (EvenDivider(frequency) + 2) * frequency
  {
    var q, d := 900_000_000 / frequency, EvenDivider(frequency);
    QuotientBounds(frequency);
    ProductMonotone(q + 1, d + 2, frequency);
    ProductMonotone(d, q, frequency);
  }

  lemma QuotientBounds(f: nat)
    requires f > 0
    ensures 900_000_000 / f * f <= 900_000_000 < (900_000_000 / f + 1) * f
  {
    assert 900_000_000 == 900_000_000 / f * f + 900_000_000 % f;
  }

  /** So the multiplier stays well inside the chip's 15..90 and the fraction below 1. */
  lemma PlanHolds(frequency: nat)
    requires 1_000_000 <= frequency <= 150_000_000
    ensures var pllFreq := EvenDivider(frequency) * frequency;
            Plan(frequency, EvenDivider(frequency), pllFreq, pllFreq / 27_000_000,
                 pllFreq % 27_000_000 * 1_048_575 / 27_000_000)
  {
    PllRange(frequency);
    var pllFreq := EvenDivider(frequency) * frequency;
    MultiplierRange(pllFreq);
    FractionBelow(pllFreq % 27_000_000);
  }

  lemma MultiplierRange(pllFreq: nat)
    requires 675_000_000 < pllFreq <= 900_000_000
    ensures 25 <= pllFreq / 27_000_000 <= 33
  {
  }

  lemma FractionBelow(l: nat)
    requires l < 27_000_000
    ensures l * 1_048_575 / 27_000_000 < 1_048_575
  {
  }

  lemma ProductMonotone(a: nat, b: nat, c: nat)
    requires a <= b
    ensures a * c <= b * c
  {
  }

  lemma QuotientAtLeast(f: nat, q: nat, k: nat)
    requires k * f <= 900_000_000 < (q + 1) * f
    ensures q >= k
  {
    if q < k { ProductMonotone(q + 1, k, f); }
  }

  lemma QuotientAtMost(f: nat, q: nat, k: nat)
    requires q * f <= 900_000_000 <= k * f && f > 0
    ensures q <= k
  {
    if q > k { ProductMonotone(k + 1, q, f); }
  }

  // ---- the registers sent ----

  /** setupPLL. The binary32 quotient of the source is modelled as the exact one, rounded down. */
  function PllBytes(mult: nat, num: nat, denom: nat): (data: seq<nat>)
    requires denom > 0
    ensures |data| == 8
  {
    var f := 128 * num / denom;
    Pack((128 * mult + f - 512) % 0x1_0000_0000, (128 * num - denom * f) % 0x1_0000_0000, denom, 0)
  }

  /** setupMultisynth: P2 = 0 and P3 = 1 force an integer divider. */
  function SynthBytes(divider: nat, rDiv: nat): (data: seq<nat>)
    ensures |data| == 8
  {
    Pack((128 * divider - 512) % 0x1_0000_0000, 0, 1, rDiv % 0x100)
  }

  lemma SmallMod(x: int)
    requires 0 <= x < 0x1_0000_0000
    ensures x % 0x1_0000_0000 == x
  {
  }

  /** P1 and P2 carry the quotient and remainder of 128 num / denom. */
  lemma PllParameters(mult: nat, num: nat)
    requires 4 <= mult <= 90 && num < 1_048_575
    ensures var f := 128 * num / 1_048_575;
            && 0 <= 128 * mult + f - 512 < 0x4_0000
            && 0 <= 128 * num - 1_048_575 * f < 1_048_575
            && (128 * mult + f) * 1_048_575 + (128 * num - 1_048_575 * f) == 128 * (mult * 1_048_575 + num)
  {
  }

  /** In exact arithmetic the PLL bytes decode to parameters that stand for mult + num / denom, with P2 < P3. */
  lemma PllDecodes(mult: nat, num: nat, denom: nat)
    requires 4 <= mult <= 90 && num < denom == 1_048_575
    ensures var p := Unpack(PllBytes(mult, num, denom));
            p.p3 == denom && p.p2 < p.p3 && (p.p1 + 512) * p.p3 + p.p2 == 128 * (mult * denom + num)
  {
    PllParameters(mult, num);
    var f := 128 * num / denom;
    var p1: nat, p2: nat := 128 * mult + f - 512, 128 * num - denom * f;
    PllBytesAre(mult, num, denom, p1, p2);
    Decodes(PllBytes(mult, num, denom), p1, p2, denom, 0);
  }

  lemma PllBytesAre(mult: nat, num: nat, denom: nat, p1: nat, p2: nat)
    requires denom > 0 && p1 < 0x1_0000_0000 && p2 < 0x1_0000_0000
    requires p1 == 128 * mult + 128 * num / denom - 512 && p2 == 128 * num - denom * (128 * num / denom)
    ensures PllBytes(mult, num, denom) == Pack(p1, p2, denom, 0x10 * 0)
  {
    SmallMod(p1);
    SmallMod(p2);
  }

  lemma Decodes(data: seq<nat>, p1: nat, p2: nat, p3: nat, r: nat)
    requires p1 < 0x4_0000 && p2 < 0x10_0000 && p3 < 0x10_0000 && data == Pack(p1, p2, p3, 0x10 * r)
    ensures |data| == 8 && Unpack(data) == Params(p1, p2, p3, r)
  {
    PackRoundTrips(p1, p2, p3, r);
  }

  lemma SynthDecodes(divider: nat, r: nat)
    requires 6 <= divider <= 900 && r <= 7
    ensures Unpack(SynthBytes(divider, 0x10 * r)) == Params(128 * divider - 512, 0, 1, r)
  {
    var p1: nat, rDiv: nat := 128 * divider - 512, 0x10 * r;
    SmallMod(p1);
    SmallByte(rDiv);
    Decodes(SynthBytes(divider, rDiv), p1, 0, 1, r);
  }

  lemma SmallByte(x: nat)
    requires x < 0x100
    ensures x % 0x100 == x
  {
  }

  /** The PLL falls short of divider * frequency by less than one step of the fraction. */
  lemma FractionError(pllFreq: nat)
    ensures var mult, num := pllFreq / 27_000_000, pllFreq % 27_000_000 * 1_048_575 / 27_000_000;
            0 <= pllFreq * 1_048_575 - 27_000_000 * (mult * 1_048_575 + num) < 27_000_000
  {
    var mult, l := pllFreq / 27_000_000, pllFreq % 27_000_000;
    var num := l * 1_048_575 / 27_000_000;
    assert pllFreq == 27_000_000 * mult + l;
    assert 27_000_000 * num <= l * 1_048_575 < 27_000_000 * (num + 1);
  }

  /** freq * w == x and 0 <= x d - c n < c give 0 <= freq - c (n / d) / w < c / (d w). */
  lemma QuotientError(freq: real, w: real, x: real, d: real, c: real, n: real)
    requires w > 0.0 && d > 0.0 && freq * w == x && 0.0 <= x * d - c * n < c
    ensures 0.0 <= freq - c * (n / d) / w < c / (d * w)
  {
    var q := n / d;
    var y := c * q / w;
    QuotientTimes(n, d);
    QuotientTimes(c * q, w);
    var gap := x * d - c * n;
    Regroup(freq, y, w, d, c, q);
    DivideBack(freq - y, gap, d * w);
    DivideOrdered(0.0, gap, d * w);
    DivideStrict(gap, c, d * w);
  }

  lemma QuotientTimes(a: real, k: real)
    requires k != 0.0
    ensures a / k * k == a
  {
  }

  lemma Regroup(f: real, y: real, w: real, d: real, c: real, q: real)
    requires y * w == c * q
    ensures (f - y) * (d * w) == f * w * d - c * (q * d)
  {
    assert y * (d * w) == y * w * d;
    assert c * q * d == c * (q * d);
  }

  lemma DivideBack(a: real, b: real, k: real)
    requires k > 0.0 && a * k == b
    ensures a == b / k
  {
  }

  lemma DivideOrdered(a: real, b: real, k: real)
    requires a <= b && k > 0.0
    ensures a / k <= b / k
  {
  }

  lemma DivideStrict(a: real, b: real, k: real)
    requires a < b && k > 0.0
    ensures a / k < b / k
  {
  }

  /** The output is never above the request, and below it by less than one step of the PLL fraction. */
  ghost predicate Accurate(freq: nat, divider: nat, k: nat, pll: Params, ms: Params) {
    && pll.p3 > 0 && ms.p3 > 0 && divider > 0
    && 0.0 <= freq as real - OutputHz(pll, ms) < 27_000_000.0 / (1_048_575.0 * (divider * Pow2(k)) as real)
  }

  lemma OutputIsAccurate(freq: nat, k: nat, d: nat, n: nat, pll: Params, ms: Params)
    requires d >= 6 && pll.p3 == 1_048_575 && (pll.p1 + 512) * pll.p3 + pll.p2 == 128 * n
    requires ms == Params(128 * d - 512, 0, 1, k)
    requires 0 <= d * (freq * Pow2(k)) * 1_048_575 - 27_000_000 * n < 27_000_000
    ensures Accurate(freq, d, k, pll, ms)
  {
    var pllFreq := d * (freq * Pow2(k));
    assert Multiplier(pll) == n as real / 1_048_575.0 by { Cancel128(n); }
    assert Multiplier(ms) == d as real;
    var w := (d * Pow2(k)) as real;
    assert d as real * Pow2(k) as real == w;
    Reassociate(freq, d, Pow2(k));
    QuotientError(freq as real, w, pllFreq as real, 1_048_575.0, 27_000_000.0, n as real);
  }

  lemma Reassociate(freq: nat, d: nat, p: nat)
    ensures freq as real * (d * p) as real == (d * (freq * p)) as real
  {
    assert freq * (d * p) == d * (freq * p);
  }

  lemma Cancel128(n: nat)
    ensures (128 * n) as real / (128 * 1_048_575) as real == n as real / 1_048_575.0
  {
  }

  /** What the two register blocks mean, for a normalised frequency within range. */
  lemma RegistersAreAccurate(freq: nat, k: nat, frequency: nat, d: nat, mult: nat, num: nat, denom: nat)
    requires frequency == freq * Pow2(k) && 1_000_000 <= frequency <= 150_000_000 && k <= 7
    requires d == EvenDivider(frequency) && mult == d * frequency / 27_000_000 && denom == 1_048_575
    requires num == d * frequency % 27_000_000 * 1_048_575 / 27_000_000
    ensures var pll, ms := Unpack(PllBytes(mult, num, denom)), Unpack(SynthBytes(d, 0x10 * k));
            && d % 2 == 0 && 6 <= d <= 900
            && pll.p3 == 1_048_575 && pll.p2 < pll.p3 && ms == Params(128 * d - 512, 0, 1, k)
            && Accurate(freq, d, k, pll, ms)
  {
    PlanHolds(frequency);
    PllDecodes(mult, num, denom);
    SynthDecodes(d, k);
    FractionError(d * frequency);
    OutputIsAccurate(freq, k, d, mult * 1_048_575 + num, Unpack(PllBytes(mult, num, denom)),
                     Unpack(SynthBytes(d, 0x10 * k)));
  }

  lemma StoredAt(regs: Registers, t: Transfer, i: nat)
    requires t.reg + |t.data| <= 256 && i < 256
    ensures Stored(regs, t)[i] == if t.reg <= i < t.reg + |t.data| then t.data[i - t.reg] else regs[i]
  {
  }

  lemma StoredInOrder(regs: Registers, a: Transfer, b: Transfer, c: Transfer, d: Transfer)
    requires InRange([a, b, c, d])
    ensures AllStored(regs, [a, b, c, d]) == Stored(Stored(Stored(Stored(regs, a), b), c), d)
  {
    OneMoreStored(regs, [], a);
    OneMoreStored(regs, [a], b);
    OneMoreStored(regs, [a, b], c);
    OneMoreStored(regs, [a, b, c], d);
    assert [a] == [] + [a] && [a, b] == [a] + [b] && [a, b, c] == [a, b] + [c] && [a, b, c, d] == [a, b, c] + [d];
  }

  lemma OneMoreStored(regs: Registers, sent: seq<Transfer>, t: Transfer)
    requires InRange(sent) && t.reg + |t.data| <= 256
    ensures InRange(sent + [t]) && AllStored(regs, sent + [t]) == Stored(AllStored(regs, sent), t)
  {
    assert (sent + [t])[..|sent|] == sent;
  }

  /** Four transfers that do not overlap leave each its own bytes and every other register as it was. */
  lemma FourStored(regs: Registers, a: Transfer, b: Transfer, c: Transfer, d: Transfer)
    requires d.reg + |d.data| <= a.reg && a.reg + |a.data| <= b.reg && b.reg + |b.data| <= c.reg && c.reg + |c.data| <= 256
    ensures InRange([a, b, c, d])
    ensures var after := AllStored(regs, [a, b, c, d]);
            && after[a.reg..a.reg + |a.data|] == a.data && after[b.reg..b.reg + |b.data|] == b.data
            && after[c.reg..c.reg + |c.data|] == c.data && after[d.reg..d.reg + |d.data|] == d.data
            && (forall i | 0 <= i < 256 && !Touched(a, i) && !Touched(b, i) && !Touched(c, i) && !Touched(d, i) ::
                  after[i] == regs[i])
  {
    StoredInOrder(regs, a, b, c, d);
    var r1 := Stored(regs, a);
    var r2 := Stored(r1, b);
    var r3 := Stored(r2, c);
    forall i | 0 <= i < 256
      ensures AllStored(regs, [a, b, c, d])[i] ==
              if Touched(a, i) then a.data[i - a.reg] else if Touched(b, i) then b.data[i - b.reg]
              else if Touched(c, i) then c.data[i - c.reg] else if Touched(d, i) then d.data[i - d.reg] else regs[i]
    {
      StoredAt(regs, a, i);
      StoredAt(r1, b, i);
      StoredAt(r2, c, i);
      StoredAt(r3, d, i);
    }
  }

  predicate Touched(t: Transfer, i: nat) {
    t.reg <= i < t.reg + |t.data|
  }

  /** The four transfers, PLL, synthesiser, reset and control, and what they leave in the registers: the output runs, on
      its own PLL, which has been reset, with these bytes; no register of another output or of the other PLL changes. */
  method Program(clock: Clock, pllData: seq<nat>, synthData: seq<nat>, ghost regs: Registers) returns (sent: seq<Transfer>)
    requires |pllData| == |synthData| == 8
    ensures |sent| == 4 && InRange(sent) && sent[2] == Transfer(177, [if clock == ClockA then 0x20 else 0x80])
    ensures sent[0] == Transfer(if clock == ClockA then 26 else 34, pllData) && sent[1].reg != 177 && sent[3].reg != 177
    ensures var after := AllStored(regs, sent);
            && Running(after, if clock == ClockA then 0 else 2)
            && (OnPllB(after, if clock == ClockA then 0 else 2) <==> clock == ClockB)
            && PllOf(after, if clock == ClockA then 0 else 2) == Unpack(pllData)
            && SynthOf(after, if clock == ClockA then 0 else 2) == Unpack(synthData)
            && OnlyOwn(regs, after, clock)
  {
    match clock {
      case ClockA =>
        sent := [Transfer(26, pllData), Transfer(42, synthData), Transfer(177, [0x20]), Transfer(16, [0x4F])];
      case ClockB =>
        sent := [Transfer(34, pllData), Transfer(58, synthData), Transfer(177, [0x80]), Transfer(18, [0x6C])];
    }
    FourStored(regs, sent[0], sent[1], sent[2], sent[3]);
    ghost var at, after := sent[3].reg, AllStored(regs, sent);
    assert after[at] == after[at..at + 1][0];
  }

  /** Only the output's own registers, those of its PLL and the reset register may differ. */
  predicate OnlyOwn(regs: Registers, after: Registers, clock: Clock) {
    forall i | 0 <= i < 256 && i != 177 ::
      after[i] == regs[i] || if clock == ClockA then i == 16 || 26 <= i < 34 || 42 <= i < 50
                             else i == 18 || 34 <= i < 42 || 58 <= i < 66
  }

  /** The register bytes for a frequency. */
  method Tune(clock: Clock, freq: nat) returns (pllData: seq<nat>, synthData: seq<nat>, ghost divider: nat, ghost k: nat)
    requires 0 < freq < 0x1_0000_0000
    ensures |pllData| == |synthData| == 8
    ensures 7813 <= freq <= 150_000_000 ==>
              var pll, ms := Unpack(pllData), Unpack(synthData);
              && k <= 7 && divider % 2 == 0 && 6 <= divider <= 900
              && pll.p3 == 1_048_575 && pll.p2 < pll.p3 && ms == Params(128 * divider - 512, 0, 1, k)
              && Accurate(freq, divider, k, pll, ms)
  {
    var frequency, rdiv;
    frequency, rdiv, k := Normalise(clock, freq);
    var d := EvenDivider(frequency);
    var pllFreq := d * frequency;
    var mult := pllFreq / 27_000_000;
    var l := pllFreq % 27_000_000;
    var denom := 1_048_575;
    var num := l * denom / 27_000_000;
    assert freq <= 150_000_000 ==> frequency <= 150_000_000;
    pllData := PllBytes(mult, num, denom);
    synthData := SynthBytes(d, rdiv);
    divider := d;
    if 7813 <= freq <= 150_000_000 {
      RegistersAreAccurate(freq, k, frequency, d, mult, num, denom);
    }
  }

  /** 0 switches the output off and does nothing else. */
  method SwitchOff(clock: Clock, ghost regs: Registers) returns (sent: seq<Transfer>)
    ensures |sent| == 1 && InRange(sent) && sent[0].reg != 177
    ensures !Running(AllStored(regs, sent), if clock == ClockA then 0 else 2)
    ensures forall i | 0 <= i < 256 && i != (if clock == ClockA then 16 else 18) :: AllStored(regs, sent)[i] == regs[i]
  {
    var control := if clock == ClockA then 16 else 18;
    sent := [Transfer(control, [0x80])];
    OneStored(regs, control, 0x80);
  }

  lemma OneStored(regs: Registers, reg: nat, value: nat)
    requires reg < 256
    ensures var sent := [Transfer(reg, [value])];
            InRange(sent) && forall i | 0 <= i < 256 :: AllStored(regs, sent)[i] == if i == reg then value else regs[i]
  {
    var t := Transfer(reg, [value]);
    OneMoreStored(regs, [], t);
    assert [] + [t] == [t];
    forall i | 0 <= i < 256 ensures Stored(regs, t)[i] == if i == reg then value else regs[i] {
      StoredAt(regs, t, i);
    }
  }

  /** si5351aSetFrequencyA (output 0, PLL A) and si5351aSetFrequencyB (output 2, PLL B), whatever the registers held. From
      7813 Hz to 150 MHz the output then runs at the frequency asked for, short by less than
      27 MHz / (1048575 * divider * 2^r). */
  method SetFrequency(clock: Clock, freq: nat, ghost regs: Registers)
    returns (sent: seq<Transfer>, ghost divider: nat, ghost k: nat)
    requires freq < 0x1_0000_0000
    ensures InRange(sent) && OnlyOwn(regs, AllStored(regs, sent), clock)
    ensures Running(AllStored(regs, sent), if clock == ClockA then 0 else 2) <==> freq > 0
    ensures freq == 0 ==> |sent| == 1 && sent[0].reg != 177
    ensures freq > 0 ==> |sent| == 4 && sent[0].reg == if clock == ClockA then 26 else 34
    ensures freq > 0 ==> sent[2] == Transfer(177, [if clock == ClockA then 0x20 else 0x80])
    ensures freq > 0 ==> (OnPllB(AllStored(regs, sent), if clock == ClockA then 0 else 2) <==> clock == ClockB)
    ensures 7813 <= freq <= 150_000_000 ==>
              var after := AllStored(regs, sent);
              var pll, ms := PllOf(after, if clock == ClockA then 0 else 2), SynthOf(after, if clock == ClockA then 0 else 2);
              && k <= 7 && divider % 2 == 0 && 6 <= divider <= 900
              && pll.p3 == 1_048_575 && pll.p2 < pll.p3 && ms == Params(128 * divider - 512, 0, 1, k)
              && Accurate(freq, divider, k, pll, ms)
  {
    divider, k := 0, 0;
    if freq == 0 {
      sent := SwitchOff(clock, regs);
    } else {
      var pllData, synthData;
      pllData, synthData, divider, k := Tune(clock, freq);
      sent := Program(clock, pllData, synthData, regs);
    }
  }

  /** Programming one output leaves the other as it was, if that one is fed by its own PLL. */
  lemma OtherOutputStays(regs: Registers, after: Registers, clock: Clock)
    requires OnlyOwn(regs, after, clock)
    ensures clock == ClockA && OnPllB(regs, 2) ==>
              && PllOf(after, 2) == PllOf(regs, 2) && SynthOf(after, 2) == SynthOf(regs, 2)
              && Running(after, 2) == Running(regs, 2)
    ensures clock == ClockB && !OnPllB(regs, 0) ==>
              && PllOf(after, 0) == PllOf(regs, 0) && SynthOf(after, 0) == SynthOf(regs, 0)
              && Running(after, 0) == Running(regs, 0)
  {
    match clock
    case ClockA =>
      assert after[18] == regs[18] && after[34..42] == regs[34..42] && after[58..66] == regs[58..66];
    case ClockB =>
      assert after[16] == regs[16] && after[26..34] == regs[26..34] && after[42..50] == regs[42..50];
  }
}
