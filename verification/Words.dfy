/** Unsigned 32-bit words as numbers: the C operators the DMA buffer manager uses on them, digit by digit. */
module Words {
  import opened Modular

  type Word = w: nat | w < 0x1_0000_0000

  /** `1 << n` */
  function Pow2(n: nat): (p: nat)
    ensures p > 0
  {
    if n == 0 then 1 else 2 * Pow2(n - 1)
  }

  /** `(w & (1 << n)) != 0` */
  predicate Bit(w: nat, n: nat) {
    if n == 0 then w % 2 == 1 else Bit(w / 2, n - 1)
  }

  /** `v | w` */
  function Or(v: nat, w: nat): nat {
    if v == 0 then w else 2 * Or(v / 2, w / 2) + (if v % 2 == 1 || w % 2 == 1 then 1 else 0)
  }

  /** `v & w` */
  function And(v: nat, w: nat): nat {
    if v == 0 then 0 else 2 * And(v / 2, w / 2) + (if v % 2 == 1 && w % 2 == 1 then 1 else 0)
  }

  /** `v ^ w` */
  function Xor(v: nat, w: nat): nat {
    if v == 0 then w else 2 * Xor(v / 2, w / 2) + (if v % 2 != w % 2 then 1 else 0)
  }

  /** `~w` on 32 bits */
  function Not(w: Word): Word {
    0xFFFF_FFFF - w
  }

  lemma {:induction false} ZeroBit(n: nat)
    ensures !Bit(0, n)
  {
    if n > 0 { ZeroBit(n - 1); }
  }

  lemma {:induction false} OrBit(v: nat, w: nat, n: nat)
    ensures Bit(Or(v, w), n) <==> Bit(v, n) || Bit(w, n)
  {
    if v == 0 {
      ZeroBit(n);
    } else if n > 0 {
      OrBit(v / 2, w / 2, n - 1);
    }
  }

  lemma {:induction false} AndBit(v: nat, w: nat, n: nat)
    ensures Bit(And(v, w), n) <==> Bit(v, n) && Bit(w, n)
  {
    if v == 0 {
      ZeroBit(n);
    } else if n > 0 {
      AndBit(v / 2, w / 2, n - 1);
    }
  }

  /** Complementing below 2^width flips each of the low `width` bits. */
  lemma {:induction false} ComplementBit(width: nat, w: nat, n: nat)
    requires w < Pow2(width) && n < width
    ensures Bit(Pow2(width) - 1 - w, n) <==> !Bit(w, n)
  {
    assert (Pow2(width) - 1 - w) / 2 == Pow2(width - 1) - 1 - w / 2;
    if n > 0 {
      ComplementBit(width - 1, w / 2, n - 1);
    }
  }

  lemma WordWidth()
    ensures Pow2(32) == 0x1_0000_0000
  {
    assert Pow2(8) == 0x100;
    assert Pow2(16) == 0x1_0000;
    assert Pow2(24) == 0x100_0000;
  }

  lemma NotBit(w: Word, n: nat)
    requires n < 32
    ensures Bit(Not(w), n) <==> !Bit(w, n)
  {
    WordWidth();
    ComplementBit(32, w, n);
  }

  lemma {:induction false} Pow2Increases(a: nat, b: nat)
    requires a <= b
    ensures Pow2(a) <= Pow2(b)
    decreases b
  {
    if a < b { Pow2Increases(a, b - 1); }
  }

  /** `(1 << endbit) - 1 - ((1 << startbit) - 1)` has ones at exactly [startbit, endbit). */
  lemma {:induction false} MaskBit(startbit: nat, endbit: nat, n: nat)
    requires startbit <= endbit
    ensures Pow2(endbit) >= Pow2(startbit)
    ensures Bit(Pow2(endbit) - Pow2(startbit), n) <==> startbit <= n < endbit
    decreases n
  {
    Pow2Increases(startbit, endbit);
    if startbit == endbit {
      ZeroBit(n);
    } else {
      var start' := if startbit == 0 then 0 else startbit - 1;
      assert (Pow2(endbit) - Pow2(startbit)) / 2 == Pow2(endbit - 1) - Pow2(start');
      if n > 0 { MaskBit(start', endbit - 1, n - 1); }
    }
  }

  /** Numbers below 2^width are determined by their low `width` bits. */
  lemma {:induction false} SameBits(width: nat, v: nat, w: nat)
    requires v < Pow2(width) && w < Pow2(width)
    requires forall n | 0 <= n < width :: Bit(v, n) == Bit(w, n)
    ensures v == w
  {
    if width > 0 {
      forall n | 0 <= n < width - 1 ensures Bit(v / 2, n) == Bit(w / 2, n) {
        assert Bit(v, n + 1) == Bit(w, n + 1);
      }
      SameBits(width - 1, v / 2, w / 2);
      assert Bit(v, 0) == Bit(w, 0);
    }
  }

  lemma {:induction false} OrBelow(width: nat, v: nat, w: nat)
    requires v < Pow2(width) && w < Pow2(width)
    ensures Or(v, w) < Pow2(width)
  {
    if width > 0 { OrBelow(width - 1, v / 2, w / 2); }
  }

  lemma {:induction false} AndBelow(v: nat, w: nat)
    ensures And(v, w) <= v
  {
    if v != 0 { AndBelow(v / 2, w / 2); }
  }

  lemma {:induction false} XorBit(v: nat, w: nat, n: nat)
    ensures Bit(Xor(v, w), n) <==> Bit(v, n) != Bit(w, n)
  {
    if v == 0 {
      ZeroBit(n);
    } else if n > 0 {
      XorBit(v / 2, w / 2, n - 1);
    }
  }

  /** Flipping all of the low `width` bits. */
  lemma {:induction false} XorOnes(width: nat, v: nat)
    requires v < Pow2(width)
    ensures Xor(v, Pow2(width) - 1) == Pow2(width) - 1 - v
  {
    if v != 0 {
      XorOnes(width - 1, v / 2);
      XorOdd(v, Pow2(width - 1));
    }
  }

  lemma XorOdd(v: nat, half: nat)
    requires v > 0 && half > 0
    ensures Xor(v, 2 * half - 1) == 2 * Xor(v / 2, half - 1) + 1 - v % 2
  {
    var mask := 2 * half - 1;
    assert mask / 2 == half - 1 && mask % 2 == 1;
  }

  /** Masking with a power of two less one is the remainder. */
  lemma {:induction false} MaskIsMod(x: nat, d: nat, ratio: nat)
    requires ratio == Pow2(d)
    ensures And(x, ratio - 1) == x % ratio
  {
    if x == 0 {
      ModUnique(0, ratio, 0, 0);
    } else if d == 0 {
      AndZero(x);
    } else {
      var half := Pow2(d - 1);
      MaskIsMod(x / 2, d - 1, half);
      ModByHalves(x, half);
      AndOdd(x, half);
    }
  }

  lemma AndOdd(x: nat, half: nat)
    requires x > 0 && half > 0
    ensures And(x, 2 * half - 1) == 2 * And(x / 2, half - 1) + x % 2
  {
    var mask := 2 * half - 1;
    assert mask / 2 == half - 1 && mask % 2 == 1;
  }

  lemma {:induction false} AndZero(x: nat)
    ensures And(x, 0) == 0
  {
    if x > 0 { AndZero(x / 2); }
  }

  lemma ModByHalves(x: nat, p: nat)
    requires p > 0
    ensures x % (2 * p) == 2 * (x / 2 % p) + x % 2
  {
    var q, s := x / 2 / p, x / 2 % p;
    assert x / 2 == p * q + s;
    assert x == (2 * p) * q + (2 * s + x % 2);
    ModUnique(x, 2 * p, q, 2 * s + x % 2);
  }

  /** `x << s` and `x >> s`, bit by bit */
  function Shl(x: nat, s: nat): nat {
    if s == 0 then x else 2 * Shl(x, s - 1)
  }

  function Shr(x: nat, s: nat): nat {
    if s == 0 then x else Shr(x / 2, s - 1)
  }

  /** A mask moved up by s bits picks the bits moved up by s. */
  lemma {:induction false} AndShifted(x: nat, mask: nat, s: nat)
    ensures And(x, Shl(mask, s)) == Shl(And(Shr(x, s), mask), s)
    decreases s
  {
    if s > 0 {
      AndShifted(x / 2, mask, s - 1);
      AndDouble(x, Shl(mask, s - 1));
    }
  }

  lemma AndDouble(x: nat, mask: nat)
    ensures And(x, 2 * mask) == 2 * And(x / 2, mask)
  {
    assert 2 * mask / 2 == mask && 2 * mask % 2 == 0;
  }

  lemma {:induction false} ShrShl(x: nat, up: nat, down: nat)
    requires down <= up
    ensures Shr(Shl(x, up), down) == Shl(x, up - down)
    decreases down
  {
    if down > 0 {
      ShrShl(x, up - 1, down - 1);
      assert Shl(x, up) / 2 == Shl(x, up - 1);
    }
  }

  /** Or-ing together numbers whose bits do not meet adds them. */
  lemma {:induction false} OrAdds(high: nat, low: nat, s: nat)
    requires low < Pow2(s)
    ensures Or(Shl(high, s), low) == Shl(high, s) + low == Or(low, Shl(high, s))
    decreases s
  {
    if s == 0 {
      OrZero(high);
    } else {
      OrAdds(high, low / 2, s - 1);
      OrDouble(Shl(high, s - 1), low);
    }
  }

  lemma {:induction false} OrZero(v: nat)
    ensures Or(v, 0) == v
  {
    if v > 0 { OrZero(v / 2); }
  }

  lemma OrDouble(x: nat, low: nat)
    ensures Or(2 * x, low) == 2 * Or(x, low / 2) + low % 2
    ensures Or(low, 2 * x) == 2 * Or(low / 2, x) + low % 2
  {
    assert 2 * x / 2 == x && 2 * x % 2 == 0;
    if x == 0 { OrZero(low); OrZero(low / 2); }
  }

  /** Shifting multiplies and divides by powers of two. */
  lemma {:induction false} ShlIs(x: nat, s: nat)
    ensures Shl(x, s) == x * Pow2(s)
  {
    if s > 0 {
      ShlIs(x, s - 1);
      assert x * (2 * Pow2(s - 1)) == 2 * (x * Pow2(s - 1));
    }
  }

  lemma {:induction false} ShrIs(x: nat, s: nat)
    ensures Shr(x, s) == x / Pow2(s)
    decreases s
  {
    if s > 0 {
      ShrIs(x / 2, s - 1);
      DivByHalves(x, Pow2(s - 1));
    }
  }

  lemma DivByHalves(x: nat, p: nat)
    requires p > 0
    ensures x / (2 * p) == x / 2 / p
  {
    var q, r := x / 2 / p, x / 2 % p;
    assert x / 2 == p * q + r;
    assert x == (2 * p) * q + (2 * r + x % 2);
    ModUnique(x, 2 * p, q, 2 * r + x % 2);
  }
}
