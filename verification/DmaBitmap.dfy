/** The status bitmap of the DMA buffer heap: one bit per cache line, 32 lines to a word. */
module DmaBitmap {
  import opened Words

  /** Cache line `n` is marked in the bitmap. */
  predicate Used(words: seq<Word>, n: nat)
    requires n < 32 * |words|
  {
    Bit(words[n / 32], n % 32)
  }

  /** The `k` lines from `q` are all clear. */
  ghost predicate Clear(words: seq<Word>, q: nat, k: nat)
    requires q + k <= 32 * |words|
  {
    forall n | q <= n < q + k :: !Used(words, n)
  }

  /** No run of `k` clear lines lies wholly in [lo, hi). */
  ghost predicate NoRun(words: seq<Word>, lo: nat, hi: nat, k: nat)
    requires hi <= 32 * |words|
  {
    forall q | lo <= q && q + k <= hi :: !Clear(words, q, k)
  }

  /** `q` begins the first run of `k` clear lines that lies wholly in [lo, hi). */
  ghost predicate FirstRun(words: seq<Word>, lo: nat, hi: nat, k: nat, q: nat)
    requires hi <= 32 * |words|
  {
    && lo <= q && q + k <= hi
    && Clear(words, q, k)
    && forall p | lo <= p < q :: p + k <= hi && !Clear(words, p, k)
  }

  /** The bitmap obtained by giving lines [start, start + count) the value `value`. */
  ghost predicate IsPainted(words: seq<Word>, words': seq<Word>, start: nat, count: nat, value: bool) {
    && |words'| == |words|
    && forall n | 0 <= n < 32 * |words| ::
      Used(words', n) == if start <= n < start + count then value else Used(words, n)
  }

  /** Two bitmaps that agree on every line are the same words. */
  lemma SameBitmap(v: seq<Word>, w: seq<Word>)
    requires |v| == |w|
    requires forall n | 0 <= n < 32 * |v| :: Used(v, n) == Used(w, n)
    ensures v == w
  {
    WordWidth();
    forall i | 0 <= i < |v| ensures v[i] == w[i] {
      forall n | 0 <= n < 32 ensures Bit(v[i], n) == Bit(w[i], n) {
        assert Used(v, 32 * i + n) == Used(w, 32 * i + n);
      }
      SameBits(32, v[i], w[i]);
    }
  }

  /** Or-ing in, or and-ing out, the mask of bits [startbit, endbit) of one word. */
  lemma MaskedWord(w: Word, startbit: nat, endbit: nat, value: bool)
    requires startbit < 32 && startbit <= endbit <= 32
    ensures 0 <= Pow2(endbit) - Pow2(startbit) < 0x1_0000_0000
    ensures var mask := Pow2(endbit) - Pow2(startbit);
            var w' := if value then Or(w, mask) else And(w, Not(mask));
            && w' < 0x1_0000_0000
            && forall n | 0 <= n < 32 :: Bit(w', n) == if startbit <= n < endbit then value else Bit(w, n)
  {
    WordWidth();
    Pow2Increases(startbit, endbit);
    Pow2Increases(endbit, 32);
    var mask := Pow2(endbit) - Pow2(startbit);
    OrBelow(32, w, mask);
    AndBelow(w, Not(mask));
    var w' := if value then Or(w, mask) else And(w, Not(mask));
    forall n | 0 <= n < 32
      ensures Bit(w', n) == if startbit <= n < endbit then value else Bit(w, n)
    {
      MaskBit(startbit, endbit, n);
      OrBit(w, mask, n);
      AndBit(w, Not(mask), n);
      NotBit(mask, n);
    }
  }

  /** Changing one word changes only its own 32 lines. */
  lemma PaintWord(words: seq<Word>, i: nat, startbit: nat, endbit: nat, value: bool, w': Word)
    requires i < |words| && startbit <= endbit <= 32
    requires forall n | 0 <= n < 32 :: Bit(w', n) == if startbit <= n < endbit then value else Bit(words[i], n)
    ensures IsPainted(words, words[i := w'], 32 * i + startbit, endbit - startbit, value)
  {
    forall n | 0 <= n < 32 * |words|
      ensures Used(words[i := w'], n) ==
              if 32 * i + startbit <= n < 32 * i + endbit then value else Used(words, n)
    {
      assert n == 32 * (n / 32) + n % 32;
      if n / 32 == i {
        assert Bit(w', n % 32) == if startbit <= n % 32 < endbit then value else Bit(words[i], n % 32);
      }
    }
  }

  lemma PaintOnward(words: seq<Word>, words': seq<Word>, words'': seq<Word>, start: nat, c1: nat, c2: nat, value: bool)
    requires IsPainted(words, words', start, c1, value)
    requires IsPainted(words', words'', start + c1, c2, value)
    ensures IsPainted(words, words'', start, c1 + c2, value)
  {
  }

  /** CyU3PDmaBufMgrSetStatus: sets or clears exactly the lines [startPos, startPos + numBits). */
  method SetStatus(usedStatus: array<Word>, startPos: nat, numBits: nat, value: bool)
    requires startPos + numBits <= 32 * usedStatus.Length
    modifies usedStatus
    ensures IsPainted(old(usedStatus[..]), usedStatus[..], startPos, numBits, value)
  {
    WordWidth();
    var wordnum: nat := startPos / 32;
    var startbit: nat := startPos % 32;
    var endbit: nat := if startbit + numBits < 32 then startbit + numBits else 32;
    var mask := (if endbit == 32 then 0xFFFF_FFFF else Pow2(endbit) - 1) - (Pow2(startbit) - 1);
    var left: nat := numBits;
    while left > 0
      invariant left <= numBits
      invariant left > 0 ==> startbit < 32 && startbit < endbit <= 32
      invariant left > 0 ==> endbit == if startbit + left < 32 then startbit + left else 32
      invariant left > 0 ==> 32 * wordnum + startbit == startPos + (numBits - left)
      invariant left > 0 ==> mask == Pow2(endbit) - Pow2(startbit)
      invariant IsPainted(old(usedStatus[..]), usedStatus[..], startPos, numBits - left, value)
    {
      ghost var before := usedStatus[..];
      MaskedWord(usedStatus[wordnum], startbit, endbit, value);
      if value {
        usedStatus[wordnum] := Or(usedStatus[wordnum], mask);
      } else {
        usedStatus[wordnum] := And(usedStatus[wordnum], Not(mask));
      }
      assert usedStatus[..] == before[wordnum := usedStatus[wordnum]];
      PaintWord(before, wordnum, startbit, endbit, value, usedStatus[wordnum]);
      PaintOnward(old(usedStatus[..]), before, usedStatus[..], startPos, numBits - left, endbit - startbit, value);

      wordnum := wordnum + 1;
      left := left - (endbit - startbit);
      startbit := 0;
      if left >= 32 {
        endbit := 32;
        mask := 0xFFFF_FFFF;
      } else {
        endbit := left;
        mask := Pow2(left) - 1;
      }
    }
  }
}
