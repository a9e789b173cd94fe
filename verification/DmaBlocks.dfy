/** What the bitmap means: a set of live blocks whose lengths are stored nowhere else. */
module DmaBlocks {
  import opened Words
  import opened DmaBitmap

  /** First cache line of each live block, and the number of lines it owns. */
  type Blocks = map<nat, nat>

  /** Cache lines for a request of `bytes`: the fewest that hold them, but at least 2, because the last line of a block is
      left unmarked. */
  function LinesFor(bytes: nat): (k: nat)
    ensures k >= 2 && 32 * k >= bytes && (k == 2 || 32 * (k - 1) < bytes)
  {
    if bytes <= 32 then 2 else (bytes + 31) / 32
  }

  /** Live blocks are disjoint runs of at least 2 lines inside the region that never include line 0. */
  ghost predicate WellPlaced(live: Blocks, lines: nat) {
    && (forall s | s in live :: 1 <= s && 2 <= live[s] && s + live[s] <= lines)
    && (forall s, t | s in live && t in live && s < t :: s + live[s] <= t)
  }

  /** Line `n` belongs to a live block and is not its last line. */
  ghost predicate Marked(live: Blocks, n: nat) {
    exists s | s in live :: InBody(live, s, n)
  }

  ghost predicate InBody(live: Blocks, s: nat, n: nat)
    requires s in live
  {
    s <= n && n + 1 < s + live[s]
  }

  /** The bitmap is exactly the union of the blocks' lines, each minus its last line. */
  ghost predicate Represents(words: seq<Word>, live: Blocks) {
    forall n | 0 <= n < 32 * |words| :: Used(words, n) <==> Marked(live, n)
  }

  /** The marks from `line` run for exactly `count` lines. */
  ghost predicate IsRunOfOnes(words: seq<Word>, line: nat, count: nat) {
    && line + count <= 32 * |words|
    && (forall n | line <= n < line + count :: Used(words, n))
    && (line + count < 32 * |words| ==> !Used(words, line + count))
  }

  /** The live blocks after freeing the pointer to `line`, whatever that pointer is. */
  ghost predicate IsFreed(live: Blocks, live': Blocks, line: nat) {
    && (line in live ==> live' == live - {line})
    && (forall s | s in live && s != line && InBody(live, s, line) :: live' == live[s := line + 1 - s])
    && (!Marked(live, line) ==> live' == live)
  }

  ghost function Freed(live: Blocks, lines: nat, line: nat): (live': Blocks)
    requires WellPlaced(live, lines)
    ensures IsFreed(live, live', line)
  {
    assert line in live ==> InBody(live, line, line);
    if line in live then live - {line}
    else if Marked(live, line) then
      var s :| s in live && InBody(live, s, line);
      live[s := line + 1 - s]
    else live
  }

  /** size + 1 clear lines from `q` always leave room for a block of `size` lines from q + 1. */
  lemma AllocKeepsMeaning(words: seq<Word>, words': seq<Word>, live: Blocks, q: nat, size: nat)
    requires WellPlaced(live, 32 * |words|) && Represents(words, live)
    requires size >= 2 && q + size + 1 <= 32 * |words| && Clear(words, q, size + 1)
    requires IsPainted(words, words', q + 1, size - 1, true)
    ensures q + 1 !in live
    ensures WellPlaced(live[q + 1 := size], 32 * |words'|)
    ensures Represents(words', live[q + 1 := size])
  {
    var live' := live[q + 1 := size];
    forall s | s in live ensures s + live[s] <= q + 1 || q + 1 + size <= s {
      ClearRunMissesBlock(words, live, q, size, s);
    }
    forall n | 0 <= n < 32 * |words'| ensures Used(words', n) <==> Marked(live', n) {
      if Marked(live, n) {
        var s :| s in live && InBody(live, s, n);
        assert InBody(live', s, n);
      }
      if Marked(live', n) {
        var s :| s in live' && InBody(live', s, n);
        if s != q + 1 { assert InBody(live, s, n); }
      }
      assert q + 1 <= n < q + size ==> InBody(live', q + 1, n);
    }
  }

  lemma ClearRunMissesBlock(words: seq<Word>, live: Blocks, q: nat, size: nat, s: nat)
    requires WellPlaced(live, 32 * |words|) && Represents(words, live)
    requires size >= 2 && q + size + 1 <= 32 * |words| && Clear(words, q, size + 1)
    requires s in live
    ensures s != q + 1
    ensures s + live[s] <= q + 1 || q + 1 + size <= s
  {
    var last := s + live[s] - 1;
    if s <= q + size && q + 1 <= last {
      // A marked line of the block falls inside the clear run.
      var n := if s >= q then s else if last - 1 <= q + size then last - 1 else q;
      assert InBody(live, s, n);
      assert Marked(live, n);
      assert false;
    }
  }

  /** The run of ones from a live block always ends just before the block's own last line. */
  lemma LengthIsRecovered(words: seq<Word>, live: Blocks, s: nat, line: nat, count: nat)
    requires WellPlaced(live, 32 * |words|) && Represents(words, live)
    requires s in live && InBody(live, s, line)
    requires IsRunOfOnes(words, line, count)
    ensures line + count == s + live[s] - 1
  {
    var last := s + live[s] - 1;
    if last < line + count {
      assert Used(words, last);
      var t :| t in live && InBody(live, t, last);
      assert false;
    }
    if line + count < last {
      assert InBody(live, s, line + count);
    }
  }

  /** Clearing the run of ones from any line gives the bitmap of the freed blocks. */
  lemma FreeKeepsMeaning(words: seq<Word>, words': seq<Word>, live: Blocks, live': Blocks, line: nat, count: nat)
    requires WellPlaced(live, 32 * |words|) && Represents(words, live)
    requires line < 32 * |words| && IsRunOfOnes(words, line, count)
    requires IsPainted(words, words', line, count, false)
    requires IsFreed(live, live', line)
    ensures WellPlaced(live', 32 * |words'|) && Represents(words', live')
  {
    if Marked(live, line) {
      var s :| s in live && InBody(live, s, line);
      LengthIsRecovered(words, live, s, line, count);
      FreeInside(words, words', live, live', s, line, count);
    } else {
      assert line !in live by { if line in live { assert InBody(live, line, line); } }
      assert !Used(words, line);
    }
  }

  lemma FreeInside(words: seq<Word>, words': seq<Word>, live: Blocks, live': Blocks, s: nat, line: nat, count: nat)
    requires WellPlaced(live, 32 * |words|) && Represents(words, live)
    requires s in live && InBody(live, s, line) && line + count == s + live[s] - 1
    requires IsPainted(words, words', line, count, false)
    requires live' == if line == s then live - {s} else live[s := line + 1 - s]
    ensures WellPlaced(live', 32 * |words'|) && Represents(words', live')
  {
    forall n | 0 <= n < 32 * |words'| ensures Used(words', n) <==> Marked(live', n) {
      if line <= n < line + count {
        FreedLine(live, live', 32 * |words|, s, line, n);
      } else {
        KeptLine(live, live', 32 * |words|, s, line, n);
      }
    }
  }

  /** Past the line freed, none of the block's marks remain. */
  lemma FreedLine(live: Blocks, live': Blocks, lines: nat, s: nat, line: nat, n: nat)
    requires WellPlaced(live, lines) && s in live && InBody(live, s, line) && line <= n < s + live[s] - 1
    requires live' == if line == s then live - {s} else live[s := line + 1 - s]
    ensures !Marked(live', n)
  {
    if Marked(live', n) {
      var t :| t in live' && InBody(live', t, n);
      assert false;
    }
  }

  /** Every other mark remains. */
  lemma KeptLine(live: Blocks, live': Blocks, lines: nat, s: nat, line: nat, n: nat)
    requires WellPlaced(live, lines) && s in live && InBody(live, s, line) && !(line <= n < s + live[s] - 1)
    requires live' == if line == s then live - {s} else live[s := line + 1 - s]
    ensures Marked(live', n) <==> Marked(live, n)
  {
    if Marked(live, n) {
      var t :| t in live && InBody(live, t, n);
      assert t in live' && InBody(live', t, n);
    }
    if Marked(live', n) {
      var t :| t in live' && InBody(live', t, n);
      assert InBody(live, t, n);
    }
  }

  /** The live blocks determine the bitmap word for word, so whatever history leads back to the same live blocks,
      an allocation undone by its free for one, leads back to the same words. */
  lemma BitmapIsDetermined(v: seq<Word>, w: seq<Word>, live: Blocks)
    requires |v| == |w| && Represents(v, live) && Represents(w, live)
    ensures v == w
  {
    SameBitmap(v, w);
  }

  /** A live block owns every one of its lines but shares none: its marks survive whatever happens to other blocks. */
  lemma OtherBlocksKeepTheirMarks(words: seq<Word>, words': seq<Word>, live: Blocks, live': Blocks, s: nat, n: nat)
    requires WellPlaced(live, 32 * |words|) && Represents(words, live)
    requires |words'| == |words| && WellPlaced(live', 32 * |words'|) && Represents(words', live')
    requires s in live && s in live' && live[s] == live'[s] && s <= n < s + live[s]
    ensures Used(words', n) == Used(words, n) == (n < s + live[s] - 1)
  {
    if n < s + live[s] - 1 {
      assert InBody(live, s, n) && InBody(live', s, n);
    } else {
      LastLineIsClear(words, live, s);
      LastLineIsClear(words', live', s);
    }
  }

  lemma LastLineIsClear(words: seq<Word>, live: Blocks, s: nat)
    requires WellPlaced(live, 32 * |words|) && Represents(words, live) && s in live
    ensures !Used(words, s + live[s] - 1)
  {
    if Used(words, s + live[s] - 1) {
      var t :| t in live && InBody(live, t, s + live[s] - 1);
      assert false;
    }
  }
}
