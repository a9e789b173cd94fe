/** A run of the allocator after which a request is refused although there is room for it. */
module DmaFragmentation {
  import opened Words
  import opened DmaBitmap
  import opened DmaBlocks
  import opened DmaBufMgr

  lemma SomeBits(w: Word, startbit: nat, endbit: nat, value: bool) returns (w': Word)
    requires startbit <= endbit <= 32 && startbit < 32
    ensures forall n | 0 <= n < 32 :: Bit(w', n) == if startbit <= n < endbit then value else Bit(w, n)
  {
    MaskedWord(w, startbit, endbit, value);
    var mask := Pow2(endbit) - Pow2(startbit);
    w' := if value then Or(w, mask) else And(w, Not(mask));
  }

  /** Any lines can be given any value. */
  lemma {:induction false} Painted(words: seq<Word>, start: nat, count: nat, value: bool) returns (words': seq<Word>)
    requires start + count <= 32 * |words|
    ensures IsPainted(words, words', start, count, value)
  {
    words' := words;
    if count > 0 {
      var before := Painted(words, start, count - 1, value);
      var i, b := (start + count - 1) / 32, (start + count - 1) % 32;
      var w := SomeBits(before[i], b, b + 1, value);
      PaintWord(before, i, b, b + 1, value, w);
      words' := before[i := w];
      PaintOnward(words, before, words', start, count - 1, 1, value);
    }
  }

  /** An allocation that takes the run at `q`. */
  lemma Allocated(st: State, bytes: nat, q: nat) returns (st': State)
    requires Sane(st) && Chosen(st.words, st.searchPos, LinesFor(bytes) + 1, q)
    ensures Step(st, AllocCall(bytes), st') && Sane(st') && Reserved(st, bytes, q, st')
  {
    var size := LinesFor(bytes);
    var words' := Painted(st.words, q + 1, size - 1, true);
    st' := State(words', (q + size) / 32, st.live[q + 1 := size]);
    assert Reserved(st, bytes, q, st');
    StepStaysSane(st, AllocCall(bytes), st');
  }

  /** The free of a live block. */
  lemma FreedBlock(st: State, line: nat) returns (st': State)
    requires Sane(st) && line in st.live
    ensures Step(st, FreeCall(line), st') && Sane(st') && st'.live == st.live - {line} && st'.searchPos == 0
    ensures IsPainted(st.words, st'.words, line, st.live[line] - 1, false)
  {
    var count := st.live[line] - 1;
    assert InBody(st.live, line, line);
    forall n | line <= n < line + count ensures Used(st.words, n) { assert InBody(st.live, line, n); }
    LastLineIsClear(st.words, st.live, line);
    var words' := Painted(st.words, line, count, false);
    st' := State(words', 0, Freed(st.live, 32 * |st.words|, line));
    assert Released(st, line, count, st');
    StepStaysSane(st, FreeCall(line), st');
  }

  /** In a heap of three words, with lines 62 to 65 clear and the search starting at word 2, a request for two lines is
      refused: four calls before, the block of lines 63 to 65 was freed. */
  lemma StraddlingRunIsMissed() returns (states: seq<State>, calls: seq<Call>)
    ensures IsRun(states, calls) && Sane(states[0]) && states[0].live == map[]
    ensures var st := states[|calls|];
            && st.live == map[1 := 62, 66 := 4, 70 := 26] && st.searchPos == 2 && |st.words| == 3
            && Clear(st.words, 62, 4) && NothingFits(st.words, 2, LinesFor(64) + 1)
            && Step(st, AllocCall(64), st)
  {
    var s3;
    states, calls, s3 := FirstCalls();
    var s4 := FreedBlock(s3, 63);
    states, calls := OneMoreCall(states, calls, FreeCall(63), s4);
    var s5 := LastBlock(s4);
    states, calls := OneMoreCall(states, calls, AllocCall(832), s5);
    Refused(s5);
  }

  lemma FirstCalls() returns (states: seq<State>, calls: seq<Call>, st: State)
    ensures IsRun(states, calls) && Sane(states[0]) && states[0].live == map[] && st == states[|calls|] && Sane(st)
    ensures st.live == map[1 := 62, 63 := 3, 66 := 4] && st.searchPos == 2 && |st.words| == 3
    ensures forall n | 0 <= n < 96 :: Used(st.words, n) <==> 1 <= n < 62 || 63 <= n < 65 || 66 <= n < 69
  {
    st := EmptyHeap();
    states, calls := [st], [];
    st := FirstBlock(st);
    states, calls := OneMoreCall(states, calls, AllocCall(1984), st);
    st := SecondBlock(st);
    states, calls := OneMoreCall(states, calls, AllocCall(96), st);
    st := ThirdBlock(st);
    states, calls := OneMoreCall(states, calls, AllocCall(128), st);
  }

  lemma OneMoreCall(states: seq<State>, calls: seq<Call>, call: Call, st: State)
    returns (states': seq<State>, calls': seq<Call>)
    requires IsRun(states, calls) && Step(states[|calls|], call, st)
    ensures IsRun(states', calls') && states'[0] == states[0] && states'[|calls'|] == st
  {
    states', calls' := states + [st], calls + [call];
  }

  lemma EmptyHeap() returns (st: State)
    ensures Sane(st) && st.live == map[] && st.searchPos == 0 && |st.words| == 3
    ensures forall n | 0 <= n < 96 :: !Used(st.words, n)
  {
    st := State([0, 0, 0], 0, map[]);
    forall n | 0 <= n < 96 ensures !Used(st.words, n) { ZeroBit(n % 32); }
  }

  lemma FirstBlock(st: State) returns (st': State)
    requires Sane(st) && st.live == map[] && st.searchPos == 0 && |st.words| == 3
    requires forall n | 0 <= n < 96 :: !Used(st.words, n)
    ensures Step(st, AllocCall(1984), st') && Sane(st')
    ensures st'.live == map[1 := 62] && st'.searchPos == 1 && |st'.words| == 3
    ensures forall n | 0 <= n < 96 :: Used(st'.words, n) <==> 1 <= n < 62
  {
    assert FirstRun(st.words, 0, 96, 63, 0);
    st' := Allocated(st, 1984, 0);
  }

  lemma SecondBlock(st: State) returns (st': State)
    requires Sane(st) && st.live == map[1 := 62] && st.searchPos == 1 && |st.words| == 3
    requires forall n | 0 <= n < 96 :: Used(st.words, n) <==> 1 <= n < 62
    ensures Step(st, AllocCall(96), st') && Sane(st')
    ensures st'.live == map[1 := 62, 63 := 3] && st'.searchPos == 2 && |st'.words| == 3
    ensures forall n | 0 <= n < 96 :: Used(st'.words, n) <==> 1 <= n < 62 || 63 <= n < 65
  {
    forall p | 32 <= p < 62 ensures !Clear(st.words, p, 4) { assert Used(st.words, p); }
    assert FirstRun(st.words, 32, 96, 4, 62);
    st' := Allocated(st, 96, 62);
  }

  lemma ThirdBlock(st: State) returns (st': State)
    requires Sane(st) && st.live == map[1 := 62, 63 := 3] && st.searchPos == 2 && |st.words| == 3
    requires forall n | 0 <= n < 96 :: Used(st.words, n) <==> 1 <= n < 62 || 63 <= n < 65
    ensures Step(st, AllocCall(128), st') && Sane(st')
    ensures st'.live == map[1 := 62, 63 := 3, 66 := 4] && st'.searchPos == 2 && |st'.words| == 3
    ensures forall n | 0 <= n < 96 :: Used(st'.words, n) <==> 1 <= n < 62 || 63 <= n < 65 || 66 <= n < 69
  {
    assert Used(st.words, 64);
    assert FirstRun(st.words, 64, 96, 5, 65);
    st' := Allocated(st, 128, 65);
  }

  lemma LastBlock(st: State) returns (st': State)
    requires Sane(st) && st.live == map[1 := 62, 66 := 4] && st.searchPos == 0 && |st.words| == 3
    requires forall n | 0 <= n < 96 :: Used(st.words, n) <==> 1 <= n < 62 || 66 <= n < 69
    ensures Step(st, AllocCall(832), st') && Sane(st')
    ensures st'.live == map[1 := 62, 66 := 4, 70 := 26] && st'.searchPos == 2 && |st'.words| == 3
    ensures forall n | 0 <= n < 96 :: Used(st'.words, n) <==> 1 <= n < 62 || 66 <= n < 69 || 70 <= n < 95
  {
    forall p | 0 <= p < 69 ensures !Clear(st.words, p, 27) {
      assert Used(st.words, if p == 0 then 1 else if 62 <= p < 66 then 66 else p);
    }
    assert FirstRun(st.words, 0, 96, 27, 69);
    st' := Allocated(st, 832, 69);
  }

  lemma Refused(st: State)
    requires st.searchPos == 2 && |st.words| == 3
    requires forall n | 0 <= n < 96 :: Used(st.words, n) <==> 1 <= n < 62 || 66 <= n < 69 || 70 <= n < 95
    ensures Clear(st.words, 62, 4) && NothingFits(st.words, 2, 3) && Step(st, AllocCall(64), st)
  {
    forall q {:trigger Clear(st.words, q, 3)} | 0 <= q && q + 3 <= 96 && !(q < 64 < q + 3) ensures !Clear(st.words, q, 3) {
      assert Used(st.words, if q == 0 then 1 else if q < 62 then q else if q < 66 then 66 else if q == 69 then 70 else q);
    }
  }
}
