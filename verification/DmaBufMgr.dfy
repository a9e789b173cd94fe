/** The DMA buffer manager: a next-fit allocator over the cache lines of the buffer heap. */
module DmaBufMgr {
  import opened Words
  import opened DmaBitmap
  import opened DmaBlocks

  // A cache line is 32 bytes; a status word covers 32 lines, that is 1024 bytes.

  /** The tail-word value CyU3PDmaBufferInit stores when the region is not a whole number of words. */
  function TailWord(remainder: nat): (w: Word)
    requires 0 < remainder < 32
  {
    WordWidth();
    Pow2Increases(32 - remainder, 32);
    Not(Pow2(32 - remainder) - 1)
  }

  /** Line n of the last word is marked as it should be: exactly when it lies past the end of the region. */
  predicate TailMarks(remainder: nat, n: nat)
    requires 0 < remainder < 32
  {
    Bit(TailWord(remainder), n) <==> n >= remainder
  }

  /** That value should mark exactly the lines past the end of the region. It does so only for half a word. */
  lemma TailWordIsRightForHalfAWord(remainder: nat)
    requires 0 < remainder < 32
    ensures (forall n | 0 <= n < 32 :: TailMarks(remainder, n)) <==> remainder == 16
  {
    if remainder == 16 {
      forall n | 0 <= n < 32 ensures TailMarks(remainder, n) { TailBit(remainder, n); }
    } else {
      var wrong: nat := if remainder < 32 - remainder then remainder else 32 - remainder;
      TailBit(remainder, wrong);
      assert !TailMarks(remainder, wrong);
    }
  }

  /** What it marks instead. */
  lemma TailBit(remainder: nat, n: nat)
    requires 0 < remainder < 32 && n < 32
    ensures Bit(TailWord(remainder), n) <==> n >= 32 - remainder
  {
    WordWidth();
    Pow2Increases(32 - remainder, 32);
    MaskBit(32 - remainder, 32, n);
  }

  /** The run chosen for `k` clear lines: first in the words from searchPos on, else first in those before it. */
  ghost predicate Chosen(words: seq<Word>, searchPos: nat, k: nat, q: nat)
    requires searchPos <= |words|
  {
    || FirstRun(words, 32 * searchPos, 32 * |words|, k, q)
    || (NoRun(words, 32 * searchPos, 32 * |words|, k) && FirstRun(words, 0, 32 * searchPos, k, q))
  }

  /** No run of `k` clear lines on either side of the search position. */
  ghost predicate NothingFits(words: seq<Word>, searchPos: nat, k: nat)
    requires searchPos <= |words|
  {
    NoRun(words, 32 * searchPos, 32 * |words|, k) && NoRun(words, 0, 32 * searchPos, k)
  }

  /** The run chosen is clear, lies on one side of the search position, and no other run that does comes before it in the
      order of the search. */
  lemma ChosenIsNextFit(words: seq<Word>, searchPos: nat, k: nat, q: nat, p: nat)
    requires searchPos <= |words| && Chosen(words, searchPos, k, q)
    requires p + k <= 32 * |words| && Clear(words, p, k) && !(p < 32 * searchPos < p + k)
    ensures q + k <= 32 * |words| && Clear(words, q, k) && !(q < 32 * searchPos < q + k)
    ensures if p < 32 * searchPos then q >= 32 * searchPos || q <= p else 32 * searchPos <= q <= p
  {
  }

  /** From the top of the heap, the search fails exactly when no long enough run exists anywhere. */
  lemma SearchFromTopIsComplete(words: seq<Word>, k: nat)
    requires k >= 1
    ensures NothingFits(words, 0, k) <==> forall q | 0 <= q && q + k <= 32 * |words| :: !Clear(words, q, k)
  {
    assert NoRun(words, 0, 0, k);
  }

  /** A search fails exactly when every run long enough straddles the word where it starts. */
  lemma MissedRunsStraddle(words: seq<Word>, searchPos: nat, k: nat)
    requires searchPos <= |words|
    ensures NothingFits(words, searchPos, k) <==>
            forall q | 0 <= q && q + k <= 32 * |words| && Clear(words, q, k) :: q < 32 * searchPos < q + k
  {
  }

  /** [lo, pos) has been scanned: `count` clear lines end at `pos`, and no run of size + 1 lies before it. */
  ghost predicate Scanned(words: seq<Word>, lo: nat, pos: nat, size: nat, count: nat, start: nat)
    requires pos <= 32 * |words|
  {
    && lo + count <= pos && count <= size
    && Clear(words, pos - count, count)
    && (count > 0 ==> start == pos - count + 1)
    && (lo + count < pos ==> Used(words, pos - count - 1))
    && NoRun(words, lo, pos, size + 1)
  }

  lemma ScanUsedLine(words: seq<Word>, lo: nat, pos: nat, size: nat, count: nat, start: nat)
    requires pos < 32 * |words| && Scanned(words, lo, pos, size, count, start) && Used(words, pos)
    ensures Scanned(words, lo, pos + 1, size, 0, start)
  {
    forall q {:trigger Clear(words, q, size + 1)} | lo <= q && q + size + 1 <= pos + 1
      ensures !Clear(words, q, size + 1) {
      if q + size == pos { assert Used(words, q + size); }
    }
  }

  lemma ScanClearLine(words: seq<Word>, lo: nat, pos: nat, size: nat, count: nat, start: nat, start': nat)
    requires pos < 32 * |words| && Scanned(words, lo, pos, size, count, start) && !Used(words, pos)
    requires count < size && start' == if count == 0 then pos + 1 else start
    ensures Scanned(words, lo, pos + 1, size, count + 1, start')
  {
    forall q {:trigger Clear(words, q, size + 1)} | lo <= q && q + size + 1 <= pos + 1
      ensures !Clear(words, q, size + 1) {
      if q + size == pos { assert Used(words, pos - count - 1); }
    }
  }

  lemma ScanFinds(words: seq<Word>, lo: nat, hi: nat, pos: nat, size: nat, start: nat)
    requires pos < hi <= 32 * |words| && Scanned(words, lo, pos, size, size, start) && !Used(words, pos)
    requires size > 0
    ensures start >= 1 && FirstRun(words, lo, hi, size + 1, start - 1) && start + size - 1 == pos
  {
  }

  /** One line of the scan. */
  lemma ScanLine(words: seq<Word>, lo: nat, hi: nat, pos: nat, size: nat, count: nat, start: nat, start': nat)
    requires pos < hi <= 32 * |words| && size > 0 && Scanned(words, lo, pos, size, count, start)
    requires start' == if count == 0 then pos + 1 else start
    ensures Used(words, pos) ==> Scanned(words, lo, pos + 1, size, 0, start)
    ensures !Used(words, pos) && count < size ==> Scanned(words, lo, pos + 1, size, count + 1, start')
    ensures !Used(words, pos) && count == size ==>
              start' >= 1 && FirstRun(words, lo, hi, size + 1, start' - 1) && start' + size - 1 == pos
  {
    if Used(words, pos) {
      ScanUsedLine(words, lo, pos, size, count, start);
    } else if count < size {
      ScanClearLine(words, lo, pos, size, count, start, start');
    } else {
      ScanFinds(words, lo, hi, pos, size, start);
    }
  }

  lemma LineBit(words: seq<Word>, wordnum: nat, bitnum: nat)
    requires wordnum < |words| && bitnum < 32
    ensures Used(words, 32 * wordnum + bitnum) == Bit(words[wordnum], bitnum)
    ensures (32 * wordnum + bitnum) / 32 == wordnum
  {
  }

  /** Once everything is freed the search starts at the top again and serves any request the region can hold. */
  lemma EmptyHeapServes(words: seq<Word>, size: nat)
    requires Represents(words, map[]) && size >= 2
    ensures NothingFits(words, 0, size + 1) <==> size + 1 > 32 * |words|
    ensures size + 1 <= 32 * |words| ==> Chosen(words, 0, size + 1, 0)
  {
    assert forall n | 0 <= n < 32 * |words| :: !Marked(map[], n);
    if size + 1 <= 32 * |words| { assert Clear(words, 0, size + 1); }
  }

  // ---- every run of the allocator ----

  datatype State = State(words: seq<Word>, searchPos: nat, live: Blocks)

  datatype Call = AllocCall(bytes: nat) | FreeCall(line: nat)

  ghost predicate Sane(st: State) {
    st.searchPos <= |st.words| && WellPlaced(st.live, 32 * |st.words|) && Represents(st.words, st.live)
  }

  /** One call, as Reserve and Release carry it out. */
  ghost predicate Step(st: State, call: Call, st': State) {
    && |st'.words| == |st.words|
    && match call
       case AllocCall(bytes) =>
         st.searchPos <= |st.words| &&
         if NothingFits(st.words, st.searchPos, LinesFor(bytes) + 1) then st' == st
         else exists q :: Reserved(st, bytes, q, st')
       case FreeCall(line) =>
         line < 32 * |st.words| && exists count :: Released(st, line, count, st')
  }

  ghost predicate Released(st: State, line: nat, count: nat, st': State) {
    && IsRunOfOnes(st.words, line, count)
    && IsPainted(st.words, st'.words, line, count, false)
    && IsFreed(st.live, st'.live, line)
    && st'.searchPos == 0
  }

  ghost predicate Reserved(st: State, bytes: nat, q: nat, st': State)
    requires st.searchPos <= |st.words|
  {
    && Chosen(st.words, st.searchPos, LinesFor(bytes) + 1, q)
    && IsPainted(st.words, st'.words, q + 1, LinesFor(bytes) - 1, true)
    && st'.live == st.live[q + 1 := LinesFor(bytes)]
    && st'.searchPos == (q + LinesFor(bytes)) / 32
  }

  lemma ReservedIsStep(st: State, bytes: nat, q: nat, st': State)
    requires st.searchPos <= |st.words| && Reserved(st, bytes, q, st')
    ensures Step(st, AllocCall(bytes), st')
  {
  }

  ghost predicate IsRun(states: seq<State>, calls: seq<Call>) {
    && |states| == |calls| + 1
    && forall i | 0 <= i < |calls| :: Step(states[i], calls[i], states[i + 1])
  }

  lemma StepStaysSane(st: State, call: Call, st': State)
    requires Sane(st) && Step(st, call, st')
    ensures Sane(st')
  {
    match call
    case AllocCall(bytes) =>
      if !NothingFits(st.words, st.searchPos, LinesFor(bytes) + 1) {
        var q :| Reserved(st, bytes, q, st');
        AllocKeepsMeaning(st.words, st'.words, st.live, q, LinesFor(bytes));
      }
    case FreeCall(line) =>
      var count :| Released(st, line, count, st');
      FreeKeepsMeaning(st.words, st'.words, st.live, st'.live, line, count);
  }

  /** After any free the next search misses nothing. */
  lemma FreeRestartsTheSearch(st: State, line: nat, st': State, k: nat)
    requires Step(st, FreeCall(line), st') && k >= 1
    ensures st'.searchPos == 0
    ensures NothingFits(st'.words, 0, k) <==> forall q | 0 <= q && q + k <= 32 * |st'.words| :: !Clear(st'.words, q, k)
  {
    SearchFromTopIsComplete(st'.words, k);
  }

  /** Over every run from the empty heap, frees of any line included, live blocks stay disjoint runs of at least two
      lines inside the region, and the bitmap is exactly their lines minus each last one. */
  lemma {:induction false} EveryRunStaysSane(states: seq<State>, calls: seq<Call>)
    requires IsRun(states, calls) && Sane(states[0])
    ensures forall i | 0 <= i < |states| :: Sane(states[i])
  {
    if |calls| > 0 {
      var n := |calls|;
      EveryRunStaysSane(states[..n], calls[..n - 1]);
      assert Sane(states[..n][n - 1]);
      StepStaysSane(states[n - 1], calls[n - 1], states[n]);
      forall i | 0 <= i < |states| ensures Sane(states[i]) {
        if i < n { assert Sane(states[..n][i]); }
      }
    }
  }

  /** An allocation followed by the free of the block it returned changes neither the bitmap nor any other block. */
  lemma AllocThenFreeRestores(st: State, bytes: nat, q: nat, st': State, st'': State)
    requires Sane(st) && Reserved(st, bytes, q, st') && Step(st', FreeCall(q + 1), st'')
    ensures st''.words == st.words && st''.live == st.live
  {
    AllocKeepsMeaning(st.words, st'.words, st.live, q, LinesFor(bytes));
    assert st''.live == st.live;
    StepStaysSane(st', FreeCall(q + 1), st'');
    BitmapIsDetermined(st.words, st''.words, st.live);
  }

  /** Two runs that end with the same live blocks end with the same words. */
  lemma RunsMeet(run1: seq<State>, calls1: seq<Call>, run2: seq<State>, calls2: seq<Call>)
    requires IsRun(run1, calls1) && IsRun(run2, calls2) && Sane(run1[0]) && Sane(run2[0])
    requires run1[|calls1|].live == run2[|calls2|].live && |run1[|calls1|].words| == |run2[|calls2|].words|
    ensures run1[|calls1|].words == run2[|calls2|].words
  {
    EveryRunStaysSane(run1, calls1);
    EveryRunStaysSane(run2, calls2);
    BitmapIsDetermined(run1[|calls1|].words, run2[|calls2|].words, run1[|calls1|].live);
  }

  /** The part of the search that looks at one line. */
  method ScanOne(clear: bool, line: nat, count: nat, start: nat, size: nat, ghost words: seq<Word>, ghost lo: nat,
                 ghost hi: nat)
    returns (count': nat, start': nat)
    requires line < hi <= 32 * |words| && size > 0 && Scanned(words, lo, line, size, count, start)
    requires clear == !Used(words, line)
    ensures count' <= size ==> Scanned(words, lo, line + 1, size, count', start')
    ensures count' > size ==> count' == size + 1 && start' >= 1 && FirstRun(words, lo, hi, size + 1, start' - 1)
    ensures count' > size ==> start' + size - 1 == line
  {
    ScanLine(words, lo, hi, line, size, count, start, if count == 0 then line + 1 else start);
    count', start' := count, start;
    if clear {
      if count' == 0 {
        start' := line + 1;
      }
      count' := count' + 1;
    } else {
      count' := 0;
    }
  }

  /** Where the search has got to: in the words from searchPos on, or, once wrapped, in those before it. */
  datatype Place = Place(wordnum: nat, bitnum: nat, tmp: nat) {
    ghost predicate Wrapped(searchPos: nat, statusSize: nat) {
      searchPos + tmp >= statusSize
    }

    ghost predicate Ok(searchPos: nat, statusSize: nat) {
      && tmp <= statusSize && wordnum < statusSize && bitnum < 32
      && wordnum + (if Wrapped(searchPos, statusSize) then statusSize else 0) == searchPos + tmp
      && (tmp == statusSize ==> bitnum == 0)
    }

    /** One line further, as the loop steps. */
    function Next(statusSize: nat): Place {
      if bitnum < 31 then this.(bitnum := bitnum + 1)
      else Place(if wordnum + 1 == statusSize then 0 else wordnum + 1, 0, tmp + 1)
    }

    /** The next line is the first of all. */
    predicate AtEnd(statusSize: nat) {
      bitnum >= 31 && wordnum + 1 == statusSize
    }

    ghost function Low(searchPos: nat, statusSize: nat): nat {
      if Wrapped(searchPos, statusSize) then 0 else 32 * searchPos
    }

    ghost function High(searchPos: nat, statusSize: nat): nat {
      if Wrapped(searchPos, statusSize) then 32 * searchPos else 32 * statusSize
    }
  }

  /** Everything before this place has been scanned. */
  ghost predicate Searched(words: seq<Word>, searchPos: nat, at: Place, size: nat, count: nat, start: nat) {
    && searchPos < |words| && at.Ok(searchPos, |words|)
    && (at.Wrapped(searchPos, |words|) ==> NoRun(words, 32 * searchPos, 32 * |words|, size + 1))
    && Scanned(words, at.Low(searchPos, |words|), 32 * at.wordnum + at.bitnum, size, count, start)
  }

  /** A line scanned, the search steps on; at the end of the words it starts over with nothing counted. */
  lemma StepsOn(words: seq<Word>, searchPos: nat, at: Place, size: nat, count: nat, start: nat)
    requires searchPos < |words| && at.Ok(searchPos, |words|) && at.tmp < |words|
    requires at.Wrapped(searchPos, |words|) ==> NoRun(words, 32 * searchPos, 32 * |words|, size + 1)
    requires Scanned(words, at.Low(searchPos, |words|), 32 * at.wordnum + at.bitnum + 1, size, count, start)
    ensures Searched(words, searchPos, at.Next(|words|), size, if at.AtEnd(|words|) then 0 else count, start)
  {
    if at.AtEnd(|words|) {
      assert Scanned(words, 0, 0, size, 0, start);
    }
  }

  /** A search over without a find has scanned both sides. */
  lemma BothSides(words: seq<Word>, searchPos: nat, at: Place, size: nat, count: nat, start: nat)
    requires Searched(words, searchPos, at, size, count, start) && at.tmp == |words|
    ensures NothingFits(words, searchPos, size + 1)
  {
  }

  /** The end of the search's loop body: the next line, and nothing counted once the words start over. */
  method NextPlace(at: Place, statusSize: nat, count: nat) returns (at': Place, count': nat)
    requires at.wordnum < statusSize && at.bitnum < 32
    ensures at' == at.Next(statusSize) && count' == if at.AtEnd(statusSize) then 0 else count
  {
    at', count' := at.(bitnum := at.bitnum + 1), count;
    if at'.bitnum == 32 {
      at' := at'.(bitnum := 0, wordnum := at.wordnum + 1, tmp := at.tmp + 1);
      if at'.wordnum == statusSize {
        at' := at'.(wordnum := 0);
        count' := 0;
      }
    }
  }

  /** A find is the run the search is to choose, and its last line lies in the word looked at. */
  lemma FoundIsChosen(words: seq<Word>, searchPos: nat, at: Place, size: nat, start: nat)
    requires searchPos < |words| && at.Ok(searchPos, |words|) && start >= 1
    requires at.Wrapped(searchPos, |words|) ==> NoRun(words, 32 * searchPos, 32 * |words|, size + 1)
    requires FirstRun(words, at.Low(searchPos, |words|), at.High(searchPos, |words|), size + 1, start - 1)
    requires start + size - 1 == 32 * at.wordnum + at.bitnum
    ensures Chosen(words, searchPos, size + 1, start - 1) && at.wordnum == (start - 1 + size) / 32
  {
  }

  /** The search's loop body. */
  method Look(word: Word, at: Place, size: nat, count: nat, start: nat, searchPos: nat, statusSize: nat,
              ghost words: seq<Word>)
    returns (found: bool, at': Place, count': nat, start': nat)
    requires Searched(words, searchPos, at, size, count, start) && at.tmp < statusSize == |words|
    requires size > 0 && word == words[at.wordnum]
    ensures found ==> at' == at && start' >= 1 && Chosen(words, searchPos, size + 1, start' - 1)
    ensures found ==> at.wordnum == (start' - 1 + size) / 32 < |words|
    ensures !found ==> at' == at.Next(statusSize) && Searched(words, searchPos, at', size, count', start')
  {
    LineBit(words, at.wordnum, at.bitnum);
    count', start' := ScanOne(!Bit(word, at.bitnum), 32 * at.wordnum + at.bitnum, count, start, size, words,
                              at.Low(searchPos, statusSize), at.High(searchPos, statusSize));
    if count' == size + 1 {
      FoundIsChosen(words, searchPos, at, size, start');
      return true, at, count', start';
    }
    StepsOn(words, searchPos, at, size, count', start');
    at', count' := NextPlace(at, statusSize, count');
    found := false;
  }

  /** The search loop of CyU3PDmaBufferAlloc. */
  method Search(usedStatus: array<Word>, searchPos: nat, size: nat) returns (found: bool, start: nat, newPos: nat)
    requires searchPos < usedStatus.Length && size >= 2
    ensures found ==> start >= 1 && Chosen(usedStatus[..], searchPos, size + 1, start - 1)
    ensures found ==> newPos == (start - 1 + size) / 32 < usedStatus.Length
    ensures !found ==> NothingFits(usedStatus[..], searchPos, size + 1) && newPos == searchPos
  {
    ghost var words := usedStatus[..];
    var at, count := Place(searchPos, 0, 0), 0;
    found, start := false, 0;
    while at.tmp < usedStatus.Length
      invariant Searched(words, searchPos, at, size, count, start)
      decreases 32 * (usedStatus.Length - at.tmp) - at.bitnum
    {
      found, at, count, start := Look(usedStatus[at.wordnum], at, size, count, start, searchPos, usedStatus.Length, words);
      if found {
        return true, start, at.wordnum;
      }
    }
    BothSides(words, searchPos, at, size, count, start);
    return false, start, searchPos;
  }

  /** The counting loop of CyU3PDmaBufferFree. */
  method CountOnes(usedStatus: array<Word>, start: nat) returns (count: nat)
    requires start < 32 * usedStatus.Length
    ensures IsRunOfOnes(usedStatus[..], start, count)
  {
    var statusSize := usedStatus.Length;
    ghost var words := usedStatus[..];
    ghost var pos: nat := start;
    var wordnum: nat, bitnum: nat := start / 32, start % 32;
    count := 0;
    while wordnum < statusSize && Bit(usedStatus[wordnum], bitnum)
      invariant wordnum <= statusSize && bitnum < 32
      invariant pos == 32 * wordnum + bitnum == start + count <= 32 * statusSize
      invariant forall n | start <= n < pos :: Used(words, n)
      decreases 32 * statusSize - pos
    {
      assert pos / 32 == wordnum && pos % 32 == bitnum;
      assert Used(words, pos);
      pos := pos + 1;
      count := count + 1;
      bitnum := bitnum + 1;
      if bitnum == 32 {
        bitnum := 0;
        wordnum := wordnum + 1;
      }
    }
    assert pos / 32 == wordnum && pos % 32 == bitnum;
  }

  /** glBufferManager: the bitmap, the region it covers and the search position. */
  class BufferManager {
    const heapBase: nat
    const heapSize: nat
    var usedStatus: array?<Word>
    var startAddr: nat
    var regionSize: nat
    var statusSize: nat
    var searchPos: nat
    ghost var live: Blocks

    ghost predicate Initialised()
      reads this
    {
      usedStatus != null
    }

    ghost function Bitmap(): seq<Word>
      reads this, usedStatus
      requires Initialised()
    {
      usedStatus[..]
    }

    ghost function Abs(): State
      reads this, usedStatus
      requires Initialised()
    {
      State(usedStatus[..], searchPos, live)
    }

    /** Both memory maps give a region of whole status words that does not start at address 0. */
    ghost predicate Valid()
      reads this, usedStatus
    {
      && heapBase > 0 && heapSize > 0 && heapSize % 1024 == 0
      && (usedStatus == null ==> startAddr == regionSize == statusSize == 0 && live == map[])
      && (usedStatus != null ==>
            && startAddr == heapBase && regionSize == heapSize
            && statusSize == usedStatus.Length && heapSize == 1024 * statusSize
            && searchPos < statusSize
            && WellPlaced(live, 32 * statusSize) && Represents(usedStatus[..], live))
    }

    constructor (heapBase: nat, heapSize: nat)
      requires heapBase > 0 && heapSize > 0 && heapSize % 1024 == 0
      ensures Valid() && !Initialised() && this.heapBase == heapBase && this.heapSize == heapSize
    {
      this.heapBase, this.heapSize := heapBase, heapSize;
      usedStatus, startAddr, regionSize, statusSize, searchPos, live := null, 0, 0, 0, 0, map[];
    }

    /** CyU3PDmaBufferInit, given the outcomes of creating the mutex and of the driver-heap allocation. */
    method Init(mutexCreated: bool, memoryAllocated: bool)
      requires Valid()
      modifies this
      ensures Valid()
      ensures old(Initialised()) || !(mutexCreated && memoryAllocated) ==>
                usedStatus == old(usedStatus) && live == old(live) && searchPos == old(searchPos)
      ensures !old(Initialised()) && mutexCreated && memoryAllocated ==>
                fresh(usedStatus) && live == map[] && searchPos == 0
    {
      if startAddr != 0 && regionSize != 0 { return; }
      if !mutexCreated { return; }
      if !memoryAllocated { return; }
      SetUp((heapSize / 32 + 31) / 32);
    }

    /** Every line available; the region and the search position are set. */
    method SetUp(size: nat)
      requires Valid() && !Initialised() && heapSize == 1024 * size
      modifies this
      ensures Valid() && fresh(usedStatus) && Initialised() && live == map[] && searchPos == 0
    {
      usedStatus := new Word[size](_ => 0);
      forall n | 0 <= n < 32 * size ensures !Used(usedStatus[..], n) { ZeroBit(n % 32); }
      startAddr := heapBase;
      regionSize := heapSize;
      statusSize := size;
      searchPos := 0;
    }

    /** The allocation proper: reserves lines for `bytes` bytes and returns their first line, or 0. */
    method Reserve(bytes: nat) returns (line: nat)
      requires Valid()
      modifies this, usedStatus
      ensures Valid() && usedStatus == old(usedStatus)
      ensures line == 0 ==> live == old(live) && searchPos == old(searchPos)
      ensures line == 0 && Initialised() ==>
                Abs() == old(Abs()) && NothingFits(Bitmap(), searchPos, LinesFor(bytes) + 1)
      ensures line != 0 ==> Initialised() && Reserved(old(Abs()), bytes, line - 1, Abs()) && line !in old(live)
      ensures old(Initialised()) ==> Step(old(Abs()), AllocCall(bytes), Abs())
    {
      if startAddr == 0 || regionSize == 0 { return 0; }
      var size := LinesFor(bytes);
      var found, start, newPos := Search(usedStatus, searchPos, size);
      if !found { return 0; }
      ghost var st := Abs();
      Occupy(start, bytes, newPos);
      ReservedIsStep(st, bytes, start - 1, Abs());
      return start;
    }

    /** The run found is marked and becomes a live block. */
    method Occupy(start: nat, bytes: nat, newPos: nat)
      requires Valid() && Initialised() && start >= 1 && Chosen(Bitmap(), searchPos, LinesFor(bytes) + 1, start - 1)
      requires newPos == (start - 1 + LinesFor(bytes)) / 32 < usedStatus.Length
      modifies this`searchPos, this`live, usedStatus
      ensures Valid() && Reserved(old(Abs()), bytes, start - 1, Abs()) && start !in old(live)
    {
      var size := LinesFor(bytes);
      searchPos := newPos;
      ghost var words := usedStatus[..];
      SetStatus(usedStatus, start, size - 1, true);
      AllocKeepsMeaning(words, usedStatus[..], live, start - 1, size);
      live := live[start := size];
    }

    /** Frees the block at an address. Any other address inside the region is accepted too: it truncates the block
        whose marked lines contain it, or frees nothing. */
    method Release(addr: nat) returns (ok: bool)
      requires Valid()
      modifies this, usedStatus
      ensures Valid() && usedStatus == old(usedStatus)
      ensures ok <==> old(Initialised()) && heapBase < addr < heapBase + heapSize
      ensures !ok ==> live == old(live) && searchPos == old(searchPos) && (Initialised() ==> Abs() == old(Abs()))
      ensures ok ==> Step(old(Abs()), FreeCall((addr - heapBase) / 32), Abs()) && searchPos == 0
    {
      ok := false;
      if addr > startAddr && addr < startAddr + regionSize {
        var start := (addr - startAddr) / 32;
        ghost var words := usedStatus[..];
        var count := CountOnes(usedStatus, start);
        SetStatus(usedStatus, start, count, false);
        live := Freed(live, 32 * statusSize, start);
        FreeKeepsMeaning(words, usedStatus[..], old(live), live, start, count);
        searchPos := 0;
        ok := true;
        assert Released(old(Abs()), start, count, Abs());
      }
    }
  }
}
