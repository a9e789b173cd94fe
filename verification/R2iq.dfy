/** The conversion thread: input blocks in, output blocks out, with the overlap carried from block to block. */
module R2iq {
  import opened Modular
  import opened Words
  import opened Complex
  import opened Spectrum
  import opened Tuning
  import opened R2iqStream

  /** The complex samples of a sequence of blocks, in order. */
  ghost function Flat(blocks: seq<seq<Cplx>>): seq<Cplx> {
    if blocks == [] then [] else Flat(blocks[..|blocks| - 1]) + blocks[|blocks| - 1]
  }

  lemma {:induction false} FlatLength(blocks: seq<seq<Cplx>>, size: nat)
    requires forall b | b in blocks :: |b| == size
    ensures |Flat(blocks)| == |blocks| * size
  {
    if blocks != [] {
      FlatLength(blocks[..|blocks| - 1], size);
      OneMore(|blocks| - 1, size);
    }
  }

  /** All but the last of some full blocks. */
  lemma ShortOfLast(blocks: seq<seq<Cplx>>, size: nat, out: seq<Cplx>)
    requires blocks != [] && forall b | b in blocks :: |b| == size
    requires |blocks| * size <= |out| && Flat(blocks) == out[..|blocks| * size]
    ensures (|blocks| - 1) * size <= |out| && Flat(blocks[..|blocks| - 1]) == out[..(|blocks| - 1) * size]
  {
    var init := blocks[..|blocks| - 1];
    FlatLength(init, size);
    OneMore(|blocks| - 1, size);
    assert Flat(init) == (Flat(init) + blocks[|blocks| - 1])[..|Flat(init)|];
  }

  /** Full blocks followed by a partial one: the blocks are a prefix of the whole. */
  lemma FullBlocks(blocks: seq<seq<Cplx>>, filled: seq<Cplx>, size: nat, out: seq<Cplx>)
    requires forall b | b in blocks :: |b| == size
    requires Flat(blocks) + filled == out
    ensures |blocks| * size <= |out| && Flat(blocks) == out[..|blocks| * size]
  {
    FlatLength(blocks, size);
  }

  /** What one turn of the loop finds: an input block, whether the converter is still on, and whether the output ring, if
      asked, gives it a block and takes one back. */
  datatype Found = Found(block: seq<Sample>, running: bool, outputOpen: bool, commitOpen: bool)

  /** An output ring once stopped stays stopped: Start comes only after the thread has ended. */
  ghost predicate StaysShut(turns: seq<Found>) {
    forall i, j | 0 <= i < j < |turns| ::
      (turns[j].outputOpen ==> turns[i].commitOpen) && (turns[j].commitOpen ==> turns[i].commitOpen)
  }

  /** So after a refused commit the next turn finds no output block. */
  lemma ShutAfter(turns: seq<Found>, done: nat)
    requires StaysShut(turns) && 0 < done < |turns| && !turns[done - 1].commitOpen
    ensures !turns[done].outputOpen
  {
  }

  /** The first `done` turns found the converter on. */
  ghost predicate AllRunning(turns: seq<Found>, done: nat) {
    done <= |turns| && forall i | 0 <= i < done :: turns[i].running
  }

  /** The samples of a sequence of turns, in order. */
  ghost function Samples(turns: seq<Found>): seq<Sample> {
    if turns == [] then [] else Samples(turns[..|turns| - 1]) + turns[|turns| - 1].block
  }

  lemma OneMoreTurn(turns: seq<Found>, k: nat)
    requires k < |turns|
    ensures Samples(turns[..k + 1]) == Samples(turns[..k]) + turns[k].block
  {
    assert turns[..k + 1][..k] == turns[..k];
  }

  /** Turn by turn: the samples of turn j lie behind those of the turns before it. */
  lemma {:induction false} SamplesAt(turns: seq<Found>, size: nat, j: nat)
    requires j < |turns| && forall t | t in turns :: |t.block| == size
    ensures |Samples(turns)| == |turns| * size && 0 <= j * size && j * size + size <= |Samples(turns)|
    ensures Samples(turns)[j * size..j * size + size] == turns[j].block
    decreases |turns|
  {
    var n, at := |turns| - 1, j * size;
    SamplesLength(turns, size);
    SamplesLength(turns[..n], size);
    Within(j, |turns|, size);
    if j < n {
      SamplesAt(turns[..n], size, j);
      PartBefore(Samples(turns[..n]), turns[n].block, at, at + size);
    }
  }

  lemma {:induction false} SamplesLength(turns: seq<Found>, size: nat)
    requires forall t | t in turns :: |t.block| == size
    ensures |Samples(turns)| == |turns| * size
  {
    if turns != [] {
      SamplesLength(turns[..|turns| - 1], size);
      OneMore(|turns| - 1, size);
    }
  }

  /** Block j of n lies within them. */
  lemma Within(j: nat, n: nat, size: nat)
    requires j < n
    ensures 0 <= j * size && j * size + size <= n * size && (j + 1 == n ==> j * size + size == n * size)
  {
    OneMore(j, size);
    TimesMonotone(j + 1, n, size);
  }

  /** A part of a beginning is a part of the whole. */
  lemma PartBefore<T>(a: seq<T>, b: seq<T>, i: nat, k: nat)
    requires i <= k <= |a|
    ensures (a + b)[i..k] == a[i..k]
  {
  }

  lemma PartOfPrefix<T>(a: seq<T>, n: nat, i: nat, k: nat)
    requires i <= k <= n <= |a|
    ensures a[..n][i..k] == a[i..k]
  {
  }

  /** Block by block: block j lies behind those before it. */
  lemma {:induction false} FlatAt(blocks: seq<seq<Cplx>>, size: nat, j: nat)
    requires j < |blocks| && forall b | b in blocks :: |b| == size
    ensures 0 <= j * size && j * size + size <= |Flat(blocks)|
    ensures Flat(blocks)[j * size..j * size + size] == blocks[j]
    decreases |blocks|
  {
    var n, at := |blocks| - 1, j * size;
    FlatLength(blocks, size);
    FlatLength(blocks[..n], size);
    Within(j, |blocks|, size);
    if j < n {
      FlatAt(blocks[..n], size, j);
      PartBefore(Flat(blocks[..n]), blocks[n], at, at + size);
    }
  }

  /** convert_float into `output` from `at` on. */
  method ConvertFloat(input: seq<Sample>, output: array<real>, at: nat, rand: bool)
    requires at + |input| <= output.Length
    modifies output
    ensures output[..] == old(output[..at]) + ConvertAll(input, rand) + old(output[at + |input|..])
  {
    ghost var was := output[..];
    for m := 0 to |input|
      invariant forall i | 0 <= i < output.Length ::
                  output[i] == if at <= i < at + m then Convert(input[i - at], rand) else was[i]
    {
      var val := input[m];
      if rand && val % 2 == 1 {
        val := XorMinus2(val);
      }
      output[at + m] := val as real;
    }
  }

  /** copy<flip> into `dest` from `at` on. */
  method Copy(dest: array<Cplx>, at: nat, source: array<Cplx>, count: nat, lsb: bool)
    requires dest != source && at + count <= dest.Length && count <= source.Length
    modifies dest
    ensures dest[..] == old(dest[..at]) + Sided(source[..count], lsb) + old(dest[at + count..])
  {
    ghost var was := dest[..];
    for m := 0 to count
      invariant forall i | 0 <= i < dest.Length ::
                  dest[i] == if at <= i < at + m then (if lsb then source[i - at].Conj() else source[i - at]) else was[i]
    {
      dest[at + m] := if lsb then Cplx(source[m].re, -source[m].im) else source[m];
    }
  }

  /** A transform stores its result over the first entries of an array. */
  method Store(dest: array<Cplx>, values: seq<Cplx>)
    requires |values| <= dest.Length
    modifies dest
    ensures dest[..|values|] == values && dest[|values|..] == old(dest[|values|..])
  {
    forall i | 0 <= i < |values| {
      dest[i] := values[i];
    }
  }

  /** One pass of the window loop: the window's contribution lands at `at` and nothing else of the output changes. */
  method Window(s: Setup, window: seq<real>, adcInFreq: array<Cplx>, inFreqTmp: array<Cplx>, output: array<Cplx>, at: nat)
    requires s.Ok() && adcInFreq.Length == 5121 && inFreqTmp.Length == 5120
    requires adcInFreq != inFreqTmp && output != adcInFreq && output != inFreqTmp
    requires at <= output.Length && at + Useful(s.decimation) <= output.Length
    modifies adcInFreq, inFreqTmp, output
    ensures output[..] == old(output[..at]) + s.Yield(window) + old(output[at + |s.Yield(window)|..])
  {
    SizesDivide(s.decimation);
    var half := s.Half();
    var spectrum := s.fft(window);
    Store(adcInFreq, spectrum);
    assert adcInFreq[..] == spectrum;
    FillShort(inFreqTmp, adcInFreq, s.filter, s.center, half);
    var time := s.ifft(inFreqTmp[..2 * half]);
    Store(inFreqTmp, time);
    assert inFreqTmp[..Useful(s.decimation)] == time[..Useful(s.decimation)];
    Copy(output, at, inFreqTmp, Useful(s.decimation), s.lsb);
  }

  lemma TimesMonotone(a: nat, b: nat, c: nat)
    requires a <= b
    ensures a * c <= b * c
  {
  }

  lemma OneMore(a: nat, c: nat)
    ensures (a + 1) * c == a * c + c
  {
  }

  lemma BlockSize(ratio: nat, k: nat, useful: nat)
    requires useful * ratio == 4096
    ensures ratio * (k * useful) == 4096 * k
  {
    assert ratio * (k * useful) == k * (useful * ratio);
  }

  /** After each input block the offset is a whole number of input blocks; a full turn of the counter fills the output
      block of 4096 k samples. */
  lemma OffsetAdvances(count: nat, ratio: nat, k: nat, useful: nat)
    requires count < ratio && useful * ratio == 4096
    ensures count * (k * useful) + k * useful == (count + 1) * (k * useful) <= 4096 * k
    ensures count + 1 == ratio ==> (count + 1) * (k * useful) == 4096 * k
  {
    BlockSize(ratio, k, useful);
    OneMore(count, k * useful);
    TimesMonotone(count + 1, ratio, k * useful);
  }

  /** Every window of an input block stays within the output block. */
  lemma WindowFits(count: nat, ratio: nat, k: nat, window: nat, useful: nat)
    requires count < ratio && window < k && useful * ratio == 4096
    ensures count * (k * useful) + window * useful + useful <= 4096 * k
  {
    OffsetAdvances(count, ratio, k, useful);
    OneMore(window, useful);
    TimesMonotone(window + 1, k, useful);
  }

  lemma NextWindowFits(count: nat, ratio: nat, k: nat, window: nat, useful: nat, offset: nat, length: nat)
    requires count < ratio && window < k && useful * ratio == 4096 && offset == count * (k * useful) && length == 4096 * k
    ensures offset + (window + 1) * useful == offset + window * useful + useful <= length
  {
    WindowFits(count, ratio, k, window, useful);
    OneMore(window, useful);
  }

  lemma Reassociate<T>(a: seq<T>, b: seq<T>, c: seq<T>)
    ensures a + b + c == a + (b + c)
  {
  }

  /** The bookkeeping of one input block: the masked counter goes up by one or comes round to zero, in which case the
      output block is exactly full. */
  lemma Turn(count: nat, d: nat, k: nat, step: nat, length: nat)
    requires d < NDECIDX && count < Pow2(d) && step == k * Useful(d) && length == 4096 * k
    ensures And(count + 1, Pow2(d) - 1) == if count + 1 == Pow2(d) then 0 else count + 1
    ensures count * step + step == (count + 1) * step <= length
    ensures count + 1 == Pow2(d) ==> count * step + step == length
  {
    var ratio := Pow2(d);
    SizesDivide(d);
    MaskIsMod(count + 1, d, ratio);
    ModUnique(count + 1, ratio, if count + 1 == ratio then 1 else 0, if count + 1 == ratio then 0 else count + 1);
    OffsetAdvances(count, ratio, k, Useful(d));
  }

  class Converter {
    const setup: Setup
    const fftsPerBlock: nat
    const lastBlockEnd: array<Sample>
    const adcInTime: array<real>
    const adcInFreq: array<Cplx>
    const inFreqTmp: array<Cplx>
    const iqOutput: array<Cplx>        // the output block being filled, when there is one
    var haveOutput: bool               // iq_output != nullptr
    var outputOffset: nat
    var decimateCount: nat
    var committed: seq<seq<Cplx>>      // blocks the output ring has taken
    ghost var full: seq<seq<Cplx>>     // blocks filled
    ghost var refused: bool            // the ring was stopped before it took the last one
    ghost const step: nat              // output samples per input block
    ghost var heard: seq<Sample>       // 2048 zeros, then every input sample so far
    ghost var inputs: nat              // input blocks so far
    ghost var windows: nat             // windows transformed so far

    function Ratio(): nat {
      Pow2(setup.decimation)
    }

    /** Sizes and separation of the buffers. */
    ghost predicate Laid() {
      && setup.Ok() && fftsPerBlock > 0 && step == fftsPerBlock * Useful(setup.decimation)
      && lastBlockEnd.Length == 2048 && adcInTime.Length == 8192 * fftsPerBlock + 2 * 2048
      && adcInFreq.Length == 5121 && inFreqTmp.Length == 5120 && iqOutput.Length == 4096 * fftsPerBlock
      && adcInFreq != inFreqTmp && iqOutput != adcInFreq && iqOutput != inFreqTmp
    }

    /** Everything produced so far: full blocks, then the filled part of the current one. */
    ghost function Produced(): seq<Cplx>
      requires outputOffset <= iqOutput.Length
      reads this, iqOutput
    {
      Flat(full) + iqOutput[..outputOffset]
    }

    /** The offset counts whole input blocks. */
    ghost predicate Accounted()
      reads this
    {
      && decimateCount < Ratio()
      && outputOffset == decimateCount * step
      && outputOffset <= iqOutput.Length
      && (forall b | b in full :: |b| == 4096 * fftsPerBlock)
    }

    /** Every full block took 2^d input blocks. */
    ghost predicate Counted()
      reads this
    {
      inputs == |full| * Ratio() + decimateCount
    }

    /** The full blocks have been committed, short of the last when the ring was stopped first. */
    ghost predicate Delivered()
      reads this
    {
      if refused then full != [] && committed == full[..|full| - 1] && decimateCount == 0 else committed == full
    }

    /** The output so far is the block-free output for the samples so far, whose tail is the history. */
    ghost predicate Settled()
      reads this, lastBlockEnd, iqOutput
    {
      && Laid() && Accounted() && Counted() && Delivered()
      && |heard| == 2048 + 8192 * windows
      && lastBlockEnd[..] == heard[|heard| - 2048..]
      && Produced() == setup.Out(ConvertAll(heard, setup.rand))
    }

    /** Between input blocks, an output block is in hand exactly when it is partly filled. */
    ghost predicate Valid()
      reads this, lastBlockEnd, iqOutput
    {
      Settled() && (haveOutput <==> decimateCount > 0)
    }

    /** The history and the new block, converted, side by side; the block's last 2048 samples become the history. */
    method Load(block: seq<Sample>)
      requires Laid() && |block| == 8192 * fftsPerBlock
      modifies adcInTime, lastBlockEnd
      ensures adcInTime[..2048 + |block|] == ConvertAll(old(lastBlockEnd[..]) + block, setup.rand)
      ensures lastBlockEnd[..] == block[|block| - 2048..]
    {
      ConvertFloat(lastBlockEnd[..], adcInTime, 0, setup.rand);
      ConvertFloat(block, adcInTime, 2048, setup.rand);
      ConvertAppend(lastBlockEnd[..], block, setup.rand);
      forall i | 0 <= i < 2048 {
        lastBlockEnd[i] := block[|block| - 2048 + i];
      }
    }

    /** Windows [0, k) of the loaded samples have been stored behind `kept`, up to `end`. */
    ghost predicate Stored(loaded: seq<real>, kept: seq<Cplx>, k: nat, end: nat)
      requires Laid() && 2048 + 8192 * k <= |loaded|
      reads this, adcInTime, iqOutput
    {
      && |loaded| <= adcInTime.Length && adcInTime[..|loaded|] == loaded
      && end <= iqOutput.Length
      && iqOutput[..end] == kept + setup.Out(loaded[..2048 + 8192 * k])
    }

    /** One pass of the window loop: the window starts at sample 8192 k of the loaded samples. */
    method Pass(k: nat, destination: nat, ghost loaded: seq<real>, ghost kept: seq<Cplx>)
      requires Laid() && 8192 * k + 10240 <= |loaded| && Stored(loaded, kept, k, destination)
      requires 0 <= destination + Useful(setup.decimation) <= iqOutput.Length
      modifies adcInFreq, inFreqTmp, iqOutput
      ensures Stored(loaded, kept, k + 1, destination + Useful(setup.decimation))
    {
      NextWindow(setup, loaded, k);
      var window := adcInTime[8192 * k..8192 * k + 10240];
      assert window == loaded[8192 * k..8192 * k + 10240];
      ghost var before := iqOutput[..destination];
      Window(setup, window, adcInFreq, inFreqTmp, iqOutput, destination);
      assert iqOutput[..destination + |setup.Yield(window)|] == before + setup.Yield(window);
    }

    /** The window loop: window k goes to output_buffer_offset + k * useful, always in bounds. */
    method Windows(ghost loaded: seq<real>)
      requires Laid() && |loaded| == 2048 + 8192 * fftsPerBlock && adcInTime[..|loaded|] == loaded
      requires decimateCount < Ratio() && outputOffset == decimateCount * step <= iqOutput.Length
      modifies adcInFreq, inFreqTmp, iqOutput
      ensures outputOffset + step <= iqOutput.Length
      ensures iqOutput[..outputOffset + step] == old(iqOutput[..outputOffset]) + setup.Out(loaded)
    {
      SizesDivide(setup.decimation);
      var useful: nat := Useful(setup.decimation);
      ghost var kept := iqOutput[..outputOffset];
      for k := 0 to fftsPerBlock
        invariant 0 <= outputOffset + k * useful <= iqOutput.Length
        invariant Stored(loaded, kept, k, outputOffset + k * useful)
      {
        var destination := outputOffset + k * useful;
        NextWindowFits(decimateCount, Ratio(), fftsPerBlock, k, useful, outputOffset, iqOutput.Length);
        assert destination + useful == outputOffset + (k + 1) * useful;
        Pass(k, destination, loaded, kept);
      }
      assert loaded[..2048 + 8192 * fftsPerBlock] == loaded;
    }

    /** The thread's start: no history but zeros, no output block yet. The input block size is a whole number of window
        advances, as Init asserts, and the output block holds what 2^d input blocks yield. */
    constructor (setup: Setup, fftsPerBlock: nat)
      requires setup.Ok() && fftsPerBlock > 0
      ensures Valid() && committed == [] && !refused && inputs == 0 && |heard| == 2048 && forall x | x in heard :: x == 0
      ensures this.setup == setup && this.fftsPerBlock == fftsPerBlock
      ensures fresh(lastBlockEnd) && fresh(adcInTime) && fresh(adcInFreq) && fresh(inFreqTmp) && fresh(iqOutput)
    {
      this.setup, this.fftsPerBlock := setup, fftsPerBlock;
      lastBlockEnd := new Sample[2048](_ => 0);
      adcInTime := new real[8192 * fftsPerBlock + 2 * 2048];
      adcInFreq := new Cplx[5121];
      inFreqTmp := new Cplx[5120];
      iqOutput := new Cplx[4096 * fftsPerBlock];
      haveOutput, outputOffset, decimateCount, committed := false, 0, 0, [];
      full, refused := [], false;
      SizesDivide(setup.decimation);
      step := fftsPerBlock * Useful(setup.decimation);
      heard, inputs, windows := seq(2048, _ => 0), 0, 0;
    }

    /** The samples loaded for a block give the output that the block adds to the stream. */
    lemma BlockAdds(block: seq<Sample>)
      requires setup.Ok() && |heard| == 2048 + 8192 * windows
      ensures setup.Out(ConvertAll(heard + block, setup.rand)) ==
              setup.Out(ConvertAll(heard, setup.rand)) + setup.Out(ConvertAll(heard[|heard| - 2048..] + block, setup.rand))
    {
      var x, y := ConvertAll(heard, setup.rand), ConvertAll(block, setup.rand);
      ConvertAppend(heard, block, setup.rand);
      ConvertAppend(heard[|heard| - 2048..], block, setup.rand);
      assert ConvertAll(heard[|heard| - 2048..], setup.rand) == x[|x| - 2048..];
      BoundariesAreInvisible(setup, x, y, windows);
    }

    /** The end of the loop body: the offset moves on by one input block's yield, and when the counter comes round the
        output block is exactly full and is committed, if the ring is still open. */
    method Account(commitOpen: bool)
      requires Laid() && Accounted() && Counted() && Delivered() && !refused && haveOutput
      requires outputOffset + step <= iqOutput.Length
      modifies this`outputOffset, this`decimateCount, this`committed, this`full, this`refused, this`haveOutput, this`inputs
      ensures Accounted() && Counted() && Delivered() && (haveOutput <==> decimateCount > 0) && inputs == old(inputs) + 1
      ensures Produced() == old(Flat(full) + iqOutput[..outputOffset + step])
      ensures if old(decimateCount) + 1 == Ratio()
              then decimateCount == 0 && full == old(full) + [iqOutput[..]] && refused == !commitOpen
              else decimateCount == old(decimateCount) + 1 && full == old(full) && !refused
    {
      inputs := inputs + 1;
      OneMore(|full|, Ratio());
      Turn(decimateCount, setup.decimation, fftsPerBlock, step, iqOutput.Length);
      outputOffset := outputOffset + fftsPerBlock * Useful(setup.decimation);
      decimateCount := And(decimateCount + 1, Ratio() - 1);
      if decimateCount == 0 {
        Commit(commitOpen);
      }
    }

    /** commitWriteBlock of the full output block; the thread goes on without it whether or not the ring takes it. */
    method Commit(commitOpen: bool)
      requires outputOffset == iqOutput.Length && Delivered() && !refused && decimateCount == 0
      modifies this`outputOffset, this`committed, this`full, this`refused, this`haveOutput
      ensures full == old(full) + [iqOutput[..]] && Delivered() && refused == !commitOpen
      ensures !haveOutput && outputOffset == 0 && Produced() == old(Produced())
    {
      assert iqOutput[..outputOffset] == iqOutput[..];
      full, refused := full + [iqOutput[..]], !commitOpen;
      if commitOpen {
        committed := committed + [iqOutput[..]];
      }
      haveOutput := false;
      outputOffset := 0;
    }

    /** One turn of the thread's loop, once an input block is acquired; it ends early if the converter has been switched
        off or the output ring stopped. After a refused commit the ring is stopped. */
    method Iterate(found: Found) returns (goesOn: bool)
      requires Valid() && |found.block| == 8192 * fftsPerBlock && (refused ==> !found.outputOpen)
      modifies this, lastBlockEnd, adcInTime, adcInFreq, inFreqTmp, iqOutput
      ensures Valid() && old(full) <= full
      ensures goesOn <==> found.running && (old(haveOutput) || found.outputOpen)
      ensures goesOn ==> heard == old(heard) + found.block && inputs == old(inputs) + 1 && !old(refused)
      ensures goesOn && refused ==> !found.commitOpen
      ensures !goesOn ==> heard == old(heard) && inputs == old(inputs) && full == old(full) && committed == old(committed)
      ensures !goesOn ==> haveOutput == old(haveOutput) && refused == old(refused)
    {
      if !found.running { return false; }
      if !haveOutput {
        if !found.outputOpen { return false; }
        Begin();
      }
      Process(found.block, found.commitOpen);
      return true;
    }

    /** A fresh output block, cleared. */
    method Begin()
      requires Valid() && !haveOutput
      modifies this`haveOutput, iqOutput
      ensures Settled() && haveOutput
    {
      assert outputOffset == 0;
      ghost var kept := iqOutput[..0];
      forall i | 0 <= i < iqOutput.Length { iqOutput[i] := ZERO; }
      assert iqOutput[..0] == kept;
      haveOutput := true;
    }

    /** Conversion of one input block into the output block in hand. */
    method Fill(block: seq<Sample>)
      requires Laid() && Accounted() && |block| == 8192 * fftsPerBlock
      modifies lastBlockEnd, adcInTime, adcInFreq, inFreqTmp, iqOutput
      ensures lastBlockEnd[..] == block[|block| - 2048..]
      ensures outputOffset + step <= iqOutput.Length
      ensures iqOutput[..outputOffset + step] ==
              old(iqOutput[..outputOffset]) + setup.Out(ConvertAll(old(lastBlockEnd[..]) + block, setup.rand))
    {
      ghost var loaded := ConvertAll(lastBlockEnd[..] + block, setup.rand);
      Load(block);
      Windows(loaded);
    }

    /** The loop body proper, with an input and an output block in hand. */
    method Process(block: seq<Sample>, commitOpen: bool)
      requires Settled() && haveOutput && !refused && |block| == 8192 * fftsPerBlock
      modifies this, lastBlockEnd, adcInTime, adcInFreq, inFreqTmp, iqOutput
      ensures Valid() && heard == old(heard) + block && inputs == old(inputs) + 1 && old(full) <= full
      ensures refused ==> !commitOpen
    {
      ghost var done, kept := Flat(full), iqOutput[..outputOffset];
      ghost var added := setup.Out(ConvertAll(lastBlockEnd[..] + block, setup.rand));
      ghost var heard' := heard + block;
      ghost var target := setup.Out(ConvertAll(heard', setup.rand));
      assert target == done + (kept + added) by {
        BlockAdds(block);
        Reassociate(done, kept, added);
      }
      assert heard'[|heard'| - 2048..] == block[|block| - 2048..];
      Fill(block);
      Finish(heard', target, commitOpen);
    }

    /** With the block converted, the record of what was heard and the bookkeeping move on. */
    method Finish(ghost heard': seq<Sample>, ghost target: seq<Cplx>, commitOpen: bool)
      requires Laid() && Accounted() && Counted() && Delivered() && !refused && haveOutput
      requires outputOffset + step <= iqOutput.Length
      requires |heard'| == 2048 + 8192 * (windows + fftsPerBlock) && lastBlockEnd[..] == heard'[|heard'| - 2048..]
      requires Flat(full) + iqOutput[..outputOffset + step] == target == setup.Out(ConvertAll(heard', setup.rand))
      modifies this`heard, this`inputs, this`windows, this`outputOffset, this`decimateCount, this`committed, this`full,
               this`refused, this`haveOutput
      ensures Valid() && heard == heard' && inputs == old(inputs) + 1 && old(full) <= full && (refused ==> !commitOpen)
    {
      heard, windows := heard', windows + fftsPerBlock;
      Account(commitOpen);
    }

    /** Whole runs, for any number of input blocks: the concatenated committed blocks are the block-free output of all the
        samples heard, up to the last block committed. */
    lemma CommittedIsPrefix()
      requires Valid()
      ensures var out, size := setup.Out(ConvertAll(heard, setup.rand)), |committed| * iqOutput.Length;
              size <= |out| && Flat(committed) == out[..size]
    {
      FullBlocks(full, iqOutput[..outputOffset], iqOutput.Length, setup.Out(ConvertAll(heard, setup.rand)));
      if refused { ShortOfLast(full, iqOutput.Length, setup.Out(ConvertAll(heard, setup.rand))); }
    }

    /** Block j committed is the j-th stretch of its own length of the block-free output. */
    lemma CommittedAt(j: nat)
      requires Valid() && j < |committed|
      ensures var out, at := setup.Out(ConvertAll(heard, setup.rand)), j * iqOutput.Length;
              0 <= at && at + iqOutput.Length <= |out| && committed[j] == out[at..at + iqOutput.Length]
    {
      CommittedIsPrefix();
      FlatAt(committed, iqOutput.Length, j);
      var at := j * iqOutput.Length;
      PartOfPrefix(setup.Out(ConvertAll(heard, setup.rand)), |Flat(committed)|, at, at + iqOutput.Length);
    }

    /** Every 2^d input blocks fill one output block exactly, and each is committed; only the last may have been refused,
        by a stopped ring, and then it was filled by the last input block. */
    lemma BlocksTake2ToTheD()
      requires Valid()
      ensures |full| == inputs / Ratio() && decimateCount == inputs % Ratio()
      ensures |committed| == if refused then |full| - 1 else |full|
      ensures refused ==> inputs % Ratio() == 0
    {
      ModUnique(inputs, Ratio(), |full|, decimateCount);
    }

    /** The thread's loop, over whatever it finds: it goes on until it is switched off, needs an output block and finds the
        ring stopped, or runs out of input. A refused commit is followed by no further block. */
    method Run(turns: seq<Found>) returns (done: nat)
      requires Valid() && !refused && StaysShut(turns) && forall t | t in turns :: |t.block| == 8192 * fftsPerBlock
      modifies this, lastBlockEnd, adcInTime, adcInFreq, inFreqTmp, iqOutput
      ensures Valid() && done <= |turns|
      ensures heard == old(heard) + Samples(turns[..done]) && inputs == old(inputs) + done
      ensures AllRunning(turns, done)
      ensures done < |turns| ==> !turns[done].running || (!haveOutput && !turns[done].outputOpen)
      ensures refused ==> done > 0 && !turns[done - 1].commitOpen
    {
      done := 0;
      while done < |turns|
        invariant Valid() && done <= |turns|
        invariant heard == old(heard) + Samples(turns[..done]) && inputs == old(inputs) + done
        invariant AllRunning(turns, done)
        invariant refused ==> done > 0 && !turns[done - 1].commitOpen
      {
        if refused { ShutAfter(turns, done); }
        OneMoreTurn(turns, done);
        Reassociate(old(heard), Samples(turns[..done]), turns[done].block);
        var goesOn := Iterate(turns[done]);
        if !goesOn { return; }
        done := done + 1;
      }
    }
  }
}
