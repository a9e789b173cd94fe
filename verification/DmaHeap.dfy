/** The DMA buffer heap as its callers see it: alloc and free, with or without the leak and corruption checks. */
module DmaHeap {
  import opened DmaBlocks
  import opened DmaBufMgr
  import opened InUseList

  const HEADER_BYTES := 32  // sizeof (MemBlockInfo)
  const FOOTER_BYTES := 4   // sizeof (uint32_t)
  const MAX_REQUEST := 65535

  /** Bytes reserved for a request: with checks on, the least multiple of 4 with room for header and footer too. */
  function BlockBytes(size: nat, checks: bool): (b: nat)
    ensures if checks then b % 4 == 0 && size + HEADER_BYTES + FOOTER_BYTES <= b < size + HEADER_BYTES + FOOTER_BYTES + 4
            else b == size
  {
    if checks then (size + 3) / 4 * 4 + HEADER_BYTES + FOOTER_BYTES else size
  }

  /** The headers in memory, by the first line of their block. */
  type Headers = map<nat, MemBlockInfo>

  /** Each live block has its header at its first line, with the size that takes up the block's lines, and the in-use list
      holds exactly those headers. */
  ghost predicate Tracks(live: Blocks, headers: Headers, blocks: seq<MemBlockInfo>, heapBase: nat) {
    && headers.Keys == live.Keys
    && (forall s | s in headers :: headers[s].line == s && headers[s].addr == heapBase + 32 * s && headers[s] in blocks)
    && (forall s | s in headers :: LinesFor(headers[s].allocSize) == live[s])
    && (forall b | b in blocks :: b.line in headers && headers[b.line] == b)
  }

  lemma TracksAfterInsert(live: Blocks, headers: Headers, blocks: seq<MemBlockInfo>, heapBase: nat,
                          line: nat, size: nat, block: MemBlockInfo)
    requires Tracks(live, headers, blocks, heapBase)
    requires line !in live && block.line == line && block.addr == heapBase + 32 * line && LinesFor(block.allocSize) == size
    ensures Tracks(live[line := size], headers[line := block], blocks + [block], heapBase)
  {
  }

  lemma IndexOf(blocks: seq<MemBlockInfo>, block: MemBlockInfo) returns (k: nat)
    requires block in blocks
    ensures k < |blocks| && blocks[k] == block
  {
    k :| 0 <= k < |blocks| && blocks[k] == block;
  }

  lemma TracksAfterRemove(live: Blocks, headers: Headers, blocks: seq<MemBlockInfo>, heapBase: nat, line: nat, k: nat)
    requires Tracks(live, headers, blocks, heapBase)
    requires line in live && k < |blocks| && blocks[k] == headers[line]
    requires forall i, j | 0 <= i < j < |blocks| :: blocks[i] != blocks[j]
    ensures Tracks(live - {line}, headers - {line}, blocks[..k] + blocks[k + 1..], heapBase)
  {
    var headers', blocks' := headers - {line}, blocks[..k] + blocks[k + 1..];
    forall s | s in headers' ensures headers'[s] in blocks' {
      var i :| 0 <= i < |blocks| && blocks[i] == headers[s];
      assert i != k;
      assert blocks'[if i < k then i else i - 1] == blocks[i];
    }
    forall i | 0 <= i < |blocks'| ensures blocks'[i].line in headers' && headers'[blocks'[i].line] == blocks'[i] {
      assert blocks'[i] == blocks[if i < k then i else i + 1];
    }
  }

  lemma FreedLive(st: State, line: nat, st': State)
    requires Step(st, FreeCall(line), st') && line in st.live
    ensures st'.live == st.live - {line}
  {
  }

  class Heap {
    const mgr: BufferManager
    const inUse: InUseList
    const enableChecks: bool
    var headers: Headers

    ghost predicate Valid()
      reads this, mgr, mgr.usedStatus, inUse, inUse.blocks
    {
      && mgr.Valid() && inUse.Valid()
      && (if enableChecks
          then Tracks(mgr.live, headers, inUse.blocks, mgr.heapBase)
          else headers == map[] && inUse.blocks == [])
    }

    ghost function LineAddr(line: nat): nat {
      mgr.heapBase + 32 * line
    }

    constructor (heapBase: nat, heapSize: nat, enableChecks: bool)
      requires heapBase > 0 && heapSize > 0 && heapSize % 1024 == 0
      ensures Valid() && mgr.live == map[] && inUse.blocks == [] && this.enableChecks == enableChecks
      ensures fresh(mgr) && fresh(inUse) && !mgr.Initialised()
    {
      mgr := new BufferManager(heapBase, heapSize);
      inUse := new InUseList();
      headers := map[];
      this.enableChecks := enableChecks;
    }

    /** Writes the header of the block at line `start` and links it in. */
    method Track(addr: nat, start: nat, blkSize: nat, ghost live: Blocks)
      requires inUse.Valid() && Tracks(live, headers, inUse.blocks, mgr.heapBase)
      requires start !in live && addr == LineAddr(start)
      modifies this`headers, inUse, inUse.blocks`prevBlk, inUse.blocks`nextBlk
      ensures inUse.Valid() && Tracks(live[start := LinesFor(blkSize)], headers, inUse.blocks, mgr.heapBase)
      ensures inUse.head != null && inUse.blocks == old(inUse.blocks) + [inUse.head] && inUse.head.Intact()
      ensures inUse.head.addr == addr && inUse.head.allocId == old(inUse.allocCnt) && inUse.head.allocSize == blkSize
    {
      var block := inUse.Insert(addr, start, blkSize);
      TracksAfterInsert(live, headers, old(inUse.blocks), mgr.heapBase, start, LinesFor(blkSize), block);
      headers := headers[start := block];
    }

    /** Unlinks the block at line `start`, wherever it stands; `badBlock` says whether a signature was damaged. */
    method Untrack(start: nat, ghost live: Blocks) returns (badBlock: bool, ghost k: nat)
      requires inUse.Valid() && Tracks(live, headers, inUse.blocks, mgr.heapBase) && start in live
      modifies this`headers, inUse, inUse.blocks`prevBlk, inUse.blocks`nextBlk
      ensures inUse.Valid() && Tracks(live - {start}, headers, inUse.blocks, mgr.heapBase)
      ensures k < |old(inUse.blocks)| && old(inUse.blocks[k].line) == start
      ensures inUse.blocks == old(inUse.blocks[..k] + inUse.blocks[k + 1..])
      ensures badBlock == !old(inUse.blocks[k].Intact())
      ensures inUse.freeCnt == Next(old(inUse.freeCnt)) && inUse.allocCnt == old(inUse.allocCnt)
    {
      var block := headers[start];
      k := IndexOf(inUse.blocks, block);
      TracksAfterRemove(live, headers, inUse.blocks, mgr.heapBase, start, k);
      headers := headers - {start};
      badBlock := inUse.Remove(block, k);
    }

    /** CyU3PDmaBufferAlloc with the lock held. The null pointer 0 means no run of clear lines was long enough;
        otherwise a new live block, disjoint from every other, holds the header, the request and the footer. */
    method Alloc(size: nat) returns (ptr: nat, ghost line: nat)
      requires Valid() && size <= MAX_REQUEST
      modifies this, mgr, mgr.usedStatus, inUse, inUse.blocks`prevBlk, inUse.blocks`nextBlk
      ensures Valid() && mgr.usedStatus == old(mgr.usedStatus)
      ensures old(mgr.Initialised()) ==> Step(old(mgr.Abs()), AllocCall(BlockBytes(size, enableChecks)), mgr.Abs())
      ensures ptr == 0 ==> mgr.live == old(mgr.live) && inUse.blocks == old(inUse.blocks) && headers == old(headers)
      ensures ptr == 0 && mgr.Initialised() ==>
                && mgr.Abs() == old(mgr.Abs())
                && NothingFits(mgr.Bitmap(), mgr.searchPos, LinesFor(BlockBytes(size, enableChecks)) + 1)
      ensures ptr != 0 ==>
                && mgr.Initialised() && line !in old(mgr.live)
                && ptr == mgr.heapBase + 32 * line + (if enableChecks then 32 else 0)
                && line >= 1 && Reserved(old(mgr.Abs()), BlockBytes(size, enableChecks), line - 1, mgr.Abs())
                && ptr + size + (if enableChecks then 4 else 0) <= mgr.heapBase + 32 * (line + mgr.live[line])
      ensures ptr != 0 && enableChecks ==>
                && inUse.head != null && inUse.blocks == old(inUse.blocks) + [inUse.head] && inUse.head.Intact()
                && inUse.head.addr == LineAddr(line) && inUse.head.allocId == old(inUse.allocCnt)
                && inUse.head.allocSize == BlockBytes(size, true)
    {
      var blkSize := BlockBytes(size, enableChecks);
      var start := mgr.Reserve(blkSize);
      ptr, line := 0, start;
      if start != 0 {
        ptr := mgr.startAddr + 32 * start;
        if enableChecks {
          Track(ptr, start, blkSize, old(mgr.live));
          ptr := ptr + HEADER_BYTES;
        }
      }
    }

    /** CyU3PDmaBufferFree with the lock held, checks off: every address is accepted. */
    method Free(buffer: nat) returns (retVal: int)
      requires Valid() && !enableChecks
      modifies this, mgr, mgr.usedStatus
      ensures Valid() && mgr.usedStatus == old(mgr.usedStatus)
      ensures retVal == if old(mgr.Initialised()) && mgr.heapBase < buffer < mgr.heapBase + mgr.heapSize then 0 else -1
      ensures retVal != 0 ==> mgr.live == old(mgr.live) && mgr.searchPos == old(mgr.searchPos)
      ensures retVal != 0 && mgr.Initialised() ==> mgr.Abs() == old(mgr.Abs())
      ensures retVal == 0 ==> Step(old(mgr.Abs()), FreeCall((buffer - mgr.heapBase) / 32), mgr.Abs()) && mgr.searchPos == 0
    {
      if buffer < mgr.heapBase { return -1; }
      var ok := mgr.Release(buffer);
      retVal := if ok then 0 else -1;
    }

    /** The block's lines go back to the bitmap. */
    method ReleaseLine(addr: nat, ghost line: nat) returns (ok: bool)
      requires mgr.Valid() && mgr.Initialised() && line in mgr.live && addr == LineAddr(line)
      modifies mgr, mgr.usedStatus
      ensures ok && mgr.Valid() && mgr.usedStatus == old(mgr.usedStatus)
      ensures Step(old(mgr.Abs()), FreeCall(line), mgr.Abs()) && mgr.live == old(mgr.live) - {line}
    {
      ghost var st := mgr.Abs();
      ok := mgr.Release(addr);
      assert (addr - mgr.heapBase) / 32 == line;
      FreedLive(st, line, mgr.Abs());
    }

    /** CyU3PDmaBufferFree with the lock held, checks on: the header before the buffer is followed, so the caller must
        pass the pointer of a live block. `badBlock` says whether the corruption callback fires. */
    method CheckedFree(buffer: nat, ghost line: nat) returns (retVal: int, badBlock: bool, ghost k: nat)
      requires Valid() && enableChecks
      requires mgr.Initialised() && line in mgr.live && buffer == mgr.heapBase + 32 * line + 32
      modifies this, mgr, mgr.usedStatus, inUse, inUse.blocks`prevBlk, inUse.blocks`nextBlk
      ensures Valid() && mgr.usedStatus == old(mgr.usedStatus)
      ensures retVal == 0 && Step(old(mgr.Abs()), FreeCall(line), mgr.Abs()) && mgr.live == old(mgr.live) - {line}
      ensures k < |old(inUse.blocks)| && old(inUse.blocks[k].line) == line
      ensures inUse.blocks == old(inUse.blocks[..k] + inUse.blocks[k + 1..])
      ensures badBlock == !old(inUse.blocks[k].Intact())
      ensures inUse.freeCnt == Next(old(inUse.freeCnt)) && inUse.allocCnt == old(inUse.allocCnt)
    {
      var addr := buffer - HEADER_BYTES;
      var start := (addr - mgr.heapBase) / 32;
      assert start == line;
      badBlock, k := Untrack(start, mgr.live);
      assert mgr.Valid() && mgr.Abs() == old(mgr.Abs());
      var ok := ReleaseLine(addr, line);
      assert inUse.Valid();
      retVal := if ok then 0 else -1;
    }
  }
}
