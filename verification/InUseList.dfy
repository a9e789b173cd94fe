/** The doubly linked list of in-use buffers kept for leak and corruption checks. */
module InUseList {
  import opened Words

  const START_SIG: Word := 0x4658334D
  const END_SIG: Word := 0x454E444D

  /** Header and footer of one allocated block. The header lies at `addr`, the start of cache line `line` of the heap. */
  class MemBlockInfo {
    const addr: nat
    ghost const line: nat
    var allocId: Word
    const allocSize: nat
    var prevBlk: MemBlockInfo?
    var nextBlk: MemBlockInfo?
    var startSig: Word
    var endSig: Word

    constructor (addr: nat, ghost line: nat, allocId: Word, allocSize: nat, prevBlk: MemBlockInfo?)
      ensures this.addr == addr && this.line == line && this.allocId == allocId && this.allocSize == allocSize
      ensures this.prevBlk == prevBlk && this.nextBlk == null
      ensures Intact()
    {
      this.addr, this.line, this.allocId, this.allocSize := addr, line, allocId, allocSize;
      this.prevBlk, this.nextBlk := prevBlk, null;
      this.startSig, this.endSig := START_SIG, END_SIG;
    }

    predicate Intact()
      reads this
    {
      startSig == START_SIG && endSig == END_SIG
    }
  }

  /** `w++` on a 32-bit counter */
  function Next(w: Word): Word {
    if w == 0xFFFF_FFFF then 0 else w + 1
  }

  /** Modulo 2^32, allocations minus frees is the length of the list. */
  ghost predicate Counts(allocCnt: Word, freeCnt: Word, length: nat) {
    (freeCnt + length) % 0x1_0000_0000 == allocCnt
  }

  lemma CountsStep(allocCnt: Word, freeCnt: Word, length: nat)
    requires Counts(allocCnt, freeCnt, length)
    ensures Counts(Next(allocCnt), freeCnt, length + 1)
    ensures length > 0 ==> Counts(allocCnt, Next(freeCnt), length - 1)
  {
  }

  class InUseList {
    var head: MemBlockInfo?
    var allocCnt: Word
    var freeCnt: Word
    ghost var blocks: seq<MemBlockInfo>  // oldest first

    /** prevBlk leads from the newest block through all of them to the oldest, and nextBlk is its inverse. */
    ghost predicate Linked()
      reads this, blocks
    {
      && (head == if blocks == [] then null else blocks[|blocks| - 1])
      && (forall i {:trigger blocks[i].prevBlk} | 0 <= i < |blocks| ::
            blocks[i].prevBlk == if i == 0 then null else blocks[i - 1])
      && (forall i {:trigger blocks[i].nextBlk} | 0 <= i < |blocks| ::
            blocks[i].nextBlk == if i == |blocks| - 1 then null else blocks[i + 1])
      && (forall i, j | 0 <= i < j < |blocks| :: blocks[i] != blocks[j])
    }

    /** ... and the list is as long as allocations minus frees. */
    ghost predicate Valid()
      reads this, blocks
    {
      Linked() && Counts(allocCnt, freeCnt, |blocks|)
    }

    constructor ()
      ensures Valid() && blocks == [] && allocCnt == freeCnt == 0
    {
      head, allocCnt, freeCnt, blocks := null, 0, 0, [];
    }

    /** The list code of CyU3PDmaBufferAlloc: the new block becomes the head. */
    method Insert(addr: nat, ghost line: nat, blkSize: nat) returns (block: MemBlockInfo)
      requires Valid()
      modifies this, blocks`prevBlk, blocks`nextBlk
      ensures Valid() && fresh(block) && blocks == old(blocks) + [block]
      ensures block.addr == addr && block.line == line && block.allocSize == blkSize && block.Intact()
      ensures block.allocId == old(allocCnt) && allocCnt == Next(old(allocCnt)) && freeCnt == old(freeCnt)
    {
      block := new MemBlockInfo(addr, line, allocCnt, blkSize, head);
      CountsStep(allocCnt, freeCnt, |blocks|);
      allocCnt := Next(allocCnt);
      if head != null {
        head.nextBlk := block;
      }
      head := block;
      blocks := blocks + [block];
    }

    /** The list code of CyU3PDmaBufferFree: the block at any position drops out, the others keep their order. */
    method Remove(block: MemBlockInfo, ghost k: nat) returns (corrupt: bool)
      requires Valid() && k < |blocks| && blocks[k] == block
      modifies this, blocks`prevBlk, blocks`nextBlk
      ensures Valid() && blocks == old(blocks[..k] + blocks[k + 1..])
      ensures corrupt == old(block.startSig != 0x4658334D || block.endSig != 0x454E444D) && allocCnt == old(allocCnt)
      ensures freeCnt == Next(old(freeCnt))
    {
      corrupt := block.startSig != START_SIG || block.endSig != END_SIG;
      CountsStep(allocCnt, freeCnt, |blocks|);
      freeCnt := Next(freeCnt);
      Drop(block, k);
    }

    method Drop(block: MemBlockInfo, ghost k: nat)
      requires Linked() && k < |blocks| && blocks[k] == block
      modifies this`head, this`blocks, blocks`prevBlk, blocks`nextBlk
      ensures Linked() && blocks == old(blocks[..k] + blocks[k + 1..])
    {
      Unlink(block, k);
      ghost var rest := blocks[..k] + blocks[k + 1..];
      Rejoined(k, rest);
      blocks := rest;
    }

    /** With the neighbours of position k joined, the other blocks are linked in their order. */
    lemma Rejoined(k: nat, rest: seq<MemBlockInfo>)
      requires k < |blocks| && rest == blocks[..k] + blocks[k + 1..]
      requires head == if k < |blocks| - 1 then blocks[|blocks| - 1] else if k == 0 then null else blocks[k - 1]
      requires forall i {:trigger blocks[i].prevBlk} | 0 <= i < |blocks| && i != k ::
        blocks[i].prevBlk == if i == 0 || (i == 1 && k == 0) then null else if i == k + 1 then blocks[k - 1] else blocks[i - 1]
      requires forall i {:trigger blocks[i].nextBlk} | 0 <= i < |blocks| && i != k ::
        blocks[i].nextBlk == if i == |blocks| - 1 || (i + 1 == k == |blocks| - 1) then null
                             else if i + 1 == k then blocks[k + 1] else blocks[i + 1]
      requires forall i, j | 0 <= i < j < |blocks| :: blocks[i] != blocks[j]
      ensures head == if rest == [] then null else rest[|rest| - 1]
      ensures forall i {:trigger rest[i].prevBlk} | 0 <= i < |rest| :: rest[i].prevBlk == if i == 0 then null else rest[i - 1]
      ensures forall i {:trigger rest[i].nextBlk} | 0 <= i < |rest| ::
        rest[i].nextBlk == if i == |rest| - 1 then null else rest[i + 1]
      ensures forall i, j | 0 <= i < j < |rest| :: rest[i] != rest[j]
    {
      assert forall i | 0 <= i < |rest| :: rest[i] == if i < k then blocks[i] else blocks[i + 1];
    }

    /** The neighbours of the block at position k are joined to each other; no other link changes. */
    method Unlink(block: MemBlockInfo, ghost k: nat)
      requires Linked() && k < |blocks| && blocks[k] == block
      modifies this`head, blocks`prevBlk, blocks`nextBlk
      ensures head == if k == |blocks| - 1 then (if k == 0 then null else blocks[k - 1]) else old(head)
      ensures forall i {:trigger blocks[i].prevBlk} | 0 <= i < |blocks| ::
        blocks[i].prevBlk == if i == k + 1 then (if k == 0 then null else blocks[k - 1]) else old(blocks[i].prevBlk)
      ensures forall i {:trigger blocks[i].nextBlk} | 0 <= i < |blocks| ::
        blocks[i].nextBlk ==
        if i + 1 == k then (if k + 1 == |blocks| then null else blocks[k + 1]) else old(blocks[i].nextBlk)
    {
      if block.nextBlk != null {
        block.nextBlk.prevBlk := block.prevBlk;
      }
      if block.prevBlk != null {
        block.prevBlk.nextBlk := block.nextBlk;
      }
      if head == block {
        head := block.prevBlk;
      }
    }

    /** CyU3PBufCorruptionCheck: succeeds exactly when every live block lies in the heap with both signatures intact.
        On failure the newest bad block is the one found; it is reported unless its address is out of range. */
    method CorruptionCheck(heapBase: nat, heapTop: nat) returns (ok: bool, reported: MemBlockInfo?, ghost at: int)
      requires Valid()
      ensures ok <==> forall i | 0 <= i < |blocks| ::
                        && heapBase <= blocks[i].addr < heapTop
                        && blocks[i].startSig == 0x4658334D && blocks[i].endSig == 0x454E444D
      ensures !ok ==> 0 <= at < |blocks| && !Sound(at, heapBase, heapTop)
      ensures !ok ==> forall i | at < i < |blocks| :: Sound(i, heapBase, heapTop)
      ensures reported == if !ok && heapBase <= blocks[at].addr < heapTop then blocks[at] else null
    {
      reported := null;
      var block := head;
      at := |blocks| - 1;
      while block != null
        invariant -1 <= at < |blocks|
        invariant block == if at == -1 then null else blocks[at]
        invariant forall i | at < i < |blocks| :: Sound(i, heapBase, heapTop)
        decreases at
      {
        if block.addr < heapBase || block.addr >= heapTop {
          assert !Sound(at, heapBase, heapTop);
          return false, null, at;
        }
        if block.startSig != START_SIG || block.endSig != END_SIG {
          assert !Sound(at, heapBase, heapTop);
          return false, block, at;
        }
        block := block.prevBlk;
        at := at - 1;
      }
      assert forall i | 0 <= i < |blocks| :: Sound(i, heapBase, heapTop);
      forall i | 0 <= i < |blocks| ensures heapBase <= blocks[i].addr < heapTop && blocks[i].Intact() {
        assert Sound(i, heapBase, heapTop);
      }
      ok := true;
    }

    ghost predicate Sound(i: nat, heapBase: nat, heapTop: nat)
      requires i < |blocks|
      reads this, blocks
    {
      heapBase <= blocks[i].addr < heapTop && blocks[i].Intact()
    }

    /** Following prevBlk from the active list visits each live block exactly once, newest first, and ends. */
    method ActiveBlocks() returns (visited: seq<MemBlockInfo>)
      requires Valid()
      ensures |visited| == |blocks|
      ensures forall i | 0 <= i < |blocks| :: visited[i] == blocks[|blocks| - 1 - i]
    {
      visited := [];
      var block := head;
      while block != null
        invariant |visited| <= |blocks|
        invariant block == if |visited| == |blocks| then null else blocks[|blocks| - 1 - |visited|]
        invariant forall i | 0 <= i < |visited| :: visited[i] == blocks[|blocks| - 1 - i]
        decreases |blocks| - |visited|
      {
        visited := visited + [block];
        block := block.prevBlk;
      }
    }
  }
}
