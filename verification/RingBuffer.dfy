/** The ring as one thread sees it: each method run alone, as it is while the mutex keeps the others out.
    The interleavings of these bodies are the subject of RingProtocol. */
module RingBuffer {
  import opened Modular
  import opened RingState

  /** What an acquire finds: null after Stop, a slot, or nothing yet, in which case the caller sleeps. */
  datatype Acquired = Null | Block(slot: nat) | MustWait

  class RingBuffer<T(0)> {
    var readIndex: nat
    var writeIndex: nat
    var blocksAvailable: nat
    var stopped: bool
    const buffers: array<T>
    ghost var committed: seq<T>
    ghost var released: seq<T>

    ghost function Abs(): Ring<T>
      reads this, buffers
    {
      Ring(readIndex, writeIndex, blocksAvailable, stopped, buffers[..], committed, released, None)
    }

    /** The blocks committed and not yet released, oldest first. */
    ghost function Contents(): seq<T>
      reads this
      requires |released| <= |committed|
    {
      committed[|released|..]
    }

    ghost predicate Valid()
      reads this, buffers
    {
      buffers.Length > 0 && Coherent(Abs(), readIndex, writeIndex)
    }

    constructor (maxCount: nat)
      requires maxCount > 0
      ensures Valid() && Contents() == [] && !stopped && buffers.Length == maxCount && fresh(buffers)
    {
      readIndex, writeIndex, blocksAvailable, stopped := 0, 0, 0, false;
      buffers := new T[maxCount];
      committed, released := [], [];
    }

    method Start()
      requires buffers.Length > 0
      modifies this
      ensures Valid() && Contents() == [] && Abs() == Reset(old(Abs()))
    {
      writeIndex, readIndex := 0, 0;
      blocksAvailable := 0;
      stopped := false;
      committed, released := [], [];
    }

    method Stop()
      requires Valid()
      modifies this`stopped
      ensures Valid() && Abs() == old(Abs()).(stopped := true)
    {
      SameBlocks(Abs(), Abs().(stopped := true), readIndex, writeIndex);
      stopped := true;
    }

    /** acquireWriteBlock for Producer, acquireReadBlock for Consumer: the consumer gets the oldest block waiting, the
        producer a slot with none in it. Alone, the spin and the mutex path find the same. */
    method Acquire(side: Side) returns (r: Acquired)
      requires Valid()
      ensures r.Null? <==> stopped
      ensures r.MustWait? <==> !stopped && |Contents()| == if side == Producer then buffers.Length else 0
      ensures r.Block? ==> r.slot == Index(Abs(), side) < buffers.Length && Ready(Abs(), side)
      ensures r.Block? && side == Consumer ==> Contents() != [] && buffers[r.slot] == Contents()[0]
    {
      if stopped { return Null; }
      match side {
        case Producer =>
          if blocksAvailable < buffers.Length { return Block(writeIndex); }
        case Consumer =>
          if blocksAvailable > 0 {
            assert Stored(Abs(), readIndex, 0);
            return Block(readIndex);
          }
      }
      return MustWait;
    }

    /** The caller writes the block it acquired. */
    method WriteBlock(slot: nat, value: T)
      requires Valid() && Ready(Abs(), Producer) && slot == writeIndex
      modifies buffers
      ensures Valid() && Abs() == old(Abs()).(slots := old(buffers[..])[slot := value])
    {
      WriteKeeps(Abs(), readIndex, writeIndex, value);
      ghost var slots := buffers[..];
      buffers[slot] := value;
      assert buffers[..] == slots[slot := value];
    }

    method CommitWriteBlock() returns (ok: bool)
      requires Valid() && Ready(Abs(), Producer)
      modifies this
      ensures Valid() && ok == !old(stopped)
      ensures Contents() == if ok then old(Contents()) + [buffers[old(writeIndex)]] else old(Contents())
      ensures Abs() == if old(stopped) then old(Abs()) else Count(Advance(old(Abs()), Producer), Producer, old(writeIndex))
    {
      if stopped { return false; }
      CommitKeeps(Abs(), readIndex, writeIndex);
      WrapIsMod(writeIndex + 1, buffers.Length);
      ghost var counted := Count(Abs(), Producer, writeIndex);
      committed := committed + [buffers[writeIndex]];
      writeIndex := (writeIndex + 1) % buffers.Length;
      blocksAvailable := blocksAvailable + 1;
      SameBlocks(counted, Abs(), readIndex, writeIndex);
      return true;
    }

    /** Releasing with nothing available is ignored. */
    method ReleaseReadBlock()
      requires Valid()
      modifies this
      ensures Valid() && stopped == old(stopped)
      ensures Contents() == if old(Contents()) == [] then [] else old(Contents())[1..]
      ensures Abs() == if old(blocksAvailable) == 0 then old(Abs())
                       else Count(Advance(old(Abs()), Consumer), Consumer, old(readIndex))
    {
      if blocksAvailable == 0 { return; }
      ReleaseKeeps(Abs(), readIndex, writeIndex);
      WrapIsMod(readIndex + 1, buffers.Length);
      ghost var counted := Count(Abs(), Consumer, readIndex);
      released := released + [buffers[readIndex]];
      readIndex := (readIndex + 1) % buffers.Length;
      blocksAvailable := blocksAvailable - 1;
      SameBlocks(counted, Abs(), readIndex, writeIndex);
    }

    /** push: appends unless the ring is stopped; on a full ring the caller would sleep. */
    method Push(value: T) returns (r: Acquired)
      requires Valid()
      modifies this, buffers
      ensures Valid() && stopped == old(stopped)
      ensures r == if stopped then Null else if old(|Contents()|) < buffers.Length then Block(old(writeIndex)) else MustWait
      ensures Contents() == if r.Block? then old(Contents()) + [value] else old(Contents())
    {
      r := Acquire(Producer);
      if r.Block? {
        WriteBlock(r.slot, value);
        var _ := CommitWriteBlock();
      }
    }

    /** pop: takes the oldest block unless the ring is stopped; on an empty ring the caller would sleep. */
    method Pop() returns (r: Acquired, value: T)
      requires Valid()
      modifies this
      ensures Valid() && stopped == old(stopped)
      ensures r == if stopped then Null else if old(Contents()) != [] then Block(old(readIndex)) else MustWait
      ensures if r.Block? then old(Contents()) == [value] + Contents() else Contents() == old(Contents())
    {
      r := Acquire(Consumer);
      value := buffers[readIndex];
      if r.Block? {
        ReleaseKeeps(Abs(), readIndex, writeIndex);
        ReleaseReadBlock();
      }
    }
  }
}
