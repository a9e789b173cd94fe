/** CyU3PMemCopy of the firmware, over one flat memory. */
module MemCopy {

  type Byte = b: nat | b < 256

  /** `mem` with the `count` bytes at `src` written at `dest`, all read before any is written. */
  ghost function Moved(mem: seq<Byte>, dest: nat, src: nat, count: nat): (r: seq<Byte>)
    requires dest + count <= |mem| && src + count <= |mem|
    ensures |r| == |mem|
  {
    if count == 0 then mem
    else Moved(mem, dest, src, count - 1)[dest + count - 1 := mem[src + count - 1]]
  }

  /** The destination holds the old source and nothing else has changed. */
  lemma {:induction false} MovedAt(mem: seq<Byte>, dest: nat, src: nat, count: nat, i: nat)
    requires dest + count <= |mem| && src + count <= |mem| && i < |mem|
    ensures Moved(mem, dest, src, count)[i] == if dest <= i < dest + count then mem[src + (i - dest)] else mem[i]
  {
    if count > 0 { MovedAt(mem, dest, src, count - 1, i); }
  }

  lemma MovedParts(mem: seq<Byte>, dest: nat, src: nat, count: nat)
    requires dest + count <= |mem| && src + count <= |mem|
    ensures var r := Moved(mem, dest, src, count);
            && r[dest..dest + count] == mem[src..src + count]
            && r[..dest] == mem[..dest] && r[dest + count..] == mem[dest + count..]
  {
    forall i | 0 <= i < |mem|
      ensures Moved(mem, dest, src, count)[i] == if dest <= i < dest + count then mem[src + (i - dest)] else mem[i]
    {
      MovedAt(mem, dest, src, count, i);
    }
  }

  /** Going down, the byte below the part already moved has not been overwritten when dest >= src. */
  lemma OneBelow(was: seq<Byte>, dest: nat, src: nat, done: nat)
    requires src <= dest && dest + 1 + done <= |was|
    ensures var now := Moved(was, dest + 1, src + 1, done);
            now[dest := now[src]] == Moved(was, dest, src, done + 1)
  {
    var now := Moved(was, dest + 1, src + 1, done);
    var later := Moved(was, dest, src, done + 1);
    forall i | 0 <= i < |was| ensures now[dest := now[src]][i] == later[i] {
      MovedAt(was, dest + 1, src + 1, done, i);
      MovedAt(was, dest + 1, src + 1, done, src);
      MovedAt(was, dest, src, done + 1, i);
    }
  }

  /** Going up, the byte above the part already moved has not been overwritten when dest <= src. */
  lemma OneAbove(was: seq<Byte>, dest: nat, src: nat, done: nat)
    requires dest <= src && src + done + 1 <= |was|
    ensures var now := Moved(was, dest, src, done);
            now[dest + done := now[src + done]] == Moved(was, dest, src, done + 1)
  {
    MovedAt(was, dest, src, done, src + done);
  }

  /** `*dest = *src`, going down with `done` bytes above already moved. */
  method StoreDown(mem: array<Byte>, dest: nat, src: nat, ghost was: seq<Byte>, ghost done: nat)
    requires src <= dest && dest + 1 + done <= |was| == mem.Length && mem[..] == Moved(was, dest + 1, src + 1, done)
    modifies mem
    ensures mem[..] == Moved(was, dest, src, done + 1)
  {
    ghost var now := mem[..];
    OneBelow(was, dest, src, done);
    mem[dest] := mem[src];
    assert mem[..] == now[dest := now[src]];
  }

  /** `*dest = *src`, going up with `done` bytes below already moved. */
  method StoreUp(mem: array<Byte>, dest: nat, src: nat, ghost was: seq<Byte>, ghost done: nat)
    requires done <= dest <= src && src < |was| == mem.Length && mem[..] == Moved(was, dest - done, src - done, done)
    modifies mem
    ensures mem[..] == Moved(was, dest - done, src - done, done + 1)
  {
    ghost var now := mem[..];
    OneAbove(was, dest - done, src - done, done);
    mem[dest] := mem[src];
    assert mem[..] == now[dest := now[src]];
  }

  method StoreFourDown(mem: array<Byte>, dest: nat, src: nat, ghost was: seq<Byte>, ghost done: nat)
    requires src <= dest && dest + 4 + done <= |was| == mem.Length && mem[..] == Moved(was, dest + 4, src + 4, done)
    modifies mem
    ensures mem[..] == Moved(was, dest, src, done + 4)
  {
    StoreDown(mem, dest + 3, src + 3, was, done);
    StoreDown(mem, dest + 2, src + 2, was, done + 1);
    StoreDown(mem, dest + 1, src + 1, was, done + 2);
    StoreDown(mem, dest, src, was, done + 3);
  }

  method StoreFourUp(mem: array<Byte>, dest: nat, src: nat, ghost was: seq<Byte>, ghost done: nat)
    requires done <= dest <= src && src + 4 <= |was| == mem.Length && mem[..] == Moved(was, dest - done, src - done, done)
    modifies mem
    ensures mem[..] == Moved(was, dest - done, src - done, done + 4)
  {
    StoreUp(mem, dest, src, was, done);
    StoreUp(mem, dest + 1, src + 1, was, done + 1);
    StoreUp(mem, dest + 2, src + 2, was, done + 2);
    StoreUp(mem, dest + 3, src + 3, was, done + 3);
  }

  /** CyU3PMemCopy: for every dest, src and count, overlapping or not, the destination ends up with what the source held and
      no other byte changes. */
  method MemCopy(mem: array<Byte>, dest: nat, src: nat, count: nat)
    requires dest + count <= mem.Length && src + count <= mem.Length
    modifies mem
    ensures mem[dest..dest + count] == old(mem[src..src + count])
    ensures mem[..dest] == old(mem[..dest]) && mem[dest + count..] == old(mem[dest + count..])
  {
    ghost var was := mem[..];
    if dest > src {
      CopyDown(mem, dest, src, count);
    } else {
      CopyUp(mem, dest, src, count);
    }
    MovedParts(was, dest, src, count);
    assert mem[dest..dest + count] == mem[..][dest..dest + count];
    assert mem[..dest] == mem[..][..dest] && mem[dest + count..] == mem[..][dest + count..];
  }

  /** The branch for a destination above the source: from the end of the buffer back to the start, by eights. */
  method CopyDown(mem: array<Byte>, dest0: nat, src0: nat, count0: nat)
    requires src0 <= dest0 && dest0 + count0 <= mem.Length
    modifies mem
    ensures mem[..] == Moved(old(mem[..]), dest0, src0, count0)
  {
    ghost var was := mem[..];
    var dest: nat, src: nat, count: nat := dest0 + count0, src0 + count0, count0;
    while count >= 8
      invariant count <= count0 && dest == dest0 + count && src == src0 + count
      invariant mem[..] == Moved(was, dest, src, count0 - count)
    {
      dest := dest - 8;
      src := src - 8;
      count := count - 8;
      StoreFourDown(mem, dest + 4, src + 4, was, count0 - count - 8);
      StoreFourDown(mem, dest, src, was, count0 - count - 4);
    }
    while count > 0
      invariant count <= count0 && dest == dest0 + count && src == src0 + count
      invariant mem[..] == Moved(was, dest, src, count0 - count)
    {
      dest := dest - 1;
      src := src - 1;
      count := count - 1;
      StoreDown(mem, dest, src, was, count0 - count - 1);
    }
  }

  /** The other branch: from the start of the buffer to the end, by eights. */
  method CopyUp(mem: array<Byte>, dest0: nat, src0: nat, count0: nat)
    requires dest0 <= src0 && src0 + count0 <= mem.Length
    modifies mem
    ensures mem[..] == Moved(old(mem[..]), dest0, src0, count0)
  {
    ghost var was := mem[..];
    var dest: nat, src: nat, count: nat := dest0, src0, count0;
    while count >= 8
      invariant count <= count0 && dest == dest0 + (count0 - count) && src == src0 + (count0 - count)
      invariant mem[..] == Moved(was, dest0, src0, count0 - count)
    {
      StoreFourUp(mem, dest, src, was, count0 - count);
      StoreFourUp(mem, dest + 4, src + 4, was, count0 - count + 4);
      dest := dest + 8;
      src := src + 8;
      count := count - 8;
    }
    while count > 0
      invariant count <= count0 && dest == dest0 + (count0 - count) && src == src0 + (count0 - count)
      invariant mem[..] == Moved(was, dest0, src0, count0 - count)
    {
      StoreUp(mem, dest, src, was, count0 - count);
      dest := dest + 1;
      src := src + 1;
      count := count - 1;
    }
  }
}
