/** The shared state of the single-producer single-consumer ring: indices, block count and slots. */
module RingState {
  import opened Modular

  datatype Option<T> = None | Some(value: T)

  /** `committed` records the blocks committed since Start, `released` those released, each as the consumer first found it,
      and `found` the block it has found and not yet released. */
  datatype Ring<T> = Ring(readIndex: nat, writeIndex: nat, available: nat, stopped: bool, slots: seq<T>,
                          committed: seq<T>, released: seq<T>, found: Option<T>)

  datatype Side = Producer | Consumer

  function Other(side: Side): Side {
    if side == Producer then Consumer else Producer
  }

  /** The wait predicate of an endpoint, `stopped` apart: room to write, or a block to read. */
  predicate Ready<T>(ring: Ring<T>, side: Side) {
    if side == Producer then ring.available < |ring.slots| else ring.available > 0
  }

  function Index<T>(ring: Ring<T>, side: Side): nat {
    if side == Producer then ring.writeIndex else ring.readIndex
  }

  /** First store of a commit or release: the endpoint's own index moves on. */
  function Advance<T>(ring: Ring<T>, side: Side): Ring<T>
    requires |ring.slots| > 0
  {
    if side == Producer
    then ring.(writeIndex := (ring.writeIndex + 1) % |ring.slots|)
    else ring.(readIndex := (ring.readIndex + 1) % |ring.slots|)
  }

  /** Second store: the block in `slot` is counted in or out. */
  function Count<T>(ring: Ring<T>, side: Side, slot: nat): Ring<T>
    requires slot < |ring.slots| && (side == Consumer ==> ring.available > 0)
  {
    if side == Producer
    then ring.(available := ring.available + 1, committed := ring.committed + [ring.slots[slot]])
    else ring.(available := ring.available - 1, found := None,
               released := ring.released + [if ring.found.Some? then ring.found.value else ring.slots[slot]])
  }

  /** An acquire hands out the slot the endpoint's index names; the consumer finds a block in it, unless it has found it
      before. */
  function Acquire<T>(ring: Ring<T>, side: Side): Ring<T> {
    if side == Consumer && ring.found.None? && ring.readIndex < |ring.slots|
    then ring.(found := Some(ring.slots[ring.readIndex]))
    else ring
  }

  /** Start. */
  function Reset<T>(ring: Ring<T>): Ring<T> {
    ring.(readIndex := 0, writeIndex := 0, available := 0, stopped := false, committed := [], released := [], found := None)
  }

  /** The ring invariant, with `lr` and `lw` the positions of the first block to read and the next to write. */
  ghost predicate Coherent<T>(ring: Ring<T>, lr: nat, lw: nat) {
    var m := |ring.slots|;
    && lr < m && lw < m && ring.available <= m
    && lw == Wrap(lr + ring.available, m)
    && ring.released <= ring.committed
    && |ring.committed| == |ring.released| + ring.available
    && (forall k | 0 <= k < ring.available && (k > 0 || ring.found.None?) :: Stored(ring, lr, k))
    && (ring.found.Some? ==> ring.available > 0 && ring.found.value == ring.committed[|ring.released|])
  }

  /** The k-th slot from `lr` still holds the k-th block committed and not yet released, as it was committed. Only a block
      the consumer has found may have been changed, by the consumer. */
  ghost predicate Stored<T>(ring: Ring<T>, lr: nat, k: nat)
    requires lr < |ring.slots| && k < |ring.slots| && |ring.released| + k < |ring.committed|
  {
    ring.slots[Wrap(lr + k, |ring.slots|)] == ring.committed[|ring.released| + k]
  }

  lemma SameBlocks<T>(ring: Ring<T>, ring': Ring<T>, lr: nat, lw: nat)
    requires Coherent(ring, lr, lw) && ring'.slots == ring.slots && ring'.available == ring.available
    requires ring'.committed == ring.committed && ring'.released == ring.released && ring'.found == ring.found
    ensures Coherent(ring', lr, lw)
  {
    forall k | 0 <= k < ring'.available && (k > 0 || ring'.found.None?) ensures Stored(ring', lr, k) {
      assert Stored(ring, lr, k);
    }
  }

  /** Writing the next slot while there is room disturbs no committed block. */
  lemma WriteKeeps<T>(ring: Ring<T>, lr: nat, lw: nat, v: T)
    requires Coherent(ring, lr, lw) && Ready(ring, Producer)
    ensures Coherent(ring.(slots := ring.slots[lw := v]), lr, lw)
  {
    var ring' := ring.(slots := ring.slots[lw := v]);
    forall k | 0 <= k < ring'.available && (k > 0 || ring'.found.None?) ensures Stored(ring', lr, k) {
      assert Stored(ring, lr, k);
    }
  }

  lemma CommitKeeps<T>(ring: Ring<T>, lr: nat, lw: nat)
    requires Coherent(ring, lr, lw) && Ready(ring, Producer)
    ensures Coherent(Count(ring, Producer, lw), lr, Wrap(lw + 1, |ring.slots|))
  {
    var ring' := Count(ring, Producer, lw);
    forall k | 0 <= k < ring'.available && (k > 0 || ring'.found.None?) ensures Stored(ring', lr, k) {
      assert k < ring.available ==> Stored(ring, lr, k);
    }
  }

  /** What the consumer finds is the oldest block committed and not yet released, as it was committed. */
  lemma AcquireKeeps<T>(ring: Ring<T>, lr: nat, lw: nat, side: Side)
    requires Coherent(ring, lr, lw) && Ready(ring, side) && (side == Consumer ==> ring.readIndex == lr)
    ensures Coherent(Acquire(ring, side), lr, lw)
    ensures side == Consumer ==> Acquire(ring, side).found == Some(ring.committed[|ring.released|])
  {
    var ring' := Acquire(ring, side);
    if side == Consumer && ring.found.None? { assert Stored(ring, lr, 0); }
    forall k | 0 <= k < ring'.available && (k > 0 || ring'.found.None?) ensures Stored(ring', lr, k) {
      assert Stored(ring, lr, k);
    }
  }

  /** The consumer may change the block it has found: no other waiting block is disturbed. */
  lemma EditKeeps<T>(ring: Ring<T>, lr: nat, lw: nat, v: T)
    requires Coherent(ring, lr, lw) && ring.found.Some?
    ensures Coherent(ring.(slots := ring.slots[lr := v]), lr, lw)
  {
    var ring' := ring.(slots := ring.slots[lr := v]);
    forall k | 0 < k < ring'.available ensures Stored(ring', lr, k) {
      assert Stored(ring, lr, k);
    }
  }

  /** The block released is the oldest one committed and not yet released, as it was committed. */
  lemma ReleaseKeeps<T>(ring: Ring<T>, lr: nat, lw: nat)
    requires Coherent(ring, lr, lw) && Ready(ring, Consumer)
    ensures Coherent(Count(ring, Consumer, lr), Wrap(lr + 1, |ring.slots|), lw)
    ensures ring.found.None? ==> ring.slots[lr] == ring.committed[|ring.released|]
  {
    var ring', lr' := Count(ring, Consumer, lr), Wrap(lr + 1, |ring.slots|);
    assert ring.found.None? ==> Stored(ring, lr, 0);
    forall k | 0 <= k < ring'.available ensures Stored(ring', lr', k) {
      assert Stored(ring, lr, k + 1);
    }
  }
}
