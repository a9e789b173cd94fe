/** The indices of the stream queue: the read index moves when a buffer is taken, the count when it is given back. */
module StreamIndices {
  import opened Modular

  datatype Indices = Indices(n: nat, read: nat, write: nat, count: nat, held: bool) {
    predicate Bounded() {
      read < n && write < n && count <= n && (held ==> count > 0)
    }

    /** The slot of the oldest block counted: the one held, or the next to read. */
    function Oldest(): nat
      requires Bounded()
    {
      if held then Wrap(read + n - 1, n) else read
    }

    /** The slot behind the last block counted. */
    function End(): nat
      requires Bounded()
    {
      Wrap(Oldest() + count, n)
    }

    /** How far the write index lies beyond that; 0 when the indices agree. */
    function Gap(): nat
      requires Bounded()
    {
      Wrap(write + n - End(), n)
    }

    predicate Can(move: Move) {
      match move
      case Put => count < n
      case Take => !held && count > 0
      case Release => held
      case Discard => !held
      case Abandon => held
    }

    function After(move: Move): (ix: Indices)
      requires Bounded() && Can(move)
      ensures ix.Bounded()
    {
      match move
      case Put => this.(write := Wrap(write + 1, n), count := count + 1)
      case Take => this.(read := Wrap(read + 1, n), held := true)
      case Release => this.(count := count - 1, held := false)
      case Discard => this.(read := Wrap(read + count, n), count := 0)
      case Abandon => this.(held := false)
    }

    lemma EndAfter(move: Move)
      requires Bounded() && Can(move)
      ensures After(move).End() == if move == Put || move == Abandon then Wrap(End() + 1, n) else End()
    {
      match move
      case Put =>
      case Take =>
      case Release =>
      case Discard =>
      case Abandon =>
    }

    /** When the indices agree, the next block goes behind those counted, and never into the slot held. */
    lemma WriteIsBehind()
      requires Bounded() && Gap() == 0
      ensures write == Wrap(read + (count - if held then 1 else 0), n)
      ensures held && count < n ==> write != Oldest()
    {
    }

    /** Only an abandoned buffer, held and never given back, moves the indices apart: by one slot. */
    lemma GapAfter(move: Move)
      requires Bounded() && Can(move)
      ensures After(move).Gap() == if move == Abandon then Wrap(Gap() + n - 1, n) else Gap()
    {
      EndAfter(move);
    }
  }

  /** The callback stores a block; readStream takes one, gives it back, or discards all; activateStream in the middle of a
      block abandons it. */
  datatype Move = Put | Take | Release | Discard | Abandon

  ghost predicate IsRun(states: seq<Indices>, moves: seq<Move>) {
    && |states| == |moves| + 1 && states[0].Bounded()
    && forall i | 0 <= i < |moves| ::
         states[i].Bounded() && states[i].Can(moves[i]) && states[i + 1] == states[i].After(moves[i])
  }

  function Abandoned(moves: seq<Move>): nat {
    if moves == [] then 0
    else Abandoned(moves[..|moves| - 1]) + (if moves[|moves| - 1] == Abandon then 1 else 0)
  }

  /** gap and lost make up a whole number of turns. */
  ghost predicate Cancel(gap: nat, lost: nat, n: nat)
    requires n > 0
  {
    (gap + lost) % n == 0
  }

  lemma OneMoreLost(gap: nat, lost: nat, n: nat)
    requires gap < n && Cancel(gap, lost, n)
    ensures Cancel(Wrap(gap + n - 1, n), lost + 1, n)
  {
    var q := (gap + lost) / n;
    assert gap + lost == n * q;
    if gap == 0 {
      assert n - 1 + (lost + 1) == n * (q + 1);
      ModUnique(n - 1 + (lost + 1), n, q + 1, 0);
    }
  }

  lemma NoGap(gap: nat, lost: nat, n: nat)
    requires gap < n && Cancel(gap, lost, n)
    ensures gap == 0 <==> lost % n == 0
  {
    if lost % n == 0 {
      assert lost == n * (lost / n);
      ModUnique(gap + lost, n, lost / n, gap);
    }
  }

  /** From agreeing indices, whatever else happens, they agree again exactly when the number of abandoned buffers is a
      multiple of the number of buffers: once one is abandoned nothing but further ones mends it. */
  lemma AgreeUnlessAbandoned(states: seq<Indices>, moves: seq<Move>, i: nat)
    requires IsRun(states, moves) && states[0].Gap() == 0 && i <= |moves|
    ensures states[i].Bounded() && states[i].n == states[0].n > 0
    ensures states[i].Gap() == 0 <==> Abandoned(moves[..i]) % states[0].n == 0
  {
    GapCounts(states, moves, i);
    NoGap(states[i].Gap(), Abandoned(moves[..i]), states[0].n);
  }

  /** From agreeing indices, gap and abandoned buffers have cancelled each other. */
  ghost predicate Counted(ix: Indices, lost: nat, n: nat) {
    ix.Bounded() && ix.n == n && ix.Gap() < n && Cancel(ix.Gap(), lost, n)
  }

  lemma CountedOn(ix: Indices, move: Move, lost: nat, n: nat)
    requires Counted(ix, lost, n) && ix.Can(move)
    ensures Counted(ix.After(move), lost + (if move == Abandon then 1 else 0), n)
  {
    ix.GapAfter(move);
    if move == Abandon {
      OneMoreLost(ix.Gap(), lost, n);
    }
  }

  lemma AbandonedOn(moves: seq<Move>, i: nat)
    requires 0 < i <= |moves|
    ensures Abandoned(moves[..i]) == Abandoned(moves[..i - 1]) + (if moves[i - 1] == Abandon then 1 else 0)
  {
    assert moves[..i][..i - 1] == moves[..i - 1];
  }

  lemma {:induction false} GapCounts(states: seq<Indices>, moves: seq<Move>, i: nat)
    requires IsRun(states, moves) && states[0].Gap() == 0 && i <= |moves|
    ensures Counted(states[i], Abandoned(moves[..i]), states[0].n)
  {
    if i == 0 {
      ModUnique(0, states[0].n, 0, 0);
    } else {
      GapCounts(states, moves, i - 1);
      CountedOn(states[i - 1], moves[i - 1], Abandoned(moves[..i - 1]), states[0].n);
      AbandonedOn(moves, i);
    }
  }
}
