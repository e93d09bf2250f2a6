/** The three game flags and their five transitions (src/game/state.py). */
module GameStates {
  datatype Flags = Flags(isGameOver: bool, isGameStarted: bool, isBirdFalling: bool)

  /** The flag invariant the game relies on: a falling bird only exists in a game that is over. */
  predicate Consistent(f: Flags) {
    f.isBirdFalling ==> f.isGameOver
  }

  function AllClear(): Flags {
    Flags(false, false, false)
  }

  /** `start_game`: a running game whatever the flags were. */
  function Started(f: Flags): (r: Flags)
    ensures r.isGameStarted && !r.isGameOver && !r.isBirdFalling
  {
    Flags(false, true, false)
  }

  /** `end_game`: over with the bird falling; whether the game had started is kept. */
  function Ended(f: Flags): (r: Flags)
    ensures r.isGameOver && r.isBirdFalling && r.isGameStarted == f.isGameStarted
  {
    f.(isGameOver := true, isBirdFalling := true)
  }

  /** `bird_hit_ground`: only the falling flag is cleared. */
  function Grounded(f: Flags): (r: Flags)
    ensures !r.isBirdFalling && r.isGameOver == f.isGameOver && r.isGameStarted == f.isGameStarted
  {
    f.(isBirdFalling := false)
  }

  /** `reset`: every flag cleared. */
  function Cleared(f: Flags): (r: Flags)
    ensures !r.isGameOver && !r.isGameStarted && !r.isBirdFalling
  {
    AllClear()
  }

  datatype Op = StartOp | EndOp | HitGroundOp | ResetOp

  function Apply(f: Flags, op: Op): Flags {
    match op
    case StartOp => Started(f)
    case EndOp => Ended(f)
    case HitGroundOp => Grounded(f)
    case ResetOp => Cleared(f)
  }

  function ApplyAll(f: Flags, ops: seq<Op>): Flags
    decreases |ops|
  {
    if ops == [] then f else ApplyAll(Apply(f, ops[0]), ops[1..])
  }

  /** Every transition keeps the flag invariant ... */
  lemma ApplyKeepsConsistent(f: Flags, op: Op)
    requires Consistent(f)
    ensures Consistent(Apply(f, op))
  {
  }

  /** ... so it holds after any sequence of operations from a consistent state. */
  lemma {:induction false} ConsistentAfterAnyOps(f: Flags, ops: seq<Op>)
    requires Consistent(f)
    ensures Consistent(ApplyAll(f, ops))
    decreases |ops|
  {
    if ops != [] {
      ApplyKeepsConsistent(f, ops[0]);
      ConsistentAfterAnyOps(Apply(f, ops[0]), ops[1..]);
    }
  }

  /** Every transition is idempotent. */
  lemma ApplyIdempotent(f: Flags, op: Op)
    ensures Apply(Apply(f, op), op) == Apply(f, op)
  {
  }

  class GameState {
    var isGameOver: bool
    var isGameStarted: bool
    var isBirdFalling: bool

    function View(): Flags
      reads this
    {
      Flags(isGameOver, isGameStarted, isBirdFalling)
    }

    /** The constructor clears the three flags and then calls `reset`. */
    constructor ()
      ensures View() == AllClear()
    {
      isGameOver := false;
      isGameStarted := false;
      isBirdFalling := false;
      new;
      Reset();
    }

    method StartGame()
      modifies this
      ensures View() == Started(old(View()))
    {
      isGameStarted := true;
      isGameOver := false;
      isBirdFalling := false;
    }

    method EndGame()
      modifies this
      ensures View() == Ended(old(View()))
    {
      isGameOver := true;
      isBirdFalling := true;
    }

    method BirdHitGround()
      modifies this
      ensures View() == Grounded(old(View()))
    {
      isBirdFalling := false;
    }

    method Reset()
      modifies this
      ensures View() == Cleared(old(View()))
    {
      isGameOver := false;
      isGameStarted := false;
      isBirdFalling := false;
    }
  }
}
