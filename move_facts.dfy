/** Where the move generators of module Rules send a piece, stated in terms
    of files and ranks, and the mandatory-capture and pinning rules of
    `available_moves`. */
module MoveFacts {
  import opened Board
  import opened Rules
  import opened RulesFacts

  /** The rank step of a soldier of colour `turn`: white soldiers advance
      toward rank 8, black ones toward rank 1. */
  function Forward(turn: Color): int
  {
    if turn == White then 1 else -1
  }

  /** A quiet soldier move from `s` to `t`: one rank forward, one file to
      either side, onto an empty square. */
  predicate ForwardStep(pos: Position, turn: Color, s: Square, t: Square)
  {
    Rank(t) == Rank(s) + Forward(turn) && (File(t) == File(s) + 1 || File(t) == File(s) - 1) && t !in pos
  }

  /** A soldier capture from `s` to `t`: two ranks forward, two files to
      either side, onto an empty square, over a piece of the other side. */
  predicate ForwardJump(pos: Position, turn: Color, s: Square, t: Square)
  {
    Rank(t) == Rank(s) + 2 * Forward(turn) && (File(t) == File(s) + 2 || File(t) == File(s) - 2) && t !in pos &&
    var mid := (s + t) / 2;
    0 <= mid < 64 && mid as Square in pos && pos[mid as Square].color != turn
  }

  /** The direction among a soldier's two forward ones whose file step is
      `fileStep`. */
  function ForwardDirection(turn: Color, fileStep: int): (d: Direction)
    ensures d in SoldierDirections(turn)
    ensures RankStep(d) == Forward(turn)
    ensures fileStep == 1 ==> FileStep(d) == 1
    ensures fileStep == -1 ==> FileStep(d) == -1
  {
    if turn == White then (if fileStep == 1 then TopRight else TopLeft)
    else (if fileStep == 1 then BtmRight else BtmLeft)
  }

  lemma SoldierDirectionsForward(turn: Color, d: Direction)
    requires d in SoldierDirections(turn)
    ensures RankStep(d) == Forward(turn)
  {
  }

  /** A square one file step and one rank step of `d` away from `s` is the
      neighbour of `s` in direction `d`. */
  lemma NeighborAt(s: Square, d: Direction, t: Square)
    requires File(t) == File(s) + FileStep(d) && Rank(t) == Rank(s) + RankStep(d)
    ensures Neighbor(s, d) == Some(t)
  {
    SquareOfFileRank(s);
    SquareOfFileRank(t);
  }

  /** `_soldier_available_regular_moves` finds exactly the forward steps. */
  lemma SoldierStepsExactly(pos: Position, turn: Color, s: Square, m: Move)
    ensures m in SoldierRegularMoves(pos, turn, s) <==> m.0 == s && ForwardStep(pos, turn, s, m.1)
  {
    if m in SoldierRegularMoves(pos, turn, s) {
      var d :| d in SoldierDirections(turn) && SoldierStepsToward(pos, s, d) && m == (s, Neighbor(s, d).value);
      SoldierDirectionsForward(turn, d);
    }
    if m.0 == s && ForwardStep(pos, turn, s, m.1) {
      var d := ForwardDirection(turn, File(m.1) - File(s));
      NeighborAt(s, d, m.1);
      assert SoldierStepsToward(pos, s, d);
    }
  }

  /** Two diagonal steps from `s` in direction `d` lead to `t` exactly when
      the files and ranks differ by two steps; the square jumped over lies
      halfway. */
  lemma TwoStepsTo(s: Square, d: Direction, t: Square)
    ensures NextNeighbor(s, d) == Some(t) <==>
      File(t) == File(s) + 2 * FileStep(d) && Rank(t) == Rank(s) + 2 * RankStep(d)
    ensures NextNeighbor(s, d) == Some(t) ==> Neighbor(s, d).Some? && Neighbor(s, d).value == (s + t) / 2
  {
    SquareOfFileRank(s);
    SquareOfFileRank(t);
    if File(t) == File(s) + 2 * FileStep(d) && Rank(t) == Rank(s) + 2 * RankStep(d) {
      var mid := 8 * (File(s) + FileStep(d)) + Rank(s) + RankStep(d);
      assert 0 <= mid < 64;
      SquareOfFileRank(mid);
      NeighborAt(s, d, mid);
      NeighborAt(mid, d, t);
    }
  }

  lemma SoldierJumpIsForward(pos: Position, turn: Color, s: Square, m: Move)
    requires m in SoldierJumps(pos, turn, s)
    ensures m.0 == s && ForwardJump(pos, turn, s, m.1)
  {
    var d :| d in SoldierDirections(turn) && SoldierJumpsToward(pos, turn, s, d) && m == (s, NextNeighbor(s, d).value);
    SoldierDirectionsForward(turn, d);
    TwoStepsTo(s, d, m.1);
    var mid := Neighbor(s, d).value;
    assert mid == (s + m.1) / 2 && mid in pos && pos[mid].color != turn;
    assert Rank(m.1) == Rank(s) + 2 * Forward(turn);
  }

  lemma ForwardJumpIsSoldierJump(pos: Position, turn: Color, s: Square, t: Square)
    requires ForwardJump(pos, turn, s, t)
    ensures (s, t) in SoldierJumps(pos, turn, s)
  {
    var d := ForwardDirection(turn, (File(t) - File(s)) / 2);
    TwoStepsTo(s, d, t);
    assert SoldierJumpsToward(pos, turn, s, d);
  }

  /** `_soldier_available_jumps` finds exactly the forward captures. */
  lemma SoldierJumpsExactly(pos: Position, turn: Color, s: Square, m: Move)
    ensures m in SoldierJumps(pos, turn, s) <==> m.0 == s && ForwardJump(pos, turn, s, m.1)
  {
    if m in SoldierJumps(pos, turn, s) {
      SoldierJumpIsForward(pos, turn, s, m);
    }
    if m.0 == s && ForwardJump(pos, turn, s, m.1) {
      ForwardJumpIsSoldierJump(pos, turn, s, m.1);
    }
  }

  /** A soldier never moves onto the rank the first `_promote` call of
      `move` looks at (its own back rank), so that call never promotes a
      soldier. */
  lemma SoldierAvoidsOwnBackRank(pos: Position, turn: Color, s: Square, m: Move)
    requires m in SoldierMoves(pos, turn, s).moves
    ensures Rank(m.1) != PromotionRank(turn)
  {
    SoldierStepsExactly(pos, turn, s, m);
    SoldierJumpsExactly(pos, turn, s, m);
  }

  // ---------------------------------------------------------------------
  // Queens

  /** Across the four directions, the queen can capture exactly when it can
      capture in some direction, and then her moves are the captures of all
      such directions; otherwise they are the quiet moves of all four. */
  lemma QueenMovesExactly(pos: Position, turn: Color, s: Square, m: Move)
    ensures QueenMoves(pos, turn, s).canJump <==> exists d :: d in QueenDirections && QueenRay(pos, turn, s, d).canJump
    ensures m in QueenMoves(pos, turn, s).moves <==>
      exists d :: d in QueenDirections && m in QueenRay(pos, turn, s, d).moves &&
        (QueenMoves(pos, turn, s).canJump ==> QueenRay(pos, turn, s, d).canJump)
  {
    var sets := QueenRays(pos, turn, s, |QueenDirections|);
    QueenRaysAll(pos, turn, s, |QueenDirections|);
    if exists d :: d in QueenDirections && QueenRay(pos, turn, s, d).canJump {
      var d :| d in QueenDirections && QueenRay(pos, turn, s, d).canJump;
      assert QueenRay(pos, turn, s, d) in sets;
    }
    if QueenMoves(pos, turn, s).canJump {
      var x :| x in sets && x.canJump;
      QueenRaysMember(pos, turn, s, |QueenDirections|, x);
    }
    if m in QueenMoves(pos, turn, s).moves {
      var x :| x in sets && (QueenMoves(pos, turn, s).canJump ==> x.canJump) && m in x.moves;
      QueenRaysMember(pos, turn, s, |QueenDirections|, x);
    }
  }

  /** Every direction's result is among the folded ones. */
  lemma {:induction false} QueenRaysAll(pos: Position, turn: Color, s: Square, n: nat)
    requires n <= |QueenDirections|
    ensures forall i :: 0 <= i < n ==> QueenRay(pos, turn, s, QueenDirections[i]) in QueenRays(pos, turn, s, n)
  {
    if n > 0 {
      QueenRaysAll(pos, turn, s, n - 1);
    }
  }

  // ---------------------------------------------------------------------
  // available_moves

  /** While a capture chain is unfinished only the pinned piece moves. */
  lemma PinnedMoves(st: State, m: Move)
    requires st.pin.Some? && m in AvailableMoves(st)
    ensures m.0 == st.pin.value && m in ChipMoves(st.pos, st.turn, m.0).moves
  {
    ChipMovesFrom(st.pos, st.turn, st.pin.value);
  }

  /** Mandatory capture: without a pin, a move is available exactly when it
      is one of its piece's moves and, if any piece of the side to move can
      capture, that piece's moves are captures. */
  lemma MandatoryCapture(st: State, m: Move)
    requires st.pin.None?
    ensures m in AvailableMoves(st) <==>
      m.0 in st.pos && m in ChipMoves(st.pos, st.turn, m.0).moves &&
      ((exists s :: s in st.pos && ChipMoves(st.pos, st.turn, s).canJump) ==> ChipMoves(st.pos, st.turn, m.0).canJump)
  {
    var sets := set s | s in st.pos :: ChipMoves(st.pos, st.turn, s);
    var jump := exists x :: x in sets && x.canJump;
    assert jump <==> exists s :: s in st.pos && ChipMoves(st.pos, st.turn, s).canJump by {
      if jump {
        var x :| x in sets && x.canJump;
        var s :| s in st.pos && x == ChipMoves(st.pos, st.turn, s);
      }
    }
    if m in AvailableMoves(st) {
      var x :| x in sets && (jump ==> x.canJump) && m in x.moves;
      var s :| s in st.pos && x == ChipMoves(st.pos, st.turn, s);
      ChipMovesFrom(st.pos, st.turn, s);
    }
    if m.0 in st.pos && m in ChipMoves(st.pos, st.turn, m.0).moves && (jump ==> ChipMoves(st.pos, st.turn, m.0).canJump) {
      assert ChipMoves(st.pos, st.turn, m.0) in sets;
    }
  }

  /** Every available move is a move of the piece on its origin. */
  lemma AvailableFromChip(st: State, m: Move)
    requires m in AvailableMoves(st)
    ensures m.0 in st.pos && st.pos[m.0].color == st.turn && m in ChipMoves(st.pos, st.turn, m.0).moves
  {
    AvailableOrigins(st, m.0, m.1);
    if st.pin.Some? {
      PinnedMoves(st, m);
    } else {
      MandatoryCapture(st, m);
    }
  }
}
