/** What one call of `move` does to the game state: the piece arrives on its
    destination, the pieces it passed over are removed and nothing else
    changes; the turn passes or the piece is pinned for another capture;
    promotion; and the pin never names anything but a piece of the side to
    move. */
module StepFacts {
  import opened Board
  import opened Rules
  import opened RulesFacts
  import opened MoveFacts

  /** `_remove_chips` returns exactly the occupied squares of the path. */
  lemma {:induction false} CapturedExactly(pos: Position, path: seq<Square>, x: Square)
    ensures x in Captured(pos, path) <==> x in path && x in pos
  {
    if path != [] {
      assert path == [path[0]] + path[1..];
      CapturedExactly(pos, path[1..], x);
    }
  }

  /** The piece leaves `o`, arrives on `d` with its colour, the squares
      returned as removed were occupied and are empty now, and every other
      square keeps its piece or stays empty. */
  lemma ApplyMoves(st: State, o: Square, d: Square, jumped: bool)
    requires o in st.pos && d !in st.pos
    ensures var (next, removed) := Apply(st, o, d, jumped);
      o !in next.pos && d in next.pos && next.pos[d].color == st.pos[o].color &&
      (st.pos[o].kind == Queen ==> next.pos[d].kind == Queen) &&
      (!jumped ==> removed == []) &&
      (forall x :: x in removed ==> x in st.pos && x != o && x !in next.pos) &&
      (forall x :: x != o && x != d && x !in removed ==>
        (x in next.pos <==> x in st.pos) && (x in st.pos ==> next.pos[x] == st.pos[x]))
  {
    var (next, removed) := Apply(st, o, d, jumped);
    var path := JumpPath(o, d, jumped);
    var moved := Moved(st, o, d);
    assert o !in path;
    assert next.pos.Keys == Landed(st, o, d, jumped).Keys;
    forall x | x in removed
      ensures x in st.pos && x != o && x !in next.pos
    {
      CapturedExactly(moved, path, x);
    }
    forall x | x != o && x != d && x !in removed
      ensures (x in next.pos <==> x in st.pos) && (x in st.pos ==> next.pos[x] == st.pos[x])
    {
      CapturedExactly(moved, path, x);
    }
  }

  /** A move that does not capture again passes the turn and releases the
      pin; one that captured and leaves the piece able to capture again
      keeps the turn and pins the piece on `d`. */
  lemma ApplyTurn(st: State, o: Square, d: Square, jumped: bool)
    requires o in st.pos && d !in st.pos
    ensures var next := Apply(st, o, d, jumped).0;
      var again := jumped && ChipCanJump(Landed(st, o, d, jumped), st.turn, d);
      (again ==> next.turn == st.turn && next.pin == Some(d)) &&
      (!again ==> next.turn == Opponent(st.turn) && next.pin == None)
  {
  }

  /** Promotion is one-way and happens on `d` only: the piece on `d` is a
      queen exactly when it was one, or `d` lies on the rank the first
      `_promote` call looks at, or the turn passed and `d` lies on the rank
      the second call looks at. */
  lemma ApplyPromotes(st: State, o: Square, d: Square, jumped: bool)
    requires o in st.pos && d !in st.pos
    ensures var next := Apply(st, o, d, jumped).0;
      d in next.pos &&
      (next.pos[d].kind == Queen <==>
        st.pos[o].kind == Queen || Rank(d) == PromotionRank(st.turn) ||
        (next.pin.None? && Rank(d) == PromotionRank(Opponent(st.turn))))
  {
    ApplyMoves(st, o, d, jumped);
  }

  // ---------------------------------------------------------------------
  // move

  /** A legal move: `move` applies it with the capture flag of the piece's
      own moves, and its origin holds a piece of the side to move and its
      destination is empty. */
  lemma StepApplies(st: State, o: Square, d: Square)
    requires (o, d) in AvailableMoves(st)
    ensures o in st.pos && st.pos[o].color == st.turn && d !in st.pos
    ensures (o, d) in ChipMoves(st.pos, st.turn, o).moves
    ensures var r := Step(st, o, d);
      (r.state, r.removed) == Apply(st, o, d, ChipMoves(st.pos, st.turn, o).canJump) &&
      r.status == Status(r.state)
  {
    AvailableFromChip(st, (o, d));
    AvailableDestinations(st, o, d);
  }

  /** The state after a legal move: the piece moved from `o` to `d`, the
      removed squares were occupied and are empty now, a quiet move removes
      nothing, and nothing else changes. */
  lemma StepMoves(st: State, o: Square, d: Square)
    requires (o, d) in AvailableMoves(st)
    ensures var r := Step(st, o, d);
      o in st.pos && o !in r.state.pos && d !in st.pos && d in r.state.pos &&
      r.state.pos[d].color == st.pos[o].color &&
      (st.pos[o].kind == Queen ==> r.state.pos[d].kind == Queen) &&
      (!ChipMoves(st.pos, st.turn, o).canJump ==> r.removed == []) &&
      (forall x :: x in r.removed ==> x in st.pos && x != o && x !in r.state.pos) &&
      (forall x :: x != o && x != d && x !in r.removed ==>
        (x in r.state.pos <==> x in st.pos) && (x in st.pos ==> r.state.pos[x] == st.pos[x]))
  {
    StepApplies(st, o, d);
    ApplyMoves(st, o, d, ChipMoves(st.pos, st.turn, o).canJump);
  }

  /** Turn and pin after a legal move. */
  lemma StepTurn(st: State, o: Square, d: Square)
    requires (o, d) in AvailableMoves(st)
    ensures var r := Step(st, o, d);
      var jumped := ChipMoves(st.pos, st.turn, o).canJump;
      o in st.pos &&
      (r.state.pin.Some? <==> jumped && ChipCanJump(Landed(st, o, d, jumped), st.turn, d)) &&
      (r.state.pin.Some? ==> r.state.pin == Some(d) && r.state.turn == st.turn) &&
      (r.state.pin.None? ==> r.state.turn == Opponent(st.turn))
  {
    StepApplies(st, o, d);
    ApplyTurn(st, o, d, ChipMoves(st.pos, st.turn, o).canJump);
  }

  /** Promotion after a legal move. A soldier is promoted exactly when its
      turn ends on the far rank: white on rank 8, black on rank 1. */
  lemma StepPromotes(st: State, o: Square, d: Square)
    requires (o, d) in AvailableMoves(st)
    ensures var r := Step(st, o, d);
      o in st.pos && d in r.state.pos &&
      (st.pos[o].kind == Soldier ==>
        (r.state.pos[d].kind == Queen <==> r.state.pin.None? && Rank(d) == (if st.turn == White then 7 else 0)))
  {
    StepApplies(st, o, d);
    var jumped := ChipMoves(st.pos, st.turn, o).canJump;
    ApplyPromotes(st, o, d, jumped);
    if st.pos[o].kind == Soldier {
      SoldierAvoidsOwnBackRank(st.pos, st.turn, o, (o, d));
    }
  }

  /** The outcome after a legal move: the side now to move has no move and
      its opponent wins, or the game goes on; never a tie. */
  lemma StepStatus(st: State, o: Square, d: Square)
    requires (o, d) in AvailableMoves(st)
    ensures var r := Step(st, o, d);
      r.status != Tie && r.status != InvalidMove &&
      (r.status == InProgress <==> AvailableMoves(r.state) != {}) &&
      (r.status == WhiteWon <==> AvailableMoves(r.state) == {} && r.state.turn == Black) &&
      (r.status == BlackWon <==> AvailableMoves(r.state) == {} && r.state.turn == White)
  {
    StepApplies(st, o, d);
  }

  // ---------------------------------------------------------------------
  // What a capture removes

  /** A capture along `ray` lands on its i-th square, and every piece on
      the squares before it belongs to the other side; the k-th is one. */
  lemma RayCapture(pos: Position, turn: Color, s: Square, ray: seq<Square>, t: Square) returns (i: nat, k: nat)
    requires RayMoves(pos, turn, s, ray).canJump && (s, t) in RayMoves(pos, turn, s, ray).moves
    ensures k < i < |ray| && ray[i] == t && ray[k] in pos && pos[ray[k]].color != turn
    ensures forall j :: 0 <= j < i && ray[j] in pos ==> pos[ray[j]].color != turn
  {
    k := FirstOccupied(pos, ray, 0);
    var k2 := FirstOccupied(pos, ray, k + 1);
    if (s, t) in MovesTo(s, ray, k + 1, k2) {
      var j :| k + 1 <= j < k2 && (s, ray[j]) == (s, t);
      i := j;
    } else {
      i := k2 + 1;
    }
  }

  /** The captured squares of a move along a ray, when the origin and the
      destination are not themselves on the path, are the occupied ones. */
  lemma CapturedOnRay(st: State, o: Square, dir: Direction, i: nat, x: Square)
    requires o in st.pos && i < |Ray(o, dir)| && Ray(o, dir)[i] !in st.pos
    ensures var path := Ray(o, dir)[..i];
      x in Captured(Moved(st, o, Ray(o, dir)[i]), path) <==> x in path && x in st.pos
  {
    var ray := Ray(o, dir);
    var path := ray[..i];
    CapturedExactly(Moved(st, o, ray[i]), path, x);
    if x in path {
      var j :| 0 <= j < i && ray[j] == x;
      RayAvoidsStart(o, dir, j);
      RayDistinct(o, dir, j, i);
    }
  }

  /** The path of a soldier's capture is the one square it jumps over,
      which holds a piece of the other side. */
  lemma SoldierJumpPath(pos: Position, turn: Color, o: Square, d: Square)
    requires (o, d) in SoldierJumps(pos, turn, o)
    ensures var mid := (o + d) / 2;
      0 <= mid < 64 && JumpPath(o, d, true) == [mid as Square] && mid != o && mid != d &&
      mid as Square in pos && pos[mid as Square].color != turn
  {
    var dir :| dir in SoldierDirections(turn) && SoldierJumpsToward(pos, turn, o, dir) &&
      (o, d) == (o, NextNeighbor(o, dir).value);
    var ray := Ray(o, dir);
    TwoStepsTo(o, dir, d);
    RayAt(o, dir, 1);
    DirectionOfMoveOnRay(o, dir, 1);
    PathAlongRay(o, dir, 1);
    RayAvoidsStart(o, dir, 0);
    RayDistinct(o, dir, 0, 1);
  }

  /** A soldier's capture removes exactly the piece it jumps over. */
  lemma SoldierCaptureRemoves(st: State, o: Square, d: Square)
    requires (o, d) in AvailableMoves(st)
    requires o in st.pos && st.pos[o].kind == Soldier && ChipMoves(st.pos, st.turn, o).canJump
    ensures var mid := (o + d) / 2;
      0 <= mid < 64 && Step(st, o, d).removed == [mid as Square] &&
      mid as Square in st.pos && st.pos[mid as Square].color != st.turn
  {
    StepApplies(st, o, d);
    SoldierJumpPath(st.pos, st.turn, o, d);
    var mid := ((o + d) / 2) as Square;
    assert mid in Moved(st, o, d);
    assert Captured(Moved(st, o, d), [mid]) == [mid];
  }

  /** A queen's capture removes at least one piece, and only pieces of the
      other side, unless it is the capture h8 -> a1, whose path comes out
      empty (Board.DirectionOfLongDiagonalDown). */
  lemma QueenCaptureRemoves(st: State, o: Square, d: Square)
    requires (o, d) in AvailableMoves(st) && !(o == 63 && d == 0)
    requires o in st.pos && st.pos[o].kind == Queen && ChipMoves(st.pos, st.turn, o).canJump
    ensures Step(st, o, d).removed != []
    ensures forall x :: x in Step(st, o, d).removed ==> x in st.pos && st.pos[x].color != st.turn
  {
    StepApplies(st, o, d);
    QueenMovesExactly(st.pos, st.turn, o, (o, d));
    var dir :| dir in QueenDirections && (o, d) in QueenRay(st.pos, st.turn, o, dir).moves &&
      QueenRay(st.pos, st.turn, o, dir).canJump;
    var ray := Ray(o, dir);
    var i, k := RayCapture(st.pos, st.turn, o, ray, d);
    DirectionOfMoveOnRay(o, dir, i);
    PathAlongRay(o, dir, i);
    assert JumpPath(o, d, true) == ray[..i];
    var removed := Step(st, o, d).removed;
    CapturedOnRay(st, o, dir, i, ray[k]);
    assert ray[k] in removed;
    forall x | x in removed
      ensures x in st.pos && st.pos[x].color != st.turn
    {
      CapturedOnRay(st, o, dir, i, x);
    }
  }

  /** Every capture removes at least one piece, and only pieces of the
      other side, except a queen's capture h8 -> a1. */
  lemma StepCapturesRivals(st: State, o: Square, d: Square)
    requires (o, d) in AvailableMoves(st) && ChipMoves(st.pos, st.turn, o).canJump && !(o == 63 && d == 0)
    ensures Step(st, o, d).removed != []
    ensures forall x :: x in Step(st, o, d).removed ==> x in st.pos && st.pos[x].color != st.turn
  {
    StepApplies(st, o, d);
    if st.pos[o].kind == Soldier {
      SoldierCaptureRemoves(st, o, d);
    } else {
      QueenCaptureRemoves(st, o, d);
    }
  }

  // ---------------------------------------------------------------------
  // The pin

  /** The pin, when set, names a piece of the side to move. */
  predicate PinHeld(st: State)
  {
    st.pin.Some? ==> st.pin.value in st.pos && st.pos[st.pin.value].color == st.turn
  }

  lemma InitialPinHeld()
    ensures PinHeld(InitialState())
  {
  }

  /** Every call of `move` keeps the pin on a piece of the side to move. */
  lemma StepKeepsPin(st: State, o: Square, d: Square)
    requires PinHeld(st)
    ensures PinHeld(Step(st, o, d).state)
  {
    if (o, d) in AvailableMoves(st) {
      StepMoves(st, o, d);
      StepTurn(st, o, d);
    }
  }
}
