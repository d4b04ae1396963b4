/** Concrete positions: the opening layout and white's opening moves, a
    forced capture that wins the game, a capture chain that pins the
    capturing soldier, and the queen capture h8 -> a1, which removes
    nothing. */
module Scenarios {
  import opened Board
  import opened Rules
  import opened RulesFacts
  import opened MoveFacts
  import opened StepFacts

  /** The starting squares of each side. */
  const WhiteStart: set<Square> := {0, 2, 9, 16, 18, 25, 32, 34, 41, 48, 50, 57}
  const BlackStart: set<Square> := {6, 13, 15, 22, 29, 31, 38, 45, 47, 54, 61, 63}

  lemma WhiteStartCard()
    ensures |WhiteStart| == 12 && forall s :: s in WhiteStart ==> Rank(s) <= 2
  {
  }

  lemma BlackStartCard()
    ensures |BlackStart| == 12 && forall s :: s in BlackStart ==> Rank(s) >= 5
  {
  }

  /** Two sets of squares on different ranks have no square in common. */
  lemma RanksApart(a: set<Square>, b: set<Square>)
    requires forall s :: s in a ==> Rank(s) <= 2
    requires forall s :: s in b ==> Rank(s) >= 5
    ensures |a + b| == |a| + |b|
  {
    assert a * b == {};
  }

  /** Which squares hold a piece of each side at the start. */
  lemma StartSquare(s: Square)
    ensures (IsStartSquare(s) && StartColor(s) == White) <==> s in WhiteStart
    ensures (IsStartSquare(s) && StartColor(s) == Black) <==> s in BlackStart
  {
    SquareOfFileRank(s);
    var f := File(s);
    if f == 0 {
    } else if f == 1 {
    } else if f == 2 {
    } else if f == 3 {
    } else if f == 4 {
    } else if f == 5 {
    } else if f == 6 {
    } else {
    }
  }

  /** The opening layout: twelve white soldiers on the dark squares of ranks
      1-3 and twelve black soldiers on those of ranks 6-8, 24 in all. */
  lemma InitialLayout()
    ensures forall s :: s in InitialPosition() ==> InitialPosition()[s].kind == Soldier
    ensures forall s :: s in InitialPosition() && InitialPosition()[s].color == White <==> s in WhiteStart
    ensures forall s :: s in InitialPosition() && InitialPosition()[s].color == Black <==> s in BlackStart
    ensures |WhiteStart| == 12 && |BlackStart| == 12 && |InitialPosition()| == 24
  {
    forall s: Square
      ensures s in InitialPosition() && InitialPosition()[s].color == White <==> s in WhiteStart
      ensures s in InitialPosition() && InitialPosition()[s].color == Black <==> s in BlackStart
    {
      StartSquare(s);
    }
    WhiteStartCard();
    BlackStartCard();
    RanksApart(WhiteStart, BlackStart);
    assert InitialPosition().Keys == WhiteStart + BlackStart;
  }

  // ---------------------------------------------------------------------
  // White's opening moves

  const OpeningMoves: set<Move> := {(2, 11), (18, 11), (18, 27), (34, 27), (34, 43), (50, 43), (50, 59)}

  /** No piece can capture at the start: the square in front of a white
      soldier is on rank 4 at most, and black soldiers stand on rank 6 and
      beyond. */
  lemma NoCaptureAtStart(s: Square)
    ensures !ChipMoves(InitialPosition(), White, s).canJump
  {
  }

  /** The quiet moves of one white soldier at the start. */
  lemma OpeningStep(s: Square, t: Square)
    requires s in WhiteStart
    ensures ForwardStep(InitialPosition(), White, s, t) <==> (s, t) in OpeningMoves
  {
    SquareOfFileRank(s);
    SquareOfFileRank(t);
    StartSquare(t);
  }

  /** White's seven opening moves: each soldier on rank 3 steps to rank 4;
      every other soldier is blocked. */
  lemma OpeningMovesExactly()
    ensures AvailableMoves(InitialState()) == OpeningMoves
  {
    var st := InitialState();
    forall m
      ensures m in AvailableMoves(st) <==> m in OpeningMoves
    {
      MandatoryCapture(st, m);
      NoCaptureAtStart(m.0);
      StartSquare(m.0);
      SoldierStepsExactly(st.pos, White, m.0, m);
      if m.0 in WhiteStart {
        OpeningStep(m.0, m.1);
      }
    }
  }

  // ---------------------------------------------------------------------
  // A forced capture that ends the game

  const WhiteSoldier := Piece(White, Soldier)
  const BlackSoldier := Piece(Black, Soldier)

  /** Clearing a path of one square removes that square. */
  lemma ClearOne(pos: Position, x: Square)
    ensures ClearPath(pos, [x]) == pos - {x}
  {
  }

  /** White soldiers on a1 and c3, a black soldier on d4, white to move. */
  const ForcedPos: Position := map[0 := WhiteSoldier, 18 := WhiteSoldier, 27 := BlackSoldier]
  const ForcedState := State(ForcedPos, White, None)

  /** The soldier on a1 has no capture. */
  lemma ForcedNoOtherCapture()
    ensures !ChipMoves(ForcedPos, White, 0).canJump
  {
    forall m
      ensures m !in SoldierJumps(ForcedPos, White, 0)
    {
      SoldierJumpsExactly(ForcedPos, White, 0, m);
      SquareOfFileRank(m.1);
    }
    assert SoldierJumps(ForcedPos, White, 0) == {};
  }

  /** The soldier on c3 captures d4, landing on e5, and has no other
      capture. */
  lemma ForcedJump(m: Move)
    ensures m in SoldierJumps(ForcedPos, White, 18) <==> m == (18, 36)
  {
    SoldierJumpsExactly(ForcedPos, White, 18, m);
    SquareOfFileRank(m.1);
  }

  /** The capture c3 x e5 is white's only move: the quiet moves a1-b2,
      c3-b4 and c3-d4 are dropped. */
  lemma ForcedCaptureOnly()
    ensures AvailableMoves(ForcedState) == {(18, 36)}
    ensures ChipMoves(ForcedPos, White, 18).canJump
  {
    ForcedJump((18, 36));
    ForcedNoOtherCapture();
    forall m
      ensures m in AvailableMoves(ForcedState) <==> m == (18, 36)
    {
      MandatoryCapture(ForcedState, m);
      assert 18 in ForcedState.pos && ChipMoves(ForcedState.pos, White, 18).canJump;
      if m in AvailableMoves(ForcedState) {
        assert m.0 == 18;
      }
      ForcedJump(m);
    }
  }

  /** `move(a1, b2)` is refused and changes nothing. */
  lemma ForcedQuietRefused()
    ensures Step(ForcedState, 0, 9) == StepResult(ForcedState, InvalidMove, [])
  {
    ForcedCaptureOnly();
  }

  /** The position after c3 x e5. */
  const ForcedLeft: Position := map[0 := WhiteSoldier, 36 := WhiteSoldier]

  /** After c3 x e5 only the soldiers on a1 and e5 are left. */
  lemma ForcedLanded()
    ensures Landed(ForcedState, 18, 36, true) == ForcedLeft
    ensures Captured(Moved(ForcedState, 18, 36), JumpPath(18, 36, true)) == [27]
  {
    ForwardJumpIsSoldierJump(ForcedPos, White, 18, 36);
    SoldierJumpPath(ForcedPos, White, 18, 36);
    var moved := Moved(ForcedState, 18, 36);
    assert moved == map[0 := WhiteSoldier, 27 := BlackSoldier, 36 := WhiteSoldier];
    ClearOne(moved, 27);
  }

  /** The soldier on e5 has nothing left to capture, and black, without
      pieces, has no move. */
  lemma ForcedChainEnds()
    ensures !ChipCanJump(ForcedLeft, White, 36)
    ensures AvailableMoves(State(ForcedLeft, Black, None)) == {}
    ensures PromoteAt(ForcedLeft, Black, 36) == ForcedLeft
  {
    forall m
      ensures m !in AvailableMoves(State(ForcedLeft, Black, None))
    {
      MandatoryCapture(State(ForcedLeft, Black, None), m);
    }
  }

  /** c3 x e5 removes d4, and black, left without pieces, has lost. */
  lemma ForcedCaptureWins()
    ensures Step(ForcedState, 18, 36) == StepResult(State(ForcedLeft, Black, None), WhiteWon, [27])
  {
    ForcedCaptureOnly();
    StepApplies(ForcedState, 18, 36);
    ForcedLanded();
    ForcedChainEnds();
  }

  // ---------------------------------------------------------------------
  // A capture chain

  /** A white soldier on a1, black soldiers on b2 and d4, white to move. */
  const ChainPos: Position := map[0 := WhiteSoldier, 9 := BlackSoldier, 27 := BlackSoldier]
  const ChainState := State(ChainPos, White, None)
  /** The position after a1 x c3, with the capturing soldier pinned. */
  const ChainLeft: Position := map[18 := WhiteSoldier, 27 := BlackSoldier]
  const ChainNext := State(ChainLeft, White, Some(18))

  lemma ChainCaptureAvailable()
    ensures (0, 18) in AvailableMoves(ChainState)
    ensures ChipMoves(ChainPos, White, 0).canJump
  {
    ForwardJumpIsSoldierJump(ChainPos, White, 0, 18);
    MandatoryCapture(ChainState, (0, 18));
  }

  lemma ChainLanded()
    ensures Landed(ChainState, 0, 18, true) == ChainLeft
    ensures Captured(Moved(ChainState, 0, 18), JumpPath(0, 18, true)) == [9]
  {
    ForwardJumpIsSoldierJump(ChainPos, White, 0, 18);
    SoldierJumpPath(ChainPos, White, 0, 18);
    var moved := Moved(ChainState, 0, 18);
    assert moved == map[9 := BlackSoldier, 18 := WhiteSoldier, 27 := BlackSoldier];
    ClearOne(moved, 9);
  }

  /** From c3 the soldier can capture d4 landing on e5, and nothing else. */
  lemma ChainNextMoves()
    ensures ChipCanJump(ChainLeft, White, 18)
    ensures AvailableMoves(ChainNext) == {(18, 36)}
  {
    ForwardJumpIsSoldierJump(ChainLeft, White, 18, 36);
    forall m
      ensures m in AvailableMoves(ChainNext) <==> m == (18, 36)
    {
      SoldierJumpsExactly(ChainLeft, White, 18, m);
      SquareOfFileRank(m.1);
    }
  }

  /** After a1 x c3 the soldier can capture again, so white keeps the turn,
      the soldier on c3 is pinned, and its capture c3 x e5 is the only
      move. */
  lemma ChainPins()
    ensures (0, 18) in AvailableMoves(ChainState)
    ensures Step(ChainState, 0, 18) == StepResult(ChainNext, InProgress, [9])
    ensures AvailableMoves(ChainNext) == {(18, 36)}
  {
    ChainCaptureAvailable();
    StepApplies(ChainState, 0, 18);
    ChainLanded();
    ChainNextMoves();
  }

  // ---------------------------------------------------------------------
  // The capture h8 -> a1

  /** A white queen on h8 and a black soldier on g7, white to move. */
  const DiagonalPos: Position := map[63 := Piece(White, Queen), 54 := BlackSoldier]
  const DiagonalState := State(DiagonalPos, White, None)

  /** Down the long diagonal the queen meets g7 first and then five empty
      squares, so she may capture landing on any of them, a1 included. */
  lemma DiagonalRayCaptures()
    ensures QueenRay(DiagonalPos, White, 63, BtmLeft).canJump
    ensures (63, 0) in QueenRay(DiagonalPos, White, 63, BtmLeft).moves
  {
    DirectionOfLongDiagonalDown();
    var ray := Ray(63, BtmLeft);
    assert FirstOccupied(DiagonalPos, ray, 0) == 0;
    assert FirstOccupied(DiagonalPos, ray, 1) == 7;
    assert (63, ray[6]) in MovesTo(63, ray, 1, 7);
  }

  lemma DiagonalCaptureAvailable()
    ensures (63, 0) in AvailableMoves(DiagonalState)
    ensures ChipMoves(DiagonalPos, White, 63).canJump
  {
    DiagonalRayCaptures();
    QueenMovesExactly(DiagonalPos, White, 63, (63, 0));
    MandatoryCapture(DiagonalState, (63, 0));
  }

  /** The queen may capture g7 landing on a1, but `_direction_of_move`
      decodes h8 -> a1 as top_left, so the capture removes nothing and the
      soldier on g7 stays on the board. */
  lemma LongDiagonalCaptureRemovesNothing()
    ensures (63, 0) in AvailableMoves(DiagonalState)
    ensures Step(DiagonalState, 63, 0).removed == []
    ensures 54 in Step(DiagonalState, 63, 0).state.pos
  {
    DiagonalCaptureAvailable();
    StepMoves(DiagonalState, 63, 0);
    DirectionOfLongDiagonalDown();
    assert JumpPath(63, 0, true) == [];
  }
}
