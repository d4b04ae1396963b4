/** The `Chip` token and the `Model` game state of checkers/model.py, as
    classes whose methods update their fields in place. Every query method is
    proved to return the corresponding function of module Rules applied to the
    model's snapshot, and `Move` to perform Rules.Step on it. */
module Checkers {
  import opened Board
  import opened Rules
  import opened RulesFacts
  import opened StepFacts

  /** A piece: its colour never changes, its type changes once, on promotion. */
  class Chip {
    const color: Color
    var kind: Kind

    constructor (color: Color)
      ensures this.color == color && kind == Soldier
    {
      this.color := color;
      kind := Soldier;
    }

    method Promote()
      modifies this
      ensures kind == Queen
    {
      kind := Queen;
    }
  }

  class Model {
    /** The contents of the gameboard, indexed by square. */
    var board: array<Chip?>
    /** The `chips` dictionary: the same Chip objects, keyed by square. */
    var chips: map<Square, Chip>
    var turn: Color
    /** `_current_chip`: the chip that must go on capturing, if any. */
    var currentChip: Option<Square>

    /** The board and the dictionary hold the same chips on the same squares,
        and no chip stands on two squares. */
    ghost predicate Valid()
      reads this`board, this`chips, board
    {
      board.Length == 64 &&
      (forall s: Square :: s in chips <==> board[s] != null) &&
      (forall s :: s in chips ==> board[s] == chips[s]) &&
      (forall s, t :: s in chips && t in chips && s != t ==> chips[s] != chips[t])
    }

    /** The pieces as values. */
    ghost function Pos(): Position
      reads this`chips, chips.Values
    {
      map s | s in chips :: Piece(chips[s].color, chips[s].kind)
    }

    ghost function Snapshot(): Rules.State
      reads this, chips.Values
    {
      Rules.State(Pos(), turn, currentChip)
    }

    /** The board shows the pieces `pos`: a square is empty exactly when
        `pos` has no piece there, and otherwise holds a chip of that piece's
        colour. */
    ghost predicate Shows(pos: Position)
      reads this`board, board
    {
      board.Length == 64 &&
      forall s: Square :: (board[s] == null <==> s !in pos) &&
        (board[s] != null ==> board[s].color == pos[s].color)
    }

    lemma ShowsPos()
      requires Valid()
      ensures Shows(Pos())
    {
    }

    /** The snapshot is determined square by square. */
    lemma PosIs(p: Position)
      requires forall s :: s in chips <==> s in p
      requires forall s :: s in chips ==> chips[s].color == p[s].color && chips[s].kind == p[s].kind
      ensures Pos() == p
    {
      assert Pos().Keys == p.Keys;
      forall s | s in p
        ensures Pos()[s] == p[s]
      {
        assert Pos()[s] == Piece(chips[s].color, chips[s].kind);
      }
    }

    // -------------------------------------------------------------------
    // Initial layout

    /** `__init__`. */
    constructor ()
      ensures Valid() && fresh(board)
      ensures forall s :: s in chips ==> fresh(chips[s])
      ensures Snapshot() == InitialState()
    {
      board := new Chip?[0];
      new;
      NewGame();
    }

    /** `new_game`: the body of `__init__`, run again on this object. */
    method NewGame()
      modifies this
      ensures Valid() && fresh(board)
      ensures forall s :: s in chips ==> fresh(chips[s])
      ensures Snapshot() == InitialState()
    {
      var cs := StartingChips();
      var b := BoardOf(cs);
      chips, board := cs, b;
      turn := White;
      currentChip := None;
      PosIs(InitialPosition());
    }

    /** The dictionary literal of `new_game`: one new soldier on each
        starting square. */
    static method StartingChips() returns (cs: map<Square, Chip>)
      ensures forall s: Square :: s in cs <==> IsStartSquare(s)
      ensures forall s :: s in cs ==> fresh(cs[s]) && cs[s].color == StartColor(s) && cs[s].kind == Soldier
      ensures forall s, t :: s in cs && t in cs && s != t ==> cs[s] != cs[t]
    {
      cs := map[];
      for i := 0 to 64
        invariant forall s: Square :: s in cs <==> IsStartSquare(s) && s < i
        invariant forall s :: s in cs ==> fresh(cs[s]) && cs[s].color == StartColor(s) && cs[s].kind == Soldier
        invariant forall s, t :: s in cs && t in cs && s != t ==> cs[s] != cs[t]
      {
        if IsStartSquare(i) {
          var chip := new Chip(StartColor(i));
          cs := cs[i := chip];
        }
      }
    }

    /** A new board holding the chips `cs`:
        `for k in self.chips.keys(): self.board.set_content(k, self.chips[k])`. */
    static method BoardOf(cs: map<Square, Chip>) returns (b: array<Chip?>)
      ensures fresh(b) && b.Length == 64
      ensures forall s: Square :: b[s] == if s in cs then cs[s] else null
    {
      b := new Chip?[64](_ => null);
      var keys := cs.Keys;
      while keys != {}
        invariant keys <= cs.Keys
        invariant forall s: Square :: b[s] == if s in cs && s !in keys then cs[s] else null
        modifies b
        decreases keys
      {
        var k :| k in keys;
        b[k] := cs[k];
        keys := keys - {k};
      }
    }

    // -------------------------------------------------------------------
    // Neighbour and enemy helpers

    /** `_enemy_in_neighbor`, read from the board. */
    predicate EnemyInNeighbor(square: Square, direction: Direction)
      reads this, board
      requires Valid()
    {
      var neighbor := Neighbor(square, direction);
      neighbor.Some? && board[neighbor.value] != null && board[neighbor.value].color != turn
    }

    /** Read from the board, `_enemy_in_neighbor` is the rule on the snapshot. */
    lemma EnemyInNeighborOnBoard(square: Square, direction: Direction)
      requires Valid()
      ensures EnemyInNeighbor(square, direction) <==> Rules.EnemyInNeighbor(Pos(), turn, square, direction)
    {
      ShowsPos();
    }

    // -------------------------------------------------------------------
    // Soldiers

    /** `_soldier_available_jumps`. */
    method SoldierAvailableJumps(square: Square) returns (jumps: set<Move>)
      requires Valid()
      ensures jumps == SoldierJumps(Pos(), turn, square)
    {
      ShowsPos();
      var directions := SoldierDirections(turn);
      jumps := {};
      for i := 0 to |directions|
        invariant jumps == set d | d in directions[..i] && SoldierJumpsToward(Pos(), turn, square, d) :: (square, NextNeighbor(square, d).value)
      {
        var direction := directions[i];
        assert directions[..i + 1] == directions[..i] + [direction];
        EnemyInNeighborOnBoard(square, direction);
        if EnemyInNeighbor(square, direction) {
          var nextNeighbor := NextNeighbor(square, direction);
          if nextNeighbor.Some? && board[nextNeighbor.value] == null {
            jumps := jumps + {(square, nextNeighbor.value)};
          }
        }
      }
      assert directions[..|directions|] == directions;
    }

    /** `_soldier_available_regular_moves`. */
    method SoldierAvailableRegularMoves(square: Square) returns (moves: set<Move>)
      requires Valid()
      ensures moves == SoldierRegularMoves(Pos(), turn, square)
    {
      ShowsPos();
      var directions := SoldierDirections(turn);
      moves := {};
      for i := 0 to |directions|
        invariant moves == set d | d in directions[..i] && SoldierStepsToward(Pos(), square, d) :: (square, Neighbor(square, d).value)
      {
        var direction := directions[i];
        assert directions[..i + 1] == directions[..i] + [direction];
        var neighbor := Neighbor(square, direction);
        if neighbor.Some? && board[neighbor.value] == null {
          moves := moves + {(square, neighbor.value)};
        }
      }
      assert directions[..|directions|] == directions;
    }

    /** `_soldier_can_jump`. */
    method SoldierCanJump(square: Square) returns (b: bool)
      requires Valid()
      ensures b <==> SoldierJumps(Pos(), turn, square) != {}
    {
      var jumps := SoldierAvailableJumps(square);
      b := |jumps| > 0;
    }

    /** `_soldier_chip_available_moves`. */
    method SoldierChipAvailableMoves(square: Square) returns (r: MoveSet)
      requires Valid()
      ensures r == SoldierMoves(Pos(), turn, square)
    {
      var jumps := SoldierAvailableJumps(square);
      if |jumps| > 0 {
        return MoveSet(jumps, true);
      }
      var moves := SoldierAvailableRegularMoves(square);
      r := MoveSet(moves, false);
    }

    // -------------------------------------------------------------------
    // Queens

    /** `_queen_rival_found_moves`, called with `square` holding a rival. The
        third component tells whether the result is a newly made set; when it
        is not, the result is the very set object the caller passed in (it may
        have been added to), so the caller's `moves == old_moves` test holds
        and the walk stops. */
    function RivalFoundMoves(origin: Square, square: Square, direction: Direction, moves: set<Move>, canJump: bool): (set<Move>, bool, bool)
      reads this, board
      requires board.Length == 64
    {
      var neighbor := Neighbor(square, direction);
      if neighbor.Some? && board[neighbor.value] == null then
        if canJump then (moves + {(origin, neighbor.value)}, true, false)  // another empty square after a jump
        else ({(origin, neighbor.value)}, true, true)                       // the queen can just now jump
      else (moves, canJump, false)                                         // two chips in a row, or the edge
    }

    /** Read from the board, `_queen_rival_found_moves` looks only at whether
        the square beyond the rival is empty in the snapshot. */
    lemma RivalFoundMovesOnBoard(origin: Square, square: Square, direction: Direction, moves: set<Move>, canJump: bool)
      requires Valid()
      ensures var found := RivalFoundMoves(origin, square, direction, moves, canJump);
        var beyond := Neighbor(square, direction);
        if beyond.Some? && beyond.value !in Pos() then
          found.1 && found.0 == (if canJump then moves else {}) + {(origin, beyond.value)} && found.2 == !canJump
        else found == (moves, canJump, false)
    {
      ShowsPos();
    }

    /** `_queen_moves_in_direction`. */
    method QueenMovesInDirection(square: Square, direction: Direction) returns (r: MoveSet)
      requires Valid()
      ensures r == QueenRay(Pos(), turn, square, direction)
    {
      ghost var pos := Pos();
      ShowsPos();
      ghost var ray := Ray(square, direction);
      ghost var i: nat := 0;
      ghost var stopped := false;
      var moves: set<Move>, canJump := {}, false;
      var neighbor := Neighbor(square, direction);
      WalkStart(pos, turn, square, ray);
      while neighbor.Some?
        invariant !stopped
        invariant Shows(pos) && pos == Pos()
        invariant QueenWalk(pos, turn, square, ray, i, moves, canJump)
        invariant neighbor == if i < |ray| then Some(ray[i]) else None
        decreases |ray| - i
      {
        RayNext(square, direction, i);
        ghost var i0, before, jumping := i, moves, canJump;
        var content := board[neighbor.value];
        if content == null {
          moves := moves + {(square, neighbor.value)};
        } else if content.color != turn {
          var found := RivalFoundMoves(square, neighbor.value, direction, moves, canJump);
          RivalFoundMovesOnBoard(square, neighbor.value, direction, moves, canJump);
          moves, canJump := found.0, found.1;
          neighbor := Neighbor(neighbor.value, direction);
          i := i + 1;
          if !found.2 {
            WalkRivalStops(pos, turn, square, ray, i0, before, jumping, moves, canJump);
            stopped := true;
            break;
          }
          RayNext(square, direction, i);
        } else {
          WalkAlly(pos, turn, square, ray, i, moves, canJump);
          stopped := true;
          break;
        }
        neighbor := Neighbor(neighbor.value, direction);
        i := i + 1;
        if content == null {
          WalkEmpty(pos, turn, square, ray, i0, before, jumping, i, moves);
        } else {
          WalkRivalOpens(pos, turn, square, ray, i0, before, i, moves);
        }
      }
      if !stopped {
        WalkEnd(pos, turn, square, ray, i, moves, canJump);
      }
      r := MoveSet(moves, canJump);
    }

    /** `_queen_chip_available_moves`. */
    method QueenChipAvailableMoves(square: Square) returns (r: MoveSet)
      requires Valid()
      ensures r == QueenMoves(Pos(), turn, square)
    {
      ghost var pos := Pos();
      var directions := QueenDirections;
      r := NoMoves;
      PreferEmpty();
      for i := 0 to |directions|
        invariant pos == Pos()
        invariant r == Prefer(QueenRays(pos, turn, square, i))
      {
        var next := QueenMovesInDirection(square, directions[i]);
        assert QueenRays(pos, turn, square, i + 1) == QueenRays(pos, turn, square, i) + {next};
        MergePrefer(QueenRays(pos, turn, square, i), next);
        r := Merge(r, next);
      }
    }

    /** `_queen_can_jump`. */
    method QueenCanJump(square: Square) returns (b: bool)
      requires Valid()
      ensures b == QueenMoves(Pos(), turn, square).canJump
    {
      var r := QueenChipAvailableMoves(square);
      b := r.canJump;
    }

    // -------------------------------------------------------------------
    // Queries

    /** `_chip_can_jump`. */
    method ChipCanJump(square: Square) returns (b: bool)
      requires Valid()
      ensures b == Rules.ChipCanJump(Pos(), turn, square)
    {
      if square in chips {
        if chips[square].kind == Soldier {
          b := SoldierCanJump(square);
        } else {
          b := QueenCanJump(square);
        }
      } else {
        b := false;
      }
    }

    /** `chip_available_moves`. */
    method ChipAvailableMoves(square: Square) returns (r: MoveSet)
      requires Valid()
      ensures r == ChipMoves(Pos(), turn, square)
    {
      if square !in chips || board[square] == null {
        // the chip is not in the game any more
        return NoMoves;
      }
      var chip := chips[square];
      if chip.color != turn {
        return NoMoves;
      }
      if chip.kind == Soldier {
        r := SoldierChipAvailableMoves(square);
      } else {
        r := QueenChipAvailableMoves(square);
      }
    }

    /** `available_moves`. */
    method AvailableMoves() returns (moves: set<Move>)
      requires Valid()
      ensures moves == Rules.AvailableMoves(Snapshot())
    {
      if currentChip.Some? {
        var r := ChipAvailableMoves(currentChip.value);
        return r.moves;
      }
      var acc := NoMoves;
      PreferEmpty();
      var remaining := chips.Keys;
      ghost var visited: set<Square> := {};
      while remaining != {}
        invariant remaining !! visited && remaining + visited == chips.Keys
        invariant acc == Prefer(set s | s in visited :: ChipMoves(Pos(), turn, s))
        decreases remaining
      {
        var coord :| coord in remaining;
        var next := ChipAvailableMoves(coord);
        ghost var seen := set s | s in visited :: ChipMoves(Pos(), turn, s);
        MergePrefer(seen, next);
        assert (set s | s in visited + {coord} :: ChipMoves(Pos(), turn, s)) == seen + {next};
        acc := Merge(acc, next);
        remaining := remaining - {coord};
        visited := visited + {coord};
      }
      assert visited == Pos().Keys;
      moves := acc.moves;
    }

    /** `square_contains_teammate`. */
    method SquareContainsTeammate(square: Square) returns (b: bool)
      requires Valid()
      ensures b == Rules.SquareContainsTeammate(Snapshot(), square)
    {
      b := square in chips && chips[square].color == turn;
    }

    // -------------------------------------------------------------------
    // Move application

    /** `_promote`: promotes the chip on `square` when the square lies on the
        rank that `turn` selects. */
    method Promote(square: Square)
      requires Valid() && square in chips
      modifies chips[square]
      ensures Valid()
      ensures Pos() == PromoteAt(old(Pos()), turn, square)
    {
      var startIndex := if turn == White then 0 else 7;
      var promoSquares: seq<Square> := [];
      var i: int := startIndex;
      while i < 64
        invariant startIndex <= i <= 64 + startIndex && i % 8 == startIndex
        invariant forall s: Square :: s in promoSquares <==> s < i && s % 8 == startIndex
        decreases 64 - i
      {
        promoSquares := promoSquares + [i];
        i := i + 8;
      }
      if square in promoSquares {
        chips[square].Promote();
      }
      assert Pos() == PromoteAt(old(Pos()), turn, square);
    }

    /** `_next_turn`. */
    method NextTurn()
      modifies this`turn
      ensures turn == Opponent(old(turn))
    {
      turn := if turn == White then Black else White;
    }

    /** `_gamestate`. */
    method GameState() returns (g: Gamestate)
      requires Valid()
      ensures g == Status(Snapshot())
    {
      var moves := AvailableMoves();
      if |moves| == 0 {
        return if turn == Black then WhiteWon else BlackWon;
      }
      g := InProgress;
    }

    /** `_remove_chips`: clears every occupied square between the two squares
        and returns them in path order. */
    method RemoveChips(origin: Square, destination: Square) returns (removed: seq<Square>)
      requires Valid()
      modifies this`chips, board
      ensures Valid()
      ensures Pos() == ClearPath(old(Pos()), PathInDirection(origin, destination, DirectionOfMove(origin, destination)))
      ensures removed == Captured(old(Pos()), PathInDirection(origin, destination, DirectionOfMove(origin, destination)))
      ensures forall s :: s in chips ==> s in old(chips) && chips[s] == old(chips[s])
    {
      ghost var pos := Pos();
      removed := [];
      var direction := DirectionOfMove(origin, destination);
      var squaresJumped := PathInDirection(origin, destination, direction);
      for i := 0 to |squaresJumped|
        invariant Valid()
        invariant forall x :: x in chips <==> x in old(chips) && x !in squaresJumped[..i]
        invariant forall x :: x in chips ==> chips[x] == old(chips)[x]
        invariant removed == Captured(pos, squaresJumped[..i])
      {
        var s := squaresJumped[i];
        forall j | 0 <= j < i ensures squaresJumped[j] != s {
          PathInDirectionDistinct(origin, destination, direction, j, i);
        }
        assert squaresJumped[..i + 1] == squaresJumped[..i] + [s];
        CapturedAppend(pos, squaresJumped[..i], s);
        if board[s] != null {
          board[s] := null;
          chips := chips - {s};
          removed := removed + [s];
        }
      }
      assert squaresJumped[..|squaresJumped|] == squaresJumped;
      PosIs(ClearPath(pos, squaresJumped));
    }

    /** `board.move(origin, destination)`, the move of the chip in the
        `chips` dictionary and the first `_promote(destination)`, which
        promotes by the rank of the side that moved. */
    method MoveChip(origin: Square, destination: Square)
      requires Valid() && origin in chips && destination !in chips
      modifies this`chips, board, chips[origin]
      ensures Valid()
      ensures chips == old(chips)[destination := old(chips)[origin]] - {origin}
      ensures Pos() == PromoteAt(Relocate(old(Pos()), origin, destination), turn, destination)
    {
      ghost var pos := Pos();
      var chip := board[origin];
      board[origin] := null;
      board[destination] := chip;
      chips := chips[destination := chips[origin]] - {origin};
      PosIs(Relocate(pos, origin, destination));
      Promote(destination);
    }

    /** The capture branch of `move`: `_remove_chips`, then `_chip_can_jump`
        on the destination, which pins the chip there when it can go on. */
    method Capture(origin: Square, destination: Square) returns (removed: seq<Square>, again: bool)
      requires Valid() && destination in chips
      modifies this`chips, board, this`currentChip
      ensures Valid()
      ensures removed == Captured(old(Pos()), PathInDirection(origin, destination, DirectionOfMove(origin, destination)))
      ensures Pos() == ClearPath(old(Pos()), PathInDirection(origin, destination, DirectionOfMove(origin, destination)))
      ensures again == Rules.ChipCanJump(Pos(), turn, destination)
      ensures currentChip == if again then Some(destination) else old(currentChip)
      ensures destination in chips
      ensures forall s :: s in chips ==> s in old(chips) && chips[s] == old(chips)[s]
    {
      ghost var path := PathInDirection(origin, destination, DirectionOfMove(origin, destination));
      ghost var pos := Pos();
      removed := RemoveChips(origin, destination);
      // the path stops short of the destination, so its chip stays
      assert destination !in path && destination in pos;
      assert destination in Pos();
      again := ChipCanJump(destination);
      if again {
        currentChip := Some(destination);
      }
    }

    /** The end of a turn in `move`: `_next_turn`, the pin released, and the
        second `_promote(destination)`, by the rank of the side now to move. */
    method EndTurn(destination: Square)
      requires Valid() && destination in chips
      modifies this`turn, this`currentChip, chips[destination]
      ensures Valid()
      ensures turn == Opponent(old(turn)) && currentChip == None
      ensures Pos() == PromoteAt(old(Pos()), turn, destination)
    {
      NextTurn();
      currentChip := None;
      Promote(destination);
    }

    /** The body of `move` after the legality test, for a chip on `origin`
        that captures exactly when `jumped`. */
    method Play(origin: Square, destination: Square, jumped: bool) returns (removed: seq<Square>)
      requires Valid() && origin in chips && destination !in chips
      modifies this, board, chips.Values
      ensures Valid() && board == old(board)
      ensures (Snapshot(), removed) == Apply(old(Snapshot()), origin, destination, jumped)
      ensures destination in chips && chips[destination] == old(chips)[origin]
      ensures forall s :: s in chips && s != destination ==> s in old(chips) && chips[s] == old(chips)[s]
    {
      ghost var st := Snapshot();
      MoveChip(origin, destination);
      ghost var moved := Pos();
      ghost var path: seq<Square> := [];
      var again := false;
      removed := [];
      if jumped {
        path := PathInDirection(origin, destination, DirectionOfMove(origin, destination));
        removed, again := Capture(origin, destination);
      } else {
        ClearNothing(moved);
      }
      if !again {
        EndTurn(destination);
      }
    }

    /** `move`. */
    method Move(origin: Square, destination: Square) returns (status: Gamestate, removed: seq<Square>)
      requires Valid()
      modifies this, board, chips.Values
      ensures Valid() && board == old(board)
      ensures StepResult(Snapshot(), status, removed) == Step(old(Snapshot()), origin, destination)
      ensures status == InvalidMove ==> chips == old(chips)
      ensures status != InvalidMove ==>
        origin in old(chips) && destination in chips && chips[destination] == old(chips)[origin]
      ensures forall s :: s in chips && s != destination ==> s in old(chips) && chips[s] == old(chips)[s]
    {
      var legal := AvailableMoves();
      if (origin, destination) !in legal {
        StepRejects(Snapshot(), origin, destination);
        return InvalidMove, [];
      }
      status, removed := MoveLegal(origin, destination);
    }

    /** `move` past its legality test. */
    method MoveLegal(origin: Square, destination: Square) returns (status: Gamestate, removed: seq<Square>)
      requires Valid() && (origin, destination) in Rules.AvailableMoves(Snapshot())
      modifies this, board, chips.Values
      ensures Valid() && board == old(board)
      ensures StepResult(Snapshot(), status, removed) == Step(old(Snapshot()), origin, destination)
      ensures status != InvalidMove
      ensures origin in old(chips) && destination in chips && chips[destination] == old(chips)[origin]
      ensures forall s :: s in chips && s != destination ==> s in old(chips) && chips[s] == old(chips)[s]
    {
      ghost var st := Snapshot();
      StepApplies(st, origin, destination);
      var chipMoves := ChipAvailableMoves(origin);
      status, removed := PlayAndScore(origin, destination, chipMoves.canJump);
    }

    /** The piece is played and the game state is read off the new state. */
    method PlayAndScore(origin: Square, destination: Square, jumped: bool) returns (status: Gamestate, removed: seq<Square>)
      requires Valid() && origin in chips && destination !in chips
      modifies this, board, chips.Values
      ensures Valid() && board == old(board)
      ensures (Snapshot(), removed) == Apply(old(Snapshot()), origin, destination, jumped)
      ensures status == Status(Snapshot())
      ensures destination in chips && chips[destination] == old(chips)[origin]
      ensures forall s :: s in chips && s != destination ==> s in old(chips) && chips[s] == old(chips)[s]
    {
      removed := Play(origin, destination, jumped);
      status := GameState();
    }
  }
}
