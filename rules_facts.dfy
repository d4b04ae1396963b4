/** Properties of the rules: the preference fold, where moves go, the shape
    of quiet moves and captures, mandatory capture, and what one call of
    `move` does to the game state. */
module RulesFacts {
  import opened Board
  import opened Rules

  // ---------------------------------------------------------------------
  // The preference fold

  lemma PreferEmpty()
    ensures Prefer({}) == NoMoves
  {
  }

  /** Folding Merge over the sets one at a time computes Prefer, whatever the
      order of the sets: the fold of `_queen_chip_available_moves` (over
      directions) and of `available_moves` (over chips) both rest on this. */
  lemma MergePrefer(sets: set<MoveSet>, x: MoveSet)
    ensures Merge(Prefer(sets), x) == Prefer(sets + {x})
  {
    var p, q := Prefer(sets), Prefer(sets + {x});
    if p.canJump == x.canJump {
      assert q.moves == p.moves + x.moves;
    } else if !p.canJump && x.canJump {
      assert q.moves == x.moves;
    } else {
      assert q.moves == p.moves;
    }
  }

  lemma MovesToExtend(s: Square, ray: seq<Square>, a: nat, b: nat)
    requires a <= b < |ray|
    ensures MovesTo(s, ray, a, b + 1) == MovesTo(s, ray, a, b) + {(s, ray[b])}
  {
  }

  lemma MovesToEmpty(s: Square, ray: seq<Square>, a: nat)
    requires a <= |ray|
    ensures MovesTo(s, ray, a, a) == {}
  {
  }

  // ---------------------------------------------------------------------
  // The walk of `_queen_moves_in_direction`

  /** The state of the walk along `ray` after its first i squares: before a
      capture is found the moves are every square seen so far, all of them
      empty; after it, the empty squares seen since the rival that can be
      captured. */
  ghost predicate QueenWalk(pos: Position, turn: Color, s: Square, ray: seq<Square>, i: nat, moves: set<Move>, canJump: bool)
  {
    var k := FirstOccupied(pos, ray, 0);
    i <= |ray| &&
    if !canJump then i <= k && moves == MovesTo(s, ray, 0, i)
    else
      k + 2 <= i && k + 1 < |ray| && pos[ray[k]].color != turn && ray[k + 1] !in pos &&
      i <= FirstOccupied(pos, ray, k + 1) && moves == MovesTo(s, ray, k + 1, i)
  }

  /** An occupied square the walk reaches before or at the first occupied
      square is the first occupied square. */
  lemma FirstOccupiedAt(pos: Position, ray: seq<Square>, from: nat, i: nat)
    requires from <= i < |ray| && ray[i] in pos && i <= FirstOccupied(pos, ray, from)
    ensures FirstOccupied(pos, ray, from) == i
  {
  }

  lemma WalkStart(pos: Position, turn: Color, s: Square, ray: seq<Square>)
    ensures QueenWalk(pos, turn, s, ray, 0, {}, false)
  {
    MovesToEmpty(s, ray, 0);
  }

  /** An empty square is added to the moves. */
  lemma WalkEmpty(pos: Position, turn: Color, s: Square, ray: seq<Square>, i: nat, moves: set<Move>, canJump: bool,
                  i': nat, moves': set<Move>)
    requires QueenWalk(pos, turn, s, ray, i, moves, canJump)
    requires i < |ray| && ray[i] !in pos && i' == i + 1 && moves' == moves + {(s, ray[i])}
    ensures QueenWalk(pos, turn, s, ray, i', moves', canJump)
  {
    var k := FirstOccupied(pos, ray, 0);
    MovesToExtend(s, ray, if canJump then k + 1 else 0, i);
  }

  /** A piece of the side to move ends the walk. */
  lemma WalkAlly(pos: Position, turn: Color, s: Square, ray: seq<Square>, i: nat, moves: set<Move>, canJump: bool)
    requires QueenWalk(pos, turn, s, ray, i, moves, canJump)
    requires i < |ray| && ray[i] in pos && pos[ray[i]].color == turn
    ensures MoveSet(moves, canJump) == RayMoves(pos, turn, s, ray)
  {
    if canJump {
      FirstOccupiedAt(pos, ray, FirstOccupied(pos, ray, 0) + 1, i);
    } else {
      FirstOccupiedAt(pos, ray, 0, i);
    }
  }

  /** A rival followed by an empty square, before any capture: the captures
      start with that square, and the walk goes on beyond it. */
  lemma WalkRivalOpens(pos: Position, turn: Color, s: Square, ray: seq<Square>, i: nat, moves: set<Move>,
                       i': nat, moves': set<Move>)
    requires QueenWalk(pos, turn, s, ray, i, moves, false)
    requires i + 1 < |ray| && ray[i] in pos && pos[ray[i]].color != turn && ray[i + 1] !in pos
    requires i' == i + 2 && moves' == {(s, ray[i + 1])}
    ensures QueenWalk(pos, turn, s, ray, i', moves', true)
  {
    FirstOccupiedAt(pos, ray, 0, i);
    MovesToEmpty(s, ray, i + 1);
    MovesToExtend(s, ray, i + 1, i + 1);
  }

  /** A rival that does not start the captures ends the walk: after a capture
      was found, a second rival followed by an empty square adds that square;
      a rival followed by a piece or the edge adds nothing. */
  lemma WalkRivalStops(pos: Position, turn: Color, s: Square, ray: seq<Square>, i: nat, moves: set<Move>, canJump: bool,
                       moves': set<Move>, canJump': bool)
    requires QueenWalk(pos, turn, s, ray, i, moves, canJump)
    requires i < |ray| && ray[i] in pos && pos[ray[i]].color != turn
    requires var clear := i + 1 < |ray| && ray[i + 1] !in pos;
      (clear ==> canJump && canJump' && moves' == moves + {(s, ray[i + 1])}) &&
      (!clear ==> canJump' == canJump && moves' == moves)
    ensures MoveSet(moves', canJump') == RayMoves(pos, turn, s, ray)
  {
    if canJump {
      FirstOccupiedAt(pos, ray, FirstOccupied(pos, ray, 0) + 1, i);
    } else {
      FirstOccupiedAt(pos, ray, 0, i);
    }
  }

  /** Leaving the board ends the walk. */
  lemma WalkEnd(pos: Position, turn: Color, s: Square, ray: seq<Square>, i: nat, moves: set<Move>, canJump: bool)
    requires QueenWalk(pos, turn, s, ray, i, moves, canJump) && i >= |ray|
    ensures MoveSet(moves, canJump) == RayMoves(pos, turn, s, ray)
  {
  }

  // ---------------------------------------------------------------------
  // Captured squares

  lemma {:induction false} CapturedAppend(pos: Position, path: seq<Square>, x: Square)
    ensures Captured(pos, path + [x]) == Captured(pos, path) + (if x in pos then [x] else [])
  {
    if path == [] {
      assert path + [x] == [x];
    } else {
      assert (path + [x])[1..] == path[1..] + [x];
      CapturedAppend(pos, path[1..], x);
    }
  }

  /** An illegal move changes nothing. */
  lemma StepRejects(st: State, o: Square, d: Square)
    requires (o, d) !in AvailableMoves(st)
    ensures Step(st, o, d) == StepResult(st, InvalidMove, [])
  {
  }

  lemma ClearNothing(pos: Position)
    ensures ClearPath(pos, []) == pos && Captured(pos, []) == []
  {
  }

  // ---------------------------------------------------------------------
  // Where moves go

  lemma ChipMovesTo(pos: Position, turn: Color, s: Square)
    ensures forall m :: m in ChipMoves(pos, turn, s).moves ==> m.1 !in pos
  {
    if s in pos && pos[s].color == turn && pos[s].kind == Queen {
      QueenMovesFrom(pos, turn, s);
    }
  }

  /** Every available move ends on an empty square. */
  lemma AvailableDestinations(st: State, o: Square, d: Square)
    requires (o, d) in AvailableMoves(st)
    ensures d !in st.pos
  {
    match st.pin
    case Some(p) =>
      ChipMovesTo(st.pos, st.turn, p);
    case None =>
      var sets := set s | s in st.pos :: ChipMoves(st.pos, st.turn, s);
      var x :| x in sets && (o, d) in x.moves;
      var s :| s in st.pos && x == ChipMoves(st.pos, st.turn, s);
      ChipMovesTo(st.pos, st.turn, s);
  }
}
