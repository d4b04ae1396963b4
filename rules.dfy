/** The rules of the engine as functions of a value: a position (occupied
    square to piece), the side to move and the square pinned by an
    unfinished capture chain. The imperative `Model` class is proved to
    compute exactly these functions of its snapshot; the lemmas about them
    live in module RulesFacts. */
module Rules {
  import opened Board

  datatype Color = White | Black
  datatype Kind = Soldier | Queen
  datatype Piece = Piece(color: Color, kind: Kind)

  /** The `chips` dictionary, as a value. */
  type Position = map<Square, Piece>

  /** An (origin, destination) pair. */
  type Move = (Square, Square)

  datatype Gamestate = InvalidMove | InProgress | WhiteWon | BlackWon | Tie

  /** The whole game state: the pieces, `turn`, and `_current_chip`. */
  datatype State = State(pos: Position, turn: Color, pin: Option<Square>)

  /** The (moves, can_jump) pair the move generators return. */
  datatype MoveSet = MoveSet(moves: set<Move>, canJump: bool)

  const NoMoves := MoveSet({}, false)

  /** `_next_turn`. */
  function Opponent(c: Color): (r: Color)
    ensures r != c
  {
    if c == White then Black else White
  }

  // ---------------------------------------------------------------------
  // Initial layout

  /** A square that holds a soldier when a game starts: a dark square
      (file and rank of equal parity) on ranks 1-3 (white) or 6-8 (black). */
  predicate IsStartSquare(s: Square)
  {
    (File(s) + Rank(s)) % 2 == 0 && (Rank(s) <= 2 || Rank(s) >= 5)
  }

  function StartColor(s: Square): Color
  {
    if Rank(s) <= 2 then White else Black
  }

  /** The layout of `__init__`: a soldier on every starting square. */
  function InitialPosition(): Position
  {
    map s: Square | IsStartSquare(s) :: Piece(StartColor(s), Soldier)
  }

  function InitialState(): State
  {
    State(InitialPosition(), White, None)
  }

  // ---------------------------------------------------------------------
  // Neighbour and enemy helpers

  /** `_enemy_in_neighbor`: the neighbour exists and holds a piece of the
      side not to move. */
  predicate EnemyInNeighbor(pos: Position, turn: Color, s: Square, d: Direction)
  {
    var n := Neighbor(s, d);
    n.Some? && n.value in pos && pos[n.value].color != turn
  }

  /** `_next_neighbor_in_direction`: the square two steps away, if both steps
      stay on the board. */
  function NextNeighbor(s: Square, d: Direction): (r: Option<Square>)
    ensures r.Some? <==> 1 < |Ray(s, d)|
    ensures r.Some? ==> r.value == Ray(s, d)[1]
  {
    match Neighbor(s, d)
    case None => None
    case Some(n) => Neighbor(n, d)
  }

  // ---------------------------------------------------------------------
  // Soldiers

  /** `_directions_for_soldier`: white soldiers advance toward rank 8, black
      ones toward rank 1. */
  function SoldierDirections(turn: Color): seq<Direction>
  {
    if turn == White then [TopLeft, TopRight] else [BtmLeft, BtmRight]
  }

  predicate SoldierJumpsToward(pos: Position, turn: Color, s: Square, d: Direction)
  {
    EnemyInNeighbor(pos, turn, s, d) && NextNeighbor(s, d).Some? && NextNeighbor(s, d).value !in pos
  }

  /** `_soldier_available_jumps`. */
  function SoldierJumps(pos: Position, turn: Color, s: Square): set<Move>
  {
    set d | d in SoldierDirections(turn) && SoldierJumpsToward(pos, turn, s, d) :: (s, NextNeighbor(s, d).value)
  }

  predicate SoldierStepsToward(pos: Position, s: Square, d: Direction)
  {
    Neighbor(s, d).Some? && Neighbor(s, d).value !in pos
  }

  /** `_soldier_available_regular_moves`. */
  function SoldierRegularMoves(pos: Position, turn: Color, s: Square): set<Move>
  {
    set d | d in SoldierDirections(turn) && SoldierStepsToward(pos, s, d) :: (s, Neighbor(s, d).value)
  }

  /** `_soldier_chip_available_moves`: jumps, if there are any, replace the
      regular moves. */
  function SoldierMoves(pos: Position, turn: Color, s: Square): (r: MoveSet)
    ensures r.canJump <==> SoldierJumps(pos, turn, s) != {}
    ensures r.moves == if r.canJump then SoldierJumps(pos, turn, s) else SoldierRegularMoves(pos, turn, s)
  {
    var jumps := SoldierJumps(pos, turn, s);
    if |jumps| > 0 then MoveSet(jumps, true) else MoveSet(SoldierRegularMoves(pos, turn, s), false)
  }

  // ---------------------------------------------------------------------
  // Queens

  /** The index of the first occupied square of `ray` at or after `from`, or
      |ray| if there is none. */
  function FirstOccupied(pos: Position, ray: seq<Square>, from: nat): (k: nat)
    requires from <= |ray|
    ensures from <= k <= |ray|
    ensures forall j :: from <= j < k ==> ray[j] !in pos
    ensures k < |ray| ==> ray[k] in pos
    decreases |ray| - from
  {
    if from == |ray| || ray[from] in pos then from else FirstOccupied(pos, ray, from + 1)
  }

  /** The moves from `s` to the squares a..b-1 of `ray`. */
  function MovesTo(s: Square, ray: seq<Square>, a: nat, b: nat): set<Move>
    requires a <= b <= |ray|
  {
    set j | a <= j < b :: (s, ray[j])
  }

  /** The result of `_queen_moves_in_direction` for a queen on `s` whose
      diagonal in the direction walked is `ray`: let k be the first occupied
      square. Unless the piece on k is a rival followed by an empty square,
      the moves are the empty squares before k and no capture. Otherwise the
      moves are the empty squares after the rival up to the next occupied
      square k2, plus the square just beyond k2 when k2 holds a second rival
      followed by an empty square, and the queen can capture. */
  function RayMoves(pos: Position, turn: Color, s: Square, ray: seq<Square>): MoveSet
  {
    var k := FirstOccupied(pos, ray, 0);
    if k + 1 < |ray| && pos[ray[k]].color != turn && ray[k + 1] !in pos then
      var k2 := FirstOccupied(pos, ray, k + 1);
      var beyond :=
        if k2 + 1 < |ray| && pos[ray[k2]].color != turn && ray[k2 + 1] !in pos
        then {(s, ray[k2 + 1])} else {};
      MoveSet(MovesTo(s, ray, k + 1, k2) + beyond, true)
    else
      MoveSet(MovesTo(s, ray, 0, k), false)
  }

  /** `_queen_moves_in_direction` for direction `d`. */
  function QueenRay(pos: Position, turn: Color, s: Square, d: Direction): MoveSet
  {
    RayMoves(pos, turn, s, Ray(s, d))
  }

  /** The order in which `_queen_chip_available_moves` visits directions. */
  const QueenDirections: seq<Direction> := [TopLeft, TopRight, BtmLeft, BtmRight]

  /** One step of the fold shared by `_queen_chip_available_moves` and
      `available_moves`: equal flags unite, a first capture replaces the quiet
      moves, and quiet moves after a capture are dropped. */
  function Merge(acc: MoveSet, next: MoveSet): MoveSet
  {
    if acc.canJump == next.canJump then MoveSet(acc.moves + next.moves, acc.canJump)
    else if !acc.canJump && next.canJump then next
    else acc
  }

  /** What folding Merge over the move sets `sets` yields, in any order: the
      union of the capturing sets if there is one, else the union of all. */
  function Prefer(sets: set<MoveSet>): (r: MoveSet)
    ensures r.canJump <==> exists x :: x in sets && x.canJump
  {
    var jump := exists x :: x in sets && x.canJump;
    MoveSet(set x, m | x in sets && (jump ==> x.canJump) && m in x.moves :: m, jump)
  }

  /** The results of the first n directions of QueenDirections. */
  function QueenRays(pos: Position, turn: Color, s: Square, n: nat): set<MoveSet>
    requires n <= |QueenDirections|
  {
    if n == 0 then {}
    else QueenRays(pos, turn, s, n - 1) + {QueenRay(pos, turn, s, QueenDirections[n - 1])}
  }

  /** `_queen_chip_available_moves`: the preferred union of the four
      directions' results. */
  function QueenMoves(pos: Position, turn: Color, s: Square): MoveSet
  {
    Prefer(QueenRays(pos, turn, s, |QueenDirections|))
  }

  // ---------------------------------------------------------------------
  // Queries

  /** `chip_available_moves`: nothing for an empty square or a piece of the
      side not to move, otherwise the soldier's or the queen's moves. */
  function ChipMoves(pos: Position, turn: Color, s: Square): (r: MoveSet)
    ensures s !in pos || pos[s].color != turn ==> r == NoMoves
  {
    if s !in pos then NoMoves
    else if pos[s].color != turn then NoMoves
    else if pos[s].kind == Soldier then SoldierMoves(pos, turn, s)
    else QueenMoves(pos, turn, s)
  }

  /** `_chip_can_jump`: unlike ChipMoves, it does not look at the colour. */
  predicate ChipCanJump(pos: Position, turn: Color, s: Square)
  {
    s in pos &&
    if pos[s].kind == Soldier then SoldierJumps(pos, turn, s) != {}
    else QueenMoves(pos, turn, s).canJump
  }

  /** `available_moves`: the pinned piece's moves while a capture chain is
      unfinished, otherwise the preferred union over all pieces. */
  function AvailableMoves(st: State): set<Move>
  {
    match st.pin
    case Some(p) => ChipMoves(st.pos, st.turn, p).moves
    case None => Prefer(set s | s in st.pos :: ChipMoves(st.pos, st.turn, s)).moves
  }

  /** `square_contains_teammate`. */
  predicate SquareContainsTeammate(st: State, s: Square)
  {
    s in st.pos && st.pos[s].color == st.turn
  }

  // ---------------------------------------------------------------------
  // Move application

  /** `_promote`: the promotion rank is selected by the side to move (rank 1
      while white is to move, rank 8 while black is). */
  function PromotionRank(turn: Color): int
  {
    if turn == White then 0 else 7
  }

  function PromoteAt(pos: Position, turn: Color, s: Square): (r: Position)
    requires s in pos
    ensures r.Keys == pos.Keys
    ensures r[s].color == pos[s].color
    ensures r[s].kind == Queen <==> pos[s].kind == Queen || Rank(s) == PromotionRank(turn)
    ensures forall x :: x in pos && x != s ==> r[x] == pos[x]
  {
    if Rank(s) == PromotionRank(turn) then pos[s := Piece(pos[s].color, Queen)] else pos
  }

  /** The chip moves from `o` to `d` (`board.move` and the `chips` update). */
  function Relocate(pos: Position, o: Square, d: Square): (r: Position)
    requires o in pos
    ensures d in r && r[d] == pos[o]
    ensures o != d ==> o !in r
    ensures forall x :: x != o && x != d ==> (x in r <==> x in pos) && (x in pos ==> r[x] == pos[x])
  {
    (pos - {o})[d := pos[o]]
  }

  /** The squares of `path` that hold a piece, in path order. */
  function Captured(pos: Position, path: seq<Square>): (r: seq<Square>)
  {
    if path == [] then []
    else (if path[0] in pos then [path[0]] else []) + Captured(pos, path[1..])
  }

  /** The position left once every square of `path` is cleared. */
  function ClearPath(pos: Position, path: seq<Square>): (r: Position)
  {
    map x | x in pos && x !in path :: pos[x]
  }

  /** `_gamestate`: the side to move has no move and its opponent wins, or
      the game goes on. */
  function Status(st: State): (g: Gamestate)
    ensures g == InProgress <==> AvailableMoves(st) != {}
    ensures g == WhiteWon <==> AvailableMoves(st) == {} && st.turn == Black
    ensures g == BlackWon <==> AvailableMoves(st) == {} && st.turn == White
    ensures g != Tie && g != InvalidMove
  {
    if AvailableMoves(st) == {} then
      if st.turn == Black then WhiteWon else assert st.turn == White; BlackWon
    else InProgress
  }

  datatype StepResult = StepResult(state: State, status: Gamestate, removed: seq<Square>)

  /** The state once the captured pieces are gone (`left`): the same side
      goes on capturing with the piece on `d` when it jumped and can jump
      again; otherwise the turn passes and the piece on `d` is promoted if it
      reached the far rank. */
  function StepState(st: State, d: Square, again: bool, left: Position): State
    requires d in left
  {
    if again then State(left, st.turn, Some(d))
    else State(PromoteAt(left, Opponent(st.turn), d), Opponent(st.turn), None)
  }

  /** The squares a move passes over: for a capture, those strictly between
      `o` and `d` in the direction `_direction_of_move` decodes; none for a
      quiet move. */
  function JumpPath(o: Square, d: Square, jumped: bool): seq<Square>
  {
    if jumped then PathInDirection(o, d, DirectionOfMove(o, d)) else []
  }

  /** The position once the piece has gone from `o` to `d` and the first
      `_promote` call, by the rank of the side that moved, has run. */
  function Moved(st: State, o: Square, d: Square): Position
    requires o in st.pos
  {
    PromoteAt(Relocate(st.pos, o, d), st.turn, d)
  }

  /** The position once the pieces passed over are removed as well. */
  function Landed(st: State, o: Square, d: Square, jumped: bool): Position
    requires o in st.pos
  {
    ClearPath(Moved(st, o, d), JumpPath(o, d, jumped))
  }

  /** What `move` does once the move is known to be legal: the piece goes
      from `o` to `d`, the pieces on the path of a capture are removed, and
      the turn either stays for another capture or passes. Also returns the
      removed squares. */
  function Apply(st: State, o: Square, d: Square, jumped: bool): (State, seq<Square>)
    requires o in st.pos
  {
    var left := Landed(st, o, d, jumped);
    var again := jumped && ChipCanJump(left, st.turn, d);
    (StepState(st, d, again, left), Captured(Moved(st, o, d), JumpPath(o, d, jumped)))
  }

  /** `move(origin, destination)`. */
  function Step(st: State, o: Square, d: Square): StepResult
  {
    if (o, d) !in AvailableMoves(st) then StepResult(st, InvalidMove, [])
    else
      assert o in st.pos by { AvailableOrigins(st, o, d); }
      var jumped := ChipMoves(st.pos, st.turn, o).canJump;
      var (next, removed) := Apply(st, o, d, jumped);
      StepResult(next, Status(next), removed)
  }

  // ---------------------------------------------------------------------
  // Where moves come from

  lemma SoldierMovesFrom(pos: Position, turn: Color, s: Square)
    ensures forall m :: m in SoldierMoves(pos, turn, s).moves ==> m.0 == s
  {
  }

  lemma {:induction false} QueenRaysMember(pos: Position, turn: Color, s: Square, n: nat, x: MoveSet)
    requires n <= |QueenDirections| && x in QueenRays(pos, turn, s, n)
    ensures exists d :: d in QueenDirections && x == QueenRay(pos, turn, s, d)
  {
    if x != QueenRay(pos, turn, s, QueenDirections[n - 1]) {
      QueenRaysMember(pos, turn, s, n - 1, x);
    }
  }

  lemma RayMovesTo(pos: Position, turn: Color, s: Square, ray: seq<Square>)
    ensures forall m :: m in RayMoves(pos, turn, s, ray).moves ==> m.0 == s && m.1 !in pos
  {
  }

  lemma QueenMovesFrom(pos: Position, turn: Color, s: Square)
    ensures forall m :: m in QueenMoves(pos, turn, s).moves ==> m.0 == s && m.1 !in pos
  {
    var sets := QueenRays(pos, turn, s, |QueenDirections|);
    forall m | m in QueenMoves(pos, turn, s).moves ensures m.0 == s && m.1 !in pos {
      var x :| x in sets && m in x.moves;
      QueenRaysMember(pos, turn, s, |QueenDirections|, x);
      var d :| d in QueenDirections && x == QueenRay(pos, turn, s, d);
      RayMovesTo(pos, turn, s, Ray(s, d));
    }
  }

  lemma ChipMovesFrom(pos: Position, turn: Color, s: Square)
    ensures forall m :: m in ChipMoves(pos, turn, s).moves ==> m.0 == s && s in pos && pos[s].color == turn
  {
    if s in pos && pos[s].color == turn {
      if pos[s].kind == Soldier {
        SoldierMovesFrom(pos, turn, s);
      } else {
        QueenMovesFrom(pos, turn, s);
      }
    }
  }

  /** Every available move starts on a square holding a piece of the side to
      move. */
  lemma AvailableOrigins(st: State, o: Square, d: Square)
    requires (o, d) in AvailableMoves(st)
    ensures o in st.pos && st.pos[o].color == st.turn
  {
    match st.pin
    case Some(p) =>
      ChipMovesFrom(st.pos, st.turn, p);
    case None =>
      var sets := set s | s in st.pos :: ChipMoves(st.pos, st.turn, s);
      var x :| x in sets && (o, d) in x.moves;
      var s :| s in st.pos && x == ChipMoves(st.pos, st.turn, s);
      ChipMovesFrom(st.pos, st.turn, s);
  }
}
