# Checkers rules engine, modelled in Dafny

This project models the rules engine of a small checkers game: the `Chip`
token and the `Model` game state of `checkers/model.py`. A `Model` holds

- a 64-square board of chips;
- a `chips` dictionary from square to the same chip objects;
- the side to move (`turn`);
- the pin of an unfinished capture chain (`_current_chip`).

It computes the moves of a chip and of the side to move. `move` plays one
move: it validates the move, relocates the chip, removes the chips jumped, promotes,
and then either pins the chip or passes the turn. It reports the game
state afterwards.

The project is in three layers.

- **Geometry.** `board.dfy`, module `Board`, holds the board. Squares are
  numbered 0..63, with file `i / 8` and rank `i % 8`. There are four
  diagonal directions (top_right +9, top_left −7, btm_right +7,
  btm_left −9). It also defines the neighbour of a square, the ray of
  squares in one direction, `path_in_direction` (the squares strictly
  between two squares) and `_direction_of_move`.
- **Rules as functions.** `rules.dfy`, module `Rules`, states the rules as
  functions of a value `State(pos, turn, pin)`. These cover soldier and
  queen move generation, the preference of captures over quiet moves,
  `available_moves`, and `move` as `Step`. `rules_facts.dfy`,
  `move_facts.dfy` and `step_facts.dfy` prove what these functions mean:
  - soldiers step or jump forward only;
  - a queen's moves in each direction;
  - mandatory capture and pinning;
  - what a legal move changes and what it leaves alone;
  - turn passing versus pinning, promotion, and the game result.
- **The imperative model.** `model.dfy`, module `Checkers`, mirrors the
  Python classes. `Chip` is a class with a constant colour and a mutable
  kind. `Model` has the fields `board` (an `array<Chip?>` of 64),
  `chips` (a `map<Square, Chip>` that holds the same objects), `turn`
  and `currentChip`. `Valid()` says the board and the dictionary hold the
  same chips on the same squares, and that no chip stands on two squares.
  The methods follow the loops of the source. The one loop the source
  does not have is in `StartingChips`, which builds the dictionary that
  `__init__` writes as a literal. Each method is proved to compute the
  `Rules` function of the model's snapshot, or, for `Move`, to perform
  `Rules.Step` on it.

`scenarios.dfy`, module `Scenarios`, works through these concrete positions:

- the opening layout and white's seven opening moves;
- a forced capture that ends the game;
- a capture chain that pins the capturing soldier;
- the queen capture h8 → a1.

Four behaviours of the source are modelled as written.

- **Flying queen.** Once a queen has a rival followed by an empty square
  in one direction, every further empty square in that direction is also a
  capture destination.
- **Second rival.** A second rival followed by an empty square adds that
  square and ends the direction. The source's `moves == old_moves` test
  sees the very set object it passed in, so it breaks out of the loop.
  `RivalFoundMoves` returns a third component that says whether the
  result is a new set.
- **First `_promote` call.** `move` calls `_promote` once with the mover's
  own `turn`. That selects the mover's own back rank, which a soldier
  never reaches (`MoveFacts.SoldierAvoidsOwnBackRank`). The promotion that
  takes effect is the one after `_next_turn`.
- **h8 → a1.** `_direction_of_move` decodes the distance −63 as top_left,
  because −63 is a multiple of 7. The `gameboard` library is not part of
  this model, and its `path_in_direction` is assumed to walk from the
  origin in the given direction until it meets the destination or leaves
  the board. Under that assumption the walk from h8 toward top_left
  leaves the board at once, so the queen capture h8 → a1 removes nothing
  (`Scenarios.LongDiagonalCaptureRemovesNothing`). The library could
  behave differently on this call, for instance by raising an error.

`_queen_rival_found_moves` is the function `Checkers.Model.RivalFoundMoves`.
Its effect on the walk is stated by `RulesFacts.WalkRivalOpens` and
`RulesFacts.WalkRivalStops`. `_enemy_in_neighbor` is
`Checkers.Model.EnemyInNeighbor`, read from the board, and
`Rules.EnemyInNeighbor` on positions. `_directions_for_soldier` is
`Rules.SoldierDirections`.

## Model

| member | source | states |
|---|---|---|
| Board.Neighbor | checkers/model.py:70-72 | a neighbour exists exactly when one file step and one rank step stay on the board; it lies one step along the direction in file and rank |
| Board.RayNext | checkers/model.py:149-167 | walking neighbour by neighbour along a direction visits the ray's squares in order and runs off the board after the last one |
| Board.RayDistinct | checkers/model.py:149-167 | the squares of a ray are pairwise distinct |
| Board.RayAvoidsStart | checkers/model.py:149-167 | a ray never comes back to its own start square |
| Board.PathInDirection | checkers/model.py:266-268 | the path never contains the destination, and every square on it lies further along the direction than the origin |
| Board.PathAlongRay | checkers/model.py:266-268 | for a destination on the origin's ray, the path is exactly the squares strictly between the two, in order |
| Board.PathInDirectionDistinct | checkers/model.py:269-273 | the path visits no square twice, so `_remove_chips` never clears a square twice |
| Board.Ray | checkers/model.py:149-167 | the squares a walk from a square in one direction meets, nearest first, no more than the steps to the edge (meaning: Board.RayNext, Board.RayDistinct, Board.RayAvoidsStart) |
| Board.DirectionOfMove | checkers/model.py:276-289 | the decoding of a distance into a direction (meaning: Board.DecodeDistance, Board.DirectionOfMoveOnRay and Board.DirectionOfLongDiagonalDown) |
| Board.DecodeDistance | checkers/model.py:276-289 | one to seven steps in a direction give a distance that the test of `_direction_of_move` decodes back to that direction, except seven btm_left steps |
| Board.DirectionOfMoveOnRay | checkers/model.py:276-289 | the decoded direction of any square on a ray is the ray's direction, except for the move h8 → a1 |
| Board.DirectionOfLongDiagonalDown | checkers/model.py:279-281 | h8 → a1 lies on the btm_left ray of h8 but decodes as top_left, and the modelled `path_in_direction` from h8 toward top_left is empty |
| Rules.Opponent | checkers/model.py:251-254 | the side to move afterwards is the other side |
| Rules.NextNeighbor | checkers/model.py:74-81 | the next neighbour exists exactly when the ray has two squares, and it is the second one |
| Rules.SoldierMoves | checkers/model.py:120-125 | the soldier can capture exactly when it has a jump; its moves are then the jumps, otherwise its quiet moves |
| Rules.Prefer | checkers/model.py:178-186 | the fold over several move sets yields a capture flag exactly when one of the sets has it |
| Rules.ChipMoves | checkers/model.py:209-215 | an empty square, or a chip of the side not to move, has no moves and no capture |
| Rules.Relocate | checkers/model.py:313-315 | after the relocation the destination holds the piece that stood on the origin, the origin is empty, and every other square is as it was |
| Rules.PromoteAt | checkers/model.py:243-249 | promotion leaves the occupied squares and every other square unchanged; the square keeps its colour and holds a queen exactly when it did or it is on the rank the given side selects |
| Rules.Status | checkers/model.py:256-261 | the game is in progress exactly when the side to move has a move; otherwise the side not to move has won; a tie or an invalid move is never reported |
| Rules.InitialPosition | checkers/model.py:39-68 | the layout of `__init__` (meaning: Scenarios.StartSquare, Scenarios.InitialLayout) |
| Rules.EnemyInNeighbor | checkers/model.py:83-87 | the neighbour holds a piece of the side not to move (meaning: Checkers.Model.EnemyInNeighborOnBoard, MoveFacts.SoldierJumpIsForward) |
| Rules.SoldierDirections | checkers/model.py:89-94 | the two directions a soldier of the side to move looks in (meaning: MoveFacts.SoldierDirectionsForward) |
| Rules.SoldierJumps | checkers/model.py:96-105 | the soldier's jumps (meaning: MoveFacts.SoldierJumpsExactly, MoveFacts.SoldierJumpIsForward, MoveFacts.ForwardJumpIsSoldierJump) |
| Rules.SoldierRegularMoves | checkers/model.py:107-115 | the soldier's quiet moves (meaning: MoveFacts.SoldierStepsExactly) |
| Rules.RayMoves | checkers/model.py:147-167 | the queen's result along one ray (meaning: Rules.RayMovesTo, StepFacts.RayCapture, and the walk lemmas RulesFacts.WalkStart to RulesFacts.WalkEnd) |
| Rules.QueenRay | checkers/model.py:147-167 | `RayMoves` on the ray of one direction (meaning: Checkers.Model.QueenMovesInDirection) |
| Rules.Merge | checkers/model.py:178-186 | one step of the fold over move sets (meaning: RulesFacts.MergePrefer) |
| Rules.QueenMoves | checkers/model.py:174-186 | the queen's moves and capture flag (meaning: MoveFacts.QueenMovesExactly, Rules.QueenMovesFrom) |
| Rules.ChipCanJump | checkers/model.py:188-194 | whether the piece on a square can capture, whatever its colour (meaning: Checkers.Model.ChipCanJump, StepFacts.ApplyTurn) |
| Rules.AvailableMoves | checkers/model.py:220-241 | the moves of the side to move (meaning: MoveFacts.PinnedMoves, MoveFacts.MandatoryCapture, Rules.AvailableOrigins, RulesFacts.AvailableDestinations) |
| Rules.SquareContainsTeammate | checkers/model.py:332-349 | the square holds a piece of the side to move (meaning: Checkers.Model.SquareContainsTeammate) |
| Rules.Captured | checkers/model.py:263-274 | the occupied squares of a path, in path order (meaning: RulesFacts.CapturedAppend, StepFacts.CapturedExactly) |
| Rules.ClearPath | checkers/model.py:263-274 | the position with every square of a path cleared (meaning: StepFacts.CapturedExactly, Checkers.Model.RemoveChips) |
| Rules.StepState | checkers/model.py:322-329 | the state after the jumped pieces are gone: pinned for another capture, or the turn passed with the second promotion (meaning: StepFacts.ApplyTurn, StepFacts.ApplyPromotes) |
| Rules.JumpPath | checkers/model.py:318-321 | the squares a capture passes over, none for a quiet move (meaning: StepFacts.SoldierJumpPath, StepFacts.CapturedOnRay) |
| Rules.Moved | checkers/model.py:313-316 | the position after the relocation and the first promotion (meaning: Checkers.Model.MoveChip, StepFacts.ApplyMoves) |
| Rules.Landed | checkers/model.py:313-321 | the position after the relocation, the first promotion and the removals (meaning: StepFacts.ApplyMoves) |
| Rules.Apply | checkers/model.py:310-330 | a legal move's new state and removed squares (meaning: StepFacts.ApplyMoves, StepFacts.ApplyTurn, StepFacts.ApplyPromotes, Checkers.Model.Play) |
| Rules.Step | checkers/model.py:291-330 | `move` on a state (meaning: RulesFacts.StepRejects, StepFacts.StepApplies, StepFacts.StepMoves, StepFacts.StepTurn, StepFacts.StepPromotes, StepFacts.StepStatus, StepFacts.StepKeepsPin, Checkers.Model.Move) |
| Rules.SoldierMovesFrom | checkers/model.py:96-115 | every soldier move starts on the soldier's square |
| Rules.QueenRaysMember | checkers/model.py:178-183 | every move set folded by `_queen_chip_available_moves` is the result of one of its four directions |
| Rules.RayMovesTo | checkers/model.py:147-167 | every move along a ray starts on the queen's square and ends on an empty square |
| Rules.QueenMovesFrom | checkers/model.py:174-186 | every queen move starts on the queen's square and ends on an empty square |
| Rules.ChipMovesFrom | checkers/model.py:196-218 | every move of a chip starts on its square, which holds a piece of the side to move |
| Rules.AvailableOrigins | checkers/model.py:220-241 | an available move starts on a square holding a piece of the side to move |
| RulesFacts.PreferEmpty | checkers/model.py:228-232 | the fold starts from no moves and no capture |
| RulesFacts.MergePrefer | checkers/model.py:233-240 | one step of the loop body extends the fold by one more move set, so the result does not depend on the order of the chips or directions |
| RulesFacts.WalkStart | checkers/model.py:148-149 | the queen's walk starts with no moves and no capture before the first square of the ray |
| RulesFacts.WalkEmpty | checkers/model.py:152-153 | an empty square adds a move to it, and the walk goes on |
| RulesFacts.WalkAlly | checkers/model.py:165-166 | reaching an ally ends the walk with the direction's complete result |
| RulesFacts.WalkRivalOpens | checkers/model.py:141-144 | a first rival followed by an empty square replaces the quiet moves by that capture, and the walk goes on beyond it |
| RulesFacts.WalkRivalStops | checkers/model.py:136-145 | any other rival ends the walk with the direction's complete result: two chips in a row, the board's edge, or a second rival after a capture, which adds the empty square beyond it |
| RulesFacts.WalkEnd | checkers/model.py:150-167 | running off the board ends the walk with the direction's complete result |
| RulesFacts.CapturedAppend | checkers/model.py:269-273 | one more square of the path is appended to the removed squares exactly when it holds a chip |
| RulesFacts.StepRejects | checkers/model.py:308-309 | a move that is not available yields an invalid move and no removals, and leaves the state unchanged |
| RulesFacts.ClearNothing | checkers/model.py:319-321 | a quiet move removes nothing and leaves the position as it is |
| RulesFacts.ChipMovesTo | checkers/model.py:196-218 | every move of a chip ends on an empty square |
| RulesFacts.AvailableDestinations | checkers/model.py:220-241 | every available move ends on an empty square |
| MoveFacts.SoldierDirectionsForward | checkers/model.py:89-94 | white soldiers look one rank up, black ones one rank down |
| MoveFacts.SoldierStepsExactly | checkers/model.py:107-115 | the quiet soldier moves are exactly the steps one rank forward and one file aside onto an empty square |
| MoveFacts.TwoStepsTo | checkers/model.py:74-81 | the next neighbour is two files and two ranks along the direction, and the neighbour between lies halfway |
| MoveFacts.SoldierJumpIsForward | checkers/model.py:96-105 | every soldier jump goes two ranks forward and two files aside onto an empty square, over a rival on the square halfway |
| MoveFacts.ForwardJumpIsSoldierJump | checkers/model.py:96-105 | every such forward jump over a rival onto an empty square is found |
| MoveFacts.SoldierJumpsExactly | checkers/model.py:96-105 | the soldier's jumps are exactly the forward jumps over a rival onto an empty square |
| MoveFacts.SoldierAvoidsOwnBackRank | checkers/model.py:316 | no soldier move ends on the rank the first `_promote` call looks at, so that call never promotes a soldier |
| MoveFacts.QueenMovesExactly | checkers/model.py:174-186 | the queen can capture exactly when she can in some direction; her moves are then the captures of those directions, and otherwise the quiet moves of all four |
| MoveFacts.QueenRaysAll | checkers/model.py:178-183 | the fold sees the result of every one of the four directions |
| MoveFacts.PinnedMoves | checkers/model.py:229-231 | during a capture chain only the pinned chip moves, and only with its own moves |
| MoveFacts.MandatoryCapture | checkers/model.py:232-241 | without a pin, a move is available exactly when it is a move of its chip and, if any chip of the side to move can capture, that chip's moves are captures |
| MoveFacts.AvailableFromChip | checkers/model.py:220-241 | an available move is a move of the chip on its origin, which belongs to the side to move |
| StepFacts.CapturedExactly | checkers/model.py:269-273 | a square is removed exactly when it is on the path and holds a chip |
| StepFacts.ApplyMoves | checkers/model.py:311-321 | the chip leaves the origin for the destination, keeping its colour; a queen stays a queen; a quiet move removes nothing; removed squares held a chip and are empty now; every other square is unchanged |
| StepFacts.ApplyTurn | checkers/model.py:322-328 | a capture after which the chip can capture again keeps the turn and pins the destination; otherwise the turn passes and the pin is cleared |
| StepFacts.ApplyPromotes | checkers/model.py:313-329 | the moved chip is a queen afterwards exactly when it was one, or it ended on the rank of the mover's own first `_promote` call, or the turn passed and it ended on the rank of the side now to move |
| StepFacts.StepApplies | checkers/model.py:308-330 | a legal move starts on a chip of the side to move, ends on an empty square and is one of that chip's moves; its result is the move applied with that chip's capture flag, and the game state of the new state |
| StepFacts.StepMoves | checkers/model.py:311-321 | a legal move moves the chip from origin to destination, removes only chips that stood on the board, and changes no other square; a queen stays a queen |
| StepFacts.StepTurn | checkers/model.py:322-328 | after a legal move the destination is pinned exactly when it was a capture and the chip can capture again; then the turn stays, otherwise it passes |
| StepFacts.StepPromotes | checkers/model.py:313-329 | a soldier becomes a queen exactly when its turn finished and it ended on rank 8 (white) or rank 1 (black) |
| StepFacts.StepStatus | checkers/model.py:256-261 | the status reported after a legal move is in progress exactly when the new side to move has a move; otherwise the side not to move has won; never a tie |
| StepFacts.RayCapture | checkers/model.py:147-167 | a queen's capture destination lies beyond a rival on her ray, with no ally before it |
| StepFacts.CapturedOnRay | checkers/model.py:263-274 | for a destination on the queen's ray, the occupied squares of the ray before it (the `Captured` squares of that ray prefix) are exactly the occupied squares strictly between the two |
| StepFacts.SoldierJumpPath | checkers/model.py:263-274 | a soldier jump's path is the one square halfway, which holds a rival |
| StepFacts.SoldierCaptureRemoves | checkers/model.py:320-321 | a soldier capture removes exactly the rival it jumps over |
| StepFacts.QueenCaptureRemoves | checkers/model.py:320-321 | a queen capture, h8 → a1 aside, removes at least one chip, and only rivals |
| StepFacts.StepCapturesRivals | checkers/model.py:320-321 | every capture, h8 → a1 aside, removes at least one chip, and only rivals |
| StepFacts.InitialPinHeld | checkers/model.py:67-68 | a new game pins nothing |
| StepFacts.StepKeepsPin | checkers/model.py:322-328 | every move, legal or not, keeps the pinned square on a chip of the side to move |
| Scenarios.StartSquare | checkers/model.py:41-64 | the starting squares are a1 c1 e1 g1 b2 d2 f2 h2 a3 c3 e3 g3 for white and b6 d6 f6 h6 a7 c7 e7 g7 b8 d8 f8 h8 for black |
| Scenarios.InitialLayout | checkers/tests/unit_tests.py:31-80 | the opening layout has 24 soldiers: 12 white on those squares and 12 black on those |
| Scenarios.NoCaptureAtStart | checkers/model.py:96-105 | no white chip can capture in the opening position |
| Scenarios.OpeningMovesExactly | checkers/tests/unit_tests.py:149-158 | white's available moves at the start are exactly a3-b4, c3-b4, c3-d4, e3-d4, e3-f4, g3-f4 and g3-h4 |
| Scenarios.ForcedCaptureOnly | checkers/model.py:232-241 | with white soldiers on a1 and c3 and a black one on d4, the capture c3 × e5 is white's only move |
| Scenarios.ForcedQuietRefused | checkers/model.py:308-309 | in that position the quiet move a1-b2 is refused and changes nothing |
| Scenarios.ForcedCaptureWins | checkers/model.py:291-330 | c3 × e5 removes d4 and passes the turn, and black, without pieces, has lost |
| Scenarios.ChainPins | checkers/model.py:320-324 | after a1 × c3 over b2 the soldier can go on capturing d4, so white keeps the turn, c3 is pinned, and c3 × e5 is the only move |
| Scenarios.LongDiagonalCaptureRemovesNothing | checkers/model.py:276-289 | a white queen on h8 may capture g7 landing on a1; with the modelled `path_in_direction` the move removes nothing and g7 stays on the board |
| Checkers.Chip.constructor | checkers/model.py:18-22 | a new chip has the given colour and is a soldier |
| Checkers.Chip.Promote | checkers/model.py:24-25 | the chip is a queen afterwards |
| Checkers.Model.constructor | checkers/model.py:39-68 | a new model is consistent, holds new chips, and its snapshot is the opening state (the opening layout, white to move, no pin) |
| Checkers.Model.NewGame | checkers/model.py:36-37 | the same as `__init__`, on an existing model |
| Checkers.Model.StartingChips | checkers/model.py:41-64 | one new soldier of the right colour on exactly the starting squares, no chip on two squares |
| Checkers.Model.BoardOf | checkers/model.py:65-66 | a new board holding each chip of the dictionary on its square and nothing elsewhere |
| Checkers.Model.EnemyInNeighbor | checkers/model.py:83-87 | `_enemy_in_neighbor` read from the board (meaning: Checkers.Model.EnemyInNeighborOnBoard) |
| Checkers.Model.EnemyInNeighborOnBoard | checkers/model.py:83-87 | on a consistent model, the board's answer is `Rules.EnemyInNeighbor` on the snapshot |
| Checkers.Model.RivalFoundMoves | checkers/model.py:127-145 | `_queen_rival_found_moves` read from the board (meaning: Checkers.Model.RivalFoundMovesOnBoard, RulesFacts.WalkRivalOpens, RulesFacts.WalkRivalStops) |
| Checkers.Model.RivalFoundMovesOnBoard | checkers/model.py:127-145 | an empty square beyond the rival is added to the moves after a capture, or replaces them as the first capture; otherwise the moves and the flag come back unchanged and the walk stops |
| Checkers.Model.SoldierAvailableJumps | checkers/model.py:96-105 | the loop computes the soldier's jumps |
| Checkers.Model.SoldierAvailableRegularMoves | checkers/model.py:107-115 | the loop computes the soldier's quiet moves |
| Checkers.Model.SoldierCanJump | checkers/model.py:117-118 | true exactly when the soldier has a jump |
| Checkers.Model.SoldierChipAvailableMoves | checkers/model.py:120-125 | the soldier's moves and capture flag |
| Checkers.Model.QueenMovesInDirection | checkers/model.py:147-167 | the `while` loop over neighbours computes the queen's result in one direction, as `RayMoves` defines it |
| Checkers.Model.QueenChipAvailableMoves | checkers/model.py:174-186 | the loop over the four directions computes the queen's moves and capture flag |
| Checkers.Model.QueenCanJump | checkers/model.py:170-172 | the queen's capture flag |
| Checkers.Model.ChipCanJump | checkers/model.py:188-194 | whether the chip on the square can capture: false on an empty square |
| Checkers.Model.ChipAvailableMoves | checkers/model.py:196-218 | the chip's moves and capture flag; none for an empty square or a rival chip |
| Checkers.Model.AvailableMoves | checkers/model.py:220-241 | the pinned chip's moves during a chain, otherwise the loop over all chips computes the moves with captures preferred |
| Checkers.Model.SquareContainsTeammate | checkers/model.py:332-349 | true exactly when the square holds a chip of the side to move |
| Checkers.Model.Promote | checkers/model.py:243-249 | promotes the chip on the square exactly when the square is on the rank `turn` selects; the model stays consistent |
| Checkers.Model.NextTurn | checkers/model.py:251-254 | the turn passes to the other side |
| Checkers.Model.GameState | checkers/model.py:256-261 | the game state of the snapshot |
| Checkers.Model.RemoveChips | checkers/model.py:263-274 | clears exactly the occupied squares of the path from board and dictionary, returns them in path order, and keeps the model consistent |
| Checkers.Model.MoveChip | checkers/model.py:313-316 | moves the chip object from origin to destination in both board and dictionary, then applies the first promotion |
| Checkers.Model.Capture | checkers/model.py:320-324 | removes the jumped chips and pins the destination exactly when the chip can capture again |
| Checkers.Model.EndTurn | checkers/model.py:326-329 | passes the turn, clears the pin and applies the second promotion |
| Checkers.Model.Play | checkers/model.py:310-329 | the state after the move and the removed squares are those of `Rules.Apply`; the chip object now on the destination is the one from the origin, and no other chip moves |
| Checkers.Model.PlayAndScore | checkers/model.py:311-330 | plays the move as `Rules.Apply` does and reports the game state of the new snapshot; the chip object on the destination is the one from the origin, and no other chip moves |
| Checkers.Model.MoveLegal | checkers/model.py:310-330 | on an available move, performs `Rules.Step` on the snapshot and never reports an invalid move; the chip object on the destination is the one from the origin |
| Checkers.Model.Move | checkers/model.py:291-330 | performs `Rules.Step` on the snapshot: an unavailable move changes nothing and reports an invalid move; a legal one moves the same chip object to the destination and reports the game state |

## Left out

- The `gameboard` library (`Gameboard`, `Direction`, `Coordinate`) is not
  part of this model. Its `neighbor_in_direction` and `path_in_direction`
  are defined by index arithmetic on squares 0..63 (module `Board`).
  `get_content`, `set_content`, `clear_square` and `move` are array reads
  and writes on `board`.
- The `isinstance` checks that raise `TypeError` (checkers/model.py:207-208,
  304-307, 343-344) and the `ValueError` of `Chip.__init__`
  (checkers/model.py:19-20) are not modelled. Squares and colours are
  Dafny types, so no other argument can be passed.
- The pygame interface (`checkers/checkers.py`) and the packaging metadata
  (`setup.py`) are outside the rules engine.
- The long scripted games of checkers/tests/unit_tests.py:426-475 are not
  replayed move by move. Shorter positions of the same kinds are in
  module `Scenarios`.
- The dictionary's iteration order in `available_moves` is not modelled.
  The loop takes the chips in an arbitrary order, and the result is proved
  not to depend on it.
- The `gameboard` library's `path_in_direction` is not part of this
  model. `Board.PathInDirection` assumes it walks from the origin in the
  given direction until the destination or the edge of the board. On the
  move h8 → a1, for which `_direction_of_move` gives top_left, the real
  library may raise or walk differently; the model's answer (nothing is
  removed) depends on that assumption.
- QueenCaptureRemoves: states nothing about the capture h8 → a1, whose
  removals rest on the assumption about `path_in_direction` above
  (Scenarios.LongDiagonalCaptureRemovesNothing).
- StepCapturesRivals: states nothing about the capture h8 → a1, for the
  same reason.
