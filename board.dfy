/** The board geometry the rules engine relies on: the 64 squares of the
    `gameboard` library, the four diagonal directions, the neighbour of a
    square, the squares strictly between two squares, and the decoding of a
    move's direction from the distance between its two squares.

    Squares are numbered as the library's coordinates are: a1 = 0, a2 = 1,
    ..., a8 = 7, b1 = 8, ..., h8 = 63, so the file (a..h) of square i is
    i / 8 and its rank (1..8) is i % 8 + 1. */
module Board {

  datatype Option<T> = None | Some(value: T)

  type Square = i: int | 0 <= i < 64

  /** The file of a square, 0 for a through 7 for h. */
  function File(s: Square): (f: int)
    ensures 0 <= f < 8
  {
    s / 8
  }

  /** The rank of a square, 0 for rank 1 through 7 for rank 8. */
  function Rank(s: Square): (k: int)
    ensures 0 <= k < 8
  {
    s % 8
  }

  /** A square is determined by its file and its rank. */
  lemma SquareOfFileRank(s: Square)
    ensures s == 8 * File(s) + Rank(s)
  {
  }

  /** The diagonal directions, fixed relative to the board: "top" is toward
      rank 8, "right" toward file h. */
  datatype Direction = TopLeft | TopRight | BtmLeft | BtmRight

  function FileStep(d: Direction): int
  {
    if d == TopRight || d == BtmRight then 1 else -1
  }

  function RankStep(d: Direction): int
  {
    if d == TopLeft || d == TopRight then 1 else -1
  }

  /** The index distance of one diagonal step: top_right = +9, top_left = -7,
      btm_right = +7, btm_left = -9. */
  function Offset(d: Direction): (k: int)
    ensures k == 8 * FileStep(d) + RankStep(d)
  {
    match d
    case TopRight => 9
    case TopLeft => -7
    case BtmRight => 7
    case BtmLeft => -9
  }

  /** The neighbour of `s` one diagonal step in direction `d`, absent when that
      step leaves the board. */
  function Neighbor(s: Square, d: Direction): (r: Option<Square>)
    ensures r.Some? <==> 0 <= File(s) + FileStep(d) < 8 && 0 <= Rank(s) + RankStep(d) < 8
    ensures r.Some? ==> r.value == s + Offset(d)
    ensures r.Some? ==> File(r.value) == File(s) + FileStep(d) && Rank(r.value) == Rank(s) + RankStep(d)
  {
    var f, k := File(s) + FileStep(d), Rank(s) + RankStep(d);
    if 0 <= f < 8 && 0 <= k < 8 then Some(8 * f + k) else None
  }

  /** How many steps in direction `d` the rank of `s` still allows; it
      strictly decreases along every neighbour step. */
  function StepsToEdge(s: Square, d: Direction): (n: nat)
    ensures n < 8
  {
    if RankStep(d) == 1 then 7 - Rank(s) else Rank(s)
  }

  lemma StepsToEdgeDecrease(s: Square, d: Direction)
    requires Neighbor(s, d).Some?
    ensures StepsToEdge(Neighbor(s, d).value, d) == StepsToEdge(s, d) - 1
  {
  }

  /** The squares met walking from `s` (exclusive) in direction `d` up to the
      edge of the board, nearest first. */
  function Ray(s: Square, d: Direction): (r: seq<Square>)
    ensures |r| <= StepsToEdge(s, d)
    decreases StepsToEdge(s, d)
  {
    match Neighbor(s, d)
    case None => []
    case Some(n) => StepsToEdgeDecrease(s, d); [n] + Ray(n, d)
  }

  /** The i-th square of a ray lies i + 1 diagonal steps away. */
  lemma {:induction false} RayAt(s: Square, d: Direction, i: nat)
    requires i < |Ray(s, d)|
    ensures File(Ray(s, d)[i]) == if FileStep(d) == 1 then File(s) + i + 1 else File(s) - i - 1
    ensures Rank(Ray(s, d)[i]) == if RankStep(d) == 1 then Rank(s) + i + 1 else Rank(s) - i - 1
    decreases StepsToEdge(s, d)
  {
    var n := Neighbor(s, d).value;
    if i > 0 {
      RayAt(n, d, i - 1);
    }
  }

  /** A ray never visits a square twice. */
  lemma RayDistinct(s: Square, d: Direction, i: nat, j: nat)
    requires i < j < |Ray(s, d)|
    ensures Ray(s, d)[i] != Ray(s, d)[j]
  {
    RayAt(s, d, i);
    RayAt(s, d, j);
  }

  /** A ray never returns to its starting square. */
  lemma RayAvoidsStart(s: Square, d: Direction, i: nat)
    requires i < |Ray(s, d)|
    ensures Ray(s, d)[i] != s
  {
    RayAt(s, d, i);
  }

  /** Walking on from the i-th square of a ray gives the rest of the ray. */
  lemma {:induction false} RaySuffix(s: Square, d: Direction, i: nat)
    requires i < |Ray(s, d)|
    ensures Ray(Ray(s, d)[i], d) == Ray(s, d)[i + 1..]
    decreases StepsToEdge(s, d)
  {
    var n := Neighbor(s, d).value;
    if i > 0 {
      RaySuffix(n, d, i - 1);
    }
  }

  /** The neighbour of the i-th square of a ray is the next square of the
      ray, or absent at the end of the ray. */
  lemma RayNext(s: Square, d: Direction, i: nat)
    requires i < |Ray(s, d)|
    ensures Neighbor(Ray(s, d)[i], d) == if i + 1 < |Ray(s, d)| then Some(Ray(s, d)[i + 1]) else None
  {
    RaySuffix(s, d, i);
  }

  /** The gameboard library's `path_in_direction`: the squares strictly
      between `origin` and `destination`, walking from `origin` in direction
      `d`. When `destination` is not on that walk the walk ends at the edge of
      the board. */
  function PathInDirection(origin: Square, destination: Square, d: Direction): (r: seq<Square>)
    ensures destination !in r
    ensures forall k :: 0 <= k < |r| ==> StepsToEdge(r[k], d) < StepsToEdge(origin, d)
    decreases StepsToEdge(origin, d)
  {
    match Neighbor(origin, d)
    case None => []
    case Some(n) =>
      StepsToEdgeDecrease(origin, d);
      if n == destination then [] else [n] + PathInDirection(n, destination, d)
  }

  /** The path never visits a square twice. */
  lemma {:induction false} PathInDirectionDistinct(origin: Square, destination: Square, d: Direction, i: nat, j: nat)
    requires i < j < |PathInDirection(origin, destination, d)|
    ensures PathInDirection(origin, destination, d)[i] != PathInDirection(origin, destination, d)[j]
    decreases StepsToEdge(origin, d)
  {
    var n := Neighbor(origin, d).value;
    StepsToEdgeDecrease(origin, d);
    var rest := PathInDirection(n, destination, d);
    assert PathInDirection(origin, destination, d) == [n] + rest;
    if i == 0 {
      assert StepsToEdge(rest[j - 1], d) < StepsToEdge(n, d);
    } else {
      PathInDirectionDistinct(n, destination, d, i - 1, j - 1);
    }
  }

  /** On a ray, the path to the i-th square is the part of the ray before it. */
  lemma {:induction false} PathAlongRay(origin: Square, d: Direction, i: nat)
    requires i < |Ray(origin, d)|
    ensures PathInDirection(origin, Ray(origin, d)[i], d) == Ray(origin, d)[..i]
    decreases StepsToEdge(origin, d)
  {
    var ray := Ray(origin, d);
    var n := Neighbor(origin, d).value;
    if i > 0 {
      RayDistinct(origin, d, 0, i);
      PathAlongRay(n, d, i - 1);
    }
  }

  /** `_direction_of_move`: the direction is decoded from the index distance.
      A negative distance divisible by 7 reads as top_left, any other negative
      one as btm_left; a non-negative distance divisible by 9 reads as
      top_right, any other as btm_right. (Python's `%` and Dafny's `%` agree
      for a positive divisor: the remainder is never negative.) */
  function DirectionOfMove(origin: Square, destination: Square): Direction
  {
    var distance := destination - origin;
    if distance < 0 then
      if distance % 7 == 0 then TopLeft else BtmLeft
    else
      if distance % 9 == 0 then TopRight else BtmRight
  }

  /** The decoding returns the direction of every diagonal move except the
      one move h8 -> a1 (distance -63, a multiple of both 7 and 9). */
  lemma DirectionOfMoveOnRay(origin: Square, d: Direction, i: nat)
    requires i < |Ray(origin, d)|
    requires !(origin == 63 && Ray(origin, d)[i] == 0)
    ensures DirectionOfMove(origin, Ray(origin, d)[i]) == d
  {
    var destination := Ray(origin, d)[i];
    RayAt(origin, d, i);
    SquareOfFileRank(origin);
    SquareOfFileRank(destination);
    // seven btm_left steps lead only from h8 to a1, which is excluded
    assert d == BtmLeft ==> i + 1 < 7;
    DecodeDistance(destination - origin, d, i + 1);
  }

  /** The distance of `steps` diagonal steps in direction `d`. */
  function StepsDistance(d: Direction, steps: int): int
  {
    match d
    case TopLeft => -7 * steps
    case TopRight => 9 * steps
    case BtmRight => 7 * steps
    case BtmLeft => -9 * steps
  }

  /** The decoding of `_direction_of_move`, applied to one to seven steps in
      a direction (fewer than seven btm_left). */
  lemma DecodeDistance(distance: int, d: Direction, steps: int)
    requires 1 <= steps <= 7 && (d == BtmLeft ==> steps < 7)
    requires distance == StepsDistance(d, steps)
    ensures d == (if distance < 0 then (if distance % 7 == 0 then TopLeft else BtmLeft)
                  else (if distance % 9 == 0 then TopRight else BtmRight))
  {
    if steps == 1 {
    } else if steps == 2 {
    } else if steps == 3 {
    } else if steps == 4 {
    } else if steps == 5 {
    } else if steps == 6 {
    } else {
    }
  }

  /** The exception: h8 -> a1 is a btm_left move that decodes as top_left,
      and walking top_left from h8 leaves the board at once, so the path
      between the two squares comes out empty instead of b2..g7. */
  lemma DirectionOfLongDiagonalDown()
    ensures Ray(63, BtmLeft) == [54, 45, 36, 27, 18, 9, 0]
    ensures DirectionOfMove(63, 0) == TopLeft
    ensures PathInDirection(63, 0, DirectionOfMove(63, 0)) == []
  {
    assert Neighbor(63, BtmLeft) == Some(54);
    assert Neighbor(54, BtmLeft) == Some(45);
    assert Neighbor(45, BtmLeft) == Some(36);
    assert Neighbor(36, BtmLeft) == Some(27);
    assert Neighbor(27, BtmLeft) == Some(18);
    assert Neighbor(18, BtmLeft) == Some(9);
    assert Neighbor(9, BtmLeft) == Some(0);
    assert Neighbor(0, BtmLeft) == None;
    assert Ray(63, BtmLeft) == [54, 45, 36, 27, 18, 9, 0];
  }
}
