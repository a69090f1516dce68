/** The board the decision engine works on, and the Board Geometry
    collaborator (`capacity` and `neighbors`) it is given. */
module Grid {

  /** The value a cell holds when no player owns it. */
  const Unowned: int := -1

  /** One cell of the grid: its owner (a player index or `Unowned`), the
      number of orbs on it, and whether it is an obstacle. */
  datatype Cell = Cell(owner: int, count: nat, blocked: bool)

  /** A coordinate: column `x` and row `y`; the board is indexed `b[y][x]`. */
  datatype Coord = Coord(x: int, y: int)

  /** A board is a list of rows. */
  type Board = seq<seq<Cell>>

  /** The Board Geometry collaborator, injected as two functions:
      `capacity(x, y, rows, cols)` and `neighbors(x, y, rows, cols, board)`. */
  datatype Geometry = Geometry(
    capacity: (int, int, int, int) -> int,
    neighbors: (int, int, int, int, Board) -> seq<Coord>)

  /** What every engine function is handed besides the board. */
  datatype Env = Env(geom: Geometry, rows: nat, cols: nat)

  predicate InBounds(env: Env, c: Coord) {
    0 <= c.x < env.cols && 0 <= c.y < env.rows
  }

  ghost predicate AllIn(env: Env, cs: seq<Coord>) {
    forall c :: c in cs ==> InBounds(env, c)
  }

  /** The board has `rows` rows of `cols` cells each. */
  predicate Shaped(env: Env, b: Board) {
    |b| == env.rows && forall y :: 0 <= y < |b| ==> |b[y]| == env.cols
  }

  function At(env: Env, b: Board, c: Coord): Cell
    requires Shaped(env, b) && InBounds(env, c)
  {
    b[c.y][c.x]
  }

  /** `capacity(x, y, rows, cols)` as the geometry reports it. */
  function Cap(env: Env, c: Coord): int {
    env.geom.capacity(c.x, c.y, env.rows, env.cols)
  }

  /** `neighbors(x, y, rows, cols, board)` as the geometry reports it. */
  function Neighbors(env: Env, b: Board, c: Coord): seq<Coord> {
    env.geom.neighbors(c.x, c.y, env.rows, env.cols, b)
  }

  ghost predicate NeighborsOk(env: Env, b: Board, ns: seq<Coord>)
    requires Shaped(env, b)
  {
    forall n :: n in ns ==> InBounds(env, n) && !At(env, b, n).blocked
  }

  /** What the engine assumes of the geometry it cannot see: every
      capacity is at least 1, and every neighbour reported for an in-bounds
      cell is itself in bounds and not blocked on the board it was asked about. */
  ghost predicate ValidGeometry(env: Env) {
    && (forall c :: InBounds(env, c) ==> Cap(env, c) >= 1)
    && (forall b, c :: Shaped(env, b) && InBounds(env, c) ==> NeighborsOk(env, b, Neighbors(env, b, c)))
  }

  /** The board with cell `c` replaced by `v`. */
  function SetCell(env: Env, b: Board, c: Coord, v: Cell): (r: Board)
    requires Shaped(env, b) && InBounds(env, c)
    ensures Shaped(env, r)
    ensures At(env, r, c) == v
    ensures forall d :: InBounds(env, d) && d != c ==> At(env, r, d) == At(env, b, d)
  {
    b[c.y := b[c.y][c.x := v]]
  }

  /** The cells that come before column `x` of row `y` in the row-major
      scan order of the engine's nested `for y / for x` loops. */
  function Before(cols: nat, y: nat, x: nat): seq<Coord>
    requires x <= cols
    decreases y, x
  {
    if x == 0 then (if y == 0 then [] else Before(cols, y - 1, cols))
    else Before(cols, y, x - 1) + [Coord(x - 1, y)]
  }

  /** Every cell of the board, in scan order. */
  function AllCells(env: Env): (r: seq<Coord>)
    ensures forall c :: c in r <==> InBounds(env, c)
  {
    ScanCoversBoard(env);
    Before(env.cols, env.rows, 0)
  }

  lemma {:induction false} BeforeMembers(cols: nat, y: nat, x: nat, c: Coord)
    requires x <= cols
    ensures c in Before(cols, y, x) <==>
              0 <= c.x < cols && 0 <= c.y && (c.y < y || (c.y == y && c.x < x))
    decreases y, x
  {
    if x == 0 {
      if y > 0 {
        BeforeMembers(cols, y - 1, cols, c);
      }
    } else {
      BeforeMembers(cols, y, x - 1, c);
    }
  }

  /** The full scan visits exactly the cells of the board. */
  lemma ScanCoversBoard(env: Env)
    ensures forall c :: c in Before(env.cols, env.rows, 0) <==> InBounds(env, c)
  {
    forall c ensures c in Before(env.cols, env.rows, 0) <==> InBounds(env, c) {
      BeforeMembers(env.cols, env.rows, 0, c);
    }
  }

  /** A scan that has not gone past the last row stays on the board. */
  lemma BeforeInBounds(env: Env, y: nat, x: nat)
    requires x <= env.cols && (y < env.rows || (y == env.rows && x == 0))
    ensures AllIn(env, Before(env.cols, y, x))
  {
    forall c | c in Before(env.cols, y, x) ensures InBounds(env, c) {
      BeforeMembers(env.cols, y, x, c);
    }
  }

  /** No coordinate occurs twice. */
  predicate Distinct(cs: seq<Coord>) {
    forall i, j :: 0 <= i < j < |cs| ==> cs[i] != cs[j]
  }
}
