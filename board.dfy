/** Cells, positions and the configuration snapshot that every estimator reads. */
module Board {

  datatype Option<T> = None | Some(value: T)

  /** A grid cell: empty, or the symbol of a box (upper case) or of a goal (lower case). */
  type Cell = Option<char>

  /** A MAX_ROW x MAX_COL grid, row by row. */
  type Grid = seq<seq<Cell>>

  /** A (row, column) coordinate. */
  type Pos = (int, int)

  /** The part of a search state the heuristics read: the agent position,
      the box grid, the goal grid and the path cost g. */
  datatype State = State(agentRow: int, agentCol: int, boxes: Grid, goals: Grid, g: int)

  /** The grid has exactly `rows` rows of `cols` cells each. */
  predicate Shaped(grid: Grid, rows: nat, cols: nat)
  {
    |grid| == rows && forall i :: 0 <= i < rows ==> |grid[i]| == cols
  }

  predicate InBounds(p: Pos, rows: nat, cols: nat)
  {
    0 <= p.0 < rows && 0 <= p.1 < cols
  }

  /** The cell at (i, j), read as empty outside the grid. */
  function At(grid: Grid, i: int, j: int): Cell
  {
    if 0 <= i < |grid| && 0 <= j < |grid[i]| then grid[i][j] else None
  }

  /** The ASCII case mapping of a one-character string's lower(). */
  function Lower(c: char): char
  {
    if 'A' <= c <= 'Z' then (c as int - 'A' as int + 'a' as int) as char else c
  }

  function Abs(x: int): nat
  {
    if x < 0 then -x else x
  }

  function Manhattan(a: Pos, b: Pos): nat
  {
    Abs(a.0 - b.0) + Abs(a.1 - b.1)
  }

  /** A box matches a goal cell when the box's lower-case symbol equals the goal's symbol. */
  predicate Matches(box: Cell, goal: Cell)
  {
    box.Some? && goal == Some(Lower(box.value))
  }

  /** The goal cell at p holds a box of its own type. */
  predicate Satisfied(s: State, p: Pos)
  {
    Matches(At(s.boxes, p.0, p.1), At(s.goals, p.0, p.1))
  }

  lemma LowerMapsLetters(c: char)
    ensures 'A' <= c <= 'Z' ==> 'a' <= Lower(c) <= 'z' && Lower(c) as int == c as int + 32
    ensures !('A' <= c <= 'Z') ==> Lower(c) == c
    ensures Lower(Lower(c)) == Lower(c)
  {
  }

  /** A box on a goal of another type (or no box at all) never satisfies the goal. */
  lemma MismatchNeverSatisfies(s: State, p: Pos)
    requires At(s.boxes, p.0, p.1).None? ||
             At(s.goals, p.0, p.1) != Some(Lower(At(s.boxes, p.0, p.1).value))
    ensures !Satisfied(s, p)
  {
  }
}
