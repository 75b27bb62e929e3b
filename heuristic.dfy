/** The heuristic object: the goal deque built once from the initial state, the
    six estimators that drain a copy of it, and the evaluation function f. */
module Heuristics {
  import opened Board
  import opened GoalIndex
  import opened Estimates
  import opened Evaluation

  class Heuristic {
    /** Which of AStar, WAStar(w) and Greedy this object is. */
    const kind: Strategy
    /** State.MAX_ROW and State.MAX_COL. */
    const rows: nat
    const cols: nat
    /** The goal deque, front first. */
    var goals: seq<Pos>

    ghost predicate Valid()
      reads this
    {
      forall p :: p in goals ==> InBounds(p, rows, cols)
    }

    /** The live state's grids have the fixed dimensions. */
    predicate Fits(s: State)
    {
      Shaped(s.boxes, rows, cols) && Shaped(s.goals, rows, cols)
    }

    /** Appends every non-empty cell of the initial goal grid, row by row. */
    constructor (kind: Strategy, initial: State, maxRow: nat, maxCol: nat)
      requires Shaped(initial.goals, maxRow, maxCol)
      ensures this.kind == kind && rows == maxRow && cols == maxCol
      ensures goals == GoalCells(initial.goals, maxRow, maxCol)
      ensures Valid()
    {
      this.kind := kind;
      rows, cols := maxRow, maxCol;
      goals := [];
      new;
      for i := 0 to maxRow
        invariant goals == GoalCells(initial.goals, i, maxCol)
      {
        for j := 0 to maxCol
          invariant goals == GoalCells(initial.goals, i, maxCol) + RowGoals(initial.goals, i, j)
        {
          if initial.goals[i][j] != None {
            goals := goals + [(i, j)];
          }
        }
      }
      forall p | p in goals ensures InBounds(p, rows, cols) {
        GoalCellsMembership(initial.goals, maxRow, maxCol, p);
      }
    }

    /** The estimate f orders the frontier with: h4. */
    method H(s: State) returns (r: int)
      requires Valid() && Fits(s)
      ensures r == MaxTerm(BoxDistance, s, rows, cols, goals)
    {
      r := H4(s);
    }

    /** Sum over the goals of the agent's Manhattan distance to the goal. */
    method H1(s: State) returns (cost: int)
      ensures cost == Sum(AgentDistance, s, rows, cols, goals)
    {
      var work := goals;
      cost := 0;
      var n := |work|;
      for k := 0 to n
        invariant work == goals[..n - k]
        invariant cost == Sum(AgentDistance, s, rows, cols, goals[n - k..])
      {
        var goal := work[|work| - 1];
        work := work[..|work| - 1];
        assert goals[n - k - 1..][1..] == goals[n - k..];
        cost := cost + Abs(s.agentRow - goal.0) + Abs(s.agentCol - goal.1);
      }
    }

    /** Number of goals without a box of their type. */
    method H2(s: State) returns (cost: int)
      requires Valid() && Fits(s)
      ensures cost == Sum(Unsatisfied, s, rows, cols, goals)
    {
      var work := goals;
      cost := 0;
      var n := |work|;
      for k := 0 to n
        invariant work == goals[..n - k]
        invariant cost == Sum(Unsatisfied, s, rows, cols, goals[n - k..])
      {
        var goal := work[|work| - 1];
        work := work[..|work| - 1];
        assert goals[n - k - 1..][1..] == goals[n - k..];
        assert goal in goals;
        var box := s.boxes[goal.0][goal.1];
        if (box.Some? && Some(Lower(box.value)) != s.goals[goal.0][goal.1]) || box.None? {
          cost := cost + 1;
        }
      }
    }

    /** Distances from every box of the goal's type to the goal: the grid scan
        shared by h3, h4 and h5. */
    method ScanBoxes(s: State, goal: Pos) returns (d: int)
      requires Fits(s) && InBounds(goal, rows, cols)
      ensures d == Term(BoxDistance, s, rows, cols, goal)
    {
      var sym := s.goals[goal.0][goal.1];
      d := 0;
      for i := 0 to rows
        invariant d == BoxDistancePrefix(s.boxes, sym, goal, i, cols)
      {
        for j := 0 to cols
          invariant d == BoxDistancePrefix(s.boxes, sym, goal, i, cols) + RowBoxDistance(s.boxes, sym, goal, i, j)
        {
          var box := s.boxes[i][j];
          if box.Some? && Some(Lower(box.value)) == sym {
            d := d + Abs(i - goal.0) + Abs(j - goal.1);
          }
        }
      }
    }

    /** Sum over the goals of the distances of the matching boxes. */
    method H3(s: State) returns (cost: int)
      requires Valid() && Fits(s)
      ensures cost == Sum(BoxDistance, s, rows, cols, goals)
    {
      var work := goals;
      cost := 0;
      var n := |work|;
      for k := 0 to n
        invariant work == goals[k..]
        invariant cost == Sum(BoxDistance, s, rows, cols, goals[..k])
      {
        var goal := work[0];
        work := work[1..];
        assert goal in goals;
        var d := ScanBoxes(s, goal);
        assert goals[..k + 1] == goals[..k] + [goal];
        SumSnoc(BoxDistance, s, rows, cols, goals[..k], goal);
        cost := cost + d;
      }
      assert goals[..n] == goals;
    }

    /** Maximum over the goals of the distances of the matching boxes. */
    method H4(s: State) returns (maxCost: int)
      requires Valid() && Fits(s)
      ensures maxCost == MaxTerm(BoxDistance, s, rows, cols, goals)
    {
      var work := goals;
      var cost := 0;
      maxCost := 0;
      var n := |work|;
      for k := 0 to n
        invariant work == goals[..n - k]
        invariant maxCost == MaxTerm(BoxDistance, s, rows, cols, goals[n - k..])
      {
        cost := 0;
        var goal := work[|work| - 1];
        work := work[..|work| - 1];
        assert goals[n - k - 1..][1..] == goals[n - k..];
        assert goal in goals;
        var d := ScanBoxes(s, goal);
        cost := cost + d;
        if cost > maxCost {
          maxCost := cost;
        }
      }
    }

    /** Rotates the deque once, re-appending only the unsatisfied goals, then sums
        the matching-box distances over what is left. */
    method H5(s: State) returns (cost: int)
      requires Valid() && Fits(s)
      ensures cost == Sum(BoxDistance, s, rows, cols, UnsatisfiedGoals(s, goals))
    {
      var work := goals;
      cost := 0;
      var n := |work|;
      for k := 0 to n
        invariant work == goals[k..] + UnsatisfiedGoals(s, goals[..k])
      {
        var goal := work[0];
        work := work[1..];
        assert goal == goals[k] && goal in goals;
        assert goals[..k + 1] == goals[..k] + [goal];
        UnsatisfiedGoalsSnoc(s, goals[..k], goal);
        var box := s.boxes[goal.0][goal.1];
        if (box.Some? && Some(Lower(box.value)) != s.goals[goal.0][goal.1]) || box.None? {
          work := work + [goal];
        }
      }
      assert goals[..n] == goals;
      ghost var pending := work;
      forall p | p in pending ensures InBounds(p, rows, cols) {
        UnsatisfiedGoalsMembership(s, goals, p);
      }
      var m := |work|;
      for k := 0 to m
        invariant work == pending[..m - k]
        invariant cost == Sum(BoxDistance, s, rows, cols, pending[m - k..])
      {
        var goal := work[|work| - 1];
        work := work[..|work| - 1];
        assert pending[m - k - 1..][1..] == pending[m - k..];
        assert goal in pending;
        var d := ScanBoxes(s, goal);
        cost := cost + d;
      }
    }

    /** Lateral box distances in each goal's row, plus an agent term seeded with 1000. */
    method H6(s: State) returns (cost: int)
      requires Valid() && Shaped(s.boxes, rows, cols)
      ensures cost == RowEstimate(s, rows, cols, goals)
    {
      var work := goals;
      cost := 0;
      var agentToBoxMin := 1000;
      var n := |work|;
      for k := 0 to n
        invariant work == goals[..n - k]
        invariant cost == Sum(RowLateral, s, rows, cols, goals[n - k..])
        invariant agentToBoxMin == Reach(s.agentRow, s.agentCol, cols, goals[n - k..], 1000)
      {
        var goal := work[|work| - 1];
        work := work[..|work| - 1];
        assert goals[n - k - 1..][1..] == goals[n - k..];
        assert goal in goals;
        ghost var cost0, min0 := cost, agentToBoxMin;
        for j := 0 to cols
          invariant cost == cost0 + LateralPrefix(s.boxes, goal, j)
          invariant agentToBoxMin == ReachPrefix(s.agentRow, s.agentCol, goal, j, min0)
        {
          if agentToBoxMin < Abs(j - s.agentCol) + Abs(s.agentRow - goal.0) && j != goal.1 {
            agentToBoxMin := Abs(j - s.agentCol) + Abs(s.agentRow - goal.0);
          }
          if s.boxes[goal.0][j].Some? && j != goal.1 {
            cost := cost + Abs(j - goal.1);
          }
        }
      }
      cost := cost + agentToBoxMin;
    }

    /** f(state): g + h for A*, g + w * h for WA*, h for greedy. */
    method F(s: State) returns (r: int)
      requires Valid() && Fits(s)
      ensures r == Evaluate(kind, s.g, MaxTerm(BoxDistance, s, rows, cols, goals))
    {
      var h := H(s);
      r := Evaluate(kind, s.g, h);
    }
  }
}
