/** The goal index: the goal cells of the initial goal grid, in row-major order. */
module GoalIndex {
  import opened Board

  /** The non-empty cells (i, j') of row i with j' < j, left to right. */
  function RowGoals(grid: Grid, i: int, j: nat): seq<Pos>
  {
    if j == 0 then []
    else RowGoals(grid, i, j - 1) + (if At(grid, i, j - 1).Some? then [(i, j - 1)] else [])
  }

  /** The non-empty cells of the first `rows` rows, in row-major order:
      what the constructor's two nested loops append to the deque. */
  function GoalCells(grid: Grid, rows: nat, cols: nat): seq<Pos>
  {
    if rows == 0 then []
    else GoalCells(grid, rows - 1, cols) + RowGoals(grid, rows - 1, cols)
  }

  /** The set of non-empty cells of a rows x cols grid. */
  function GoalCellSet(grid: Grid, rows: nat, cols: nat): set<Pos>
  {
    set i, j | 0 <= i < rows && 0 <= j < cols && At(grid, i, j).Some? :: (i, j)
  }

  /** p comes strictly before q in row-major order. */
  predicate Before(p: Pos, q: Pos)
  {
    p.0 < q.0 || (p.0 == q.0 && p.1 < q.1)
  }

  predicate RowMajor(ps: seq<Pos>)
  {
    forall a, b :: 0 <= a < b < |ps| ==> Before(ps[a], ps[b])
  }

  predicate Distinct(ps: seq<Pos>)
  {
    forall a, b :: 0 <= a < b < |ps| ==> ps[a] != ps[b]
  }

  lemma {:induction false} RowGoalsMembership(grid: Grid, i: int, j: nat, p: Pos)
    ensures p in RowGoals(grid, i, j) <==> p.0 == i && 0 <= p.1 < j && At(grid, i, p.1).Some?
  {
    if j > 0 {
      RowGoalsMembership(grid, i, j - 1, p);
    }
  }

  /** A cell is indexed exactly when it lies in the grid and is not empty. */
  lemma {:induction false} GoalCellsMembership(grid: Grid, rows: nat, cols: nat, p: Pos)
    ensures p in GoalCells(grid, rows, cols) <==> InBounds(p, rows, cols) && At(grid, p.0, p.1).Some?
  {
    if rows > 0 {
      GoalCellsMembership(grid, rows - 1, cols, p);
      RowGoalsMembership(grid, rows - 1, cols, p);
    }
  }

  lemma ConcatRowMajor(xs: seq<Pos>, ys: seq<Pos>)
    requires RowMajor(xs) && RowMajor(ys)
    requires forall p, q :: p in xs && q in ys ==> Before(p, q)
    ensures RowMajor(xs + ys)
  {
  }

  lemma {:induction false} RowGoalsRowMajor(grid: Grid, i: int, j: nat)
    ensures RowMajor(RowGoals(grid, i, j))
  {
    if j > 0 {
      RowGoalsRowMajor(grid, i, j - 1);
      var last: seq<Pos> := if At(grid, i, j - 1).Some? then [(i, j - 1)] else [];
      forall p, q | p in RowGoals(grid, i, j - 1) && q in last
        ensures Before(p, q)
      {
        RowGoalsMembership(grid, i, j - 1, p);
      }
      ConcatRowMajor(RowGoals(grid, i, j - 1), last);
    }
  }

  /** The index lists the goal cells in strictly increasing row-major order. */
  lemma {:induction false} GoalCellsRowMajor(grid: Grid, rows: nat, cols: nat)
    ensures RowMajor(GoalCells(grid, rows, cols))
  {
    if rows > 0 {
      GoalCellsRowMajor(grid, rows - 1, cols);
      RowGoalsRowMajor(grid, rows - 1, cols);
      forall p, q | p in GoalCells(grid, rows - 1, cols) && q in RowGoals(grid, rows - 1, cols)
        ensures Before(p, q)
      {
        GoalCellsMembership(grid, rows - 1, cols, p);
        RowGoalsMembership(grid, rows - 1, cols, q);
      }
      ConcatRowMajor(GoalCells(grid, rows - 1, cols), RowGoals(grid, rows - 1, cols));
    }
  }

  lemma RowMajorDistinct(ps: seq<Pos>)
    requires RowMajor(ps)
    ensures Distinct(ps)
  {
  }

  /** A duplicate-free sequence has as many elements as its set. */
  lemma {:induction false} DistinctCard(ps: seq<Pos>)
    requires Distinct(ps)
    ensures |set p | p in ps| == |ps|
  {
    if ps != [] {
      var tail := ps[1..];
      assert Distinct(tail) by {
        forall a, b | 0 <= a < b < |tail| ensures tail[a] != tail[b] {
          assert tail[a] == ps[a + 1] && tail[b] == ps[b + 1];
        }
      }
      DistinctCard(tail);
      assert ps[0] !in tail by {
        forall k | 0 <= k < |tail| ensures tail[k] != ps[0] {
          assert tail[k] == ps[k + 1];
        }
      }
      assert (set p | p in ps) == (set p | p in tail) + {ps[0]} by {
        assert ps == [ps[0]] + tail;
      }
    }
  }

  /** The index holds each goal cell once: its length is the number of goal cells. */
  lemma GoalCellsCount(grid: Grid, rows: nat, cols: nat)
    ensures Distinct(GoalCells(grid, rows, cols))
    ensures |GoalCells(grid, rows, cols)| == |GoalCellSet(grid, rows, cols)|
  {
    var ps := GoalCells(grid, rows, cols);
    GoalCellsRowMajor(grid, rows, cols);
    RowMajorDistinct(ps);
    DistinctCard(ps);
    forall p ensures p in ps <==> p in GoalCellSet(grid, rows, cols) {
      GoalCellsMembership(grid, rows, cols, p);
    }
    assert (set p | p in ps) == GoalCellSet(grid, rows, cols);
  }
}
