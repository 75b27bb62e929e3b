# Heuristic evaluation for a box-pushing search client

This project models the heuristic module of a best-first search client for a
grid puzzle. In the puzzle an agent pushes typed boxes (`A`, `B`, …) onto goal
cells of the matching type (`a`, `b`, …). The module has three parts:

- **Goal index.** The constructor scans the initial goal grid row by row. It
  appends every non-empty goal cell `(i, j)` to a deque, `goals`.
- **Estimators `h1`–`h6`.** Each one copies the deque, drains the copy with
  `pop` or `popleft`, and adds up an integer cost.
  - `h1` sums the agent's Manhattan distance to every goal.
  - `h2` counts the goals that do not hold a box of their type.
  - `h3` sums, over the goals, the distances of every box of the goal's type.
  - `h4` takes the maximum of `h3`'s per-goal terms. `h` uses `h4`.
  - `h5` first rotates the deque once, keeping only the unsatisfied goals,
    then sums `h3`'s term over those goals.
  - `h6` adds the column distances of the boxes in each goal's row to an
    agent term. The agent term starts at 1000 and is a running maximum.
- **Evaluation functions.** A* uses `g + h`, weighted A* uses `g + w·h` and
  greedy uses `h`, each with a fixed label.

Dafny layout, one module per component:

- `board.dfy` (`Board`): cells `Option<char>`, grids as `seq<seq<Cell>>`,
  positions, the state snapshot (agent position, box grid, goal grid, `g`),
  the ASCII `lower()`, and when a box matches a goal.
- `goal_index.dfy` (`GoalIndex`): `GoalCells`, the row-major list of goal
  cells, and its properties.
- `estimates.dfy` (`Estimates`): reference definitions of what each estimator
  computes. These are per-goal terms, their sum and maximum, the unsatisfied
  goals, and `h6`'s running maximum. The file also proves the lemmas relating
  these definitions.
- `heuristic.dfy` (`Heuristics`): class `Heuristic`. It holds the deque as a
  `seq<Pos>` field, the grid dimensions and the strategy. Its constructor is
  the nested scan. Its methods `H1`–`H6`, `H` and `F` are the draining loops,
  each proved equal to its reference definition. The methods have no
  `modifies` clause, so no estimator can change `goals` or anything else.
- `evaluation.dfy` (`Evaluation`): the strategy tag, `f`, and the labels,
  including decimal formatting of the weight.
- `scenarios.dfy` (`Scenarios`): small 3 × 3 configurations with their values.

The deque copy is a local `seq`. `pop` drops its last element and `popleft`
its first. `h5`'s re-`append` adds to the back of the same local sequence it
is draining. The grid dimensions `State.MAX_ROW` and `State.MAX_COL` are the
constructor parameters `maxRow` and `maxCol`, stored in the fields `rows` and
`cols`. The constructor requires the initial goal grid to have those
dimensions. `h2`–`h5` require both of the live state's grids to have them.
`h6` reads only the box grid, so it requires only that grid to have them.
`h1` reads neither grid and has no requirement. The box scan in `h3`, `h4`
and `h5` is the same nested loop in all three. It is written once, as
`ScanBoxes`, and each caller adds its result to its running cost.

## Model

| member | source | states |
|---|---|---|
| `Heuristics.Heuristic.constructor` | Project1/searchclient/searchclient/searchclient_python/searchclient/heuristic.py:6-12 | After construction the deque is exactly `GoalCells` of the initial goal grid (row-major, non-empty cells), and every entry lies inside the grid |
| `GoalIndex.GoalCellsMembership` | Project1/searchclient/searchclient/searchclient_python/searchclient/heuristic.py:8-12 | A cell is indexed if and only if it is inside the grid and its goal cell is not empty |
| `GoalIndex.GoalCellsRowMajor` | Project1/searchclient/searchclient/searchclient_python/searchclient/heuristic.py:9-12 | The index lists goal cells in strictly increasing row-major order |
| `GoalIndex.GoalCellsCount` | Project1/searchclient/searchclient/searchclient_python/searchclient/heuristic.py:8-12 | The index has no duplicates, and its length equals the number of non-empty goal cells |
| `Heuristics.Heuristic.H` | Project1/searchclient/searchclient/searchclient_python/searchclient/heuristic.py:14-18 | `h` returns `h4`'s value: the maximum per-goal box distance |
| `Heuristics.Heuristic.H1` | Project1/searchclient/searchclient/searchclient_python/searchclient/heuristic.py:20-28 | Draining the copy from the right yields the sum over all goals of `abs(agent_row - i) + abs(agent_col - j)`, which is 0 with no goals |
| `Heuristics.Heuristic.H2` | Project1/searchclient/searchclient/searchclient_python/searchclient/heuristic.py:30-39 | The result is the number of goals with no box, or with a box whose lower-case symbol differs from the goal's |
| `Estimates.UnsatisfiedCount` | Project1/searchclient/searchclient/searchclient_python/searchclient/heuristic.py:30-39 | `h2`'s count equals the number of unsatisfied goals, which is at most the number of goals |
| `Board.MismatchNeverSatisfies` | Project1/searchclient/searchclient/searchclient_python/searchclient/heuristic.py:37 | A goal with no box, or with a box of another type, is never satisfied |
| `Estimates.MismatchedGoalKept` | Project1/searchclient/searchclient/searchclient_python/searchclient/heuristic.py:37 | Such a goal is always among the unsatisfied goals that `h2` counts and `h5` keeps |
| `Board.LowerMapsLetters` | Project1/searchclient/searchclient/searchclient_python/searchclient/heuristic.py:37 | `lower()` maps `A`–`Z` to `a`–`z` (code + 32), leaves other characters unchanged, and is idempotent |
| `Heuristics.Heuristic.ScanBoxes` | Project1/searchclient/searchclient/searchclient_python/searchclient/heuristic.py:50-53 | The nested scan adds up the Manhattan distances to the goal of every box whose lower-case symbol equals the goal symbol |
| `Heuristics.Heuristic.H3` | Project1/searchclient/searchclient/searchclient_python/searchclient/heuristic.py:41-54 | Draining from the left yields the sum over the goals of the per-goal box distance |
| `Estimates.SumPermutation` | Project1/searchclient/searchclient/searchclient_python/searchclient/heuristic.py:41-54 | A sum over goals is the same for any order in which the goals are drained |
| `Estimates.SumReversed` | Project1/searchclient/searchclient/searchclient_python/searchclient/heuristic.py:44-45 | Draining with `popleft` or with `pop` gives the same sum |
| `Estimates.SumIgnoresAgent` | Project1/searchclient/searchclient/searchclient_python/searchclient/heuristic.py:41-54 | Every sum except `h1`'s is the same for two states with the same box and goal grids, wherever the agent is |
| `Heuristics.Heuristic.H4` | Project1/searchclient/searchclient/searchclient_python/searchclient/heuristic.py:56-71 | Starting from `maxCost = 0` and replacing it by any larger per-goal cost gives the maximum per-goal box distance (0 with no goals) |
| `Estimates.MaxTermIsMaximum` | Project1/searchclient/searchclient/searchclient_python/searchclient/heuristic.py:56-71 | The maximum is at least every goal's term, is attained by some goal, and is 0 with no goals |
| `Estimates.MaxTermAtMostSum` | Project1/searchclient/searchclient/searchclient_python/searchclient/heuristic.py:41-71 | `0 <= h4 <= h3`, and `h4 == h3` when there is exactly one goal |
| `Heuristics.Heuristic.H5` | Project1/searchclient/searchclient/searchclient_python/searchclient/heuristic.py:73-90 | After the rotate pass, the deque holds exactly the unsatisfied goals in their original order (loop invariant). The result is the box-distance sum over those goals |
| `Estimates.UnsatisfiedGoalsSnoc` | Project1/searchclient/searchclient/searchclient_python/searchclient/heuristic.py:76-81 | One `popleft`-and-maybe-`append` step extends the kept list by the goal exactly when it is unsatisfied |
| `Estimates.UnsatisfiedGoalsMembership` | Project1/searchclient/searchclient/searchclient_python/searchclient/heuristic.py:76-81 | A goal is kept if and only if it is in the deque and not satisfied |
| `Estimates.UnsatisfiedSumAtMost` | Project1/searchclient/searchclient/searchclient_python/searchclient/heuristic.py:73-90 | Summing over the unsatisfied goals only never exceeds the full sum: `h5 <= h3` |
| `Estimates.NoneSatisfiedKeepsAll` | Project1/searchclient/searchclient/searchclient_python/searchclient/heuristic.py:73-90 | With no goal satisfied, the pass keeps every goal, so `h5 == h3` |
| `Heuristics.Heuristic.H6` | Project1/searchclient/searchclient/searchclient_python/searchclient/heuristic.py:92-106 | The result is the lateral box distances of every goal's row plus the agent term. The agent term is seeded with 1000 and replaced by a larger reach at any column other than the goal's |
| `Estimates.ReachPrefixIsMaximum` | Project1/searchclient/searchclient/searchclient_python/searchclient/heuristic.py:100-102 | Over one row, the agent term is at least its seed and at least the reach at every other column, and it equals the seed or one of those reaches |
| `Estimates.ReachIsMaximum` | Project1/searchclient/searchclient/searchclient_python/searchclient/heuristic.py:95-102 | The same running maximum holds across all goals |
| `Estimates.RowEstimateAtLeastSeed` | Project1/searchclient/searchclient/searchclient_python/searchclient/heuristic.py:92-106 | `h6 >= 1000`, and `h6 == 1000` with no goals |
| `Heuristics.Heuristic.F` | Project1/searchclient/searchclient/searchclient_python/searchclient/heuristic.py:115-143 | `f` combines `state.g` with `h` as the object's strategy prescribes |
| `Evaluation.UnitWeightIsAStar` | Project1/searchclient/searchclient/searchclient_python/searchclient/heuristic.py:119-132 | Weighted A* with `w = 1` evaluates every state as A* does |
| `Evaluation.GreedyIgnoresPathCost` | Project1/searchclient/searchclient/searchclient_python/searchclient/heuristic.py:142-143 | Greedy's `f` does not depend on `g` |
| `Evaluation.PathCostShifts` | Project1/searchclient/searchclient/searchclient_python/searchclient/heuristic.py:119-132 | For A* and weighted A*, raising `g` by `d` raises `f` by `d` |
| `Evaluation.IntToStringRoundTrip` | Project1/searchclient/searchclient/searchclient_python/searchclient/heuristic.py:135 | The decimal form of the weight, as `format` writes an int, reads back as the weight |
| `Evaluation.NatToString` | Project1/searchclient/searchclient/searchclient_python/searchclient/heuristic.py:135 | The decimal form of a natural number is a non-empty string of digits |
| `Evaluation.NatToStringNoLeadingZero` | Project1/searchclient/searchclient/searchclient_python/searchclient/heuristic.py:135 | The decimal form has no leading zero: it is `0` exactly for zero, and otherwise starts with a digit 1-9. This is the canonical form `format` writes |
| `Evaluation.DescribeNamesWeight` | Project1/searchclient/searchclient/searchclient_python/searchclient/heuristic.py:134-135 | The weighted label is `WA* (`, then the weight in decimal, then `) evaluation` |
| `Evaluation.DescribeInjective` | Project1/searchclient/searchclient/searchclient_python/searchclient/heuristic.py:122-146 | The labels `A* evaluation`, `WA* (w) evaluation` and `Greedy evaluation` tell every strategy and every weight apart |
| `Scenarios.BoxOnGoal` | Project1/searchclient/searchclient/searchclient_python/searchclient/heuristic.py:20-39 | With one goal `a` at (1,1), a box `A` on it and the agent at (0,0): the index is `[(1,1)]`, `h2 = 0` and `h1 = 2` |
| `Scenarios.BoxOffGoal` | Project1/searchclient/searchclient/searchclient_python/searchclient/heuristic.py:30-71 | With the box moved to (2,2): `h2 = 1`, and the goal's box term and `h4` are both 2 |
| `Scenarios.BoxBetweenGoals` | Project1/searchclient/searchclient/searchclient_python/searchclient/heuristic.py:41-71 | With goals `a` at (0,0) and (2,2) and a box `A` at (1,1): `h3 = 4` and `h4 = 2` |
| `Scenarios.WeightedLabel` | Project1/searchclient/searchclient/searchclient_python/searchclient/heuristic.py:134-135 | The label for weight 5 is `WA* (5) evaluation` |

## Left out

- The `State` class (`state.py`) is not part of this model. The snapshot is
  the `Board.State` datatype. The static dimensions `State.MAX_ROW` and
  `State.MAX_COL` are the constructor's `maxRow` and `maxCol`.
- The abstract base class and its `abstractmethod` declarations (lines 1 and
  108-112). The subclasses `AStar`, `WAStar` and `Greedy` are the `Strategy`
  tag that the constructor stores. The subclass constructors (lines 116-117,
  127-129, 139-140) are the one constructor given that tag.
- `__repr__` is modelled as the function `Evaluation.Describe` rather than as a
  member of the class.
- The commented-out lines in `h` and `h3` (lines 15-17, 48-49) are not
  modelled.
- Weight validation: the code accepts any `w`, including 0 and negative
  weights, and so does the model.
- Malformed grids: the code does not check them. Instead, the constructor
  requires the initial goal grid to have the fixed dimensions. `h2`–`h5`
  require the live box and goal grids to have them, and `h6` requires the live
  box grid to have them.
- `lower()` is modelled for ASCII only. Unicode case mapping is not modelled.
- Deque identity: the deque and its copies are values (`seq`). Aliasing
  between the object's deque and a copy cannot arise in the model, and cannot
  arise in the code, because `copy()` makes a new deque.
- Python's negative and out-of-range indexing: the spec functions read
  positions outside the grid as empty cells. The methods never read outside
  the grid, because every indexed goal lies inside it.
- The search loop, the frontier and any concurrent use.
- Empty goal list: every estimator returns 0 with no goals except `h6`,
  which returns 1000, because its agent term starts at 1000 and only grows.
  The model keeps this (`Estimates.RowEstimateAtLeastSeed`).
