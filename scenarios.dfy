/** Small 3 x 3 configurations with the values the estimators give them. */
module Scenarios {
  import opened Board
  import opened GoalIndex
  import opened Estimates
  import opened Evaluation

  const E: Cell := None

  /** One goal of type a at (1, 1). */
  function OneGoal(): Grid
  {
    [[E, E, E], [E, Some('a'), E], [E, E, E]]
  }

  /** Goals of type a at (0, 0) and (2, 2). */
  function TwoGoals(): Grid
  {
    [[Some('a'), E, E], [E, E, E], [E, E, Some('a')]]
  }

  function BoxAt(i: int, j: int): Grid
  {
    seq(3, r => seq(3, c => if r == i && c == j then Some('A') else None))
  }

  /** A box of type A on the goal at (1, 1): the goal is satisfied, the agent is 2 away. */
  lemma BoxOnGoal()
    ensures GoalCells(OneGoal(), 3, 3) == [(1, 1)]
    ensures Sum(Unsatisfied, State(0, 0, BoxAt(1, 1), OneGoal(), 0), 3, 3, [(1, 1)]) == 0
    ensures Sum(AgentDistance, State(0, 0, BoxAt(1, 1), OneGoal(), 0), 3, 3, [(1, 1)]) == 2
  {
  }

  /** The box moved to (2, 2): the goal is unsatisfied and the box is 2 away from it. */
  lemma BoxOffGoal()
    ensures Sum(Unsatisfied, State(0, 0, BoxAt(2, 2), OneGoal(), 0), 3, 3, [(1, 1)]) == 1
    ensures Term(BoxDistance, State(0, 0, BoxAt(2, 2), OneGoal(), 0), 3, 3, (1, 1)) == 2
    ensures MaxTerm(BoxDistance, State(0, 0, BoxAt(2, 2), OneGoal(), 0), 3, 3, [(1, 1)]) == 2
  {
  }

  /** One box between two goals: h3 adds both distances, h4 keeps the larger. */
  lemma BoxBetweenGoals()
    ensures GoalCells(TwoGoals(), 3, 3) == [(0, 0), (2, 2)]
    ensures Sum(BoxDistance, State(0, 0, BoxAt(1, 1), TwoGoals(), 0), 3, 3, [(0, 0), (2, 2)]) == 4
    ensures MaxTerm(BoxDistance, State(0, 0, BoxAt(1, 1), TwoGoals(), 0), 3, 3, [(0, 0), (2, 2)]) == 2
  {
  }

  /** The weighted label with weight 5. */
  lemma WeightedLabel()
    ensures Describe(WAStar(5)) == "WA* (5) evaluation"
  {
  }
}
