/** Reference definitions of what the six estimators compute: per-goal terms,
    their sum and maximum over a goal list, the unsatisfied goals, and h6's
    running maximum of agent reach. */
module Estimates {
  import opened Board

  /** The per-goal quantities the estimators add up. */
  datatype TermKind =
    | AgentDistance  // h1: Manhattan distance from the agent to the goal
    | Unsatisfied    // h2: 1 unless the goal holds a box of its type
    | BoxDistance    // h3, h4, h5: distances of every matching box to the goal
    | RowLateral     // h6: column distances of the boxes in the goal's row

  /** Of the cells (i, j') with j' < j in row i, the Manhattan distances to goal p
      of the boxes whose lower-case symbol equals `sym`. */
  function RowBoxDistance(boxes: Grid, sym: Cell, p: Pos, i: int, j: nat): nat
  {
    if j == 0 then 0
    else RowBoxDistance(boxes, sym, p, i, j - 1) +
         (if Matches(At(boxes, i, j - 1), sym) then Manhattan((i, j - 1), p) else 0)
  }

  /** The same over the first i full rows. */
  function BoxDistancePrefix(boxes: Grid, sym: Cell, p: Pos, i: nat, cols: nat): nat
  {
    if i == 0 then 0
    else BoxDistancePrefix(boxes, sym, p, i - 1, cols) + RowBoxDistance(boxes, sym, p, i - 1, cols)
  }

  /** The same over the first j cells of goal p's row, for h6: every box off the
      goal's column adds its column distance. */
  function LateralPrefix(boxes: Grid, p: Pos, j: nat): nat
  {
    if j == 0 then 0
    else LateralPrefix(boxes, p, j - 1) +
         (if At(boxes, p.0, j - 1).Some? && j - 1 != p.1 then Abs(j - 1 - p.1) else 0)
  }

  function Term(t: TermKind, s: State, rows: nat, cols: nat, p: Pos): nat
  {
    match t
    case AgentDistance => Manhattan((s.agentRow, s.agentCol), p)
    case Unsatisfied => if Satisfied(s, p) then 0 else 1
    case BoxDistance => BoxDistancePrefix(s.boxes, At(s.goals, p.0, p.1), p, rows, cols)
    case RowLateral => LateralPrefix(s.boxes, p, cols)
  }

  /** The sum of a per-goal term over a goal list. */
  function Sum(t: TermKind, s: State, rows: nat, cols: nat, gs: seq<Pos>): nat
  {
    if gs == [] then 0 else Term(t, s, rows, cols, gs[0]) + Sum(t, s, rows, cols, gs[1..])
  }

  /** The maximum of a per-goal term over a goal list, 0 for no goals. */
  function MaxTerm(t: TermKind, s: State, rows: nat, cols: nat, gs: seq<Pos>): nat
  {
    if gs == [] then 0
    else
      var here := Term(t, s, rows, cols, gs[0]);
      var rest := MaxTerm(t, s, rows, cols, gs[1..]);
      if here > rest then here else rest
  }

  /** The goals of gs that do not hold a box of their type, in their order in gs. */
  function UnsatisfiedGoals(s: State, gs: seq<Pos>): seq<Pos>
  {
    if gs == [] then []
    else (if Satisfied(s, gs[0]) then [] else [gs[0]]) + UnsatisfiedGoals(s, gs[1..])
  }

  /** h6's candidate for the agent term at column j of goal p's row. */
  function AgentReach(agentRow: int, agentCol: int, p: Pos, j: int): nat
  {
    Abs(j - agentCol) + Abs(agentRow - p.0)
  }

  /** h6's agent term after columns 0 .. j-1 of goal p's row, starting from m:
      replaced by a column's reach when that is larger and the column is not p's. */
  function ReachPrefix(agentRow: int, agentCol: int, p: Pos, j: nat, m: int): int
  {
    if j == 0 then m
    else
      var before := ReachPrefix(agentRow, agentCol, p, j - 1, m);
      var d := AgentReach(agentRow, agentCol, p, j - 1);
      if before < d && j - 1 != p.1 then d else before
  }

  /** h6's agent term after the goals of gs, visited from last to first, starting from m. */
  function Reach(agentRow: int, agentCol: int, cols: nat, gs: seq<Pos>, m: int): int
  {
    if gs == [] then m
    else ReachPrefix(agentRow, agentCol, gs[0], cols, Reach(agentRow, agentCol, cols, gs[1..], m))
  }

  /** What h6 returns for goals gs. */
  function RowEstimate(s: State, rows: nat, cols: nat, gs: seq<Pos>): int
  {
    Sum(RowLateral, s, rows, cols, gs) + Reach(s.agentRow, s.agentCol, cols, gs, 1000)
  }

  // ---------------------------------------------------------------------------
  // Sums

  lemma {:induction false} SumConcat(t: TermKind, s: State, rows: nat, cols: nat, xs: seq<Pos>, ys: seq<Pos>)
    ensures Sum(t, s, rows, cols, xs + ys) == Sum(t, s, rows, cols, xs) + Sum(t, s, rows, cols, ys)
  {
    if xs == [] {
      assert xs + ys == ys;
    } else {
      assert (xs + ys)[1..] == xs[1..] + ys;
      SumConcat(t, s, rows, cols, xs[1..], ys);
    }
  }

  /** Adding the goal drained last: the step of a loop that drains with popleft. */
  lemma SumSnoc(t: TermKind, s: State, rows: nat, cols: nat, gs: seq<Pos>, p: Pos)
    ensures Sum(t, s, rows, cols, gs + [p]) == Sum(t, s, rows, cols, gs) + Term(t, s, rows, cols, p)
  {
    SumConcat(t, s, rows, cols, gs, [p]);
    assert [p][1..] == [];
  }

  /** Taking one goal out of the list takes its term out of the sum. */
  lemma SumRemoveAt(t: TermKind, s: State, rows: nat, cols: nat, ys: seq<Pos>, i: nat)
    requires i < |ys|
    ensures Sum(t, s, rows, cols, ys) ==
            Term(t, s, rows, cols, ys[i]) + Sum(t, s, rows, cols, ys[..i] + ys[i + 1..])
  {
    assert ys == (ys[..i] + [ys[i]]) + ys[i + 1..];
    SumConcat(t, s, rows, cols, ys[..i] + [ys[i]], ys[i + 1..]);
    SumSnoc(t, s, rows, cols, ys[..i], ys[i]);
    SumConcat(t, s, rows, cols, ys[..i], ys[i + 1..]);
  }

  /** Where the first goal of xs sits in a permutation ys of xs, and what is left of both. */
  lemma MatchFirst(xs: seq<Pos>, ys: seq<Pos>) returns (i: nat)
    requires xs != [] && multiset(xs) == multiset(ys)
    ensures i < |ys| && ys[i] == xs[0]
    ensures multiset(xs[1..]) == multiset(ys[..i] + ys[i + 1..])
  {
    var x := xs[0];
    assert x in multiset(xs);
    i :| 0 <= i < |ys| && ys[i] == x;
    var front, back := ys[..i], ys[i + 1..];
    assert ys == front + [x] + back;
    assert xs == [x] + xs[1..];
    calc {
      multiset(xs[1..]);
      multiset(xs) - multiset{x};
      multiset(ys) - multiset{x};
      multiset(front + [x] + back) - multiset{x};
      multiset(front) + multiset(back);
      multiset(front + back);
    }
  }

  /** A sum over goals does not depend on the order the goals are drained in. */
  lemma {:induction false} SumPermutation(t: TermKind, s: State, rows: nat, cols: nat, xs: seq<Pos>, ys: seq<Pos>)
    requires multiset(xs) == multiset(ys)
    ensures Sum(t, s, rows, cols, xs) == Sum(t, s, rows, cols, ys)
    decreases |xs|
  {
    if xs == [] {
      assert |multiset(ys)| == 0;
    } else {
      var i := MatchFirst(xs, ys);
      SumPermutation(t, s, rows, cols, xs[1..], ys[..i] + ys[i + 1..]);
      SumRemoveAt(t, s, rows, cols, ys, i);
    }
  }

  /** In particular, draining from the right (pop) or the left (popleft) gives the same sum. */
  lemma SumReversed(t: TermKind, s: State, rows: nat, cols: nat, gs: seq<Pos>)
    ensures Sum(t, s, rows, cols, Reversed(gs)) == Sum(t, s, rows, cols, gs)
  {
    ReversedMultiset(gs);
    SumPermutation(t, s, rows, cols, Reversed(gs), gs);
  }

  function Reversed(gs: seq<Pos>): (r: seq<Pos>)
    ensures |r| == |gs|
  {
    if gs == [] then [] else Reversed(gs[1..]) + [gs[0]]
  }

  lemma {:induction false} ReversedMultiset(gs: seq<Pos>)
    ensures multiset(Reversed(gs)) == multiset(gs)
  {
    if gs != [] {
      ReversedMultiset(gs[1..]);
      assert gs == [gs[0]] + gs[1..];
    }
  }

  /** Only h1's term reads the agent position: the other sums agree on any two
      states with the same boxes and goals. */
  lemma {:induction false} SumIgnoresAgent(t: TermKind, s: State, s': State, rows: nat, cols: nat, gs: seq<Pos>)
    requires t != AgentDistance
    requires s.boxes == s'.boxes && s.goals == s'.goals
    ensures Sum(t, s, rows, cols, gs) == Sum(t, s', rows, cols, gs)
  {
    if gs != [] {
      SumIgnoresAgent(t, s, s', rows, cols, gs[1..]);
    }
  }

  // ---------------------------------------------------------------------------
  // Maximum

  /** MaxTerm is the largest term of the list (0 for the empty list). */
  lemma {:induction false} MaxTermIsMaximum(t: TermKind, s: State, rows: nat, cols: nat, gs: seq<Pos>)
    ensures forall k :: 0 <= k < |gs| ==> Term(t, s, rows, cols, gs[k]) <= MaxTerm(t, s, rows, cols, gs)
    ensures gs == [] ==> MaxTerm(t, s, rows, cols, gs) == 0
    ensures gs != [] ==> exists k :: 0 <= k < |gs| && MaxTerm(t, s, rows, cols, gs) == Term(t, s, rows, cols, gs[k])
  {
    if gs != [] {
      var tail := gs[1..];
      MaxTermIsMaximum(t, s, rows, cols, tail);
      forall k | 0 <= k < |gs| ensures Term(t, s, rows, cols, gs[k]) <= MaxTerm(t, s, rows, cols, gs) {
        if k > 0 {
          assert gs[k] == tail[k - 1];
        }
      }
      if tail != [] && MaxTerm(t, s, rows, cols, gs) != Term(t, s, rows, cols, gs[0]) {
        var k :| 0 <= k < |tail| && MaxTerm(t, s, rows, cols, tail) == Term(t, s, rows, cols, tail[k]);
        assert gs[k + 1] == tail[k];
      }
    }
  }

  /** The maximum of non-negative terms is at most their sum, and equal to it for one goal. */
  lemma {:induction false} MaxTermAtMostSum(t: TermKind, s: State, rows: nat, cols: nat, gs: seq<Pos>)
    ensures MaxTerm(t, s, rows, cols, gs) <= Sum(t, s, rows, cols, gs)
    ensures |gs| == 1 ==> MaxTerm(t, s, rows, cols, gs) == Sum(t, s, rows, cols, gs)
  {
    if gs != [] {
      MaxTermAtMostSum(t, s, rows, cols, gs[1..]);
    }
  }

  // ---------------------------------------------------------------------------
  // Unsatisfied goals

  /** Keeping the unsatisfied goals commutes with appending: the step of h5's
      rotate-and-filter pass. */
  lemma {:induction false} UnsatisfiedGoalsSnoc(s: State, gs: seq<Pos>, p: Pos)
    ensures UnsatisfiedGoals(s, gs + [p]) ==
            UnsatisfiedGoals(s, gs) + (if Satisfied(s, p) then [] else [p])
  {
    if gs == [] {
      assert [p][1..] == [];
    } else {
      assert (gs + [p])[1..] == gs[1..] + [p];
      UnsatisfiedGoalsSnoc(s, gs[1..], p);
    }
  }

  /** A goal is kept exactly when it is in the list and not satisfied. */
  lemma {:induction false} UnsatisfiedGoalsMembership(s: State, gs: seq<Pos>, p: Pos)
    ensures p in UnsatisfiedGoals(s, gs) <==> p in gs && !Satisfied(s, p)
  {
    if gs != [] {
      UnsatisfiedGoalsMembership(s, gs[1..], p);
      assert gs == [gs[0]] + gs[1..];
    }
  }

  /** With no goal satisfied, nothing is dropped. */
  lemma {:induction false} NoneSatisfiedKeepsAll(s: State, gs: seq<Pos>)
    requires forall k :: 0 <= k < |gs| ==> !Satisfied(s, gs[k])
    ensures UnsatisfiedGoals(s, gs) == gs
  {
    if gs != [] {
      NoneSatisfiedKeepsAll(s, gs[1..]);
    }
  }

  /** h2's count is the number of unsatisfied goals, so it lies between 0 and the number of goals. */
  lemma {:induction false} UnsatisfiedCount(s: State, rows: nat, cols: nat, gs: seq<Pos>)
    ensures Sum(Unsatisfied, s, rows, cols, gs) == |UnsatisfiedGoals(s, gs)| <= |gs|
  {
    if gs != [] {
      UnsatisfiedCount(s, rows, cols, gs[1..]);
    }
  }

  /** Summing the box term over the unsatisfied goals only never exceeds the full sum. */
  lemma {:induction false} UnsatisfiedSumAtMost(t: TermKind, s: State, rows: nat, cols: nat, gs: seq<Pos>)
    ensures Sum(t, s, rows, cols, UnsatisfiedGoals(s, gs)) <= Sum(t, s, rows, cols, gs)
  {
    if gs != [] {
      UnsatisfiedSumAtMost(t, s, rows, cols, gs[1..]);
      var head: seq<Pos> := if Satisfied(s, gs[0]) then [] else [gs[0]];
      SumConcat(t, s, rows, cols, head, UnsatisfiedGoals(s, gs[1..]));
    }
  }

  /** A goal holding no box or a box of another type is among the unsatisfied goals. */
  lemma MismatchedGoalKept(s: State, gs: seq<Pos>, p: Pos)
    requires p in gs
    requires At(s.boxes, p.0, p.1).None? ||
             At(s.goals, p.0, p.1) != Some(Lower(At(s.boxes, p.0, p.1).value))
    ensures p in UnsatisfiedGoals(s, gs)
  {
    UnsatisfiedGoalsMembership(s, gs, p);
  }

  // ---------------------------------------------------------------------------
  // h6's agent term

  /** ReachPrefix is a running maximum seeded with m over the columns other than p's. */
  lemma {:induction false} ReachPrefixIsMaximum(agentRow: int, agentCol: int, p: Pos, j: nat, m: int)
    ensures m <= ReachPrefix(agentRow, agentCol, p, j, m)
    ensures forall c :: 0 <= c < j && c != p.1 ==>
              AgentReach(agentRow, agentCol, p, c) <= ReachPrefix(agentRow, agentCol, p, j, m)
    ensures ReachPrefix(agentRow, agentCol, p, j, m) == m ||
            exists c :: 0 <= c < j && c != p.1 &&
              ReachPrefix(agentRow, agentCol, p, j, m) == AgentReach(agentRow, agentCol, p, c)
  {
    if j > 0 {
      ReachPrefixIsMaximum(agentRow, agentCol, p, j - 1, m);
    }
  }

  /** Reach is a running maximum seeded with m over every goal and every other column of its row. */
  lemma {:induction false} ReachIsMaximum(agentRow: int, agentCol: int, cols: nat, gs: seq<Pos>, m: int)
    ensures m <= Reach(agentRow, agentCol, cols, gs, m)
    ensures forall k, c :: 0 <= k < |gs| && 0 <= c < cols && c != gs[k].1 ==>
              AgentReach(agentRow, agentCol, gs[k], c) <= Reach(agentRow, agentCol, cols, gs, m)
    ensures Reach(agentRow, agentCol, cols, gs, m) == m ||
            exists k, c :: 0 <= k < |gs| && 0 <= c < cols && c != gs[k].1 &&
              Reach(agentRow, agentCol, cols, gs, m) == AgentReach(agentRow, agentCol, gs[k], c)
  {
    if gs != [] {
      var tail := gs[1..];
      var seed := Reach(agentRow, agentCol, cols, tail, m);
      var r := Reach(agentRow, agentCol, cols, gs, m);
      ReachIsMaximum(agentRow, agentCol, cols, tail, m);
      ReachPrefixIsMaximum(agentRow, agentCol, gs[0], cols, seed);
      forall k, c | 0 <= k < |gs| && 0 <= c < cols && c != gs[k].1
        ensures AgentReach(agentRow, agentCol, gs[k], c) <= r
      {
        if k > 0 {
          assert gs[k] == tail[k - 1];
        }
      }
      if r != m && r == seed {
        var k, c :| 0 <= k < |tail| && 0 <= c < cols && c != tail[k].1 &&
          seed == AgentReach(agentRow, agentCol, tail[k], c);
        assert gs[k + 1] == tail[k];
      } else if r != m {
        var c :| 0 <= c < cols && c != gs[0].1 && r == AgentReach(agentRow, agentCol, gs[0], c);
        assert 0 <= 0 < |gs| && r == AgentReach(agentRow, agentCol, gs[0], c);
      }
    }
  }

  /** h6 never drops below its seed 1000, and is exactly 1000 with no goals. */
  lemma RowEstimateAtLeastSeed(s: State, rows: nat, cols: nat, gs: seq<Pos>)
    ensures RowEstimate(s, rows, cols, gs) >= 1000
    ensures gs == [] ==> RowEstimate(s, rows, cols, gs) == 1000
  {
    ReachIsMaximum(s.agentRow, s.agentCol, cols, gs, 1000);
  }
}
