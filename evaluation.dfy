/** The three evaluation functions that order the frontier, and their labels. */
module Evaluation {

  /** A*, weighted A* with weight w, and greedy best-first. */
  datatype Strategy = AStar | WAStar(w: int) | Greedy

  /** f for a state with path cost g and heuristic value h. */
  function Evaluate(kind: Strategy, g: int, h: int): int
  {
    match kind
    case AStar => g + h
    case WAStar(w) => g + w * h
    case Greedy => h
  }

  /** The strategy's label. */
  function Describe(kind: Strategy): string
  {
    match kind
    case AStar => "A* evaluation"
    case WAStar(w) => "WA* (" + IntToString(w) + ") evaluation"
    case Greedy => "Greedy evaluation"
  }

  // ---------------------------------------------------------------------------
  // Decimal formatting of the weight, as str.format writes an int

  function DigitChar(d: nat): char
    requires d < 10
  {
    ('0' as int + d) as char
  }

  predicate IsDigit(c: char)
  {
    '0' <= c <= '9'
  }

  function DigitValue(c: char): nat
  {
    if IsDigit(c) then c as int - '0' as int else 0
  }

  /** The decimal digits of n, most significant first, without leading zeros. */
  function NatToString(n: nat): (r: string)
    ensures |r| >= 1
    ensures forall k :: 0 <= k < |r| ==> IsDigit(r[k])
  {
    if n < 10 then [DigitChar(n)] else NatToString(n / 10) + [DigitChar(n % 10)]
  }

  /** The numeral has no leading zero: it is "0" itself or starts with 1-9. */
  lemma {:induction false} NatToStringNoLeadingZero(n: nat)
    ensures |NatToString(n)| == 1 || NatToString(n)[0] != '0'
    ensures n == 0 <==> NatToString(n) == "0"
  {
    if n >= 10 {
      NatToStringNoLeadingZero(n / 10);
      assert NatToString(n)[0] == NatToString(n / 10)[0];
    }
  }

  function IntToString(n: int): string
  {
    if n < 0 then "-" + NatToString(-n) else NatToString(n)
  }

  /** The value of a string of decimal digits. */
  function DigitsValue(s: string): nat
  {
    if s == [] then 0 else DigitsValue(s[..|s| - 1]) * 10 + DigitValue(s[|s| - 1])
  }

  /** The value of an optionally signed decimal numeral. */
  function ParseInt(s: string): int
  {
    if |s| > 0 && s[0] == '-' then -(DigitsValue(s[1..]) as int) else DigitsValue(s)
  }

  lemma {:induction false} NatToStringRoundTrip(n: nat)
    ensures DigitsValue(NatToString(n)) == n
  {
    if n >= 10 {
      NatToStringRoundTrip(n / 10);
      var r := NatToString(n);
      assert r[..|r| - 1] == NatToString(n / 10);
    }
  }

  /** The weight is recovered from its decimal form. */
  lemma IntToStringRoundTrip(n: int)
    ensures ParseInt(IntToString(n)) == n
  {
    if n < 0 {
      NatToStringRoundTrip(-n);
      assert IntToString(n)[1..] == NatToString(-n);
    } else {
      NatToStringRoundTrip(n);
      assert IsDigit(NatToString(n)[0]);
    }
  }

  /** The weighted label carries the weight between "WA* (" and ") evaluation". */
  lemma DescribeNamesWeight(w: int)
    ensures |Describe(WAStar(w))| > 17
    ensures Describe(WAStar(w))[..5] == "WA* ("
    ensures Describe(WAStar(w))[|Describe(WAStar(w))| - 12..] == ") evaluation"
    ensures ParseInt(Describe(WAStar(w))[5..|Describe(WAStar(w))| - 12]) == w
  {
    var r := Describe(WAStar(w));
    assert r[5..|r| - 12] == IntToString(w);
    IntToStringRoundTrip(w);
  }

  /** Different strategies, and weighted strategies with different weights, get different labels. */
  lemma DescribeInjective(a: Strategy, b: Strategy)
    requires Describe(a) == Describe(b)
    ensures a == b
  {
    if a.WAStar? && b.WAStar? {
      DescribeNamesWeight(a.w);
      DescribeNamesWeight(b.w);
    }
  }

  /** Weighted A* with weight 1 orders states exactly as A* does. */
  lemma UnitWeightIsAStar(g: int, h: int)
    ensures Evaluate(WAStar(1), g, h) == Evaluate(AStar, g, h)
  {
  }

  /** Greedy ignores the path cost. */
  lemma GreedyIgnoresPathCost(g: int, g': int, h: int)
    ensures Evaluate(Greedy, g, h) == Evaluate(Greedy, g', h)
  {
  }

  /** A* and weighted A* rise one for one with the path cost. */
  lemma PathCostShifts(kind: Strategy, g: int, d: int, h: int)
    requires !kind.Greedy?
    ensures Evaluate(kind, g + d, h) == Evaluate(kind, g, h) + d
  {
  }
}
