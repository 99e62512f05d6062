/** Every playable claim has a rung on one ladder of 327 rungs, so a round is bounded. */
module Ladder {
  import opened Cards
  import opened Claims

  const RUNGS: nat := 327

  /** PAIRS_BELOW[a]: the two-pairs claims whose lower rank is below `a`. */
  const PAIRS_BELOW: seq<nat> := [0, 12, 23, 33, 42, 50, 57, 63, 68, 72, 75, 77, 78]

  /** The rung of a claim, not counting suits. */
  function Rung(c: Claim): (n: nat)
    requires Playable(c)
    ensures n < RUNGS
  {
    if c[0] == HIGH_CARD then c[1]
    else if c[0] == PAIR then 13 + c[1]
    else if c[0] == TWO_PAIRS then 26 + PAIRS_BELOW[c[1]] + (c[2] - c[1] - 1)
    else if c[0] == SET then 104 + c[1]
    else if c[0] == STRAIGHT then 117 + (c[1] - FIVE)
    else if c[0] == FLUSH then 127 + (ACE - c[1])
    else if c[0] == FULL_HOUSE then 135 + 13 * c[1] + c[2]
    else if c[0] == SQUARE then 304 + c[1]
    else 317 + (c[1] - FIVE)
  }

  /** BAND[t]: the first rung above the claims of types below `t`. */
  const BAND: seq<nat> := [0, 0, 13, 26, 104, 117, 127, 135, 304, 317, 327]

  lemma RungInBand(c: Claim)
    requires Playable(c)
    ensures BAND[c[0]] <= Rung(c) < BAND[c[0] + 1]
  {
  }

  /** Going up in the order is exactly going up the ladder. */
  lemma RungFollowsOrder(u: Claim, v: Claim)
    requires Playable(u) && Playable(v)
    ensures Less(u, v) <==> Rung(u) < Rung(v)
  {
    LessMeans(u, v);
    if u[0] != v[0] {
      RungInBand(u);
      RungInBand(v);
      assert forall t :: u[0] < t < COMBINATIONS ==> BAND[u[0] + 1] <= BAND[t];
      assert forall t :: v[0] < t < COMBINATIONS ==> BAND[v[0] + 1] <= BAND[t];
    } else if u[0] == TWO_PAIRS {
      PairsOrder(u, v);
    }
  }

  lemma PairsOrder(u: Claim, v: Claim)
    requires Playable(u) && Playable(v) && u[0] == v[0] == TWO_PAIRS
    ensures Rung(u) < Rung(v) <==> u[1] < v[1] || (u[1] == v[1] && u[2] < v[2])
  {
    assert forall a, b :: 0 <= a < b < 13 ==> PAIRS_BELOW[a] + 12 - a <= PAIRS_BELOW[b];
  }

  /** The lower rank of the `n`-th two-pairs claim, searching from `a`. */
  function LowerRank(n: nat, a: nat): (r: nat)
    requires a < 12 && PAIRS_BELOW[a] <= n < 78
    ensures r < 12 && PAIRS_BELOW[r] <= n < PAIRS_BELOW[r + 1]
    decreases 12 - a
  {
    if n < PAIRS_BELOW[a + 1] then a else LowerRank(n, a + 1)
  }

  function TwoPairsAt(n: nat): (c: Claim)
    requires n < 78
    ensures Playable(c) && c[0] == TWO_PAIRS && Rung(c) == 26 + n
  {
    var a := LowerRank(n, 0);
    assert PAIRS_BELOW[a + 1] - PAIRS_BELOW[a] == 12 - a;
    [TWO_PAIRS, a, a + 1 + (n - PAIRS_BELOW[a])]
  }

  function ClaimAt(n: nat): (c: Claim)
    requires n < RUNGS
    ensures Playable(c) && Rung(c) == n
  {
    if n < 13 then [HIGH_CARD, n]
    else if n < 26 then [PAIR, n - 13]
    else if n < 104 then TwoPairsAt(n - 26)
    else if n < 117 then [SET, n - 104]
    else if n < 127 then [STRAIGHT, FIVE + (n - 117)]
    else if n < 135 then [FLUSH, ACE - (n - 127), 0]
    else if n < 304 then [FULL_HOUSE, (n - 135) / 13, (n - 135) % 13]
    else if n < 317 then [SQUARE, n - 304]
    else [STRAIGHT_FLUSH, FIVE + (n - 317), 0]
  }

  /** A round: playable claims, each greater than the one before. */
  ghost predicate Rising(moves: seq<Claim>) {
    (forall i :: 0 <= i < |moves| ==> Playable(moves[i])) &&
    (forall i :: 0 < i < |moves| ==> Less(moves[i - 1], moves[i]))
  }

  lemma {:induction false} ClimbingReaches(r: seq<nat>)
    requires r != [] && forall i :: 0 < i < |r| ==> r[i - 1] < r[i]
    ensures r[|r| - 1] >= |r| - 1
  {
    if |r| > 1 {
      ClimbingReaches(r[..|r| - 1]);
    }
  }

  /** A round cannot have more than 327 moves that each beat the one before. */
  lemma RoundIsBounded(moves: seq<Claim>)
    requires Rising(moves)
    ensures |moves| <= RUNGS
  {
    if moves != [] {
      var rungs := seq(|moves|, i requires 0 <= i < |moves| => Rung(moves[i]));
      forall i | 0 < i < |moves|
        ensures rungs[i - 1] < rungs[i]
      {
        RungFollowsOrder(moves[i - 1], moves[i]);
      }
      ClimbingReaches(rungs);
    }
  }

  /** The bound is exact: there is a round of 327 moves. */
  lemma LongestRoundExists() returns (moves: seq<Claim>)
    ensures Rising(moves) && |moves| == RUNGS
  {
    moves := seq(RUNGS, i requires 0 <= i < RUNGS => ClaimAt(i));
    forall i | 0 < i < |moves|
      ensures Less(moves[i - 1], moves[i])
    {
      RungFollowsOrder(moves[i - 1], moves[i]);
    }
  }
}
