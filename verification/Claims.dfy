/**
 * A claim is a list of numbers: the combination type followed by its ranks and, for the two
 * flush types, a suit.  This module says when a claim is true of a set of cards and how claims
 * are ordered.
 */
module Claims {
  import opened Cards

  type Claim = seq<int>

  const COMBINATIONS: nat := 10

  const NOTHING: int := 0
  const HIGH_CARD: int := 1
  const PAIR: int := 2
  const TWO_PAIRS: int := 3
  const SET: int := 4
  const STRAIGHT: int := 5
  const FLUSH: int := 6
  const FULL_HOUSE: int := 7
  const SQUARE: int := 8
  const STRAIGHT_FLUSH: int := 9

  const COMBINATION_SIZE: seq<nat> := [1, 2, 2, 3, 2, 2, 3, 3, 2, 3]
  const HAS_SUIT: seq<bool> := [false, false, false, false, false, false, true, false, false, true]
  const HOW_MANY_RANKS: seq<nat> := [0, 1, 1, 2, 1, 1, 1, 2, 1, 1]

  /** The assertions of `clever_asserts`: a known type and the length that belongs to it. */
  predicate Sized(c: Claim) {
    |c| > 0 && 0 <= c[0] < COMBINATIONS && |c| == COMBINATION_SIZE[c[0]]
  }

  /** A claim that can be checked: ranks and suits exist, and no straight is below five-high. */
  predicate WellFormed(c: Claim) {
    Sized(c) &&
    (c[0] != NOTHING ==> IsRank(c[1])) &&
    (c[0] == TWO_PAIRS || c[0] == FULL_HOUSE ==> IsRank(c[2])) &&
    (HAS_SUIT[c[0]] ==> IsSuit(c[2])) &&
    (c[0] == STRAIGHT || c[0] == STRAIGHT_FLUSH ==> c[1] >= FIVE)
  }

  /** The combinations of poker: two pairs named by the higher one, a full house of two ranks. */
  predicate Canonical(c: Claim) {
    WellFormed(c) &&
    (c[0] == TWO_PAIRS ==> c[1] > c[2]) &&
    (c[0] == FULL_HOUSE ==> c[1] != c[2])
  }

  /** What a claim says about the cards. */
  ghost predicate Holds(h: set<Card>, c: Claim)
    requires WellFormed(c)
  {
    if c[0] == NOTHING then true
    else if c[0] == HIGH_CARD then Count(h, c[1]) >= 1
    else if c[0] == PAIR then Count(h, c[1]) >= 2
    else if c[0] == TWO_PAIRS then Count(h, c[1]) >= 2 && Count(h, c[2]) >= 2
    else if c[0] == SET then Count(h, c[1]) >= 3
    else if c[0] == STRAIGHT then Straight(h, c[1])
    else if c[0] == FLUSH then Flush(h, c[1], c[2])
    else if c[0] == FULL_HOUSE then Count(h, c[1]) >= 3 && Count(h, c[2]) >= 2
    else if c[0] == SQUARE then Count(h, c[1]) >= 4
    else StraightFlush(h, c[1], c[2])
  }

  /** `std::vector`'s order on lists of numbers. */
  predicate LexLess(u: seq<int>, v: seq<int>) {
    if |v| == 0 then false
    else if |u| == 0 then true
    else u[0] < v[0] || (u[0] == v[0] && LexLess(u[1..], v[1..]))
  }

  function StripSuit(c: Claim): Claim
    requires Sized(c)
  {
    if HAS_SUIT[c[0]] then c[..|c| - 1] else c
  }

  /** What `less_combination` compares: no suit, and lower flushes before higher ones. */
  function SortKey(c: Claim): seq<int>
    requires Sized(c)
  {
    var u := StripSuit(c);
    if u[0] == FLUSH then u[..|u| - 1] + [-u[|u| - 1]] else u
  }

  predicate Less(u: Claim, v: Claim)
    requires Sized(u) && Sized(v)
  {
    LexLess(SortKey(u), SortKey(v))
  }

  /** `c` is true, and no true combination of poker beats it. */
  ghost predicate IsGreatest(h: set<Card>, c: Claim) {
    WellFormed(c) && Holds(h, c) &&
    forall d :: Canonical(d) && Holds(h, d) ==> !Less(c, d)
  }

  // ----- the order ------------------------------------------------------------------------

  lemma {:induction false} LexIrreflexive(u: seq<int>)
    ensures !LexLess(u, u)
  {
    if |u| > 0 {
      LexIrreflexive(u[1..]);
    }
  }

  lemma {:induction false} LexTransitive(u: seq<int>, v: seq<int>, w: seq<int>)
    requires LexLess(u, v) && LexLess(v, w)
    ensures LexLess(u, w)
  {
    if |u| > 0 && u[0] == v[0] == w[0] {
      LexTransitive(u[1..], v[1..], w[1..]);
    }
  }

  lemma {:induction false} LexTotal(u: seq<int>, v: seq<int>)
    ensures LexLess(u, v) || u == v || LexLess(v, u)
  {
    if |u| > 0 && |v| > 0 && u[0] == v[0] {
      LexTotal(u[1..], v[1..]);
      assert u == [u[0]] + u[1..] && v == [v[0]] + v[1..];
    }
  }

  lemma KeyParts(u: Claim)
    requires Sized(u)
    ensures StripSuit(u) != [] && SortKey(u) != [] && StripSuit(u)[0] == SortKey(u)[0] == u[0]
    ensures u[0] != FLUSH ==> SortKey(u) == StripSuit(u)
    ensures u[0] == FLUSH ==> StripSuit(u) == [FLUSH, u[1]] && SortKey(u) == [FLUSH, -u[1]]
  {
  }

  /** Claims with equal keys differ in the suit at most. */
  lemma KeyForgetsOnlySuit(u: Claim, v: Claim)
    requires Sized(u) && Sized(v)
    ensures SortKey(u) == SortKey(v) <==> StripSuit(u) == StripSuit(v)
  {
    KeyParts(u);
    KeyParts(v);
    hide SortKey, StripSuit, Sized;
    if u[0] == v[0] == FLUSH {
      assert [FLUSH, -u[1]][1] == -u[1] && [FLUSH, -v[1]][1] == -v[1];
      assert [FLUSH, u[1]][1] == u[1] && [FLUSH, v[1]][1] == v[1];
    }
  }

  /** The order of claims is a strict weak order whose ties are exactly equality up to suit. */
  lemma LessIsStrictWeakOrder(u: Claim, v: Claim, w: Claim)
    requires Sized(u) && Sized(v) && Sized(w)
    ensures !Less(u, u)
    ensures Less(u, v) && Less(v, w) ==> Less(u, w)
    ensures Less(u, v) ==> Less(u, w) || Less(w, v)
    ensures !Less(u, v) && !Less(v, u) <==> StripSuit(u) == StripSuit(v)
  {
    LexIrreflexive(SortKey(u));
    if Less(u, v) && Less(v, w) {
      LexTransitive(SortKey(u), SortKey(v), SortKey(w));
    }
    LexTotal(SortKey(u), SortKey(w));
    if Less(u, v) && Less(w, u) {
      LexTransitive(SortKey(w), SortKey(u), SortKey(v));
    }
    LexTotal(SortKey(u), SortKey(v));
    KeyForgetsOnlySuit(u, v);
  }

  /** The order read off the claims themselves: type first, then ranks, flushes the other way. */
  lemma LessMeans(u: Claim, v: Claim)
    requires Sized(u) && Sized(v)
    ensures Less(u, v) <==>
      u[0] < v[0] ||
      (u[0] == v[0] && u[0] == FLUSH && u[1] > v[1]) ||
      (u[0] == v[0] && u[0] != FLUSH && u[0] != NOTHING &&
        (u[1] < v[1] || (u[1] == v[1] && HOW_MANY_RANKS[u[0]] == 2 && u[2] < v[2])))
  {
    var a, b := SortKey(u), SortKey(v);
    assert a[0] == u[0] && b[0] == v[0];
    if u[0] == v[0] {
      var x, y := a[1..], b[1..];
      assert LexLess(a, b) == LexLess(x, y);
      if u[0] != NOTHING {
        assert x[0] == a[1] && y[0] == b[1];
        assert LexLess(x, y) == (x[0] < y[0] || (x[0] == y[0] && LexLess(x[1..], y[1..])));
        if HOW_MANY_RANKS[u[0]] == 2 {
          assert |a| == 3 && x[1..] == [u[2]] && y[1..] == [v[2]];
          assert LexLess([u[2]], [v[2]]) == (u[2] < v[2]);
        } else {
          assert |a| == 2 && x[1..] == [];
        }
      }
    }
  }

  // ----- the greatest true combination -----------------------------------------------------

  ghost predicate TrueCombination(h: set<Card>, d: Claim) {
    Canonical(d) && Holds(h, d)
  }

  /** No true combination has a type above `t`. */
  ghost predicate NoneAbove(h: set<Card>, t: int) {
    forall d :: TrueCombination(h, d) ==> d[0] <= t
  }

  /** Among claims of one type: `d` is no better than `c`. */
  predicate NoBetter(c: Claim, d: Claim)
    requires Sized(c) && Sized(d) && c[0] == d[0]
  {
    if c[0] == NOTHING then true
    else if c[0] == FLUSH then d[1] >= c[1]
    else d[1] < c[1] || (d[1] == c[1] && (HOW_MANY_RANKS[c[0]] == 2 ==> d[2] <= c[2]))
  }

  ghost predicate Missing(h: set<Card>, t: int) {
    forall d :: TrueCombination(h, d) ==> d[0] != t
  }

  /** `c` is the best true combination of its type. */
  ghost predicate BestOfType(h: set<Card>, c: Claim) {
    TrueCombination(h, c) && forall d :: TrueCombination(h, d) && d[0] == c[0] ==> NoBetter(c, d)
  }

  /** What a search for type `t` reports: the best claim of that type, or that there is none. */
  ghost predicate SearchResult(h: set<Card>, t: int, found: bool, c: Claim) {
    if found then BestOfType(h, c) && c[0] == t else Missing(h, t)
  }

  /** One step of the cascade from the highest type down. */
  lemma Descend(h: set<Card>, t: int, found: bool, c: Claim)
    requires NoneAbove(h, t) && SearchResult(h, t, found, c)
    ensures found ==> Canonical(c) && IsGreatest(h, c)
    ensures !found ==> NoneAbove(h, t - 1)
  {
    if found {
      forall d | Canonical(d) && Holds(h, d)
        ensures !Less(c, d)
      {
        assert TrueCombination(h, d);
        LessMeans(c, d);
      }
    }
  }

  /** Among true claims the greatest ones are exactly those that equal a greatest one up to suit. */
  lemma GreatestUpToSuit(h: set<Card>, best: Claim, c: Claim)
    requires Canonical(best) && IsGreatest(h, best) && WellFormed(c) && Holds(h, c)
    ensures StripSuit(best) == StripSuit(c) <==> Canonical(c) && IsGreatest(h, c)
  {
    if StripSuit(best) == StripSuit(c) {
      assert best[0] == StripSuit(best)[0] && c[0] == StripSuit(c)[0];
      assert forall d :: Canonical(d) && Holds(h, d) ==> Less(c, d) == Less(best, d);
    } else if Canonical(c) && IsGreatest(h, c) {
      LessIsStrictWeakOrder(best, c, c);
      assert false;
    }
  }

  // ----- claims made by players ----------------------------------------------------------------

  /** A combination a player can write down: straights from five-high, flushes from seven-high. */
  predicate Writable(c: Claim) {
    WellFormed(c) && c[0] != NOTHING &&
    (c[0] == FLUSH ==> c[1] >= SEVEN) &&
    (c[0] == TWO_PAIRS ==> c[1] != c[2])
  }

  /** What the parser delivers: a writable claim whose two pairs stand in increasing order. */
  predicate Playable(c: Claim) {
    Writable(c) && (c[0] == TWO_PAIRS ==> c[1] < c[2])
  }

  /** Two pairs in increasing order, as the parser sorts them. */
  function SortPairs(c: Claim): (d: Claim)
    requires Sized(c)
    ensures Writable(c) ==> Playable(d)
  {
    if c[0] == TWO_PAIRS && c[1] > c[2] then [c[0], c[2], c[1]] else c
  }

  /** Two pairs in decreasing order, as the search for the best combination names them. */
  function HighPairFirst(c: Claim): Claim
    requires Sized(c)
  {
    if c[0] == TWO_PAIRS && c[1] < c[2] then [c[0], c[2], c[1]] else c
  }

  /**
   * Blocking a claim means asserting that nothing true beats it.  For every playable claim the
   * evaluator agrees with that meaning, two pairs named by the higher one, exactly unless the
   * claim is two pairs or a full house of equal ranks; those it never accepts.
   */
  lemma BlockSucceedsExactly(h: set<Card>, c: Claim)
    requires Playable(c)
    ensures Canonical(c) && IsGreatest(h, c) <==>
      IsGreatest(h, HighPairFirst(c)) && c[0] != TWO_PAIRS && !(c[0] == FULL_HOUSE && c[1] == c[2])
  {
    hide IsGreatest;
  }

  /** Two twos, fours, sixes, eights and tens, in suits that make no flush. */
  const FIVE_PAIRS: seq<Card> := [0, 1, 10, 11, 16, 17, 26, 27, 32, 33]

  lemma FivePairsHold(q: int, u: int)
    ensures Has(SetOf(FIVE_PAIRS), q, u) <==>
      q in {0, 2, 4, 6, 8} && (if q == 2 || q == 6 then 2 <= u <= 3 else 0 <= u <= 1)
  {
    if Has(SetOf(FIVE_PAIRS), q, u) {
      var k :| 0 <= k < 10 && FIVE_PAIRS[k] == 4 * q + u;
    }
  }

  lemma FivePairsCount(q: int)
    ensures Count(SetOf(FIVE_PAIRS), q) == if q in {0, 2, 4, 6, 8} then 2 else 0
  {
    FivePairsHold(q, 0);
    FivePairsHold(q, 1);
    FivePairsHold(q, 2);
    FivePairsHold(q, 3);
  }

  /** No combination above two pairs is there. */
  lemma FivePairsBound(d: Claim)
    requires TrueCombination(SetOf(FIVE_PAIRS), d)
    ensures d[0] <= TWO_PAIRS
  {
    var h := SetOf(FIVE_PAIRS);
    if d[0] == STRAIGHT || d[0] == STRAIGHT_FLUSH {
      assert InStraight(d[1], d[1]) && InStraight(d[1], d[1] - 1);
      FivePairsCount(d[1]);
      FivePairsCount(d[1] - 1);
      if d[0] == STRAIGHT_FLUSH {
        FivePairsHold(d[1], d[2]);
        FivePairsHold(d[1] - 1, d[2]);
      }
    } else if d[0] == FLUSH {
      var held := RanksUpTo(h, d[1], d[2]);
      var some := if d[2] <= 1 then {0, 4, 8} else {2, 6};
      forall q | q in held
        ensures q in some
      {
        FivePairsHold(q, d[2]);
      }
      CardinalityBound(held, some);
    } else if d[0] != NOTHING {
      FivePairsCount(d[1]);
    }
  }

  /** With five pairs the best combination, as the parser delivers it, is not accepted as the best one. */
  lemma BestTwoPairsCannotBeBlocked()
    ensures var h, c := SetOf(FIVE_PAIRS), [TWO_PAIRS, 6, 8];
      NoDuplicates(FIVE_PAIRS) && |FIVE_PAIRS| == 10 &&
      Playable(c) && Holds(h, c) && IsGreatest(h, HighPairFirst(c)) && !(Canonical(c) && IsGreatest(h, c))
  {
    var h := SetOf(FIVE_PAIRS);
    FivePairsCount(6);
    FivePairsCount(8);
    forall d | Canonical(d) && Holds(h, d)
      ensures !Less([TWO_PAIRS, 8, 6], d)
    {
      assert TrueCombination(h, d);
      FivePairsBound(d);
      LessMeans([TWO_PAIRS, 8, 6], d);
      if d[0] == TWO_PAIRS {
        FivePairsCount(d[1]);
        FivePairsCount(d[2]);
      }
    }
  }

  /** Three aces and seven other ranks, no straight and no flush. */
  const THREE_ACES: seq<Card> := [0, 5, 14, 19, 24, 29, 38, 48, 49, 50]

  /** The ranks of the single cards of each suit. */
  function Singles(u: int): set<int> {
    if u == 0 then {0, 6} else if u == 1 then {1, 7} else if u == 2 then {3, 9} else if u == 3 then {4} else {}
  }

  lemma ThreeAcesHold(q: int, u: int)
    ensures Has(SetOf(THREE_ACES), q, u) <==> q in Singles(u) || (q == ACE && 0 <= u <= 2)
  {
    if Has(SetOf(THREE_ACES), q, u) {
      var k :| 0 <= k < 10 && THREE_ACES[k] == 4 * q + u;
    }
  }

  lemma ThreeAcesCount(q: int)
    ensures Count(SetOf(THREE_ACES), q) == if q == ACE then 3 else if q in {0, 1, 3, 4, 6, 7, 9} then 1 else 0
  {
    ThreeAcesHold(q, 0);
    ThreeAcesHold(q, 1);
    ThreeAcesHold(q, 2);
    ThreeAcesHold(q, 3);
  }

  /** The best combination of poker there is the set of aces. */
  lemma ThreeAcesBound(d: Claim)
    requires TrueCombination(SetOf(THREE_ACES), d)
    ensures d[0] <= SET
  {
    var h := SetOf(THREE_ACES);
    if d[0] == STRAIGHT || d[0] == STRAIGHT_FLUSH {
      var missing := if d[1] <= 6 then 2 else if d[1] <= 9 then 5 else 8;
      assert InStraight(d[1], missing);
      ThreeAcesCount(missing);
      if d[0] == STRAIGHT_FLUSH {
        ThreeAcesHold(missing, d[2]);
      }
    } else if d[0] == FLUSH {
      var held := RanksUpTo(h, d[1], d[2]);
      forall q | q in held
        ensures q in Singles(d[2]) + {ACE}
      {
        ThreeAcesHold(q, d[2]);
      }
      CardinalityBound(held, Singles(d[2]) + {ACE});
    } else if d[0] == FULL_HOUSE || d[0] == SQUARE {
      ThreeAcesCount(d[1]);
      if d[0] == FULL_HOUSE {
        ThreeAcesCount(d[2]);
      }
    }
  }

  /**
   * A full house of aces over aces is playable and true there and beats every true combination
   * of poker, but is not accepted as the best one.
   */
  lemma EqualFullHouseCannotBeBlocked()
    ensures var h, c := SetOf(THREE_ACES), [FULL_HOUSE, ACE, ACE];
      NoDuplicates(THREE_ACES) && |THREE_ACES| == 10 && Playable(c) && IsGreatest(h, c) && !Canonical(c) &&
      forall d :: Canonical(d) && Holds(h, d) ==> Less(d, c)
  {
    var h, c := SetOf(THREE_ACES), [FULL_HOUSE, ACE, ACE];
    ThreeAcesCount(ACE);
    forall d | Canonical(d) && Holds(h, d)
      ensures Less(d, c) && !Less(c, d)
    {
      assert TrueCombination(h, d);
      ThreeAcesBound(d);
      LessMeans(c, d);
      LessMeans(d, c);
    }
  }

  lemma CardinalityBound(a: set<int>, b: set<int>)
    requires a <= b
    ensures |a| <= |b|
  {
    assert b == a + (b - a);
  }

  /**
   * A six-high flush is a straight flush, and a flush always has five cards, so a best flush
   * is at least seven-high and every best combination can be written down.
   */
  lemma BestIsWritable(h: set<Card>, c: Claim)
    requires Canonical(c) && IsGreatest(h, c) && c[0] != NOTHING
    ensures Writable(c)
  {
    if c[0] == FLUSH && c[1] < SEVEN {
      var low := {0, 1, 2, 3, 4};
      var held := RanksUpTo(h, c[1], c[2]);
      assert held <= low;
      if q :| q in low && q !in held {
        CardinalityBound(held, low - {q});
      }
      var d := [STRAIGHT_FLUSH, 4, c[2]];
      assert forall q :: q in low ==> q in held;
      assert Canonical(d) && Holds(h, d);
      LessMeans(c, d);
      assert false;
    }
  }
}
