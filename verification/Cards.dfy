/** The deck, and what it means for a set of cards to hold a rank, a suit or a run. */
module Cards {

  const SUITS: nat := 4
  const RANKS: nat := 13
  const ALL_CARDS: nat := 52

  const FIVE: nat := 3
  const SEVEN: nat := 5
  const ACE: nat := 12

  type Card = c: nat | c < ALL_CARDS

  function RankOf(c: Card): nat { c / 4 }

  function SuitOf(c: Card): nat { c % 4 }

  predicate IsRank(r: int) { 0 <= r < RANKS }

  predicate IsSuit(s: int) { 0 <= s < SUITS }

  ghost predicate Has(h: set<Card>, r: int, s: int) {
    0 <= r < RANKS && 0 <= s < SUITS && 4 * r + s in h
  }

  /** How many of the four cards of rank `r` are held. */
  ghost function Count(h: set<Card>, r: int): nat {
    (if Has(h, r, 0) then 1 else 0) + (if Has(h, r, 1) then 1 else 0) +
    (if Has(h, r, 2) then 1 else 0) + (if Has(h, r, 3) then 1 else 0)
  }

  /** The ranks of a straight that is named by its top rank; the five-high one uses the ace as one. */
  ghost predicate InStraight(top: int, q: int) {
    0 <= q < RANKS && (top - 4 <= q <= top || (top == FIVE && q == ACE))
  }

  /** Every rank of the straight is held in some suit. */
  ghost predicate Straight(h: set<Card>, top: int) {
    FIVE <= top < RANKS && forall q :: InStraight(top, q) ==> Count(h, q) > 0
  }

  /** Every rank of the straight is held in suit `s`. */
  ghost predicate StraightFlush(h: set<Card>, top: int, s: int) {
    FIVE <= top < RANKS && forall q :: InStraight(top, q) ==> Has(h, q, s)
  }

  ghost function RanksUpTo(h: set<Card>, r: int, s: int): set<int> {
    set q | 0 <= q <= r && Has(h, q, s)
  }

  /** A flush is named by its top card, which must be the highest of five held cards of the suit. */
  ghost predicate Flush(h: set<Card>, r: int, s: int) {
    Has(h, r, s) && |RanksUpTo(h, r, s)| >= 5
  }

  lemma OneMoreCard(h: set<Card>, c: Card)
    requires c !in h
    ensures forall q, s :: Has(h + {c}, q, s) <==> Has(h, q, s) || (q == RankOf(c) && s == SuitOf(c))
    ensures forall q :: Count(h + {c}, q) == Count(h, q) + if q == RankOf(c) then 1 else 0
  {
    assert forall q, s :: Has(h + {c}, q, s) <==> Has(h, q, s) || (q == RankOf(c) && s == SuitOf(c));
    assert !Has(h, RankOf(c), SuitOf(c));
  }

  ghost predicate NoDuplicates<T>(v: seq<T>) {
    forall i, j :: 0 <= i < j < |v| ==> v[i] != v[j]
  }

  ghost function SetOf(v: seq<Card>): set<Card> {
    set c | c in v
  }
}

/** Strictly decreasing lists of ranks, the form in which a hand stores its indexes. */
module RankLists {
  import opened Cards

  ghost predicate Decreasing(l: seq<int>) {
    forall i, j :: 0 <= i < j < |l| ==> l[i] > l[j]
  }

  ghost predicate RankList(l: seq<int>) {
    Decreasing(l) && forall i :: 0 <= i < |l| ==> 0 <= l[i] < RANKS
  }

  /** Every rank of the straight with top `top` is in the list. */
  ghost predicate Run(l: seq<int>, top: int) {
    FIVE <= top < RANKS && forall q :: InStraight(top, q) ==> q in l
  }

  /** A cursor `p` looks at rank `l[p - 4]`; `r` is not behind it yet. */
  ghost predicate Ahead(l: seq<int>, p: int, r: int) {
    4 <= p && p - 4 < |l| && r <= l[p - 4]
  }

  lemma AppendLower(l: seq<int>, r: int)
    requires RankList(l) && IsRank(r) && forall q :: q in l ==> q > r
    ensures RankList(l + [r])
    ensures forall q :: q in l + [r] <==> q in l || q == r
  {
    forall i | 0 <= i < |l|
      ensures l[i] > r
    {
      assert l[i] in l;
    }
  }

  lemma {:induction false} Gap(l: seq<int>, i: nat, j: nat)
    requires Decreasing(l) && i <= j < |l|
    ensures l[i] - l[j] >= j - i
    decreases j - i
  {
    if i < j {
      Gap(l, i + 1, j);
    }
  }

  /** A rank that is present and one below `l[p]` is the next entry. */
  lemma NextEntry(l: seq<int>, p: nat)
    requires RankList(l) && p < |l| && l[p] - 1 in l
    ensures p + 1 < |l| && l[p + 1] == l[p] - 1
  {
    var k :| 0 <= k < |l| && l[k] == l[p] - 1;
    assert k > p;
    Gap(l, p, k);
  }

  /** The window test: five entries that span exactly four ranks are a run. */
  lemma WindowIsRun(l: seq<int>, p: nat)
    requires RankList(l) && 4 <= p < |l| && l[p - 4] - 4 == l[p]
    ensures Run(l, l[p - 4]) && l[p - 4] > FIVE
  {
    var top := l[p - 4];
    forall q | InStraight(top, q)
      ensures q in l
    {
      var k := p - 4 + (top - q);
      Gap(l, p - 4, k);
      Gap(l, k, p);
      assert l[k] == q;
    }
  }

  /** Conversely a run with top `l[p - 4]` passes the window test at `p`. */
  lemma RunIsWindow(l: seq<int>, p: nat)
    requires RankList(l) && 4 <= p && p - 4 < |l| && Run(l, l[p - 4]) && l[p - 4] > FIVE
    ensures p < |l| && l[p] == l[p - 4] - 4
  {
    var top := l[p - 4];
    assert top in l;
    assert InStraight(top, top - 1) && InStraight(top, top - 2);
    assert InStraight(top, top - 3) && InStraight(top, top - 4);
    NextEntry(l, p - 4);
    NextEntry(l, p - 3);
    NextEntry(l, p - 2);
    NextEntry(l, p - 1);
  }

  /** The ace-low run stands in the last four entries; its ace is checked on its own. */
  lemma LowRun(l: seq<int>, p: nat)
    requires RankList(l) && 4 <= p && p - 4 < |l| && l[p - 4] == FIVE
    ensures p >= |l|
    ensures Run(l, FIVE) <==> p == |l| && ACE in l
  {
    Gap(l, p - 4, |l| - 1);
    if p - 1 < |l| {
      Gap(l, p - 4, p - 1);
      if ACE in l {
        forall q | InStraight(FIVE, q)
          ensures q in l
        {
          if q != ACE {
            Gap(l, p - 4, p - 1 - q);
            Gap(l, p - 1 - q, p - 1);
            assert l[p - 1 - q] == q;
          }
        }
      }
    }
    if Run(l, FIVE) {
      assert InStraight(FIVE, 2) && InStraight(FIVE, 1) && InStraight(FIVE, 0) && InStraight(FIVE, ACE);
      NextEntry(l, p - 4);
      NextEntry(l, p - 3);
      NextEntry(l, p - 2);
    }
  }

  /** The test a cursor makes at `p`: a window of five, or the last four entries and an ace. */
  ghost predicate Passes(l: seq<int>, p: int)
    requires 4 <= p <= |l|
  {
    if p < |l| then l[p - 4] - 4 == l[p] else l[p - 4] == FIVE && ACE in l
  }

  lemma PassesMeansRun(l: seq<int>, p: nat)
    requires RankList(l) && 4 <= p <= |l|
    ensures Passes(l, p) <==> Run(l, l[p - 4])
    ensures Passes(l, p) && p < |l| ==> l[p - 4] > FIVE
  {
    if p < |l| && Passes(l, p) {
      WindowIsRun(l, p);
    }
    if l[p - 4] > FIVE && Run(l, l[p - 4]) {
      RunIsWindow(l, p);
    }
    if l[p - 4] == FIVE {
      LowRun(l, p);
    }
  }

  /** Moving a cursor past an entry that is not the top of `r`'s run keeps the run ahead. */
  lemma StepOver(l: seq<int>, p: nat, r: int)
    requires RankList(l) && Run(l, r) && Ahead(l, p, r) && r != l[p - 4]
    ensures Ahead(l, p + 1, r)
  {
    assert InStraight(r, r);
    var k :| 0 <= k < |l| && l[k] == r;
    assert k > p - 4;
  }

  lemma NoRunPastEnd(l: seq<int>, p: nat, r: int)
    requires RankList(l) && Run(l, r) && p > |l|
    ensures !Ahead(l, p, r)
  {
    if Ahead(l, p, r) {
      assert InStraight(r, r);
      var k :| 0 <= k < |l| && l[k] == r;
      if r > FIVE {
        RunIsWindow(l, k + 4);
      } else {
        LowRun(l, k + 4);
      }
    }
  }

  /** At the end of the list only the ace-low run can be left. */
  lemma OnlyLowRunAtEnd(l: seq<int>, p: nat, r: int)
    requires RankList(l) && Run(l, r) && p >= |l| && Ahead(l, p, r)
    ensures r == FIVE
  {
    assert InStraight(r, r);
    var k :| 0 <= k < |l| && l[k] == r;
    if r > FIVE {
      RunIsWindow(l, k + 4);
    }
  }

  /** How far a cursor may still move. */
  ghost function Slack(l: seq<int>, p: int): nat {
    if p <= |l| then |l| + 1 - p else 0
  }

  /** A cursor has moved from `p` to the next run, or past the end, skipping no run. */
  ghost predicate Settled(l: seq<int>, p: int, q: int) {
    4 <= p <= q && Slack(l, q) <= Slack(l, p) &&
    (q <= |l| ==> Run(l, l[q - 4]) && (l[q - 4] == FIVE <==> q == |l|)) &&
    (forall r :: Run(l, r) ==> (Ahead(l, p, r) <==> Ahead(l, q, r))) &&
    (forall r :: Run(l, r) && q > |l| ==> !Ahead(l, q, r))
  }

  lemma AheadAtStart(l: seq<int>, r: int)
    requires RankList(l) && Run(l, r)
    ensures Ahead(l, 4, r)
  {
    assert InStraight(r, r);
  }

  ghost predicate SuitList(l: seq<int>, h: set<Card>, s: int) {
    RankList(l) && forall q :: q in l <==> Has(h, q, s)
  }

  ghost function Tail(l: seq<int>, p: nat): set<int>
    requires p <= |l|
    decreases |l| - p
  {
    if p == |l| then {} else {l[p]} + Tail(l, p + 1)
  }

  lemma {:induction false} TailMember(l: seq<int>, p: nat, q: int)
    requires p <= |l|
    ensures q in Tail(l, p) <==> exists k :: p <= k < |l| && l[k] == q
    decreases |l| - p
  {
    if p < |l| {
      TailMember(l, p + 1, q);
    }
  }

  lemma {:induction false} TailSize(l: seq<int>, p: nat)
    requires Decreasing(l) && p <= |l|
    ensures |Tail(l, p)| == |l| - p
    decreases |l| - p
  {
    if p < |l| {
      TailSize(l, p + 1);
      TailMember(l, p + 1, l[p]);
    }
  }

  /** The cards of a suit up to the one at position `p` are exactly the entries from `p` on. */
  lemma RanksUpToEntry(l: seq<int>, h: set<Card>, s: int, p: nat)
    requires SuitList(l, h, s) && p < |l|
    ensures |RanksUpTo(h, l[p], s)| == |l| - p
  {
    TailSize(l, p);
    forall q
      ensures q in RanksUpTo(h, l[p], s) <==> q in Tail(l, p)
    {
      TailMember(l, p, q);
    }
    assert RanksUpTo(h, l[p], s) == Tail(l, p);
  }

  /** A held card names a flush exactly when it is not below the fifth lowest card of its suit. */
  lemma FlushByPosition(l: seq<int>, h: set<Card>, s: int, r: int)
    requires SuitList(l, h, s)
    ensures Flush(h, r, s) <==> r in l && |l| >= 5 && l[|l| - 5] <= r
  {
    if r in l {
      var p :| 0 <= p < |l| && l[p] == r;
      RanksUpToEntry(l, h, s, p);
    }
  }
}
