/** The hand evaluator: four redundant indexes over a set of cards, and the searches over them. */
module Hands {
  import opened Cards
  import opened RankLists
  import opened Claims

  type RankSuit = (int, int)

  /** Straight flushes are listed from the best down: higher rank first, then lower suit. */
  ghost predicate BetterFirst(a: RankSuit, b: RankSuit) {
    a.0 > b.0 || (a.0 == b.0 && a.1 < b.1)
  }

  /** Flushes are listed from the lowest, which is the best, up; equal ranks from the last suit. */
  ghost predicate LowerFirst(a: RankSuit, b: RankSuit) {
    a.0 < b.0 || (a.0 == b.0 && a.1 > b.1)
  }

  /** The ranks held more than `n` times, highest first. */
  ghost predicate NumberList(l: seq<int>, h: set<Card>, n: int) {
    RankList(l) && forall q :: q in l <==> IsRank(q) && Count(h, q) > n
  }

  /** The same list while it is being filled from the top: done above rank `low`, and for `low` too if `here`. */
  ghost predicate PartList(l: seq<int>, h: set<Card>, n: int, low: int, here: bool) {
    RankList(l) && forall q :: q in l <==> (low < q < RANKS && Count(h, q) > n) || (here && q == low)
  }

  /** `std::sort` over reverse iterators, on a list without repetitions. */
  method SortDecreasing(s: seq<int>) returns (t: seq<int>)
    requires NoDuplicates(s)
    ensures Decreasing(t)
    ensures forall q :: q in t <==> q in s
  {
    t := [];
    for i := 0 to |s|
      invariant Decreasing(t)
      invariant forall q :: q in t <==> q in s[..i]
    {
      var k := 0;
      while k < |t| && t[k] > s[i]
        invariant 0 <= k <= |t|
        invariant forall j :: 0 <= j < k ==> t[j] > s[i]
      {
        k := k + 1;
      }
      assert s[i] !in t;
      t := t[..k] + [s[i]] + t[k..];
      assert s[..i + 1] == s[..i] + [s[i]];
    }
    assert s[..|s|] == s;
  }

  class Hand {
    var suitRankB: seq<seq<bool>>   // suitRankB[s][r]: the card of suit s and rank r is held
    var suitRank: seq<seq<int>>     // suitRank[s]: the ranks of suit s, highest first
    var rankNumber: seq<int>        // rankNumber[r]: how many cards of rank r are held
    var numberRank: seq<seq<int>>   // numberRank[n]: the ranks held more than n times, highest first

    ghost predicate Shaped()
      reads this
    {
      |suitRankB| == SUITS && (forall s :: 0 <= s < SUITS ==> |suitRankB[s]| == RANKS) &&
      |suitRank| == SUITS && |rankNumber| == RANKS
    }

    /** The cards of the hand, read off the first index. */
    ghost function Cards(): set<Card>
      requires Shaped()
      reads this
    {
      set c: Card | suitRankB[SuitOf(c)][RankOf(c)]
    }

    /** Suits and counts agree with the cards; the suit lists are still unsorted from `sorted` on. */
    ghost predicate Filed(sorted: nat)
      reads this
    {
      Shaped() &&
      (forall s, q :: 0 <= s < SUITS ==> (q in suitRank[s] <==> Has(Cards(), q, s))) &&
      (forall s :: 0 <= s < SUITS ==> NoDuplicates(suitRank[s])) &&
      (forall s :: 0 <= s < SUITS && s < sorted ==> SuitList(suitRank[s], Cards(), s)) &&
      (forall r :: 0 <= r < RANKS ==> rankNumber[r] == Count(Cards(), r))
    }

    /** All four indexes agree with the cards. */
    ghost predicate Valid()
      reads this
    {
      Filed(SUITS) && |numberRank| == 4 &&
      forall n :: 0 <= n < 4 ==> NumberList(numberRank[n], Cards(), n)
    }

    constructor FromCards(v: seq<Card>)
      requires NoDuplicates(v)
      ensures Valid() && Cards() == SetOf(v)
    {
      suitRankB := seq(SUITS, _ => seq(RANKS, _ => false));
      suitRank := seq(SUITS, _ => []);
      rankNumber := seq(RANKS, _ => 0);
      numberRank := [];
      new;
      assert Cards() == {};
      for i := 0 to |v|
        invariant Filed(0) && Cards() == SetOf(v[..i])
      {
        FileCard(v[i]);
        assert v[..i + 1] == v[..i] + [v[i]];
      }
      assert v[..|v|] == v;
      SortSuits();
      FillNumberRank();
    }

    method FileCard(c: Card)
      requires Filed(0) && c !in Cards()
      modifies this
      ensures Filed(0) && Cards() == old(Cards()) + {c}
    {
      var rank := RankOf(c);
      var suit := SuitOf(c);
      ghost var before := Cards();
      assert !Has(before, rank, suit);
      rankNumber := rankNumber[rank := rankNumber[rank] + 1];
      suitRank := suitRank[suit := suitRank[suit] + [rank]];
      suitRankB := suitRankB[suit := suitRankB[suit][rank := true]];
      assert Cards() == before + {c};
      OneMoreCard(before, c);
    }

    method SortSuits()
      requires Filed(0)
      modifies this`suitRank
      ensures Filed(SUITS) && Cards() == old(Cards())
    {
      for i := 0 to SUITS
        invariant Filed(i) && Cards() == old(Cards())
      {
        var sorted := SortDecreasing(suitRank[i]);
        suitRank := suitRank[i := sorted];
        forall k | 0 <= k < |sorted|
          ensures IsRank(sorted[k])
        {
          assert sorted[k] in sorted;
        }
      }
    }

    method FillNumberRank()
      requires Filed(SUITS)
      modifies this`numberRank
      ensures Valid() && Cards() == old(Cards())
    {
      numberRank := seq(4, _ => []);
      var i := RANKS - 1;
      while i >= 0
        invariant -1 <= i < RANKS && |numberRank| == 4
        invariant Filed(SUITS) && Cards() == old(Cards())
        invariant forall n :: 0 <= n < 4 ==> PartList(numberRank[n], Cards(), n, i, false)
      {
        for j := 0 to rankNumber[i]
          invariant |numberRank| == 4
          invariant Filed(SUITS) && Cards() == old(Cards())
          invariant forall n :: 0 <= n < 4 ==> PartList(numberRank[n], Cards(), n, i, n < j)
        {
          AppendLower(numberRank[j], i);
          numberRank := numberRank[j := numberRank[j] + [i]];
        }
        i := i - 1;
      }
    }

    // ----- checking one claim -----------------------------------------------------------

    method CheckStraightFlush(rank: int, suit: int) returns (b: bool)
      requires Valid() && FIVE <= rank < RANKS && IsSuit(suit)
      ensures b <==> StraightFlush(Cards(), rank, suit)
    {
      if rank == FIVE {
        for i := 0 to FIVE + 1
          invariant forall q :: 0 <= q < i ==> Has(Cards(), q, suit)
        {
          if !suitRankB[suit][i] {
            assert InStraight(rank, i) && !Has(Cards(), i, suit);
            return false;
          }
        }
        assert InStraight(rank, ACE);
        return suitRankB[suit][ACE];
      }
      for i := rank - 4 to rank + 1
        invariant forall q :: rank - 4 <= q < i ==> Has(Cards(), q, suit)
      {
        if !suitRankB[suit][i] {
          assert InStraight(rank, i) && !Has(Cards(), i, suit);
          return false;
        }
      }
      return true;
    }

    method CheckStraight(rank: int) returns (b: bool)
      requires Valid() && FIVE <= rank < RANKS
      ensures b <==> Straight(Cards(), rank)
    {
      if rank == FIVE {
        for i := 0 to rank + 1
          invariant forall q :: 0 <= q < i ==> Count(Cards(), q) > 0
        {
          if rankNumber[i] == 0 {
            assert InStraight(rank, i);
            return false;
          }
        }
        assert InStraight(rank, ACE);
        return rankNumber[ACE] != 0;
      }
      for i := rank - 4 to rank + 1
        invariant forall q :: rank - 4 <= q < i ==> Count(Cards(), q) > 0
      {
        if rankNumber[i] == 0 {
          assert InStraight(rank, i);
          return false;
        }
      }
      return true;
    }

    predicate CheckFlush(rank: int, suit: int): (b: bool)
      requires Valid() && IsRank(rank) && IsSuit(suit)
      reads this
      ensures b <==> Flush(Cards(), rank, suit)
    {
      var l := suitRank[suit];
      FlushByPosition(l, Cards(), suit, rank);
      suitRankB[suit][rank] && |l| >= 5 && l[|l| - 5] <= rank
    }

    method CheckCombination(comb: Claim) returns (b: bool)
      requires Valid() && WellFormed(comb)
      ensures b <==> Holds(Cards(), comb)
    {
      match comb[0]
      case 0 => return true;
      case 1 => return rankNumber[comb[1]] != 0;
      case 2 => return rankNumber[comb[1]] >= 2;
      case 3 => return rankNumber[comb[1]] >= 2 && rankNumber[comb[2]] >= 2;
      case 4 => return rankNumber[comb[1]] >= 3;
      case 5 => b := CheckStraight(comb[1]);
      case 6 => return CheckFlush(comb[1], comb[2]);
      case 7 => return rankNumber[comb[1]] >= 3 && rankNumber[comb[2]] >= 2;
      case 8 => return rankNumber[comb[1]] >= 4;
      case 9 => b := CheckStraightFlush(comb[1], comb[2]);
    }

    // ----- straight flushes: a merge over four cursors ----------------------------------

    /** Move the cursor of suit `s` to its next straight flush. */
    method Settle(s: int, p: int) returns (q: int)
      requires Valid() && IsSuit(s) && p >= 4
      ensures Settled(suitRank[s], p, q)
    {
      ghost var l := suitRank[s];
      q := p;
      while q < |suitRank[s]| && suitRank[s][q - 4] - 4 != suitRank[s][q]
        invariant p <= q && (q <= |l| || q == p)
        invariant forall r :: Run(l, r) && Ahead(l, p, r) ==> Ahead(l, q, r)
      {
        PassesMeansRun(l, q);
        forall r | Run(l, r) && Ahead(l, q, r)
          ensures Ahead(l, q + 1, r)
        {
          StepOver(l, q, r);
        }
        q := q + 1;
      }
      if q <= |l| {
        PassesMeansRun(l, q);
      }
      if q == |suitRank[s]| && (!suitRankB[s][ACE] || suitRank[s][q - 4] != FIVE) {
        forall r | Run(l, r) && Ahead(l, q, r)
          ensures Ahead(l, q + 1, r)
        {
          StepOver(l, q, r);
        }
        q := q + 1;
      }
      forall r | Run(l, r) && q > |l|
        ensures !Ahead(l, q, r)
      {
        NoRunPastEnd(l, q, r);
      }
    }

    /** One pass of the merge: settle all four cursors and choose the best of what they show. */
    method Select(p: seq<int>) returns (q: seq<int>, x: int)
      requires Valid() && |p| == SUITS && forall s :: 0 <= s < SUITS ==> p[s] >= 4
      ensures AllSettled(suitRank, p, q, SUITS) && BestShown(suitRank, q, SUITS, x)
    {
      x := -1;
      q := p;
      for i := 0 to SUITS
        invariant |q| == SUITS && forall s :: i <= s < SUITS ==> q[s] == p[s]
        invariant AllSettled(suitRank, p, q, i) && BestShown(suitRank, q, i, x)
      {
        var settled := Settle(i, q[i]);
        ghost var q0, x0 := q, x;
        q := q[i := settled];
        if (q[i] < |suitRank[i]| && (x == -1 || suitRank[i][q[i] - 4] > suitRank[x][q[x] - 4])) ||
           (q[i] == |suitRank[i]| && x == -1) {
          x := i;
        }
        ShowNext(suitRank, p, q0, q, i, x0, x);
      }
    }

    lemma RunsAreStraightFlushes()
      requires Valid()
      ensures forall r, s :: Listable(suitRank, r, s) <==> StraightFlush(Cards(), r, s)
    {
      forall r, s
        ensures Listable(suitRank, r, s) <==> StraightFlush(Cards(), r, s)
      {
        assert InStraight(r, r) || !IsRank(r);
        assert IsSuit(s) ==> SuitList(suitRank[s], Cards(), s);
      }
    }

    method FindEveryStraightFlush() returns (ans: seq<RankSuit>)
      requires Valid()
      ensures forall r, s :: (r, s) in ans <==> StraightFlush(Cards(), r, s)
      ensures forall i, j :: 0 <= i < j < |ans| ==> BetterFirst(ans[i], ans[j])
    {
      var good := true;
      ans := [];
      var indices := [4, 4, 4, 4];
      AllAheadAtStart(suitRank);
      while good
        invariant |indices| == SUITS && forall s :: 0 <= s < SUITS ==> indices[s] >= 4
        invariant Listed(suitRank, ans, indices)
        invariant !good ==> BestShown(suitRank, indices, SUITS, -1) && AllSettled(suitRank, indices, indices, SUITS)
        decreases good, TotalSlack(suitRank, indices)
      {
        var q, x := Select(indices);
        if x == -1 {
          good := false;
          SettlingLists(suitRank, ans, indices, q);
          indices := q;
        } else {
          ListSelected(suitRank, ans, indices, q, x);
          ans := ans + [(suitRank[x][q[x] - 4], x)];
          indices := q[x := q[x] + 1];
        }
      }
      RunsAreStraightFlushes();
    }

    method FindBestStraightFlush() returns (best: RankSuit)
      requires Valid()
      ensures SearchResult(Cards(), STRAIGHT_FLUSH, best.0 != -1, [STRAIGHT_FLUSH, best.0, best.1])
    {
      AllAheadAtStart(suitRank);
      var q, x := Select([4, 4, 4, 4]);
      SettlingLists(suitRank, [], [4, 4, 4, 4], q);
      RunsAreStraightFlushes();
      if x != -1 {
        ListSelected(suitRank, [], [4, 4, 4, 4], q, x);
        best := (suitRank[x][q[x] - 4], x);
        assert best in [best];
      } else {
        best := (-1, -1);
      }
      StraightFlushResult(Cards(), best);
    }

    // ----- flushes: a merge from the low ends --------------------------------------------

    lemma FlushesAreListable()
      requires Valid()
      ensures forall r, s :: FlushListable(suitRank, r, s) <==> Flush(Cards(), r, s)
    {
      forall r, s
        ensures FlushListable(suitRank, r, s) <==> Flush(Cards(), r, s)
      {
        if IsSuit(s) {
          FlushByPosition(suitRank[s], Cards(), s, r);
        }
      }
    }

    /** The suit whose cursor shows the lowest flush card; the last such suit on a tie. */
    method SelectLowest(p: seq<int>) returns (x: int)
      requires Valid() && Cursors(suitRank, p)
      ensures LowestShown(suitRank, p, SUITS, x)
    {
      x := -1;
      for i := 0 to SUITS
        invariant LowestShown(suitRank, p, i, x)
      {
        if p[i] >= 0 && (x == -1 || suitRank[i][p[i]] <= suitRank[x][p[x]]) {
          x := i;
        }
      }
    }

    method FindEveryFlush() returns (ans: seq<RankSuit>)
      requires Valid()
      ensures forall r, s :: (r, s) in ans <==> Flush(Cards(), r, s)
      ensures forall i, j :: 0 <= i < j < |ans| ==> LowerFirst(ans[i], ans[j])
    {
      var good := true;
      ans := [];
      var indices := [|suitRank[0]| - 5, |suitRank[1]| - 5, |suitRank[2]| - 5, |suitRank[3]| - 5];
      AllPendingAtStart(suitRank, indices);
      while good
        invariant Cursors(suitRank, indices) && FlushListed(suitRank, ans, indices)
        invariant !good ==> LowestShown(suitRank, indices, SUITS, -1)
        decreases good, indices[0] + indices[1] + indices[2] + indices[3] + 20
      {
        var x := SelectLowest(indices);
        if x == -1 {
          good := false;
        } else {
          ListLowest(suitRank, ans, indices, x);
          ans := ans + [(suitRank[x][indices[x]], x)];
          indices := indices[x := indices[x] - 1];
        }
      }
      FlushesAreListable();
    }

    method FindBestFlush() returns (best: RankSuit)
      requires Valid()
      ensures SearchResult(Cards(), FLUSH, best.0 != -1, [FLUSH, best.0, best.1])
    {
      best := (-1, -1);
      for i := 0 to SUITS
        invariant best.0 == -1 ==> forall r, s :: FlushListable(suitRank, r, s) ==> s >= i
        invariant best.0 != -1 ==> FlushListable(suitRank, best.0, best.1) && best.1 < i
        invariant best.0 != -1 ==> forall r, s :: FlushListable(suitRank, r, s) && s < i ==>
          r > best.0 || (r == best.0 && s >= best.1)
      {
        var suitSize := |suitRank[i]|;
        if suitSize >= 5 && (best.0 == -1 || best.0 > suitRank[i][suitSize - 5]) {
          best := (suitRank[i][suitSize - 5], i);
          assert best.0 in suitRank[i];
        }
      }
      FlushesAreListable();
      FlushResult(Cards(), best);
    }

    // ----- the other searches -------------------------------------------------------------

    lemma RunsAreStraights()
      requires Valid()
      ensures forall r :: Run(numberRank[0], r) <==> Straight(Cards(), r)
    {
      assert NumberList(numberRank[0], Cards(), 0);
    }

    method FindBestStraight() returns (best: int)
      requires Valid()
      ensures SearchResult(Cards(), STRAIGHT, best != -1, [STRAIGHT, best])
    {
      ghost var l := numberRank[0];
      RunsAreStraights();
      forall r | Run(l, r)
        ensures Ahead(l, 4, r)
      {
        AheadAtStart(l, r);
      }
      var x := 4;
      while x < |numberRank[0]|
        invariant x >= 4
        invariant forall r :: Run(l, r) ==> Ahead(l, x, r)
      {
        PassesMeansRun(l, x);
        if numberRank[0][x - 4] - 4 == numberRank[0][x] {
          return numberRank[0][x - 4];
        }
        forall r | Run(l, r)
          ensures Ahead(l, x + 1, r)
        {
          StepOver(l, x, r);
        }
        x := x + 1;
      }
      forall r | Run(l, r)
        ensures r == FIVE
      {
        if r > FIVE {
          OnlyLowRunAtEnd(l, x, r);
        }
      }
      var low := CheckStraight(FIVE);
      return if low then FIVE else -1;
    }

    method FindBestFullHouse() returns (best: (int, int))
      requires Valid()
      ensures SearchResult(Cards(), FULL_HOUSE, best.0 != -1, [FULL_HOUSE, best.0, best.1])
    {
      assert NumberList(numberRank[2], Cards(), 2) && NumberList(numberRank[1], Cards(), 1);
      for i := 0 to |numberRank[2]|
        invariant forall a, b :: TrueFullHouse(Cards(), a, b) ==> a !in numberRank[2][..i]
      {
        var three := numberRank[2][i];
        for j := 0 to |numberRank[1]|
          invariant forall k :: 0 <= k < j ==> numberRank[1][k] == three
        {
          if three != numberRank[1][j] {
            assert three in numberRank[2] && numberRank[1][j] in numberRank[1];
            best := (three, numberRank[1][j]);
            FullHouseResult(Cards(), best);
            return;
          }
        }
        assert numberRank[2][..i + 1] == numberRank[2][..i] + [three];
      }
      best := (-1, -1);
      FullHouseResult(Cards(), best);
    }

    /** The highest rank held more than `n` times: the searches for four, three, two and one of a kind. */
    function Front(n: int): (best: int)
      requires Valid() && 0 <= n < 4
      reads this
      ensures best == -1 ==> forall r :: IsRank(r) ==> Count(Cards(), r) <= n
      ensures best != -1 ==> IsRank(best) && Count(Cards(), best) > n
      ensures best != -1 ==> forall r :: IsRank(r) && Count(Cards(), r) > n ==> r <= best
    {
      assert NumberList(numberRank[n], Cards(), n);
      if |numberRank[n]| > 0 then
        assert numberRank[n][0] in numberRank[n];
        numberRank[n][0]
      else -1
    }

    function FindBestTwoPairs(): (best: (int, int))
      requires Valid()
      reads this
      ensures SearchResult(Cards(), TWO_PAIRS, best.0 != -1, [TWO_PAIRS, best.0, best.1])
    {
      assert NumberList(numberRank[1], Cards(), 1);
      TwoPairsResult(Cards(), numberRank[1]);
      if |numberRank[1]| >= 2 then
        (numberRank[1][0], numberRank[1][1])
      else (-1, -1)
    }

    method FindBestCombination() returns (ans: Claim)
      requires Valid()
      ensures Canonical(ans) && IsGreatest(Cards(), ans)
    {
      ghost var h := Cards();
      var c9 := FindBestStraightFlush();
      Descend(h, 9, c9.0 != -1, [9, c9.0, c9.1]);
      if c9.0 != -1 {
        return [9, c9.0, c9.1];
      }
      var c8 := Front(3);
      FrontIsBest(h, 8, c8);
      Descend(h, 8, c8 != -1, [8, c8]);
      if c8 != -1 {
        return [8, c8];
      }
      var c7 := FindBestFullHouse();
      Descend(h, 7, c7.0 != -1, [7, c7.0, c7.1]);
      if c7.0 != -1 {
        return [7, c7.0, c7.1];
      }
      var c6 := FindBestFlush();
      Descend(h, 6, c6.0 != -1, [6, c6.0, c6.1]);
      if c6.0 != -1 {
        return [6, c6.0, c6.1];
      }
      var c5 := FindBestStraight();
      Descend(h, 5, c5 != -1, [5, c5]);
      if c5 != -1 {
        return [5, c5];
      }
      ans := FindBestLowCombination();
    }

    /** The rest of the cascade, below the straights. */
    method FindBestLowCombination() returns (ans: Claim)
      requires Valid() && NoneAbove(Cards(), 4)
      ensures Canonical(ans) && IsGreatest(Cards(), ans)
    {
      ghost var h := Cards();
      var c4 := Front(2);
      FrontIsBest(h, 4, c4);
      Descend(h, 4, c4 != -1, [4, c4]);
      if c4 != -1 {
        return [4, c4];
      }
      var c3 := FindBestTwoPairs();
      Descend(h, 3, c3.0 != -1, [3, c3.0, c3.1]);
      if c3.0 != -1 {
        return [3, c3.0, c3.1];
      }
      var c2 := Front(1);
      FrontIsBest(h, 2, c2);
      Descend(h, 2, c2 != -1, [2, c2]);
      if c2 != -1 {
        return [2, c2];
      }
      var c1 := Front(0);
      FrontIsBest(h, 1, c1);
      Descend(h, 1, c1 != -1, [1, c1]);
      if c1 != -1 {
        return [1, c1];
      }
      Descend(h, 0, true, [0]);
      return [0];
    }

    method IsBestCombination(comb: Claim) returns (b: bool)
      requires Valid() && WellFormed(comb)
      ensures b <==> Canonical(comb) && IsGreatest(Cards(), comb)
    {
      b := CheckCombination(comb);
      if !b {
        return;
      }
      var best := FindBestCombination();
      GreatestUpToSuit(Cards(), best, comb);
      return StripSuit(best) == StripSuit(comb);
    }
  }

  lemma StraightFlushResult(h: set<Card>, best: RankSuit)
    requires best.0 == -1 ==> forall r, s :: !StraightFlush(h, r, s)
    requires best.0 != -1 ==> StraightFlush(h, best.0, best.1)
    requires best.0 != -1 ==> forall r, s :: StraightFlush(h, r, s) ==> r <= best.0
    ensures SearchResult(h, STRAIGHT_FLUSH, best.0 != -1, [STRAIGHT_FLUSH, best.0, best.1])
  {
    assert InStraight(best.0, best.0) || !IsRank(best.0);
    forall d | TrueCombination(h, d) && d[0] == STRAIGHT_FLUSH
      ensures StraightFlush(h, d[1], d[2])
    {
    }
  }

  lemma FlushResult(h: set<Card>, best: RankSuit)
    requires best.0 == -1 ==> forall r, s :: !Flush(h, r, s)
    requires best.0 != -1 ==> Flush(h, best.0, best.1)
    requires best.0 != -1 ==> forall r, s :: Flush(h, r, s) ==> r >= best.0
    ensures SearchResult(h, FLUSH, best.0 != -1, [FLUSH, best.0, best.1])
  {
    forall d | TrueCombination(h, d) && d[0] == FLUSH
      ensures Flush(h, d[1], d[2])
    {
    }
  }

  lemma TwoPairsResult(h: set<Card>, l: seq<int>)
    requires NumberList(l, h, 1)
    ensures |l| >= 2 ==> SearchResult(h, TWO_PAIRS, true, [TWO_PAIRS, l[0], l[1]])
    ensures |l| < 2 ==> SearchResult(h, TWO_PAIRS, false, [TWO_PAIRS, -1, -1])
  {
    if |l| >= 2 {
      assert l[0] in l && l[1] in l;
    }
  }

  lemma FullHouseResult(h: set<Card>, best: (int, int))
    requires best.0 == -1 ==> forall a, b :: !TrueFullHouse(h, a, b)
    requires best.0 != -1 ==> TrueFullHouse(h, best.0, best.1)
    requires best.0 != -1 ==> forall a, b :: TrueFullHouse(h, a, b) ==> a < best.0 || (a == best.0 && b <= best.1)
    ensures SearchResult(h, FULL_HOUSE, best.0 != -1, [FULL_HOUSE, best.0, best.1])
  {
    forall d | TrueCombination(h, d) && d[0] == FULL_HOUSE
      ensures TrueFullHouse(h, d[1], d[2])
    {
    }
  }

  ghost predicate TrueFullHouse(h: set<Card>, a: int, b: int) {
    a != b && IsRank(a) && IsRank(b) && Count(h, a) >= 3 && Count(h, b) >= 2
  }

  /** The types that ask for more than `n` cards of one rank. */
  function KindSize(t: int): int {
    if t == SQUARE then 3 else if t == SET then 2 else if t == PAIR then 1 else 0
  }

  lemma FrontIsBest(h: set<Card>, t: int, best: int)
    requires t == SQUARE || t == SET || t == PAIR || t == HIGH_CARD
    requires best == -1 ==> forall r :: IsRank(r) ==> Count(h, r) <= KindSize(t)
    requires best != -1 ==> IsRank(best) && Count(h, best) > KindSize(t)
    requires best != -1 ==> forall r :: IsRank(r) && Count(h, r) > KindSize(t) ==> r <= best
    ensures SearchResult(h, t, best != -1, [t, best])
  {
    forall d | TrueCombination(h, d) && d[0] == t
      ensures IsRank(d[1]) && Count(h, d[1]) > KindSize(t)
    {
    }
  }

  // ----- the merge, on the four lists alone -----------------------------------------------

  ghost predicate FourLists(l: seq<seq<int>>) {
    |l| == SUITS && forall s :: 0 <= s < SUITS ==> RankList(l[s])
  }

  ghost predicate AllSettled(l: seq<seq<int>>, p: seq<int>, q: seq<int>, n: int)
    requires |l| == SUITS && n <= SUITS
  {
    |p| == |q| == SUITS && forall s :: 0 <= s < n ==> Settled(l[s], p[s], q[s])
  }

  ghost predicate Listable(l: seq<seq<int>>, r: int, s: int)
    requires |l| == SUITS
  {
    IsSuit(s) && Run(l[s], r)
  }

  ghost predicate AheadOf(l: seq<seq<int>>, p: seq<int>, r: int, s: int)
    requires |l| == |p| == SUITS
  {
    Listable(l, r, s) && Ahead(l[s], p[s], r)
  }

  /** `x` is the suit whose settled cursor shows the best run among the first `n` suits. */
  ghost predicate BestShown(l: seq<seq<int>>, q: seq<int>, n: int, x: int)
    requires |l| == |q| == SUITS && n <= SUITS
  {
    (x == -1 ==> forall s :: 0 <= s < n ==> q[s] > |l[s]|) &&
    (x != -1 ==>
      0 <= x < n && 4 <= q[x] <= |l[x]| &&
      forall s :: 0 <= s < n && 4 <= q[s] <= |l[s]| && s != x ==>
        BetterFirst((l[x][q[x] - 4], x), (l[s][q[s] - 4], s)))
  }

  ghost function TotalSlack(l: seq<seq<int>>, p: seq<int>): nat
    requires |l| == |p| == SUITS
  {
    Slack(l[0], p[0]) + Slack(l[1], p[1]) + Slack(l[2], p[2]) + Slack(l[3], p[3])
  }

  /** The list holds, best first, exactly the runs that are no longer ahead of the cursors. */
  ghost predicate Listed(l: seq<seq<int>>, ans: seq<RankSuit>, p: seq<int>)
    requires |l| == |p| == SUITS
  {
    (forall r, s :: (r, s) in ans <==> Listable(l, r, s) && !AheadOf(l, p, r, s)) &&
    (forall i, j :: 0 <= i < j < |ans| ==> BetterFirst(ans[i], ans[j])) &&
    (forall i, r, s :: 0 <= i < |ans| && AheadOf(l, p, r, s) ==> BetterFirst(ans[i], (r, s)))
  }

  /** Settling one more cursor and comparing it with the best one so far. */
  lemma ShowNext(l: seq<seq<int>>, p: seq<int>, q: seq<int>, q': seq<int>, i: int, x: int, x': int)
    requires FourLists(l) && 0 <= i < SUITS
    requires AllSettled(l, p, q, i) && BestShown(l, q, i, x)
    requires |q'| == SUITS && q' == q[i := q'[i]] && Settled(l[i], p[i], q'[i])
    requires x' == if (q'[i] < |l[i]| && (x == -1 || l[i][q'[i] - 4] > l[x][q[x] - 4])) || (q'[i] == |l[i]| && x == -1)
                   then i else x
    ensures AllSettled(l, p, q', i + 1) && BestShown(l, q', i + 1, x')
  {
    hide Ahead, InStraight, Slack;
    assert forall s :: 0 <= s < i ==> q'[s] == q[s];
    if x != -1 {
      assert Settled(l[x], p[x], q[x]);
    }
  }

  lemma AllAheadAtStart(l: seq<seq<int>>)
    requires FourLists(l)
    ensures Listed(l, [], [4, 4, 4, 4])
  {
    forall r, s | Listable(l, r, s)
      ensures AheadOf(l, [4, 4, 4, 4], r, s)
    {
      AheadAtStart(l[s], r);
    }
  }

  lemma SettlingLists(l: seq<seq<int>>, ans: seq<RankSuit>, p: seq<int>, q: seq<int>)
    requires FourLists(l) && |p| == SUITS && Listed(l, ans, p) && AllSettled(l, p, q, SUITS)
    ensures Listed(l, ans, q) && AllSettled(l, q, q, SUITS)
  {
    assert forall r, s :: AheadOf(l, p, r, s) <==> AheadOf(l, q, r, s);
  }

  /** Listing what a pass has selected keeps the list complete and in order. */
  lemma ListSelected(l: seq<seq<int>>, ans: seq<RankSuit>, p: seq<int>, q: seq<int>, x: int)
    requires FourLists(l) && |p| == SUITS && Listed(l, ans, p) && AllSettled(l, p, q, SUITS)
    requires x != -1 && BestShown(l, q, SUITS, x)
    ensures Listed(l, ans + [(l[x][q[x] - 4], x)], q[x := q[x] + 1])
    ensures TotalSlack(l, q[x := q[x] + 1]) < TotalSlack(l, p)
  {
    var top := (l[x][q[x] - 4], x);
    var q' := q[x := q[x] + 1];
    SettlingLists(l, ans, p, q);
    forall r, s
      ensures AheadOf(l, q, r, s) <==> AheadOf(l, q', r, s) || (r, s) == top
      ensures AheadOf(l, q', r, s) ==> BetterFirst(top, (r, s))
    {
      if AheadOf(l, q, r, s) && (r, s) != top && s == x {
        StepOver(l[s], q[s], r);
      }
    }
  }

  // ----- the merge of the flushes ---------------------------------------------------------

  ghost predicate FlushListable(l: seq<seq<int>>, r: int, s: int)
    requires |l| == SUITS
  {
    IsSuit(s) && r in l[s] && |l[s]| >= 5 && l[s][|l[s]| - 5] <= r
  }

  /** Cursors stand at most at the fifth entry from the low end. */
  ghost predicate Cursors(l: seq<seq<int>>, p: seq<int>)
    requires |l| == SUITS
  {
    |p| == SUITS && forall s :: 0 <= s < SUITS ==> -5 <= p[s] <= |l[s]| - 5
  }

  ghost predicate Pending(l: seq<seq<int>>, p: seq<int>, r: int, s: int)
    requires |l| == |p| == SUITS
  {
    IsSuit(s) && r in l[s] && 0 <= p[s] < |l[s]| && r >= l[s][p[s]]
  }

  ghost predicate LowestShown(l: seq<seq<int>>, p: seq<int>, n: int, x: int)
    requires |l| == SUITS && n <= SUITS && Cursors(l, p)
  {
    (x == -1 ==> forall s :: 0 <= s < n ==> p[s] < 0) &&
    (x != -1 ==>
      0 <= x < n && p[x] >= 0 &&
      forall s :: 0 <= s < n && p[s] >= 0 && s != x ==> LowerFirst((l[x][p[x]], x), (l[s][p[s]], s)))
  }

  /** The list holds, lowest first, exactly the flushes that are no longer pending. */
  ghost predicate FlushListed(l: seq<seq<int>>, ans: seq<RankSuit>, p: seq<int>)
    requires |l| == |p| == SUITS
  {
    (forall r, s :: (r, s) in ans <==> FlushListable(l, r, s) && !Pending(l, p, r, s)) &&
    (forall i, j :: 0 <= i < j < |ans| ==> LowerFirst(ans[i], ans[j])) &&
    (forall i, r, s :: 0 <= i < |ans| && Pending(l, p, r, s) ==> LowerFirst(ans[i], (r, s)))
  }

  lemma AllPendingAtStart(l: seq<seq<int>>, p: seq<int>)
    requires FourLists(l) && |p| == SUITS && forall s :: 0 <= s < SUITS ==> p[s] == |l[s]| - 5
    ensures FlushListed(l, [], p)
  {
    forall r, s | FlushListable(l, r, s)
      ensures Pending(l, p, r, s)
    {
    }
  }

  lemma ListLowest(l: seq<seq<int>>, ans: seq<RankSuit>, p: seq<int>, x: int)
    requires FourLists(l) && Cursors(l, p)
    requires FlushListed(l, ans, p) && x != -1 && LowestShown(l, p, SUITS, x)
    ensures FlushListed(l, ans + [(l[x][p[x]], x)], p[x := p[x] - 1])
  {
    var top := (l[x][p[x]], x);
    var p' := p[x := p[x] - 1];
    forall r, s
      ensures Pending(l, p, r, s) <==> Pending(l, p', r, s) || (r, s) == top
      ensures Pending(l, p', r, s) ==> LowerFirst(top, (r, s))
    {
      if s == x && r in l[s] {
        var k :| 0 <= k < |l[s]| && l[s][k] == r;
      }
    }
  }
}
