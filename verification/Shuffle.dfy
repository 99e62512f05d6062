/** Shuffling the deck in place and dealing two hands from its front. */
module Shuffle {
  import opened Cards
  import opened Hands

  const CARD_TYPE_MAX: nat := 255

  /** `--i` on an unsigned byte. */
  function Decrement(i: nat): (j: nat)
    requires i <= CARD_TYPE_MAX
    ensures j <= CARD_TYPE_MAX
  {
    if i == 0 then CARD_TYPE_MAX else i - 1
  }

  function Identity(n: nat): seq<nat> { seq(n, i => i) }

  function Swap(a: seq<nat>, i: nat, j: nat): (b: seq<nat>)
    requires i < |a| && j < |a|
    ensures |b| == |a|
  {
    a[i := a[j]][j := a[i]]
  }

  /** The places a shuffle swaps with: place `i` may be swapped with any place up to itself. */
  predicate Choices(c: seq<nat>, n: nat) {
    |c| == n && forall i :: 0 <= i < n ==> c[i] <= i
  }

  /** The place to swap with place `i`; the first random number goes to the last place. */
  function Choice(g: seq<nat>, i: nat): (c: nat)
    requires i < |g|
    ensures c <= i
  {
    g[|g| - 1 - i] % (i + 1)
  }

  function ChoicesFrom(g: seq<nat>): (c: seq<nat>)
    ensures Choices(c, |g|)
  {
    seq(|g|, i requires 0 <= i < |g| => Choice(g, i))
  }

  /** The swaps at the places below `i`, from the last one down. */
  function Shuffled(a: seq<nat>, c: seq<nat>, i: nat): (b: seq<nat>)
    requires i <= |a| && Choices(c, |a|)
    ensures |b| == |a|
    decreases i
  {
    if i == 0 then a else Shuffled(Swap(a, i - 1, c[i - 1]), c, i - 1)
  }

  /** The deck of `n` cards after a shuffle with the given choices. */
  function Deck(c: seq<nat>): (p: seq<nat>)
    requires Choices(c, |c|)
    ensures |p| == |c|
  {
    Shuffled(Identity(|c|), c, |c|)
  }

  ghost predicate Permutation(p: seq<nat>, n: nat) {
    |p| == n && NoDuplicates(p) && forall i :: 0 <= i < n ==> p[i] < n
  }

  method SwapPlaces(arr: array<nat>, i: nat, j: nat)
    requires i < arr.Length && j < arr.Length
    modifies arr
    ensures arr[..] == Swap(old(arr[..]), i, j)
  {
    arr[i], arr[j] := arr[j], arr[i];
  }

  /** How many places the loop still visits. */
  function PlacesLeft(i: nat): nat { if i == CARD_TYPE_MAX then 0 else i + 1 }

  /** The loop counter is an unsigned byte: after place 0 it wraps around, which ends the loop. */
  method SwapDown(arr: array<nat>, g: seq<nat>)
    requires arr.Length == |g| <= CARD_TYPE_MAX
    modifies arr
    ensures arr[..] == Shuffled(old(arr[..]), ChoicesFrom(g), |g|)
  {
    hide Shuffled, Choice, ChoicesFrom, Choices, Swap;
    var n := arr.Length;
    var i: nat := if n == 0 then CARD_TYPE_MAX else n - 1;
    while i != CARD_TYPE_MAX
      invariant i < n || i == CARD_TYPE_MAX
      invariant Shuffled(arr[..], ChoicesFrom(g), PlacesLeft(i)) == Shuffled(old(arr[..]), ChoicesFrom(g), n)
      decreases PlacesLeft(i)
    {
      OneSwap(arr[..], g, i);
      SwapPlaces(arr, i, Choice(g, i));
      i := Decrement(i);
    }
    NoSwap(arr[..], ChoicesFrom(g));
  }

  method GenerateShuffledArray(n: nat, g: seq<nat>) returns (arr: array<nat>)
    requires n <= CARD_TYPE_MAX && |g| == n
    ensures fresh(arr) && arr[..] == Deck(ChoicesFrom(g))
  {
    arr := new nat[n];
    for i := 0 to n
      invariant forall k :: 0 <= k < i ==> arr[k] == k
    {
      arr[i] := i;
    }
    assert arr[..] == Identity(n);
    SwapDown(arr, g);
  }

  lemma OneSwap(a: seq<nat>, g: seq<nat>, i: nat)
    requires |g| == |a| && i < |a|
    ensures Shuffled(a, ChoicesFrom(g), i + 1) == Shuffled(Swap(a, i, Choice(g, i)), ChoicesFrom(g), i)
  {
  }

  lemma NoSwap(a: seq<nat>, c: seq<nat>)
    requires Choices(c, |a|)
    ensures Shuffled(a, c, 0) == a
  {
  }

  // ----- every permutation, each in one way ------------------------------------------------------

  lemma {:induction false} LaterPlacesStay(a: seq<nat>, c: seq<nat>, i: nat, k: nat)
    requires i <= k < |a| && Choices(c, |a|)
    ensures Shuffled(a, c, i)[k] == a[k]
    decreases i
  {
    if i > 0 {
      LaterPlacesStay(Swap(a, i - 1, c[i - 1]), c, i - 1, k);
    }
  }

  lemma SwapKeepsPermutation(a: seq<nat>, i: nat, j: nat)
    requires Permutation(a, |a|) && i < |a| && j < |a|
    ensures Permutation(Swap(a, i, j), |a|)
  {
  }

  lemma {:induction false} ShuffleKeepsPermutation(a: seq<nat>, c: seq<nat>, i: nat)
    requires i <= |a| && Choices(c, |a|) && Permutation(a, |a|)
    ensures Permutation(Shuffled(a, c, i), |a|)
    decreases i
  {
    if i > 0 {
      SwapKeepsPermutation(a, i - 1, c[i - 1]);
      ShuffleKeepsPermutation(Swap(a, i - 1, c[i - 1]), c, i - 1);
    }
  }

  lemma {:induction false} SameResultSameChoices(a: seq<nat>, c: seq<nat>, d: seq<nat>, i: nat)
    requires i <= |a| && Choices(c, |a|) && Choices(d, |a|) && NoDuplicates(a)
    requires Shuffled(a, c, i) == Shuffled(a, d, i)
    ensures c[..i] == d[..i]
    decreases i
  {
    if i > 0 {
      var x, y := Swap(a, i - 1, c[i - 1]), Swap(a, i - 1, d[i - 1]);
      assert a[c[i - 1]] == a[d[i - 1]] by {
        LaterPlacesStay(x, c, i - 1, i - 1);
        LaterPlacesStay(y, d, i - 1, i - 1);
      }
      assert NoDuplicates(x);
      hide Shuffled, Swap;
      SameResultSameChoices(x, c, d, i - 1);
      assert c[..i] == c[..i - 1] + [c[i - 1]] && d[..i] == d[..i - 1] + [d[i - 1]];
    }
  }

  /** `p` has the elements of `a`, and they differ only below place `i`. */
  ghost predicate Reachable(a: seq<nat>, p: seq<nat>, i: nat) {
    |a| == |p| && i <= |a| && NoDuplicates(a) && NoDuplicates(p) &&
    (forall k :: i <= k < |a| ==> p[k] == a[k]) && (forall x :: x in p <==> x in a)
  }

  lemma {:induction false} ChoicesReach(a: seq<nat>, p: seq<nat>, i: nat) returns (c: seq<nat>)
    requires Reachable(a, p, i)
    ensures Choices(c, |a|) && Shuffled(a, c, i) == p
    decreases i
  {
    if i == 0 {
      c := seq(|a|, _ => 0);
    } else {
      var k := PlaceOf(a, p, i);
      var b := Swap(a, i - 1, k);
      assert forall x :: x in a ==> x in b by {
        forall m | 0 <= m < |a|
          ensures a[m] in b
        {
          assert a[m] == b[if m == k then i - 1 else if m == i - 1 then k else m];
        }
      }
      var d := ChoicesReach(b, p, i - 1);
      c := d[i - 1 := k];
      OnlyLowerChoices(b, c, d, i - 1);
    }
  }

  /** The element that belongs at place `i - 1` is still at or below it. */
  lemma PlaceOf(a: seq<nat>, p: seq<nat>, i: nat) returns (k: nat)
    requires Reachable(a, p, i) && i > 0
    ensures k < i && a[k] == p[i - 1]
  {
    assert p[i - 1] in a;
    k :| 0 <= k < |a| && a[k] == p[i - 1];
  }

  lemma {:induction false} OnlyLowerChoices(a: seq<nat>, c: seq<nat>, d: seq<nat>, i: nat)
    requires i <= |a| && Choices(c, |a|) && Choices(d, |a|) && c[..i] == d[..i]
    ensures Shuffled(a, c, i) == Shuffled(a, d, i)
    decreases i
  {
    if i > 0 {
      assert c[i - 1] == c[..i][i - 1] == d[i - 1];
      assert c[..i - 1] == c[..i][..i - 1] == d[..i - 1];
      OnlyLowerChoices(Swap(a, i - 1, c[i - 1]), c, d, i - 1);
    }
  }

  /** Numbers below `n` in some order: then every one of them occurs. */
  lemma {:induction false} PermutationIsOnto(p: seq<nat>, n: nat, x: nat)
    requires Permutation(p, n) && x < n
    ensures x in p
    decreases n
  {
    if x !in p {
      // without x the remaining numbers can be renamed so that the largest one is the missing one
      var q := seq(n, i requires 0 <= i < n => if p[i] == n - 1 then x else p[i]);
      if x == n - 1 {
        assert q == p;
      }
      assert forall i :: 0 <= i < n ==> q[i] < n - 1;
      assert NoDuplicates(q);
      TooManyNumbers(q, n - 1);
    }
  }

  /** There are no more than `n` different numbers below `n`. */
  lemma {:induction false} TooManyNumbers(q: seq<nat>, n: nat)
    requires NoDuplicates(q) && forall i :: 0 <= i < |q| ==> q[i] < n
    ensures |q| <= n
    decreases n
  {
    if q != [] {
      assert q[0] < n;
      if n - 1 in q {
        var k :| 0 <= k < |q| && q[k] == n - 1;
        TooManyNumbers(q[..k] + q[k + 1..], n - 1);
      } else {
        TooManyNumbers(q, n - 1);
      }
    }
  }

  /** A shuffled deck is a permutation, and every permutation comes from exactly one list of choices. */
  lemma ShuffleIsFair(n: nat, p: seq<nat>) returns (c: seq<nat>)
    requires Permutation(p, n)
    ensures Choices(c, n) && Deck(c) == p
    ensures forall d :: Choices(d, n) && Deck(d) == p ==> d == c
  {
    var a := Identity(n);
    forall x
      ensures x in p <==> x in a
    {
      if x in a {
        PermutationIsOnto(p, n, x);
      }
      if x in p {
        assert a[x] == x;
      }
    }
    c := ChoicesReach(a, p, n);
    forall d | Choices(d, n) && Deck(d) == p
      ensures d == c
    {
      SameResultSameChoices(a, c, d, n);
      assert c[..n] == c && d[..n] == d;
    }
  }

  lemma DeckIsPermutation(c: seq<nat>)
    requires Choices(c, |c|)
    ensures Permutation(Deck(c), |c|)
  {
    ShuffleKeepsPermutation(Identity(|c|), c, |c|);
  }

  // ----- the deal --------------------------------------------------------------------------------

  /** The first `m` cards of the deck shuffled with the random numbers `g`. */
  function Dealt(g: seq<nat>, m: nat): (v: seq<Card>)
    requires |g| == ALL_CARDS && m <= ALL_CARDS
    ensures |v| == m && NoDuplicates(v)
  {
    var deck := Deck(ChoicesFrom(g));
    DeckIsPermutation(ChoicesFrom(g));
    deck[..m]
  }

  method GenerateCards(firstNumber: nat, secondNumber: nat, g: seq<nat>)
      returns (first: seq<Card>, second: seq<Card>, union: Hand)
    requires firstNumber + secondNumber <= ALL_CARDS && |g| == ALL_CARDS
    ensures |first| == firstNumber && |second| == secondNumber
    ensures first + second == Dealt(g, firstNumber + secondNumber)
    ensures fresh(union) && union.Valid() && union.Cards() == SetOf(first + second)
    ensures SetOf(first) !! SetOf(second)
  {
    var arr := GenerateShuffledArray(ALL_CARDS, g);
    var myCards := arr[..];
    DeckIsPermutation(ChoicesFrom(g));
    first := myCards[..firstNumber];
    second := myCards[firstNumber..firstNumber + secondNumber];
    assert first + second == myCards[..firstNumber + secondNumber] == Dealt(g, firstNumber + secondNumber);
    union := new Hand.FromCards(first + second);
    HandsAreDisjoint(first, second);
  }

  lemma HandsAreDisjoint(first: seq<Card>, second: seq<Card>)
    requires NoDuplicates(first + second)
    ensures SetOf(first) !! SetOf(second)
    ensures SetOf(first + second) == SetOf(first) + SetOf(second)
  {
    var v := first + second;
    forall i, j | 0 <= i < |first| && 0 <= j < |second|
      ensures first[i] != second[j]
    {
      assert first[i] == v[i] && second[j] == v[|first| + j];
    }
  }

  /** Every list of choices is made with some random numbers. */
  lemma EveryChoiceIsPossible(c: seq<nat>) returns (g: seq<nat>)
    requires Choices(c, |c|)
    ensures |g| == |c| && ChoicesFrom(g) == c
  {
    var n := |c|;
    g := seq(n, i requires 0 <= i < n => c[n - 1 - i]);
    forall i | 0 <= i < n
      ensures ChoicesFrom(g)[i] == c[i]
    {
      SmallRemainder(c[i], i + 1);
    }
  }

  lemma SmallRemainder(a: nat, b: nat)
    requires a < b
    ensures a % b == a
  {
  }

  /** Any list of different cards can be dealt. */
  lemma EveryDealIsPossible(v: seq<Card>) returns (g: seq<nat>)
    requires NoDuplicates(v) && |v| <= ALL_CARDS
    ensures |g| == ALL_CARDS && Dealt(g, |v|) == v
  {
    var p := Completed(v);
    var c := ShuffleIsFair(ALL_CARDS, p);
    g := EveryChoiceIsPossible(c);
    hide ChoicesFrom, Deck, Choices;
  }

  lemma {:induction false} Completed(v: seq<nat>) returns (p: seq<nat>)
    requires |v| <= ALL_CARDS && NoDuplicates(v) && forall i :: 0 <= i < |v| ==> v[i] < ALL_CARDS
    ensures Permutation(p, ALL_CARDS) && p[..|v|] == v
    decreases ALL_CARDS - |v|
  {
    if |v| == ALL_CARDS {
      p := v;
    } else {
      var x := MissingCard(v, ALL_CARDS);
      p := Completed(v + [x]);
      assert p[..|v|] == p[..|v + [x]|][..|v|];
    }
  }

  lemma {:induction false} MissingCard(v: seq<nat>, n: nat) returns (x: nat)
    requires |v| < n
    ensures x < n && x !in v
    decreases n
  {
    if n - 1 !in v {
      x := n - 1;
    } else {
      var k :| 0 <= k < |v| && v[k] == n - 1;
      x := MissingCard(v[..k] + v[k + 1..], n - 1);
      forall i | 0 <= i < |v|
        ensures v[i] != x
      {
        if i < k {
          assert v[i] == (v[..k] + v[k + 1..])[i];
        } else if i > k {
          assert v[i] == (v[..k] + v[k + 1..])[i - 1];
        }
      }
    }
  }
}
