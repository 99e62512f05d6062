/**
 * Why the parser refuses: it names the first character with which a text stops being the beginning
 * of a claim, or says what is missing behind one, what is left over, or which limit was broken.
 */
module Refusals {
  import opened Cards
  import opened Claims
  import opened ClaimText

  /** The text spells a claim, within the limits or not. */
  ghost predicate Complete(s: string) { exists d :: Spells(s, d) }

  /** More characters, or none, make it spell a claim. */
  ghost predicate CanBecome(s: string) { exists rest :: Complete(s + rest) }

  /** The text could be completed up to position `k`, and cannot be any more with the character there. */
  ghost predicate FirstWrong(s: string, k: nat, ch: char) {
    k < |s| && s[k] == ch && CanBecome(s[..k]) && !CanBecome(s[..k + 1])
  }

  ghost predicate Unfinished(s: string) { CanBecome(s) && !Complete(s) }

  /** The text spells a claim that breaks a limit. */
  ghost predicate BreaksLimit(s: string, types: set<int>) {
    exists d :: Spells(s, d) && !Writable(d) && d[0] in types
  }

  function Ranks(s: string): nat {
    if s != "" && s[0] in WCHAR_TO_COMBINATION then HOW_MANY_RANKS[WCHAR_TO_COMBINATION[s[0]]] else 0
  }

  ghost predicate Explains(s: string, o: ParseOutcome) {
    match o
    case Parsed(c) => Denotes(s, c)
    case MissingCombination => s == ""
    case MissingRank => Unfinished(s) && 1 <= |s| <= Ranks(s)
    case MissingSuit => Unfinished(s) && |s| == 1 + Ranks(s)
    case IncorrectCombination(ch) => FirstWrong(s, 0, ch)
    case IncorrectRank(ch) => exists k :: 1 <= k <= Ranks(s) && FirstWrong(s, k, ch)
    case IncorrectSuit(ch) => FirstWrong(s, 1 + Ranks(s), ch)
    case ExcessInformation(rest) => rest != "" && exists p :: Complete(p) && s == p + rest
    case LittleStraightRank(ch) => BreaksLimit(s, {STRAIGHT, STRAIGHT_FLUSH}) && s[1..2] == [ch]
    case LittleFlushRank(ch) => BreaksLimit(s, {FLUSH}) && s[1..2] == [ch]
    case CoincidingRanks(ch) => BreaksLimit(s, {TWO_PAIRS}) && s[1..2] == [ch]
  }

  // ----- beginnings of claims -----------------------------------------------------------------------------

  /** Each character is one that may stand at its place. */
  predicate Fits(s: string) {
    s == "" ||
    (s[0] in WCHAR_TO_COMBINATION &&
     var t := WCHAR_TO_COMBINATION[s[0]];
     |s| <= COMBINATION_SIZE[t] && forall i :: 1 <= i < |s| ==>
       if i <= HOW_MANY_RANKS[t] then s[i] in WCHAR_TO_RANK else s[i] in WCHAR_TO_SUIT)
  }

  predicate Full(s: string) {
    s != "" && Fits(s) && |s| == COMBINATION_SIZE[WCHAR_TO_COMBINATION[s[0]]]
  }

  lemma SizesAddUp(t: int)
    requires 1 <= t < COMBINATIONS
    ensures COMBINATION_SIZE[t] == 1 + HOW_MANY_RANKS[t] + if HAS_SUIT[t] then 1 else 0
  {
  }

  lemma SpelledIsFull(s: string, d: Claim)
    requires Spells(s, d)
    ensures Full(s)
  {
    SizesAddUp(d[0]);
  }

  /** The claim that a full text spells. */
  lemma FullIsSpelled(s: string) returns (d: Claim)
    requires Full(s)
    ensures Spells(s, d)
  {
    var t := WCHAR_TO_COMBINATION[s[0]];
    var n := HOW_MANY_RANKS[t];
    SizesAddUp(t);
    d := [t] + ReadRanks(s, n) + if HAS_SUIT[t] then [WCHAR_TO_SUIT[s[1 + n]]] else [];
  }

  lemma FullIsComplete(s: string)
    ensures Complete(s) <==> Full(s)
  {
    hide Spells, Full;
    if Full(s) {
      var d := FullIsSpelled(s);
    }
    if d :| Spells(s, d) {
      SpelledIsFull(s, d);
    }
  }

  /** A nought is a rank and a suit, so noughts complete every beginning. */
  lemma FitsCanBecome(s: string)
    ensures CanBecome(s) <==> Fits(s)
  {
    if Fits(s) {
      var rest := if s == "" then "10" else seq(COMBINATION_SIZE[WCHAR_TO_COMBINATION[s[0]]] - |s|, _ => '0');
      assert Full(s + rest);
      FullIsComplete(s + rest);
    }
    if rest :| Complete(s + rest) {
      FullIsComplete(s + rest);
      var w := s + rest;
      assert forall i :: 0 <= i < |s| ==> w[i] == s[i];
    }
  }

  // ----- the explanation ------------------------------------------------------------------------------------

  lemma WrongHere(s: string, k: nat)
    requires k < |s| && Fits(s[..k]) && !Fits(s[..k + 1])
    ensures FirstWrong(s, k, s[k])
  {
    FitsCanBecome(s[..k]);
    FitsCanBecome(s[..k + 1]);
  }

  lemma NotFull(s: string)
    requires Fits(s) && !Full(s)
    ensures Unfinished(s)
  {
    FitsCanBecome(s);
    FullIsComplete(s);
  }

  /** The type is known, and the rank positions in front of `k` hold ranks. */
  lemma RanksFit(s: string, k: nat)
    requires s != "" && s[0] in WCHAR_TO_COMBINATION
    requires 1 <= k <= |s| && k <= 1 + Ranks(s) && forall j :: 1 <= j < k ==> s[j] in WCHAR_TO_RANK
    ensures Fits(s[..k])
  {
    SizesAddUp(WCHAR_TO_COMBINATION[s[0]]);
  }

  lemma RankIsWrong(s: string)
    requires s != "" && s[0] in WCHAR_TO_COMBINATION
    requires var k := FirstNonRank(s, 1, Ranks(s)); k <= Ranks(s)
    ensures Explains(s, Parse(s))
  {
    var k := FirstNonRank(s, 1, Ranks(s));
    RanksFit(s, k);
    hide Unfinished, FirstWrong, FirstNonRank, Fits, Full;
    if k >= |s| {
      assert s[..k] == s;
      assert !Full(s) by {
        TooShort(s);
      }
      NotFull(s);
    } else {
      RankEndsIt(s, k);
      WrongHere(s, k);
    }
  }

  lemma TooShort(s: string)
    requires s != "" && s[0] in WCHAR_TO_COMBINATION && |s| <= Ranks(s)
    ensures !Full(s)
  {
    SizesAddUp(WCHAR_TO_COMBINATION[s[0]]);
  }

  lemma RankEndsIt(s: string, k: nat)
    requires s != "" && s[0] in WCHAR_TO_COMBINATION && 1 <= k <= Ranks(s) && k < |s| && s[k] !in WCHAR_TO_RANK
    ensures !Fits(s[..k + 1])
  {
    assert s[..k + 1][k] == s[k];
  }

  lemma SuitIsWrong(s: string)
    requires s != "" && s[0] in WCHAR_TO_COMBINATION && HAS_SUIT[WCHAR_TO_COMBINATION[s[0]]]
    requires FirstNonRank(s, 1, Ranks(s)) == 1 + Ranks(s)
    requires |s| <= 1 + Ranks(s) || s[1 + Ranks(s)] !in WCHAR_TO_SUIT
    ensures Explains(s, Parse(s))
  {
    var k := 1 + Ranks(s);
    RanksFit(s, k);
    hide Unfinished, FirstWrong, FirstNonRank, Fits, Full;
    if k >= |s| {
      assert s[..k] == s;
      assert !Full(s) by {
        NoSuitYet(s);
      }
      NotFull(s);
    } else {
      SuitEndsIt(s, k);
      WrongHere(s, k);
    }
  }

  lemma NoSuitYet(s: string)
    requires s != "" && s[0] in WCHAR_TO_COMBINATION && HAS_SUIT[WCHAR_TO_COMBINATION[s[0]]] && |s| <= 1 + Ranks(s)
    ensures !Full(s)
  {
    SizesAddUp(WCHAR_TO_COMBINATION[s[0]]);
  }

  lemma SuitEndsIt(s: string, k: nat)
    requires s != "" && s[0] in WCHAR_TO_COMBINATION && k == 1 + Ranks(s) < |s| && s[k] !in WCHAR_TO_SUIT
    ensures !Fits(s[..k + 1])
  {
    assert s[..k + 1][k] == s[k];
  }

  lemma TooMuch(s: string, n: nat)
    requires s != "" && s[0] in WCHAR_TO_COMBINATION && n == COMBINATION_SIZE[WCHAR_TO_COMBINATION[s[0]]] < |s|
    requires Fits(s[..n])
    ensures s[n..] != "" && Complete(s[..n]) && s == s[..n] + s[n..]
  {
    FullIsComplete(s[..n]);
  }

  /** Type, ranks and suit are read. */
  predicate AllRead(s: string) {
    s != "" && s[0] in WCHAR_TO_COMBINATION && FirstNonRank(s, 1, Ranks(s)) == 1 + Ranks(s) &&
    (HAS_SUIT[WCHAR_TO_COMBINATION[s[0]]] ==> |s| > 1 + Ranks(s) && s[1 + Ranks(s)] in WCHAR_TO_SUIT)
  }

  lemma AllReadFits(s: string, n: nat)
    requires AllRead(s) && n == COMBINATION_SIZE[WCHAR_TO_COMBINATION[s[0]]]
    ensures n <= |s| && Fits(s[..n])
  {
    SizesAddUp(WCHAR_TO_COMBINATION[s[0]]);
  }

  lemma ExcessIsSaid(s: string, n: nat)
    requires AllRead(s) && n == COMBINATION_SIZE[WCHAR_TO_COMBINATION[s[0]]] < |s|
    ensures Parse(s) == ExcessInformation(s[n..])
  {
    hide FirstNonRank, ReadRanks;
  }

  lemma RestExplains(s: string)
    requires AllRead(s)
    ensures Explains(s, Parse(s))
  {
    var n := COMBINATION_SIZE[WCHAR_TO_COMBINATION[s[0]]];
    AllReadFits(s, n);
    if |s| > n {
      ExcessIsSaid(s, n);
      TooMuch(s, n);
      hide Complete, Fits, AllRead, Parse;
    } else {
      assert s[..n] == s;
      LimitExplains(s);
    }
  }

  /** Whatever the parser answers, the answer says why. */
  lemma AnswersExplain(s: string)
    ensures Explains(s, Parse(s))
  {
    hide Complete, Unfinished, BreaksLimit, Denotes, Limit;
    if s == "" {
    } else if s[0] !in WCHAR_TO_COMBINATION {
      assert s[..1][0] == s[0];
      WrongHere(s, 0);
    } else {
      var t := WCHAR_TO_COMBINATION[s[0]];
      var n := Ranks(s);
      SizesAddUp(t);
      if FirstNonRank(s, 1, n) <= n {
        RankIsWrong(s);
      } else if HAS_SUIT[t] && (|s| <= 1 + n || s[1 + n] !in WCHAR_TO_SUIT) {
        SuitIsWrong(s);
      } else {
        RestExplains(s);
      }
    }
  }

  lemma LimitExplains(s: string)
    requires Full(s)
    ensures Explains(s, Parse(s))
  {
    FullIsComplete(s);
    var d :| Spells(s, d);
    SpelledIsParsed(s, d);
    LimitMeans(s, d);
    if Limit(s, d).Parsed? {
      ParseIsDenotation(s, SortPairs(d));
    }
  }
}
