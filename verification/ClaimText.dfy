/** Claims as text: the parser of the move command and the printer of the best combination. */
module ClaimText {
  import opened Cards
  import opened Claims
  import opened Text

  const WCHAR_TO_RANK: map<char, int> := map[
    '2' := 0, '3' := 1, '4' := 2, '5' := 3, '6' := 4, '7' := 5, '8' := 6, '9' := 7, '0' := 8,
    'J' := 9, 'j' := 9, 'Q' := 10, 'q' := 10, 'K' := 11, 'k' := 11, 'A' := 12, 'a' := 12]
  const RANK_TO_WCHAR: string := "234567890jqka"
  const WCHAR_TO_SUIT: map<char, int> := map['0' := 0, '1' := 1, '2' := 2, '3' := 3]
  const SUIT_TO_WCHAR: string := "0123"
  const WCHAR_TO_COMBINATION: map<char, int> := map[
    '0' := HIGH_CARD, '1' := PAIR, '2' := TWO_PAIRS, '3' := SET, '4' := STRAIGHT,
    '5' := FLUSH, '6' := FULL_HOUSE, '7' := SQUARE, '8' := STRAIGHT_FLUSH]
  const COMBINATION_TO_WCHAR: string := "X012345678"

  /** The parser's answer: a claim, or which message it returns and about what. */
  datatype ParseOutcome =
    | Parsed(claim: Claim)
    | MissingCombination
    | IncorrectCombination(ch: char)
    | MissingRank
    | IncorrectRank(ch: char)
    | MissingSuit
    | IncorrectSuit(ch: char)
    | ExcessInformation(rest: string)
    | LittleStraightRank(ch: char)
    | LittleFlushRank(ch: char)
    | CoincidingRanks(ch: char)

  /** The text spells the claim, symbol by symbol, before any sorting. */
  predicate Spells(s: string, c: Claim) {
    Sized(c) && c[0] != NOTHING && |s| == |c| &&
    s[0] in WCHAR_TO_COMBINATION && WCHAR_TO_COMBINATION[s[0]] == c[0] &&
    (forall i :: 1 <= i <= HOW_MANY_RANKS[c[0]] ==> s[i] in WCHAR_TO_RANK && WCHAR_TO_RANK[s[i]] == c[i]) &&
    (HAS_SUIT[c[0]] ==> s[|s| - 1] in WCHAR_TO_SUIT && WCHAR_TO_SUIT[s[|s| - 1]] == c[|c| - 1])
  }

  /** The claims a text stands for. */
  ghost predicate Denotes(s: string, c: Claim) {
    exists d :: Spells(s, d) && Writable(d) && c == SortPairs(d)
  }

  /** The first position from `i` on, among the `n` rank positions, that does not hold a rank symbol. */
  function FirstNonRank(s: string, i: nat, n: nat): (k: nat)
    requires 1 <= i <= n + 1
    ensures i <= k <= n + 1
    ensures k == i || k <= |s|
    ensures forall j :: i <= j < k ==> s[j] in WCHAR_TO_RANK
    ensures k <= n ==> k >= |s| || s[k] !in WCHAR_TO_RANK
    decreases n + 1 - i
  {
    if i <= n && i < |s| && s[i] in WCHAR_TO_RANK then FirstNonRank(s, i + 1, n) else i
  }

  function ReadRanks(s: string, n: nat): (c: seq<int>)
    requires n < |s| && forall j :: 1 <= j <= n ==> s[j] in WCHAR_TO_RANK
    ensures |c| == n && forall j :: 0 <= j < n ==> c[j] == WCHAR_TO_RANK[s[j + 1]]
  {
    seq(n, j requires 0 <= j < n => WCHAR_TO_RANK[s[j + 1]])
  }

  /** The limits the parser puts on a spelled claim. */
  function Limit(s: string, c: Claim): ParseOutcome
    requires Spells(s, c)
  {
    if (c[0] == STRAIGHT || c[0] == STRAIGHT_FLUSH) && c[1] < FIVE then LittleStraightRank(s[1])
    else if c[0] == FLUSH && c[1] < SEVEN then LittleFlushRank(s[1])
    else if c[0] == TWO_PAIRS && c[1] == c[2] then CoincidingRanks(s[1])
    else Parsed(SortPairs(c))
  }

  /** What the parser answers, case by case in the order in which it looks. */
  function Parse(s: string): ParseOutcome {
    if |s| == 0 then MissingCombination
    else if s[0] !in WCHAR_TO_COMBINATION then IncorrectCombination(s[0])
    else
      var t := WCHAR_TO_COMBINATION[s[0]];
      var n := HOW_MANY_RANKS[t];
      var k := FirstNonRank(s, 1, n);
      if k <= n then (if k >= |s| then MissingRank else IncorrectRank(s[k]))
      else if HAS_SUIT[t] && |s| <= 1 + n then MissingSuit
      else if HAS_SUIT[t] && s[1 + n] !in WCHAR_TO_SUIT then IncorrectSuit(s[1 + n])
      else if |s| > COMBINATION_SIZE[t] then ExcessInformation(s[COMBINATION_SIZE[t]..])
      else Limit(s, [t] + ReadRanks(s, n) + if HAS_SUIT[t] then [WCHAR_TO_SUIT[s[1 + n]]] else [])
  }

  method ParseMCommand(command: string) returns (transcript: ParseOutcome)
    ensures transcript == Parse(command)
  {
    var combination: Claim := [];
    var commandLength := |command|;
    if commandLength <= 0 {
      return MissingCombination;
    }
    if command[0] !in WCHAR_TO_COMBINATION {
      return IncorrectCombination(command[0]);
    }
    var combinationType := WCHAR_TO_COMBINATION[command[0]];
    combination := combination + [combinationType];
    var numberOfRanks := HOW_MANY_RANKS[combinationType];
    for i := 0 to numberOfRanks
      invariant FirstNonRank(command, 1, numberOfRanks) == FirstNonRank(command, 1 + i, numberOfRanks)
      invariant i < |command| && forall j :: 1 <= j <= i ==> command[j] in WCHAR_TO_RANK
      invariant combination == [combinationType] + ReadRanks(command, i)
    {
      if commandLength <= 1 + i {
        return MissingRank;
      }
      if command[1 + i] !in WCHAR_TO_RANK {
        return IncorrectRank(command[1 + i]);
      }
      combination := combination + [WCHAR_TO_RANK[command[1 + i]]];
    }
    transcript := ParseAfterRanks(command, combination);
  }

  /** The parser once all rank symbols are read: suit, excess symbols, limits. */
  method ParseAfterRanks(command: string, ranksRead: Claim) returns (transcript: ParseOutcome)
    requires |command| > 0 && command[0] in WCHAR_TO_COMBINATION
    requires var t := WCHAR_TO_COMBINATION[command[0]];
      HOW_MANY_RANKS[t] < |command| &&
      (forall j :: 1 <= j <= HOW_MANY_RANKS[t] ==> command[j] in WCHAR_TO_RANK) &&
      ranksRead == [t] + ReadRanks(command, HOW_MANY_RANKS[t])
    ensures transcript == Parse(command)
  {
    var combination := ranksRead;
    var combinationType := combination[0];
    var numberOfRanks := HOW_MANY_RANKS[combinationType];
    var numberOfSuits := if HAS_SUIT[combinationType] then 1 else 0;
    assert FirstNonRank(command, 1, numberOfRanks) == numberOfRanks + 1;
    if numberOfSuits != 0 {
      if |command| <= 1 + numberOfRanks {
        return MissingSuit;
      }
      if command[1 + numberOfRanks] !in WCHAR_TO_SUIT {
        return IncorrectSuit(command[1 + numberOfRanks]);
      }
      combination := combination + [WCHAR_TO_SUIT[command[1 + numberOfRanks]]];
    }
    if |command| > 1 + numberOfRanks + numberOfSuits {
      return ExcessInformation(command[1 + numberOfRanks + numberOfSuits..]);
    }
    assert combination == [combinationType] + ReadRanks(command, numberOfRanks) +
      if numberOfSuits == 1 then [WCHAR_TO_SUIT[command[1 + numberOfRanks]]] else [];
    transcript := CheckLimits(command, combination);
  }

  /** The last part of the parser: the limits on ranks, and the sorting of two pairs. */
  method CheckLimits(command: string, combination: Claim) returns (transcript: ParseOutcome)
    requires Spells(command, combination)
    ensures transcript == Limit(command, combination)
    ensures transcript.Parsed? <==> Writable(combination)
    ensures Writable(combination) ==> transcript == Parsed(SortPairs(combination))
  {
    LimitMeans(command, combination);
    var combinationType := combination[0];
    if combinationType == STRAIGHT || combinationType == STRAIGHT_FLUSH {
      if combination[1] < FIVE {
        return LittleStraightRank(command[1]);
      }
    } else if combinationType == FLUSH {
      if combination[1] < SEVEN {
        return LittleFlushRank(command[1]);
      }
    } else if combinationType == TWO_PAIRS {
      if combination[1] == combination[2] {
        return CoincidingRanks(command[1]);
      }
    }
    if combinationType == TWO_PAIRS && combination[1] > combination[2] {
      return Parsed([combination[0], combination[2], combination[1]]);
    }
    return Parsed(combination);
  }

  /** What can be printed: any claim but NOTHING whose ranks and suit have symbols. */
  predicate Printable(c: Claim) {
    Sized(c) && c[0] != NOTHING && IsRank(c[1]) &&
    (c[0] == TWO_PAIRS || c[0] == FULL_HOUSE ==> IsRank(c[2])) && (HAS_SUIT[c[0]] ==> IsSuit(c[2]))
  }

  /** The symbols of a claim, as they are printed. */
  function Symbols(c: Claim): (s: string)
    requires Printable(c)
    ensures |s| == |c|
  {
    seq(|c|, i requires 0 <= i < |c| =>
      if i == 0 then COMBINATION_TO_WCHAR[c[0]]
      else if i <= HOW_MANY_RANKS[c[0]] then RANK_TO_WCHAR[c[i]]
      else SUIT_TO_WCHAR[c[i]])
  }

  /** Printing a claim; the assertions of the original demand a claim other than NOTHING. */
  method FormatMCommand(combination: Claim) returns (str: string)
    requires Printable(combination)
    ensures str == "/m " + Symbols(combination)
  {
    str := "/m ";
    var combType := combination[0];
    var numberOfRanks := HOW_MANY_RANKS[combType];
    str := str + [COMBINATION_TO_WCHAR[combType]];
    for i := 0 to numberOfRanks
      invariant str == "/m " + Symbols(combination)[..i + 1]
    {
      str := str + [RANK_TO_WCHAR[combination[i + 1]]];
    }
    if HAS_SUIT[combType] {
      str := str + [SUIT_TO_WCHAR[combination[numberOfRanks + 1]]];
    }
  }

  /** What the move command hands to the parser: the text without spaces, after its first two characters. */
  function Argument(command: string): string
    requires |NoSpaces(command)| >= 2
  {
    NoSpaces(command)[2..]
  }

  // ----- meaning of the parser -----------------------------------------------------------------

  /** The parser accepts exactly the texts that denote a claim, and delivers that claim. */
  lemma ParseIsDenotation(s: string, c: Claim)
    ensures Parse(s) == Parsed(c) <==> Denotes(s, c)
  {
    if Parse(s) == Parsed(c) {
      var d := ParsedIsSpelled(s);
      assert Spells(s, d) && Writable(d) && c == SortPairs(d);
    } else if Denotes(s, c) {
      var e :| Spells(s, e) && Writable(e) && c == SortPairs(e);
      SpelledIsParsed(s, e);
      LimitMeans(s, e);
    }
  }

  lemma ParsedIsSpelled(s: string) returns (d: Claim)
    requires Parse(s).Parsed?
    ensures Spells(s, d) && Writable(d) && Parse(s) == Parsed(SortPairs(d))
  {
    d := ReadOff(s);
    LimitMeans(s, d);
    hide Parse, Limit, Spells, Writable;
  }

  /** The claim that an accepted text spells. */
  lemma ReadOff(s: string) returns (d: Claim)
    requires Parse(s).Parsed?
    ensures Spells(s, d) && Parse(s) == Limit(s, d)
  {
    var t := WCHAR_TO_COMBINATION[s[0]];
    var n := HOW_MANY_RANKS[t];
    d := [t] + ReadRanks(s, n) + if HAS_SUIT[t] then [WCHAR_TO_SUIT[s[1 + n]]] else [];
    assert Spells(s, d);
    hide Spells, FirstNonRank, ReadRanks, Limit;
  }

  lemma SymbolsAreInRange(s: string, d: Claim)
    requires Spells(s, d)
    ensures forall i :: 1 <= i <= HOW_MANY_RANKS[d[0]] ==> IsRank(d[i])
    ensures HAS_SUIT[d[0]] ==> IsSuit(d[|d| - 1])
  {
    assert forall ch :: ch in WCHAR_TO_RANK ==> IsRank(WCHAR_TO_RANK[ch]);
    assert forall ch :: ch in WCHAR_TO_SUIT ==> IsSuit(WCHAR_TO_SUIT[ch]);
  }

  lemma SpellingIsUnique(s: string, d: Claim, e: Claim)
    requires Spells(s, d) && Spells(s, e)
    ensures d == e
  {
    forall i | 0 <= i < |d|
      ensures d[i] == e[i]
    {
      assert i == 0 || i <= HOW_MANY_RANKS[d[0]] || i == |d| - 1;
    }
  }

  /** The limits let through exactly the writable claims, with their pairs sorted. */
  lemma LimitMeans(s: string, c: Claim)
    requires Spells(s, c)
    ensures Limit(s, c).Parsed? <==> Writable(c)
    ensures Writable(c) ==> Limit(s, c) == Parsed(SortPairs(c))
  {
    SymbolsAreInRange(s, c);
  }

  lemma SpelledIsParsed(s: string, e: Claim)
    requires Spells(s, e)
    ensures Parse(s) == Limit(s, e)
  {
    var t := e[0];
    var n := HOW_MANY_RANKS[t];
    var k := FirstNonRank(s, 1, n);
    assert k == n + 1;
    var d := [t] + ReadRanks(s, n) + if HAS_SUIT[t] then [WCHAR_TO_SUIT[s[1 + n]]] else [];
    assert Spells(s, d);
    SpellingIsUnique(s, d, e);
  }

  /** What the parser delivers is playable and has exactly as many symbols as the tables say. */
  lemma ParsedIsPlayable(s: string, c: Claim)
    requires Parse(s) == Parsed(c)
    ensures Playable(c) && |s| == COMBINATION_SIZE[c[0]]
  {
    var d := ParsedIsSpelled(s);
  }

  // ----- round trips ---------------------------------------------------------------------------

  lemma TablesAreInverse()
    ensures forall r :: IsRank(r) ==> RANK_TO_WCHAR[r] in WCHAR_TO_RANK && WCHAR_TO_RANK[RANK_TO_WCHAR[r]] == r
    ensures forall u :: IsSuit(u) ==> SUIT_TO_WCHAR[u] in WCHAR_TO_SUIT && WCHAR_TO_SUIT[SUIT_TO_WCHAR[u]] == u
    ensures forall t :: 1 <= t < COMBINATIONS ==>
      COMBINATION_TO_WCHAR[t] in WCHAR_TO_COMBINATION && WCHAR_TO_COMBINATION[COMBINATION_TO_WCHAR[t]] == t
  {
  }

  lemma SymbolsSpell(c: Claim)
    requires Printable(c)
    ensures Spells(Symbols(c), c)
  {
    TablesAreInverse();
    forall i | 1 <= i <= HOW_MANY_RANKS[c[0]]
      ensures IsRank(c[i]) && Symbols(c)[i] == RANK_TO_WCHAR[c[i]]
    {
    }
  }

  /**
   * What was printed is read back exactly if it is within the parser's limits, and then it is
   * the claim with its two pairs sorted.
   */
  lemma PrintThenParse(c: Claim)
    requires Printable(c)
    ensures Parse(Symbols(c)).Parsed? <==> Writable(c)
    ensures Writable(c) ==> Parse(Symbols(c)) == Parsed(SortPairs(c))
  {
    SymbolsSpell(c);
    SpelledIsParsed(Symbols(c), c);
    LimitMeans(Symbols(c), c);
    hide Parse, Limit, Symbols, Spells, Writable, Printable;
  }

  /** Printing what was read and reading it again changes nothing. */
  lemma ParseThenPrint(s: string, c: Claim)
    requires Parse(s) == Parsed(c)
    ensures Playable(c) && Parse(Symbols(c)) == Parsed(c)
  {
    ParsedIsPlayable(s, c);
    PrintThenParse(c);
  }

  lemma SymbolsSurviveStripping(c: Claim)
    requires Printable(c)
    ensures |NoSpaces("/m " + Symbols(c))| >= 2 && NoSpaces("/m " + Symbols(c))[..2] == "/m"
    ensures Argument("/m " + Symbols(c)) == Symbols(c)
  {
    var s := Symbols(c);
    NoSpacesConcat("/m ", s);
    assert NoSpaces("/m ") == "/m" by {
      assert "/m "[1..] == "m " && "m "[1..] == " " && " "[1..] == "";
      assert NoSpaces(" ") == [] && NoSpaces("m ") == ['m'];
    }
    forall i | 0 <= i < |s|
      ensures !IsSpace(s[i])
    {
    }
    NoSpacesKeepsPlain(s);
  }

  /** The announced best combination can be entered as a move, and means the same claim. */
  lemma AnnouncedBestParses(h: set<Card>, c: Claim)
    requires Canonical(c) && IsGreatest(h, c) && c[0] != NOTHING
    ensures Writable(c)
    ensures |NoSpaces("/m " + Symbols(c))| >= 2
    ensures Parse(Argument("/m " + Symbols(c))) == Parsed(SortPairs(c))
  {
    BestIsWritable(h, c);
    SymbolsSurviveStripping(c);
    PrintThenParse(c);
  }
}
