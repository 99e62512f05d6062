/** How a typed line reads: blanks do not count, and neither does the case of letters. */
module TypedLines {
  import opened Cards
  import opened Text
  import opened ClaimText
  import opened CardMessage
  import opened Rules

  const UPPER: string := "ABCDEFGHIJKLMNOPQRSTUVWXYZ"
  const LOWER: string := "abcdefghijklmnopqrstuvwxyz"

  /** `d`, or the capital of the letter `d`. */
  predicate SameLetter(c: char, d: char) {
    c == d || exists k :: 0 <= k < 26 && c == UPPER[k] && d == LOWER[k]
  }

  /** The line begins with `word`, letter by letter, and `rest` is what stands behind it, blanks left out in both. */
  predicate Begins(line: string, word: string, rest: string) {
    if line == "" then word == "" && rest == ""
    else if line[0] == ' ' || line[0] == '\t' then Begins(line[1..], word, rest)
    else if word != "" then SameLetter(line[0], word[0]) && Begins(line[1..], word[1..], rest)
    else rest != "" && line[0] == rest[0] && Begins(line[1..], word, rest[1..])
  }

  /** The line reads `word` and nothing else. */
  predicate Reads(line: string, word: string) { Begins(line, word, "") }

  /** A word of small letters and other characters that have no case. */
  predicate Small(word: string) {
    forall i :: 0 <= i < |word| ==> !('A' <= word[i] <= 'Z')
  }

  lemma LetterMeans(c: char, d: char)
    requires !('A' <= d <= 'Z')
    ensures SameLetter(c, d) <==> LowerChar(c) == d
  {
    SmallOf(c, d);
  }

  /** The stripped line is `word` in either case, followed by `rest`. */
  predicate Splits(cws: string, word: string, rest: string) {
    |cws| == |word| + |rest| && Lower(cws[..|word|]) == word && cws[|word|..] == rest
  }

  lemma SplitsFirst(c: char, cws: string, word: string, rest: string)
    ensures word != "" ==> (Splits([c] + cws, word, rest) <==> LowerChar(c) == word[0] && Splits(cws, word[1..], rest))
    ensures word == "" ==>
      (Splits([c] + cws, word, rest) <==> rest != "" && c == rest[0] && Splits(cws, word, rest[1..]))
  {
    var s := [c] + cws;
    if word != "" {
      if |s| == |word| + |rest| {
        var n := |word|;
        assert s[..n] == [c] + cws[..n - 1] && s[n..] == cws[n - 1..];
        assert Lower(s[..n]) == [LowerChar(c)] + Lower(cws[..n - 1]);
        assert word == [word[0]] + word[1..];
      }
    } else if rest != "" {
      assert s[0..] == s && cws[0..] == cws && rest == [rest[0]] + rest[1..];
    }
  }

  /** Reading letter by letter is stripping and lowering. */
  lemma {:induction false} BeginsMeans(line: string, word: string, rest: string)
    requires Small(word)
    ensures Begins(line, word, rest) <==> Splits(NoSpaces(line), word, rest)
  {
    if line != "" {
      var c, cws := line[0], NoSpaces(line[1..]);
      if IsSpace(c) {
        BeginsMeans(line[1..], word, rest);
      } else {
        SplitsFirst(c, cws, word, rest);
        hide Splits;
        if word != "" {
          LetterMeans(c, word[0]);
          BeginsMeans(line[1..], word[1..], rest);
        } else if rest != "" {
          BeginsMeans(line[1..], word, rest[1..]);
        }
      }
    }
  }

  lemma ReadsMeans(line: string, word: string)
    requires Small(word)
    ensures Reads(line, word) <==> Lower(NoSpaces(line)) == word
  {
    var cws := NoSpaces(line);
    BeginsMeans(line, word, "");
    assert |cws| == |word| ==> cws[..|word|] == cws;
    hide Begins, NoSpaces;
  }

  lemma BeginsClaim(line: string, rest: string)
    ensures Begins(line, "/m", rest) <==>
      var cws := NoSpaces(line);
      |cws| >= 2 && Lower(cws)[..2] == "/m" && rest == cws[2..]
  {
    var cws := NoSpaces(line);
    BeginsMeans(line, "/m", rest);
    hide Begins, NoSpaces;
    if |cws| >= 2 {
      assert Lower(cws[..2]) == Lower(cws)[..2];
    }
  }

  // ----- the words that the game knows ----------------------------------------------------------------

  /** The words for different orders are told apart by their lengths, and the two shortest by their letter. */
  lemma WordsDiffer(w: string)
    ensures w == "/concede" ==> |w| == 8
    ensures w == "/tie" ==> |w| == 4
    ensures w == "/draw" ==> |w| == 5
    ensures w == "/tr" || w == "/lm" ==> |w| == 3
    ensures w == "/cards" ==> |w| == 6
    ensures w == "/lastmove" ==> |w| == 9
    ensures w == "/r" ==> |w| == 2 && w[1] == 'r'
    ensures w == "/b" ==> |w| == 2 && w[1] == 'b'
  {
  }

  /** The words that end the game or ask for its end. */
  lemma EndingWords(line: string)
    ensures OrderOf(line).Concede? <==> Reads(line, "/concede")
    ensures OrderOf(line).WantTie? <==> Reads(line, "/tie") || Reads(line, "/draw")
  {
    WordsDiffer(Lower(NoSpaces(line)));
    hide Reads, NoSpaces, Lower;
    ReadsMeans(line, "/concede");
    ReadsMeans(line, "/tie");
    ReadsMeans(line, "/draw");
  }

  /** The questions. */
  lemma AskingWords(line: string)
    ensures OrderOf(line).Ask? <==>
      Reads(line, "/tr") || Reads(line, "/cards") || Reads(line, "/lastmove") || Reads(line, "/lm")
  {
    WordsDiffer(Lower(NoSpaces(line)));
    hide Reads, NoSpaces, Lower;
    ReadsMeans(line, "/tr");
    ReadsMeans(line, "/cards");
    ReadsMeans(line, "/lastmove");
    ReadsMeans(line, "/lm");
  }

  /** The words that end the round. */
  lemma RoundWords(line: string)
    ensures OrderOf(line).Reveal? <==> Reads(line, "/r")
    ensures OrderOf(line).Block? <==> Reads(line, "/b")
  {
    WordsDiffer(Lower(NoSpaces(line)));
    hide Reads, NoSpaces, Lower;
    ReadsMeans(line, "/r");
    ReadsMeans(line, "/b");
  }

  /** A line that begins with "/m" makes the claim that stands behind it. */
  lemma ClaimingWords(line: string, rest: string)
    requires Begins(line, "/m", rest)
    ensures OrderOf(line) == Claiming(NoSpaces(line)) && rest == NoSpaces(line)[2..]
  {
    BeginsClaim(line, rest);
    var lcws := Lower(NoSpaces(line));
    assert lcws[1] == 'm';
    hide NoSpaces, Lower, Begins;
  }

  // ----- the symbols of a claim -----------------------------------------------------------------------

  /**
   * The parser takes a character for a rank exactly if it is the symbol that the clients show on
   * the cards of that rank, or its small letter, and for a suit exactly if it is the shown number.
   */
  lemma SymbolsAsShown(card: Card, c: char)
    ensures c in WCHAR_TO_RANK && WCHAR_TO_RANK[c] == RankOf(card) <==> SameLetter(View(card).symbol[0], c)
    ensures c in WCHAR_TO_SUIT && WCHAR_TO_SUIT[c] == View(card).suit <==> [c] == Decimal(View(card).suit)
  {
    LetterOfRank(RankOf(card), c);
    SuitDigit(SuitOf(card), c);
  }

  lemma LetterOfRank(r: nat, c: char)
    requires r < RANKS
    ensures c in WCHAR_TO_RANK && WCHAR_TO_RANK[c] == r <==> SameLetter(VALUES[r], c)
  {
    SmallOf(VALUES[r], c);
  }

  /** A character and its small letter. */
  lemma SmallOf(d: char, c: char)
    ensures SameLetter(d, c) <==> c == d || ('A' <= d <= 'Z' && c == LowerChar(d))
  {
    if 'A' <= d <= 'Z' {
      var k := d as int - 'A' as int;
      assert d == UPPER[k] && LOWER[k] == LowerChar(d);
    }
    forall k | 0 <= k < 26
      ensures 'A' <= UPPER[k] <= 'Z' && LowerChar(UPPER[k]) == LOWER[k]
    {
    }
  }

  lemma SuitDigit(s: nat, c: char)
    requires s < SUITS
    ensures c in WCHAR_TO_SUIT && WCHAR_TO_SUIT[c] == s <==> [c] == Decimal(s)
  {
    assert Decimal(s) == [DIGITS[s]];
  }

  /** The types of claims are counted from nought, the weakest first. */
  lemma TypesAreCounted(c: char, n: nat)
    requires n < 9
    ensures c in WCHAR_TO_COMBINATION && WCHAR_TO_COMBINATION[c] == n + 1 <==> [c] == Decimal(n)
  {
    assert Decimal(n) == [DIGITS[n]];
  }
}
