/**
 * What one pass of the game thread does, read off the line that was typed and the clock: the whole
 * new state for every line, either sender and any claim on the table.
 */
module Passes {
  import opened Wrappers
  import opened Cards
  import opened Claims
  import opened Text
  import opened ClaimText
  import opened Shuffle
  import opened Rules
  import opened GameRuns
  import opened TypedLines

  // ----- ends and beginnings ---------------------------------------------------------------------------

  /** The game has ended with the result `r`; everything else is as it was. */
  predicate EndsWith(s: State, r: RoundResult, t: State) {
    t == s.(finished := true, results := s.results + [r])
  }

  /** A new round after the result `r`: an empty table, no wishes, the other player begins, new cards. */
  ghost predicate NewRound(s: State, r: RoundResult, t: State) {
    t == s.(results := s.results + [r], claim := [NOTHING], lastMove := "", moves := [],
            firstWantsTie := false, secondWantsTie := false,
            firstMove := Other(s.firstMove), currentMove := Other(s.firstMove),
            firstCards := t.firstCards, secondCards := t.secondCards) &&
    |t.firstCards| == s.first && |t.secondCards| == s.second && NoDuplicates(t.firstCards + t.secondCards)
  }

  /** `p` has lost the round: one card more, and the numbers of cards decide whether the game goes on. */
  ghost predicate LosesRound(s: State, p: Player, t: State) {
    var u := s.(first := t.first, second := t.second, losers := s.losers + [p]);
    t.first == (if p.FirstPlayer? then s.first + 1 else s.first) &&
    t.second == (if p.FirstPlayer? then s.second else s.second + 1) &&
    if t.first == 26 && t.second == 26 then EndsWith(u, TieInGame, t)
    else if (t.first < 10 && t.second < 10) || -1 <= t.first - t.second <= 1 then NewRound(u, LostRound(p), t)
    else EndsWith(u, LostGame(p), t)
  }

  lemma StartIsNew(s: State, r: RoundResult, g: seq<nat>)
    requires s.first + s.second <= ALL_CARDS && Numbers(g)
    ensures NewRound(s, r, StartRound(Report(s, r), g))
  {
    DealtHandsFit(Report(s, r), g);
    hide Dealt, NoDuplicates;
  }

  lemma LossMeans(s: State, p: Player, g: seq<nat>)
    requires Level(s.first, s.second) && !s.finished && Numbers(g)
    ensures LosesRound(s, p, PlayerLosesRound(s, p, g))
  {
    LevelAfterLoss(s, p);
    var u := WithLoss(s, p);
    var r := ResultOf(u, p);
    if !FinishedGame(r) {
      StartIsNew(u, r, g);
    }
    hide StartRound, NoDuplicates;
  }

  lemma TieMeans(s: State, g: seq<nat>)
    requires Level(s.first, s.second) && Numbers(g)
    ensures NewRound(s, TieInRound, TieRound(s, g))
  {
    StartIsNew(s, TieInRound, g);
    hide StartRound, NewRound;
  }

  // ----- typed lines -------------------------------------------------------------------------------------

  /** A pass that finds a typed line and time left. */
  function Typed(sender: Player, line: string, g: seq<nat>): Input {
    Input(Some(Move(sender, line)), false, g, g)
  }

  /** A line is handled as its order says, and nothing else happens. */
  lemma TypedMeans(s: State, sender: Player, line: string, g: seq<nat>, start: Player)
    requires Inv(s, start) && Numbers(g)
    ensures Ready(s) && Process(s, Typed(sender, line, g)) == MakeMove(s, sender, line, g)
  {
    InvIsReady(s, start);
    ProcessMeans(s, Typed(sender, line, g));
    hide Inv, Ready, Process, MakeMove;
    assert AfterCommand(s, Typed(sender, line, g)) == MakeMove(s, sender, line, g);
  }

  /** "/concede" loses the game, whoever is on move. */
  lemma ConcedeLoses(s: State, sender: Player, line: string, g: seq<nat>, start: Player)
    requires Inv(s, start) && Numbers(g) && Reads(line, "/concede")
    ensures Ready(s) && EndsWith(s, LostGame(sender), Process(s, Typed(sender, line, g)))
  {
    TypedMeans(s, sender, line, g, start);
    EndingWords(line);
    hide Inv, Ready, Process, OrderOf, Reads;
  }

  /** "/tie" and "/draw" note a wish, whoever is on move, and end the game once both players wish it. */
  lemma TieNeedsBoth(s: State, sender: Player, line: string, g: seq<nat>, start: Player)
    requires Inv(s, start) && Numbers(g) && (Reads(line, "/tie") || Reads(line, "/draw"))
    ensures Ready(s)
    ensures var t := Process(s, Typed(sender, line, g));
      var u := if sender.FirstPlayer? then s.(firstWantsTie := true) else s.(secondWantsTie := true);
      if Wishes(s, Other(sender)) then EndsWith(u, TieInGame, t) else t == u
  {
    TypedMeans(s, sender, line, g, start);
    EndingWords(line);
    assert !(s.firstWantsTie && s.secondWantsTie) && !s.finished;
    hide Inv, Ready, Process, OrderOf, Reads;
  }

  /** Questions change nothing. */
  lemma QuestionsChangeNothing(s: State, sender: Player, line: string, g: seq<nat>, start: Player)
    requires Inv(s, start) && Numbers(g)
    requires Reads(line, "/tr") || Reads(line, "/cards") || Reads(line, "/lastmove") || Reads(line, "/lm")
    ensures Ready(s) && Process(s, Typed(sender, line, g)) == s
  {
    TypedMeans(s, sender, line, g, start);
    AskingWords(line);
    hide Inv, Ready, Process, OrderOf, Reads;
  }

  /**
   * "/r" of the player on move: refused before the first claim; after it he loses the round if the
   * claim on the table is true of the union of both hands, and the other player if not.
   */
  lemma RevealTyped(s: State, sender: Player, line: string, g: seq<nat>, start: Player)
    requires Inv(s, start) && Numbers(g) && Reads(line, "/r")
    ensures Ready(s)
    ensures var t := Process(s, Typed(sender, line, g));
      if sender != s.currentMove || s.moves == [] then t == s
      else LosesRound(s, if Holds(Union(s), s.moves[|s.moves| - 1]) then sender else Other(sender), t)
  {
    TypedMeans(s, sender, line, g, start);
    RoundWords(line);
    LossMeans(s, s.currentMove, g);
    LossMeans(s, Other(s.currentMove), g);
    ClaimOnTable(s, start);
    hide Inv, Ready, Process, OrderOf, Reads, Holds, LosesRound, PlayerLosesRound;
  }

  lemma ClaimOnTable(s: State, start: Player)
    requires Inv(s, start)
    ensures s.claim != [] && (s.claim[0] == NOTHING <==> s.moves == [])
    ensures s.moves != [] ==> s.claim == s.moves[|s.moves| - 1] && Playable(s.claim)
  {
    hide Level, HandsFit, Turns, Tally, NoneFinished;
  }

  /**
   * "/b" of the player on move: refused before the first claim; after it the round is tied if the
   * claim on the table is canonical and the best that the union offers, and otherwise he loses it.
   */
  lemma BlockTyped(s: State, sender: Player, line: string, g: seq<nat>, start: Player)
    requires Inv(s, start) && Numbers(g) && Reads(line, "/b")
    ensures Ready(s)
    ensures var t := Process(s, Typed(sender, line, g));
      if sender != s.currentMove || s.moves == [] then t == s
      else if Canonical(s.moves[|s.moves| - 1]) && IsGreatest(Union(s), s.moves[|s.moves| - 1])
      then NewRound(s, TieInRound, t)
      else LosesRound(s, sender, t)
  {
    TypedMeans(s, sender, line, g, start);
    RoundWords(line);
    LossMeans(s, s.currentMove, g);
    TieMeans(s, g);
    ClaimOnTable(s, start);
    hide Inv, Ready, Process, OrderOf, Reads, Canonical, IsGreatest, LosesRound, NewRound, PlayerLosesRound, TieRound;
  }

  /** The claim `c` is on the table: it is the last one, both wishes are gone, and the other player is on move. */
  predicate OnTable(s: State, c: Claim, text: string, t: State) {
    t == s.(claim := c, moves := s.moves + [c], lastMove := text, firstWantsTie := false, secondWantsTie := false,
            currentMove := Other(s.currentMove))
  }

  /** `c` beats the claim on the table. */
  predicate Beats(s: State, c: Claim) { Sized(s.claim) && Sized(c) && Less(s.claim, c) }

  /** What the player on move does to the table with the text of a claim. */
  lemma ClaimMeans(s: State, cws: string, c: Claim)
    requires Ready(s) && |cws| >= 2 && Denotes(cws[2..], c)
    ensures if Beats(s, c) then OnTable(s, c, cws[..2] + " " + cws[2..], MakeClaim(s, cws)) else MakeClaim(s, cws) == s
  {
    ParseIsDenotation(cws[2..], c);
    ParsedIsPlayable(cws[2..], c);
    assert Sized(s.claim) && Sized(c);
    hide Less, Parse, Denotes, Ready, Sized, Playable;
  }

  lemma NoClaimMeans(s: State, cws: string)
    requires Ready(s) && |cws| >= 2 && forall c :: !Denotes(cws[2..], c)
    ensures MakeClaim(s, cws) == s
  {
    if Parse(cws[2..]).Parsed? {
      ParseIsDenotation(cws[2..], Parse(cws[2..]).claim);
    }
    hide Less, Denotes, Ready, Sized, Playable;
  }

  lemma ClaimingMeans(s: State, sender: Player, line: string, rest: string, g: seq<nat>, start: Player)
    requires Inv(s, start) && Numbers(g) && Begins(line, "/m", rest)
    ensures Ready(s) && |NoSpaces(line)| >= 2 && rest == NoSpaces(line)[2..]
    ensures Process(s, Typed(sender, line, g)) == if sender == s.currentMove then MakeClaim(s, NoSpaces(line)) else s
  {
    TypedMeans(s, sender, line, g, start);
    ClaimingWords(line, rest);
    hide Inv, Ready, Process, OrderOf, Begins, NoSpaces, MakeClaim;
  }

  /**
   * "/m" and a claim of the player on move that beats the one on the table: it is made, and the
   * last move is the command, a blank and the claim as it was typed.
   */
  lemma ClaimIsMade(s: State, line: string, rest: string, c: Claim, g: seq<nat>, start: Player)
    requires Inv(s, start) && Numbers(g) && Begins(line, "/m", rest) && Denotes(rest, c) && Beats(s, c)
    ensures Ready(s) && |NoSpaces(line)| >= 2
    ensures OnTable(s, c, NoSpaces(line)[..2] + " " + rest, Process(s, Typed(s.currentMove, line, g)))
  {
    ClaimingMeans(s, s.currentMove, line, rest, g, start);
    ClaimMeans(s, NoSpaces(line), c);
    hide Inv, Ready, Process, Begins, NoSpaces, MakeClaim, Denotes, Beats, OnTable;
  }

  /** It is not made out of turn, nor if the line denotes no claim or none that beats the one on the table. */
  lemma ClaimIsRefused(s: State, sender: Player, line: string, rest: string, g: seq<nat>, start: Player)
    requires Inv(s, start) && Numbers(g) && Begins(line, "/m", rest)
    requires sender != s.currentMove || forall c :: Denotes(rest, c) ==> !Beats(s, c)
    ensures Ready(s) && Process(s, Typed(sender, line, g)) == s
  {
    ClaimingMeans(s, sender, line, rest, g, start);
    hide Inv, Ready, Process, Begins, NoSpaces, MakeClaim, Denotes, Beats, OnTable;
    if c :| Denotes(rest, c) {
      ClaimMeans(s, NoSpaces(line), c);
    } else {
      NoClaimMeans(s, NoSpaces(line));
    }
  }

  /** Lines that are none of these are only passed on. */
  lemma OtherLinesChangeNothing(s: State, sender: Player, line: string, g: seq<nat>, start: Player)
    requires Inv(s, start) && Numbers(g)
    requires !Reads(line, "/concede") && !Reads(line, "/tie") && !Reads(line, "/draw") && !Reads(line, "/tr")
    requires !Reads(line, "/cards") && !Reads(line, "/lastmove") && !Reads(line, "/lm")
    requires !Reads(line, "/r") && !Reads(line, "/b") && forall rest :: !Begins(line, "/m", rest)
    ensures Ready(s) && Process(s, Typed(sender, line, g)) == s
  {
    TypedMeans(s, sender, line, g, start);
    EndingWords(line);
    AskingWords(line);
    RoundWords(line);
    if OrderOf(line).Claiming? {
      BeginsClaim(line, NoSpaces(line)[2..]);
    }
    hide Inv, Ready, Process, OrderOf, Reads, Begins;
  }

  // ----- other events and the clock ------------------------------------------------------------------------

  /** A player who disconnects loses the game; a reconnection and an empty queue change nothing. */
  lemma EventsMean(s: State, sender: Player, g: seq<nat>, start: Player)
    requires Inv(s, start) && Numbers(g)
    ensures Ready(s)
    ensures EndsWith(s, LostGame(sender), Process(s, Input(Some(Disconnect(sender)), false, g, g)))
    ensures Process(s, Input(Some(Reconnect(sender)), false, g, g)) == s == Process(s, Input(None, false, g, g))
  {
    InvIsReady(s, start);
    ProcessMeans(s, Input(Some(Disconnect(sender)), false, g, g));
    ProcessMeans(s, Input(Some(Reconnect(sender)), false, g, g));
    ProcessMeans(s, Input(None, false, g, g));
    hide Inv, Ready, Process;
  }

  /**
   * The clock comes after the command.  If time is up and the command has not ended the game, then
   * before the first lost round the game is tied, and later the player on move loses the round.
   */
  lemma ClockDecides(s: State, i: Input, start: Player)
    requires Inv(s, start) && Numbers(i.g) && Numbers(i.h)
    ensures Ready(s)
    ensures var t, u := Process(s, i.(timeIsUp := false)), Process(s, i);
      if t.finished || !i.timeIsUp then u == t
      else if t.losers == [] then EndsWith(t, TieInGame, u)
      else LosesRound(t, t.currentMove, u)
  {
    InvIsReady(s, start);
    var j := i.(timeIsUp := false);
    ProcessMeans(s, i);
    ProcessMeans(s, j);
    assert AfterCommand(s, j) == AfterCommand(s, i);
    var t := AfterCommand(s, i);
    hide Process, AfterCommand;
    if !t.finished && i.timeIsUp {
      CommandIsGood(s, i, start);
      FirstLossMovesNumbers(t, start);
      LossMeans(t, t.currentMove, i.h);
    }
    hide Inv, Ready, LosesRound, PlayerLosesRound;
  }

  lemma FirstLossMovesNumbers(s: State, start: Player)
    requires Inv(s, start)
    ensures s.first == 5 && s.second == 5 <==> s.losers == []
  {
    EveryLossCounts(s.losers);
  }
}
