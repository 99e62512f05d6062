/** The game engine: the object that plays by the rules, with its cards held by a hand evaluator. */
module GameEngine {
  import opened Wrappers
  import opened Cards
  import opened Claims
  import opened Text
  import opened ClaimText
  import opened Hands
  import opened Shuffle
  import opened Rules
  import opened GameRuns

  /** Cards always make some combination. */
  lemma BestIsSomething(h: set<Card>, best: Claim)
    requires IsGreatest(h, best) && h != {}
    ensures best[0] != NOTHING
  {
    var c :| c in h;
    var d := [HIGH_CARD, RankOf(c)];
    assert Has(h, RankOf(c), SuitOf(c));
    assert Canonical(d) && Holds(h, d);
    LessMeans(best, d);
  }

  /** The text is a printed best combination of the cards; entered as a command it is a claim. */
  ghost predicate Announces(h: set<Card>, text: string) {
    exists best :: Canonical(best) && IsGreatest(h, best) && Writable(best) && text == "/m " + Symbols(best)
  }

  class Game {
    var firstPlayerCardNumber: nat
    var secondPlayerCardNumber: nat
    var firstMove: Player
    var currentMove: Player
    var firstPlayerWantsTie: bool
    var secondPlayerWantsTie: bool
    var currentCombination: Claim
    var lastMove: string
    var finished: bool
    var firstPlayerCards: seq<Card>
    var secondPlayerCards: seq<Card>
    var unionOfCards: Hand

    ghost var moves: seq<Claim>
    ghost var losers: seq<Player>
    ghost var results: seq<RoundResult>

    ghost function Abs(): State
      reads this
    {
      State(firstPlayerCardNumber, secondPlayerCardNumber, firstMove, currentMove,
            firstPlayerWantsTie, secondPlayerWantsTie, currentCombination, lastMove, finished,
            firstPlayerCards, secondPlayerCards, moves, losers, results)
    }

    /** The hand evaluator holds the cards of both players. */
    ghost predicate CardsUnited()
      reads this, unionOfCards
    {
      unionOfCards.Valid() && unionOfCards.Cards() == Union(Abs())
    }

    ghost predicate Playing()
      reads this, unionOfCards
    {
      Ready(Abs()) && CardsUnited() && firstPlayerCards != []
    }

    lemma PlayingIsReady()
      requires Playing()
      ensures Ready(Abs())
    {
    }

    constructor (start: Player)
      ensures Abs() == NewGame(start) && CardsUnited() && fresh(unionOfCards)
    {
      firstPlayerCardNumber, secondPlayerCardNumber := START_CARD_NUMBER, START_CARD_NUMBER;
      firstMove, currentMove := start, start;
      firstPlayerWantsTie, secondPlayerWantsTie := false, false;
      currentCombination, lastMove, finished := [NOTHING], "", false;
      firstPlayerCards, secondPlayerCards := [], [];
      moves, losers, results := [], [], [];
      unionOfCards := new Hand.FromCards([]);
    }

    method ClearTable()
      modifies this
      ensures Abs() == old(Abs()).(claim := [NOTHING], lastMove := "",
                                   firstWantsTie := false, secondWantsTie := false, moves := [])
      ensures unionOfCards == old(unionOfCards)
    {
      currentCombination := [NOTHING];
      lastMove := "";
      firstPlayerWantsTie := false;
      secondPlayerWantsTie := false;
      moves := [];
    }

    method AlternateFirstMove()
      modifies this`firstMove, this`currentMove
      ensures Abs() == old(Abs()).(firstMove := Other(old(firstMove)), currentMove := Other(old(firstMove)))
    {
      firstMove := Other(firstMove);
      currentMove := firstMove;
    }

    method DealCards(g: seq<nat>)
      requires firstPlayerCardNumber + secondPlayerCardNumber <= ALL_CARDS && Numbers(g)
      modifies this`firstPlayerCards, this`secondPlayerCards, this`unionOfCards
      ensures var v := Dealt(g, firstPlayerCardNumber + secondPlayerCardNumber);
        Abs() == old(Abs()).(firstCards := v[..firstPlayerCardNumber], secondCards := v[firstPlayerCardNumber..])
      ensures CardsUnited() && fresh(unionOfCards)
    {
      var first, second, union := GenerateCards(firstPlayerCardNumber, secondPlayerCardNumber, g);
      hide Dealt;
      assert (first + second)[..|first|] == first && (first + second)[|first|..] == second;
      firstPlayerCards, secondPlayerCards, unionOfCards := first, second, union;
    }

    method StartRound(g: seq<nat>)
      requires firstPlayerCardNumber + secondPlayerCardNumber <= ALL_CARDS && Numbers(g)
      modifies this
      ensures Abs() == Rules.StartRound(old(Abs()), g)
      ensures CardsUnited() && fresh(unionOfCards)
    {
      hide Dealt, SetOf, CardsUnited, Other;
      ClearTable();
      AlternateFirstMove();
      DealCards(g);
    }

    method ReportRoundResults(res: RoundResult)
      modifies this`results
      ensures Abs() == Report(old(Abs()), res)
    {
      results := results + [res];
    }

    method Finish(res: RoundResult)
      modifies this`finished
      ensures Abs() == old(Abs()).(finished := true)
    {
      finished := true;
    }

    method AddCard(cur: Player)
      modifies this`firstPlayerCardNumber, this`secondPlayerCardNumber, this`losers
      ensures Abs() == WithLoss(old(Abs()), cur)
    {
      if cur == FirstPlayer {
        firstPlayerCardNumber := firstPlayerCardNumber + 1;
      } else {
        secondPlayerCardNumber := secondPlayerCardNumber + 1;
      }
      losers := losers + [cur];
    }

    /** The loser's card number goes up, and the numbers decide whether the game goes on. */
    method PlayerLosesRound(cur: Player, g: seq<nat>)
      requires Playing() && Numbers(g)
      modifies this
      ensures Abs() == Rules.PlayerLosesRound(old(Abs()), cur, g)
      ensures finished || Playing()
      ensures unionOfCards == old(unionOfCards) || fresh(unionOfCards)
    {
      LevelAfterLoss(Abs(), cur);
      LossIsReady(Abs(), cur, g);
      hide Level, Dealt, SetOf, WithLoss;
      AddCard(cur);
      var res;
      match GameResult(firstPlayerCardNumber, secondPlayerCardNumber) {
        case Loses(p) => res := LostGame(p);
        case Tie => res := TieInGame;
        case Continue => res := LostRound(cur);
      }
      ReportRoundResults(res);
      if FinishedGame(res) {
        Finish(res);
      } else {
        StartRound(g);
      }
    }

    method TieInRound(g: seq<nat>)
      requires Playing() && Numbers(g)
      modifies this
      ensures Abs() == TieRound(old(Abs()), g)
      ensures Playing() && fresh(unionOfCards)
    {
      hide Dealt, SetOf;
      ReportRoundResults(RoundResult.TieInRound);
      StartRound(g);
    }

    method AskForTie(sender: Player)
      requires Playing()
      modifies this
      ensures Abs() == WantsTie(old(Abs()), sender)
      ensures unionOfCards == old(unionOfCards) && CardsUnited() && (finished || Playing())
    {
      if sender == FirstPlayer {
        firstPlayerWantsTie := true;
      } else {
        secondPlayerWantsTie := true;
      }
      if firstPlayerWantsTie && secondPlayerWantsTie {
        ReportRoundResults(TieInGame);
        Finish(TieInGame);
      }
    }

    method Reveal(g: seq<nat>)
      requires Playing() && Numbers(g)
      modifies this
      ensures Abs() == RevealClaim(old(Abs()), g)
      ensures finished || Playing()
      ensures unionOfCards == old(unionOfCards) || fresh(unionOfCards)
    {
      hide Level, Rules.PlayerLosesRound;
      if currentCombination[0] == NOTHING {
        return;
      }
      var there := unionOfCards.CheckCombination(currentCombination);
      if there {
        PlayerLosesRound(currentMove, g);
      } else {
        PlayerLosesRound(Other(currentMove), g);
      }
    }

    /** `format_m_command` of `find_best_combination`: the hand always has a combination that can be printed. */
    method AnnounceBest() returns (announced: string)
      requires CardsUnited() && firstPlayerCards != []
      ensures Announces(Union(Abs()), announced) && announced != ""
    {
      var best := unionOfCards.FindBestCombination();
      ghost var h := Union(Abs());
      assert firstPlayerCards[0] in firstPlayerCards + secondPlayerCards;
      assert firstPlayerCards[0] in h;
      hide IsGreatest, Canonical, Writable, Symbols, SetOf;
      BestIsSomething(h, best);
      BestIsWritable(h, best);
      announced := FormatMCommand(best);
    }

    /** A refused block announces the best combination. */
    method Block(g: seq<nat>) returns (announced: string)
      requires Playing() && Numbers(g)
      modifies this
      ensures Abs() == BlockClaim(old(Abs()), g)
      ensures finished || Playing()
      ensures unionOfCards == old(unionOfCards) || fresh(unionOfCards)
      ensures announced == "" || Announces(Union(old(Abs())), announced)
      ensures announced == "" <==>
        old(currentCombination[0]) == NOTHING ||
        (Canonical(old(currentCombination)) && IsGreatest(Union(old(Abs())), old(currentCombination)))
    {
      hide Level, Rules.PlayerLosesRound, Rules.TieRound, IsGreatest, Canonical, Holds, Announces;
      if currentCombination[0] == NOTHING {
        return "";
      }
      var isBest := unionOfCards.IsBestCombination(currentCombination);
      if isBest {
        TieInRound(g);
        return "";
      }
      announced := AnnounceBest();
      PlayerLosesRound(currentMove, g);
    }

    method AcceptClaim(cws: string, combination: Claim)
      requires |cws| >= 2
      modifies this
      ensures Abs() == Advance(old(Abs()), combination, cws)
      ensures unionOfCards == old(unionOfCards)
    {
      lastMove := cws[..2] + " " + cws[2..];
      firstPlayerWantsTie := false;
      secondPlayerWantsTie := false;
      currentCombination := combination;
      currentMove := Other(currentMove);
      moves := moves + [combination];
    }

    method EnterClaim(cws: string)
      requires Playing() && |cws| >= 2
      modifies this
      ensures Abs() == MakeClaim(old(Abs()), cws)
      ensures Playing() && unionOfCards == old(unionOfCards)
    {
      ClaimIsReady(Abs(), cws);
      hide Level, Parse, Playable, Less;
      var transcript := ParseMCommand(cws[2..]);
      if transcript.Parsed? {
        var combination := transcript.claim;
        ParsedIsPlayable(cws[2..], combination);
        if Less(currentCombination, combination) {
          AcceptClaim(cws, combination);
        }
      }
    }

    /** A line typed by a player; the answer is the announced best combination, if one is due. */
    method MakeMove(sender: Player, command: string, g: seq<nat>) returns (announced: string)
      requires Playing() && Numbers(g)
      modifies this
      ensures Abs() == Rules.MakeMove(old(Abs()), sender, command, g)
      ensures finished || Playing()
      ensures unionOfCards == old(unionOfCards) || fresh(unionOfCards)
      ensures announced == "" || Announces(Union(old(Abs())), announced)
    {
      hide Level, RevealClaim, BlockClaim, MakeClaim, WantsTie, IsGreatest, Canonical, Holds, Announces;
      hide NoSpaces, Lower;
      announced := "";
      var cws := RemoveSpaceCharacters(command);
      var lcws := Lower(cws);
      if lcws == "/concede" {
        ReportRoundResults(LostGame(sender));
        Finish(LostGame(sender));
        return;
      }
      if lcws == "/tie" || lcws == "/draw" {
        AskForTie(sender);
        return;
      }
      if lcws == "/tr" || lcws == "/cards" || lcws == "/lastmove" || lcws == "/lm" {
        return;
      }
      if sender == currentMove {
        if lcws == "/r" {
          Reveal(g);
        } else if lcws == "/b" {
          announced := Block(g);
        } else if |lcws| >= 2 && lcws[..2] == "/m" {
          EnterClaim(cws);
        }
      }
    }

    /** One pass of the game thread. */
    method Process(command: Option<Command>, timeIsUp: bool, g: seq<nat>, h: seq<nat>) returns (terminate: bool)
      requires Playing() && Numbers(g) && Numbers(h)
      modifies this
      ensures Abs() == Rules.Process(old(Abs()), Input(command, timeIsUp, g, h))
      ensures terminate == AfterCommand(old(Abs()), Input(command, timeIsUp, g, h)).finished
      ensures finished || Playing()
      ensures unionOfCards == old(unionOfCards) || fresh(unionOfCards)
    {
      hide Level, Rules.MakeMove, Rules.PlayerLosesRound;
      terminate := false;
      if command.Some? {
        match command.value {
          case Move(sender, text) =>
            var _ := MakeMove(sender, text, g);
          case Reconnect(_) =>
          case Disconnect(sender) =>
            ReportRoundResults(LostGame(sender));
            Finish(LostGame(sender));
            terminate := true;
        }
      }
      if finished {
        terminate := true;
      } else if timeIsUp {
        if firstPlayerCardNumber == START_CARD_NUMBER && secondPlayerCardNumber == START_CARD_NUMBER {
          ReportRoundResults(TieInGame);
          Finish(TieInGame);
        } else {
          PlayerLosesRound(currentMove, h);
        }
      }
    }
  }

  /** A new game with its first round started. */
  method BeginGame(start: Player, g: seq<nat>) returns (game: Game)
    requires Numbers(g)
    ensures fresh(game) && fresh(game.unionOfCards) && game.Playing()
    ensures game.Abs() == Rules.StartRound(NewGame(start), g)
  {
    game := new Game(start);
    game.StartRound(g);
    FirstPassIsReady(start, g);
  }

  /** The game thread: a new game, and passes until one of them ends it. */
  method PlayGame(start: Player, g: seq<nat>, inputs: seq<Input>) returns (game: Game, ghost states: seq<State>)
    requires Numbers(g) && forall i :: 0 <= i < |inputs| ==> Numbers(inputs[i].g) && Numbers(inputs[i].h)
    ensures 0 < |states| <= |inputs| + 1 && IsGame(states, inputs[..|states| - 1], Other(start), g)
    ensures game.Abs() == states[|states| - 1]
    ensures game.finished || |states| == |inputs| + 1
  {
    hide *;
    game := BeginGame(start, g);
    states := [game.Abs()];
    FirstPassIsReady(start, g);
    for k := 0 to |inputs|
      invariant fresh(game) && fresh(game.unionOfCards) && |states| == k + 1
      invariant game.Abs() == states[k] && (game.finished || game.Playing())
      invariant IsGame(states, inputs[..k], Other(start), g)
    {
      if game.finished {
        return;
      }
      var i := inputs[k];
      game.PlayingIsReady();
      LongerGame(states, inputs[..k], i, Other(start), g);
      states := states + [Rules.Process(states[k], i)];
      assert inputs[..k + 1] == inputs[..k] + [i];
      var _ := game.Process(i.command, i.timeIsUp, i.g, i.h);
    }
    assert inputs[..|inputs|] == inputs;
  }

  lemma FirstPassIsReady(start: Player, g: seq<nat>)
    requires Numbers(g)
    ensures var s := Rules.StartRound(NewGame(start), g);
      Ready(s) && s.firstCards != [] && IsGame([s], [], Other(start), g)
  {
    assert Other(Other(start)) == start;
  }
}
