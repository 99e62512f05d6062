/** Which orders of losses really happen: exactly the legal ones, among them the longest and the failing game. */
module LongGames {
  import opened Wrappers
  import opened Cards
  import opened Claims
  import opened Text
  import opened ClaimText
  import opened Shuffle
  import opened Rules
  import opened GameRuns

  // ----- the commands used here ----------------------------------------------------------------------

  /** A printed claim, entered as a command, is the order to make that claim. */
  lemma PrintedClaimIsOrder(c: Claim)
    requires Writable(c)
    ensures var cws := NoSpaces("/m " + Symbols(c));
      |cws| >= 2 && OrderOf("/m " + Symbols(c)) == Claiming(cws) && Parse(cws[2..]) == Parsed(SortPairs(c))
  {
    var cws := NoSpaces("/m " + Symbols(c));
    SymbolsSurviveStripping(c);
    PrintThenParse(c);
    var lcws := Lower(cws);
    assert cws[..2] == "/m";
    assert cws[0] == '/' && cws[1] == 'm';
    assert lcws[0] == '/' && lcws[1] == 'm';
    assert lcws[..2] == "/m";
    hide NoSpaces, Symbols, Parse, Lower;
  }

  lemma RevealIsOrder()
    ensures OrderOf("/r") == Reveal
  {
    NoSpacesKeepsPlain("/r");
    assert Lower("/r") == "/r";
  }

  /** A deck's worth of zeros, for passes whose random numbers do not matter. */
  function Zeros(): (g: seq<nat>)
    ensures Numbers(g)
  {
    seq(ALL_CARDS, _ => 0)
  }

  function Says(p: Player, text: string): Input { Input(Some(Move(p, text)), false, Zeros(), Zeros()) }

  function TimePasses(): Input { Input(None, true, Zeros(), Zeros()) }

  // ----- longer games --------------------------------------------------------------------------------

  /** A game that has just come to its state after the losses `losers`: it has ended, or begins a round. */
  ghost predicate JustLost(s: State, losers: seq<Player>) {
    s.losers == losers && (s.finished <==> !LevelAfter(losers)) && (!s.finished ==> s.moves == [])
  }

  lemma LossLevels(s: State, p: Player)
    requires Tally(s) && Level(s.first, s.second)
    ensures FinishedGame(ResultOf(WithLoss(s, p), p)) <==> !LevelAfter(s.losers + [p])
  {
    LevelAfterLoss(s, p);
    OneMoreLoss(s, p);
    assert WithLoss(s, p).losers == s.losers + [p];
    hide Level, Times, LegalOrder, GameResult;
  }

  lemma LossIsRecorded(s: State, p: Player, g: seq<nat>, start: Player)
    requires Inv(s, start) && Numbers(g)
    ensures JustLost(PlayerLosesRound(s, p, g), s.losers + [p])
  {
    LevelAfterLoss(s, p);
    LossLevels(s, p);
    LossLeaves(s, p);
    assert WithLoss(s, p).losers == s.losers + [p] && !s.finished;
    hide Inv, Level, LevelAfter, Dealt, ResultOf, WithLoss;
  }

  /** Some game leads to the state `s`. */
  ghost predicate Reached(s: State, start: Player, g: seq<nat>) {
    exists states, inputs :: IsGame(states, inputs, start, g) && states[|states| - 1] == s
  }

  lemma ReachFirst(start: Player, g: seq<nat>)
    requires Numbers(g)
    ensures Reached(StartRound(NewGame(Other(start)), g), start, g)
  {
    assert IsGame([StartRound(NewGame(Other(start)), g)], [], start, g);
  }

  lemma ReachNext(s: State, i: Input, start: Player, g: seq<nat>)
    requires Reached(s, start, g) && Ready(s) && Numbers(i.g) && Numbers(i.h)
    ensures Reached(Process(s, i), start, g)
  {
    var states, inputs :| IsGame(states, inputs, start, g) && states[|states| - 1] == s;
    LongerGame(states, inputs, i, start, g);
    hide IsGame, Process, Ready;
    var longer := states + [Process(s, i)];
    assert longer[|longer| - 1] == Process(s, i);
  }

  lemma TypedClaim(s: State, text: string)
    requires Ready(s) && OrderOf(text).Claiming? && |OrderOf(text).text| >= 2
    ensures AfterCommand(s, Says(s.currentMove, text)) == MakeClaim(s, OrderOf(text).text)
  {
    hide Ready, OrderOf, MakeClaim;
  }

  lemma AcceptedClaim(s: State, cws: string, c: Claim)
    requires Ready(s) && |cws| >= 2 && Parse(cws[2..]) == Parsed(c) && Sized(c) && Less(s.claim, c)
    ensures MakeClaim(s, cws) == Advance(s, c, cws)
  {
    hide Ready, Parse, Less, Sized;
  }

  /** A claim printed and entered by the player on move is accepted if it beats the current one. */
  lemma PrintedClaimIsMade(s: State, c: Claim)
    requires Ready(s) && Writable(c) && SortPairs(c) == c && Less(s.claim, c)
    ensures var text := "/m " + Symbols(c);
      |NoSpaces(text)| >= 2 && AfterCommand(s, Says(s.currentMove, text)) == Advance(s, c, NoSpaces(text))
  {
    var text := "/m " + Symbols(c);
    assert Sized(c);
    PrintedClaimIsOrder(c);
    hide Ready, NoSpaces, Symbols, Writable, Playable, Parse, OrderOf, SortPairs, Less, Sized;
    hide AfterCommand, MakeClaim, Advance;
    TypedClaim(s, text);
    AcceptedClaim(s, NoSpaces(text), c);
  }

  /** The player on move makes a first claim. */
  lemma FirstClaim(s: State, c: Claim, start: Player) returns (i: Input)
    requires Inv(s, start) && s.moves == [] && Writable(c) && SortPairs(c) == c
    ensures Ready(s) && Numbers(i.g) && Numbers(i.h)
    ensures var t := Process(s, i);
      Inv(t, start) && t.claim == c && t.currentMove == Other(s.currentMove) && t.losers == s.losers &&
      t.first == s.first && t.second == s.second && Union(t) == Union(s)
  {
    var text := "/m " + Symbols(c);
    i := Says(s.currentMove, text);
    InvIsReady(s, start);
    assert s.claim == [NOTHING] && !s.finished;
    NothingIsLess(c);
    hide Inv, Ready, Process, AfterCommand, NoSpaces, Symbols, Writable, Playable, Less, Ended;
    PrintedClaimIsMade(s, c);
    ProcessMeans(s, i);
    ProcessIsGood(s, i, start);
  }

  lemma NothingIsLess(c: Claim)
    requires Writable(c)
    ensures Less([NOTHING], c)
  {
    LessMeans([NOTHING], c);
  }

  /** The time of the player on move runs out in a later round. */
  lemma LateTimeOut(s: State, start: Player)
    requires Inv(s, start) && s.first + s.second > 2 * START_CARD_NUMBER
    ensures Ready(s) && Process(s, TimePasses()) == PlayerLosesRound(s, s.currentMove, Zeros())
  {
    InvIsReady(s, start);
    ProcessMeans(s, TimePasses());
    hide Inv, Process, PlayerLosesRound, Ready;
    assert AfterCommand(s, TimePasses()) == s;
  }

  function HighCard(r: int): Claim { [HIGH_CARD, r] }

  lemma HighCardIsWritable(r: int)
    requires IsRank(r)
    ensures Writable(HighCard(r)) && SortPairs(HighCard(r)) == HighCard(r)
  {
  }

  lemma OnlyTwoPlayers(p: Player, q: Player)
    requires p != q
    ensures Other(q) == p
  {
  }

  lemma ZerosAreNumbers()
    ensures Numbers(Zeros()) && Numbers(TimePasses().g) && Numbers(TimePasses().h)
  {
  }

  /** In a later round either player can lose: the time runs out at once, or after a first claim. */
  lemma EitherCanLose(s: State, p: Player, start: Player, g: seq<nat>) returns (t: State)
    requires Reached(s, start, g) && Inv(s, start) && s.moves == [] && s.first + s.second > 2 * START_CARD_NUMBER
    ensures Reached(t, start, g) && JustLost(t, s.losers + [p]) && Good(t, start)
  {
    HighCardIsWritable(0);
    hide *;
    ZerosAreNumbers();
    var u := s;
    if p != s.currentMove {
      var i := FirstClaim(s, HighCard(0), start);
      ReachNext(s, i, start, g);
      u := Process(s, i);
      OnlyTwoPlayers(p, s.currentMove);
    }
    LateTimeOut(u, start);
    ReachNext(u, TimePasses(), start, g);
    LossIsRecorded(u, p, Zeros(), start);
    LossIsGood(u, p, Zeros(), start);
    t := Process(u, TimePasses());
  }

  // ----- the first round -----------------------------------------------------------------------------

  /** There is a two, and there is no ace. */
  ghost predicate LowCards(h: set<Card>) { Holds(h, HighCard(0)) && !Holds(h, HighCard(ACE)) }

  /** The first round of some game is dealt any ten different cards. */
  lemma FirstDeal(v: seq<Card>, start: Player) returns (g: seq<nat>)
    requires NoDuplicates(v) && |v| == 2 * START_CARD_NUMBER
    ensures Numbers(g) && Union(StartRound(NewGame(Other(start)), g)) == SetOf(v)
  {
    g := EveryDealIsPossible(v);
    hide Dealt, SetOf, NoDuplicates;
    var w := Dealt(g, 10);
    assert w[..5] + w[5..] == w;
  }

  lemma FivePairsAreLow()
    ensures LowCards(SetOf(FIVE_PAIRS))
  {
    FivePairsCount(0);
    FivePairsCount(ACE);
    hide SetOf, Count;
  }

  /** In the first round: a first claim, true or false, and then the other player reveals. */
  lemma EitherCanLoseFirst(s: State, p: Player, start: Player, g: seq<nat>) returns (t: State)
    requires Reached(s, start, g) && Inv(s, start) && s.moves == [] && LowCards(Union(s))
    ensures Reached(t, start, g) && JustLost(t, s.losers + [p]) && Good(t, start)
  {
    var r := if p == s.currentMove then ACE else 0;
    HighCardIsWritable(r);
    var i := FirstClaim(s, HighCard(r), start);
    ReachNext(s, i, start, g);
    var u := Process(s, i);
    RevealIsLoss(u, p, start);
    var j := Says(u.currentMove, "/r");
    hide *;
    ReachNext(u, j, start, g);
    LossIsRecorded(u, p, Zeros(), start);
    LossIsGood(u, p, Zeros(), start);
    t := Process(u, j);
  }

  lemma RevealIsLoss(s: State, p: Player, start: Player)
    requires Inv(s, start) && LowCards(Union(s)) && s.claim == HighCard(if p == s.currentMove then 0 else ACE)
    ensures var i := Says(s.currentMove, "/r");
      Numbers(i.g) && Numbers(i.h) && Ready(s) && Process(s, i) == PlayerLosesRound(s, p, Zeros())
  {
    var i := Says(s.currentMove, "/r");
    InvIsReady(s, start);
    RevealIsOrder();
    ProcessMeans(s, i);
    assert s.claim[0] != NOTHING;
    hide Inv, Ready, Process, PlayerLosesRound, Holds, OrderOf, Zeros;
    assert AfterCommand(s, i) == RevealClaim(s, Zeros());
  }

  // ----- every legal order ---------------------------------------------------------------------------

  lemma StartIsReached(start: Player) returns (s: State, g: seq<nat>)
    ensures Reached(s, start, g) && Inv(s, start) && LowCards(Union(s)) && JustLost(s, [])
  {
    FivePairsAreLow();
    BestTwoPairsCannotBeBlocked();
    g := FirstDeal(FIVE_PAIRS, start);
    s := StartRound(NewGame(Other(start)), g);
    ReachFirst(start, g);
    FirstStateIsGood(start, g);
    hide Dealt, Inv, LowCards, Reached;
  }

  /** Every legal order of losses happens in some game. */
  lemma {:induction false} EveryLegalOrderHappens(losers: seq<Player>, start: Player) returns (s: State, g: seq<nat>)
    requires LegalOrder(losers)
    ensures Reached(s, start, g) && JustLost(s, losers) && Good(s, start)
    ensures losers == [] ==> LowCards(Union(s))
  {
    if losers == [] {
      hide Level, Inv, LowCards, Reached;
      s, g := StartIsReached(start);
    } else {
      var init, p := losers[..|losers| - 1], losers[|losers| - 1];
      assert init + [p] == losers;
      hide Level, LowCards, Reached, Times;
      var u;
      u, g := EveryLegalOrderHappens(init, start);
      EveryLossCounts(init);
      if init == [] {
        s := EitherCanLoseFirst(u, p, start, g);
      } else {
        s := EitherCanLose(u, p, start, g);
      }
    }
  }

  /** The orders in which rounds are lost in games are exactly the legal ones. */
  lemma OrdersOfLosses(losers: seq<Player>, start: Player)
    ensures LegalOrder(losers) <==> exists s, g :: Reached(s, start, g) && s.losers == losers
  {
    if LegalOrder(losers) {
      var s, g := EveryLegalOrderHappens(losers, start);
      assert Reached(s, start, g) && s.losers == losers;
    }
    forall s, g | Reached(s, start, g)
      ensures LegalOrder(s.losers)
    {
      ReachedIsGood(s, start, g);
    }
  }

  lemma ReachedIsGood(s: State, start: Player, g: seq<nat>)
    requires Reached(s, start, g)
    ensures Good(s, start) && Tally(s)
  {
    var states, inputs :| IsGame(states, inputs, start, g) && states[|states| - 1] == s;
    GameKeepsInv(states, inputs, start, g, |states| - 1);
  }

  // ----- extreme games -------------------------------------------------------------------------------

  /** The players lose in turn. */
  function InTurn(n: nat): seq<Player> {
    if n == 0 then [] else InTurn(n - 1) + [if n % 2 == 1 then FirstPlayer else SecondPlayer]
  }

  lemma {:induction false} LosingInTurnIsLegal(n: nat)
    requires n <= MOST_LOSSES
    ensures |InTurn(n)| == n && LegalOrder(InTurn(n))
    ensures Times(InTurn(n), FirstPlayer) == (n + 1) / 2 && Times(InTurn(n), SecondPlayer) == n / 2
    ensures LevelAfter(InTurn(n)) <==> n < MOST_LOSSES
  {
    if n > 0 {
      LosingInTurnIsLegal(n - 1);
      assert InTurn(n)[..n - 1] == InTurn(n - 1);
    }
  }

  /** A game can have 42 lost rounds; it then ends in a tie at 26 cards each. */
  lemma LongestGame(start: Player) returns (s: State, g: seq<nat>)
    ensures Reached(s, start, g) && |s.losers| == MOST_LOSSES
    ensures s.finished && s.first == s.second == TIE_CARD_NUMBER
  {
    LosingInTurnIsLegal(MOST_LOSSES);
    s, g := EveryLegalOrderHappens(InTurn(MOST_LOSSES), start);
    ReachedIsGood(s, start, g);
    hide Reached, Inv, LegalOrder, Times;
  }

  /** The assertions of `game_result` can fail: a player with 26 cards against 25 can lose once more. */
  lemma AssertionCanFail(start: Player) returns (s: State, g: seq<nat>)
    ensures Reached(s, start, g) && !Asserted(s.first, s.second)
    ensures s.first == TIE_CARD_NUMBER + 1 && s.second == TIE_CARD_NUMBER - 1
  {
    var losers := InTurn(MOST_LOSSES - 1) + [FirstPlayer];
    LosingInTurnIsLegal(MOST_LOSSES - 1);
    assert losers[..|losers| - 1] == InTurn(MOST_LOSSES - 1);
    s, g := EveryLegalOrderHappens(losers, start);
    ReachedIsGood(s, start, g);
    hide Reached, Inv, LegalOrder;
  }

  // ----- claims that cannot be blocked ----------------------------------------------------------------

  lemma BlockIsOrder()
    ensures OrderOf("/b") == Block
  {
    NoSpacesKeepsPlain("/b");
    assert Lower("/b") == "/b";
  }

  /** A block of two pairs, as the parser sorts them, or of a full house of equal ranks loses the round. */
  lemma BlockIsLoss(s: State, start: Player)
    requires Inv(s, start) && s.claim[0] != NOTHING && !Canonical(s.claim)
    ensures var i := Says(s.currentMove, "/b");
      Numbers(i.g) && Numbers(i.h) && Ready(s) && Process(s, i) == PlayerLosesRound(s, s.currentMove, Zeros())
  {
    var i := Says(s.currentMove, "/b");
    InvIsReady(s, start);
    BlockIsOrder();
    ProcessMeans(s, i);
    hide Inv, Ready, Process, PlayerLosesRound, TieRound, Canonical, IsGreatest, Playable, OrderOf, Zeros;
    assert AfterCommand(s, i) == BlockClaim(s, Zeros());
  }

  /** A game whose first round is dealt the cards `v`, opened with the claim `c` and blocked at once. */
  lemma OpenedAndBlocked(v: seq<Card>, c: Claim, start: Player) returns (s: State, t: State, g: seq<nat>)
    requires NoDuplicates(v) && |v| == 2 * START_CARD_NUMBER && Playable(c) && !Canonical(c)
    ensures Reached(s, start, g) && Inv(s, start) && s.claim == c && Union(s) == SetOf(v)
    ensures Ready(s) && Numbers(Zeros()) && t == Process(s, Says(s.currentMove, "/b"))
    ensures Reached(t, start, g) && t.losers == [s.currentMove]
  {
    assert Writable(c) && SortPairs(c) == c && c[0] != NOTHING;
    g := FirstDeal(v, start);
    var s0 := StartRound(NewGame(Other(start)), g);
    ReachFirst(start, g);
    FirstStateIsGood(start, g);
    assert s0.losers == [] && s0.moves == [] && !s0.finished;
    hide Dealt, Inv, Reached, Union, SetOf, NoDuplicates, Canonical, Playable, Writable, Process, StartRound;
    var i := FirstClaim(s0, c, start);
    ReachNext(s0, i, start, g);
    s := Process(s0, i);
    BlockIsLoss(s, start);
    var j := Says(s.currentMove, "/b");
    ReachNext(s, j, start, g);
    t := Process(s, j);
    LossEnds(s, s.currentMove, Zeros(), start);
  }

  /**
   * A game in which the claim on the table is, up to the order of its pairs, the best that the
   * union of the hands offers, and yet the player who blocks it loses the round.
   */
  lemma BestPairsLoseTheBlock(start: Player) returns (s: State, t: State, g: seq<nat>)
    ensures Reached(s, start, g) && Inv(s, start) && s.claim == [TWO_PAIRS, 6, 8]
    ensures Holds(Union(s), s.claim) && IsGreatest(Union(s), HighPairFirst(s.claim))
    ensures Ready(s) && Numbers(Zeros()) && t == Process(s, Says(s.currentMove, "/b"))
    ensures Reached(t, start, g) && t.losers == [s.currentMove]
  {
    BestTwoPairsCannotBeBlocked();
    assert Playable([TWO_PAIRS, 6, 8]) && !Canonical([TWO_PAIRS, 6, 8]);
    hide *;
    s, t, g := OpenedAndBlocked(FIVE_PAIRS, [TWO_PAIRS, 6, 8], start);
  }

  /** And one in which it is a full house of equal ranks, true of the union and not beaten by any combination. */
  lemma EqualFullHouseLosesTheBlock(start: Player) returns (s: State, t: State, g: seq<nat>)
    ensures Reached(s, start, g) && Inv(s, start) && s.claim == [FULL_HOUSE, ACE, ACE] && IsGreatest(Union(s), s.claim)
    ensures Ready(s) && Numbers(Zeros()) && t == Process(s, Says(s.currentMove, "/b"))
    ensures Reached(t, start, g) && t.losers == [s.currentMove]
  {
    EqualFullHouseCannotBeBlocked();
    assert Playable([FULL_HOUSE, ACE, ACE]) && !Canonical([FULL_HOUSE, ACE, ACE]);
    hide *;
    s, t, g := OpenedAndBlocked(THREE_ACES, [FULL_HOUSE, ACE, ACE], start);
  }
}
