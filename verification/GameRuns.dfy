/** What holds in every game: an invariant over all runs, why games end, and how long they can last. */
module GameRuns {
  import opened Wrappers
  import opened Cards
  import opened Claims
  import opened ClaimText
  import opened Ladder
  import opened Shuffle
  import opened Rules

  const MOST_LOSSES: nat := 42

  /** How often `p` occurs among the losers. */
  function Times(losers: seq<Player>, p: Player): nat {
    if losers == [] then 0
    else Times(losers[..|losers| - 1], p) + if losers[|losers| - 1] == p then 1 else 0
  }

  predicate LevelAfter(losers: seq<Player>) {
    Level(START_CARD_NUMBER + Times(losers, FirstPlayer), START_CARD_NUMBER + Times(losers, SecondPlayer))
  }

  /** An order in which rounds can be lost: before each loss the card numbers are level. */
  predicate LegalOrder(losers: seq<Player>) {
    losers == [] || (LegalOrder(losers[..|losers| - 1]) && LevelAfter(losers[..|losers| - 1]))
  }

  /** The card numbers are the five first cards and one more for each lost round. */
  ghost predicate Tally(s: State) {
    s.first == START_CARD_NUMBER + Times(s.losers, FirstPlayer) &&
    s.second == START_CARD_NUMBER + Times(s.losers, SecondPlayer) && LegalOrder(s.losers)
  }

  /** Both hands have the right number of cards, and no card is dealt twice. */
  ghost predicate HandsFit(s: State) {
    |s.firstCards| == s.first && |s.secondCards| == s.second && NoDuplicates(s.firstCards + s.secondCards)
  }

  /** The players take turns: `start` begins the first round, then the other one, and so on. */
  predicate Turns(s: State, start: Player) {
    s.firstMove == (if |s.results| % 2 == 0 then start else Other(start)) &&
    s.currentMove == (if |s.moves| % 2 == 0 then s.firstMove else Other(s.firstMove))
  }

  /** The claims of the round rise, and the last one is the current one. */
  ghost predicate Climbs(s: State) {
    Rising(s.moves) && s.claim == (if s.moves == [] then [NOTHING] else s.moves[|s.moves| - 1]) &&
    (s.lastMove == "" <==> s.moves == [])
  }

  predicate NoneFinished(results: seq<RoundResult>) {
    forall i :: 0 <= i < |results| ==> !FinishedGame(results[i])
  }

  /** What holds while the game goes on. */
  ghost predicate Inv(s: State, start: Player) {
    !s.finished && Level(s.first, s.second) && HandsFit(s) && Climbs(s) && Turns(s, start) && Tally(s) &&
    NoneFinished(s.results) && !(s.firstWantsTie && s.secondWantsTie)
  }

  /** What holds once the game has ended: exactly the last result is a final one. */
  ghost predicate Ended(s: State) {
    s.finished && Tally(s) && |s.losers| <= MOST_LOSSES && Rising(s.moves) &&
    s.results != [] && FinishedGame(s.results[|s.results| - 1]) && NoneFinished(s.results[..|s.results| - 1])
  }

  ghost predicate Good(s: State, start: Player) {
    if s.finished then Ended(s) else Inv(s, start)
  }

  // ----- one operation at a time ---------------------------------------------------------------------

  lemma InvIsReady(s: State, start: Player)
    requires Inv(s, start)
    ensures Ready(s)
  {
  }

  lemma {:induction false} EveryLossCounts(losers: seq<Player>)
    ensures Times(losers, FirstPlayer) + Times(losers, SecondPlayer) == |losers|
  {
    if losers != [] {
      EveryLossCounts(losers[..|losers| - 1]);
    }
  }

  lemma OneMoreLoss(s: State, p: Player)
    requires Tally(s) && Level(s.first, s.second)
    ensures Tally(WithLoss(s, p))
  {
    hide Level;
    assert (s.losers + [p])[..|s.losers|] == s.losers;
  }

  /** A new round can begin: numbers level, and one result more than rounds were begun. */
  ghost predicate Between(s: State, start: Player) {
    !s.finished && Level(s.first, s.second) && Tally(s) && NoneFinished(s.results) &&
    s.firstMove == if |s.results| % 2 == 0 then Other(start) else start
  }

  lemma DealtHandsFit(s: State, g: seq<nat>)
    requires s.first + s.second <= ALL_CARDS && Numbers(g)
    ensures HandsFit(StartRound(s, g))
  {
    var v := Dealt(g, s.first + s.second);
    assert v[..s.first] + v[s.first..] == v;
    hide Dealt;
  }

  lemma StartKeepsInv(s: State, g: seq<nat>, start: Player)
    requires Between(s, start) && Numbers(g)
    ensures s.first + s.second <= ALL_CARDS && Inv(StartRound(s, g), start)
  {
    DealtHandsFit(s, g);
    hide HandsFit, NoneFinished, Times, Dealt;
  }

  lemma ReportKeepsNoneFinished(results: seq<RoundResult>, r: RoundResult)
    requires NoneFinished(results)
    ensures !FinishedGame(r) ==> NoneFinished(results + [r])
    ensures NoneFinished((results + [r])[..|results + [r]| - 1])
  {
    assert (results + [r])[..|results|] == results;
  }

  lemma FinishEnds(s: State, r: RoundResult)
    requires !s.finished && Tally(s) && NoneFinished(s.results) && FinishedGame(r) && Rising(s.moves)
    requires s.first + s.second <= 2 * TIE_CARD_NUMBER
    ensures Ended(Finish(s, r))
  {
    ReportKeepsNoneFinished(s.results, r);
    EveryLossCounts(s.losers);
    hide NoneFinished, Times, Rising;
  }

  /** What a loss leaves alone. */
  lemma LossLeaves(s: State, p: Player)
    ensures var t := WithLoss(s, p);
      t.finished == s.finished && t.results == s.results && t.moves == s.moves && t.firstMove == s.firstMove
    ensures var t := WithLoss(s, p);
      t.first + t.second == s.first + s.second + 1
  {
  }

  lemma LossIsGood(s: State, p: Player, g: seq<nat>, start: Player)
    requires Inv(s, start) && Numbers(g)
    ensures Good(PlayerLosesRound(s, p, g), start)
  {
    assert s.first + s.second < 2 * TIE_CARD_NUMBER;
    LevelAfterLoss(s, p);
    OneMoreLoss(s, p);
    LossLeaves(s, p);
    var t := WithLoss(s, p);
    var r := ResultOf(t, p);
    ReportKeepsNoneFinished(s.results, r);
    assert !FinishedGame(r) ==> Between(Report(t, r), start) by {
      hide Level, HandsFit, NoneFinished, Rising, GameResult, WithLoss, ResultOf, Times, LegalOrder;
    }
    assert Rising(t.moves) && NoneFinished(t.results) && !t.finished;
    hide Inv, Ended, Between, WithLoss, ResultOf, Tally, NoneFinished, Rising, Level;
    if FinishedGame(r) {
      FinishEnds(t, r);
    } else {
      StartKeepsInv(Report(t, r), g, start);
    }
  }

  lemma TieRoundIsGood(s: State, g: seq<nat>, start: Player)
    requires Inv(s, start) && Numbers(g)
    ensures Good(TieRound(s, g), start)
  {
    ReportKeepsNoneFinished(s.results, TieInRound);
    var t := Report(s, TieInRound);
    assert Between(t, start);
    hide Inv, Between;
    StartKeepsInv(t, g, start);
  }

  lemma AgreementIsGood(s: State, p: Player, start: Player)
    requires Inv(s, start)
    ensures Good(WantsTie(s, p), start)
  {
    var t := if p.FirstPlayer? then s.(firstWantsTie := true) else s.(secondWantsTie := true);
    if t.firstWantsTie && t.secondWantsTie {
      FinishEnds(t, TieInGame);
    }
  }

  lemma RisingOneMore(moves: seq<Claim>, claim: Claim, c: Claim)
    requires Rising(moves) && claim == (if moves == [] then [NOTHING] else moves[|moves| - 1])
    requires Playable(c) && Less(claim, c)
    ensures Rising(moves + [c])
  {
    var n := moves + [c];
    forall i | 0 < i < |n|
      ensures Less(n[i - 1], n[i])
    {
      if i < |moves| {
        assert Less(moves[i - 1], moves[i]);
      }
    }
  }

  lemma AdvanceKeepsInv(s: State, c: Claim, cws: string, start: Player)
    requires Inv(s, start) && |cws| >= 2 && Playable(c) && Sized(s.claim) && Less(s.claim, c)
    ensures Inv(Advance(s, c, cws), start)
  {
    RisingOneMore(s.moves, s.claim, c);
    hide Less, Level, Playable, Rising, HandsFit, Tally, NoneFinished, Sized;
  }

  lemma ClaimIsGood(s: State, cws: string, start: Player)
    requires Inv(s, start) && |cws| >= 2
    ensures Ready(s) && Good(MakeClaim(s, cws), start)
  {
    InvIsReady(s, start);
    assert !s.finished && Sized(s.claim);
    match Parse(cws[2..])
    case Parsed(c) =>
      ParsedIsPlayable(cws[2..], c);
      if Less(s.claim, c) {
        AdvanceKeepsInv(s, c, cws, start);
      }
      hide Parse, Less, Playable, Inv, Sized, Ready, Ended;
    case _ =>
  }

  lemma RevealIsGood(s: State, g: seq<nat>, start: Player)
    requires Inv(s, start) && Numbers(g)
    ensures Good(RevealClaim(s, g), start)
  {
    InvIsReady(s, start);
    LossIsGood(s, s.currentMove, g, start);
    LossIsGood(s, Other(s.currentMove), g, start);
    hide PlayerLosesRound, Inv, Ended, Holds, Playable, Level;
    assert !s.finished;
  }

  lemma BlockIsGood(s: State, g: seq<nat>, start: Player)
    requires Inv(s, start) && Numbers(g)
    ensures Good(BlockClaim(s, g), start)
  {
    InvIsReady(s, start);
    LossIsGood(s, s.currentMove, g, start);
    TieRoundIsGood(s, g, start);
    hide PlayerLosesRound, TieRound, Inv, Ended, IsGreatest, Canonical, Playable, Level;
    assert !s.finished;
  }

  lemma MoveIsGood(s: State, sender: Player, command: string, g: seq<nat>, start: Player)
    requires Inv(s, start) && Numbers(g)
    ensures Ready(s) && Good(MakeMove(s, sender, command, g), start)
  {
    InvIsReady(s, start);
    match OrderOf(command)
    case Concede => FinishEnds(s, LostGame(sender));
    case WantTie => AgreementIsGood(s, sender, start);
    case Reveal => RevealIsGood(s, g, start);
    case Block => BlockIsGood(s, g, start);
    case Claiming(cws) =>
      ClaimTextIsLong(command);
      ClaimIsGood(s, cws, start);
    case _ =>
  }

  lemma CommandIsGood(s: State, i: Input, start: Player)
    requires Inv(s, start) && Numbers(i.g)
    ensures Ready(s) && Good(AfterCommand(s, i), start)
  {
    InvIsReady(s, start);
    match i.command
    case Some(Move(sender, text)) => MoveIsGood(s, sender, text, i.g, start);
    case Some(Disconnect(sender)) => FinishEnds(s, LostGame(sender));
    case _ =>
  }

  lemma TimeOutIsGood(s: State, g: seq<nat>, start: Player)
    requires Inv(s, start) && Numbers(g)
    ensures Ready(s) && Good(TimeOut(s, g), start)
  {
    InvIsReady(s, start);
    LossIsGood(s, s.currentMove, g, start);
    FinishEnds(s, TieInGame);
  }

  /** One pass of the game thread keeps the invariant or ends the game properly. */
  lemma ProcessIsGood(s: State, i: Input, start: Player)
    requires Inv(s, start) && Numbers(i.g) && Numbers(i.h)
    ensures Ready(s) && Good(Process(s, i), start)
  {
    CommandIsGood(s, i, start);
    var t := AfterCommand(s, i);
    if !t.finished && i.timeIsUp {
      TimeOutIsGood(t, i.h, start);
    }
  }

  // ----- whole games ---------------------------------------------------------------------------------

  /** The passes of the game thread up to the first one that ends the game. */
  ghost predicate IsGame(states: seq<State>, inputs: seq<Input>, start: Player, g: seq<nat>) {
    |states| == |inputs| + 1 && Numbers(g) && states[0] == StartRound(NewGame(Other(start)), g) &&
    forall i :: 0 <= i < |inputs| ==> IsPass(states[i], inputs[i], states[i + 1])
  }

  ghost predicate IsPass(s: State, i: Input, t: State) {
    Ready(s) && Numbers(i.g) && Numbers(i.h) && t == Process(s, i)
  }

  lemma PassIsGood(s: State, i: Input, t: State, start: Player)
    requires Good(s, start) && IsPass(s, i, t)
    ensures Good(t, start)
  {
    assert !s.finished;
    ProcessIsGood(s, i, start);
    hide Inv, Ended, Ready, Process;
  }

  lemma PassAt(states: seq<State>, inputs: seq<Input>, start: Player, g: seq<nat>, n: nat)
    requires IsGame(states, inputs, start, g) && 0 < n < |states|
    ensures n - 1 < |inputs| && IsPass(states[n - 1], inputs[n - 1], states[n])
  {
    hide IsPass;
    var i := n - 1;
    assert IsPass(states[i], inputs[i], states[i + 1]);
  }

  lemma FirstStateIsGood(start: Player, g: seq<nat>)
    requires Numbers(g)
    ensures Good(StartRound(NewGame(Other(start)), g), start)
  {
    StartKeepsInv(NewGame(Other(start)), g, start);
  }

  lemma GameStarts(states: seq<State>, inputs: seq<Input>, start: Player, g: seq<nat>)
    requires IsGame(states, inputs, start, g)
    ensures Numbers(g) && states[0] == StartRound(NewGame(Other(start)), g)
  {
  }

  /** In every game, every state satisfies the invariant or is a proper end. */
  lemma {:induction false} GameKeepsInv(states: seq<State>, inputs: seq<Input>, start: Player, g: seq<nat>, n: nat)
    requires IsGame(states, inputs, start, g) && n < |states|
    ensures Good(states[n], start)
    decreases n
  {
    hide *;
    if n == 0 {
      GameStarts(states, inputs, start, g);
      FirstStateIsGood(start, g);
    } else {
      GameKeepsInv(states, inputs, start, g, n - 1);
      PassAt(states, inputs, start, g, n);
      PassIsGood(states[n - 1], inputs[n - 1], states[n], start);
    }
  }

  /** One more pass makes a game one step longer. */
  lemma LongerGame(states: seq<State>, inputs: seq<Input>, i: Input, start: Player, g: seq<nat>)
    requires IsGame(states, inputs, start, g) && Ready(states[|inputs|]) && Numbers(i.g) && Numbers(i.h)
    ensures IsGame(states + [Process(states[|inputs|], i)], inputs + [i], start, g)
  {
    var s := states[|inputs|];
    var longer, more := states + [Process(s, i)], inputs + [i];
    forall k | 0 <= k < |more|
      ensures IsPass(longer[k], more[k], longer[k + 1])
    {
      if k < |inputs| {
        assert IsPass(states[k], inputs[k], states[k + 1]);
      } else {
        hide Process, Ready;
        assert IsPass(s, i, longer[k + 1]);
      }
    }
    hide IsPass;
    assert IsGame(longer, more, start, g);
  }

  /** No unfinished state is left out of the runs: all of them are ready for the next pass. */
  lemma EveryUnfinishedStateIsReady(states: seq<State>, inputs: seq<Input>, start: Player, g: seq<nat>, n: nat)
    requires IsGame(states, inputs, start, g) && n < |states| && !states[n].finished
    ensures Ready(states[n])
  {
    GameKeepsInv(states, inputs, start, g, n);
    InvIsReady(states[n], start);
  }

  /**
   * The bounds of every game: card numbers in range and level, at most 51 cards dealt, at most 42
   * lost rounds, at most 327 claims in a round.
   */
  lemma GameIsBounded(states: seq<State>, inputs: seq<Input>, start: Player, g: seq<nat>, n: nat)
    requires IsGame(states, inputs, start, g) && n < |states|
    ensures var s := states[n];
      |s.losers| <= MOST_LOSSES && |s.moves| <= RUNGS &&
      (!s.finished ==>
        5 <= s.first <= 26 && 5 <= s.second <= 26 && s.first + s.second <= 51 &&
        ((s.first < 10 && s.second < 10) || -1 <= s.first - s.second <= 1) &&
        |s.firstCards| == s.first && |s.secondCards| == s.second &&
        SetOf(s.firstCards) !! SetOf(s.secondCards))
  {
    var s := states[n];
    GameKeepsInv(states, inputs, start, g, n);
    EveryLossCounts(s.losers);
    RoundIsBounded(s.moves);
    if !s.finished {
      HandsAreDisjoint(s.firstCards, s.secondCards);
    }
  }

  // ----- why a game ends -----------------------------------------------------------------------------

  /** The results that rest on card numbers: the loser of the last round, or nobody at 26 cards each. */
  ghost predicate EndedByCards(t: State)
    requires t.results != []
  {
    t.losers != [] &&
    var p := t.losers[|t.losers| - 1];
    var (mine, his) := if p.FirstPlayer? then (t.first, t.second) else (t.second, t.first);
    t.results[|t.results| - 1] == (if mine == his then TieInGame else LostGame(p)) &&
    (if mine == his then mine == TIE_CARD_NUMBER else mine >= EQUALITY_CARD_NUMBER && mine >= his + 2)
  }

  lemma LossEnds(s: State, p: Player, g: seq<nat>, start: Player)
    requires Inv(s, start) && Numbers(g)
    ensures var t := PlayerLosesRound(s, p, g);
      t.losers == s.losers + [p] && (t.finished ==> t.results != [] && EndedByCards(t))
  {
    LevelAfterLoss(s, p);
    hide Dealt, HandsFit, Climbs, Tally, NoneFinished;
  }

  /** Why a pass ended the game. */
  ghost predicate Reason(s: State, i: Input, t: State)
    requires t.results != []
  {
    var r := t.results[|t.results| - 1];
    if |t.losers| > |s.losers| then EndedByCards(t)
    else if i.command.Some? && Leaves(i.command.value) then r == LostGame(i.command.value.sender)
    else if i.command.Some? && i.command.value.Move? && OrderOf(i.command.value.text).WantTie? &&
            t.firstWantsTie && t.secondWantsTie then r == TieInGame
    else i.timeIsUp && t.first == t.second == START_CARD_NUMBER && r == TieInGame
  }

  predicate Leaves(c: Command) {
    c.Disconnect? || (c.Move? && OrderOf(c.text).Concede?)
  }

  /** A pass in which rounds may be lost: if it ends the game, the cards do. */
  ghost predicate EndsByCardsOnly(s: State, t: State) {
    |t.losers| >= |s.losers| && (t.finished ==> |t.losers| > |s.losers| && t.results != [] && EndedByCards(t))
  }

  lemma RevealEnds(s: State, g: seq<nat>, start: Player)
    requires Inv(s, start) && Ready(s) && Numbers(g)
    ensures EndsByCardsOnly(s, RevealClaim(s, g))
  {
    LossEnds(s, s.currentMove, g, start);
    LossEnds(s, Other(s.currentMove), g, start);
    assert !s.finished;
    hide PlayerLosesRound, EndedByCards, Inv, Playable, Level, Holds;
  }

  lemma BlockEnds(s: State, g: seq<nat>, start: Player)
    requires Inv(s, start) && Ready(s) && Numbers(g)
    ensures EndsByCardsOnly(s, BlockClaim(s, g))
  {
    LossEnds(s, s.currentMove, g, start);
    assert !s.finished;
    hide PlayerLosesRound, EndedByCards, Inv, Playable, Level, IsGreatest, Canonical, Dealt;
  }

  lemma ClaimNeverEnds(s: State, cws: string)
    requires Ready(s) && |cws| >= 2
    ensures !MakeClaim(s, cws).finished && MakeClaim(s, cws).losers == s.losers
  {
    hide Parse, Less, Playable, Level;
  }

  lemma MoveEnds(s: State, i: Input, start: Player)
    requires Inv(s, start) && Ready(s) && Numbers(i.g) && i.command.Some? && i.command.value.Move?
    ensures var t := AfterCommand(s, i);
      |t.losers| >= |s.losers| && (t.finished ==> t.results != [] && Reason(s, i, t)) &&
      (Leaves(i.command.value) ==> t.finished)
  {
    var text := i.command.value.text;
    assert !s.finished;
    match OrderOf(text)
    case Reveal => RevealEnds(s, i.g, start);
    case Block => BlockEnds(s, i.g, start);
    case Claiming(cws) =>
      ClaimTextIsLong(text);
      ClaimNeverEnds(s, cws);
    case _ =>
      hide Inv, OrderOf, Ready, EndedByCards;
  }

  lemma CommandEnds(s: State, i: Input, start: Player)
    requires Inv(s, start) && Ready(s) && Numbers(i.g)
    ensures var t := AfterCommand(s, i);
      |t.losers| >= |s.losers| && (t.finished ==> t.results != [] && Reason(s, i, t)) &&
      (i.command.Some? && Leaves(i.command.value) ==> t.finished)
  {
    if i.command.Some? && i.command.value.Move? {
      MoveEnds(s, i, start);
    } else {
      assert !s.finished;
      hide Inv, EndedByCards, Ready;
    }
  }

  ghost predicate ByTimeOut(s: State, t: State)
    requires t.results != []
  {
    if |t.losers| > |s.losers| then EndedByCards(t)
    else t.first == t.second == START_CARD_NUMBER && t.results[|t.results| - 1] == TieInGame && t.losers == [] &&
         !(t.firstWantsTie && t.secondWantsTie)
  }

  lemma TimeOutEnds(s: State, g: seq<nat>, start: Player)
    requires Inv(s, start) && Ready(s) && Numbers(g)
    ensures var t := TimeOut(s, g);
      t.finished ==> t.results != [] && ByTimeOut(s, t)
  {
    LossEnds(s, s.currentMove, g, start);
    EveryLossCounts(s.losers);
    assert !(s.firstWantsTie && s.secondWantsTie);
    assert s.first == s.second == START_CARD_NUMBER ==> s.losers == [];
    hide PlayerLosesRound, EndedByCards, Inv, Ready;
  }

  lemma TimeOutIsReason(s: State, i: Input, t: State, u: State)
    requires |t.losers| >= |s.losers| && i.timeIsUp && !(i.command.Some? && Leaves(i.command.value))
    requires u.results != [] && ByTimeOut(t, u)
    ensures Reason(s, i, u)
  {
    hide EndedByCards, Leaves, OrderOf;
  }

  lemma ProcessMeans(s: State, i: Input)
    requires Ready(s) && Numbers(i.g) && Numbers(i.h)
    ensures var t := AfterCommand(s, i);
      if !t.finished && i.timeIsUp then Ready(t) && Process(s, i) == TimeOut(t, i.h) else Process(s, i) == t
  {
    HandleKeepsReady(s, i);
    hide AfterCommand, TimeOut, Ready;
  }

  /** A game ends by cards, by a player who leaves, by agreement, or by a timeout in the first round. */
  lemma WhyGamesEnd(s: State, i: Input, start: Player)
    requires Inv(s, start) && Numbers(i.g) && Numbers(i.h)
    ensures Ready(s)
    ensures Process(s, i).finished ==> Process(s, i).results != [] && Reason(s, i, Process(s, i))
    ensures i.command.Some? && Leaves(i.command.value) ==> Process(s, i).finished
  {
    InvIsReady(s, start);
    hide *;
    CommandEnds(s, i, start);
    ProcessMeans(s, i);
    var t := AfterCommand(s, i);
    if !t.finished && i.timeIsUp {
      UnfinishedIsInv(s, i, start);
      TimeOutEnds(t, i.h, start);
      if Process(s, i).finished {
        TimeOutIsReason(s, i, t, Process(s, i));
      }
    }
  }

  lemma UnfinishedIsInv(s: State, i: Input, start: Player)
    requires Inv(s, start) && Ready(s) && Numbers(i.g) && !AfterCommand(s, i).finished
    ensures Inv(AfterCommand(s, i), start)
  {
    CommandIsGood(s, i, start);
  }

  // ----- the assertions of game_result ---------------------------------------------------------------

  /** They break exactly when the player who already has 26 cards loses; the other one then has 25. */
  lemma AssertionBreaks(s: State, p: Player, start: Player)
    requires Inv(s, start)
    ensures var t := WithLoss(s, p);
      var (mine, his) := if p.FirstPlayer? then (s.first, s.second) else (s.second, s.first);
      (!Asserted(t.first, t.second) <==> mine == TIE_CARD_NUMBER) &&
      (mine == TIE_CARD_NUMBER ==> his == TIE_CARD_NUMBER - 1) &&
      (!Asserted(t.first, t.second) ==> ResultOf(t, p) == LostGame(p))
  {
    hide HandsFit, Climbs, Turns, Tally, NoneFinished;
  }

  // ----- what a player cannot do ---------------------------------------------------------------------

  predicate Wishes(s: State, p: Player) { if p.FirstPlayer? then s.firstWantsTie else s.secondWantsTie }

  /** What an out-of-turn line does: nothing to cards, claims and turns. */
  ghost predicate OnlySpeaks(s: State, sender: Player, order: Order, t: State) {
    t == s.(firstWantsTie := t.firstWantsTie, secondWantsTie := t.secondWantsTie,
            finished := t.finished, results := t.results) &&
    (Wishes(t, sender) <==> Wishes(s, sender) || order.WantTie?) &&
    (Wishes(t, Other(sender)) <==> Wishes(s, Other(sender))) &&
    (t.finished <==> order.Concede? || (order.WantTie? && Wishes(s, Other(sender)))) &&
    t.results == s.results + if order.Concede? then [LostGame(sender)] else if t.finished then [TieInGame] else []
  }

  lemma SpeakingOutOfTurn(s: State, sender: Player, command: string, g: seq<nat>)
    requires Ready(s) && Numbers(g) && sender != s.currentMove && !(s.firstWantsTie && s.secondWantsTie)
    ensures OnlySpeaks(s, sender, OrderOf(command), MakeMove(s, sender, command, g))
  {
    assert !s.finished;
    hide OrderOf, Ready;
  }

  /**
   * The player who is not on move can only concede, which loses the game, and wish for a tie,
   * which ends it if the other one has wished for it; cards, claims and turns stay as they are,
   * and then the clock is looked at as if he had said nothing.
   */
  lemma OutOfTurn(s: State, i: Input, start: Player)
    requires Inv(s, start) && Numbers(i.g) && Numbers(i.h)
    requires i.command.Some? && i.command.value.Move? && i.command.value.sender != s.currentMove
    ensures Ready(s)
    ensures var t := Process(s, i.(timeIsUp := false));
      OnlySpeaks(s, i.command.value.sender, OrderOf(i.command.value.text), t) &&
      if i.timeIsUp && !t.finished then Ready(t) && Process(s, i) == TimeOut(t, i.h) else Process(s, i) == t
  {
    InvIsReady(s, start);
    SpeakingOutOfTurn(s, i.command.value.sender, i.command.value.text, i.g);
    var j := i.(timeIsUp := false);
    ProcessMeans(s, i);
    ProcessMeans(s, j);
    hide Inv, Ready, Process, TimeOut, OnlySpeaks, MakeMove, OrderOf;
    assert AfterCommand(s, j) == AfterCommand(s, i);
  }

  /** Revealing: the claim is checked against the union of both hands, and decides who loses the round. */
  lemma RevealDecides(s: State, command: string, g: seq<nat>, start: Player)
    requires Inv(s, start) && Numbers(g) && OrderOf(command) == Reveal
    ensures Ready(s)
    ensures var t := MakeMove(s, s.currentMove, command, g);
      if s.moves == [] then t == s
      else
        var claim := s.moves[|s.moves| - 1];
        t.losers == s.losers + [if Holds(Union(s), claim) then s.currentMove else Other(s.currentMove)]
  {
    InvIsReady(s, start);
    LossEnds(s, s.currentMove, g, start);
    LossEnds(s, Other(s.currentMove), g, start);
    hide PlayerLosesRound, Holds, OrderOf, Level, HandsFit, Tally, NoneFinished, Turns;
  }

  /** Blocking: the round is tied exactly when the claim, not two pairs, is the best the union offers. */
  lemma BlockDecides(s: State, command: string, g: seq<nat>, start: Player)
    requires Inv(s, start) && Numbers(g) && OrderOf(command) == Block && s.moves != []
    ensures Ready(s)
    ensures var t, c := MakeMove(s, s.currentMove, command, g), s.moves[|s.moves| - 1];
      if c[0] != TWO_PAIRS && Canonical(c) && IsGreatest(Union(s), c)
      then !t.finished && t.losers == s.losers && t.results == s.results + [TieInRound] && t.moves == []
      else t.losers == s.losers + [s.currentMove]
  {
    InvIsReady(s, start);
    var c := s.moves[|s.moves| - 1];
    assert Playable(c) && s.claim == c && !s.finished;
    assert Canonical(c) ==> c[0] != TWO_PAIRS;
    LossEnds(s, s.currentMove, g, start);
    hide PlayerLosesRound, IsGreatest, Canonical, OrderOf, Inv, Ready, Dealt, EndedByCards, Playable;
  }
}
