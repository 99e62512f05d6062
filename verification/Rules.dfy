/** The rules of the game: what a command, a timeout and the end of a round do to the state. */
module Rules {
  import opened Wrappers
  import opened Cards
  import opened Claims
  import opened Text
  import opened ClaimText
  import opened Shuffle

  const START_CARD_NUMBER: nat := 5
  const EQUALITY_CARD_NUMBER: nat := 10
  const TIE_CARD_NUMBER: nat := 26

  datatype Player = FirstPlayer | SecondPlayer

  function Other(p: Player): Player {
    if p.FirstPlayer? then SecondPlayer else FirstPlayer
  }

  datatype RoundResult = LostRound(loser: Player) | LostGame(loser: Player) | TieInRound | TieInGame

  predicate FinishedGame(r: RoundResult) { r.LostGame? || r.TieInGame? }

  datatype Verdict = Loses(player: Player) | Tie | Continue

  /** `game_result` without its assertions. */
  function GameResult(first: nat, second: nat): Verdict {
    if first == TIE_CARD_NUMBER && second == TIE_CARD_NUMBER then Tie
    else if (first < EQUALITY_CARD_NUMBER && second < EQUALITY_CARD_NUMBER) || first == second ||
            first + 1 == second || first == second + 1 then Continue
    else if first > second then Loses(FirstPlayer)
    else Loses(SecondPlayer)
  }

  /** The assertions of `game_result`. */
  predicate Asserted(first: nat, second: nat) {
    START_CARD_NUMBER <= first <= TIE_CARD_NUMBER && START_CARD_NUMBER <= second <= TIE_CARD_NUMBER
  }

  // ----- commands ----------------------------------------------------------------------------------

  function LowerChar(c: char): char {
    if 'A' <= c <= 'Z' then ((c as int) + 32) as char else c
  }

  function Lower(s: string): (r: string)
    ensures |r| == |s| && forall i :: 0 <= i < |s| ==> r[i] == LowerChar(s[i])
  {
    seq(|s|, i requires 0 <= i < |s| => LowerChar(s[i]))
  }

  /** What a line typed by a player asks for; `Ask` is a question that changes nothing. */
  datatype Order = Concede | WantTie | Ask | Reveal | Block | Claiming(text: string) | Chat

  function OrderOf(command: string): Order {
    var cws := NoSpaces(command);
    var lcws := Lower(cws);
    if lcws == "/concede" then Concede
    else if lcws == "/tie" || lcws == "/draw" then WantTie
    else if lcws == "/tr" || lcws == "/cards" || lcws == "/lastmove" || lcws == "/lm" then Ask
    else if lcws == "/r" then Reveal
    else if lcws == "/b" then Block
    else if |lcws| >= 2 && lcws[..2] == "/m" then Claiming(cws)
    else Chat
  }

  datatype Command = Move(sender: Player, text: string) | Reconnect(sender: Player) | Disconnect(sender: Player)

  // ----- the state -----------------------------------------------------------------------------------

  /**
   * The fields of the game, and three histories: the claims accepted in this round, the losers of
   * rounds, and the results reported to the players.
   */
  datatype State = State(
    first: nat, second: nat,
    firstMove: Player, currentMove: Player,
    firstWantsTie: bool, secondWantsTie: bool,
    claim: Claim, lastMove: string, finished: bool,
    firstCards: seq<Card>, secondCards: seq<Card>,
    moves: seq<Claim>, losers: seq<Player>, results: seq<RoundResult>)

  ghost function Union(s: State): set<Card> { SetOf(s.firstCards + s.secondCards) }

  /** Card numbers between two rounds: both below ten, or at most one apart; never both 26. */
  predicate Level(first: nat, second: nat) {
    Asserted(first, second) && !(first == TIE_CARD_NUMBER && second == TIE_CARD_NUMBER) &&
    ((first < EQUALITY_CARD_NUMBER && second < EQUALITY_CARD_NUMBER) || -1 <= first - second <= 1)
  }

  /** What the operations rely on: the deal fits, and the claim can be checked and compared. */
  predicate Ready(s: State) {
    !s.finished && Level(s.first, s.second) && (s.claim == [NOTHING] || Playable(s.claim))
  }

  /** A deck's worth of random numbers. */
  predicate Numbers(g: seq<nat>) { |g| == ALL_CARDS }

  // ----- the operations ------------------------------------------------------------------------------

  /** The first player begins the game's first round if and only if `start` is the second player. */
  function NewGame(start: Player): State {
    State(START_CARD_NUMBER, START_CARD_NUMBER, start, start, false, false, [NOTHING], "", false, [], [], [], [], [])
  }

  function StartRound(s: State, g: seq<nat>): State
    requires s.first + s.second <= ALL_CARDS && Numbers(g)
  {
    var v := Dealt(g, s.first + s.second);
    s.(claim := [NOTHING], lastMove := "", firstWantsTie := false, secondWantsTie := false,
       firstMove := Other(s.firstMove), currentMove := Other(s.firstMove),
       firstCards := v[..s.first], secondCards := v[s.first..], moves := [])
  }

  function Report(s: State, r: RoundResult): State { s.(results := s.results + [r]) }

  function Finish(s: State, r: RoundResult): State { Report(s, r).(finished := true) }

  /** The loser of a round gets one card more. */
  function WithLoss(s: State, p: Player): State {
    if p.FirstPlayer? then s.(first := s.first + 1, losers := s.losers + [p])
    else s.(second := s.second + 1, losers := s.losers + [p])
  }

  function ResultOf(s: State, p: Player): RoundResult {
    match GameResult(s.first, s.second)
    case Loses(q) => LostGame(q)
    case Tie => TieInGame
    case Continue => LostRound(p)
  }

  function PlayerLosesRound(s: State, p: Player, g: seq<nat>): State
    requires Level(s.first, s.second) && Numbers(g)
  {
    LevelAfterLoss(s, p);
    var t := WithLoss(s, p);
    var r := ResultOf(t, p);
    if FinishedGame(r) then Finish(t, r) else StartRound(Report(t, r), g)
  }

  function TieRound(s: State, g: seq<nat>): State
    requires Level(s.first, s.second) && Numbers(g)
  {
    StartRound(Report(s, TieInRound), g)
  }

  function WantsTie(s: State, p: Player): State {
    var t := if p.FirstPlayer? then s.(firstWantsTie := true) else s.(secondWantsTie := true);
    if t.firstWantsTie && t.secondWantsTie then Finish(t, TieInGame) else t
  }

  function Advance(s: State, c: Claim, cws: string): State
    requires |cws| >= 2
  {
    s.(lastMove := cws[..2] + " " + cws[2..], firstWantsTie := false, secondWantsTie := false, claim := c,
       currentMove := Other(s.currentMove), moves := s.moves + [c])
  }

  function MakeClaim(s: State, cws: string): State
    requires Ready(s) && |cws| >= 2
  {
    match Parse(cws[2..])
    case Parsed(c) =>
      ParsedIsPlayable(cws[2..], c);
      if Less(s.claim, c) then Advance(s, c, cws) else s
    case _ => s
  }

  ghost function RevealClaim(s: State, g: seq<nat>): State
    requires Ready(s) && Numbers(g)
  {
    if s.claim[0] == NOTHING then s
    else PlayerLosesRound(s, if Holds(Union(s), s.claim) then s.currentMove else Other(s.currentMove), g)
  }

  ghost function BlockClaim(s: State, g: seq<nat>): State
    requires Ready(s) && Numbers(g)
  {
    if s.claim[0] == NOTHING then s
    else if Canonical(s.claim) && IsGreatest(Union(s), s.claim) then TieRound(s, g)
    else PlayerLosesRound(s, s.currentMove, g)
  }

  ghost function MakeMove(s: State, sender: Player, command: string, g: seq<nat>): State
    requires Ready(s) && Numbers(g)
  {
    match OrderOf(command)
    case Concede => Finish(s, LostGame(sender))
    case WantTie => WantsTie(s, sender)
    case Ask => s
    case Reveal => if sender == s.currentMove then RevealClaim(s, g) else s
    case Block => if sender == s.currentMove then BlockClaim(s, g) else s
    case Claiming(cws) => if sender == s.currentMove then MakeClaim(s, cws) else s
    case Chat => s
  }

  ghost function Handle(s: State, c: Command, g: seq<nat>): State
    requires Ready(s) && Numbers(g)
  {
    match c
    case Move(sender, text) => MakeMove(s, sender, text, g)
    case Reconnect(_) => s
    case Disconnect(sender) => Finish(s, LostGame(sender))
  }

  function TimeOut(s: State, g: seq<nat>): State
    requires Ready(s) && Numbers(g)
  {
    if s.first == START_CARD_NUMBER && s.second == START_CARD_NUMBER then Finish(s, TieInGame)
    else PlayerLosesRound(s, s.currentMove, g)
  }

  /** One pass of the game thread: a command, if one waits, the clock, and numbers for two deals. */
  datatype Input = Input(command: Option<Command>, timeIsUp: bool, g: seq<nat>, h: seq<nat>)

  ghost function AfterCommand(s: State, i: Input): State
    requires Ready(s) && Numbers(i.g)
  {
    if i.command.Some? then Handle(s, i.command.value, i.g) else s
  }

  ghost function Process(s: State, i: Input): State
    requires Ready(s) && Numbers(i.g) && Numbers(i.h)
  {
    HandleKeepsReady(s, i);
    var t := AfterCommand(s, i);
    if !t.finished && i.timeIsUp then TimeOut(t, i.h) else t
  }

  // ----- card numbers --------------------------------------------------------------------------------

  /** After a loss the game goes on exactly when the numbers are level again, and only the loser can lose it. */
  lemma LevelAfterLoss(s: State, p: Player)
    requires Level(s.first, s.second)
    ensures var t := WithLoss(s, p);
      var r := ResultOf(t, p);
      (r == LostRound(p) <==> Level(t.first, t.second)) &&
      (r == LostRound(p) ==> t.first + t.second <= 2 * TIE_CARD_NUMBER - 1) &&
      (r == TieInGame <==> t.first == TIE_CARD_NUMBER && t.second == TIE_CARD_NUMBER) &&
      (r == LostRound(p) || r == LostGame(p) || r == TieInGame)
  {
  }

  lemma LossIsReady(s: State, p: Player, g: seq<nat>)
    requires Ready(s) && Numbers(g)
    ensures PlayerLosesRound(s, p, g).finished || Ready(PlayerLosesRound(s, p, g))
  {
    LevelAfterLoss(s, p);
    hide GameResult, Dealt, Level;
  }

  lemma ClaimIsReady(s: State, cws: string)
    requires Ready(s) && |cws| >= 2
    ensures Ready(MakeClaim(s, cws))
  {
    if Parse(cws[2..]).Parsed? {
      ParsedIsPlayable(cws[2..], Parse(cws[2..]).claim);
    }
    hide Parse, Less, Level, Playable;
  }

  /** A command ends the game or leaves it ready for the next step. */
  lemma HandleKeepsReady(s: State, i: Input)
    requires Ready(s) && Numbers(i.g)
    ensures AfterCommand(s, i).finished || Ready(AfterCommand(s, i))
  {
    hide Dealt, Level, Playable, MakeClaim, PlayerLosesRound, OrderOf, Holds, IsGreatest, Canonical;
    match i.command
    case None =>
    case Some(c) =>
      LossIsReady(s, s.currentMove, i.g);
      LossIsReady(s, Other(s.currentMove), i.g);
      if c.Move? && OrderOf(c.text).Claiming? {
        ClaimTextIsLong(c.text);
        ClaimIsReady(s, OrderOf(c.text).text);
      }
  }

  lemma ClaimTextIsLong(command: string)
    requires OrderOf(command).Claiming?
    ensures |OrderOf(command).text| >= 2
  {
  }
}
