/** The value types of the game: action symbols and their dataset tokens,
    actions, and the per-round and per-game results. */
module Actions {
  import opened Wrappers

  /** The four kinds of recorded game event. */
  datatype ActionSymbol = LoseGame | ResetScore | LostRound | IncreaseScore

  /** The literal dataset token of each symbol (the enum's `.value`). */
  function Token(s: ActionSymbol): string
  {
    match s
    case LoseGame => "-----"
    case ResetScore => "---"
    case LostRound => "-"
    case IncreaseScore => "number"
  }

  /** Enum lookup by value: the symbol whose token is `t`, if any. */
  function SymbolOfToken(t: string): (r: Option<ActionSymbol>)
    ensures forall s :: r == Some(s) <==> Token(s) == t
  {
    if t == "-----" then Some(LoseGame)
    else if t == "---" then Some(ResetScore)
    else if t == "-" then Some(LostRound)
    else if t == "number" then Some(IncreaseScore)
    else None
  }

  /** No two symbols share a token, so the lookup above is a partial inverse
      of `Token`. */
  lemma TokenRoundTrip(s: ActionSymbol)
    ensures SymbolOfToken(Token(s)) == Some(s)
    ensures forall s' :: Token(s') == Token(s) ==> s' == s
  {
  }

  /** One recorded event. A datatype value is immutable, as the frozen
      dataclass is. */
  datatype Action = Action(symbol: ActionSymbol, value: int)

  /** The shape of every action a dataset file produces: a non-negative
      value, and the default value 0 on anything but a score increase. */
  predicate WellFormed(a: Action)
  {
    a.value >= 0 && (a.symbol != IncreaseScore ==> a.value == 0)
  }

  /** An action built from its symbol alone takes the default value 0. */
  function Symbolic(s: ActionSymbol): Action
  {
    Action(s, 0)
  }

  /** Why a round ended: the player quit on reaching the stop points, or a
      non-increase action was drawn (the reason mirrors its symbol). */
  datatype StopReason = Quit | Stopped(symbol: ActionSymbol)

  /** The outcome of one simulated round. */
  datatype RoundResult = RoundResult(
    totalPoints: int,
    finalPoints: int,
    length: nat,
    stopReason: StopReason)

  /** A round before any draw: all counters at their zero defaults, reason Quit. */
  function FreshRound(): RoundResult
  {
    RoundResult(0, 0, 0, Quit)
  }

  /** The outcome of one simulated game: the rounds played in order, plus the
      running aggregates the game loop maintains. */
  datatype GameResult = GameResult(
    rounds: seq<RoundResult>,
    totalPoints: int,
    finalPoints: int,
    throwsCount: int,
    length: int)

  /** A game before its first round. */
  function NewGame(): GameResult
  {
    GameResult([], 0, 0, 0, 0)
  }
}
