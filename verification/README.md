# Kastegris statistics — a verified model

Kastegris is a dice-style scoring game. A round is a run of throws. Each
throw either raises the round's score or ends the round: a lost round, a
score reset, or a lost game. The statistics tool reads a dataset of recorded
throws, one per line. It counts the kinds of action in the dataset. It then
simulates rounds and games by drawing actions uniformly from the dataset,
and it reports averages and action shares.

This project models three parts of that tool in Dafny:

- the dataset line classifier of `parse_dataset_file`;
- the counters that `Statistics` derives from the action list;
- the `simulate_round` and `simulate_game` loops, their repetitions, and the
  exact-arithmetic side of `run_stats`.

The random generator is replaced by an explicit stream of draws. Each
simulation consumes a prefix of the stream and returns how many draws it
used. `None` means the loop would still be running when the stream ends.

Modules, one per file:

- `Wrappers` (wrappers.dfy): `Option` and `Result`.
- `Actions` (actions.dfy): `ActionSymbol` and its tokens, `Action`, the
  round stop reason, `RoundResult` and `GameResult`.
- `Dataset` (dataset.dfy): `str.strip`, `str.isdigit` and `int` on ASCII
  text, the per-line classifier `ParseLine`, and `ParseLines`.
- `Counters` (counters.dfy): the increase sub-list and the stop counts.
- `Round` (round.dfy): `SimulateRound` and an independent trace
  description that it matches exactly.
- `Game` (game.dfy): `SimulateGame` and the game's aggregates.
- `Simulation` (simulation.dfy): many rounds and many games, exact means,
  and `RunStats`. The batch of games is written for any function that plays
  one game. Its lemmas use only three properties of that function, which
  `simulate_game` has: it stays within the stream, it finishes games, and it
  depends only on the draws it consumed.

Notes on the source:

- `stats.py` imports `RoundStopReason` and `GameResult` from
  `statistics_types.py`, but that file does not define them. Its
  `RoundResult` also has no `stop_reason` field, although `stats.py:62`
  passes one. The model defines the stop reason from how it is used: `Quit`,
  or `Stopped(symbol)` for the non-increase symbol drawn. `GameResult` holds
  the rounds list and the four running aggregates that `simulate_game`
  updates.
- The stop reason is built with `RoundStopReason(chosen_action.symbol.value)`
  (`stats.py:72`). Since `RoundStopReason` is not defined in the source
  text, the model assumes it has one member per non-increase symbol value,
  so a drawn lose-game action (`-----`) gives `Stopped(LoseGame)`. For the
  kept score, that behaves like a lost round: the game goes on.
- In three places the code does something a reader may not expect. The
  model follows the code each time:
  - there is no comment syntax: a line starting with `#` fails as an
    unknown symbol (`Dataset.CommentLineFails`);
  - `__repr__` prints game stop points of -1 as "Never" (`stats.py:203`),
    as it does for round stop points (`stats.py:202`), where -1 does mean
    that a round never quits. For a game, -1 means the opposite: the loop
    condition at `stats.py:102` fails at once for stop points of 0 or
    below, so the game plays no round (`Game.NonPositiveGameThreshold`);
  - the word `number` is accepted as a token, because it is the value of
    the increase-score symbol (`statistics_types.py:9`). It parses as an
    increase of 0.
- The second `.strip()` at `__main__.py:33` is applied to an already
  stripped line. `Dataset.StripIdempotent` shows this is a no-op, so the
  model looks up the stripped text once.
- With a round threshold of -1, no round ends with Quit. The kept score is
  therefore never raised, and a game with positive stop points never ends
  (`Game.NeverThresholdGameNeverEnds`). The same happens for a round
  threshold of 0 or below other than -1: such rounds draw nothing
  (`Game.EmptyRoundsNeverEndGame`).

## Model

| member | source | states |
|---|---|---|
| Actions.SymbolOfToken | statistics/statistics_types.py:5-9 | looking up an enum value gives symbol `s` exactly when `s`'s token is the text |
| Actions.TokenRoundTrip | statistics/statistics_types.py:5-9 | the four tokens are pairwise distinct, and looking up a symbol's token gives back that symbol |
| Dataset.TrimLeft | statistics/__main__.py:20 | the result is the suffix of the line from its first non-space character; everything dropped is whitespace |
| Dataset.TrimRight | statistics/__main__.py:20 | the result is the prefix of the line up to its last non-space character; everything dropped is whitespace |
| Dataset.StripIdempotent | statistics/__main__.py:20-33 | stripping twice is stripping once, so the second strip before the lookup changes nothing |
| Dataset.PaddedStrip | statistics/__main__.py:20 | stripping whitespace padding around a word gives back exactly that word |
| Dataset.Decimal | statistics/__main__.py:27-28 | the decimal rendering of a number is a non-empty digit string without a leading zero |
| Dataset.DecimalRoundTrip | statistics/__main__.py:27-28 | `int` of the decimal rendering of `n` is `n` |
| Dataset.ParseLine | statistics/__main__.py:20-35 | a line is blank exactly when it strips to the empty text; an unknown line reports its non-empty stripped text; parsed values are non-negative, and 0 for non-increase symbols |
| Dataset.UnknownLine | statistics/__main__.py:20-35 | a line is rejected as an unknown symbol exactly when its stripped text is non-empty, not all digits, and not the value of any action symbol |
| Dataset.DigitLine | statistics/__main__.py:27-29 | an all-digit line is `Action(INCREASE_SCORE, n)`, with `n` its decimal value |
| Dataset.NumberLine | statistics/__main__.py:20-29 | any natural number written with any whitespace padding parses to an increase by that number |
| Dataset.SymbolLine | statistics/__main__.py:31-33 | `-`, `---`, `-----` and `number` parse to lost round, reset, lost game and increase, each with value 0 |
| Dataset.HashLine | statistics/__main__.py:31-35 | a line whose stripped text starts with `#` is an unknown symbol, not a comment |
| Dataset.StripInvariantLine | statistics/__main__.py:20 | a line and its stripped form are classified alike |
| Dataset.Collect | statistics/__main__.py:18-37 | the loop keeps at most one action per line, and any error index is a valid line index |
| Dataset.CollectOutcome | statistics/__main__.py:18-37 | collecting succeeds exactly when no line is unknown; otherwise the error is the first unknown line |
| Dataset.ParseLines | statistics/__main__.py:14-37 | a successful parse yields at most one action per line; a failure names the index of a line of the input |
| Dataset.ParseLinesOutcome | statistics/__main__.py:14-37 | parsing succeeds exactly when no line is an unknown symbol, yielding at most one action per line; otherwise it reports the first unknown line's 0-based index and stripped text |
| Dataset.CollectAppend | statistics/__main__.py:18-37 | collecting two runs of lines concatenates their actions in order; an error in the first run wins; an error in the second keeps its absolute index |
| Dataset.ParseLinesAppend | statistics/__main__.py:18-37 | actions appear in line order: two concatenated line lists parse to the concatenation of their actions, and errors carry absolute indices |
| Dataset.ParseOneLine | statistics/__main__.py:20-35 | a blank line contributes no action, a parsed line exactly its action, and an unknown line the error at its index |
| Dataset.ParseLinesStripInvariant | statistics/__main__.py:19-20 | stripping every line first does not change the result |
| Dataset.CollectFirstUnknown | statistics/__main__.py:31-35 | the error names the first unknown line, whatever follows it |
| Dataset.CommentLineFails | statistics/__main__.py:22-35 | a `#` line after acceptable lines fails the whole file at its own index, whatever follows |
| Dataset.ParsedActionsWellFormed | statistics/__main__.py:27-33 | every parsed action has a non-negative value, and value 0 unless it is an increase |
| Counters.WithSymbol | statistics/stats.py:36-38 | the filtered list is no longer than the input and holds only actions of that symbol |
| Counters.WithoutSymbol | statistics/stats.py:40-46 | the filtered list is no longer than the input and holds no action of that symbol |
| Counters.SymbolPartition | statistics/stats.py:34-46 | the increase and non-increase sub-lists together are the dataset as a multiset, so their counts add up to the total |
| Counters.StopPartition | statistics/stats.py:40-52 | lost-round, reset and lost-game counts add up to the any-round-stop count |
| Counters.Counts | statistics/stats.py:33-52 | increase count plus any-round-stop count is the total; lost-round plus reset count is at most the any-round-stop count; the increase sub-list is a sub-multiset of increases only |
| Counters.CountDataset | statistics/stats.py:33-52 | one pass over the actions computes the same counters as the list comprehensions |
| Round.RoundLoop | statistics/stats.py:65-75 | a finished round consumed at most the stream and its length counts the draws made; a Quit round keeps its whole total, and a stopped round keeps 0 and names a non-increase symbol |
| Round.SimulateRound | statistics/stats.py:61-75 | a round started fresh: its length is the number of draws it consumed, a Quit round keeps its whole total, and a stopped round keeps 0 and names the non-increase symbol that stopped it |
| Round.RoundLoopTrace | statistics/stats.py:61-75 | the loop returns a run exactly when the run satisfies the independent trace description: the condition held before each draw, every draw but the last was an increase, and the round ends on a penalty or on reaching the threshold |
| Round.RoundConsumption | statistics/stats.py:66-69 | a finished round's length is the number of draws consumed, and its total the sum of their values |
| Round.RoundStopsOnPenalty | statistics/stats.py:70-73 | a round has a penalty reason exactly when its last draw is not an increase; then final points are 0, the reason mirrors that symbol, and the total includes the stop action's own value |
| Round.StopAddsNothing | statistics/stats.py:67-73 | on well-formed draws a stopped round's total is the sum of the increases before the stopping draw: the stop action, built with the default value 0 (`statistics_types.py:15`), adds nothing |
| Round.RoundQuits | statistics/stats.py:62-68 | a Quit round keeps its total, had a threshold other than -1, reached it, and drew only increases |
| Round.NeverThresholdNeverQuits | statistics/stats.py:65 | with stop points -1 a finished round never has reason Quit |
| Round.NonPositiveThreshold | statistics/stats.py:62-65 | stop points of 0 or below (not -1) yield the fresh round with no draw consumed |
| Round.RoundLoopExhausts | statistics/stats.py:65-70 | the stream runs out exactly when all its draws are increases and the loop condition held after each one |
| Round.RoundPrefix | statistics/stats.py:63-75 | a finished round depends only on the draws it consumed |
| Round.PlaysRoundsConsumption | statistics/stats.py:103-110 | rounds played back to back have lengths summing to the number of draws, and totals summing to the draws' values |
| Round.PlaysRoundsCons | statistics/stats.py:102-104 | playing one more round in front of a run of rounds extends the consumed stream by that round's draws |
| Round.RoundKeepsAtMostTotal | statistics/stats.py:67-71 | on non-negative draws a round's final points lie between 0 and its total |
| Game.KeepScore | statistics/stats.py:106-109 | a round that is not Quit leaves the kept score as it was or sets it to 0; a reset always sets it to 0; with non-negative final points the kept score only drops on a reset |
| Game.KeptAfterSnoc | statistics/stats.py:106-109 | after one more round the kept score rises by its final points on Quit, is 0 after a reset, and is unchanged otherwise |
| Game.GameLoop | statistics/stats.py:102-113 | a finished game loop consumed at most the stream, ends at or above the stop points, adds exactly the draws consumed to the throw count, and counts one game length per round appended |
| Game.SimulateGame | statistics/stats.py:95-113 | a finished game consumed at most the stream, its throw count is the number of draws consumed, its kept score is at or above the stop points, and its length is its number of rounds |
| Game.GameLoopOutcome | statistics/stats.py:100-113 | from any state, the loop appends the rounds played on the draws it consumed, adds their totals and lengths, counts them, and folds them into the kept score; each round starts below the stop points, and the end is at or above them |
| Game.GameOutcome | statistics/stats.py:95-113 | a finished game: rounds played back to back; total equals both the sum of round totals and the draws' values; throws equal both the summed round lengths and the draws consumed; length equals the round count; kept score is the fold of stop reasons, below the stop points before each round and at or above them at the end |
| Game.GameLoopCompletes | statistics/stats.py:102-113 | the converse of `GameLoopOutcome`: when rounds played back to back on the first `n` draws keep the score below the stop points before each round and reach them after the last, the loop from any state ends after exactly those rounds and `n` draws, with their totals, throws, count and kept score added |
| Game.GameCompletes | statistics/stats.py:95-113 | a new game ends after exactly `n` draws with exactly the given rounds when those rounds are played back to back on the first `n` draws, stay below the stop points before each round, and reach them after the last |
| Game.GameExactly | statistics/stats.py:95-113 | a game returns a given run if and only if its rounds are played back to back on the draws it consumed, stay below the stop points before each round and reach them after the last, and its aggregates are those rounds' sums, count and kept score |
| Game.GamePrefix | statistics/stats.py:95-113 | a finished game depends only on the draws it consumed: any stream starting with them gives the same game |
| Game.NonPositiveGameThreshold | statistics/stats.py:100-102 | game stop points of 0 or below give a game of zero rounds and no draws |
| Game.NeverThresholdGameNeverEnds | statistics/stats.py:102-109 | with round stop points -1 and positive game stop points the game never ends |
| Game.EmptyRoundsNeverEndGame | statistics/stats.py:102-109 | with round stop points of 0 or below (not -1) and positive game stop points the game never ends |
| Simulation.SimulateManyRounds | statistics/stats.py:77-80 | a batch holds exactly the requested number of rounds and consumed at most the stream |
| Simulation.ManyRoundsPlay | statistics/stats.py:77-80 | a batch's rounds are the rounds played one after the other on the draws it consumed |
| Simulation.ManyRoundsComplete | statistics/stats.py:77-80 | rounds played back to back on the first `n` draws are the batch of that many rounds, and it consumes exactly `n` draws |
| Simulation.ManyRoundsExactly | statistics/stats.py:77-80 | a batch of `count` rounds is a given list after `n` draws if and only if the list has `count` rounds played back to back on the first `n` draws |
| Simulation.SimulateManyGames | statistics/stats.py:115-124 | a batch holds the requested number of games; each ends at or above the stop points and counts its own rounds; their throws add up to the draws consumed |
| Simulation.ManyGamesComplete | statistics/stats.py:115-124 | for any game function that stays within the stream and depends only on the draws it consumed, games played back to back on the first `n` draws are the batch of that many games, and it consumes exactly `n` draws |
| Simulation.ManyGamesPlay | statistics/stats.py:115-124 | each game of a batch is the game played on its own segment of the stream: the games are played one after the other on the draws the batch consumed |
| Simulation.ManyGamesExactly | statistics/stats.py:115-124 | a batch of `count` games is a given list after `n` draws if and only if the list has `count` games played back to back on the first `n` draws |
| Simulation.MeanPermutation | statistics/stats.py:86-93 | the mean does not depend on the order of the values: two lists with the same elements have the same mean |
| Simulation.MeanBounds | statistics/stats.py:85-93 | the mean lies between any lower and upper bound of the values |
| Simulation.MeanLowerBound | statistics/stats.py:86-93 | a lower bound on every value bounds the mean from below |
| Simulation.MeanOfOne | statistics/stats.py:85-93 | the mean of a single sample is that sample |
| Simulation.AverageRoundsPermutation | statistics/stats.py:82-93 | the round averages do not depend on the order of the rounds: a reordered batch has the same averages |
| Simulation.AverageOfOneRound | statistics/stats.py:82-93 | averaging a batch of one round gives that round's own values |
| Simulation.AverageFinalAtMostTotal | statistics/stats.py:82-93 | on non-negative draws, the mean final points of a batch lie between 0 and its mean total points |
| Simulation.AverageKeptBounds | statistics/stats.py:82-93 | when every round keeps between 0 and its total points, the batch means of final and total points keep the same order |
| Simulation.AverageGamesPermutation | statistics/stats.py:126-148 | the game averages do not depend on the order of the games: a reordered batch has the same averages |
| Simulation.GameThrowsSum | statistics/stats.py:144-146 | the listed throw counts add up to the games' summed throws |
| Simulation.AverageOfFinishedGames | statistics/stats.py:126-148 | when every game ended at or above the stop points, so does the mean kept score; the mean throw count times the number of games is their summed throws |
| Simulation.AverageGamesReachStop | statistics/stats.py:115-148 | for a finished batch, the mean kept score is at or above the game stop points, the batch holds the requested number of games, and the mean throw count times that number is the number of draws consumed |
| Simulation.Draws | statistics/stats.py:66 | one draw per pick, and each draw is the dataset action at the index that pick names |
| Simulation.EveryStreamDrawn | statistics/stats.py:66 | every stream of dataset actions is what some valid picks draw, so properties stated over picks cover every possible sequence of draws |
| Simulation.WithShares | statistics/stats.py:178-185 | the report carries the given counters and averages; each of the four shares times the action count is its own counter (point gain: increases, any stop, lost round, reset); the point-gain and any-stop shares sum to 1, lost-round and reset shares together are at most the any-stop share, and the point-gain share is in (0, 1] |
| Simulation.RunStats | statistics/stats.py:150-185 | no increase actions, or no rounds requested, is an error; on success the counters are the dataset's, each share times the action count is its own counter, the point-gain and any-stop shares sum to 1, the lost-round and reset shares together are at most the any-stop share, and the point-gain share is in (0, 1] |
| Simulation.RunStatsOutcome | statistics/stats.py:157-176 | statistics are produced if and only if the dataset has an increase, both repeat counts are positive and both simulations end on the draws; the report then holds the mean increase value and the averages of the round batch and of the game batch on the draws after it; otherwise a stream that runs out gives `StreamExhausted` and a game repeat count of 0 or below gives `EmptyMean` |
| Simulation.RunStatsShares | statistics/stats.py:178-185 | on success, in terms of the dataset, each reported share is its number of actions over the number of actions: increases, non-increases, lost rounds and resets |
| Simulation.ParsedDatasetRoundAverages | statistics/stats.py:162-168 | for a parsed dataset, the reported mean final round score lies between 0 and the mean total round score |

## Left out

- Reading the dataset file, the argument parser, `main` and the exit codes
  (`__main__.py:7-16`, `__main__.py:40-57`) are I/O; `ParseLines` takes the
  file's lines.
- The random generator and its seed (`stats.py:24-25`, `stats.py:66`) are
  global mutable state. They are replaced by an explicit stream of draws: a
  stream of actions for one round or game, and a stream of indices into the
  dataset for `RunStats`.
- `statistics.fmean` and the share divisions are floating point. They are
  modelled as exact rationals (`real`), so float rounding is not modelled.
- `__repr__` (`stats.py:187-219`) is text rendering with float rounding.
- The `config` module is not part of this model. Every parameter is passed
  explicitly.
- Whitespace and digits are ASCII only. Python's `strip` and `isdigit` also
  accept other Unicode characters.
- Termination of the simulation loops cannot be proved, and the source does
  not guard it. The model returns `None` when the stream ends first, and
  every property is stated for finished runs. A game whose round consumes
  no draw also returns `None`, because the source loops forever on it.
- `RoundStopReason` is not part of this model's source text, so whether it
  has a member with value `-----` is unknown. If it has none,
  `RoundStopReason(chosen_action.symbol.value)` (`stats.py:72`) raises
  `ValueError` when a lose-game action is drawn, and nothing catches it:
  `main` runs at `__main__.py:57`, outside the `try`. The model assumes the
  member exists and gives `Stopped(LoseGame)`.
- `RoundStopReason` and `GameResult` are not part of this model's source
  text. They are defined from their use in `stats.py`. The round-less
  `GameResult` that `average_many_games` returns is the separate record
  `GameAverages`.
