/** `simulate_game` with the random draws supplied as a stream: play rounds
    on the remaining stream while the kept score is below the game's stop
    points. */
module Game {
  import opened Wrappers
  import opened Actions
  import opened Round

  /** The kept score after a round: the round's final points are banked on
      Quit, a reset wipes the score, any other stop leaves it as it was. */
  function KeepScore(kept: int, round: RoundResult): (k: int)
    ensures round.stopReason != Quit ==> k == kept || k == 0
    ensures round.finalPoints >= 0 && k < kept ==> k == 0 && round.stopReason == Stopped(ResetScore)
    ensures round.stopReason == Stopped(ResetScore) ==> k == 0
  {
    match round.stopReason
    case Quit => kept + round.finalPoints
    case Stopped(ResetScore) => 0
    case Stopped(_) => kept
  }

  /** The kept score after playing `rounds` in order from `kept`. */
  function KeptAfter(kept: int, rounds: seq<RoundResult>): int
    decreases |rounds|
  {
    if |rounds| == 0 then kept else KeptAfter(KeepScore(kept, rounds[0]), rounds[1..])
  }

  /** The kept score after one more round: raised by the round's final
      points on Quit, zero after a reset, unchanged after any other stop. */
  lemma {:induction false} KeptAfterSnoc(kept: int, rounds: seq<RoundResult>, r: RoundResult)
    ensures r.stopReason == Quit ==> KeptAfter(kept, rounds + [r]) == KeptAfter(kept, rounds) + r.finalPoints
    ensures r.stopReason == Stopped(ResetScore) ==> KeptAfter(kept, rounds + [r]) == 0
    ensures r.stopReason != Quit && r.stopReason != Stopped(ResetScore) ==>
      KeptAfter(kept, rounds + [r]) == KeptAfter(kept, rounds)
    decreases |rounds|
  {
    if |rounds| == 0 {
      assert rounds + [r] == [r];
    } else {
      assert (rounds + [r])[1..] == rounds[1..] + [r];
      KeptAfterSnoc(KeepScore(kept, rounds[0]), rounds[1..], r);
    }
  }

  /** One iteration of the game loop's body. */
  function AddRound(g: GameResult, r: RoundResult): GameResult
  {
    GameResult(
      g.rounds + [r],
      g.totalPoints + r.totalPoints,
      KeepScore(g.finalPoints, r),
      g.throwsCount + r.length,
      g.length + 1)
  }

  /** A finished game together with the number of draws it consumed. */
  datatype GameRun = GameRun(result: GameResult, used: nat)

  /** The game loop from the state `acc`. `None` means the game does not end
      on this stream: either the stream runs out inside a round, or a round
      consumes no draw at all, in which case it is the fresh round, the kept
      score stays put and the same empty round would repeat forever. */
  function GameLoop(draws: seq<Action>, roundStopPoints: int, gameStopPoints: int, acc: GameResult): (o: Option<GameRun>)
    ensures o.Some? ==> o.value.used <= |draws|
    ensures o.Some? ==> o.value.result.finalPoints >= gameStopPoints
    ensures o.Some? ==> o.value.result.throwsCount == acc.throwsCount + o.value.used
    ensures o.Some? ==> o.value.result.length - |o.value.result.rounds| == acc.length - |acc.rounds|
    decreases |draws|
  {
    if !(acc.finalPoints < gameStopPoints) then Some(GameRun(acc, 0))
    else match SimulateRound(draws, roundStopPoints)
      case None => None
      case Some(round) =>
        if round.used == 0 then None
        else match GameLoop(draws[round.used..], roundStopPoints, gameStopPoints, AddRound(acc, round.result))
          case None => None
          case Some(run) => Some(GameRun(run.result, run.used + round.used))
  }

  /** One game from the zero state. */
  function SimulateGame(draws: seq<Action>, roundStopPoints: int, gameStopPoints: int): (o: Option<GameRun>)
    ensures o.Some? ==> o.value.used <= |draws| && o.value.result.throwsCount == o.value.used
    ensures o.Some? ==> o.value.result.finalPoints >= gameStopPoints
    ensures o.Some? ==> o.value.result.length == |o.value.result.rounds|
  {
    GameLoop(draws, roundStopPoints, gameStopPoints, NewGame())
  }

  /** What a finished game loop did from `acc`: it appended the rounds played
      on the draws it consumed, added their totals and lengths, counted them,
      folded their stop reasons into the kept score, started every round
      below the game's stop points and ended at or above them. */
  lemma {:induction false} GameLoopOutcome(draws: seq<Action>, roundStopPoints: int, gameStopPoints: int, acc: GameResult)
    requires GameLoop(draws, roundStopPoints, gameStopPoints, acc).Some?
    ensures var run := GameLoop(draws, roundStopPoints, gameStopPoints, acc).value;
      var g := run.result;
      && |acc.rounds| <= |g.rounds|
      && g.rounds[..|acc.rounds|] == acc.rounds
      && var played := g.rounds[|acc.rounds|..];
      && PlaysRounds(draws[..run.used], roundStopPoints, played)
      && g.totalPoints == acc.totalPoints + SumTotals(played)
      && g.throwsCount == acc.throwsCount + SumLengths(played)
      && g.length == acc.length + |played|
      && g.finalPoints == KeptAfter(acc.finalPoints, played)
      && g.finalPoints >= gameStopPoints
      && forall k :: 0 <= k < |played| ==> KeptAfter(acc.finalPoints, played[..k]) < gameStopPoints
    decreases |draws|
  {
    var run := GameLoop(draws, roundStopPoints, gameStopPoints, acc).value;
    var g := run.result;
    if !(acc.finalPoints < gameStopPoints) {
      assert g == acc;
      assert g.rounds[|acc.rounds|..] == [];
      assert draws[..0] == [];
    } else {
      var round := SimulateRound(draws, roundStopPoints).value;
      var n := round.used;
      var acc' := AddRound(acc, round.result);
      var rest := draws[n..];
      var sub := GameLoop(rest, roundStopPoints, gameStopPoints, acc').value;
      GameLoopOutcome(rest, roundStopPoints, gameStopPoints, acc');
      assert g == sub.result && run.used == sub.used + n;
      var played := g.rounds[|acc.rounds|..];
      var played' := g.rounds[|acc'.rounds|..];
      PrefixCons(acc.rounds, round.result, g.rounds);
      assert rest[..sub.used] == draws[n..run.used];
      PlaysRoundsCons(draws, roundStopPoints, run.used, played');
      KeptBeforeCons(acc.finalPoints, gameStopPoints, round.result, played');
    }
  }

  /** Rounds that start with `prefix` and then `r` split into `prefix` and
      the rounds from `r` on. */
  lemma PrefixCons(prefix: seq<RoundResult>, r: RoundResult, rounds: seq<RoundResult>)
    requires |prefix| < |rounds| && rounds[..|prefix| + 1] == prefix + [r]
    ensures rounds[..|prefix|] == prefix
    ensures rounds[|prefix|..] == [r] + rounds[|prefix| + 1..]
  {
    assert rounds[..|prefix|] == rounds[..|prefix| + 1][..|prefix|];
    assert rounds[|prefix|] == rounds[..|prefix| + 1][|prefix|];
  }

  /** The kept score is below the stop points before every round of
      `[r] + rest` when it is below them now and before every round of
      `rest` once `r` is banked. */
  lemma KeptBeforeCons(kept: int, gameStopPoints: int, r: RoundResult, rest: seq<RoundResult>)
    requires kept < gameStopPoints
    requires forall k :: 0 <= k < |rest| ==> KeptAfter(KeepScore(kept, r), rest[..k]) < gameStopPoints
    ensures forall k :: 0 <= k < |[r] + rest| ==> KeptAfter(kept, ([r] + rest)[..k]) < gameStopPoints
  {
    forall k | 0 <= k < |[r] + rest|
      ensures KeptAfter(kept, ([r] + rest)[..k]) < gameStopPoints
    {
      if k > 0 {
        assert ([r] + rest)[..k][1..] == rest[..k - 1];
      }
    }
  }

  /** A finished game from the zero state: its rounds were played back to
      back on the draws it consumed, its total is the sum of their totals
      and of those draws' values, its throw count their summed length and
      the number of draws consumed, its length the number of rounds, and
      its kept score the fold of their stop reasons, which was below the
      stop points before every round and is at or above them at the end. */
  lemma GameOutcome(draws: seq<Action>, roundStopPoints: int, gameStopPoints: int)
    requires SimulateGame(draws, roundStopPoints, gameStopPoints).Some?
    ensures var run := SimulateGame(draws, roundStopPoints, gameStopPoints).value;
      var g := run.result;
      && PlaysRounds(draws[..run.used], roundStopPoints, g.rounds)
      && g.totalPoints == SumTotals(g.rounds) == TotalValue(draws[..run.used])
      && g.throwsCount == SumLengths(g.rounds) == run.used
      && g.length == |g.rounds|
      && g.finalPoints == KeptAfter(0, g.rounds)
      && g.finalPoints >= gameStopPoints
      && forall k :: 0 <= k < |g.rounds| ==> KeptAfter(0, g.rounds[..k]) < gameStopPoints
  {
    var run := SimulateGame(draws, roundStopPoints, gameStopPoints).value;
    GameLoopOutcome(draws, roundStopPoints, gameStopPoints, NewGame());
    assert run.result.rounds[0..] == run.result.rounds;
    PlaysRoundsConsumption(draws[..run.used], roundStopPoints, run.result.rounds);
  }

  /** The game state after the loop body ran once for each of `rounds`,
      stated field by field: the rounds appended, their totals and lengths
      added, their number counted and their stop reasons folded into the
      kept score. */
  function AfterRounds(acc: GameResult, rounds: seq<RoundResult>): GameResult
  {
    GameResult(
      acc.rounds + rounds,
      acc.totalPoints + SumTotals(rounds),
      KeptAfter(acc.finalPoints, rounds),
      acc.throwsCount + SumLengths(rounds),
      acc.length + |rounds|)
  }

  /** The result of a new game after exactly `rounds`: `AfterRounds` from
      the zero state, with the rounds list itself in place of `[] + rounds`. */
  function Played(rounds: seq<RoundResult>): GameResult
  {
    GameResult(rounds, SumTotals(rounds), KeptAfter(0, rounds), SumLengths(rounds), |rounds|)
  }

  /** Rounds that draw nothing are the fresh round, which banks nothing on
      Quit: however many of them are played, the kept score stays put. */
  lemma {:induction false} FreshRoundsKeep(draws: seq<Action>, roundStopPoints: int, kept: int, rounds: seq<RoundResult>)
    requires !KeepsDrawing(roundStopPoints, 0)
    requires PlaysRounds(draws, roundStopPoints, rounds)
    ensures KeptAfter(kept, rounds) == kept
    decreases |rounds|
  {
    if |rounds| > 0 {
      assert SimulateRound(draws, roundStopPoints) == Some(RoundRun(RoundResult(0, 0, 0, Quit), 0));
      assert draws[0..] == draws;
      FreshRoundsKeep(draws, roundStopPoints, kept, rounds[1..]);
    }
  }

  /** The converse of `GameLoopOutcome`: when the first `n` draws play
      rounds that start below the stop points and end at or above them, the
      loop finishes on exactly those draws with exactly those rounds. */
  lemma {:induction false} GameLoopCompletes(draws: seq<Action>, roundStopPoints: int, gameStopPoints: int,
                                             acc: GameResult, rounds: seq<RoundResult>, n: nat)
    requires n <= |draws| && PlaysRounds(draws[..n], roundStopPoints, rounds)
    requires forall k :: 0 <= k < |rounds| ==> KeptAfter(acc.finalPoints, rounds[..k]) < gameStopPoints
    requires KeptAfter(acc.finalPoints, rounds) >= gameStopPoints
    ensures GameLoop(draws, roundStopPoints, gameStopPoints, acc) == Some(GameRun(AfterRounds(acc, rounds), n))
    decreases |rounds|
  {
    if |rounds| == 0 {
      assert |draws[..n]| == 0;
      assert acc.rounds + rounds == acc.rounds;
    } else {
      assert rounds[..0] == [];
      var prefix := draws[..n];
      var run := SimulateRound(prefix, roundStopPoints).value;
      var u := run.used;
      assert SimulateRound(draws, roundStopPoints) == Some(run) by {
        assert prefix[..u] == draws[..u];
        RoundPrefix(prefix, draws, roundStopPoints);
      }
      if u == 0 {
        FreshRoundsKeep(prefix, roundStopPoints, acc.finalPoints, rounds);
        assert false;
      }
      var acc' := AddRound(acc, rounds[0]);
      var rest := rounds[1..];
      var after := GameRun(AfterRounds(acc', rest), n - u);
      assert GameLoop(draws[u..], roundStopPoints, gameStopPoints, acc') == Some(after) by {
        assert prefix[u..] == draws[u..][..n - u];
        forall k | 0 <= k < |rest|
          ensures KeptAfter(acc'.finalPoints, rest[..k]) < gameStopPoints
        {
          assert rounds[..k + 1][1..] == rest[..k];
        }
        GameLoopCompletes(draws[u..], roundStopPoints, gameStopPoints, acc', rest, n - u);
      }
      GameLoopStep(draws, roundStopPoints, gameStopPoints, acc, run, after);
      AfterRoundsCons(acc, rounds);
    }
  }

  /** One pass of the loop body: below the stop points, a round that
      consumes draws is appended and the loop goes on after it. */
  lemma GameLoopStep(draws: seq<Action>, roundStopPoints: int, gameStopPoints: int,
                     acc: GameResult, round: RoundRun, after: GameRun)
    requires acc.finalPoints < gameStopPoints
    requires SimulateRound(draws, roundStopPoints) == Some(round) && round.used > 0
    requires GameLoop(draws[round.used..], roundStopPoints, gameStopPoints, AddRound(acc, round.result)) == Some(after)
    ensures GameLoop(draws, roundStopPoints, gameStopPoints, acc) == Some(GameRun(after.result, after.used + round.used))
  {
  }

  /** Appending the first round, then the others, is appending them all. */
  lemma AfterRoundsCons(acc: GameResult, rounds: seq<RoundResult>)
    requires |rounds| > 0
    ensures AfterRounds(AddRound(acc, rounds[0]), rounds[1..]) == AfterRounds(acc, rounds)
  {
    assert acc.rounds + [rounds[0]] + rounds[1..] == acc.rounds + rounds;
  }

  /** A game ends exactly on the draws that play rounds from the zero state
      until the kept score first reaches the stop points, and its result is
      those rounds with their sums, count and kept score. */
  lemma GameCompletes(draws: seq<Action>, roundStopPoints: int, gameStopPoints: int, rounds: seq<RoundResult>, n: nat)
    requires n <= |draws| && PlaysRounds(draws[..n], roundStopPoints, rounds)
    requires forall k :: 0 <= k < |rounds| ==> KeptAfter(0, rounds[..k]) < gameStopPoints
    requires KeptAfter(0, rounds) >= gameStopPoints
    ensures SimulateGame(draws, roundStopPoints, gameStopPoints) == Some(GameRun(Played(rounds), n))
  {
    GameLoopCompletes(draws, roundStopPoints, gameStopPoints, NewGame(), rounds, n);
    assert [] + rounds == rounds;
  }

  /** A game returns `run` if and only if the run's rounds are played back
      to back on the draws it consumed, keep the score below the stop points
      before each of them and reach the stop points after the last, and its
      aggregates are those of a new game after exactly those rounds. */
  lemma GameExactly(draws: seq<Action>, roundStopPoints: int, gameStopPoints: int, run: GameRun)
    ensures SimulateGame(draws, roundStopPoints, gameStopPoints) == Some(run)
        <==> && run.used <= |draws| && PlaysRounds(draws[..run.used], roundStopPoints, run.result.rounds)
             && (forall k :: 0 <= k < |run.result.rounds| ==> KeptAfter(0, run.result.rounds[..k]) < gameStopPoints)
             && KeptAfter(0, run.result.rounds) >= gameStopPoints
             && run.result == Played(run.result.rounds)
  {
    var rounds := run.result.rounds;
    if SimulateGame(draws, roundStopPoints, gameStopPoints) == Some(run) {
      assert && run.used <= |draws| && PlaysRounds(draws[..run.used], roundStopPoints, rounds)
             && (forall k :: 0 <= k < |rounds| ==> KeptAfter(0, rounds[..k]) < gameStopPoints)
             && KeptAfter(0, rounds) >= gameStopPoints by {
        GameOutcome(draws, roundStopPoints, gameStopPoints);
      }
      assert run.result == Played(rounds) by {
        GameOutcome(draws, roundStopPoints, gameStopPoints);
      }
    }
    if && run.used <= |draws| && PlaysRounds(draws[..run.used], roundStopPoints, rounds)
       && (forall k :: 0 <= k < |rounds| ==> KeptAfter(0, rounds[..k]) < gameStopPoints)
       && KeptAfter(0, rounds) >= gameStopPoints
       && run.result == Played(rounds)
    {
      assert SimulateGame(draws, roundStopPoints, gameStopPoints) == Some(run) by {
        GameCompletes(draws, roundStopPoints, gameStopPoints, rounds, run.used);
      }
    }
  }

  /** A finished game depends only on the draws it consumed: any stream
      that starts with those draws yields the same game. */
  lemma GamePrefix(draws: seq<Action>, other: seq<Action>, roundStopPoints: int, gameStopPoints: int)
    requires SimulateGame(draws, roundStopPoints, gameStopPoints).Some?
    requires var used := SimulateGame(draws, roundStopPoints, gameStopPoints).value.used;
      used <= |other| && other[..used] == draws[..used]
    ensures SimulateGame(other, roundStopPoints, gameStopPoints) == SimulateGame(draws, roundStopPoints, gameStopPoints)
  {
    var run := SimulateGame(draws, roundStopPoints, gameStopPoints).value;
    var rounds, n := run.result.rounds, run.used;
    assert PlaysRounds(draws[..n], roundStopPoints, rounds)
      && (forall k :: 0 <= k < |rounds| ==> KeptAfter(0, rounds[..k]) < gameStopPoints)
      && KeptAfter(0, rounds) >= gameStopPoints
    by {
      GameOutcome(draws, roundStopPoints, gameStopPoints);
    }
    GameCompletes(other, roundStopPoints, gameStopPoints, rounds, n);
    GameCompletes(draws, roundStopPoints, gameStopPoints, rounds, n);
  }

  /** With game stop points of 0 or below the loop never runs: no round is
      played and no draw is consumed. */
  lemma NonPositiveGameThreshold(draws: seq<Action>, roundStopPoints: int, gameStopPoints: int)
    requires gameStopPoints <= 0
    ensures SimulateGame(draws, roundStopPoints, gameStopPoints) == Some(GameRun(NewGame(), 0))
  {
  }

  /** With the round threshold "never" (-1) no round ends with Quit, so the
      kept score is never raised: it stays below positive game stop points
      and the game never ends, whatever the draws. */
  lemma {:induction false} NeverThresholdGameNeverEnds(draws: seq<Action>, gameStopPoints: int, acc: GameResult)
    requires 0 < gameStopPoints && acc.finalPoints < gameStopPoints
    ensures GameLoop(draws, -1, gameStopPoints, acc).None?
    decreases |draws|
  {
    match SimulateRound(draws, -1)
    case None =>
    case Some(round) =>
      NeverThresholdNeverQuits(draws);
      if round.used > 0 {
        NeverThresholdGameNeverEnds(draws[round.used..], gameStopPoints, AddRound(acc, round.result));
      }
  }

  /** With a round threshold of 0 or below other than -1, every round draws
      nothing and banks nothing, so a game with positive stop points never
      ends. */
  lemma EmptyRoundsNeverEndGame(draws: seq<Action>, roundStopPoints: int, gameStopPoints: int)
    requires roundStopPoints <= 0 && roundStopPoints != -1 && 0 < gameStopPoints
    ensures SimulateGame(draws, roundStopPoints, gameStopPoints).None?
  {
    NonPositiveThreshold(draws, roundStopPoints);
  }
}
