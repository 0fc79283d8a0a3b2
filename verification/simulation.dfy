/** Repeated simulations and the statistics `run_stats` derives from them.
    `statistics.fmean` is modelled as the exact rational mean, and the
    probability ratios as exact fractions. */
module Simulation {
  import opened Wrappers
  import opened Actions
  import opened Counters
  import opened Round
  import opened Game
  import Dataset

  /** The number of iterations of `range(n)`: none when `n` is negative. */
  function Repeats(n: int): nat
  {
    if n < 0 then 0 else n
  }

  /** Several rounds played back to back, and the draws they consumed. */
  datatype RoundsRun = RoundsRun(results: seq<RoundResult>, used: nat)

  /** `simulate_many_rounds`: `count` rounds, each on the stream left by
      the previous one. */
  function SimulateManyRounds(draws: seq<Action>, count: nat, stopPoints: int): (o: Option<RoundsRun>)
    ensures o.Some? ==> |o.value.results| == count && o.value.used <= |draws|
  {
    if count == 0 then Some(RoundsRun([], 0))
    else match SimulateRound(draws, stopPoints)
      case None => None
      case Some(run) =>
        match SimulateManyRounds(draws[run.used..], count - 1, stopPoints)
        case None => None
        case Some(rest) => Some(RoundsRun([run.result] + rest.results, run.used + rest.used))
  }

  /** The rounds of a batch are exactly the rounds played one after the
      other on the draws the batch consumed. */
  lemma {:induction false} ManyRoundsPlay(draws: seq<Action>, count: nat, stopPoints: int)
    requires SimulateManyRounds(draws, count, stopPoints).Some?
    ensures var batch := SimulateManyRounds(draws, count, stopPoints).value;
      PlaysRounds(draws[..batch.used], stopPoints, batch.results)
  {
    var batch := SimulateManyRounds(draws, count, stopPoints).value;
    if count == 0 {
      assert draws[..0] == [];
    } else {
      var run := SimulateRound(draws, stopPoints).value;
      var rest := SimulateManyRounds(draws[run.used..], count - 1, stopPoints).value;
      ManyRoundsPlay(draws[run.used..], count - 1, stopPoints);
      assert draws[run.used..][..rest.used] == draws[run.used..batch.used];
      PlaysRoundsCons(draws, stopPoints, batch.used, rest.results);
    }
  }

  /** The converse of `ManyRoundsPlay`: rounds played back to back on the
      first `n` draws are the batch of that many rounds. */
  lemma {:induction false} ManyRoundsComplete(draws: seq<Action>, stopPoints: int, rounds: seq<RoundResult>, n: nat)
    requires n <= |draws| && PlaysRounds(draws[..n], stopPoints, rounds)
    ensures SimulateManyRounds(draws, |rounds|, stopPoints) == Some(RoundsRun(rounds, n))
    decreases |rounds|
  {
    if |rounds| == 0 {
      assert |draws[..n]| == 0;
    } else {
      var prefix := draws[..n];
      var run := SimulateRound(prefix, stopPoints).value;
      var u := run.used;
      assert prefix[..u] == draws[..u];
      RoundPrefix(prefix, draws, stopPoints);
      assert prefix[u..] == draws[u..][..n - u];
      ManyRoundsComplete(draws[u..], stopPoints, rounds[1..], n - u);
      assert [rounds[0]] + rounds[1..] == rounds;
    }
  }

  /** A batch of `count` rounds is exactly a list of `count` rounds played
      back to back on the draws it consumed. */
  lemma ManyRoundsExactly(draws: seq<Action>, count: nat, stopPoints: int, rounds: seq<RoundResult>, n: nat)
    ensures SimulateManyRounds(draws, count, stopPoints) == Some(RoundsRun(rounds, n))
        <==> n <= |draws| && |rounds| == count && PlaysRounds(draws[..n], stopPoints, rounds)
  {
    if SimulateManyRounds(draws, count, stopPoints) == Some(RoundsRun(rounds, n)) {
      ManyRoundsPlay(draws, count, stopPoints);
    }
    if n <= |draws| && |rounds| == count && PlaysRounds(draws[..n], stopPoints, rounds) {
      ManyRoundsComplete(draws, stopPoints, rounds, n);
    }
  }

  /** Several games played back to back, and the draws they consumed. */
  datatype GamesRun = GamesRun(results: seq<GameResult>, used: nat)

  /** The summed throw counts of a list of games. */
  function SumThrows(games: seq<GameResult>): int
  {
    if |games| == 0 then 0 else games[0].throwsCount + SumThrows(games[1..])
  }

  /** One game on a stream, as a function value. The batch loop below and
      its lemmas are stated for any such function, and rely only on the
      properties `Bounded`, `Finishes` and `PrefixStable` of it. */
  type Play = seq<Action> -> Option<GameRun>

  /** `simulate_game` with fixed stop points. */
  function GamePlay(roundStopPoints: int, gameStopPoints: int): Play
  {
    d => SimulateGame(d, roundStopPoints, gameStopPoints)
  }

  /** A game consumes at most the stream. */
  ghost predicate Bounded(play: Play)
  {
    forall d :: play(d).Some? ==> play(d).value.used <= |d|
  }

  /** A game ends at or above the stop points, throws every draw it
      consumed, and counts its rounds. */
  ghost predicate Finishes(play: Play, gameStopPoints: int)
  {
    forall d :: play(d).Some? ==>
      && play(d).value.result.throwsCount == play(d).value.used
      && play(d).value.result.finalPoints >= gameStopPoints
      && play(d).value.result.length == |play(d).value.result.rounds|
  }

  /** `e` starts with the draws that the game on `d` consumed. */
  ghost predicate SameStart(play: Play, d: seq<Action>, e: seq<Action>)
  {
    && play(d).Some? && play(d).value.used <= |d| && play(d).value.used <= |e|
    && e[..play(d).value.used] == d[..play(d).value.used]
  }

  /** A game depends only on the draws it consumed. */
  ghost predicate PrefixStable(play: Play)
  {
    forall d, e {:trigger SameStart(play, d, e)} :: SameStart(play, d, e) ==> play(e) == play(d)
  }

  /** `simulate_game` has the three properties the batch loop relies on. */
  lemma GamePlayFacts(roundStopPoints: int, gameStopPoints: int)
    ensures Bounded(GamePlay(roundStopPoints, gameStopPoints))
    ensures Finishes(GamePlay(roundStopPoints, gameStopPoints), gameStopPoints)
    ensures PrefixStable(GamePlay(roundStopPoints, gameStopPoints))
  {
    var play := GamePlay(roundStopPoints, gameStopPoints);
    forall d, e | SameStart(play, d, e)
      ensures play(e) == play(d)
    {
      GamePrefix(d, e, roundStopPoints, gameStopPoints);
    }
  }

  /** The loop of `simulate_many_games`: `count` games, each on the stream
      left by the previous one. */
  function ManyGames(play: Play, draws: seq<Action>, count: nat): Option<GamesRun>
    requires Bounded(play)
  {
    if count == 0 then Some(GamesRun([], 0))
    else match play(draws)
      case None => None
      case Some(run) =>
        match ManyGames(play, draws[run.used..], count - 1)
        case None => None
        case Some(rest) => Some(GamesRun([run.result] + rest.results, run.used + rest.used))
  }

  /** What every finished batch of games satisfies. */
  lemma {:induction false} ManyGamesFacts(play: Play, draws: seq<Action>, count: nat, gameStopPoints: int)
    requires Bounded(play) && Finishes(play, gameStopPoints)
    ensures var o := ManyGames(play, draws, count);
      && (o.Some? ==> |o.value.results| == count && o.value.used <= |draws|)
      && (o.Some? ==> SumThrows(o.value.results) == o.value.used)
      && (o.Some? ==> forall i :: 0 <= i < count ==>
            o.value.results[i].finalPoints >= gameStopPoints && o.value.results[i].length == |o.value.results[i].rounds|)
  {
    var o := ManyGames(play, draws, count);
    if count > 0 && o.Some? {
      var run := play(draws).value;
      var rest := ManyGames(play, draws[run.used..], count - 1).value;
      ManyGamesFacts(play, draws[run.used..], count - 1, gameStopPoints);
      assert o.value.results[1..] == rest.results;
      forall i | 1 <= i < count
        ensures o.value.results[i] == rest.results[i - 1]
      {
      }
    }
  }

  /** `simulate_many_games`: `count` games, each on the stream left by the
      previous one. Every game ends at or above the stop points, counts its
      own rounds, and between them the games threw every draw consumed. */
  function SimulateManyGames(draws: seq<Action>, count: nat, roundStopPoints: int, gameStopPoints: int): (o: Option<GamesRun>)
    ensures o.Some? ==> |o.value.results| == count && o.value.used <= |draws|
    ensures o.Some? ==> SumThrows(o.value.results) == o.value.used
    ensures o.Some? ==> forall i :: 0 <= i < count ==>
      o.value.results[i].finalPoints >= gameStopPoints && o.value.results[i].length == |o.value.results[i].rounds|
  {
    GamePlayFacts(roundStopPoints, gameStopPoints);
    ManyGamesFacts(GamePlay(roundStopPoints, gameStopPoints), draws, count, gameStopPoints);
    ManyGames(GamePlay(roundStopPoints, gameStopPoints), draws, count)
  }

  /** `games` are the successive games `play` plays on the stream `draws`,
      each starting where the previous one ended, and together they consume
      the whole stream. */
  predicate Plays(play: Play, draws: seq<Action>, games: seq<GameResult>)
    decreases |games|
  {
    if |games| == 0 then |draws| == 0
    else match play(draws)
      case None => false
      case Some(run) =>
        run.used <= |draws| && run.result == games[0] && Plays(play, draws[run.used..], games[1..])
  }

  /** `games` are the successive games of `simulate_game` on `draws`. */
  predicate PlaysGames(draws: seq<Action>, roundStopPoints: int, gameStopPoints: int, games: seq<GameResult>)
  {
    Plays(GamePlay(roundStopPoints, gameStopPoints), draws, games)
  }

  /** Playing one more game before a run of games: the stream grows by the
      draws that game consumed. */
  lemma PlaysCons(play: Play, draws: seq<Action>, n: nat, games: seq<GameResult>)
    requires PrefixStable(play)
    requires play(draws).Some? && play(draws).value.used <= n <= |draws|
    requires Plays(play, draws[play(draws).value.used..n], games)
    ensures Plays(play, draws[..n], [play(draws).value.result] + games)
  {
    var run := play(draws).value;
    assert draws[..n][..run.used] == draws[..run.used];
    assert SameStart(play, draws, draws[..n]);
    assert draws[..n][run.used..] == draws[run.used..n];
    assert ([run.result] + games)[1..] == games;
  }

  /** The games of a batch are played one after the other on the draws it
      consumed, by induction on the count. */
  lemma {:induction false} ManyGamesPlays(play: Play, draws: seq<Action>, count: nat)
    requires Bounded(play) && PrefixStable(play)
    requires ManyGames(play, draws, count).Some?
    ensures var batch := ManyGames(play, draws, count).value;
      batch.used <= |draws| && Plays(play, draws[..batch.used], batch.results)
  {
    var batch := ManyGames(play, draws, count).value;
    if count == 0 {
      assert draws[..0] == [];
    } else {
      var run := play(draws).value;
      var rest := ManyGames(play, draws[run.used..], count - 1).value;
      assert batch == GamesRun([run.result] + rest.results, run.used + rest.used);
      ManyGamesPlays(play, draws[run.used..], count - 1);
      assert draws[run.used..][..rest.used] == draws[run.used..batch.used];
      PlaysCons(play, draws, batch.used, rest.results);
    }
  }

  /** The converse of `ManyGamesPlays`: games played back to back on the
      first `n` draws are the batch of that many games. */
  lemma {:induction false} ManyGamesComplete(play: Play, draws: seq<Action>, games: seq<GameResult>, n: nat)
    requires Bounded(play) && PrefixStable(play)
    requires n <= |draws| && Plays(play, draws[..n], games)
    ensures ManyGames(play, draws, |games|) == Some(GamesRun(games, n))
    decreases |games|
  {
    if |games| == 0 {
      assert |draws[..n]| == 0;
    } else {
      var prefix := draws[..n];
      var run := play(prefix).value;
      var u := run.used;
      assert prefix[..u] == draws[..u];
      assert SameStart(play, prefix, draws);
      assert prefix[u..] == draws[u..][..n - u];
      ManyGamesComplete(play, draws[u..], games[1..], n - u);
      assert [games[0]] + games[1..] == games;
    }
  }

  /** Each game of a batch is the game played on its own segment of the
      stream: the games are played one after the other on the draws the
      batch consumed. */
  lemma ManyGamesPlay(draws: seq<Action>, count: nat, roundStopPoints: int, gameStopPoints: int)
    requires SimulateManyGames(draws, count, roundStopPoints, gameStopPoints).Some?
    ensures var batch := SimulateManyGames(draws, count, roundStopPoints, gameStopPoints).value;
      PlaysGames(draws[..batch.used], roundStopPoints, gameStopPoints, batch.results)
  {
    GamePlayFacts(roundStopPoints, gameStopPoints);
    ManyGamesPlays(GamePlay(roundStopPoints, gameStopPoints), draws, count);
  }

  /** A batch of `count` games is exactly a list of `count` games played
      back to back on the draws it consumed. */
  lemma ManyGamesExactly(draws: seq<Action>, count: nat, roundStopPoints: int, gameStopPoints: int,
                         games: seq<GameResult>, n: nat)
    ensures SimulateManyGames(draws, count, roundStopPoints, gameStopPoints) == Some(GamesRun(games, n))
        <==> n <= |draws| && |games| == count && PlaysGames(draws[..n], roundStopPoints, gameStopPoints, games)
  {
    GamePlayFacts(roundStopPoints, gameStopPoints);
    if SimulateManyGames(draws, count, roundStopPoints, gameStopPoints) == Some(GamesRun(games, n)) {
      ManyGamesPlay(draws, count, roundStopPoints, gameStopPoints);
    }
    if n <= |draws| && |games| == count && PlaysGames(draws[..n], roundStopPoints, gameStopPoints, games) {
      ManyGamesComplete(GamePlay(roundStopPoints, gameStopPoints), draws, games, n);
    }
  }

  /** The sum of a list of integers. */
  function Sum(xs: seq<int>): int
  {
    if |xs| == 0 then 0 else xs[0] + Sum(xs[1..])
  }

  /** `statistics.fmean`, exactly: the sum divided by the number of values.
      It is only defined on a non-empty list; `statistics.fmean` raises an
      error on an empty one. */
  function Mean(xs: seq<int>): (m: real)
    requires |xs| > 0
    ensures m * |xs| as real == Sum(xs) as real
  {
    Sum(xs) as real / |xs| as real
  }

  /** One field of every element of a list, in order. */
  function Project<T>(xs: seq<T>, f: T -> int): seq<int>
  {
    seq(|xs|, i requires 0 <= i < |xs| => f(xs[i]))
  }

  /** Projecting two lists joined is joining their projections. */
  lemma ProjectAppend<T>(a: seq<T>, b: seq<T>, f: T -> int)
    ensures Project(a + b, f) == Project(a, f) + Project(b, f)
  {
  }

  /** The sum of two lists joined is the sum of their sums. */
  lemma {:induction false} SumAppend(a: seq<int>, b: seq<int>)
    ensures Sum(a + b) == Sum(a) + Sum(b)
    decreases |a|
  {
    if |a| == 0 {
      assert a + b == b;
    } else {
      assert (a + b)[1..] == a[1..] + b;
      SumAppend(a[1..], b);
    }
  }

  /** A projected sum splits over a join. */
  lemma SumProjectAppend<T>(a: seq<T>, b: seq<T>, f: T -> int)
    ensures Sum(Project(a + b, f)) == Sum(Project(a, f)) + Sum(Project(b, f))
  {
    ProjectAppend(a, b, f);
    SumAppend(Project(a, f), Project(b, f));
  }

  /** A projected sum is the first field plus the sum over the rest. */
  lemma SumProjectCons<T>(x: T, rest: seq<T>, f: T -> int)
    ensures Sum(Project([x] + rest, f)) == f(x) + Sum(Project(rest, f))
  {
    assert Project([x] + rest, f)[1..] == Project(rest, f);
  }

  /** Taking the first element off one of two lists with the same
      elements, and one copy of it off the other, leaves lists with the
      same elements. */
  lemma MultisetRemove<T>(xs: seq<T>, ys: seq<T>, j: nat)
    requires |xs| > 0 && multiset(xs) == multiset(ys)
    requires j < |ys| && ys[j] == xs[0]
    ensures multiset(xs[1..]) == multiset(ys[..j] + ys[j + 1..])
  {
    var x, before, after := xs[0], ys[..j], ys[j + 1..];
    assert ys == before + [x] + after;
    assert xs == [x] + xs[1..];
    assert multiset(ys) - multiset{x} == multiset(before + after) by {
      assert multiset(ys) == multiset(before + after) + multiset{x};
    }
    assert multiset(xs) - multiset{x} == multiset(xs[1..]) by {
      assert multiset(xs) == multiset(xs[1..]) + multiset{x};
    }
  }

  /** Summing one field over a list does not depend on the order of the
      list: two lists with the same elements give the same sum. */
  lemma {:induction false} SumProjectPermutation<T>(xs: seq<T>, ys: seq<T>, f: T -> int)
    requires multiset(xs) == multiset(ys)
    ensures Sum(Project(xs, f)) == Sum(Project(ys, f))
    decreases |xs|
  {
    if |xs| == 0 {
      assert |ys| == |multiset(ys)| == 0;
    } else {
      var x := xs[0];
      assert x in multiset(ys);
      var j :| 0 <= j < |ys| && ys[j] == x;
      var before, after := ys[..j], ys[j + 1..];
      MultisetRemove(xs, ys, j);
      SumProjectPermutation(xs[1..], before + after, f);
      assert Sum(Project(xs, f)) == f(x) + Sum(Project(xs[1..], f)) by {
        assert xs == [x] + xs[1..];
        SumProjectCons(x, xs[1..], f);
      }
      assert Sum(Project(ys, f)) == Sum(Project(before, f)) + f(x) + Sum(Project(after, f)) by {
        assert ys == before + ([x] + after);
        SumProjectAppend(before, [x] + after, f);
        SumProjectCons(x, after, f);
      }
      SumProjectAppend(before, after, f);
    }
  }

  /** The mean does not depend on the order of the values. */
  lemma MeanPermutation(xs: seq<int>, ys: seq<int>)
    requires |xs| > 0 && multiset(xs) == multiset(ys)
    ensures |ys| > 0 && Mean(xs) == Mean(ys)
  {
    assert |xs| == |multiset(xs)| == |multiset(ys)| == |ys|;
    var id := (x: int) => x;
    assert Project(xs, id) == xs;
    assert Project(ys, id) == ys;
    SumProjectPermutation(xs, ys, id);
  }

  /** A lower bound on every value bounds their sum from below. */
  lemma {:induction false} SumLowerBound(xs: seq<int>, lo: int)
    requires forall i :: 0 <= i < |xs| ==> lo <= xs[i]
    ensures lo * |xs| <= Sum(xs)
  {
    if |xs| > 0 {
      SumLowerBound(xs[1..], lo);
    }
  }

  /** An upper bound on every value bounds their sum from above. */
  lemma {:induction false} SumUpperBound(xs: seq<int>, hi: int)
    requires forall i :: 0 <= i < |xs| ==> xs[i] <= hi
    ensures Sum(xs) <= hi * |xs|
  {
    if |xs| > 0 {
      SumUpperBound(xs[1..], hi);
    }
  }

  /** The mean lies between any lower and upper bound of the values. */
  lemma MeanBounds(xs: seq<int>, lo: int, hi: int)
    requires |xs| > 0
    requires forall i :: 0 <= i < |xs| ==> lo <= xs[i] <= hi
    ensures lo as real <= Mean(xs) <= hi as real
  {
    SumLowerBound(xs, lo);
    SumUpperBound(xs, hi);
    var n := |xs| as real;
    var s := Sum(xs) as real;
    assert lo as real * n <= s;
    assert s <= hi as real * n;
    DivideBounds(s, n, lo as real, hi as real);
  }

  lemma DivideBounds(s: real, n: real, lo: real, hi: real)
    requires n > 0.0 && lo * n <= s <= hi * n
    ensures lo <= s / n <= hi
  {
    var m := s / n;
    assert m * n == s;
  }

  /** A lower bound on every value bounds the mean from below. */
  lemma MeanLowerBound(xs: seq<int>, lo: int)
    requires |xs| > 0
    requires forall i :: 0 <= i < |xs| ==> lo <= xs[i]
    ensures lo as real <= Mean(xs)
  {
    SumLowerBound(xs, lo);
    var n := |xs| as real;
    assert lo as real * n <= Mean(xs) * n;
  }

  /** The mean of one sample is that sample. */
  lemma MeanOfOne(x: int)
    ensures Mean([x]) == x as real
  {
    assert Sum([x]) == x + Sum([]);
  }

  /** Pointwise smaller values have a smaller sum. */
  lemma {:induction false} SumMonotone(xs: seq<int>, ys: seq<int>)
    requires |xs| == |ys|
    requires forall i :: 0 <= i < |xs| ==> xs[i] <= ys[i]
    ensures Sum(xs) <= Sum(ys)
  {
    if |xs| > 0 {
      SumMonotone(xs[1..], ys[1..]);
    }
  }

  /** The means of one batch of rounds, field by field, as `RoundResult`
      holds them after `average_many_rounds`. */
  datatype RoundAverages = RoundAverages(totalPoints: real, finalPoints: real, length: real)

  function RoundTotals(rounds: seq<RoundResult>): seq<int>
  {
    seq(|rounds|, i requires 0 <= i < |rounds| => rounds[i].totalPoints)
  }

  function RoundFinals(rounds: seq<RoundResult>): seq<int>
  {
    seq(|rounds|, i requires 0 <= i < |rounds| => rounds[i].finalPoints)
  }

  function RoundLengths(rounds: seq<RoundResult>): seq<int>
  {
    seq(|rounds|, i requires 0 <= i < |rounds| => rounds[i].length)
  }

  /** `average_many_rounds` after the simulation: each field averaged
      independently over the batch. */
  function AverageRounds(rounds: seq<RoundResult>): (r: RoundAverages)
    requires |rounds| > 0
    ensures var n := |rounds| as real;
      && r.totalPoints * n == Sum(RoundTotals(rounds)) as real
      && r.finalPoints * n == Sum(RoundFinals(rounds)) as real
      && r.length * n == Sum(RoundLengths(rounds)) as real
  {
    RoundAverages(Mean(RoundTotals(rounds)), Mean(RoundFinals(rounds)), Mean(RoundLengths(rounds)))
  }

  /** The round averages do not depend on the order of the rounds. */
  lemma AverageRoundsPermutation(rounds: seq<RoundResult>, others: seq<RoundResult>)
    requires |rounds| > 0 && multiset(rounds) == multiset(others)
    ensures |others| > 0 && AverageRounds(rounds) == AverageRounds(others)
  {
    assert |rounds| == |multiset(rounds)| == |multiset(others)| == |others|;
    var total, final, length := (r: RoundResult) => r.totalPoints, (r: RoundResult) => r.finalPoints, (r: RoundResult) => r.length;
    assert RoundTotals(rounds) == Project(rounds, total) && RoundTotals(others) == Project(others, total);
    assert RoundFinals(rounds) == Project(rounds, final) && RoundFinals(others) == Project(others, final);
    assert RoundLengths(rounds) == Project(rounds, length) && RoundLengths(others) == Project(others, length);
    SumProjectPermutation(rounds, others, total);
    SumProjectPermutation(rounds, others, final);
    SumProjectPermutation(rounds, others, length);
  }

  /** Averaging a batch of one round gives back that round's own values. */
  lemma AverageOfOneRound(r: RoundResult)
    ensures AverageRounds([r]) == RoundAverages(r.totalPoints as real, r.finalPoints as real, r.length as real)
  {
    assert RoundTotals([r]) == [r.totalPoints];
    assert RoundFinals([r]) == [r.finalPoints];
    assert RoundLengths([r]) == [r.length];
    MeanOfOne(r.totalPoints);
    MeanOfOne(r.finalPoints);
    MeanOfOne(r.length);
  }

  /** On draws with non-negative values, the average final points of a
      batch of rounds never exceed its average total points, and neither is
      negative. */
  lemma AverageFinalAtMostTotal(draws: seq<Action>, count: nat, stopPoints: int)
    requires forall k :: 0 <= k < |draws| ==> draws[k].value >= 0
    requires count > 0
    requires SimulateManyRounds(draws, count, stopPoints).Some?
    ensures var avg := AverageRounds(SimulateManyRounds(draws, count, stopPoints).value.results);
      0.0 <= avg.finalPoints <= avg.totalPoints
  {
    var batch := SimulateManyRounds(draws, count, stopPoints).value;
    var rs := batch.results;
    ManyRoundsPlay(draws, count, stopPoints);
    var consumed := draws[..batch.used];
    assert forall k :: 0 <= k < |consumed| ==> consumed[k] == draws[k];
    PlaysRoundsKeepAtMostTotal(consumed, stopPoints, rs);
    AverageKeptBounds(rs);
  }

  /** When every round keeps between 0 and its total points, so do the
      averages. */
  lemma AverageKeptBounds(rs: seq<RoundResult>)
    requires |rs| > 0
    requires forall i :: 0 <= i < |rs| ==> 0 <= rs[i].finalPoints <= rs[i].totalPoints
    ensures 0.0 <= AverageRounds(rs).finalPoints <= AverageRounds(rs).totalPoints
  {
    var finals, totals := RoundFinals(rs), RoundTotals(rs);
    SumMonotone(finals, totals);
    SumLowerBound(finals, 0);
    var n := |rs| as real;
    MeanMonotone(0.0, Sum(finals) as real, n);
    MeanMonotone(Sum(finals) as real, Sum(totals) as real, n);
  }

  /** Dividing by the same positive count keeps the order. */
  lemma MeanMonotone(s: real, t: real, n: real)
    requires n > 0.0 && s <= t
    ensures s / n <= t / n
  {
  }

  /** The means of one batch of games, as `average_many_games` returns them
      in a round-less `GameResult`. */
  datatype GameAverages = GameAverages(totalPoints: real, finalPoints: real, throwsCount: real, length: real)

  function GameTotals(games: seq<GameResult>): seq<int>
  {
    seq(|games|, i requires 0 <= i < |games| => games[i].totalPoints)
  }

  function GameFinals(games: seq<GameResult>): seq<int>
  {
    seq(|games|, i requires 0 <= i < |games| => games[i].finalPoints)
  }

  function GameThrows(games: seq<GameResult>): seq<int>
  {
    seq(|games|, i requires 0 <= i < |games| => games[i].throwsCount)
  }

  function GameLengths(games: seq<GameResult>): seq<int>
  {
    seq(|games|, i requires 0 <= i < |games| => games[i].length)
  }

  /** `average_many_games` after the simulation. */
  function AverageGames(games: seq<GameResult>): (r: GameAverages)
    requires |games| > 0
    ensures var n := |games| as real;
      && r.totalPoints * n == Sum(GameTotals(games)) as real
      && r.finalPoints * n == Sum(GameFinals(games)) as real
      && r.throwsCount * n == Sum(GameThrows(games)) as real
      && r.length * n == Sum(GameLengths(games)) as real
  {
    GameAverages(Mean(GameTotals(games)), Mean(GameFinals(games)), Mean(GameThrows(games)), Mean(GameLengths(games)))
  }

  /** The game averages do not depend on the order of the games. */
  lemma AverageGamesPermutation(games: seq<GameResult>, others: seq<GameResult>)
    requires |games| > 0 && multiset(games) == multiset(others)
    ensures |others| > 0 && AverageGames(games) == AverageGames(others)
  {
    assert |games| == |multiset(games)| == |multiset(others)| == |others|;
    var total, final := (g: GameResult) => g.totalPoints, (g: GameResult) => g.finalPoints;
    var throws, length := (g: GameResult) => g.throwsCount, (g: GameResult) => g.length;
    assert GameTotals(games) == Project(games, total) && GameTotals(others) == Project(others, total);
    assert GameFinals(games) == Project(games, final) && GameFinals(others) == Project(others, final);
    assert GameThrows(games) == Project(games, throws) && GameThrows(others) == Project(others, throws);
    assert GameLengths(games) == Project(games, length) && GameLengths(others) == Project(others, length);
    SumProjectPermutation(games, others, total);
    SumProjectPermutation(games, others, final);
    SumProjectPermutation(games, others, throws);
    SumProjectPermutation(games, others, length);
  }

  /** The listed throw counts add up to the games' summed throws. */
  lemma {:induction false} GameThrowsSum(games: seq<GameResult>)
    ensures Sum(GameThrows(games)) == SumThrows(games)
  {
    if |games| > 0 {
      assert GameThrows(games)[1..] == GameThrows(games[1..]);
      GameThrowsSum(games[1..]);
    }
  }

  /** Games that all ended at or above the stop points have a mean kept
      score at or above them, and their mean throw count times their number
      is their summed throws. */
  lemma AverageOfFinishedGames(games: seq<GameResult>, gameStopPoints: int, throws: int)
    requires |games| > 0
    requires forall i :: 0 <= i < |games| ==> gameStopPoints <= games[i].finalPoints
    requires SumThrows(games) == throws
    ensures gameStopPoints as real <= AverageGames(games).finalPoints
    ensures AverageGames(games).throwsCount * |games| as real == throws as real
  {
    MeanLowerBound(GameFinals(games), gameStopPoints);
    GameThrowsSum(games);
  }

  /** Every game of a finished batch ended at or above the stop points, so
      the mean kept score is at or above them too; and the mean throw count
      times the number of games is the number of draws the batch consumed. */
  lemma AverageGamesReachStop(draws: seq<Action>, count: nat, roundStopPoints: int, gameStopPoints: int, batch: GamesRun)
    requires count > 0
    requires SimulateManyGames(draws, count, roundStopPoints, gameStopPoints) == Some(batch)
    ensures gameStopPoints as real <= AverageGames(batch.results).finalPoints
    ensures |batch.results| == count
    ensures AverageGames(batch.results).throwsCount * |batch.results| as real == batch.used as real
  {
    AverageOfFinishedGames(batch.results, gameStopPoints, batch.used);
  }


  /** The simulation parameters. The random seed is not among them: the draw
      stream replaces the seeded generator. */
  datatype Parameters = Parameters(
    roundSimulationRepeats: int,
    gameSimulationRepeats: int,
    roundStopPoints: int,
    gameStopPoints: int)

  /** Why the statistics cannot be produced: a mean over an empty list (where
      `statistics.fmean` raises `StatisticsError`), or a simulation that does not end
      on the supplied draws. */
  datatype StatsError = EmptyMean | StreamExhausted

  /** The statistics of `run_stats`, next to the dataset counters. */
  datatype Report = Report(
    counts: DatasetCounts,
    averagePointGain: real,
    rounds: RoundAverages,
    games: GameAverages,
    chanceOfPointGain: real,
    chanceOfAnyRoundStop: real,
    chanceOfRoundStop: real,
    chanceOfResetScore: real)

  /** Whether every pick names an action of the dataset. */
  predicate ValidPicks(actions: seq<Action>, picks: seq<nat>)
  {
    forall k :: 0 <= k < |picks| ==> picks[k] < |actions|
  }

  /** The actions `random.choice(actions)` returns for the given picks. */
  function Draws(actions: seq<Action>, picks: seq<nat>): (d: seq<Action>)
    requires ValidPicks(actions, picks)
    ensures |d| == |picks|
    ensures forall k :: 0 <= k < |d| ==> d[k] == actions[picks[k]] && d[k] in actions
  {
    seq(|picks|, k requires 0 <= k < |picks| => actions[picks[k]])
  }

  /** The position of the first occurrence of `a` in `actions`. */
  function IndexOf(actions: seq<Action>, a: Action): (i: nat)
    requires a in actions
    ensures i < |actions| && actions[i] == a
  {
    if actions[0] == a then 0 else 1 + IndexOf(actions[1..], a)
  }

  /** Picks that draw exactly the stream `d`. */
  function PicksOf(actions: seq<Action>, d: seq<Action>): seq<nat>
    requires forall k :: 0 <= k < |d| ==> d[k] in actions
  {
    seq(|d|, k requires 0 <= k < |d| => IndexOf(actions, d[k]))
  }

  /** Every stream of dataset actions is drawn by some valid picks, so a
      statement for all picks covers every sequence of `random.choice`
      results. */
  lemma EveryStreamDrawn(actions: seq<Action>, d: seq<Action>)
    requires forall k :: 0 <= k < |d| ==> d[k] in actions
    ensures ValidPicks(actions, PicksOf(actions, d)) && Draws(actions, PicksOf(actions, d)) == d
  {
  }

  /** A share of the dataset, as an exact fraction. */
  function Chance(count: nat, total: nat): real
    requires total > 0
  {
    count as real / total as real
  }

  /** Shares of disjoint parts add up, and the whole dataset has share 1. */
  lemma ChanceSum(a: nat, b: nat, total: nat)
    requires total > 0
    ensures Chance(a, total) + Chance(b, total) == Chance(a + b, total)
    ensures Chance(total, total) == 1.0
  {
    var n := total as real;
    var x, y := a as real / n, b as real / n;
    assert x * n == a as real;
    assert y * n == b as real;
    assert (x + y) * n == (a + b) as real;
  }

  /** A larger count has a larger share. */
  lemma ChanceMonotone(a: nat, b: nat, total: nat)
    requires total > 0 && a <= b
    ensures Chance(a, total) <= Chance(b, total)
    ensures a > 0 ==> Chance(a, total) > 0.0
  {
    assert 0.0 <= a as real;
  }

  /** The four action shares of the report are the given counts divided by
      `total`: each share times `total` is its count. */
  ghost predicate SharesAre(r: Report, total: int, gains: int, stops: int, lost: int, resets: int)
  {
    var n := total as real;
    && r.chanceOfPointGain * n == gains as real
    && r.chanceOfAnyRoundStop * n == stops as real
    && r.chanceOfRoundStop * n == lost as real
    && r.chanceOfResetScore * n == resets as real
  }

  /** Each action share of the report is its own counter divided by the
      number of actions. */
  ghost predicate SharesOf(r: Report)
  {
    var c := r.counts;
    SharesAre(r, c.actionsCount, c.increaseScoreActionsCount, c.anyRoundStopActionsCount,
              c.roundStopActionsCount, c.resetScoreActionsCount)
  }

  /** The report of a dataset with at least one increase: the four action
      shares are the counters divided by the total. The point-gain and
      any-stop shares add up to 1, and the lost-round and reset shares
      together are at most the any-stop share. */
  function WithShares(c: DatasetCounts, gain: real, rounds: RoundAverages, games: GameAverages): (r: Report)
    requires 0 < c.increaseScoreActionsCount
    requires c.increaseScoreActionsCount + c.anyRoundStopActionsCount == c.actionsCount
    requires c.roundStopActionsCount + c.resetScoreActionsCount <= c.anyRoundStopActionsCount
    ensures r.counts == c && r.averagePointGain == gain && r.rounds == rounds && r.games == games
    ensures SharesOf(r)
    ensures r.chanceOfPointGain + r.chanceOfAnyRoundStop == 1.0
    ensures r.chanceOfRoundStop + r.chanceOfResetScore <= r.chanceOfAnyRoundStop
    ensures 0.0 < r.chanceOfPointGain <= 1.0
  {
    var n := c.actionsCount;
    ChanceSum(c.increaseScoreActionsCount, c.anyRoundStopActionsCount, n);
    ChanceSum(c.roundStopActionsCount, c.resetScoreActionsCount, n);
    ChanceMonotone(c.roundStopActionsCount + c.resetScoreActionsCount, c.anyRoundStopActionsCount, n);
    ChanceMonotone(c.increaseScoreActionsCount, n, n);
    Report(
      c,
      gain,
      rounds,
      games,
      Chance(c.increaseScoreActionsCount, n),
      Chance(c.anyRoundStopActionsCount, n),
      Chance(c.roundStopActionsCount, n),
      Chance(c.resetScoreActionsCount, n))
  }

  /** The values of the actions, in order. */
  function Values(actions: seq<Action>): seq<int>
  {
    seq(|actions|, i requires 0 <= i < |actions| => actions[i].value)
  }

  /** `Statistics.__init__` with `run_stats`, in the order of `stats.py`: the
      counters, the mean point gain (which fails on a dataset without
      increases), a batch of rounds, then a batch of games on the remaining
      draws, each averaged (which fails on an empty batch), and the action
      shares. */
  function RunStats(actions: seq<Action>, p: Parameters, picks: seq<nat>): (r: Result<Report, StatsError>)
    requires ValidPicks(actions, picks)
    ensures Count(actions, IncreaseScore) == 0 ==> r == Failure(EmptyMean)
    ensures Count(actions, IncreaseScore) > 0 && p.roundSimulationRepeats <= 0 ==> r == Failure(EmptyMean)
    ensures r.Success? ==> r.value.counts == Counts(actions)
    ensures r.Success? ==> SharesOf(r.value)
    ensures r.Success? ==> r.value.chanceOfPointGain + r.value.chanceOfAnyRoundStop == 1.0
    ensures r.Success? ==> r.value.chanceOfRoundStop + r.value.chanceOfResetScore <= r.value.chanceOfAnyRoundStop
    ensures r.Success? ==> 0.0 < r.value.chanceOfPointGain <= 1.0
  {
    var c := Counts(actions);
    if c.increaseScoreActionsCount == 0 then Failure(EmptyMean)
    else
      var gain := Mean(Values(c.increaseScoreActions));
      var draws := Draws(actions, picks);
      match SimulateManyRounds(draws, Repeats(p.roundSimulationRepeats), p.roundStopPoints)
      case None => Failure(StreamExhausted)
      case Some(batch) =>
        if |batch.results| == 0 then Failure(EmptyMean)
        else
          var roundAverages := AverageRounds(batch.results);
          match SimulateManyGames(draws[batch.used..], Repeats(p.gameSimulationRepeats), p.roundStopPoints, p.gameStopPoints)
          case None => Failure(StreamExhausted)
          case Some(games) =>
            if |games.results| == 0 then Failure(EmptyMean)
            else
              Success(WithShares(c, gain, roundAverages, AverageGames(games.results)))
  }

  /** When `run_stats` produces statistics, and what they are. It succeeds
      exactly when the dataset has an increase, both repeat counts are
      positive and both simulations end on the draws; the report then holds
      the mean increase value and the averages of the two batches. Otherwise
      the error names the first step that fails. */
  lemma RunStatsOutcome(actions: seq<Action>, p: Parameters, picks: seq<nat>)
    requires ValidPicks(actions, picks)
    ensures var draws := Draws(actions, picks);
      var r := RunStats(actions, p, picks);
      var rb := SimulateManyRounds(draws, Repeats(p.roundSimulationRepeats), p.roundStopPoints);
      var gb := if rb.None? then None
        else SimulateManyGames(draws[rb.value.used..], Repeats(p.gameSimulationRepeats), p.roundStopPoints, p.gameStopPoints);
      && (r.Success? <==> Count(actions, IncreaseScore) > 0 && p.roundSimulationRepeats > 0
                            && p.gameSimulationRepeats > 0 && rb.Some? && gb.Some?)
      && (r.Success? ==>
            && r.value.averagePointGain == Mean(Values(WithSymbol(actions, IncreaseScore)))
            && r.value.rounds == AverageRounds(rb.value.results)
            && r.value.games == AverageGames(gb.value.results))
      && (Count(actions, IncreaseScore) > 0 && p.roundSimulationRepeats > 0 && rb.None? ==> r == Failure(StreamExhausted))
      && ((Count(actions, IncreaseScore) > 0 && p.roundSimulationRepeats > 0 && rb.Some? && p.gameSimulationRepeats <= 0)
            ==> r == Failure(EmptyMean))
      && ((Count(actions, IncreaseScore) > 0 && p.roundSimulationRepeats > 0 && p.gameSimulationRepeats > 0
             && rb.Some? && gb.None?) ==> r == Failure(StreamExhausted))
  {
  }

  /** The shares `run_stats` reports, in terms of the dataset: each is the
      number of actions of its kind divided by the number of actions. */
  lemma RunStatsShares(actions: seq<Action>, p: Parameters, picks: seq<nat>)
    requires ValidPicks(actions, picks)
    ensures var r, gains := RunStats(actions, p, picks), Count(actions, IncreaseScore);
      r.Success? ==>
        SharesAre(r.value, |actions|, gains, |actions| - gains, Count(actions, LostRound), Count(actions, ResetScore))
  {
    var r := RunStats(actions, p, picks);
    if r.Success? {
      assert SharesOf(r.value) && r.value.counts == Counts(actions);
    }
  }

  /** End to end: statistics of a parsed dataset report a mean final round
      score between 0 and the mean total round score, since every action of
      a dataset file has a non-negative value. */
  lemma ParsedDatasetRoundAverages(lines: seq<string>, p: Parameters, picks: seq<nat>)
    requires Dataset.ParseLines(lines).Success?
    requires ValidPicks(Dataset.ParseLines(lines).value, picks)
    requires RunStats(Dataset.ParseLines(lines).value, p, picks).Success?
    ensures var report := RunStats(Dataset.ParseLines(lines).value, p, picks).value;
      0.0 <= report.rounds.finalPoints <= report.rounds.totalPoints
  {
    var actions := Dataset.ParseLines(lines).value;
    Dataset.ParsedActionsWellFormed(lines);
    var draws := Draws(actions, picks);
    forall k | 0 <= k < |draws|
      ensures draws[k].value >= 0
    {
      assert WellFormed(actions[picks[k]]);
    }
    AverageFinalAtMostTotal(draws, Repeats(p.roundSimulationRepeats), p.roundStopPoints);
  }
}
