/** `simulate_round` with the random draws supplied as a stream: draw
    actions until a non-increase action ends the round, or until the kept
    points reach the stop points (never, when the stop points are -1). */
module Round {
  import opened Wrappers
  import opened Actions

  /** The loop condition: keep drawing while the threshold is "never" (-1)
      or the round's final points are still below it. */
  predicate KeepsDrawing(stopPoints: int, finalPoints: int)
  {
    stopPoints == -1 || finalPoints < stopPoints
  }

  /** The sum of the values of a run of draws. */
  function TotalValue(draws: seq<Action>): int
  {
    if |draws| == 0 then 0 else draws[0].value + TotalValue(draws[1..])
  }

  /** A finished round together with the number of draws it consumed. */
  datatype RoundRun = RoundRun(result: RoundResult, used: nat)

  /** The round loop, entered with `total` points after `length` draws, all
      of them increases, so that the final points equal the total. `None`
      means the stream ran out while the loop still wanted to draw. */
  function RoundLoop(draws: seq<Action>, stopPoints: int, total: int, length: nat): (o: Option<RoundRun>)
    ensures o.Some? ==> o.value.used <= |draws|
    ensures o.Some? ==> o.value.result.length == length + o.value.used
    ensures o.Some? && o.value.result.stopReason == Quit ==> o.value.result.finalPoints == o.value.result.totalPoints
    ensures o.Some? && o.value.result.stopReason.Stopped? ==>
      o.value.result.finalPoints == 0 && o.value.result.stopReason.symbol != IncreaseScore
  {
    if !KeepsDrawing(stopPoints, total) then Some(RoundRun(RoundResult(total, total, length, Quit), 0))
    else if |draws| == 0 then None
    else
      var a := draws[0];
      var total' := total + a.value;
      if a.symbol != IncreaseScore then
        Some(RoundRun(RoundResult(total', 0, length + 1, Stopped(a.symbol)), 1))
      else
        match RoundLoop(draws[1..], stopPoints, total', length + 1)
        case None => None
        case Some(run) => Some(RoundRun(run.result, run.used + 1))
  }

  /** One round from a fresh result. */
  function SimulateRound(draws: seq<Action>, stopPoints: int): (o: Option<RoundRun>)
    ensures o.Some? ==> o.value.used <= |draws| && o.value.result.length == o.value.used
    ensures o.Some? && o.value.result.stopReason == Quit ==> o.value.result.finalPoints == o.value.result.totalPoints
    ensures o.Some? && o.value.result.stopReason.Stopped? ==>
      o.value.result.finalPoints == 0 && o.value.result.stopReason.symbol != IncreaseScore
  {
    RoundLoop(draws, stopPoints, FreshRound().totalPoints, FreshRound().length)
  }

  /** An independent description of a round that consumed the first `n`
      draws and produced `r`, entered with `total` points after `length`
      draws: the loop condition held before every one of the `n` draws, all
      of them but the last were increases, and either the last one was not
      (the round stops with final points 0 and that symbol as its reason) or
      the loop condition failed after the last one (the player quits and
      keeps the total). */
  ghost predicate RoundTrace(draws: seq<Action>, stopPoints: int, total: int, length: nat, n: nat, r: RoundResult)
  {
    && n <= |draws|
    && (forall k :: 0 <= k < n ==> KeepsDrawing(stopPoints, total + TotalValue(draws[..k])))
    && (forall k :: 0 <= k < n - 1 ==> draws[k].symbol == IncreaseScore)
    && var sum := total + TotalValue(draws[..n]);
       if n > 0 && draws[n - 1].symbol != IncreaseScore then
         r == RoundResult(sum, 0, length + n, Stopped(draws[n - 1].symbol))
       else
         !KeepsDrawing(stopPoints, sum) && r == RoundResult(sum, sum, length + n, Quit)
  }

  /** Summing a prefix of the draws one value at a time from the front. */
  lemma TotalValueCons(draws: seq<Action>, k: nat)
    requires 0 <= k < |draws|
    ensures TotalValue(draws[..k + 1]) == draws[0].value + TotalValue(draws[1..][..k])
  {
    assert draws[..k + 1][1..] == draws[1..][..k];
  }

  /** The loop produces exactly the runs its trace describes: a run is
      returned if and only if it satisfies `RoundTrace`. */
  lemma {:induction false} RoundLoopTrace(draws: seq<Action>, stopPoints: int, total: int, length: nat, n: nat, r: RoundResult)
    ensures RoundLoop(draws, stopPoints, total, length) == Some(RoundRun(r, n))
        <==> RoundTrace(draws, stopPoints, total, length, n, r)
    decreases |draws|
  {
    assert draws[..0] == [];
    if !KeepsDrawing(stopPoints, total) {
      if n > 0 {
        assert !KeepsDrawing(stopPoints, total + TotalValue(draws[..0]));
      }
    } else if |draws| == 0 {
    } else {
      var a := draws[0];
      var total' := total + a.value;
      TotalValueCons(draws, 0);
      assert TotalValue(draws[..1]) == a.value;
      if a.symbol != IncreaseScore {
        if n > 1 {
          assert !(0 <= 0 < n - 1 ==> draws[0].symbol == IncreaseScore);
        }
      } else {
        var rest := draws[1..];
        forall k | 0 <= k < |draws|
          ensures TotalValue(draws[..k + 1]) == a.value + TotalValue(rest[..k])
        {
          TotalValueCons(draws, k);
        }
        if n > 0 {
          RoundLoopTrace(rest, stopPoints, total', length + 1, n - 1, r);
          TraceShift(draws, stopPoints, total, length, n, r);
        } else {
          assert !RoundTrace(draws, stopPoints, total, length, n, r);
        }
      }
    }
  }

  /** A trace of `n > 0` draws starting with an increase is a trace of
      `n - 1` draws of the remaining stream, entered one draw later. */
  lemma TraceShift(draws: seq<Action>, stopPoints: int, total: int, length: nat, n: nat, r: RoundResult)
    requires 0 < n && 0 < |draws| && draws[0].symbol == IncreaseScore
    requires KeepsDrawing(stopPoints, total)
    requires forall k :: 0 <= k < |draws| ==> TotalValue(draws[..k + 1]) == draws[0].value + TotalValue(draws[1..][..k])
    ensures RoundTrace(draws, stopPoints, total, length, n, r)
        <==> RoundTrace(draws[1..], stopPoints, total + draws[0].value, length + 1, n - 1, r)
  {
    var rest := draws[1..];
    var t' := total + draws[0].value;
    assert draws[..0] == [];
    if n > |draws| {
      return;
    }
    if RoundTrace(rest, stopPoints, t', length + 1, n - 1, r) {
      forall k | 0 <= k < n
        ensures KeepsDrawing(stopPoints, total + TotalValue(draws[..k]))
      {
        if k > 0 {
          assert TotalValue(draws[..k]) == draws[0].value + TotalValue(rest[..k - 1]);
        }
      }
    }
    if RoundTrace(draws, stopPoints, total, length, n, r) {
      forall k | 0 <= k < n - 1
        ensures KeepsDrawing(stopPoints, t' + TotalValue(rest[..k]))
      {
        assert TotalValue(draws[..k + 1]) == draws[0].value + TotalValue(rest[..k]);
      }
      forall k | 0 <= k < n - 2
        ensures rest[k].symbol == IncreaseScore
      {
        assert rest[k] == draws[k + 1];
      }
    }
  }

  /** Appending one draw adds its value. */
  lemma {:induction false} TotalValueSnoc(draws: seq<Action>, a: Action)
    ensures TotalValue(draws + [a]) == TotalValue(draws) + a.value
  {
    if |draws| > 0 {
      assert (draws + [a])[1..] == draws[1..] + [a];
      TotalValueSnoc(draws[1..], a);
    }
  }

  /** A finished round consumed a prefix of the stream: its length is the
      number of draws consumed and its total the sum of their values. Every
      consumed draw but the last is an increase. */
  lemma RoundConsumption(draws: seq<Action>, stopPoints: int)
    requires SimulateRound(draws, stopPoints).Some?
    ensures var run := SimulateRound(draws, stopPoints).value;
      && run.used <= |draws|
      && run.result.length == run.used
      && run.result.totalPoints == TotalValue(draws[..run.used])
      && forall k :: 0 <= k < run.used - 1 ==> draws[k].symbol == IncreaseScore
  {
    var run := SimulateRound(draws, stopPoints).value;
    RoundLoopTrace(draws, stopPoints, 0, 0, run.used, run.result);
  }

  /** A round that ends on a non-increase draw stops right there: final
      points 0, the reason mirrors the drawn symbol, and the total is the
      sum before that draw plus the drawn action's own value. */
  lemma RoundStopsOnPenalty(draws: seq<Action>, stopPoints: int)
    requires SimulateRound(draws, stopPoints).Some?
    ensures var run := SimulateRound(draws, stopPoints).value;
      run.result.stopReason.Stopped? <==>
        run.used > 0 && draws[run.used - 1].symbol != IncreaseScore
    ensures var run := SimulateRound(draws, stopPoints).value;
      run.result.stopReason.Stopped? ==>
        && run.result.finalPoints == 0
        && run.result.stopReason.symbol == draws[run.used - 1].symbol
        && run.result.stopReason.symbol != IncreaseScore
        && run.result.totalPoints == TotalValue(draws[..run.used - 1]) + draws[run.used - 1].value
  {
    var run := SimulateRound(draws, stopPoints).value;
    var n := run.used;
    RoundLoopTrace(draws, stopPoints, 0, 0, n, run.result);
    if n > 0 {
      assert draws[..n] == draws[..n - 1] + [draws[n - 1]];
      TotalValueSnoc(draws[..n - 1], draws[n - 1]);
    }
  }

  /** A stop action built from its symbol alone has value 0, so on a stream
      of such actions the draw that ends a round adds nothing to its total:
      the total is that of the increases drawn before it. */
  lemma StopAddsNothing(draws: seq<Action>, stopPoints: int)
    requires forall k :: 0 <= k < |draws| ==> WellFormed(draws[k])
    requires SimulateRound(draws, stopPoints).Some?
    requires SimulateRound(draws, stopPoints).value.result.stopReason.Stopped?
    ensures var run := SimulateRound(draws, stopPoints).value;
      run.used > 0 && run.result.totalPoints == TotalValue(draws[..run.used - 1])
  {
    RoundStopsOnPenalty(draws, stopPoints);
  }

  /** A round that ends with Quit drew only increases, keeps its total, had
      a real threshold, and reached it. */
  lemma RoundQuits(draws: seq<Action>, stopPoints: int)
    requires SimulateRound(draws, stopPoints).Some?
    requires SimulateRound(draws, stopPoints).value.result.stopReason == Quit
    ensures var run := SimulateRound(draws, stopPoints).value;
      && run.result.finalPoints == run.result.totalPoints
      && stopPoints != -1
      && run.result.finalPoints >= stopPoints
      && forall k :: 0 <= k < run.used ==> draws[k].symbol == IncreaseScore
  {
    var run := SimulateRound(draws, stopPoints).value;
    RoundLoopTrace(draws, stopPoints, 0, 0, run.used, run.result);
  }

  /** With the threshold "never" (-1), a round that ends was stopped by a
      non-increase draw; it never ends with Quit. */
  lemma NeverThresholdNeverQuits(draws: seq<Action>)
    requires SimulateRound(draws, -1).Some?
    ensures SimulateRound(draws, -1).value.result.stopReason != Quit
  {
    if SimulateRound(draws, -1).value.result.stopReason == Quit {
      RoundQuits(draws, -1);
    }
  }

  /** A threshold of 0 or below (other than -1) is met before any draw: the
      round draws nothing and returns the fresh result. */
  lemma NonPositiveThreshold(draws: seq<Action>, stopPoints: int)
    requires stopPoints <= 0 && stopPoints != -1
    ensures SimulateRound(draws, stopPoints) == Some(RoundRun(FreshRound(), 0))
  {
  }

  /** The loop condition holds before and after every draw of a non-empty
      stream exactly when it holds now and before and after every draw of the
      rest of the stream, entered with the first draw's value added. */
  lemma KeepsDrawingShift(draws: seq<Action>, stopPoints: int, total: int)
    requires 0 < |draws|
    ensures (forall k :: 0 <= k <= |draws| ==> KeepsDrawing(stopPoints, total + TotalValue(draws[..k])))
        <==> (&& KeepsDrawing(stopPoints, total)
             && forall k :: 0 <= k <= |draws[1..]| ==> KeepsDrawing(stopPoints, total + draws[0].value + TotalValue(draws[1..][..k])))
  {
    var a, rest := draws[0], draws[1..];
    assert draws[..0] == [];
    forall k | 0 <= k < |draws|
      ensures TotalValue(draws[..k + 1]) == a.value + TotalValue(rest[..k])
    {
      TotalValueCons(draws, k);
    }
    if KeepsDrawing(stopPoints, total)
      && forall k :: 0 <= k <= |rest| ==> KeepsDrawing(stopPoints, total + a.value + TotalValue(rest[..k]))
    {
      forall k | 0 <= k <= |draws|
        ensures KeepsDrawing(stopPoints, total + TotalValue(draws[..k]))
      {
        if k > 0 {
          assert TotalValue(draws[..k]) == a.value + TotalValue(rest[..k - 1]);
        }
      }
    }
    if forall k :: 0 <= k <= |draws| ==> KeepsDrawing(stopPoints, total + TotalValue(draws[..k])) {
      forall k | 0 <= k <= |rest|
        ensures KeepsDrawing(stopPoints, total + a.value + TotalValue(rest[..k]))
      {
        assert TotalValue(draws[..k + 1]) == a.value + TotalValue(rest[..k]);
      }
    }
  }

  /** The loop runs out of stream exactly when every draw is an increase and
      the loop condition still holds after each of them. */
  lemma {:induction false} RoundLoopExhausts(draws: seq<Action>, stopPoints: int, total: int, length: nat)
    ensures RoundLoop(draws, stopPoints, total, length).None? <==>
      && (forall k :: 0 <= k < |draws| ==> draws[k].symbol == IncreaseScore)
      && (forall k :: 0 <= k <= |draws| ==> KeepsDrawing(stopPoints, total + TotalValue(draws[..k])))
    decreases |draws|
  {
    assert draws[..0] == [];
    if |draws| > 0 {
      KeepsDrawingShift(draws, stopPoints, total);
      var a, rest := draws[0], draws[1..];
      if KeepsDrawing(stopPoints, total) && a.symbol == IncreaseScore {
        RoundLoopExhausts(rest, stopPoints, total + a.value, length + 1);
        assert (forall k :: 0 <= k < |draws| ==> draws[k].symbol == IncreaseScore)
           <==> (forall k :: 0 <= k < |rest| ==> rest[k].symbol == IncreaseScore);
      }
    }
  }

  /** A finished round depends only on the draws it consumed: any stream
      that starts with those draws yields the same round. */
  lemma RoundPrefix(draws: seq<Action>, other: seq<Action>, stopPoints: int)
    requires SimulateRound(draws, stopPoints).Some?
    requires SimulateRound(draws, stopPoints).value.used <= |other|
    requires other[..SimulateRound(draws, stopPoints).value.used]
          == draws[..SimulateRound(draws, stopPoints).value.used]
    ensures SimulateRound(other, stopPoints) == SimulateRound(draws, stopPoints)
  {
    var run := SimulateRound(draws, stopPoints).value;
    var n := run.used;
    RoundLoopTrace(draws, stopPoints, 0, 0, n, run.result);
    forall k | 0 <= k <= n
      ensures other[..k] == draws[..k]
    {
      assert other[..k] == other[..n][..k];
      assert draws[..k] == draws[..n][..k];
    }
    forall k | 0 <= k < n
      ensures other[k] == draws[k]
    {
      assert other[k] == other[..n][k];
      assert draws[k] == draws[..n][k];
    }
    RoundLoopTrace(other, stopPoints, 0, 0, n, run.result);
  }

  /** Summing two runs of draws one after the other. */
  lemma {:induction false} TotalValueAppend(a: seq<Action>, b: seq<Action>)
    ensures TotalValue(a + b) == TotalValue(a) + TotalValue(b)
  {
    if |a| == 0 {
      assert a + b == b;
    } else {
      assert (a + b)[1..] == a[1..] + b;
      TotalValueAppend(a[1..], b);
    }
  }

  /** `rounds` are the successive rounds played on the stream `draws`, each
      starting where the previous one stopped, and together they consume the
      whole stream. */
  predicate PlaysRounds(draws: seq<Action>, stopPoints: int, rounds: seq<RoundResult>)
    decreases |rounds|
  {
    if |rounds| == 0 then |draws| == 0
    else match SimulateRound(draws, stopPoints)
      case None => false
      case Some(run) =>
        run.result == rounds[0] && PlaysRounds(draws[run.used..], stopPoints, rounds[1..])
  }

  /** The summed lengths of a list of rounds. */
  function SumLengths(rounds: seq<RoundResult>): nat
  {
    if |rounds| == 0 then 0 else rounds[0].length + SumLengths(rounds[1..])
  }

  /** The summed total points of a list of rounds. */
  function SumTotals(rounds: seq<RoundResult>): int
  {
    if |rounds| == 0 then 0 else rounds[0].totalPoints + SumTotals(rounds[1..])
  }

  /** Rounds played back to back account for every draw: their lengths add
      up to the number of draws and their totals to the draws' values. */
  lemma {:induction false} PlaysRoundsConsumption(draws: seq<Action>, stopPoints: int, rounds: seq<RoundResult>)
    requires PlaysRounds(draws, stopPoints, rounds)
    ensures SumLengths(rounds) == |draws|
    ensures SumTotals(rounds) == TotalValue(draws)
    decreases |rounds|
  {
    if |rounds| > 0 {
      var run := SimulateRound(draws, stopPoints).value;
      RoundConsumption(draws, stopPoints);
      PlaysRoundsConsumption(draws[run.used..], stopPoints, rounds[1..]);
      assert draws == draws[..run.used] + draws[run.used..];
      TotalValueAppend(draws[..run.used], draws[run.used..]);
    }
  }

  /** Playing one more round after a run of rounds: the stream grows by the
      draws that round consumed. */
  lemma {:induction false} PlaysRoundsCons(draws: seq<Action>, stopPoints: int, n: nat, rounds: seq<RoundResult>)
    requires SimulateRound(draws, stopPoints).Some?
    requires SimulateRound(draws, stopPoints).value.used <= n <= |draws|
    requires var used := SimulateRound(draws, stopPoints).value.used;
      PlaysRounds(draws[used..n], stopPoints, rounds)
    ensures PlaysRounds(draws[..n], stopPoints, [SimulateRound(draws, stopPoints).value.result] + rounds)
  {
    var run := SimulateRound(draws, stopPoints).value;
    assert draws[..n][..run.used] == draws[..run.used];
    RoundPrefix(draws, draws[..n], stopPoints);
    assert draws[..n][run.used..] == draws[run.used..n];
    assert ([run.result] + rounds)[1..] == rounds;
  }

  /** Non-negative draws have a non-negative sum. */
  lemma {:induction false} TotalValueNonNegative(draws: seq<Action>)
    requires forall k :: 0 <= k < |draws| ==> draws[k].value >= 0
    ensures TotalValue(draws) >= 0
  {
    if |draws| > 0 {
      TotalValueNonNegative(draws[1..]);
    }
  }

  /** On draws with non-negative values a round keeps either nothing or its
      whole total, so its final points lie between 0 and its total. */
  lemma RoundKeepsAtMostTotal(draws: seq<Action>, stopPoints: int)
    requires forall k :: 0 <= k < |draws| ==> draws[k].value >= 0
    requires SimulateRound(draws, stopPoints).Some?
    ensures var r := SimulateRound(draws, stopPoints).value.result;
      0 <= r.finalPoints <= r.totalPoints
  {
    var run := SimulateRound(draws, stopPoints).value;
    RoundConsumption(draws, stopPoints);
    RoundStopsOnPenalty(draws, stopPoints);
    TotalValueNonNegative(draws[..run.used]);
    if run.result.stopReason == Quit {
      RoundQuits(draws, stopPoints);
    }
  }

  /** The same bound for every round of a run of rounds. */
  lemma {:induction false} PlaysRoundsKeepAtMostTotal(draws: seq<Action>, stopPoints: int, rounds: seq<RoundResult>)
    requires forall k :: 0 <= k < |draws| ==> draws[k].value >= 0
    requires PlaysRounds(draws, stopPoints, rounds)
    ensures forall i :: 0 <= i < |rounds| ==> 0 <= rounds[i].finalPoints <= rounds[i].totalPoints
    decreases |rounds|
  {
    if |rounds| > 0 {
      var run := SimulateRound(draws, stopPoints).value;
      RoundKeepsAtMostTotal(draws, stopPoints);
      var rest := draws[run.used..];
      assert forall k :: 0 <= k < |rest| ==> rest[k] == draws[run.used + k];
      PlaysRoundsKeepAtMostTotal(rest, stopPoints, rounds[1..]);
      assert forall i :: 1 <= i < |rounds| ==> rounds[i] == rounds[1..][i - 1];
    }
  }
}
