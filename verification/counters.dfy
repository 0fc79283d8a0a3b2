/** The dataset counters that `Statistics` derives from the action list: the
    total, the increase-score sub-list, and the counts of the stopping
    actions. */
module Counters {
  import opened Actions

  /** The actions carrying symbol `s`, in their original order. */
  function WithSymbol(actions: seq<Action>, s: ActionSymbol): (r: seq<Action>)
    ensures |r| <= |actions|
    ensures forall i :: 0 <= i < |r| ==> r[i].symbol == s
  {
    if |actions| == 0 then []
    else
      var last := actions[|actions| - 1];
      WithSymbol(actions[..|actions| - 1], s) + (if last.symbol == s then [last] else [])
  }

  /** The actions carrying any symbol other than `s`, in their original order. */
  function WithoutSymbol(actions: seq<Action>, s: ActionSymbol): (r: seq<Action>)
    ensures |r| <= |actions|
    ensures forall i :: 0 <= i < |r| ==> r[i].symbol != s
  {
    if |actions| == 0 then []
    else
      var last := actions[|actions| - 1];
      WithoutSymbol(actions[..|actions| - 1], s) + (if last.symbol != s then [last] else [])
  }

  /** How many actions carry symbol `s`. */
  function Count(actions: seq<Action>, s: ActionSymbol): nat
  {
    |WithSymbol(actions, s)|
  }

  /** One more action lands in exactly one of the two sub-lists. */
  lemma SplitStep(actions: seq<Action>, s: ActionSymbol)
    requires |actions| > 0
    ensures var init, last := actions[..|actions| - 1], actions[|actions| - 1];
            multiset(WithSymbol(actions, s)) + multiset(WithoutSymbol(actions, s))
            == multiset(WithSymbol(init, s)) + multiset(WithoutSymbol(init, s)) + multiset{last}
  {
    var init, last := actions[..|actions| - 1], actions[|actions| - 1];
    var w, wo := WithSymbol(init, s), WithoutSymbol(init, s);
    if last.symbol == s {
      assert WithSymbol(actions, s) == w + [last];
      assert multiset(w + [last]) == multiset(w) + multiset{last};
    } else {
      assert WithoutSymbol(actions, s) == wo + [last];
      assert multiset(wo + [last]) == multiset(wo) + multiset{last};
    }
  }

  /** A non-empty list holds its prefix and its last element. */
  lemma LastOut(actions: seq<Action>)
    requires |actions| > 0
    ensures multiset(actions) == multiset(actions[..|actions| - 1]) + multiset{actions[|actions| - 1]}
  {
    assert actions == actions[..|actions| - 1] + [actions[|actions| - 1]];
  }

  /** Splitting by one symbol divides the dataset: every action lands in
      exactly one of the two sub-lists, so together they hold the dataset's
      actions with multiplicity and their sizes add up to the total. */
  lemma {:induction false} SymbolPartition(actions: seq<Action>, s: ActionSymbol)
    ensures multiset(WithSymbol(actions, s)) + multiset(WithoutSymbol(actions, s)) == multiset(actions)
    ensures |WithSymbol(actions, s)| + |WithoutSymbol(actions, s)| == |actions|
  {
    if |actions| > 0 {
      var init := actions[..|actions| - 1];
      SymbolPartition(init, s);
      SplitStep(actions, s);
      LastOut(actions);
    }
    assert |multiset(WithSymbol(actions, s))| == |WithSymbol(actions, s)|;
    assert |multiset(WithoutSymbol(actions, s))| == |WithoutSymbol(actions, s)|;
  }

  /** The non-increase actions are exactly the lost rounds, the resets and
      the lost games, so those three counts add up to the number of
      round-stopping actions. */
  lemma {:induction false} StopPartition(actions: seq<Action>)
    ensures Count(actions, LostRound) + Count(actions, ResetScore) + Count(actions, LoseGame)
         == |WithoutSymbol(actions, IncreaseScore)|
  {
    if |actions| > 0 {
      StopPartition(actions[..|actions| - 1]);
    }
  }

  /** The counters of the `Statistics` constructor in `stats.py`. `roundStopActionsCount`
      counts lost rounds, as the attribute of the same name does. */
  datatype DatasetCounts = DatasetCounts(
    actionsCount: nat,
    increaseScoreActions: seq<Action>,
    increaseScoreActionsCount: nat,
    anyRoundStopActionsCount: nat,
    roundStopActionsCount: nat,
    resetScoreActionsCount: nat)

  /** The counters as the four list comprehensions define them. */
  function Counts(actions: seq<Action>): (c: DatasetCounts)
    ensures c.increaseScoreActionsCount + c.anyRoundStopActionsCount == c.actionsCount
    ensures c.roundStopActionsCount + c.resetScoreActionsCount <= c.anyRoundStopActionsCount
    ensures c.increaseScoreActionsCount == |c.increaseScoreActions|
    ensures multiset(c.increaseScoreActions) <= multiset(actions)
    ensures forall i :: 0 <= i < |c.increaseScoreActions| ==> c.increaseScoreActions[i].symbol == IncreaseScore
  {
    SymbolPartition(actions, IncreaseScore);
    StopPartition(actions);
    var increases := WithSymbol(actions, IncreaseScore);
    DatasetCounts(
      |actions|,
      increases,
      |increases|,
      |WithoutSymbol(actions, IncreaseScore)|,
      Count(actions, LostRound),
      Count(actions, ResetScore))
  }

  /** The counters computed in a single pass over the actions. */
  method CountDataset(actions: seq<Action>) returns (c: DatasetCounts)
    ensures c == Counts(actions)
  {
    var increases: seq<Action> := [];
    var stops, lost, resets := 0, 0, 0;
    var i := 0;
    while i < |actions|
      invariant 0 <= i <= |actions|
      invariant increases == WithSymbol(actions[..i], IncreaseScore)
      invariant stops == |WithoutSymbol(actions[..i], IncreaseScore)|
      invariant lost == Count(actions[..i], LostRound)
      invariant resets == Count(actions[..i], ResetScore)
    {
      var a := actions[i];
      assert actions[..i + 1][..i] == actions[..i];
      if a.symbol == IncreaseScore {
        increases := increases + [a];
      } else {
        stops := stops + 1;
      }
      if a.symbol == LostRound {
        lost := lost + 1;
      }
      if a.symbol == ResetScore {
        resets := resets + 1;
      }
      i := i + 1;
    }
    assert actions[..i] == actions;
    c := DatasetCounts(|actions|, increases, |increases|, stops, lost, resets);
  }
}
