/** The application's start-up data, and facts about it that serve as
    concrete test vectors for the ledger operations. */
module Seed {
  import opened Types
  import opened Ledger
  import opened GoalCard
  import opened Spending
  import opened FundingHistory

  /** The three savings goals the application starts with. */
  const InitialGoals: seq<Goal> := [
    Goal("1", "Eras Tour Tickets", 800.0, 350.0, "\U{1F3AB}", None),
    Goal("2", "Summer Euro Trip", 2500.0, 1100.0, "\U{2708}\U{FE0F}", None),
    Goal("3", "New Macbook", 1200.0, 200.0, "\U{1F4BB}", None)
  ]

  /** The five transactions the application starts with. */
  const InitialTransactions: seq<Transaction> := [
    Transaction("1", "Starbucks", 6.50, "Food & Drink", "2023-10-24", Expense),
    Transaction("2", "Paycheck", 1200.0, "Income", "2023-10-23", Income),
    Transaction("3", "Zara Haul", 89.99, "Shopping", "2023-10-22", Expense),
    Transaction("4", "Uber", 24.50, "Transport", "2023-10-21", Expense),
    Transaction("5", "Spotify", 10.99, "Subscription", "2023-10-20", Expense)
  ]

  /** Every seed goal has a positive target (so its percentage is
      defined) and starts strictly below it (so it can still raise one
      "goal reached" alert). */
  lemma SeedGoalsOpen()
    ensures forall i | 0 <= i < |InitialGoals| ::
              0.0 <= InitialGoals[i].currentAmount < InitialGoals[i].targetAmount
  {
  }

  /** Seed goal ids are pairwise distinct, and so are seed transaction
      ids. */
  lemma SeedIdsDistinct()
    ensures UniqueIds(InitialGoals)
    ensures forall i, j | 0 <= i < j < |InitialTransactions| ::
              InitialTransactions[i].id != InitialTransactions[j].id
  {
  }

  /** Every seed transaction amount is positive. */
  lemma SeedAmountsPositive()
    ensures forall i | 0 <= i < |InitialTransactions| :: InitialTransactions[i].amount > 0.0
  {
  }

  /** The dashboard total for the seed goals. */
  lemma SeedTotalSaved()
    ensures TotalSaved(InitialGoals) == 1650.0
  {
    var g := InitialGoals;
    assert g[..1][..0] == [];
    assert TotalSaved(g[..1]) == 350.0;
    assert g[..2][..1] == g[..1];
    assert TotalSaved(g[..2]) == 1450.0;
    assert g[..2] == g[..|g| - 1];
  }

  /** The card percentages of the seed goals: 350/800 is 43.75 and shows
      44, 1100/2500 shows 44, 200/1200 (16.67) shows 17. */
  lemma SeedPercentages()
    ensures Percentage(InitialGoals[0]) == 44
    ensures Percentage(InitialGoals[1]) == 44
    ensures Percentage(InitialGoals[2]) == 17
  {
  }

  /** The seed breakdown: one entry per expense category. */
  lemma SeedBreakdown()
    ensures CategoryBreakdown(InitialTransactions)
            == map["Food & Drink" := 6.50, "Shopping" := 89.99,
                   "Transport" := 24.50, "Subscription" := 10.99]
  {
    var t := InitialTransactions;
    assert t == [] + [t[0]] + [t[1]] + [t[2]] + [t[3]] + [t[4]];
    BreakdownAppend([], t[0]);
    BreakdownAppend([t[0]], t[1]);
    BreakdownAppend([t[0], t[1]], t[2]);
    BreakdownAppend([t[0], t[1], t[2]], t[3]);
    BreakdownAppend([t[0], t[1], t[2], t[3]], t[4]);
    assert [t[0], t[1], t[2], t[3]] + [t[4]] == t;
  }

  /** The income category of the seed data gets no entry. */
  lemma SeedBreakdownHasNoIncome()
    ensures "Income" !in CategoryBreakdown(InitialTransactions)
  {
    SeedBreakdown();
  }

  /** Putting 450 into the first goal (350 of 800) brings it to exactly
      800, shows 100 and raises its alert. */
  lemma ReachTarget()
    ensures var first := AddFunds(InitialGoals, "1", 450.0);
            && UniqueIds(first.goals)
            && first.goals[0] == InitialGoals[0].(currentAmount := 800.0)
            && Percentage(first.goals[0]) == 100
            && first.reached == [0]
  {
    SeedIdsDistinct();
    SingleAlert(InitialGoals, 0, 450.0);
  }

  /** A further 50 on the reached first goal brings it to 850, still shows
      100, and raises no second alert. */
  lemma OverSave()
    ensures var second := AddFunds(AddFunds(InitialGoals, "1", 450.0).goals, "1", 50.0);
            && second.goals[0].currentAmount == 850.0
            && Percentage(second.goals[0]) == 100
            && second.reached == []
  {
    ReachTarget();
    SingleAlert(AddFunds(InitialGoals, "1", 450.0).goals, 0, 50.0);
  }

  /** `n` presses of the first goal's "+ $50" button. */
  function Presses(n: nat): (reqs: seq<FundsRequest>)
    ensures |reqs| == n
    ensures forall k | 0 <= k < n :: reqs[k] == FundsRequest("1", 50.0)
  {
    seq(n, k => AddButton(InitialGoals[0]))
  }

  /** `k` presses ask for 50 each, for goal "1" only. */
  lemma {:induction false} PressesRequested(k: nat, id: string)
    ensures Requested(Presses(k), id) == if id == "1" then 50.0 * k as real else 0.0
  {
    if k > 0 {
      assert Presses(k)[..k - 1] == Presses(k - 1);
      PressesRequested(k - 1, id);
    }
  }

  /** After `k` presses the seed list still has distinct ids, and the
      first goal holds 350 plus 50 per press, still towards 800. */
  lemma AfterPresses(k: nat)
    ensures var state := Replay(InitialGoals, Presses(k)).goals;
            && UniqueIds(state)
            && state[0].id == "1"
            && state[0].currentAmount == 350.0 + 50.0 * k as real
            && state[0].targetAmount == 800.0
  {
    PressesRequested(k, "1");
    SeedIdsDistinct();
  }

  /** Pressing the first goal's button repeatedly (350 towards 800) raises
      the alert on the ninth press only, whatever the number of presses. */
  lemma NinthPressReachesGoal(n: nat, k: nat)
    requires k < n
    ensures Replay(InitialGoals, Presses(n)).alerts[k] == if k == 8 then [0] else []
  {
    ReplayStep(InitialGoals, Presses(n), k);
    assert Presses(n)[..k] == Presses(k);
    AfterPresses(k);
    SingleAlert(Replay(InitialGoals, Presses(k)).goals, 0, 50.0);
  }

  /** After nine presses the first goal holds exactly its 800 target. */
  lemma NinePressesFillFirstGoal()
    ensures Replay(InitialGoals, Presses(9)).goals[0].currentAmount == 800.0
  {
    PressesRequested(9, "1");
  }
}
