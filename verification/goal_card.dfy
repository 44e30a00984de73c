/** The progress figure shown on a goal card, and the card's fixed
    "+ $50" button. */
module GoalCard {
  import opened Types
  import opened Ledger

  /** The amount the card's button always asks for. */
  const ButtonIncrement: real := 50.0

  /** JavaScript `Math.round`: the integer nearest to `x`, with halves
      going up (towards positive infinity). */
  function JsRound(x: real): (n: int)
    ensures n as real - 0.5 <= x < n as real + 0.5
  {
    (x + 0.5).Floor
  }

  /** The smaller of two integers. */
  function Min(a: int, b: int): int {
    if a <= b then a else b
  }

  /** The card's percentage: the rounded ratio of saved to target, capped
      at 100. There is no lower clamp, and the target must be positive
      (a zero target would give a non-finite number in the application). */
  function Percentage(g: Goal): (p: int)
    requires g.targetAmount > 0.0
    ensures p <= 100
    ensures g.currentAmount >= 0.0 ==> p >= 0
    ensures g.currentAmount >= g.targetAmount ==> p == 100
    ensures var x := g.currentAmount / g.targetAmount * 100.0;
            if x >= 99.5 then p == 100 else p as real - 0.5 <= x < p as real + 0.5
  {
    Min(100, JsRound(g.currentAmount / g.targetAmount * 100.0))
  }

  /** For a fixed positive target, a larger saved amount never shows a
      smaller percentage. */
  lemma PercentageMonotone(g: Goal, h: Goal)
    requires g.targetAmount > 0.0 && h.targetAmount == g.targetAmount
    requires g.currentAmount <= h.currentAmount
    ensures Percentage(g) <= Percentage(h)
  {
    var t := g.targetAmount;
    var x := g.currentAmount / t * 100.0;
    var y := h.currentAmount / t * 100.0;
    assert x <= y by {
      assert h.currentAmount / t - g.currentAmount / t == (h.currentAmount - g.currentAmount) / t;
      assert (h.currentAmount - g.currentAmount) / t >= 0.0;
    }
    assert JsRound(x) <= JsRound(y);
  }

  /** Adding a non-negative amount never lowers any card's percentage. */
  lemma AddFundsNeverLowersPercentage(goals: seq<Goal>, id: string, amount: real, i: nat)
    requires amount >= 0.0
    requires i < |goals| && goals[i].targetAmount > 0.0
    ensures AddFunds(goals, id, amount).goals[i].targetAmount == goals[i].targetAmount
    ensures Percentage(goals[i]) <= Percentage(AddFunds(goals, id, amount).goals[i])
  {
    PercentageMonotone(goals[i], AddFunds(goals, id, amount).goals[i]);
  }

  /** The request issued by the button on the card of goal `g`: always 50,
      always for the card's own goal. */
  function AddButton(g: Goal): (req: FundsRequest)
    ensures req.goalId == g.id && req.amount == 50.0
  {
    FundsRequest(g.id, ButtonIncrement)
  }

  /** Pressing a card's button, in a list with distinct ids, raises that
      goal's saved amount by 50, the total saved by 50, and touches no
      other goal. */
  lemma PressAddButton(goals: seq<Goal>, i: nat)
    requires UniqueIds(goals) && i < |goals|
    ensures var after := Apply(goals, AddButton(goals[i])).goals;
            && |after| == |goals|
            && after[i] == goals[i].(currentAmount := goals[i].currentAmount + 50.0)
            && (forall j | 0 <= j < |goals| && j != i :: after[j] == goals[j])
            && TotalSaved(after) == TotalSaved(goals) + 50.0
  {
    UniqueIdMatchesOnce(goals, i);
    TotalSavedGrowsByAmount(goals, goals[i].id, 50.0);
  }
}
