/** The goal list update behind the "add funds" button and the
    total-saved figure of the dashboard. */
module Ledger {
  import opened Types

  /** The "goal reached" alert condition for one goal: it matches the
      requested id, was strictly below its target before and is at or
      above it afterwards. */
  predicate Reaches(g: Goal, id: string, amount: real) {
    g.id == id && g.currentAmount + amount >= g.targetAmount && g.currentAmount < g.targetAmount
  }

  /** True when the indices in `s` appear in strictly increasing order. */
  predicate Increasing(s: seq<nat>) {
    forall j, k :: 0 <= j < k < |s| ==> s[j] < s[k]
  }

  /** Result of one add-funds call: the new goal list, and the positions
      (in list order) of the goals for which the "goal reached" alert is
      raised. */
  datatype Funded = Funded(goals: seq<Goal>, reached: seq<nat>)

  /** Adds `amount` to every goal whose id is `id`. The mapping visits the
      goals left to right, so the list is built from its last element
      backwards over the already-processed prefix. */
  function AddFunds(goals: seq<Goal>, id: string, amount: real): (r: Funded)
    ensures |r.goals| == |goals|
    ensures forall i | 0 <= i < |goals| && goals[i].id == id ::
              r.goals[i] == goals[i].(currentAmount := goals[i].currentAmount + amount)
    ensures forall i | 0 <= i < |goals| && goals[i].id != id :: r.goals[i] == goals[i]
    ensures forall i: nat :: i in r.reached <==> i < |goals| && Reaches(goals[i], id, amount)
    ensures Increasing(r.reached)
    decreases |goals|
  {
    if |goals| == 0 then Funded([], [])
    else
      var n := |goals| - 1;
      var prefix := AddFunds(goals[..n], id, amount);
      var g := goals[n];
      var alert := if Reaches(g, id, amount) then [n] else [];
      assert forall k | 0 <= k < |prefix.reached| :: prefix.reached[k] in prefix.reached;
      var g' := if g.id == id then g.(currentAmount := g.currentAmount + amount) else g;
      Funded(prefix.goals + [g'], prefix.reached + alert)
  }

  /** The arguments of one add-funds call, as a UI control issues it. */
  datatype FundsRequest = FundsRequest(goalId: string, amount: real)

  /** Carries out one request. */
  function Apply(goals: seq<Goal>, req: FundsRequest): Funded {
    AddFunds(goals, req.goalId, req.amount)
  }

  /** Number of goals in the list carrying the id `id`. */
  function MatchCount(goals: seq<Goal>, id: string): nat
    decreases |goals|
  {
    if |goals| == 0 then 0
    else
      var last := |goals| - 1;
      MatchCount(goals[..last], id) + (if goals[last].id == id then 1 else 0)
  }

  /** Goal ids are pairwise distinct. */
  predicate UniqueIds(goals: seq<Goal>) {
    forall i, j | 0 <= i < j < |goals| :: goals[i].id != goals[j].id
  }

  /** Sum of `currentAmount` over the list, accumulated left to right
      starting from 0. */
  function TotalSaved(goals: seq<Goal>): real
    decreases |goals|
  {
    if |goals| == 0 then 0.0
    else
      var last := |goals| - 1;
      TotalSaved(goals[..last]) + goals[last].currentAmount
  }

  /** The count is zero exactly when no goal carries the id, and never
      exceeds the length of the list. */
  lemma {:induction false} MatchCountZero(goals: seq<Goal>, id: string)
    ensures MatchCount(goals, id) == 0 <==> forall i | 0 <= i < |goals| :: goals[i].id != id
    ensures MatchCount(goals, id) <= |goals|
    decreases |goals|
  {
    if |goals| > 0 {
      var n := |goals| - 1;
      MatchCountZero(goals[..n], id);
      assert forall i | 0 <= i < n :: goals[..n][i] == goals[i];
    }
  }

  /** When no goal has a negative saved amount, the total is not negative. */
  lemma {:induction false} TotalSavedNonNegative(goals: seq<Goal>)
    requires forall i | 0 <= i < |goals| :: goals[i].currentAmount >= 0.0
    ensures TotalSaved(goals) >= 0.0
    decreases |goals|
  {
    if |goals| > 0 {
      var n := |goals| - 1;
      assert forall i | 0 <= i < n :: goals[..n][i] == goals[i];
      TotalSavedNonNegative(goals[..n]);
    }
  }

  /** An unknown id leaves the list exactly as it was and raises no alert. */
  lemma {:induction false} UnknownIdIsNoOp(goals: seq<Goal>, id: string, amount: real)
    requires forall i | 0 <= i < |goals| :: goals[i].id != id
    ensures AddFunds(goals, id, amount) == Funded(goals, [])
    decreases |goals|
  {
    if |goals| > 0 {
      var n := |goals| - 1;
      var prefix := goals[..n];
      assert forall j | 0 <= j < n :: prefix[j] == goals[j];
      UnknownIdIsNoOp(prefix, id, amount);
      SplitLast(goals);
    }
  }

  /** A non-empty list is its prefix followed by its last goal. */
  lemma SplitLast(goals: seq<Goal>)
    requires |goals| > 0
    ensures goals[..|goals| - 1] + [goals[|goals| - 1]] == goals
  {
  }

  /** Adding `a` and then `b` to the same id gives the same list as adding
      `a + b` once. */
  lemma AddFundsTwice(goals: seq<Goal>, id: string, a: real, b: real)
    ensures AddFunds(AddFunds(goals, id, a).goals, id, b).goals == AddFunds(goals, id, a + b).goals
  {
    var once := AddFunds(goals, id, a).goals;
    var twice := AddFunds(once, id, b).goals;
    var joint := AddFunds(goals, id, a + b).goals;
    forall i | 0 <= i < |goals|
      ensures twice[i] == joint[i]
    {
      assert once[i].id == goals[i].id;
    }
    SameGoals(twice, joint);
  }

  /** Two goal lists that agree position by position are equal. */
  lemma SameGoals(xs: seq<Goal>, ys: seq<Goal>)
    requires |xs| == |ys|
    requires forall i | 0 <= i < |xs| :: xs[i] == ys[i]
    ensures xs == ys
  {
  }

  /** The alert never fires twice for one goal over two successive calls:
      after a call that reaches the target, the goal is no longer below it. */
  lemma NoSecondAlert(goals: seq<Goal>, id: string, a: real, b: real, i: nat)
    requires i in AddFunds(goals, id, a).reached
    ensures i !in AddFunds(AddFunds(goals, id, a).goals, id, b).reached
  {
  }

  /** For non-negative amounts, two successive calls reach a goal's target
      (in one of the two) exactly when a single call with the sum does. */
  lemma SplitFundingReachesOnce(goals: seq<Goal>, id: string, a: real, b: real, i: nat)
    requires a >= 0.0 && b >= 0.0
    ensures var first := AddFunds(goals, id, a);
            (i in first.reached || i in AddFunds(first.goals, id, b).reached)
            <==> i in AddFunds(goals, id, a + b).reached
  {
    var first := AddFunds(goals, id, a);
    if i < |goals| {
      GoalSplitFunding(goals[i], first.goals[i], id, a, b);
    }
  }

  /** The single-goal form: `g'` is `g` after the first call. */
  lemma GoalSplitFunding(g: Goal, g': Goal, id: string, a: real, b: real)
    requires a >= 0.0 && b >= 0.0
    requires g.id == id ==> g' == g.(currentAmount := g.currentAmount + a)
    requires g.id != id ==> g' == g
    ensures Reaches(g, id, a) || Reaches(g', id, b) <==> Reaches(g, id, a + b)
  {
  }

  /** With distinct ids, every goal's id matches exactly one goal. */
  lemma {:induction false} UniqueIdMatchesOnce(goals: seq<Goal>, i: nat)
    requires UniqueIds(goals)
    requires i < |goals|
    ensures MatchCount(goals, goals[i].id) == 1
    decreases |goals|
  {
    var n := |goals| - 1;
    var prefix := goals[..n];
    if i == n {
      LastIdIsNew(goals, prefix);
      MatchCountZero(prefix, goals[i].id);
    } else {
      PrefixKeepsUniqueIds(goals, n);
      assert prefix[i] == goals[i];
      UniqueIdMatchesOnce(prefix, i);
    }
  }

  /** Funding a goal whose id occurs exactly once raises the total saved
      by exactly the amount added. */
  lemma {:induction false} TotalSavedGrowsByAmount(goals: seq<Goal>, id: string, amount: real)
    requires MatchCount(goals, id) == 1
    ensures TotalSaved(AddFunds(goals, id, amount).goals) == TotalSaved(goals) + amount
    decreases |goals|
  {
    var n := |goals| - 1;
    var r := AddFunds(goals, id, amount).goals;
    var p := AddFunds(goals[..n], id, amount).goals;
    assert r[..n] == p;
    assert TotalSaved(r) == TotalSaved(p) + r[n].currentAmount;
    if goals[n].id == id {
      MatchCountZero(goals[..n], id);
      UnknownIdIsNoOp(goals[..n], id, amount);
    } else {
      TotalSavedGrowsByAmount(goals[..n], id, amount);
    }
  }

  /** With distinct ids, a call raises at most one alert, for the goal it
      names, and only when that goal reaches its target. */
  lemma {:induction false} SingleAlert(goals: seq<Goal>, i: nat, amount: real)
    requires UniqueIds(goals) && i < |goals|
    ensures AddFunds(goals, goals[i].id, amount).reached
            == if Reaches(goals[i], goals[i].id, amount) then [i] else []
    decreases |goals|
  {
    var n := |goals| - 1;
    var id := goals[i].id;
    var prefix := goals[..n];
    assert AddFunds(goals, id, amount).reached
           == AddFunds(prefix, id, amount).reached + (if Reaches(goals[n], id, amount) then [n] else []);
    if i == n {
      LastIdIsNew(goals, prefix);
      UnknownIdIsNoOp(prefix, id, amount);
    } else {
      PrefixKeepsUniqueIds(goals, n);
      assert prefix[i] == goals[i];
      SingleAlert(prefix, i, amount);
    }
  }

  /** In a list with distinct ids, the last goal's id is not used by any
      earlier goal. */
  lemma LastIdIsNew(goals: seq<Goal>, prefix: seq<Goal>)
    requires UniqueIds(goals) && |goals| > 0 && prefix == goals[..|goals| - 1]
    ensures forall j | 0 <= j < |prefix| :: prefix[j].id != goals[|goals| - 1].id
  {
    forall j | 0 <= j < |prefix| ensures prefix[j].id != goals[|goals| - 1].id {
      assert prefix[j] == goals[j];
    }
  }

  /** Dropping goals from the end keeps ids distinct. */
  lemma PrefixKeepsUniqueIds(goals: seq<Goal>, n: nat)
    requires UniqueIds(goals) && n <= |goals|
    ensures UniqueIds(goals[..n])
  {
    forall j, k | 0 <= j < k < n ensures goals[..n][j].id != goals[..n][k].id {
      assert goals[..n][j] == goals[j] && goals[..n][k] == goals[k];
    }
  }
}
