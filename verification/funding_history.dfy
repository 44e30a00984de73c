/** A run of successive add-funds calls, each acting on the list the
    previous one produced, and what the "goal reached" alert does over
    the whole run. */
module FundingHistory {
  import opened Types
  import opened Ledger

  /** The final goal list, and for each call (in order) the positions of
      the goals whose alert it raised. */
  datatype Replayed = Replayed(goals: seq<Goal>, alerts: seq<seq<nat>>)

  /** Applies the requests left to right, starting from `goals`. */
  function Replay(goals: seq<Goal>, reqs: seq<FundsRequest>): (r: Replayed)
    ensures |r.alerts| == |reqs|
    ensures |r.goals| == |goals|
    ensures forall i | 0 <= i < |goals| ::
              r.goals[i] == goals[i].(currentAmount := goals[i].currentAmount + Requested(reqs, goals[i].id))
    decreases |reqs|
  {
    if |reqs| == 0 then
      assert forall i | 0 <= i < |goals| :: goals[i].(currentAmount := goals[i].currentAmount + 0.0) == goals[i];
      Replayed(goals, [])
    else
      var n := |reqs| - 1;
      var before := Replay(goals, reqs[..n]);
      var step := Apply(before.goals, reqs[n]);
      Replayed(step.goals, before.alerts + [step.reached])
  }

  /** Funding never changes an id, so every list reachable from one with
      distinct ids still has distinct ids. */
  lemma ReplayKeepsUniqueIds(goals: seq<Goal>, reqs: seq<FundsRequest>)
    requires UniqueIds(goals)
    ensures UniqueIds(Replay(goals, reqs).goals)
  {
  }

  /** Reference sum: the total of the amounts requested for `id`. */
  function Requested(reqs: seq<FundsRequest>, id: string): real
    decreases |reqs|
  {
    if |reqs| == 0 then 0.0
    else
      var n := |reqs| - 1;
      Requested(reqs[..n], id) + (if reqs[n].goalId == id then reqs[n].amount else 0.0)
  }

  /** Every request asks for a non-negative amount. */
  predicate NonNegativeRequests(reqs: seq<FundsRequest>) {
    forall k | 0 <= k < |reqs| :: reqs[k].amount >= 0.0
  }

  /** Non-negative requests never reduce a saved amount. */
  lemma {:induction false} RequestedNonNegative(reqs: seq<FundsRequest>, id: string)
    requires NonNegativeRequests(reqs)
    ensures Requested(reqs, id) >= 0.0
    decreases |reqs|
  {
    if |reqs| > 0 {
      var n := |reqs| - 1;
      assert forall k | 0 <= k < n :: reqs[..n][k] == reqs[k];
      RequestedNonNegative(reqs[..n], id);
    }
  }

  /** How many calls of the run raised the alert for position `i`. */
  function FireCount(alerts: seq<seq<nat>>, i: nat): nat
    decreases |alerts|
  {
    if |alerts| == 0 then 0
    else
      var n := |alerts| - 1;
      FireCount(alerts[..n], i) + (if i in alerts[n] then 1 else 0)
  }

  /** The alerts of call `k` are those of one add-funds call on the list
      left by the first `k` calls. */
  lemma {:induction false} ReplayStep(goals: seq<Goal>, reqs: seq<FundsRequest>, k: nat)
    requires k < |reqs|
    ensures Replay(goals, reqs).alerts[k] == Apply(Replay(goals, reqs[..k]).goals, reqs[k]).reached
    decreases |reqs|
  {
    var n := |reqs| - 1;
    var before := Replay(goals, reqs[..n]);
    var step := Apply(before.goals, reqs[n]);
    assert Replay(goals, reqs).alerts == before.alerts + [step.reached];
    if k < n {
      assert reqs[..n][..k] == reqs[..k];
      assert reqs[..n][k] == reqs[k];
      ReplayStep(goals, reqs[..n], k);
      assert Replay(goals, reqs).alerts[k] == before.alerts[k];
    } else {
      assert reqs[..k] == reqs[..n];
    }
  }

  /** How the last call of a run affects goal `i`: it adds one alert to
      the count exactly when it takes the goal from below its target to at
      or above it, it keeps the target, and with a non-negative amount it
      never lowers the saved amount. */
  lemma LastCall(goals: seq<Goal>, reqs: seq<FundsRequest>, i: nat)
    requires |reqs| > 0 && i < |goals|
    ensures var n := |reqs| - 1;
            var before := Replay(goals, reqs[..n]);
            var r := Replay(goals, reqs);
            var mid := before.goals[i].currentAmount;
            var final := r.goals[i].currentAmount;
            && r.goals[i].targetAmount == before.goals[i].targetAmount
            && (reqs[n].amount >= 0.0 ==> mid <= final)
            && FireCount(r.alerts, i)
               == FireCount(before.alerts, i)
                  + (if mid < r.goals[i].targetAmount <= final then 1 else 0)
  {
    var n := |reqs| - 1;
    var before := Replay(goals, reqs[..n]);
    var step := Apply(before.goals, reqs[n]);
    var r := Replay(goals, reqs);
    assert r.alerts[..n] == before.alerts;
    assert r.alerts[n] == step.reached;
    assert r.goals == step.goals;
    assert i in step.reached <==> Reaches(before.goals[i], reqs[n].goalId, reqs[n].amount);
  }

  /** Over any run of non-negative requests, the alert for a goal fires
      at most once, and exactly once when the goal started below its
      target and ended at or above it. A goal already at its target never
      fires again. */
  lemma {:induction false} AlertFiresOnce(goals: seq<Goal>, reqs: seq<FundsRequest>, i: nat)
    requires NonNegativeRequests(reqs)
    requires i < |goals|
    ensures var r := Replay(goals, reqs);
            FireCount(r.alerts, i)
            == if goals[i].currentAmount < goals[i].targetAmount <= r.goals[i].currentAmount then 1 else 0
    decreases |reqs|
  {
    if |reqs| > 0 {
      var n := |reqs| - 1;
      assert NonNegativeRequests(reqs[..n]) by {
        forall k | 0 <= k < n ensures reqs[..n][k].amount >= 0.0 {
          assert reqs[..n][k] == reqs[k];
        }
      }
      AlertFiresOnce(goals, reqs[..n], i);
      RequestedNonNegative(reqs[..n], goals[i].id);
      LastCall(goals, reqs, i);
    }
  }
}
