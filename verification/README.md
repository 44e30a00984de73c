# GlowUp Wallet ledger model

A Dafny model of the small ledger at the heart of the GlowUp Wallet
personal-finance app. The model covers:

- the savings-goal list and its "add funds" update, including the
  "Goal Reached" alert;
- the dashboard's total-saved figure;
- the per-category expense breakdown that feeds the budget pie chart;
- the progress percentage shown on each goal card, and the card's fixed
  "+ $50" button;
- the application's seed goals and transactions, which serve as concrete
  test vectors.

Modules, one per concern of the source:

- `Types` (`types.dfy`): the `Goal` and `Transaction` records. The
  transaction's `type` field is named `kind` here and is the two-variant
  datatype `TxType = Income | Expense`. The optional deadline is an `Option`.
- `Ledger` (`ledger.dfy`): `handleAddFunds` as the pure function `AddFunds`.
  It returns the new list, plus the positions of the goals whose alert
  fires, in the order the alerts would pop up. It also holds
  `calculateTotalSaved` as `TotalSaved`.
- `GoalCard` (`goal_card.dfy`): the percentage
  `min(100, Math.round(current / target * 100))`, with `Math.round(x)`
  written as `floor(x + 1/2)`, and the button's request for 50.
- `Spending` (`spending.dfy`): the `categories` reduce as a
  `map<string, real>`. It is proved against an independent per-category
  sum, `CategoryTotal`.
- `FundingHistory` (`funding_history.dfy`): a run of successive add-funds
  calls. Over any run of non-negative amounts, a goal's alert fires at most
  once.
- `Seed` (`seed.dfy`): the three start-up goals and five start-up
  transactions, with facts about them.

Amounts are exact `real` numbers, so 6.50 and 89.99 are represented
exactly.

Add funds rejects nothing, and the percentage is clamped only from above:

- Add funds rejects nothing. The code has no "not found" or "invalid
  amount" error: an unknown id leaves the list unchanged with no alert, and
  zero or negative amounts are applied as given.
- The percentage has no lower clamp. Only `min(100, …)` is applied, so a
  saved amount below -0.5% of the target shows a negative percentage.
- The alert fires on every below-to-at-or-above crossing. A negative
  amount could bring a goal back below its target, and a later call could
  then fire the alert again. The "fires once" property is therefore proved
  for non-negative amounts, which is what the only caller (the +50 button)
  issues.

## Model

| member | source | states |
|---|---|---|
| `Ledger.AddFunds` | App.tsx:93-105 | The list keeps its length and order. Each goal whose id matches has `currentAmount` raised by exactly `amount`, and its id, title, target, emoji and deadline are kept. Every other goal is returned unchanged. Position `i` is in the alert list iff that goal matches, was strictly below its target and is now at or above it. Alerts come in list order. |
| `Ledger.Apply` | App.tsx:93 | One `onAddFunds(id, amount)` call, carried as a `FundsRequest`. It has no `ensures` of its own: it is `AddFunds` on the request's id and amount, so the `AddFunds` row above is its contract. |
| `Ledger.UnknownIdIsNoOp` | App.tsx:94-104 | An id no goal carries returns the input list unchanged and raises no alert. |
| `Ledger.AddFundsTwice` | App.tsx:96-101 | Adding `a` and then `b` to an id gives the same list as adding `a + b` once. |
| `Ledger.NoSecondAlert` | App.tsx:97-99 | A goal whose alert fired in one call cannot fire again in a next call for the same id, whatever that call's amount. A call for another id cannot fire it anyway, by the `AddFunds` contract. |
| `Ledger.SplitFundingReachesOnce` | App.tsx:96-99 | For non-negative `a` and `b`, a goal's alert fires in one of two calls (`a` then `b`) iff it fires in a single call of `a + b`. |
| `Ledger.GoalSplitFunding` | App.tsx:96-99 | The single-goal form of the previous row: for non-negative `a` and `b`, reaching the target in the `a` step or the `b` step is the same as reaching it with `a + b`. |
| `Ledger.SingleAlert` | App.tsx:94-100 | With distinct ids, a call for goal `i` raises exactly `[i]` when that goal crosses its target, and no alert otherwise. |
| `Ledger.TotalSaved` | App.tsx:122 | `calculateTotalSaved`, a left-to-right sum of `currentAmount` from 0. It has no `ensures` of its own. Its contract is in the lemmas `TotalSavedNonNegative` and `TotalSavedGrowsByAmount` below. |
| `Ledger.TotalSavedNonNegative` | App.tsx:122 | The total saved is non-negative when no goal has a negative saved amount. |
| `Ledger.TotalSavedGrowsByAmount` | App.tsx:122 | After add funds on an id carried by exactly one goal, the total saved is the old total plus exactly `amount`. |
| `Ledger.UniqueIdMatchesOnce` | App.tsx:95 | In a list with distinct ids, the id test matches exactly one goal. |
| `GoalCard.JsRound` | components/GoalCard.tsx:11 | `Math.round`: the result `n` satisfies `n - 1/2 <= x < n + 1/2`, so it is the nearest integer and halves go up. |
| `GoalCard.Percentage` | components/GoalCard.tsx:11 | For a positive target, the percentage is never above 100. It is at least 0 when the saved amount is, and exactly 100 when saved >= target, including over-saved goals. Below 99.5 it is the integer nearest to `100 * current / target`, with halves rounded up. |
| `GoalCard.PercentageMonotone` | components/GoalCard.tsx:11 | For the same positive target, a larger saved amount never shows a smaller percentage. |
| `GoalCard.AddFundsNeverLowersPercentage` | components/GoalCard.tsx:11 | A non-negative add-funds call keeps every goal's target and never lowers any card's percentage. |
| `GoalCard.AddButton` | components/GoalCard.tsx:56 | The card's button always requests exactly 50, for the card's own goal id. |
| `GoalCard.PressAddButton` | components/GoalCard.tsx:55-56 | With distinct ids, pressing goal `i`'s button raises that goal's saved amount by 50 and leaves every other goal as it was. The total saved grows by 50. |
| `Spending.CategoryBreakdown` | App.tsx:125-130 | The `categories` reduce, accumulated left to right into an empty map. It has no `ensures` of its own. Its contract is `BreakdownMatchesTotals`, the next row, which relates it to the independent sum `CategoryTotal`. |
| `Spending.BreakdownMatchesTotals` | App.tsx:125-130 | For every transaction list, a category is a key of the breakdown iff some expense transaction carries it. Its value is the reference sum of the amounts of that category's expense transactions. |
| `Spending.NoExpenseTotalIsZero` | App.tsx:127 | A category with no expense sums to 0, which is the 0 a fresh entry starts from. |
| `Spending.EmptyBreakdown` | App.tsx:125-130 | The empty transaction list gives the empty map. |
| `Spending.IncomeIgnored` | App.tsx:126 | Dropping every income transaction leaves the breakdown identical: income never adds a key or changes a value. |
| `Spending.ExpensesKeepTotals` | App.tsx:126-127 | Dropping income transactions keeps every category's expense total. |
| `Spending.AppendIncome` | App.tsx:126-129 | Appending an income transaction leaves the breakdown unchanged. |
| `Spending.PositiveAmountsPositiveTotals` | App.tsx:127 | When every amount is positive, every category that has an expense has a positive total. |
| `FundingHistory.Replay` | App.tsx:94-101 | After a run of calls, the list keeps its length. Each goal holds its start amount plus the sum of the amounts requested for its id, and all its other fields are kept. Each call contributes one alert list. |
| `FundingHistory.ReplayKeepsUniqueIds` | App.tsx:94-101 | No run of calls changes an id, so a list with distinct ids keeps distinct ids after any run. This is the distinct-ids requirement of `SingleAlert` and `PressAddButton`, met by every list reachable from the seed goals. |
| `FundingHistory.ReplayStep` | App.tsx:93-105 | The alerts of call `k` are those of a single add-funds call on the list left by the first `k` calls. |
| `FundingHistory.LastCall` | App.tsx:96-101 | The last call of a run keeps each goal's target, and with a non-negative amount it never lowers the saved amount. It adds one to a goal's alert count exactly when it takes that goal from below its target to at or above it. |
| `FundingHistory.AlertFiresOnce` | App.tsx:97-99 | Over any run of non-negative amounts, a goal's alert fires exactly once if the goal started below its target and ended at or above it. Otherwise it never fires, so a goal already at its target never fires again. |
| `Seed.SeedGoalsOpen` | constants.ts:4-6 | Every seed goal has a positive target and starts at or above 0 and strictly below its target. |
| `Seed.SeedIdsDistinct` | constants.ts:3-15 | Seed goal ids are pairwise distinct, and so are seed transaction ids. |
| `Seed.SeedAmountsPositive` | constants.ts:10-14 | Every seed transaction amount is strictly positive. |
| `Seed.SeedTotalSaved` | constants.ts:4-6 | The total saved over the seed goals is 1650. |
| `Seed.SeedPercentages` | constants.ts:4-6 | The seed cards show 44, 44 and 17 percent. |
| `Seed.SeedBreakdown` | constants.ts:10-14 | The seed breakdown is exactly Food & Drink 6.50, Shopping 89.99, Transport 24.50 and Subscription 10.99. |
| `Seed.SeedBreakdownHasNoIncome` | constants.ts:11 | The seed Paycheck income gives no Income key in the breakdown. |
| `Seed.ReachTarget` | constants.ts:4 | Adding 450 to goal "1" (350 of 800) gives exactly 800 and 100 percent, keeps ids distinct, and raises exactly one alert, for that goal. |
| `Seed.OverSave` | constants.ts:4 | A further 50 on that goal gives 850, still 100 percent, and no second alert. |
| `Seed.AfterPresses` | constants.ts:4 | After `k` "+ $50" presses on goal "1", ids are still distinct and that goal holds 350 + 50k towards its 800 target. |
| `Seed.NinthPressReachesGoal` | constants.ts:4 | Over any number of "+ $50" presses on goal "1", the alert fires on the ninth press only. |
| `Seed.NinePressesFillFirstGoal` | constants.ts:4 | Nine presses bring goal "1" to exactly 800. |

## Left out

- Floating point: amounts are exact reals. JavaScript summation drift and rounding of `number` are not modelled.
- `GoalCard.Percentage`: requires a positive target. With a zero target the ratio `current / target` is `Infinity`, `-Infinity` or `NaN`, which exact reals cannot represent. A negative target would give a finite value, but no goal the application holds has one: the seed targets are positive, `AddFunds` keeps every target, and the application has no operation that creates a goal.
- `FundingHistory.AlertFiresOnce`: stated only for non-negative amounts. The code accepts any amount, and a negative one can re-open a goal and fire its alert a second time.
- `Ledger.SplitFundingReachesOnce`: stated only for non-negative amounts, for the same reason.
- `Ledger.GoalSplitFunding`: stated only for non-negative amounts, for the same reason.
- `GoalCard.AddFundsNeverLowersPercentage`: stated only for non-negative amounts. A negative amount can lower the percentage.
- `Ledger.TotalSavedGrowsByAmount`: stated for an id carried by exactly one goal. With duplicated ids the total grows once per matching goal, and that general form is not stated.
- Stale renders: `handleAddFunds` maps the `goals` captured at render time (`setGoals(goals.map(...))`, not an updater function). `Replay` has each call act on the list the previous call produced, which holds because every click re-renders before the next one. Two calls from the same render are not modelled.
- The `alert` side effect: it is returned as the list of goal positions whose alert fires. The message text is not modelled.
- React state (`useState`, `setGoals`), rendering, themes, the navigation bar, the settings panel and the views: presentation only.
- Challenges (`CHALLENGES`, the `Challenge` record): display-only data with no operation on them.
- The chat submission, the daily-tip effect and `services/geminiService.ts`: asynchronous calls to an external text service, whose only local logic is returning fixed fallback strings.
- `pieData` and the `Object.keys` order of the breakdown record: the breakdown is an unordered map. JavaScript object-key quirks are not modelled either, for example a category named `constructor`.
- Number formatting (`toLocaleString`) and the emoji and date strings: carried as opaque data.
