/** The per-category spending breakdown behind the budget pie chart. */
module Spending {
  import opened Types

  /** Some expense transaction of the list is filed under `category`. */
  predicate HasExpense(txs: seq<Transaction>, category: string) {
    exists i | 0 <= i < |txs| :: txs[i].kind == Expense && txs[i].category == category
  }

  /** Reference definition: the sum of the amounts of the expense
      transactions filed under `category`, income ignored. */
  function CategoryTotal(txs: seq<Transaction>, category: string): real
    decreases |txs|
  {
    if |txs| == 0 then 0.0
    else
      var t := txs[|txs| - 1];
      CategoryTotal(txs[..|txs| - 1], category)
        + (if t.kind == Expense && t.category == category then t.amount else 0.0)
  }

  /** The breakdown, accumulated left to right into an initially empty
      record: an expense adds its amount to its category's entry (starting
      from 0 when the entry is missing); an income is skipped. */
  function CategoryBreakdown(txs: seq<Transaction>): map<string, real>
    decreases |txs|
  {
    if |txs| == 0 then map[]
    else
      var acc := CategoryBreakdown(txs[..|txs| - 1]);
      var t := txs[|txs| - 1];
      if t.kind == Expense then
        acc[t.category := (if t.category in acc then acc[t.category] else 0.0) + t.amount]
      else acc
  }

  /** The breakdown has a key exactly for the categories that carry an
      expense, and each value is that category's expense total. */
  lemma {:induction false} BreakdownMatchesTotals(txs: seq<Transaction>)
    ensures forall c :: c in CategoryBreakdown(txs) <==> HasExpense(txs, c)
    ensures forall c | c in CategoryBreakdown(txs) :: CategoryBreakdown(txs)[c] == CategoryTotal(txs, c)
    decreases |txs|
  {
    if |txs| > 0 {
      var n := |txs| - 1;
      var t := txs[n];
      BreakdownMatchesTotals(txs[..n]);
      var acc := CategoryBreakdown(txs[..n]);
      forall c ensures HasExpense(txs, c) <==> HasExpense(txs[..n], c) || (t.kind == Expense && t.category == c) {
        if HasExpense(txs, c) {
          var i :| 0 <= i < |txs| && txs[i].kind == Expense && txs[i].category == c;
          if i < n { assert txs[..n][i] == txs[i]; }
        }
        if HasExpense(txs[..n], c) {
          var i :| 0 <= i < n && txs[..n][i].kind == Expense && txs[..n][i].category == c;
          assert txs[i] == txs[..n][i];
        }
      }
      if t.category !in acc {
        NoExpenseTotalIsZero(txs[..n], t.category);
      }
    }
  }

  /** One more transaction: an expense adds its amount to its category's
      entry (creating it at 0 when missing), an income leaves the record
      as it was. */
  lemma BreakdownAppend(txs: seq<Transaction>, t: Transaction)
    ensures var m := CategoryBreakdown(txs);
            CategoryBreakdown(txs + [t])
            == if t.kind == Expense
               then m[t.category := (if t.category in m then m[t.category] else 0.0) + t.amount]
               else m
  {
    assert (txs + [t])[..|txs|] == txs;
  }

  /** Total spent in a category that has no expense is zero. */
  lemma {:induction false} NoExpenseTotalIsZero(txs: seq<Transaction>, category: string)
    requires !HasExpense(txs, category)
    ensures CategoryTotal(txs, category) == 0.0
    decreases |txs|
  {
    if |txs| > 0 {
      var n := |txs| - 1;
      assert !HasExpense(txs[..n], category) by {
        forall i | 0 <= i < n
          ensures !(txs[..n][i].kind == Expense && txs[..n][i].category == category)
        {
          assert txs[..n][i] == txs[i];
        }
      }
      NoExpenseTotalIsZero(txs[..n], category);
    }
  }

  /** The empty list gives the empty breakdown. */
  lemma EmptyBreakdown()
    ensures CategoryBreakdown([]) == map[]
  {
  }

  /** The expense transactions of the list. */
  function Expenses(txs: seq<Transaction>): seq<Transaction>
    decreases |txs|
  {
    if |txs| == 0 then []
    else
      var n := |txs| - 1;
      var prefix := Expenses(txs[..n]);
      if txs[n].kind == Expense then prefix + [txs[n]] else prefix
  }

  /** `Expenses` keeps exactly the expense transactions: every element is
      an expense of the list, and every expense of the list is kept. */
  lemma {:induction false} ExpensesMembers(txs: seq<Transaction>)
    ensures forall i | 0 <= i < |Expenses(txs)| :: Expenses(txs)[i].kind == Expense
    ensures forall i | 0 <= i < |txs| && txs[i].kind == Expense :: txs[i] in Expenses(txs)
    ensures forall t | t in Expenses(txs) :: t in txs
    decreases |txs|
  {
    if |txs| > 0 {
      var n := |txs| - 1;
      var prefix := Expenses(txs[..n]);
      ExpensesMembers(txs[..n]);
      assert forall t | t in txs[..n] :: t in txs;
      assert forall i | 0 <= i < n :: txs[..n][i] == txs[i];
      if txs[n].kind == Expense {
        assert Expenses(txs) == prefix + [txs[n]];
      } else {
        assert Expenses(txs) == prefix;
      }
    }
  }

  /** Income transactions play no part: dropping all of them leaves the
      breakdown exactly as it was (no key added, no value changed). */
  lemma IncomeIgnored(txs: seq<Transaction>)
    ensures CategoryBreakdown(Expenses(txs)) == CategoryBreakdown(txs)
  {
    ExpensesMembers(txs);
    BreakdownMatchesTotals(txs);
    BreakdownMatchesTotals(Expenses(txs));
    var a := CategoryBreakdown(Expenses(txs));
    var b := CategoryBreakdown(txs);
    forall c ensures HasExpense(Expenses(txs), c) <==> HasExpense(txs, c) {
      var e := Expenses(txs);
      if HasExpense(e, c) {
        var i :| 0 <= i < |e| && e[i].kind == Expense && e[i].category == c;
        assert e[i] in txs;
      }
      if HasExpense(txs, c) {
        var i :| 0 <= i < |txs| && txs[i].kind == Expense && txs[i].category == c;
        assert txs[i] in e;
      }
    }
    forall c | c in a ensures a[c] == b[c] {
      ExpensesKeepTotals(txs, c);
    }
    assert a.Keys == b.Keys;
  }

  /** Dropping income transactions keeps every category's total. */
  lemma {:induction false} ExpensesKeepTotals(txs: seq<Transaction>, category: string)
    ensures CategoryTotal(Expenses(txs), category) == CategoryTotal(txs, category)
    decreases |txs|
  {
    if |txs| > 0 {
      var n := |txs| - 1;
      ExpensesKeepTotals(txs[..n], category);
      var prefix := Expenses(txs[..n]);
      if txs[n].kind == Expense {
        assert Expenses(txs) == prefix + [txs[n]];
        assert (prefix + [txs[n]])[..|prefix|] == prefix;
      } else {
        assert Expenses(txs) == prefix;
      }
    }
  }

  /** Appending one income transaction changes nothing. */
  lemma AppendIncome(txs: seq<Transaction>, t: Transaction)
    requires t.kind == Income
    ensures CategoryBreakdown(txs + [t]) == CategoryBreakdown(txs)
  {
    assert (txs + [t])[..|txs|] == txs;
  }

  /** When every amount is positive, every entry of the breakdown is
      positive. */
  lemma {:induction false} PositiveAmountsPositiveTotals(txs: seq<Transaction>, category: string)
    requires forall i | 0 <= i < |txs| :: txs[i].amount > 0.0
    requires HasExpense(txs, category)
    ensures CategoryTotal(txs, category) > 0.0
    decreases |txs|
  {
    var n := |txs| - 1;
    var t := txs[n];
    assert forall i | 0 <= i < n :: txs[..n][i] == txs[i];
    NonNegativeTotal(txs[..n], category);
    if !(t.kind == Expense && t.category == category) {
      var i :| 0 <= i < |txs| && txs[i].kind == Expense && txs[i].category == category;
      assert i < n && txs[..n][i] == txs[i];
      PositiveAmountsPositiveTotals(txs[..n], category);
    }
  }

  /** With positive amounts no category total is negative. */
  lemma {:induction false} NonNegativeTotal(txs: seq<Transaction>, category: string)
    requires forall i | 0 <= i < |txs| :: txs[i].amount > 0.0
    ensures CategoryTotal(txs, category) >= 0.0
    decreases |txs|
  {
    if |txs| > 0 {
      var n := |txs| - 1;
      assert forall i | 0 <= i < n :: txs[..n][i] == txs[i];
      NonNegativeTotal(txs[..n], category);
    }
  }
}
