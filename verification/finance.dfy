/**
 * The spending totals of the Finance page: today's total sums the expenses
 * labelled "Today", the week's total sums them all. Amounts are exact
 * reals; the floating-point rounding of JavaScript numbers is not modelled.
 */
module Finance {

  /** An expense as the page lists it. */
  datatype Expense = Expense(id: string, category: string, description: string, amount: real, date: string)

  /** The date label that counts towards today's total. */
  const TodayLabel := "Today"

  /** `es.reduce((sum, e) => sum + e.amount, acc)`: a left fold from `acc`. */
  function SumFrom(acc: real, es: seq<Expense>): real
    decreases |es|
  {
    if es == [] then acc else SumFrom(acc + es[0].amount, es[1..])
  }

  /** `es.filter((e) => e.date === "Today")`. */
  function TodayExpenses(es: seq<Expense>): (r: seq<Expense>)
    ensures |r| <= |es|
    ensures forall e :: e in r <==> e in es && e.date == TodayLabel
  {
    if es == [] then []
    else (if es[0].date == TodayLabel then [es[0]] else []) + TodayExpenses(es[1..])
  }

  /** `todayTotal`. */
  function TodayTotal(es: seq<Expense>): real {
    SumFrom(0.0, TodayExpenses(es))
  }

  /** `weekTotal`. */
  function WeekTotal(es: seq<Expense>): real {
    SumFrom(0.0, es)
  }

  // ---------------------------------------------------------------------
  // Reference sums
  // ---------------------------------------------------------------------

  /** The sum of all amounts, as a textbook right-nested sum. */
  function Amounts(es: seq<Expense>): real {
    if es == [] then 0.0 else es[0].amount + Amounts(es[1..])
  }

  /** The sum of the amounts of the expenses labelled "Today", without filtering first. */
  function TodayAmounts(es: seq<Expense>): real {
    if es == [] then 0.0
    else (if es[0].date == TodayLabel then es[0].amount else 0.0) + TodayAmounts(es[1..])
  }

  /** The sum of the amounts of the other expenses. */
  function OtherAmounts(es: seq<Expense>): real {
    if es == [] then 0.0
    else (if es[0].date == TodayLabel then 0.0 else es[0].amount) + OtherAmounts(es[1..])
  }

  /** The fold started from `acc` adds `acc` to the sum of the amounts. */
  lemma {:induction false} SumFromIsAmounts(acc: real, es: seq<Expense>)
    ensures SumFrom(acc, es) == acc + Amounts(es)
    decreases |es|
  {
    if es != [] {
      SumFromIsAmounts(acc + es[0].amount, es[1..]);
    }
  }

  /** The week's total is the sum of every amount, and 0 for no expenses. */
  lemma WeekTotalIsSum(es: seq<Expense>)
    ensures WeekTotal(es) == Amounts(es)
    ensures es == [] ==> WeekTotal(es) == 0.0
  {
    SumFromIsAmounts(0.0, es);
  }

  lemma {:induction false} AmountsOfToday(es: seq<Expense>)
    ensures Amounts(TodayExpenses(es)) == TodayAmounts(es)
    decreases |es|
  {
    if es != [] {
      AmountsOfToday(es[1..]);
      AmountsAppend(if es[0].date == TodayLabel then [es[0]] else [], TodayExpenses(es[1..]));
    }
  }

  /** Today's total sums exactly the amounts of the expenses labelled "Today". */
  lemma TodayTotalIsSum(es: seq<Expense>)
    ensures TodayTotal(es) == TodayAmounts(es)
  {
    SumFromIsAmounts(0.0, TodayExpenses(es));
    AmountsOfToday(es);
  }

  lemma {:induction false} AmountsAppend(a: seq<Expense>, b: seq<Expense>)
    ensures Amounts(a + b) == Amounts(a) + Amounts(b)
  {
    if a != [] {
      assert (a + b)[1..] == a[1..] + b;
      AmountsAppend(a[1..], b);
    } else {
      assert a + b == b;
    }
  }

  lemma {:induction false} TodayAmountsAppend(a: seq<Expense>, b: seq<Expense>)
    ensures TodayAmounts(a + b) == TodayAmounts(a) + TodayAmounts(b)
  {
    if a != [] {
      assert (a + b)[1..] == a[1..] + b;
      TodayAmountsAppend(a[1..], b);
    } else {
      assert a + b == b;
    }
  }

  /** The week's total splits into today's total and the rest. */
  lemma {:induction false} WeekSplits(es: seq<Expense>)
    ensures WeekTotal(es) == TodayTotal(es) + OtherAmounts(es)
  {
    WeekTotalIsSum(es);
    TodayTotalIsSum(es);
    AmountsSplit(es);
  }

  lemma {:induction false} AmountsSplit(es: seq<Expense>)
    ensures Amounts(es) == TodayAmounts(es) + OtherAmounts(es)
  {
    if es != [] {
      AmountsSplit(es[1..]);
    }
  }

  lemma {:induction false} OtherAmountsNonNegative(es: seq<Expense>)
    requires forall i :: 0 <= i < |es| ==> es[i].amount >= 0.0
    ensures OtherAmounts(es) >= 0.0
  {
    if es != [] {
      OtherAmountsNonNegative(es[1..]);
    }
  }

  /** With no negative amounts, today's total never exceeds the week's. */
  lemma TodayNotAboveWeek(es: seq<Expense>)
    requires forall i :: 0 <= i < |es| ==> es[i].amount >= 0.0
    ensures 0.0 <= TodayTotal(es) <= WeekTotal(es)
  {
    WeekSplits(es);
    OtherAmountsNonNegative(es);
    TodayNonNegative(es);
  }

  lemma {:induction false} TodayNonNegative(es: seq<Expense>)
    requires forall i :: 0 <= i < |es| ==> es[i].amount >= 0.0
    ensures TodayTotal(es) >= 0.0
  {
    TodayTotalIsSum(es);
    TodayAmountsNonNegative(es);
  }

  lemma {:induction false} TodayAmountsNonNegative(es: seq<Expense>)
    requires forall i :: 0 <= i < |es| ==> es[i].amount >= 0.0
    ensures TodayAmounts(es) >= 0.0
  {
    if es != [] {
      TodayAmountsNonNegative(es[1..]);
    }
  }

  /**
   * Adding an expense raises the week's total by its amount; today's total
   * rises by the same amount when it is labelled "Today" and is unchanged
   * otherwise.
   */
  lemma AppendExpense(es: seq<Expense>, e: Expense)
    ensures WeekTotal(es + [e]) == WeekTotal(es) + e.amount
    ensures TodayTotal(es + [e]) == TodayTotal(es) + (if e.date == TodayLabel then e.amount else 0.0)
  {
    WeekTotalIsSum(es);
    WeekTotalIsSum(es + [e]);
    AmountsAppend(es, [e]);
    TodayTotalIsSum(es);
    TodayTotalIsSum(es + [e]);
    TodayAmountsAppend(es, [e]);
  }
}
