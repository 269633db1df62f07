/**
 * The income split and the budget figures of the allocation calculator
 * (components/AllocationCalculator.tsx). Amounts are exact `real`s; the
 * percentages are whole numbers.
 */
module AllocationCalculator {
  import opened Types
  import Constants

  datatype Risk = Conservative | Balanced | Aggressive

  datatype AllocationResult = AllocationResult(
    investment: real, ops: real, savings: real,
    investPct: int, opsPct: int, savingsPct: int)

  /**
   * `parseFloat(incomeInput) || 0`, given the parsed number: `None` stands
   * for `NaN` (empty or unparseable input), which falls back to 0 like 0
   * itself; any other number, negative ones included, is kept.
   */
  function IncomeValue(parsed: Option<real>): (income: real)
    ensures parsed.None? ==> income == 0.0
    ensures parsed.Some? ==> income == parsed.value
  {
    match parsed
    case None => 0.0
    case Some(v) => if v == 0.0 then 0.0 else v
  }

  /** `calculate`: the split of the income for the chosen risk tier. */
  function Calculate(parsed: Option<real>, risk: Risk): (r: AllocationResult)
    ensures r.investPct + r.opsPct + r.savingsPct == 100
    ensures r.investPct > 0 && r.opsPct > 0 && r.savingsPct > 0
    ensures r.investment == IncomeValue(parsed) * (r.investPct as real) / 100.0
    ensures r.ops == IncomeValue(parsed) * (r.opsPct as real) / 100.0
    ensures r.savings == IncomeValue(parsed) * (r.savingsPct as real) / 100.0
  {
    var val := IncomeValue(parsed);
    if risk == Conservative then
      AllocationResult(val * 0.2, val * 0.5, val * 0.3, 20, 50, 30)
    else if risk == Aggressive then
      AllocationResult(val * 0.5, val * 0.4, val * 0.1, 50, 40, 10)
    else
      AllocationResult(val * 0.35, val * 0.45, val * 0.2, 35, 45, 20)
  }

  /** The percentage table: conservative, aggressive, and balanced for the rest. */
  lemma TierPercentages(parsed: Option<real>, risk: Risk)
    ensures var r := Calculate(parsed, risk);
            (r.investPct, r.opsPct, r.savingsPct)
            == match risk
               case Conservative => (20, 50, 30)
               case Aggressive => (50, 40, 10)
               case Balanced => (35, 45, 20)
  {
  }

  /** The three amounts add up to the income, and none is negative when the income is not. */
  lemma AmountsSplitIncome(parsed: Option<real>, risk: Risk)
    ensures var r := Calculate(parsed, risk);
            r.investment + r.ops + r.savings == IncomeValue(parsed)
    ensures var r := Calculate(parsed, risk);
            IncomeValue(parsed) >= 0.0 ==> r.investment >= 0.0 && r.ops >= 0.0 && r.savings >= 0.0
  {
    var r := Calculate(parsed, risk);
    var v := IncomeValue(parsed);
    calc {
      r.investment + r.ops + r.savings;
      v * (r.investPct as real) / 100.0 + v * (r.opsPct as real) / 100.0 + v * (r.savingsPct as real) / 100.0;
      v * ((r.investPct + r.opsPct + r.savingsPct) as real) / 100.0;
      v;
    }
  }

  /** Empty or unparseable income yields three zero amounts. */
  lemma NoIncomeNoAmounts(risk: Risk)
    ensures var r := Calculate(None, risk);
            r.investment == 0.0 && r.ops == 0.0 && r.savings == 0.0
  {
  }

  /** `rate`: amounts are shown in yuan at the fixed exchange rate when CNY is chosen. */
  function Rate(currency: Currency): (rate: real)
    ensures rate > 0.0
    ensures currency == CNY ==> rate == 7.24
    ensures currency == USD ==> rate == 1.0
  {
    if currency == CNY then Constants.ExchangeRateUsdToCny else 1.0
  }

  /** `reduce((sum, x) => sum + x * rate, sum)`, a left fold over the amounts. */
  function ReduceConverted(sum: real, amounts: seq<real>, rate: real): real
    decreases amounts
  {
    if amounts == [] then sum
    else ReduceConverted(sum + amounts[0] * rate, amounts[1..], rate)
  }

  /** The plain sum of the amounts, the reference for the fold. */
  function Sum(amounts: seq<real>): real
  {
    if amounts == [] then 0.0 else amounts[0] + Sum(amounts[1..])
  }

  function ExpenseAmounts(expenses: seq<Expense>): (amounts: seq<real>)
    ensures |amounts| == |expenses|
    ensures forall i :: 0 <= i < |expenses| ==> amounts[i] == expenses[i].amount
  {
    seq(|expenses|, i requires 0 <= i < |expenses| => expenses[i].amount)
  }

  function IncomeAmounts(records: seq<IncomeRecord>): (amounts: seq<real>)
    ensures |amounts| == |records|
    ensures forall i :: 0 <= i < |records| ==> amounts[i] == records[i].amount
  {
    seq(|records|, i requires 0 <= i < |records| => records[i].amount)
  }

  /** `totalSpent`: the converted sum of the logged expenses. */
  function TotalSpent(expenses: seq<Expense>, currency: Currency): real
  {
    ReduceConverted(0.0, ExpenseAmounts(expenses), Rate(currency))
  }

  /** `actualRevenue`: the converted sum of the logged incomes. */
  function ActualRevenue(records: seq<IncomeRecord>, currency: Currency): real
  {
    ReduceConverted(0.0, IncomeAmounts(records), Rate(currency))
  }

  /** `remainingOps`: what is left of the operations budget after the expenses. */
  function RemainingOps(parsed: Option<real>, risk: Risk, expenses: seq<Expense>, currency: Currency): real
  {
    Calculate(parsed, risk).ops - TotalSpent(expenses, currency)
  }

  /** `pkPosition`: where the strategy slider sits, in percent of its width. */
  function PkPosition(risk: Risk): (position: int)
    ensures 0 < position < 100
  {
    if risk == Conservative then 15 else if risk == Balanced then 50 else 85
  }

  /** The fold is the starting sum plus the rate times the plain sum. */
  lemma {:induction false} ReduceIsScaledSum(sum: real, amounts: seq<real>, rate: real)
    ensures ReduceConverted(sum, amounts, rate) == sum + rate * Sum(amounts)
    decreases amounts
  {
    if amounts != [] {
      ReduceIsScaledSum(sum + amounts[0] * rate, amounts[1..], rate);
      assert rate * Sum(amounts) == amounts[0] * rate + rate * Sum(amounts[1..]);
    }
  }

  /** Appending one amount adds it to the plain sum. */
  lemma {:induction false} SumAppend(amounts: seq<real>, x: real)
    ensures Sum(amounts + [x]) == Sum(amounts) + x
  {
    if amounts == [] {
      assert amounts + [x] == [x];
    } else {
      assert (amounts + [x])[1..] == amounts[1..] + [x];
      SumAppend(amounts[1..], x);
    }
  }

  /** A sum of non-negative amounts is non-negative. */
  lemma {:induction false} SumNonNegative(amounts: seq<real>)
    requires forall i :: 0 <= i < |amounts| ==> amounts[i] >= 0.0
    ensures Sum(amounts) >= 0.0
  {
    if amounts != [] {
      SumNonNegative(amounts[1..]);
    }
  }

  /**
   * The totals are the rate times the plain sums of their lists, and zero
   * for empty lists.
   */
  lemma TotalsAreConvertedSums(expenses: seq<Expense>, records: seq<IncomeRecord>, currency: Currency)
    ensures TotalSpent(expenses, currency) == Rate(currency) * Sum(ExpenseAmounts(expenses))
    ensures ActualRevenue(records, currency) == Rate(currency) * Sum(IncomeAmounts(records))
    ensures TotalSpent([], currency) == 0.0 && ActualRevenue([], currency) == 0.0
  {
    ReduceIsScaledSum(0.0, ExpenseAmounts(expenses), Rate(currency));
    ReduceIsScaledSum(0.0, IncomeAmounts(records), Rate(currency));
  }

  /** Logging one more expense raises the total spent by its converted amount. */
  lemma TotalSpentStep(expenses: seq<Expense>, e: Expense, currency: Currency)
    ensures TotalSpent(expenses + [e], currency) == TotalSpent(expenses, currency) + e.amount * Rate(currency)
  {
    assert ExpenseAmounts(expenses + [e]) == ExpenseAmounts(expenses) + [e.amount];
    ReduceIsScaledSum(0.0, ExpenseAmounts(expenses), Rate(currency));
    ReduceIsScaledSum(0.0, ExpenseAmounts(expenses) + [e.amount], Rate(currency));
    SumAppend(ExpenseAmounts(expenses), e.amount);
  }

  /** With non-negative expense amounts the total spent is non-negative. */
  lemma TotalSpentNonNegative(expenses: seq<Expense>, currency: Currency)
    requires forall i :: 0 <= i < |expenses| ==> expenses[i].amount >= 0.0
    ensures TotalSpent(expenses, currency) >= 0.0
  {
    ReduceIsScaledSum(0.0, ExpenseAmounts(expenses), Rate(currency));
    SumNonNegative(ExpenseAmounts(expenses));
  }

  /**
   * The remaining budget and the total spent make up the operations share;
   * with no expenses the whole share remains, and it stays non-negative
   * exactly while the spending is within the share.
   */
  lemma RemainingOpsBalances(parsed: Option<real>, risk: Risk, expenses: seq<Expense>, currency: Currency)
    ensures RemainingOps(parsed, risk, expenses, currency) + TotalSpent(expenses, currency)
            == Calculate(parsed, risk).ops
    ensures RemainingOps(parsed, risk, [], currency) == Calculate(parsed, risk).ops
    ensures RemainingOps(parsed, risk, expenses, currency) >= 0.0
            <==> TotalSpent(expenses, currency) <= Calculate(parsed, risk).ops
  {
    TotalsAreConvertedSums([], [], currency);
  }

  /**
   * The slider moves right exactly as the investment share grows and the
   * savings share shrinks: 15, 50, 85 for conservative, balanced, aggressive.
   */
  lemma PkPositionFollowsRisk(parsed: Option<real>, a: Risk, b: Risk)
    ensures PkPosition(Conservative) == 15 && PkPosition(Balanced) == 50 && PkPosition(Aggressive) == 85
    ensures PkPosition(a) < PkPosition(b) <==> Calculate(parsed, a).investPct < Calculate(parsed, b).investPct
    ensures PkPosition(a) < PkPosition(b) <==> Calculate(parsed, a).savingsPct > Calculate(parsed, b).savingsPct
  {
  }
}
