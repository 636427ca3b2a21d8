/** The figures of `renderSummary`: income, expense and balance totals and
    the bounded spending percentage of the progress bar. */
module Summary {
  import opened Records
  import opened Seqs

  /** The test `t => t.type === kind`. */
  function HasKind(kind: string): Transaction -> bool {
    (t: Transaction) => t.kind == kind
  }

  /** `reduce((s, t) => s + Number(t.amount), 0)`: the amounts added up from left to right. */
  function SumAmounts(s: seq<Transaction>): nat {
    if s == [] then 0 else SumAmounts(s[..|s| - 1]) + s[|s| - 1].amount
  }

  /** The sum of the amounts of the records of type "income". */
  function Income(s: seq<Transaction>): nat {
    SumAmounts(Keep(s, HasKind(INCOME)))
  }

  /** The sum of the amounts of the records of type "expense". */
  function Expense(s: seq<Transaction>): nat {
    SumAmounts(Keep(s, HasKind(EXPENSE)))
  }

  datatype Totals = Totals(income: nat, expense: nat, balance: int)

  /** Income, expense and balance of a list of records; applied to the
      selected month's records and, without the balance, to all records. */
  function Summarize(s: seq<Transaction>): Totals {
    Totals(Income(s), Expense(s), Income(s) - Expense(s))
  }

  /** Adds two summaries figure by figure. */
  function Combine(x: Totals, y: Totals): Totals {
    Totals(x.income + y.income, x.expense + y.expense, x.balance + y.balance)
  }

  /** Sums distribute over concatenation. */
  lemma {:induction false} SumAmountsAppend(a: seq<Transaction>, b: seq<Transaction>)
    ensures SumAmounts(a + b) == SumAmounts(a) + SumAmounts(b)
    decreases |b|
  {
    if b == [] {
      assert a + b == a;
    } else {
      var b' := b[..|b| - 1];
      assert (a + b)[..|a + b| - 1] == a + b';
      SumAmountsAppend(a, b');
    }
  }

  /** The summary of two lists of records together is the sum of their summaries. */
  lemma {:induction false} SummarizeAdditive(a: seq<Transaction>, b: seq<Transaction>)
    ensures Summarize(a + b) == Combine(Summarize(a), Summarize(b))
  {
    KindSumAdditive(a, b, INCOME);
    KindSumAdditive(a, b, EXPENSE);
    var x: int, y: int := Income(a + b), Expense(a + b);
    assert x == Income(a) + Income(b);
    assert y == Expense(a) + Expense(b);
    assert x - y == (Income(a) - Expense(a)) + (Income(b) - Expense(b));
  }

  /** The total of one type over two lists of records together is the sum of their totals. */
  lemma {:induction false} KindSumAdditive(a: seq<Transaction>, b: seq<Transaction>, kind: string)
    ensures SumAmounts(Keep(a + b, HasKind(kind)))
            == SumAmounts(Keep(a, HasKind(kind))) + SumAmounts(Keep(b, HasKind(kind)))
  {
    KeepAppend(a, b, HasKind(kind));
    SumAmountsAppend(Keep(a, HasKind(kind)), Keep(b, HasKind(kind)));
  }

  /** One more record adds its amount to the income total if its type is
      "income", to the expense total if its type is "expense", and to
      neither otherwise. */
  lemma {:induction false} SummarizeOneMore(s: seq<Transaction>, t: Transaction)
    ensures Summarize(s + [t]).income == Summarize(s).income + (if t.kind == INCOME then t.amount else 0)
    ensures Summarize(s + [t]).expense == Summarize(s).expense + (if t.kind == EXPENSE then t.amount else 0)
  {
    SummarizeAdditive(s, [t]);
    var one: seq<Transaction> := [t];
    assert one[..0] == [];
    assert Keep(one, HasKind(INCOME)) == if t.kind == INCOME then one else [];
    assert Keep(one, HasKind(EXPENSE)) == if t.kind == EXPENSE then one else [];
  }

  /** The monthly totals are bounded by the all-time totals. */
  lemma {:induction false} SubsetTotalsBounded(s: seq<Transaction>, p: Transaction -> bool)
    ensures Income(Keep(s, p)) <= Income(s) && Expense(Keep(s, p)) <= Expense(s)
    decreases |s|
  {
    if s != [] {
      var init, last := s[..|s| - 1], s[|s| - 1];
      assert s == init + [last];
      SubsetTotalsBounded(init, p);
      KeepAppend(init, [last], p);
      SummarizeAdditive(init, [last]);
      SummarizeAdditive(Keep(init, p), Keep([last], p));
      var one: seq<Transaction> := [last];
      assert one[..0] == [];
      assert Keep(one, p) == if p(last) then one else [];
    }
  }

  /** `Math.round(x)` for `x >= 0`, with `x = n / d`: the nearest integer,
      halves rounded up. */
  function RoundQuotient(n: nat, d: nat): (r: nat)
    requires d > 0
    ensures (2 * r) * d <= 2 * n + d < (2 * r + 2) * d
  {
    (2 * n + d) / (2 * d)
  }

  /** The progress-bar width: expense as a percentage of income, rounded and
      capped at 100; with no income, 100 if anything was spent and 0 if not. */
  function SpendingPercent(income: nat, expense: nat): (pct: nat)
    ensures pct <= 100
    ensures income == 0 ==> pct == (if expense > 0 then 100 else 0)
    ensures income > 0 ==> (pct == 100 <==> 199 * income <= 200 * expense)
    ensures income > 0 && pct < 100 ==>
              2 * pct * income <= 200 * expense + income < 2 * pct * income + 2 * income
  {
    if income > 0 then
      var r := RoundQuotient(100 * expense, income);
      RoundCapped(r, income, expense);
      if r < 100 then r else 100
    else if expense > 0 then 100 else 0
  }

  /** The rounded percentage reaches the cap exactly when `200 * expense`
      is at least `199 * income`. */
  lemma RoundCapped(r: nat, income: nat, expense: nat)
    requires income > 0
    requires (2 * r) * income <= 2 * (100 * expense) + income < (2 * r + 2) * income
    ensures r >= 100 <==> 199 * income <= 200 * expense
  {
    if r >= 100 {
      ScaleLe(200, 2 * r, income);
    } else {
      ScaleLe(2 * r + 2, 200, income);
    }
  }

  /** Multiplying both sides by a natural number keeps an inequality. */
  lemma ScaleLe(a: int, b: int, c: nat)
    requires a <= b
    ensures a * c <= b * c
  {
  }

  /** The percentages the progress bar shows for sample totals. */
  lemma SpendingPercentExamples()
    ensures SpendingPercent(1000, 1500) == 100
    ensures SpendingPercent(1000, 250) == 25
    ensures SpendingPercent(0, 0) == 0
    ensures SpendingPercent(0, 5) == 100
    ensures SpendingPercent(5000, 1200) == 24
  {
  }
}
