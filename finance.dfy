/**
  The ledger screen (components/FinancialManager.tsx:12-21): the list under
  the type filter chosen in the UI, and the income, expense and net totals,
  which are taken over every transaction the screen is given.
 */
module Finance {
  import opened Types
  import opened Seqs

  /** The filter buttons: 'ALL', 'INCOME' or 'EXPENSE'. */
  datatype TxFilter = All | OnlyIncome | OnlyExpense

  /** `filterType === 'ALL' || t.type === filterType`. */
  predicate Selects(f: TxFilter, t: Transaction)
  {
    match f
    case All => true
    case OnlyIncome => t.kind == Income
    case OnlyExpense => t.kind == Expense
  }

  function Selector(f: TxFilter): Transaction -> bool
  {
    (t: Transaction) => Selects(f, t)
  }

  function OfKind(k: TxType): Transaction -> bool
  {
    (t: Transaction) => t.kind == k
  }

  function Amount(t: Transaction): real
  {
    t.amount
  }

  /** The listed transactions (line 12). */
  function FilteredTransactions(txs: seq<Transaction>, f: TxFilter): seq<Transaction>
  {
    Filter(txs, Selector(f))
  }

  /** The income card (line 13): the sum of the income amounts. */
  function TotalIncome(txs: seq<Transaction>): real
  {
    Sum(Filter(txs, OfKind(Income)), Amount)
  }

  /** The expense card (line 14). */
  function TotalExpense(txs: seq<Transaction>): real
  {
    Sum(Filter(txs, OfKind(Expense)), Amount)
  }

  /** The net balance card (line 21). */
  function NetBalance(txs: seq<Transaction>): real
  {
    TotalIncome(txs) - TotalExpense(txs)
  }

  /** The "all" filter lists the transactions unchanged, in order. */
  lemma FilterAllIsIdentity(txs: seq<Transaction>)
    ensures FilteredTransactions(txs, All) == txs
  {
    FilterKeepsAll(txs, Selector(All));
  }

  /** A type filter lists exactly the transactions of that type, in their order. */
  lemma FilterByKind(txs: seq<Transaction>, k: TxType)
    ensures FilteredTransactions(txs, if k == Income then OnlyIncome else OnlyExpense) == Filter(txs, OfKind(k))
    ensures forall t :: t in FilteredTransactions(txs, if k == Income then OnlyIncome else OnlyExpense) <==> t in txs && t.kind == k
  {
    var f := if k == Income then OnlyIncome else OnlyExpense;
    FilterCongruent(txs, Selector(f), OfKind(k));
  }

  /**
    Every transaction is income or expense, so the two type filters split
    the ledger: their lengths add up to its length, together they hold each
    transaction once, and the two totals add up to the sum of all amounts.
   */
  lemma KindsPartition(txs: seq<Transaction>)
    ensures |FilteredTransactions(txs, OnlyIncome)| + |FilteredTransactions(txs, OnlyExpense)| == |txs|
    ensures multiset(FilteredTransactions(txs, OnlyIncome)) + multiset(FilteredTransactions(txs, OnlyExpense)) == multiset(txs)
    ensures TotalIncome(txs) + TotalExpense(txs) == Sum(txs, Amount)
  {
    FilterByKind(txs, Income);
    FilterByKind(txs, Expense);
    FilterPartition(txs, OfKind(Income), OfKind(Expense));
    SumPartition(txs, Amount, OfKind(Income), OfKind(Expense));
  }

  /** An income counts plus, an expense minus. */
  function Signed(t: Transaction): real
  {
    if t.kind == Income then t.amount else -t.amount
  }

  /** The net balance is the signed sum of the ledger. */
  lemma {:induction false} NetIsSignedSum(txs: seq<Transaction>)
    ensures NetBalance(txs) == Sum(txs, Signed)
  {
    if |txs| > 0 {
      var t, rest := txs[0], txs[1..];
      NetIsSignedSum(rest);
      assert txs == [t] + rest;
      FilterConcat([t], rest, OfKind(Income));
      FilterConcat([t], rest, OfKind(Expense));
      SumConcat(Filter([t], OfKind(Income)), Filter(rest, OfKind(Income)), Amount);
      SumConcat(Filter([t], OfKind(Expense)), Filter(rest, OfKind(Expense)), Amount);
      SumCons(t, rest, Signed);
      if t.kind == Income {
        assert Filter([t], OfKind(Income)) == [t];
        assert Filter([t], OfKind(Expense)) == [];
      } else {
        assert Filter([t], OfKind(Income)) == [];
        assert Filter([t], OfKind(Expense)) == [t];
      }
    }
  }

  /** Totals are taken over both ledgers added together as the sums of each. */
  lemma TotalsAdditive(a: seq<Transaction>, b: seq<Transaction>)
    ensures TotalIncome(a + b) == TotalIncome(a) + TotalIncome(b)
    ensures TotalExpense(a + b) == TotalExpense(a) + TotalExpense(b)
    ensures NetBalance(a + b) == NetBalance(a) + NetBalance(b)
  {
    FilterConcat(a, b, OfKind(Income));
    FilterConcat(a, b, OfKind(Expense));
    SumConcat(Filter(a, OfKind(Income)), Filter(b, OfKind(Income)), Amount);
    SumConcat(Filter(a, OfKind(Expense)), Filter(b, OfKind(Expense)), Amount);
  }

  /** What the screen shows for one choice of filter. */
  datatype LedgerView = LedgerView(listed: seq<Transaction>, income: real, expense: real, net: real)

  function View(txs: seq<Transaction>, f: TxFilter): LedgerView
  {
    LedgerView(FilteredTransactions(txs, f), TotalIncome(txs), TotalExpense(txs), NetBalance(txs))
  }

  /** Changing the filter changes the list and nothing else: the three cards stay as they are. */
  lemma CardsIgnoreFilter(txs: seq<Transaction>, f: TxFilter, g: TxFilter)
    ensures View(txs, f).(listed := []) == View(txs, g).(listed := [])
    ensures View(txs, f).net == View(txs, f).income - View(txs, f).expense
  {
  }
}
