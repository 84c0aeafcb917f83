/** The balance shown at the top of the application. */
module App {
  import opened Records
  import opened Amounts

  /** `INITIAL_BALANCE`. */
  const InitialBalance: int := 10000

  /** `availableBalance`: the initial balance less the total of the expenses. */
  function AvailableBalance(expenses: seq<Expense>): (balance: int)
    ensures balance + Sum(expenses) == InitialBalance
    ensures balance < 0 <==> Sum(expenses) > InitialBalance
    ensures expenses == [] ==> balance == InitialBalance
  {
    InitialBalance - Sum(expenses)
  }

  /** A new expense of amount `a` raises the total by `a` and lowers the
      balance by `a`. */
  lemma NewExpenseLowersBalance(expenses: seq<Expense>, e: Expense)
    ensures Sum(expenses + [e]) == Sum(expenses) + e.amount
    ensures AvailableBalance(expenses + [e]) == AvailableBalance(expenses) - e.amount
  {
    SumAppend(expenses, e);
  }

  /** The balance depends on which expenses there are, not on their order:
      any reordering of the same expenses leaves the same balance. */
  lemma BalanceIgnoresOrder(a: seq<Expense>, b: seq<Expense>)
    requires multiset(a) == multiset(b)
    ensures AvailableBalance(a) == AvailableBalance(b)
  {
    SumOfPermutation(a, b);
  }

  /** In particular, two lists of expenses give the same balance whichever
      comes first. */
  lemma BalanceOfConcatenation(a: seq<Expense>, b: seq<Expense>)
    ensures AvailableBalance(a + b) == AvailableBalance(b + a)
  {
    assert multiset(a + b) == multiset(b + a);
    BalanceIgnoresOrder(a + b, b + a);
  }
}
