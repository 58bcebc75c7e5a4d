/**
 * The records the projector and the reports read and produce, with an
 * `Option` for every field that may be null or missing.
 */
module Models {
  import opened Common
  import opened Calendar

  datatype TransactionStatus = Posted | Pending

  /**
   * A ledger entry. The source keeps `date` as "%Y-%m-%d" text; the model
   * keeps the date itself, whose text is `Calendar.FormatIso(date)`. The id
   * comes from an injected counter instead of a random UUID.
   */
  datatype Transaction = Transaction(
    id: nat,
    date: Date,
    description: string,
    amount: real,
    accountId: string,
    category: string,
    status: TransactionStatus)

  datatype Frequency = Monthly | Biweekly | Annual

  /** A rule that generates a transaction periodically; `startDate` is unparsed text. */
  datatype RecurringItem = RecurringItem(
    recurringId: string,
    description: string,
    amount: real,
    category: string,
    accountId: string,
    frequency: Frequency,
    startDate: string,
    dayOfMonth: Option<int>)

  datatype FinancialType = Asset | Liability

  /** An asset or liability account with its optional, type-specific fields. */
  datatype MasterAccount = MasterAccount(
    accountId: string,
    accountName: string,
    financialType: FinancialType,
    value: real,
    status: Option<string>,
    notes: Option<string>,
    assetClass: Option<string>,
    monthlyIncome: Option<real>,
    apy: Option<real>,
    liabilityClass: Option<string>,
    monthlyPayment: Option<real>,
    apr: Option<real>,
    dueDay: Option<int>,
    payingAccountId: Option<string>,
    creditLimit: Option<real>,
    introApr: Option<real>,
    introAprDeadline: Option<string>)

  datatype ExpenseType = Fixed | Variable

  /** A bill or estimate of `amount` that recurs every `periodMonths` months. */
  datatype BudgetItem = BudgetItem(
    itemId: string,
    itemName: string,
    expenseType: ExpenseType,
    amount: real,
    periodMonths: real,
    dueDay: Option<int>)

  /** One savings rule: an entry whose keys may be missing. */
  datatype Contribution = Contribution(name: Option<string>, monthlyAmount: Option<real>)

  /**
   * The savings rules. `baseContribution` is `None` when the entry is
   * missing or empty; `Some` holds an entry with at least one key.
   */
  datatype SavingsData = SavingsData(
    baseContribution: Option<Contribution>,
    paidOffDebtContributions: seq<Contribution>)
}
