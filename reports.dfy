/**
 * The report engine: folds over account, budget and savings records that
 * produce the assets, liabilities, budget and savings tables and the
 * four-line cashflow summary. A table is a sequence of typed rows in which
 * every report column exists and a `None` cell is a null.
 */
module Reports {
  import opened Common
  import opened Calendar
  import opened Models

  /**
   * A report frame: `Blank` is a frame with neither rows nor columns;
   * `Table(rows)` has the report's fixed columns (and may have no rows).
   */
  datatype Frame<R> = Blank | Table(rows: seq<R>)

  // ---------------------------------------------------------------------------
  // Column sums

  /** `Series.sum()` of a column without nulls. */
  function Sum(xs: seq<real>): real {
    if xs == [] then 0.0 else xs[0] + Sum(xs[1..])
  }

  /** `Series.sum()` of a column with nulls: the nulls are skipped. */
  function SumPresent(xs: seq<Option<real>>): real {
    if xs == [] then 0.0 else xs[0].GetOr(0.0) + SumPresent(xs[1..])
  }

  /** `(values.fillna(0) * rates.fillna(0)).sum()`. */
  function WeightedSum(values: seq<real>, rates: seq<Option<real>>): real
    requires |values| == |rates|
  {
    if values == [] then 0.0 else values[0] * rates[0].GetOr(0.0) + WeightedSum(values[1..], rates[1..])
  }

  /** The value-weighted average rate, 0 when the values add up to 0. */
  function WeightedAverage(values: seq<real>, rates: seq<Option<real>>): (r: real)
    requires |values| == |rates|
    ensures Sum(values) == 0.0 ==> r == 0.0
    ensures Sum(values) != 0.0 ==> r * Sum(values) == WeightedSum(values, rates)
  {
    if Sum(values) != 0.0 then WeightedSum(values, rates) / Sum(values) else 0.0
  }

  lemma {:induction false} SumAppend(xs: seq<real>, ys: seq<real>)
    ensures Sum(xs + ys) == Sum(xs) + Sum(ys)
    decreases |xs|
  {
    if xs == [] {
      assert xs + ys == ys;
    } else {
      var zs := xs + ys;
      assert zs[0] == xs[0] && zs[1..] == xs[1..] + ys;
      SumAppend(xs[1..], ys);
    }
  }

  lemma {:induction false} SumPresentAppend(xs: seq<Option<real>>, ys: seq<Option<real>>)
    ensures SumPresent(xs + ys) == SumPresent(xs) + SumPresent(ys)
    decreases |xs|
  {
    if xs == [] {
      assert xs + ys == ys;
    } else {
      var zs := xs + ys;
      assert zs[0] == xs[0] && zs[1..] == xs[1..] + ys;
      SumPresentAppend(xs[1..], ys);
    }
  }

  /** Halving every entry halves the sum. */
  lemma {:induction false} SumHalves(xs: seq<real>, hs: seq<real>)
    requires |hs| == |xs| && forall i :: 0 <= i < |xs| ==> hs[i] == xs[i] / 2.0
    ensures Sum(hs) == Sum(xs) / 2.0
    decreases |xs|
  {
    if xs != [] {
      SumHalves(xs[1..], hs[1..]);
    }
  }

  /** Scaling by a non-negative factor keeps the order. */
  lemma ScaleMonotone(v: real, x: real, y: real)
    requires v >= 0.0 && x <= y
    ensures v * x <= v * y
  {
    var d := y - x;
    assert v * y == v * x + v * d;
    assert v * d >= 0.0;
  }

  /** With non-negative values and every rate present and at most `hi`, the weighted sum is at most `hi` times the total. */
  lemma {:induction false} WeightedSumAtMost(values: seq<real>, rates: seq<Option<real>>, hi: real)
    requires |values| == |rates|
    requires forall i :: 0 <= i < |values| ==> values[i] >= 0.0 && rates[i].Some? && rates[i].value <= hi
    ensures WeightedSum(values, rates) <= hi * Sum(values)
    decreases |values|
  {
    if values != [] {
      WeightedSumAtMost(values[1..], rates[1..], hi);
      ScaleMonotone(values[0], rates[0].value, hi);
    }
  }

  /** With non-negative values and every rate present and at least `lo`, the weighted sum is at least `lo` times the total. */
  lemma {:induction false} WeightedSumAtLeast(values: seq<real>, rates: seq<Option<real>>, lo: real)
    requires |values| == |rates|
    requires forall i :: 0 <= i < |values| ==> values[i] >= 0.0 && rates[i].Some? && rates[i].value >= lo
    ensures WeightedSum(values, rates) >= lo * Sum(values)
    decreases |values|
  {
    if values != [] {
      WeightedSumAtLeast(values[1..], rates[1..], lo);
      ScaleMonotone(values[0], lo, rates[0].value);
    }
  }

  lemma {:induction false} SumNonNegative(values: seq<real>)
    requires forall i :: 0 <= i < |values| ==> values[i] >= 0.0
    ensures Sum(values) >= 0.0
    decreases |values|
  {
    if values != [] {
      SumNonNegative(values[1..]);
    }
  }

  /** The quotient `r` of `w` by a positive total `s` lies in `[lo, hi]` when `w` lies between `lo` and `hi` times `s`. */
  lemma FactorBounds(w: real, r: real, s: real, lo: real, hi: real)
    requires s > 0.0 && r * s == w && lo * s <= w <= hi * s
    ensures lo <= r <= hi
  {
    assert (r - hi) * s <= 0.0;
    assert (r - lo) * s >= 0.0;
  }

  /** A weighted sum between `lo` and `hi` times a positive total gives an average in `[lo, hi]`. */
  lemma AverageWithin(values: seq<real>, rates: seq<Option<real>>, lo: real, hi: real)
    requires |values| == |rates| && Sum(values) > 0.0
    requires lo * Sum(values) <= WeightedSum(values, rates) <= hi * Sum(values)
    ensures lo <= WeightedAverage(values, rates) <= hi
  {
    FactorBounds(WeightedSum(values, rates), WeightedAverage(values, rates), Sum(values), lo, hi);
  }

  /**
   * The weighted average of rates that all lie in `[lo, hi]`, over
   * non-negative values, lies in `[lo, hi]` too (or is the 0 of an all-zero total).
   */
  lemma WeightedAverageBounds(values: seq<real>, rates: seq<Option<real>>, lo: real, hi: real)
    requires |values| == |rates|
    requires forall i :: 0 <= i < |values| ==> values[i] >= 0.0 && rates[i].Some? && lo <= rates[i].value <= hi
    ensures Sum(values) != 0.0 ==> lo <= WeightedAverage(values, rates) <= hi
  {
    if Sum(values) != 0.0 {
      WeightedSumAtMost(values, rates, hi);
      WeightedSumAtLeast(values, rates, lo);
      SumNonNegative(values);
      AverageWithin(values, rates, lo, hi);
    }
  }

  lemma {:induction false} WeightedSumUniform(values: seq<real>, rates: seq<Option<real>>, c: real)
    requires |values| == |rates| && forall i :: 0 <= i < |rates| ==> rates[i] == Some(c)
    ensures WeightedSum(values, rates) == c * Sum(values)
    decreases |values|
  {
    if values != [] {
      WeightedSumUniform(values[1..], rates[1..], c);
    }
  }

  /** When every row carries the same rate `c`, the average is `c` (for any non-zero total, negative values included). */
  lemma WeightedAverageUniform(values: seq<real>, rates: seq<Option<real>>, c: real)
    requires |values| == |rates| && forall i :: 0 <= i < |rates| ==> rates[i] == Some(c)
    ensures Sum(values) != 0.0 ==> WeightedAverage(values, rates) == c
  {
    WeightedSumUniform(values, rates, c);
  }

  // ---------------------------------------------------------------------------
  // Selecting asset or liability accounts

  /** `accounts_df[accounts_df['financial_type'] == t]`: the accounts of type `t`, in order. */
  function OfType(accounts: seq<MasterAccount>, t: FinancialType): (r: seq<MasterAccount>)
    ensures |r| <= |accounts|
    ensures forall a :: a in r ==> a in accounts && a.financialType == t
  {
    if accounts == [] then []
    else (if accounts[0].financialType == t then [accounts[0]] else []) + OfType(accounts[1..], t)
  }

  /** Every account of type `t` is selected, and nothing else is dropped. */
  lemma {:induction false} OfTypeComplete(accounts: seq<MasterAccount>, t: FinancialType)
    ensures forall a :: a in accounts && a.financialType == t ==> a in OfType(accounts, t)
    ensures OfType(accounts, t) == [] <==> forall i :: 0 <= i < |accounts| ==> accounts[i].financialType != t
    decreases |accounts|
  {
    if accounts != [] {
      OfTypeComplete(accounts[1..], t);
      assert forall i :: 1 <= i < |accounts| ==> accounts[i] == accounts[1..][i - 1];
    }
  }

  /** Selecting from a sequence that starts with `a` starts with the selection from `[a]`. */
  lemma OfTypeCons(a: MasterAccount, rest: seq<MasterAccount>, t: FinancialType)
    ensures OfType([a] + rest, t) == OfType([a], t) + OfType(rest, t)
  {
    assert ([a] + rest)[0] == a && ([a] + rest)[1..] == rest;
    assert [a][1..] == [];
  }

  /** Selecting from a concatenation concatenates the selections: the filter keeps input order and repeats. */
  lemma {:induction false} OfTypeAppend(xs: seq<MasterAccount>, ys: seq<MasterAccount>, t: FinancialType)
    ensures OfType(xs + ys, t) == OfType(xs, t) + OfType(ys, t)
    decreases |xs|
  {
    if xs == [] {
      assert xs + ys == ys;
    } else {
      OfTypeAppend(xs[1..], ys, t);
      OfTypeAppendStep(xs[0], xs[1..], ys, t);
      assert [xs[0]] + xs[1..] == xs;
    }
  }

  /** The step of `OfTypeAppend`: a first account in front of both sides. */
  lemma OfTypeAppendStep(a: MasterAccount, xs: seq<MasterAccount>, ys: seq<MasterAccount>, t: FinancialType)
    requires OfType(xs + ys, t) == OfType(xs, t) + OfType(ys, t)
    ensures OfType([a] + xs + ys, t) == OfType([a] + xs, t) + OfType(ys, t)
  {
    ConcatAssoc([a], xs, ys);
    OfTypeCons(a, xs + ys, t);
    OfTypeCons(a, xs, t);
    ConcatAssoc(OfType([a], t), OfType(xs, t), OfType(ys, t));
  }

  lemma ConcatAssoc<T>(a: seq<T>, b: seq<T>, c: seq<T>)
    ensures a + (b + c) == a + b + c
  {
  }

  /** A single account is kept exactly when it has type `t`. */
  lemma OfTypeSingle(a: MasterAccount, t: FinancialType)
    ensures OfType([a], t) == (if a.financialType == t then [a] else [])
  {
    assert [a][1..] == [];
  }

  // ---------------------------------------------------------------------------
  // Assets report

  datatype AssetRow = AssetRow(
    accountName: string,
    value: real,
    monthlyIncome: Option<real>,
    apy: Option<real>,
    assetClass: Option<string>)

  /** An asset account's row: its own cells under the report's columns. */
  function AssetRowOf(a: MasterAccount): AssetRow {
    AssetRow(a.accountName, a.value, a.monthlyIncome, a.apy, a.assetClass)
  }

  function AssetRows(assets: seq<MasterAccount>): (rs: seq<AssetRow>)
    ensures |rs| == |assets|
  {
    seq(|assets|, i requires 0 <= i < |assets| => AssetRowOf(assets[i]))
  }

  function AssetValues(rs: seq<AssetRow>): (vs: seq<real>)
    ensures |vs| == |rs|
  {
    seq(|rs|, i requires 0 <= i < |rs| => rs[i].value)
  }

  function AssetIncomes(rs: seq<AssetRow>): (xs: seq<Option<real>>)
    ensures |xs| == |rs|
  {
    seq(|rs|, i requires 0 <= i < |rs| => rs[i].monthlyIncome)
  }

  function AssetApys(rs: seq<AssetRow>): (xs: seq<Option<real>>)
    ensures |xs| == |rs|
  {
    seq(|rs|, i requires 0 <= i < |rs| => rs[i].apy)
  }

  /** The "Total Assets" row over the asset rows: total value, total income and the value-weighted APY. */
  function AssetsTotal(rs: seq<AssetRow>): AssetRow {
    AssetRow("Total Assets", Sum(AssetValues(rs)), Some(SumPresent(AssetIncomes(rs))),
             Some(WeightedAverage(AssetValues(rs), AssetApys(rs))), None)
  }

  /** `generate_assets_report`. */
  function AssetsReport(accounts: seq<MasterAccount>): (f: Frame<AssetRow>)
    ensures f.Blank? <==> accounts == []
    ensures f.Table? ==> |f.rows| == 0 || |f.rows| == |OfType(accounts, Asset)| + 1
  {
    if accounts == [] then Blank
    else
      var assets := OfType(accounts, Asset);
      if assets == [] then Table([])
      else Table(AssetRows(assets) + [AssetsTotal(AssetRows(assets))])
  }

  /**
   * The assets report: blank for no accounts, no rows when no account is an
   * asset, and otherwise one row per asset account in input order followed
   * by exactly one total row over the rows above it: their total value,
   * their total monthly income with nulls skipped, and their value-weighted
   * APY (0 on a zero total value), with no asset class.
   */
  lemma AssetsReportShape(accounts: seq<MasterAccount>)
    ensures AssetsReport(accounts).Blank? <==> accounts == []
    ensures AssetsReport(accounts) == Table([]) <==>
      accounts != [] && forall i :: 0 <= i < |accounts| ==> accounts[i].financialType != Asset
    ensures var f := AssetsReport(accounts);
      f.Table? && f.rows != [] ==>
        var n := |f.rows| - 1;
        var assets := OfType(accounts, Asset);
        var above := f.rows[..n];
        n == |assets| &&
        (forall i :: 0 <= i < n ==> f.rows[i] == AssetRowOf(assets[i])) &&
        f.rows[n].accountName == "Total Assets" &&
        f.rows[n].value == Sum(AssetValues(above)) &&
        f.rows[n].monthlyIncome == Some(SumPresent(AssetIncomes(above))) &&
        f.rows[n].apy == Some(WeightedAverage(AssetValues(above), AssetApys(above))) &&
        f.rows[n].assetClass.None?
  {
    OfTypeComplete(accounts, Asset);
    var f := AssetsReport(accounts);
    if f.Table? && f.rows != [] {
      var n := |f.rows| - 1;
      assert f.rows[..n] == AssetRows(OfType(accounts, Asset));
    }
  }

  /** When every asset has an APY in `[lo, hi]` and no value is negative, so has the total row. */
  lemma AssetsTotalApyBounds(accounts: seq<MasterAccount>, lo: real, hi: real)
    requires forall a :: a in accounts && a.financialType == Asset ==> a.value >= 0.0 && a.apy.Some? && lo <= a.apy.value <= hi
    requires Sum(AssetValues(AssetRows(OfType(accounts, Asset)))) != 0.0
    ensures var total := AssetsTotal(AssetRows(OfType(accounts, Asset)));
      lo <= total.apy.value <= hi
  {
    var rs := AssetRows(OfType(accounts, Asset));
    WeightedAverageBounds(AssetValues(rs), AssetApys(rs), lo, hi);
  }

  // ---------------------------------------------------------------------------
  // Liabilities report

  /**
   * `_get_current_apr`: the introductory rate while now is strictly before
   * midnight of a deadline that reads as "%Y-%m-%d", else the standard rate.
   * The intro cell is returned as it is, null included.
   */
  function CurrentApr(a: MasterAccount, now: Timestamp): (r: Option<real>)
    ensures r == a.apr || r == a.introApr
    ensures a.introAprDeadline.None? || ParseIsoDate(a.introAprDeadline.value).None? ==> r == a.apr
  {
    match a.introAprDeadline
    case None => a.apr
    case Some(text) =>
      match ParseIsoDate(text)
      case None => a.apr
      case Some(deadline) => if Earlier(now, Midnight(deadline)) then a.introApr else a.apr
  }

  /**
   * The intro rate applies exactly when the deadline parses and its day has
   * not yet begun; on the deadline day itself the standard rate is back.
   */
  lemma CurrentAprCases(a: MasterAccount, now: Timestamp)
    requires ValidTimestamp(now)
    ensures var intro := a.introAprDeadline.Some? && ParseIsoDate(a.introAprDeadline.value).Some? &&
                         Less(now.date, ParseIsoDate(a.introAprDeadline.value).value);
      CurrentApr(a, now) == (if intro then a.introApr else a.apr)
    ensures a.introAprDeadline.Some? && ParseIsoDate(a.introAprDeadline.value) == Some(now.date) ==>
      CurrentApr(a, now) == a.apr
  {
  }

  /** Once the standard rate is back it stays back: later instants see it too. */
  lemma CurrentAprExpiryIsFinal(a: MasterAccount, now: Timestamp, later: Timestamp)
    requires ValidTimestamp(now) && ValidTimestamp(later) && AtOrBefore(now, later)
    requires a.introAprDeadline.Some? && ParseIsoDate(a.introAprDeadline.value).Some?
    requires !Earlier(now, Midnight(ParseIsoDate(a.introAprDeadline.value).value))
    ensures CurrentApr(a, later) == a.apr
  {
    var deadline := ParseIsoDate(a.introAprDeadline.value).value;
    if Less(later.date, deadline) {
      if Less(now.date, later.date) {
        LessTransitive(now.date, later.date, deadline);
      }
    }
  }

  /** `credit_limit - value`, null where the credit limit is null. */
  function AvailableCredit(a: MasterAccount): (r: Option<real>)
    ensures r.Some? <==> a.creditLimit.Some?
    ensures r.Some? ==> r.value + a.value == a.creditLimit.value
  {
    match a.creditLimit
    case None => None
    case Some(limit) => Some(limit - a.value)
  }

  datatype LiabilityRow = LiabilityRow(
    accountName: string,
    value: real,
    monthlyPayment: Option<real>,
    currentApr: Option<real>,
    dueDay: Option<int>,
    status: Option<string>,
    creditLimit: Option<real>,
    availableCredit: Option<real>,
    notes: Option<string>)

  function LiabilityRowOf(a: MasterAccount, now: Timestamp): LiabilityRow {
    LiabilityRow(a.accountName, a.value, a.monthlyPayment, CurrentApr(a, now), a.dueDay, a.status,
                 a.creditLimit, AvailableCredit(a), a.notes)
  }

  function LiabilityRows(ls: seq<MasterAccount>, now: Timestamp): (rs: seq<LiabilityRow>)
    ensures |rs| == |ls|
  {
    seq(|ls|, i requires 0 <= i < |ls| => LiabilityRowOf(ls[i], now))
  }

  function LiabilityValues(rs: seq<LiabilityRow>): (xs: seq<real>)
    ensures |xs| == |rs|
  {
    seq(|rs|, i requires 0 <= i < |rs| => rs[i].value)
  }

  function LiabilityPayments(rs: seq<LiabilityRow>): (xs: seq<Option<real>>)
    ensures |xs| == |rs|
  {
    seq(|rs|, i requires 0 <= i < |rs| => rs[i].monthlyPayment)
  }

  function LiabilityAprs(rs: seq<LiabilityRow>): (xs: seq<Option<real>>)
    ensures |xs| == |rs|
  {
    seq(|rs|, i requires 0 <= i < |rs| => rs[i].currentApr)
  }

  function LiabilityLimits(rs: seq<LiabilityRow>): (xs: seq<Option<real>>)
    ensures |xs| == |rs|
  {
    seq(|rs|, i requires 0 <= i < |rs| => rs[i].creditLimit)
  }

  function LiabilityAvailable(rs: seq<LiabilityRow>): (xs: seq<Option<real>>)
    ensures |xs| == |rs|
  {
    seq(|rs|, i requires 0 <= i < |rs| => rs[i].availableCredit)
  }

  /**
   * The "Total Liabilities" row over the derived rows: total value, payment,
   * credit limit and available credit (nulls skipped) and the value-weighted
   * current rate; the other cells are null.
   */
  function LiabilitiesTotal(rs: seq<LiabilityRow>): LiabilityRow {
    LiabilityRow("Total Liabilities", Sum(LiabilityValues(rs)), Some(SumPresent(LiabilityPayments(rs))),
                 Some(WeightedAverage(LiabilityValues(rs), LiabilityAprs(rs))), None, None,
                 Some(SumPresent(LiabilityLimits(rs))), Some(SumPresent(LiabilityAvailable(rs))), None)
  }

  /** `generate_liabilities_report` at instant `now`. */
  function LiabilitiesReport(accounts: seq<MasterAccount>, now: Timestamp): (f: Frame<LiabilityRow>)
    ensures f.Blank? <==> accounts == []
    ensures f.Table? ==> |f.rows| == 0 || |f.rows| == |OfType(accounts, Liability)| + 1
  {
    if accounts == [] then Blank
    else
      var ls := OfType(accounts, Liability);
      if ls == [] then Table([])
      else Table(LiabilityRows(ls, now) + [LiabilitiesTotal(LiabilityRows(ls, now))])
  }

  /** The values of the rows that have a credit limit (the rows whose available credit is not null). */
  function LimitedValues(rs: seq<LiabilityRow>): real {
    if rs == [] then 0.0 else (if rs[0].creditLimit.Some? then rs[0].value else 0.0) + LimitedValues(rs[1..])
  }

  /**
   * Total available credit is total credit limit minus the balances of the
   * accounts that have a limit.
   */
  lemma {:induction false} AvailableCreditTotal(ls: seq<MasterAccount>, now: Timestamp)
    ensures var rs := LiabilityRows(ls, now);
      SumPresent(LiabilityAvailable(rs)) == SumPresent(LiabilityLimits(rs)) - LimitedValues(rs)
    ensures var total := LiabilitiesTotal(LiabilityRows(ls, now));
      total.availableCredit == Some(total.creditLimit.value - LimitedValues(LiabilityRows(ls, now)))
    decreases |ls|
  {
    if ls != [] {
      AvailableCreditTotal(ls[1..], now);
      var rs := LiabilityRows(ls, now);
      assert LiabilityRows(ls[1..], now) == rs[1..];
      assert LiabilityAvailable(rs)[1..] == LiabilityAvailable(rs[1..]);
      assert LiabilityLimits(rs)[1..] == LiabilityLimits(rs[1..]);
    }
  }

  /**
   * The liabilities report: blank for no accounts, no rows when no account
   * is a liability, otherwise one row per liability in input order (its own
   * cells, with the current rate and the available credit filled in) and a
   * final total row taken over the rows above it.
   */
  lemma LiabilitiesReportShape(accounts: seq<MasterAccount>, now: Timestamp)
    ensures LiabilitiesReport(accounts, now).Blank? <==> accounts == []
    ensures LiabilitiesReport(accounts, now) == Table([]) <==>
      accounts != [] && forall i :: 0 <= i < |accounts| ==> accounts[i].financialType != Liability
    ensures var f := LiabilitiesReport(accounts, now);
      f.Table? && f.rows != [] ==>
        var n := |f.rows| - 1;
        var ls := OfType(accounts, Liability);
        n == |ls| &&
        (forall i :: 0 <= i < n ==>
          f.rows[i] == LiabilityRowOf(ls[i], now) &&
          f.rows[i].currentApr == CurrentApr(ls[i], now) &&
          f.rows[i].availableCredit == AvailableCredit(ls[i])) &&
        f.rows[n] == LiabilitiesTotal(f.rows[..n])
  {
    OfTypeComplete(accounts, Liability);
    var f := LiabilitiesReport(accounts, now);
    if f.Table? && f.rows != [] {
      var n := |f.rows| - 1;
      var ls := OfType(accounts, Liability);
      assert f.rows[..n] == LiabilityRows(ls, now);
    }
  }

  // ---------------------------------------------------------------------------
  // Budget report

  datatype BudgetRow = BudgetRow(itemName: string, dueDay: Option<int>, monthlyCost: real, perPaycheckCost: real)

  predicate PeriodsNonZero(items: seq<BudgetItem>) {
    forall i :: 0 <= i < |items| ==> items[i].periodMonths != 0.0
  }

  /** `amount / period_months`, and half of it per paycheck. */
  function BudgetRowOf(b: BudgetItem): (r: BudgetRow)
    requires b.periodMonths != 0.0
    ensures r.itemName == b.itemName && r.dueDay == b.dueDay
    ensures r.monthlyCost * b.periodMonths == b.amount
    ensures r.perPaycheckCost * 2.0 == r.monthlyCost
  {
    BudgetRow(b.itemName, b.dueDay, b.amount / b.periodMonths, b.amount / b.periodMonths / 2.0)
  }

  function BudgetRows(items: seq<BudgetItem>): (rs: seq<BudgetRow>)
    requires PeriodsNonZero(items)
    ensures |rs| == |items|
  {
    seq(|items|, i requires 0 <= i < |items| => BudgetRowOf(items[i]))
  }

  function MonthlyCosts(rs: seq<BudgetRow>): (xs: seq<real>)
    ensures |xs| == |rs|
  {
    seq(|rs|, i requires 0 <= i < |rs| => rs[i].monthlyCost)
  }

  function PaycheckCosts(rs: seq<BudgetRow>): (xs: seq<real>)
    ensures |xs| == |rs|
  {
    seq(|rs|, i requires 0 <= i < |rs| => rs[i].perPaycheckCost)
  }

  /** Ascending by due day, a missing due day after every present one. */
  predicate DueNoLater(a: Option<int>, b: Option<int>) {
    match (a, b)
    case (_, None) => true
    case (None, Some(_)) => false
    case (Some(x), Some(y)) => x <= y
  }

  predicate SortedByDueDay(rs: seq<BudgetRow>) {
    forall i, j :: 0 <= i < j < |rs| ==> DueNoLater(rs[i].dueDay, rs[j].dueDay)
  }

  /** Places `r` before the first row due later than it. */
  function Insert(r: BudgetRow, rs: seq<BudgetRow>): (out: seq<BudgetRow>)
    ensures |out| == |rs| + 1
    ensures multiset(out) == multiset(rs) + multiset{r}
  {
    if rs == [] then [r]
    else if DueNoLater(r.dueDay, rs[0].dueDay) then [r] + rs
    else
      assert rs == [rs[0]] + rs[1..];
      [rs[0]] + Insert(r, rs[1..])
  }

  /**
   * `sort_values(by='due_day', na_position='last')`: rows ascending by due
   * day with the missing ones last. Insertion sort keeps equal keys in input
   * order; that tie order is one of those the library may produce.
   */
  function SortByDueDay(rs: seq<BudgetRow>): (out: seq<BudgetRow>)
    ensures |out| == |rs|
    ensures multiset(out) == multiset(rs)
  {
    if rs == [] then []
    else
      assert rs == [rs[0]] + rs[1..];
      Insert(rs[0], SortByDueDay(rs[1..]))
  }

  lemma {:induction false} InsertSorted(r: BudgetRow, rs: seq<BudgetRow>)
    requires SortedByDueDay(rs)
    ensures SortedByDueDay(Insert(r, rs))
    decreases |rs|
  {
    if rs != [] && !DueNoLater(r.dueDay, rs[0].dueDay) {
      InsertSorted(r, rs[1..]);
      var out := Insert(r, rs);
      assert out == [rs[0]] + Insert(r, rs[1..]);
      forall j | 0 < j < |out|
        ensures DueNoLater(rs[0].dueDay, out[j].dueDay)
      {
        assert out[j] in multiset(Insert(r, rs[1..]));
        assert out[j] in multiset(rs[1..]) + multiset{r};
        if out[j] != r {
          assert out[j] in rs[1..];
          var k :| 0 <= k < |rs[1..]| && rs[1..][k] == out[j];
          assert rs[k + 1] == out[j];
        }
      }
    }
  }

  /** The sort yields rows ascending by due day, missing ones last, and keeps every row. */
  lemma {:induction false} SortByDueDaySorted(rs: seq<BudgetRow>)
    ensures SortedByDueDay(SortByDueDay(rs))
    ensures multiset(SortByDueDay(rs)) == multiset(rs)
    decreases |rs|
  {
    if rs != [] {
      SortByDueDaySorted(rs[1..]);
      InsertSorted(rs[0], SortByDueDay(rs[1..]));
    }
  }

  /** In a sorted table, every row after one without a due day lacks one too. */
  lemma SortedMissingLast(rs: seq<BudgetRow>, i: int)
    requires SortedByDueDay(rs) && 0 <= i < |rs| && rs[i].dueDay.None?
    ensures forall j :: i < j < |rs| ==> rs[j].dueDay.None?
  {
    forall j | i < j < |rs|
      ensures rs[j].dueDay.None?
    {
      assert DueNoLater(rs[i].dueDay, rs[j].dueDay);
    }
  }

  lemma SumCons(x: real, ys: seq<real>)
    ensures Sum([x] + ys) == x + Sum(ys)
  {
    assert ([x] + ys)[1..] == ys;
  }

  lemma CostsCons(r: BudgetRow, rs: seq<BudgetRow>)
    ensures Sum(MonthlyCosts([r] + rs)) == r.monthlyCost + Sum(MonthlyCosts(rs))
    ensures Sum(PaycheckCosts([r] + rs)) == r.perPaycheckCost + Sum(PaycheckCosts(rs))
  {
    assert MonthlyCosts([r] + rs) == [r.monthlyCost] + MonthlyCosts(rs);
    assert PaycheckCosts([r] + rs) == [r.perPaycheckCost] + PaycheckCosts(rs);
    SumCons(r.monthlyCost, MonthlyCosts(rs));
    SumCons(r.perPaycheckCost, PaycheckCosts(rs));
  }

  lemma {:induction false} InsertCosts(r: BudgetRow, rs: seq<BudgetRow>)
    ensures Sum(MonthlyCosts(Insert(r, rs))) == r.monthlyCost + Sum(MonthlyCosts(rs))
    ensures Sum(PaycheckCosts(Insert(r, rs))) == r.perPaycheckCost + Sum(PaycheckCosts(rs))
    decreases |rs|
  {
    if rs == [] {
      CostsCons(r, []);
    } else if DueNoLater(r.dueDay, rs[0].dueDay) {
      CostsCons(r, rs);
    } else {
      InsertCosts(r, rs[1..]);
      CostsCons(rs[0], Insert(r, rs[1..]));
      CostsCons(rs[0], rs[1..]);
      assert [rs[0]] + rs[1..] == rs;
    }
  }

  /** Sorting does not change the column totals: they may be taken before the sort. */
  lemma {:induction false} SortKeepsTotals(rs: seq<BudgetRow>)
    ensures Sum(MonthlyCosts(SortByDueDay(rs))) == Sum(MonthlyCosts(rs))
    ensures Sum(PaycheckCosts(SortByDueDay(rs))) == Sum(PaycheckCosts(rs))
    decreases |rs|
  {
    if rs != [] {
      SortKeepsTotals(rs[1..]);
      InsertCosts(rs[0], SortByDueDay(rs[1..]));
      CostsCons(rs[0], rs[1..]);
      assert [rs[0]] + rs[1..] == rs;
    }
  }

  /** The "Total Bills" row, taken over the rows before sorting. */
  function BudgetTotal(rs: seq<BudgetRow>): BudgetRow {
    BudgetRow("Total Bills", None, Sum(MonthlyCosts(rs)), Sum(PaycheckCosts(rs)))
  }

  /** `generate_budget_report`; a zero period (a division by zero) is excluded. */
  function BudgetReport(items: seq<BudgetItem>): (f: Frame<BudgetRow>)
    requires PeriodsNonZero(items)
    ensures f.Blank? <==> items == []
    ensures f.Table? ==> |f.rows| == |items| + 1 && f.rows[|items|].itemName == "Total Bills"
  {
    if items == [] then Blank
    else Table(SortByDueDay(BudgetRows(items)) + [BudgetTotal(BudgetRows(items))])
  }

  /**
   * The budget report: blank for no items; otherwise every item's row,
   * sorted by due day with missing ones last, then "Total Bills", whose
   * costs are the sums of the rows above it and whose per-paycheck cost is
   * half its monthly cost.
   */
  lemma BudgetReportShape(items: seq<BudgetItem>)
    requires PeriodsNonZero(items)
    ensures BudgetReport(items).Blank? <==> items == []
    ensures var f := BudgetReport(items);
      f.Table? ==>
        var n := |f.rows| - 1;
        n == |items| &&
        SortedByDueDay(f.rows[..n]) &&
        multiset(f.rows[..n]) == multiset(BudgetRows(items)) &&
        f.rows[n].itemName == "Total Bills" && f.rows[n].dueDay.None? &&
        f.rows[n].monthlyCost == Sum(MonthlyCosts(f.rows[..n])) &&
        f.rows[n].perPaycheckCost == Sum(PaycheckCosts(f.rows[..n])) &&
        f.rows[n].perPaycheckCost == f.rows[n].monthlyCost / 2.0
  {
    var f := BudgetReport(items);
    if f.Table? {
      var rs := BudgetRows(items);
      var n := |f.rows| - 1;
      assert f.rows[..n] == SortByDueDay(rs);
      SortByDueDaySorted(rs);
      SortKeepsTotals(rs);
      SumHalves(MonthlyCosts(rs), PaycheckCosts(rs));
    }
  }

  // ---------------------------------------------------------------------------
  // Savings report

  /** One collected contribution: its name (possibly null) and its monthly amount, 0 when missing. */
  datatype ContributionEntry = ContributionEntry(name: Option<string>, monthlyAmount: real)

  function EntryOf(c: Contribution): ContributionEntry {
    ContributionEntry(c.name, c.monthlyAmount.GetOr(0.0))
  }

  /** The base contribution when present, then the paid-off debts in input order. */
  function Contributions(data: SavingsData): (cs: seq<ContributionEntry>)
    ensures |cs| == (if data.baseContribution.Some? then 1 else 0) + |data.paidOffDebtContributions|
  {
    (match data.baseContribution
     case None => []
     case Some(base) => [EntryOf(base)]) +
    seq(|data.paidOffDebtContributions|, i requires 0 <= i < |data.paidOffDebtContributions| =>
      EntryOf(data.paidOffDebtContributions[i]))
  }

  /** The `contributions` loop of `generate_savings_report`. */
  method CollectContributions(data: SavingsData) returns (cs: seq<ContributionEntry>)
    ensures cs == Contributions(data)
  {
    cs := [];
    if data.baseContribution.Some? {
      cs := cs + [EntryOf(data.baseContribution.value)];
    }
    ghost var head := cs;
    var debts := data.paidOffDebtContributions;
    for i := 0 to |debts|
      invariant cs == head + seq(i, j requires 0 <= j < i => EntryOf(debts[j]))
    {
      cs := cs + [EntryOf(debts[i])];
    }
  }

  datatype SavingsRow = SavingsRow(contributionName: Option<string>, monthlyAmount: real, perPaycheckContribution: real)

  function SavingsRowOf(c: ContributionEntry): SavingsRow {
    SavingsRow(c.name, c.monthlyAmount, c.monthlyAmount / 2.0)
  }

  function SavingsRows(cs: seq<ContributionEntry>): (rs: seq<SavingsRow>)
    ensures |rs| == |cs|
  {
    seq(|cs|, i requires 0 <= i < |cs| => SavingsRowOf(cs[i]))
  }

  function SavedMonthly(rs: seq<SavingsRow>): (xs: seq<real>)
    ensures |xs| == |rs|
  {
    seq(|rs|, i requires 0 <= i < |rs| => rs[i].monthlyAmount)
  }

  function SavedPerPaycheck(rs: seq<SavingsRow>): (xs: seq<real>)
    ensures |xs| == |rs|
  {
    seq(|rs|, i requires 0 <= i < |rs| => rs[i].perPaycheckContribution)
  }

  /** The failure of the report as written: a column the frame does not have is read. */
  datatype ReportError = MissingColumn(column: string)

  /**
   * `generate_savings_report` as written: the total row reads the
   * per-paycheck column under the budget report's name `per_paycheck_cost`,
   * which the savings frame lacks, so every non-empty report raises.
   */
  function SavingsReportAsWritten(data: SavingsData): (r: Result<Frame<SavingsRow>, ReportError>)
    ensures r.Ok? <==> Contributions(data) == []
    ensures r.Ok? ==> r.value == SavingsReport(data)
    ensures r.Err? ==> r.error == MissingColumn("per_paycheck_cost") && SavingsReport(data).Table?
  {
    if Contributions(data) == [] then Ok(Blank) else Err(MissingColumn("per_paycheck_cost"))
  }

  /** A single base contribution already makes the report as written raise. */
  lemma SavingsReportAsWrittenRaises(amount: real)
    ensures var data := SavingsData(Some(Contribution(Some("Emergency fund"), Some(amount))), []);
      SavingsReportAsWritten(data) == Err(MissingColumn("per_paycheck_cost")) &&
      SavingsReport(data).Table? && |SavingsReport(data).rows| == 2
  {
  }

  /**
   * `generate_savings_report` as intended: one row per contribution and a
   * total row over both the monthly and the per-paycheck column.
   */
  function SavingsReport(data: SavingsData): (f: Frame<SavingsRow>)
    ensures f.Blank? <==> Contributions(data) == []
    ensures f.Table? ==>
      |f.rows| == |Contributions(data)| + 1 &&
      f.rows[|f.rows| - 1].contributionName == Some("Total Savings Contributions")
  {
    var rs := SavingsRows(Contributions(data));
    if rs == [] then Blank
    else Table(rs + [SavingsRow(Some("Total Savings Contributions"), Sum(SavedMonthly(rs)), Sum(SavedPerPaycheck(rs)))])
  }

  /**
   * The savings report: blank when there are no contributions; otherwise
   * the base contribution first (when present), the debts in order, and a
   * total row whose monthly amount sums the rows above it and whose
   * per-paycheck amount is half of that.
   */
  lemma SavingsReportShape(data: SavingsData)
    ensures SavingsReport(data).Blank? <==> data.baseContribution.None? && data.paidOffDebtContributions == []
    ensures var f := SavingsReport(data);
      f.Table? ==>
        var n := |f.rows| - 1;
        var debts := data.paidOffDebtContributions;
        var offset := if data.baseContribution.Some? then 1 else 0;
        n == offset + |debts| &&
        (data.baseContribution.Some? ==>
          f.rows[0].contributionName == data.baseContribution.value.name &&
          f.rows[0].monthlyAmount == data.baseContribution.value.monthlyAmount.GetOr(0.0)) &&
        (forall i :: 0 <= i < |debts| ==>
          f.rows[offset + i].contributionName == debts[i].name &&
          f.rows[offset + i].monthlyAmount == debts[i].monthlyAmount.GetOr(0.0)) &&
        (forall i :: 0 <= i < n ==> f.rows[i].perPaycheckContribution == f.rows[i].monthlyAmount / 2.0) &&
        f.rows[n].monthlyAmount == Sum(SavedMonthly(f.rows[..n])) &&
        f.rows[n].perPaycheckContribution == f.rows[n].monthlyAmount / 2.0
  {
    var f := SavingsReport(data);
    if f.Table? {
      var rs := SavingsRows(Contributions(data));
      var n := |f.rows| - 1;
      assert f.rows[..n] == rs;
      SumHalves(SavedMonthly(rs), SavedPerPaycheck(rs));
    }
  }

  // ---------------------------------------------------------------------------
  // Cashflow summary

  datatype SummaryRow = SummaryRow(caption: string, monthly: real, half: real)

  /** Monthly income of the asset accounts, nulls skipped. */
  function TotalIncome(accounts: seq<MasterAccount>): (r: real)
    ensures OfType(accounts, Asset) == [] ==> r == 0.0
  {
    SumPresent(AssetIncomes(AssetRows(OfType(accounts, Asset))))
  }

  function ItemCosts(items: seq<BudgetItem>): (xs: seq<real>)
    requires PeriodsNonZero(items)
    ensures |xs| == |items|
  {
    seq(|items|, i requires 0 <= i < |items| => items[i].amount / items[i].periodMonths)
  }

  /** `(amount / period_months).sum()`. */
  function TotalExpenses(items: seq<BudgetItem>): (r: real)
    requires PeriodsNonZero(items)
    ensures items == [] ==> r == 0.0
  {
    Sum(ItemCosts(items))
  }

  /** Non-negative amounts over positive periods never add up to negative expenses. */
  lemma TotalExpensesNonNegative(items: seq<BudgetItem>)
    requires forall i :: 0 <= i < |items| ==> items[i].amount >= 0.0 && items[i].periodMonths > 0.0
    ensures TotalExpenses(items) >= 0.0
  {
    SumNonNegative(ItemCosts(items));
  }

  function DebtAmounts(debts: seq<Contribution>): (xs: seq<real>)
    ensures |xs| == |debts|
  {
    seq(|debts|, i requires 0 <= i < |debts| => debts[i].monthlyAmount.GetOr(0.0))
  }

  /** The base amount (0 when missing) plus every paid-off debt's amount (0 when missing). */
  function TotalSavings(data: SavingsData): (r: real)
    ensures data.baseContribution.None? && data.paidOffDebtContributions == [] ==> r == 0.0
  {
    (match data.baseContribution
     case None => 0.0
     case Some(base) => base.monthlyAmount.GetOr(0.0)) +
    Sum(DebtAmounts(data.paidOffDebtContributions))
  }

  function SummaryRowOf(caption: string, monthly: real): (r: SummaryRow)
    ensures r.caption == caption && r.monthly == monthly && r.half * 2.0 == monthly
  {
    SummaryRow(caption, monthly, monthly / 2.0)
  }

  /** `generate_cashflow_summary`: income, expenses, savings and what remains, each with its half. */
  function CashflowSummary(accounts: seq<MasterAccount>, items: seq<BudgetItem>, data: SavingsData): (rows: seq<SummaryRow>)
    requires PeriodsNonZero(items)
    ensures |rows| == 4
    ensures rows[0].caption == "Total Income" && rows[1].caption == "Total Expenses" &&
            rows[2].caption == "Total Savings" && rows[3].caption == "Remainder"
    ensures rows[3].monthly == rows[0].monthly - rows[1].monthly - rows[2].monthly
    ensures forall i :: 0 <= i < 4 ==> rows[i].half * 2.0 == rows[i].monthly
  {
    var income := TotalIncome(accounts);
    var expenses := TotalExpenses(items);
    var savings := TotalSavings(data);
    [SummaryRowOf("Total Income", income), SummaryRowOf("Total Expenses", expenses),
     SummaryRowOf("Total Savings", savings), SummaryRowOf("Remainder", income - expenses - savings)]
  }

  /** The summary's income is the assets report's total monthly income. */
  lemma CashflowIncomeMatchesAssetsReport(accounts: seq<MasterAccount>, items: seq<BudgetItem>, data: SavingsData)
    requires PeriodsNonZero(items)
    requires AssetsReport(accounts).Table? && AssetsReport(accounts).rows != []
    ensures var f := AssetsReport(accounts);
      f.rows[|f.rows| - 1].monthlyIncome == Some(CashflowSummary(accounts, items, data)[0].monthly)
  {
  }

  /** With no asset income at all the summary's income is 0. */
  lemma CashflowIncomeWithoutAssets(accounts: seq<MasterAccount>, items: seq<BudgetItem>, data: SavingsData)
    requires PeriodsNonZero(items)
    requires forall i :: 0 <= i < |accounts| ==> accounts[i].financialType != Asset
    ensures CashflowSummary(accounts, items, data)[0].monthly == 0.0
  {
    OfTypeComplete(accounts, Asset);
  }

  /**
   * The summary's expenses are the budget report's "Total Bills" monthly
   * cost, whatever the row order, or 0 when there are no budget items.
   */
  lemma CashflowExpensesMatchBudgetReport(accounts: seq<MasterAccount>, items: seq<BudgetItem>, data: SavingsData)
    requires PeriodsNonZero(items)
    ensures var f := BudgetReport(items);
      var spent := CashflowSummary(accounts, items, data)[1].monthly;
      (f.Blank? ==> spent == 0.0) &&
      (f.Table? ==> f.rows[|f.rows| - 1].monthlyCost == spent)
  {
    if items != [] {
      assert MonthlyCosts(BudgetRows(items)) == ItemCosts(items);
    }
  }

  /** The summary's savings are the savings report's total monthly amount, or 0 when that report is blank. */
  lemma CashflowSavingsMatchSavingsReport(accounts: seq<MasterAccount>, items: seq<BudgetItem>, data: SavingsData)
    requires PeriodsNonZero(items)
    ensures var f := SavingsReport(data);
      var saved := CashflowSummary(accounts, items, data)[2].monthly;
      (f.Blank? ==> saved == 0.0) &&
      (f.Table? ==> f.rows[|f.rows| - 1].monthlyAmount == saved)
  {
    var cs := Contributions(data);
    var rs := SavingsRows(cs);
    var debts := data.paidOffDebtContributions;
    match data.baseContribution
    case None =>
      assert SavedMonthly(rs) == DebtAmounts(debts);
    case Some(base) =>
      assert SavedMonthly(rs) == [base.monthlyAmount.GetOr(0.0)] + DebtAmounts(debts);
      SumAppend([base.monthlyAmount.GetOr(0.0)], DebtAmounts(debts));
  }
}
