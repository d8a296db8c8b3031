/** The year-end adjustment calculator (`AdjustmentCalculator`): suggested
    depreciation per fixed asset for a fiscal period, the bad-debt
    allowance on receivables, and the account balance as of a date that
    both rely on. */
module Adjustment {
  import opened Wrappers
  import opened Dates
  import opened Money
  import opened Ledger
  import Sorting

  // ---------------------------------------------------------------------
  // Months of use in a fiscal period

  /** Calendar months spanned by a fiscal period, both ends included. */
  function PeriodMonths(p: FiscalPeriod): int {
    MonthIndex(p.endDate) - MonthIndex(p.startDate) + 1
  }

  /** `_calculate_months_in_period`: months of use from the later of the
      acquisition date and the period start up to the period end, counting
      both end months and capped at the period's length. */
  function MonthsInPeriod(acquisition: Date, p: FiscalPeriod): (r: int)
    ensures r <= PeriodMonths(p)
    ensures OnOrBefore(acquisition, p.startDate) ==> r == PeriodMonths(p)
    ensures ValidDate(acquisition) && ValidDate(p.startDate) && OnOrBefore(p.startDate, acquisition)
            ==> r == MonthIndex(p.endDate) - MonthIndex(acquisition) + 1
  {
    var start := Max(acquisition, p.startDate);
    var months := (p.endDate.year - start.year) * 12 + (p.endDate.month - start.month) + 1;
    if months < PeriodMonths(p) then months else PeriodMonths(p)
  }

  /** Only the month of acquisition matters, not its day. */
  lemma MonthsInPeriodIgnoresDay(a: Date, b: Date, p: FiscalPeriod)
    requires ValidDate(a) && ValidDate(b) && ValidDate(p.startDate)
    requires a.year == b.year && a.month == b.month
    ensures MonthsInPeriod(a, p) == MonthsInPeriod(b, p)
  {
    OnOrBeforeTotal(a, p.startDate);
    OnOrBeforeTotal(b, p.startDate);
    if OnOrBefore(a, p.startDate) { OnOrBeforeMonthIndex(a, p.startDate); }
    if OnOrBefore(p.startDate, a) { OnOrBeforeMonthIndex(p.startDate, a); }
    if OnOrBefore(b, p.startDate) { OnOrBeforeMonthIndex(b, p.startDate); }
    if OnOrBefore(p.startDate, b) { OnOrBeforeMonthIndex(p.startDate, b); }
  }

  /** An asset in use during the period is used at least one month. */
  lemma MonthsInPeriodPositive(acquisition: Date, p: FiscalPeriod)
    requires ValidDate(acquisition) && ValidDate(p.startDate) && ValidDate(p.endDate)
    requires OnOrBefore(p.startDate, p.endDate) && OnOrBefore(acquisition, p.endDate)
    ensures 1 <= MonthsInPeriod(acquisition, p)
  {
    OnOrBeforeMonthIndex(p.startDate, p.endDate);
    OnOrBeforeMonthIndex(acquisition, p.endDate);
    OnOrBeforeTotal(acquisition, p.startDate);
  }

  // ---------------------------------------------------------------------
  // Depreciation

  /** A fixed asset together with the figures its own model methods supply:
      `calculate_annual_depreciation()` as an exact quantity of cents and
      `get_accumulated_depreciation(period end)` in cents. */
  datatype DepreciableAsset = DepreciableAsset(asset: FixedAsset, annualDepreciation: Ratio, accumulatedDepreciation: int)

  /** One row of the `assets` list returned by `calculate_depreciation`. */
  datatype AssetDepreciation = AssetDepreciation(
    assetId: nat,
    assetNumber: string,
    assetName: string,
    accountName: string,
    acquisitionDate: Date,
    acquisitionCost: int,
    usefulLife: int,
    depreciationMethod: string,
    annualDepreciation: Ratio,
    monthlyDepreciation: Ratio,
    monthsInPeriod: int,
    currentPeriodDepreciation: int,
    accumulatedDepreciation: int,
    accumulatedWithCurrent: int,
    bookValue: int,
    alreadyRecorded: bool)

  datatype DepreciationSummary = DepreciationSummary(assets: seq<AssetDepreciation>, totalDepreciation: int, hasUnrecorded: bool)

  /** The asset is listed: active, acquired by the period end, and of the
      requested company when one is given. */
  predicate Listed(da: DepreciableAsset, p: FiscalPeriod, company: Option<Company>) {
    && da.asset.status == "active"
    && OnOrBefore(da.asset.acquisitionDate, p.endDate)
    && (company.None? || da.asset.company == company)
  }

  function ListedOf(p: FiscalPeriod, company: Option<Company>): DepreciableAsset -> bool {
    da => Listed(da, p, company)
  }

  /** `order_by("asset_number")`. */
  predicate AssetNumberOnOrBefore(x: DepreciableAsset, y: DepreciableAsset) {
    Sorting.StringOnOrBefore(x.asset.assetNumber, y.asset.assetNumber)
  }

  lemma AssetOrderIsTotalPreorder()
    ensures Sorting.TotalPreorder(AssetNumberOnOrBefore)
  {
    Sorting.StringOrderIsTotalPreorder();
  }

  /** The queryset iterated by `calculate_depreciation`: exactly the listed
      assets, ordered by asset number. */
  function ListedAssets(assets: seq<DepreciableAsset>, p: FiscalPeriod, company: Option<Company>): (r: seq<DepreciableAsset>)
    ensures forall i :: 0 <= i < |r| ==> r[i] in assets && Listed(r[i], p, company)
    ensures forall i :: 0 <= i < |assets| && Listed(assets[i], p, company) ==> assets[i] in r
    ensures multiset(r) == multiset(Sorting.Filter(assets, ListedOf(p, company)))
    ensures Sorting.SortedBy(r, AssetNumberOnOrBefore)
  {
    var f := Sorting.Filter(assets, ListedOf(p, company));
    var r := Sorting.Sort(f, AssetNumberOnOrBefore);
    AssetOrderIsTotalPreorder();
    Sorting.SortSorted(f, AssetNumberOnOrBefore);
    forall i | 0 <= i < |r|
      ensures r[i] in assets && Listed(r[i], p, company)
    {
      Sorting.SortSameElements(f, AssetNumberOnOrBefore, r[i]);
    }
    forall i | 0 <= i < |assets| && Listed(assets[i], p, company)
      ensures assets[i] in r
    {
      Sorting.SortSameElements(f, AssetNumberOnOrBefore, assets[i]);
    }
    r
  }

  predicate HistoryMatches(h: DepreciationHistory, assetId: nat, periodId: nat) {
    h.assetId == assetId && h.periodId == periodId
  }

  /** `DepreciationHistory.objects.filter(fixed_asset=..., fiscal_period=...).first()`. */
  function FindHistory(hs: seq<DepreciationHistory>, assetId: nat, periodId: nat): (r: Option<DepreciationHistory>)
    ensures r.None? <==> forall i :: 0 <= i < |hs| ==> !HistoryMatches(hs[i], assetId, periodId)
    ensures r.Some? ==> HistoryMatches(r.value, assetId, periodId)
                        && exists i :: 0 <= i < |hs| && hs[i] == r.value
  {
    if |hs| == 0 then None
    else if HistoryMatches(hs[0], assetId, periodId) then Some(hs[0])
    else
      assert forall i :: 1 <= i < |hs| ==> hs[1..][i - 1] == hs[i];
      FindHistory(hs[1..], assetId, periodId)
  }

  /** Appending history rows never changes a match already found. */
  lemma {:induction false} FindHistoryAppend(hs: seq<DepreciationHistory>, more: seq<DepreciationHistory>, assetId: nat, periodId: nat)
    ensures FindHistory(hs, assetId, periodId).Some?
            ==> FindHistory(hs + more, assetId, periodId) == FindHistory(hs, assetId, periodId)
    ensures FindHistory(hs, assetId, periodId).None?
            ==> FindHistory(hs + more, assetId, periodId) == FindHistory(more, assetId, periodId)
  {
    if |hs| == 0 {
      assert hs + more == more;
    } else {
      assert (hs + more)[1..] == hs[1..] + more;
      FindHistoryAppend(hs[1..], more, assetId, periodId);
    }
  }

  /** Cents of depreciation for `months` months of an annual amount:
      `(annual / 12 * months).quantize(Decimal("0.01"))`. */
  function ProRata(annual: Ratio, months: int): (r: int)
    requires ValidRatio(annual)
    ensures 2 * Abs(annual.num * months - r * (annual.den * 12)) <= annual.den * 12
  {
    RoundHalfEven(annual.num * months, annual.den * 12)
  }

  /** The pro-rata amount is the one nearest cent, an exact half going to
      the even neighbour, as `quantize` does under ROUND_HALF_EVEN. */
  lemma ProRataNearestEven(annual: Ratio, months: int, k: int)
    requires ValidRatio(annual)
    requires 2 * Abs(annual.num * months - k * (annual.den * 12)) <= annual.den * 12
    requires 2 * Abs(annual.num * months - k * (annual.den * 12)) == annual.den * 12 ==> k % 2 == 0
    ensures ProRata(annual, months) == k
  {
    RoundHalfEvenUnique(annual.num * months, annual.den * 12, k);
  }

  /** The row `calculate_depreciation` builds for one listed asset. A
      recorded history row supplies the period's amount, which the
      accumulated figure already includes; otherwise the pro-rata amount is
      suggested and added to the accumulated figure for display. */
  function AssetRow(da: DepreciableAsset, hs: seq<DepreciationHistory>, p: FiscalPeriod): (r: AssetDepreciation)
    requires ValidRatio(da.annualDepreciation)
    ensures r.assetId == da.asset.id && r.assetNumber == da.asset.assetNumber
    ensures r.monthsInPeriod == MonthsInPeriod(da.asset.acquisitionDate, p)
    ensures r.alreadyRecorded <==> FindHistory(hs, da.asset.id, p.id).Some?
    ensures r.alreadyRecorded ==> r.currentPeriodDepreciation == FindHistory(hs, da.asset.id, p.id).value.amount
                                  && r.accumulatedWithCurrent == da.accumulatedDepreciation
    ensures !r.alreadyRecorded ==> r.currentPeriodDepreciation == ProRata(da.annualDepreciation, r.monthsInPeriod)
                                   && r.accumulatedWithCurrent == da.accumulatedDepreciation + r.currentPeriodDepreciation
    ensures r.bookValue + r.accumulatedWithCurrent == da.asset.acquisitionCost
  {
    var existing := FindHistory(hs, da.asset.id, p.id);
    var annual := da.annualDepreciation;
    var months := MonthsInPeriod(da.asset.acquisitionDate, p);
    var current := if existing.Some? then existing.value.amount else ProRata(annual, months);
    var withCurrent := if existing.Some? then da.accumulatedDepreciation else da.accumulatedDepreciation + current;
    AssetDepreciation(
      da.asset.id, da.asset.assetNumber, da.asset.name, da.asset.account.name,
      da.asset.acquisitionDate, da.asset.acquisitionCost, da.asset.usefulLife, da.asset.depreciationMethod,
      annual, Ratio(annual.num, annual.den * 12), months,
      current, da.accumulatedDepreciation, withCurrent,
      da.asset.acquisitionCost - withCurrent, existing.Some?)
  }

  /** Recording the suggested amount is idempotent: once the history row is
      saved and counted in the accumulated depreciation, the recomputed row
      reports it as recorded with the same amount, the same accumulated
      figure and the same book value. */
  lemma RecordingIsIdempotent(da: DepreciableAsset, hs: seq<DepreciationHistory>, p: FiscalPeriod)
    requires ValidRatio(da.annualDepreciation)
    requires !AssetRow(da, hs, p).alreadyRecorded
    ensures
      var row := AssetRow(da, hs, p);
      var hs' := hs + [DepreciationHistory(da.asset.id, p.id, row.currentPeriodDepreciation)];
      var da' := da.(accumulatedDepreciation := da.accumulatedDepreciation + row.currentPeriodDepreciation);
      var row' := AssetRow(da', hs', p);
      && row'.alreadyRecorded
      && row'.currentPeriodDepreciation == row.currentPeriodDepreciation
      && row'.accumulatedWithCurrent == row.accumulatedWithCurrent
      && row'.bookValue == row.bookValue
  {
    var row := AssetRow(da, hs, p);
    var h := DepreciationHistory(da.asset.id, p.id, row.currentPeriodDepreciation);
    FindHistoryAppend(hs, [h], da.asset.id, p.id);
    assert FindHistory([h], da.asset.id, p.id) == Some(h);
  }

  function AssetRows(listed: seq<DepreciableAsset>, hs: seq<DepreciationHistory>, p: FiscalPeriod): (r: seq<AssetDepreciation>)
    requires forall i :: 0 <= i < |listed| ==> ValidRatio(listed[i].annualDepreciation)
    ensures |r| == |listed|
    ensures forall i :: 0 <= i < |r| ==> r[i] == AssetRow(listed[i], hs, p)
  {
    if |listed| == 0 then [] else [AssetRow(listed[0], hs, p)] + AssetRows(listed[1..], hs, p)
  }

  function CurrentOf(): AssetDepreciation -> int {
    (row: AssetDepreciation) => row.currentPeriodDepreciation
  }

  predicate AllAnnualValid(assets: seq<DepreciableAsset>) {
    forall i :: 0 <= i < |assets| ==> ValidRatio(assets[i].annualDepreciation)
  }

  /** The loop of `calculate_depreciation` over the rows: the running
      total of the period amounts and whether any row is still unrecorded. */
  method SummarizeRows(rows: seq<AssetDepreciation>) returns (total: int, hasUnrecorded: bool)
    ensures total == Sorting.SumOf(rows, CurrentOf())
    ensures hasUnrecorded <==> exists k :: 0 <= k < |rows| && !rows[k].alreadyRecorded
  {
    total := 0;
    hasUnrecorded := false;
    for i := 0 to |rows|
      invariant total == Sorting.SumOf(rows[..i], CurrentOf())
      invariant hasUnrecorded <==> exists k :: 0 <= k < i && !rows[k].alreadyRecorded
    {
      Sorting.SumOfConcat(rows[..i], [rows[i]], CurrentOf());
      assert rows[..i + 1] == rows[..i] + [rows[i]];
      total := total + rows[i].currentPeriodDepreciation;
      if !rows[i].alreadyRecorded {
        hasUnrecorded := true;
      }
    }
    assert rows[..|rows|] == rows;
  }

  /** `calculate_depreciation`: one row per listed asset in asset-number
      order, the total of the period amounts, and whether any listed asset
      still lacks a history row for the period. */
  method CalculateDepreciation(assets: seq<DepreciableAsset>, hs: seq<DepreciationHistory>, p: FiscalPeriod, company: Option<Company>)
    returns (r: DepreciationSummary)
    requires AllAnnualValid(assets)
    ensures |r.assets| == |ListedAssets(assets, p, company)|
    ensures forall i :: 0 <= i < |r.assets| ==> r.assets[i] == AssetRow(ListedAssets(assets, p, company)[i], hs, p)
    ensures r.totalDepreciation == Sorting.SumOf(r.assets, CurrentOf())
    ensures r.hasUnrecorded <==> exists i :: 0 <= i < |r.assets| && !r.assets[i].alreadyRecorded
  {
    var rows := AssetRows(ListedAssets(assets, p, company), hs, p);
    var total, hasUnrecorded := SummarizeRows(rows);
    r := DepreciationSummary(rows, total, hasUnrecorded);
  }

  // ---------------------------------------------------------------------
  // Account balance as of a date

  /** `_get_account_balance`: the balance of `a` over entries dated on or
      before `asOf`, restricted to one company when given, debit minus
      credit for asset and expense accounts and credit minus debit
      otherwise. */
  function AccountBalance(ledger: seq<Entry>, a: Account, asOf: Date, company: Option<Company>): (r: int)
    ensures DebitNormal(a.kind) ==> r == DebitTotal(ledger, a, Scope(None, asOf, company)) - CreditTotal(ledger, a, Scope(None, asOf, company))
    ensures !DebitNormal(a.kind) ==> r == CreditTotal(ledger, a, Scope(None, asOf, company)) - DebitTotal(ledger, a, Scope(None, asOf, company))
  {
    ScopedBalance(ledger, a, Scope(None, asOf, company))
  }

  /** The as-of balance over no entries is zero; an entry dated on or
      before the as-of date, of the requested company when one is given,
      adds its signed lines on the account. */
  lemma AccountBalanceAppend(ledger: seq<Entry>, e: Entry, a: Account, asOf: Date, company: Option<Company>)
    requires OnOrBefore(e.date, asOf) && (company.None? || e.company == company)
    ensures AccountBalance([], a, asOf, company) == 0
    ensures AccountBalance(ledger + [e], a, asOf, company)
            == AccountBalance(ledger, a, asOf, company)
               + SignedBalance(a.kind, LinesTotalFor(e.debits, a), LinesTotalFor(e.credits, a))
  {
    ScopedBalanceSnoc(ledger, e, a, Scope(None, asOf, company));
  }

  /** Entries after the as-of date, or of another company, do not move the balance. */
  lemma AccountBalanceIgnoresOutOfScope(ledger: seq<Entry>, e: Entry, a: Account, asOf: Date, company: Option<Company>)
    requires Before(asOf, e.date) || (company.Some? && e.company != company)
    ensures AccountBalance(ledger + [e], a, asOf, company) == AccountBalance(ledger, a, asOf, company)
  {
    TotalsAppend(ledger, e, a, Scope(None, asOf, company));
  }

  /** Balances as of one date tie out across the chart. */
  lemma AccountBalancesTieOut(chart: seq<Account>, ledger: seq<Entry>, asOf: Date, company: Option<Company>)
    requires DistinctIds(chart) && ChartCovers(chart, ledger) && AllBalanced(ledger)
    ensures DebitSideTotal(chart, ledger, Scope(None, asOf, company))
            == CreditSideTotal(chart, ledger, Scope(None, asOf, company))
  {
    TieOut(chart, ledger, Scope(None, asOf, company));
  }

  // ---------------------------------------------------------------------
  // Bad-debt allowance

  const ReceivableNames: seq<string> := ["売掛金", "受取手形", "未収入金"]
  const AllowanceAccountName: string := "貸倒引当金"
  /** 2%, the fixed rate of the source. */
  const AllowanceRate: Ratio := Ratio(2, 100)

  /** `Account.objects.filter(name__in=[...], type="asset")`. */
  predicate IsReceivable(a: Account) {
    a.name in ReceivableNames && a.kind == Asset
  }

  function ReceivableOf(): Account -> bool {
    a => IsReceivable(a)
  }

  datatype ReceivableBalance = ReceivableBalance(accountName: string, balance: int)

  datatype AllowanceSummary = AllowanceSummary(
    receivables: seq<ReceivableBalance>,
    totalReceivables: int,
    allowanceRate: Ratio,
    requiredAllowance: int,
    previousAllowance: int,
    entryAmount: int,
    isReversal: bool)

  /** The receivable accounts whose balance is positive, with that balance,
      in the order given. */
  function PositiveBalances(accounts: seq<Account>, ledger: seq<Entry>, asOf: Date, company: Option<Company>): (r: seq<ReceivableBalance>)
    ensures |r| <= |accounts|
    ensures forall i :: 0 <= i < |r| ==> r[i].balance > 0
  {
    if |accounts| == 0 then []
    else
      var b := AccountBalance(ledger, accounts[0], asOf, company);
      var rest := PositiveBalances(accounts[1..], ledger, asOf, company);
      if b > 0 then [ReceivableBalance(accounts[0].name, b)] + rest else rest
  }

  /** The listed row of one account: its name and its balance. */
  function PositiveBalanceOf(a: Account, ledger: seq<Entry>, asOf: Date, company: Option<Company>): ReceivableBalance {
    ReceivableBalance(a.name, AccountBalance(ledger, a, asOf, company))
  }

  /** `rb` is the name and balance of one of the accounts. */
  predicate RowOfSome(rb: ReceivableBalance, accounts: seq<Account>, ledger: seq<Entry>, asOf: Date, company: Option<Company>) {
    exists j :: 0 <= j < |accounts| && rb == PositiveBalanceOf(accounts[j], ledger, asOf, company)
  }

  predicate AllRowsOfSome(rows: seq<ReceivableBalance>, accounts: seq<Account>, ledger: seq<Entry>, asOf: Date, company: Option<Company>) {
    forall i :: 0 <= i < |rows| ==> RowOfSome(rows[i], accounts, ledger, asOf, company)
  }

  /** Each listed row is the name and balance of one of the accounts. */
  lemma {:induction false} PositiveBalancesSound(accounts: seq<Account>, ledger: seq<Entry>, asOf: Date, company: Option<Company>)
    ensures AllRowsOfSome(PositiveBalances(accounts, ledger, asOf, company), accounts, ledger, asOf, company)
  {
    if |accounts| > 0 {
      PositiveBalancesSound(accounts[1..], ledger, asOf, company);
      var r := PositiveBalances(accounts, ledger, asOf, company);
      var rest := PositiveBalances(accounts[1..], ledger, asOf, company);
      var b := AccountBalance(ledger, accounts[0], asOf, company);
      var head := if b > 0 then [PositiveBalanceOf(accounts[0], ledger, asOf, company)] else [];
      assert r == head + rest;
      forall i | 0 <= i < |r|
        ensures RowOfSome(r[i], accounts, ledger, asOf, company)
      {
        if i < |head| {
          assert r[i] == PositiveBalanceOf(accounts[0], ledger, asOf, company);
        } else {
          var k := i - |head|;
          assert 0 <= k < |rest| && r[i] == rest[k];
          assert RowOfSome(rest[k], accounts[1..], ledger, asOf, company);
          var j :| 0 <= j < |accounts[1..]| && rest[k] == PositiveBalanceOf(accounts[1..][j], ledger, asOf, company);
          assert accounts[1..][j] == accounts[j + 1];
        }
      }
    }
  }

  /** Every account with a positive balance is listed with its name and balance. */
  lemma {:induction false} PositiveBalancesComplete(accounts: seq<Account>, ledger: seq<Entry>, asOf: Date, company: Option<Company>)
    ensures forall j :: 0 <= j < |accounts| && AccountBalance(ledger, accounts[j], asOf, company) > 0
              ==> PositiveBalanceOf(accounts[j], ledger, asOf, company) in PositiveBalances(accounts, ledger, asOf, company)
  {
    if |accounts| > 0 {
      PositiveBalancesComplete(accounts[1..], ledger, asOf, company);
      var r := PositiveBalances(accounts, ledger, asOf, company);
      var rest := PositiveBalances(accounts[1..], ledger, asOf, company);
      assert forall x :: x in rest ==> x in r;
      forall j | 0 <= j < |accounts| && AccountBalance(ledger, accounts[j], asOf, company) > 0
        ensures PositiveBalanceOf(accounts[j], ledger, asOf, company) in r
      {
        if j > 0 {
          assert accounts[1..][j - 1] == accounts[j];
        }
      }
    }
  }

  /** One account contributes exactly its row when its balance is
      positive, and nothing otherwise. */
  lemma PositiveBalancesSingle(a: Account, ledger: seq<Entry>, asOf: Date, company: Option<Company>)
    ensures PositiveBalances([a], ledger, asOf, company)
            == if AccountBalance(ledger, a, asOf, company) > 0 then [PositiveBalanceOf(a, ledger, asOf, company)] else []
  {
    assert [a][1..] == [];
  }

  /** Listing the positive balances keeps the accounts' order: a list of
      accounts followed by another gives the first list's rows, then the
      second's. */
  lemma {:induction false} PositiveBalancesConcat(xs: seq<Account>, ys: seq<Account>, ledger: seq<Entry>, asOf: Date, company: Option<Company>)
    ensures PositiveBalances(xs + ys, ledger, asOf, company)
            == PositiveBalances(xs, ledger, asOf, company) + PositiveBalances(ys, ledger, asOf, company)
  {
    if |xs| == 0 {
      assert xs + ys == ys;
    } else {
      var zs := xs + ys;
      assert zs[0] == xs[0];
      assert zs[1..] == xs[1..] + ys;
      PositiveBalancesConcat(xs[1..], ys, ledger, asOf, company);
      var b := AccountBalance(ledger, xs[0], asOf, company);
      var rest := PositiveBalances(xs[1..], ledger, asOf, company);
      assert PositiveBalances(zs, ledger, asOf, company)
             == (if b > 0 then [ReceivableBalance(xs[0].name, b)] else []) + PositiveBalances(zs[1..], ledger, asOf, company);
      assert PositiveBalances(xs, ledger, asOf, company)
             == (if b > 0 then [ReceivableBalance(xs[0].name, b)] else []) + rest;
    }
  }

  function BalanceOf(): ReceivableBalance -> int {
    (rb: ReceivableBalance) => rb.balance
  }

  function PositivePart(ledger: seq<Entry>, asOf: Date, company: Option<Company>): Account -> int {
    a => var b := AccountBalance(ledger, a, asOf, company); if b > 0 then b else 0
  }

  /** The receivables total equals Σ max(balance, 0) over the receivable
      accounts: negative and zero balances are left out, not subtracted. */
  lemma {:induction false} TotalIsPositivePart(accounts: seq<Account>, ledger: seq<Entry>, asOf: Date, company: Option<Company>)
    ensures Sorting.SumOf(PositiveBalances(accounts, ledger, asOf, company), BalanceOf())
            == Sorting.SumOf(accounts, PositivePart(ledger, asOf, company))
  {
    if |accounts| > 0 {
      TotalIsPositivePart(accounts[1..], ledger, asOf, company);
      var b := AccountBalance(ledger, accounts[0], asOf, company);
      var rest := PositiveBalances(accounts[1..], ledger, asOf, company);
      if b > 0 {
        assert ([ReceivableBalance(accounts[0].name, b)] + rest)[1..] == rest;
      }
    }
  }

  lemma {:induction false} SumOfPositiveNonNegative(accounts: seq<Account>, ledger: seq<Entry>, asOf: Date, company: Option<Company>)
    ensures Sorting.SumOf(accounts, PositivePart(ledger, asOf, company)) >= 0
  {
    if |accounts| > 0 {
      SumOfPositiveNonNegative(accounts[1..], ledger, asOf, company);
    }
  }

  /** Balance of the first account named 貸倒引当金, or 0 when there is none. */
  function PreviousAllowance(chart: seq<Account>, ledger: seq<Entry>, asOf: Date, company: Option<Company>): (r: int)
    ensures FindAccount(chart, AllowanceAccountName).None? ==> r == 0
    ensures FindAccount(chart, AllowanceAccountName).Some?
            ==> r == AccountBalance(ledger, FindAccount(chart, AllowanceAccountName).value, asOf, company)
  {
    match FindAccount(chart, AllowanceAccountName)
    case Some(a) => AccountBalance(ledger, a, asOf, company)
    case None => 0
  }

  /** `calculate_allowance`: 2% of the positive receivable balances at the
      period end, rounded to the cent, against the allowance already on the
      books; the entry amount is the unsigned gap and `isReversal` says
      which way it goes. */
  function CalculateAllowance(chart: seq<Account>, ledger: seq<Entry>, p: FiscalPeriod, company: Option<Company>): (r: AllowanceSummary)
    ensures r.receivables == PositiveBalances(Sorting.Filter(chart, ReceivableOf()), ledger, p.endDate, company)
    ensures r.totalReceivables == Sorting.SumOf(r.receivables, BalanceOf()) && r.totalReceivables >= 0
    ensures r.allowanceRate == AllowanceRate
    ensures 2 * Abs(r.totalReceivables * 2 - r.requiredAllowance * 100) <= 100
    ensures 2 * Abs(r.totalReceivables * 2 - r.requiredAllowance * 100) == 100 ==> r.requiredAllowance % 2 == 0
    ensures r.previousAllowance == PreviousAllowance(chart, ledger, p.endDate, company)
    ensures r.entryAmount >= 0
    ensures r.isReversal <==> r.requiredAllowance < r.previousAllowance
    ensures r.requiredAllowance - r.previousAllowance == (if r.isReversal then -r.entryAmount else r.entryAmount)
  {
    var accounts := Sorting.Filter(chart, ReceivableOf());
    var balances := PositiveBalances(accounts, ledger, p.endDate, company);
    var total := Sorting.SumOf(balances, BalanceOf());
    TotalIsPositivePart(accounts, ledger, p.endDate, company);
    SumOfPositiveNonNegative(accounts, ledger, p.endDate, company);
    var required := RoundHalfEven(total * AllowanceRate.num, AllowanceRate.den);
    var previous := PreviousAllowance(chart, ledger, p.endDate, company);
    var gap := required - previous;
    AllowanceSummary(balances, total, AllowanceRate, required, previous, Abs(gap), gap < 0)
  }

  /** The adjustment entry suggested by an allowance summary, dated at the
      period end: a provision credits the allowance account, a reversal
      debits it; `counter` is the expense or income account on the other side. */
  function AllowanceEntry(pk: nat, p: FiscalPeriod, company: Option<Company>, allowance: Account, counter: Account, s: AllowanceSummary): Entry {
    var toAllowance := [Line(allowance, s.entryAmount)];
    var toCounter := [Line(counter, s.entryAmount)];
    Entry(pk, p.endDate, AllowanceAccountName, EntryType.Adjustment, company, Some(p.id),
          if s.isReversal then toAllowance else toCounter,
          if s.isReversal then toCounter else toAllowance,
          [])
  }

  /** Posting the suggested entry brings a credit-normal allowance account
      to exactly the required allowance. */
  lemma PostingAllowanceReachesRequired(chart: seq<Account>, ledger: seq<Entry>, p: FiscalPeriod, company: Option<Company>, counter: Account, pk: nat)
    requires FindAccount(chart, AllowanceAccountName).Some?
    requires !DebitNormal(FindAccount(chart, AllowanceAccountName).value.kind)
    requires counter.id != FindAccount(chart, AllowanceAccountName).value.id
    ensures
      var allowance := FindAccount(chart, AllowanceAccountName).value;
      var s := CalculateAllowance(chart, ledger, p, company);
      AccountBalance(ledger + [AllowanceEntry(pk, p, company, allowance, counter, s)], allowance, p.endDate, company)
      == s.requiredAllowance
  {
    var allowance := FindAccount(chart, AllowanceAccountName).value;
    var s := CalculateAllowance(chart, ledger, p, company);
    var e := AllowanceEntry(pk, p, company, allowance, counter, s);
    var sc := Scope(None, p.endDate, company);
    TotalsAppend(ledger, e, allowance, sc);
    assert InScope(e, sc);
    var a1 := [Line(allowance, s.entryAmount)];
    var c1 := [Line(counter, s.entryAmount)];
    assert a1[1..] == [] && c1[1..] == [];
    assert LinesTotalFor(a1, allowance) == s.entryAmount;
    assert LinesTotalFor(c1, allowance) == 0;
  }

  // ---------------------------------------------------------------------
  // All reference information

  datatype AdjustmentInfo = AdjustmentInfo(depreciation: DepreciationSummary, allowance: AllowanceSummary, fiscalPeriod: FiscalPeriod)

  /** `get_all_adjustment_info`: depreciation and allowance for the same
      period and company, together with the period itself. */
  method GetAllAdjustmentInfo(
    assets: seq<DepreciableAsset>, hs: seq<DepreciationHistory>,
    chart: seq<Account>, ledger: seq<Entry>, p: FiscalPeriod, company: Option<Company>)
    returns (r: AdjustmentInfo)
    requires AllAnnualValid(assets)
    ensures r.fiscalPeriod == p
    ensures |r.depreciation.assets| == |ListedAssets(assets, p, company)|
    ensures forall i :: 0 <= i < |r.depreciation.assets|
              ==> r.depreciation.assets[i] == AssetRow(ListedAssets(assets, p, company)[i], hs, p)
    ensures r.depreciation.totalDepreciation == Sorting.SumOf(r.depreciation.assets, CurrentOf())
    ensures r.depreciation.hasUnrecorded
            <==> exists i :: 0 <= i < |r.depreciation.assets| && !r.depreciation.assets[i].alreadyRecorded
    ensures r.allowance == CalculateAllowance(chart, ledger, p, company)
  {
    var depreciation := CalculateDepreciation(assets, hs, p, company);
    r := AdjustmentInfo(depreciation, CalculateAllowance(chart, ledger, p, company), p);
  }
}
