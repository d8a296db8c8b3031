/** Financial-statement shaping (`FinancialStatementView` and its trial
    balance, balance sheet and profit-and-loss subclasses): per-account
    totals become statement entries, which are split into a debit and a
    credit column by account type, paired row by row, summed per side and
    turned into spreadsheet rows; the balance sheet and the profit-and-loss
    statement add the difference of the two sides. */
module Statements {
  import opened Wrappers
  import opened Ledger
  import Sorting

  /** `FinancialStatementEntry(name, type, total)`. */
  datatype StatementEntry = StatementEntry(name: string, kind: AccountType, total: int)

  /** `AccountWithTotal(account_object, total_amount)`. */
  datatype AccountWithTotal = AccountWithTotal(account: Account, total: int)

  datatype StatementKind = TrialBalance | BalanceSheet | ProfitAndLoss

  /** `ACCOUNT_TYPES`: the account types a statement covers. */
  function AccountTypes(k: StatementKind): seq<AccountType> {
    match k
    case TrialBalance => [Asset, Liability, Equity, Revenue, Expense]
    case BalanceSheet => [Asset, Liability, Equity]
    case ProfitAndLoss => [Revenue, Expense]
  }

  /** `DEBIT_TYPES`. */
  function DebitTypes(k: StatementKind): seq<AccountType> {
    match k
    case TrialBalance => [Asset, Expense]
    case BalanceSheet => [Asset]
    case ProfitAndLoss => [Expense]
  }

  /** `CREDIT_TYPES`. */
  function CreditTypes(k: StatementKind): seq<AccountType> {
    match k
    case TrialBalance => [Liability, Equity, Revenue]
    case BalanceSheet => [Liability, Equity]
    case ProfitAndLoss => [Revenue]
  }

  /** The debit and credit types of every statement are disjoint, lie
      within its account types, and together make up all of them; for the
      trial balance the debit types are exactly the debit-normal types. */
  lemma {:induction false} StatementTypesPartition(k: StatementKind, t: AccountType)
    ensures !(t in DebitTypes(k) && t in CreditTypes(k))
    ensures t in AccountTypes(k) <==> t in DebitTypes(k) || t in CreditTypes(k)
    ensures t in DebitTypes(TrialBalance) <==> DebitNormal(t)
    ensures t in AccountTypes(TrialBalance)
  {
  }

  /** `_create_entries`: one entry per account total, in the same order. */
  function CreateEntries(totals: seq<AccountWithTotal>): (r: seq<StatementEntry>)
    ensures |r| == |totals|
    ensures forall i :: 0 <= i < |r| ==> r[i].name == totals[i].account.name
                                          && r[i].kind == totals[i].account.kind
                                          && r[i].total == totals[i].total
  {
    if |totals| == 0 then []
    else [StatementEntry(totals[0].account.name, totals[0].account.kind, totals[0].total)] + CreateEntries(totals[1..])
  }

  /** One column of `_split_by_type`: the entries whose type is in `types`,
      in their original order. */
  function OnSide(entries: seq<StatementEntry>, types: seq<AccountType>): (r: seq<StatementEntry>)
    ensures |r| <= |entries|
    ensures forall i :: 0 <= i < |r| ==> r[i] in entries && r[i].kind in types
    ensures forall i :: 0 <= i < |entries| && entries[i].kind in types ==> entries[i] in r
  {
    Sorting.Filter(entries, OfTypes(types))
  }

  function OfTypes(types: seq<AccountType>): StatementEntry -> bool {
    (e: StatementEntry) => e.kind in types
  }

  /** The column keeps the original order: filtering a concatenation is the
      concatenation of the filtered parts. */
  lemma {:induction false} OnSideDistributes(a: seq<StatementEntry>, b: seq<StatementEntry>, types: seq<AccountType>)
    ensures OnSide(a + b, types) == OnSide(a, types) + OnSide(b, types)
  {
    if |a| == 0 {
      assert a + b == b;
    } else {
      assert (a + b)[1..] == a[1..] + b;
      OnSideDistributes(a[1..], b, types);
    }
  }

  /** `_split_by_type`. */
  function SplitByType(entries: seq<StatementEntry>, k: StatementKind): (r: (seq<StatementEntry>, seq<StatementEntry>))
    ensures forall i :: 0 <= i < |r.0| ==> r.0[i] in entries && r.0[i].kind in DebitTypes(k)
    ensures forall i :: 0 <= i < |r.1| ==> r.1[i] in entries && r.1[i].kind in CreditTypes(k)
    ensures forall i :: 0 <= i < |entries| && entries[i].kind in DebitTypes(k) ==> entries[i] in r.0
    ensures forall i :: 0 <= i < |entries| && entries[i].kind in CreditTypes(k) ==> entries[i] in r.1
  {
    (OnSide(entries, DebitTypes(k)), OnSide(entries, CreditTypes(k)))
  }

  /** Σ total over entries. */
  function SumTotals(entries: seq<StatementEntry>): int {
    if |entries| == 0 then 0 else entries[0].total + SumTotals(entries[1..])
  }

  /** In the trial balance every entry lands in exactly one column: the
      column lengths and the column sums add up to those of all entries. */
  lemma {:induction false} TrialBalanceSplitPartitions(entries: seq<StatementEntry>)
    ensures |SplitByType(entries, TrialBalance).0| + |SplitByType(entries, TrialBalance).1| == |entries|
    ensures SumTotals(SplitByType(entries, TrialBalance).0) + SumTotals(SplitByType(entries, TrialBalance).1)
            == SumTotals(entries)
  {
    if |entries| > 0 {
      TrialBalanceSplitPartitions(entries[1..]);
      StatementTypesPartition(TrialBalance, entries[0].kind);
      var d := OnSide(entries[1..], DebitTypes(TrialBalance));
      var c := OnSide(entries[1..], CreditTypes(TrialBalance));
      assert ([entries[0]] + d)[1..] == d;
      assert ([entries[0]] + c)[1..] == c;
    }
  }

  /** `_get_total_debits_credits`: Σ total of each column, 0 for an empty one. */
  function SideTotals(debits: seq<StatementEntry>, credits: seq<StatementEntry>): (r: (int, int))
    ensures |debits| == 0 ==> r.0 == 0
    ensures |credits| == 0 ==> r.1 == 0
    ensures r.0 == SumTotals(debits) && r.1 == SumTotals(credits)
  {
    (SumTotals(debits), SumTotals(credits))
  }

  /** `get_transpose_columns`: `zip_longest` of the two columns padded
      with `None`. */
  function TransposeColumns(debits: seq<StatementEntry>, credits: seq<StatementEntry>): (r: seq<(Option<StatementEntry>, Option<StatementEntry>)>)
    ensures |r| == if |debits| >= |credits| then |debits| else |credits|
    ensures forall i :: 0 <= i < |r| ==> r[i].0 == (if i < |debits| then Some(debits[i]) else None)
    ensures forall i :: 0 <= i < |r| ==> r[i].1 == (if i < |credits| then Some(credits[i]) else None)
    decreases |debits| + |credits|
  {
    if |debits| == 0 && |credits| == 0 then []
    else
      var d := if |debits| > 0 then Some(debits[0]) else None;
      var c := if |credits| > 0 then Some(credits[0]) else None;
      var rest := TransposeColumns(if |debits| > 0 then debits[1..] else [], if |credits| > 0 then credits[1..] else []);
      [(d, c)] + rest
  }

  /** The present values of a padded column, in order. */
  function Present(column: seq<Option<StatementEntry>>): seq<StatementEntry> {
    if |column| == 0 then []
    else (if column[0].Some? then [column[0].value] else []) + Present(column[1..])
  }

  function Firsts(pairs: seq<(Option<StatementEntry>, Option<StatementEntry>)>): (r: seq<Option<StatementEntry>>)
    ensures |r| == |pairs| && forall i :: 0 <= i < |r| ==> r[i] == pairs[i].0
  {
    if |pairs| == 0 then [] else [pairs[0].0] + Firsts(pairs[1..])
  }

  function Seconds(pairs: seq<(Option<StatementEntry>, Option<StatementEntry>)>): (r: seq<Option<StatementEntry>>)
    ensures |r| == |pairs| && forall i :: 0 <= i < |r| ==> r[i] == pairs[i].1
  {
    if |pairs| == 0 then [] else [pairs[0].1] + Seconds(pairs[1..])
  }

  /** A column padded at the end: `n` values followed by `None`s. */
  lemma {:induction false} PresentOfPadded(column: seq<Option<StatementEntry>>, values: seq<StatementEntry>)
    requires |values| <= |column|
    requires forall i :: 0 <= i < |column| ==> column[i] == (if i < |values| then Some(values[i]) else None)
    ensures Present(column) == values
  {
    if |column| > 0 {
      var tail := if |values| > 0 then values[1..] else [];
      PresentOfPadded(column[1..], tail);
      if |values| > 0 {
        assert [values[0]] + tail == values;
      }
    }
  }

  /** Transposing loses nothing: the present cells of each side, read top
      to bottom, are that side's column. */
  lemma TransposeRecoversColumns(debits: seq<StatementEntry>, credits: seq<StatementEntry>)
    ensures Present(Firsts(TransposeColumns(debits, credits))) == debits
    ensures Present(Seconds(TransposeColumns(debits, credits))) == credits
  {
    var r := TransposeColumns(debits, credits);
    PresentOfPadded(Firsts(r), debits);
    PresentOfPadded(Seconds(r), credits);
  }

  // ---------------------------------------------------------------------
  // Spreadsheet rows

  datatype Cell = Num(amount: int) | Text(text: string)

  const TotalRowLabel: string := "合計"

  /** `_form_to_xlsx_rows`: [total, name, ""] for an entry of a debit type,
      ["", name, total] otherwise, then the totals row. */
  function XlsxRows(entries: seq<StatementEntry>, k: StatementKind, totalDebits: int, totalCredits: int): (r: seq<seq<Cell>>)
    ensures |r| == |entries| + 1
    ensures forall i :: 0 <= i < |r| ==> |r[i]| == 3
    ensures forall i :: 0 <= i < |entries| ==> r[i][1] == Text(entries[i].name)
    ensures forall i :: 0 <= i < |entries| && entries[i].kind in DebitTypes(k) ==> r[i][0] == Num(entries[i].total) && r[i][2] == Text("")
    ensures forall i :: 0 <= i < |entries| && entries[i].kind !in DebitTypes(k) ==> r[i][0] == Text("") && r[i][2] == Num(entries[i].total)
    ensures r[|entries|] == [Num(totalDebits), Text(TotalRowLabel), Num(totalCredits)]
  {
    EntryRows(entries, k) + [[Num(totalDebits), Text(TotalRowLabel), Num(totalCredits)]]
  }

  function EntryRows(entries: seq<StatementEntry>, k: StatementKind): (r: seq<seq<Cell>>)
    ensures |r| == |entries|
    ensures forall i :: 0 <= i < |r| ==> r[i] == EntryRow(entries[i], k)
  {
    if |entries| == 0 then [] else [EntryRow(entries[0], k)] + EntryRows(entries[1..], k)
  }

  function EntryRow(e: StatementEntry, k: StatementKind): seq<Cell> {
    if e.kind in DebitTypes(k) then [Num(e.total), Text(e.name), Text("")]
    else [Text(""), Text(e.name), Num(e.total)]
  }

  /** Σ of the numeric cells of one column over a list of rows. */
  function ColumnSum(rows: seq<seq<Cell>>, col: nat): int {
    if |rows| == 0 then 0
    else (if col < |rows[0]| && rows[0][col].Num? then rows[0][col].amount else 0) + ColumnSum(rows[1..], col)
  }

  /** For a statement whose entries all have one of its types, the numbers
      in the left column add up to the debit total and those in the right
      column to the credit total. */
  lemma XlsxColumnsMatchSides(entries: seq<StatementEntry>, k: StatementKind)
    requires forall i :: 0 <= i < |entries| ==> entries[i].kind in AccountTypes(k)
    ensures ColumnSum(EntryRows(entries, k), 0) == SumTotals(OnSide(entries, DebitTypes(k)))
    ensures ColumnSum(EntryRows(entries, k), 2) == SumTotals(OnSide(entries, CreditTypes(k)))
  {
    ColumnMatchesSide(entries, k, 0, DebitTypes(k));
    ColumnMatchesSide(entries, k, 2, CreditTypes(k));
  }

  lemma {:induction false} ColumnMatchesSide(entries: seq<StatementEntry>, k: StatementKind, col: nat, types: seq<AccountType>)
    requires (col == 0 && types == DebitTypes(k)) || (col == 2 && types == CreditTypes(k))
    requires forall i :: 0 <= i < |entries| ==> entries[i].kind in AccountTypes(k)
    ensures ColumnSum(EntryRows(entries, k), col) == SumTotals(OnSide(entries, types))
  {
    if |entries| > 0 {
      var e := entries[0];
      var tail := entries[1..];
      assert forall i :: 0 <= i < |tail| ==> tail[i] == entries[i + 1];
      ColumnMatchesSide(tail, k, col, types);
      CellOfColumn(e, k, col, types);
      ColumnSumCons(entries, k, col);
      SideSumCons(entries, types);
    }
  }

  /** The first entry's row contributes its cell in `col` to the column sum. */
  lemma ColumnSumCons(entries: seq<StatementEntry>, k: StatementKind, col: nat)
    requires |entries| > 0
    ensures var cell := EntryRow(entries[0], k);
            ColumnSum(EntryRows(entries, k), col)
            == (if col < |cell| && cell[col].Num? then cell[col].amount else 0) + ColumnSum(EntryRows(entries[1..], k), col)
  {
    var rows := EntryRows(entries, k);
    assert rows[1..] == EntryRows(entries[1..], k);
  }

  /** The first entry adds its total to a side's sum exactly when its type
      is on that side. */
  lemma SideSumCons(entries: seq<StatementEntry>, types: seq<AccountType>)
    requires |entries| > 0
    ensures SumTotals(OnSide(entries, types))
            == (if entries[0].kind in types then entries[0].total else 0) + SumTotals(OnSide(entries[1..], types))
  {
    var side := OnSide(entries[1..], types);
    if entries[0].kind in types {
      assert OnSide(entries, types) == [entries[0]] + side;
      assert ([entries[0]] + side)[1..] == side;
    }
  }

  /** The cell an entry puts in a column holds its total exactly when its
      type belongs to that column. */
  lemma CellOfColumn(e: StatementEntry, k: StatementKind, col: nat, types: seq<AccountType>)
    requires (col == 0 && types == DebitTypes(k)) || (col == 2 && types == CreditTypes(k))
    requires e.kind in AccountTypes(k)
    ensures col < |EntryRow(e, k)|
    ensures (if EntryRow(e, k)[col].Num? then EntryRow(e, k)[col].amount else 0) == (if e.kind in types then e.total else 0)
  {
    StatementTypesPartition(k, e.kind);
  }

  // ---------------------------------------------------------------------
  // Data and context

  datatype StatementData = StatementData(
    entries: seq<StatementEntry>,
    debitAccounts: seq<StatementEntry>,
    creditAccounts: seq<StatementEntry>,
    totalDebits: int,
    totalCredits: int)

  /** `get_data` from the account totals of the fiscal range. */
  function GetData(totals: seq<AccountWithTotal>, k: StatementKind): (r: StatementData)
    ensures r.entries == CreateEntries(totals) && |r.entries| == |totals|
    ensures r.debitAccounts == OnSide(r.entries, DebitTypes(k)) && r.creditAccounts == OnSide(r.entries, CreditTypes(k))
    ensures r.totalDebits == SumTotals(r.debitAccounts) && r.totalCredits == SumTotals(r.creditAccounts)
  {
    var entries := CreateEntries(totals);
    var split := SplitByType(entries, k);
    var sums := SideTotals(split.0, split.1);
    StatementData(entries, split.0, split.1, sums.0, sums.1)
  }

  /** `calc_net_income_or_loss`: the unique pair of non-negative amounts,
      at most one of them nonzero, whose difference is revenue − expense. */
  function NetIncomeOrLoss(revenue: int, expense: int): (r: (int, int))
    ensures r.0 >= 0 && r.1 >= 0
    ensures r.0 == 0 || r.1 == 0
    ensures r.0 - r.1 == revenue - expense
  {
    if revenue >= expense then (revenue - expense, 0) else (0, expense - revenue)
  }

  /** Any pair with the three properties is the one computed. */
  lemma NetIncomeOrLossUnique(revenue: int, expense: int, income: int, loss: int)
    requires income >= 0 && loss >= 0 && (income == 0 || loss == 0)
    requires income - loss == revenue - expense
    ensures NetIncomeOrLoss(revenue, expense) == (income, loss)
  {
  }

  /** The profit-and-loss context: the two columns, their totals, and
      `net_income` or `net_loss` when the one is positive. */
  datatype ProfitAndLossContext = ProfitAndLossContext(
    lossData: seq<StatementEntry>,
    profitData: seq<StatementEntry>,
    totalExpense: int,
    totalRevenue: int,
    netIncome: Option<int>,
    netLoss: Option<int>)

  /** `add_net_income_or_loss_to_context`. */
  function NetContext(revenue: int, expense: int): (r: (Option<int>, Option<int>))
    ensures r.0.Some? <==> revenue > expense
    ensures r.1.Some? <==> expense > revenue
    ensures r.0.Some? ==> r.0.value == revenue - expense
    ensures r.1.Some? ==> r.1.value == expense - revenue
  {
    var (income, loss) := NetIncomeOrLoss(revenue, expense);
    if income > 0 then (Some(income), None)
    else if loss > 0 then (None, Some(loss))
    else (None, None)
  }

  /** `ProfitAndLossView.add_specific_context`: expenses are the debit
      column and revenues the credit column. */
  function ProfitAndLossContextOf(data: StatementData): (r: ProfitAndLossContext)
    ensures r.lossData == data.debitAccounts && r.profitData == data.creditAccounts
    ensures r.totalExpense == data.totalDebits && r.totalRevenue == data.totalCredits
    ensures r.netIncome.Some? <==> data.totalCredits > data.totalDebits
    ensures r.netLoss.Some? <==> data.totalDebits > data.totalCredits
    ensures r.netIncome.Some? ==> r.netIncome.value == data.totalCredits - data.totalDebits
    ensures r.netLoss.Some? ==> r.netLoss.value == data.totalDebits - data.totalCredits
  {
    var net := NetContext(data.totalCredits, data.totalDebits);
    ProfitAndLossContext(data.debitAccounts, data.creditAccounts, data.totalDebits, data.totalCredits, net.0, net.1)
  }

  /** The balance-sheet context: the entries, and the side difference as
      retained earnings brought forward (`rebf`) or deficit brought forward
      (`debfb`). */
  datatype BalanceSheetContext = BalanceSheetContext(entries: seq<StatementEntry>, rebf: Option<int>, debfb: Option<int>)

  /** `BalanceSheetView.add_specific_context`: exactly one of `rebf` and
      `debfb` is set, and its value is the non-negative side difference. */
  function BalanceSheetContextOf(data: StatementData): (r: BalanceSheetContext)
    ensures r.entries == data.entries
    ensures r.rebf.Some? <==> r.debfb.None?
    ensures r.rebf.Some? <==> data.totalDebits > data.totalCredits
    ensures r.rebf.Some? ==> r.rebf.value > 0 && r.rebf.value == data.totalDebits - data.totalCredits
    ensures r.debfb.Some? ==> r.debfb.value >= 0 && r.debfb.value == data.totalCredits - data.totalDebits
  {
    if data.totalDebits > data.totalCredits then BalanceSheetContext(data.entries, Some(data.totalDebits - data.totalCredits), None)
    else BalanceSheetContext(data.entries, None, Some(data.totalCredits - data.totalDebits))
  }

  // ---------------------------------------------------------------------
  // Statements computed from the ledger

  /** Account totals as the statements expect them: one row per chart
      account of the statement's types, with its signed balance over the
      fiscal range. */
  function LedgerTotals(chart: seq<Account>, ledger: seq<Entry>, sc: Scope, k: StatementKind): (r: seq<AccountWithTotal>)
    ensures |r| <= |chart|
  {
    if |chart| == 0 then []
    else
      var rest := LedgerTotals(chart[1..], ledger, sc, k);
      if chart[0].kind in AccountTypes(k) then [AccountWithTotal(chart[0], ScopedBalance(ledger, chart[0], sc))] + rest else rest
  }

  /** Each row is for a chart account of the statement's types and holds
      that account's signed balance. */
  lemma {:induction false} LedgerTotalsRows(chart: seq<Account>, ledger: seq<Entry>, sc: Scope, k: StatementKind, i: int)
    requires 0 <= i < |LedgerTotals(chart, ledger, sc, k)|
    ensures var row := LedgerTotals(chart, ledger, sc, k)[i];
            && row.account in chart && row.account.kind in AccountTypes(k)
            && row.total == ScopedBalance(ledger, row.account, sc)
  {
    var r := LedgerTotals(chart, ledger, sc, k);
    var rest := LedgerTotals(chart[1..], ledger, sc, k);
    var head := if chart[0].kind in AccountTypes(k) then [AccountWithTotal(chart[0], ScopedBalance(ledger, chart[0], sc))] else [];
    assert r == head + rest;
    if i >= |head| {
      LedgerTotalsRows(chart[1..], ledger, sc, k, i - |head|);
      assert r[i] == rest[i - |head|];
    }
  }

  /** Every chart account of the statement's types has a row. */
  lemma {:induction false} LedgerTotalsCovers(chart: seq<Account>, ledger: seq<Entry>, sc: Scope, k: StatementKind, i: int)
    requires 0 <= i < |chart| && chart[i].kind in AccountTypes(k)
    ensures exists j :: 0 <= j < |LedgerTotals(chart, ledger, sc, k)| && LedgerTotals(chart, ledger, sc, k)[j].account == chart[i]
  {
    var r := LedgerTotals(chart, ledger, sc, k);
    var rest := LedgerTotals(chart[1..], ledger, sc, k);
    var head := if chart[0].kind in AccountTypes(k) then [AccountWithTotal(chart[0], ScopedBalance(ledger, chart[0], sc))] else [];
    assert r == head + rest;
    if i == 0 {
      assert r[0].account == chart[0];
    } else {
      assert chart[1..][i - 1] == chart[i];
      LedgerTotalsCovers(chart[1..], ledger, sc, k, i - 1);
      var j :| 0 <= j < |rest| && rest[j].account == chart[i];
      assert r[|head| + j] == rest[j];
    }
  }

  /** Σ of the balances of the chart accounts whose type is in `types`. */
  function KindsTotal(chart: seq<Account>, ledger: seq<Entry>, sc: Scope, types: seq<AccountType>): int {
    if |chart| == 0 then 0
    else (if chart[0].kind in types then ScopedBalance(ledger, chart[0], sc) else 0) + KindsTotal(chart[1..], ledger, sc, types)
  }

  /** A column's total is the Σ of the balances of its types. */
  lemma {:induction false} SideSumIsKindsTotal(chart: seq<Account>, ledger: seq<Entry>, sc: Scope, k: StatementKind, types: seq<AccountType>)
    requires forall t :: t in types ==> t in AccountTypes(k)
    ensures SumTotals(OnSide(CreateEntries(LedgerTotals(chart, ledger, sc, k)), types)) == KindsTotal(chart, ledger, sc, types)
  {
    if |chart| > 0 {
      SideSumIsKindsTotal(chart[1..], ledger, sc, k, types);
      var rest := LedgerTotals(chart[1..], ledger, sc, k);
      var side := OnSide(CreateEntries(rest), types);
      if chart[0].kind in AccountTypes(k) {
        var row := AccountWithTotal(chart[0], ScopedBalance(ledger, chart[0], sc));
        assert LedgerTotals(chart, ledger, sc, k) == [row] + rest;
        assert ([row] + rest)[1..] == rest;
        var es := CreateEntries([row] + rest);
        assert es[1..] == CreateEntries(rest);
        if chart[0].kind in types {
          assert OnSide(es, types) == [es[0]] + side;
          assert ([es[0]] + side)[1..] == side;
        } else {
          assert OnSide(es, types) == side;
        }
      } else {
        assert LedgerTotals(chart, ledger, sc, k) == rest;
      }
    }
  }

  /** Summing over two disjoint type lists is summing over their union. */
  lemma {:induction false} KindsTotalSplit(chart: seq<Account>, ledger: seq<Entry>, sc: Scope, a: seq<AccountType>, b: seq<AccountType>)
    requires forall t :: t in a ==> t !in b
    ensures KindsTotal(chart, ledger, sc, a + b) == KindsTotal(chart, ledger, sc, a) + KindsTotal(chart, ledger, sc, b)
  {
    if |chart| > 0 {
      KindsTotalSplit(chart[1..], ledger, sc, a, b);
    }
  }

  lemma {:induction false} SideTotalsAreKindsTotals(chart: seq<Account>, ledger: seq<Entry>, sc: Scope)
    ensures DebitSideTotal(chart, ledger, sc) == KindsTotal(chart, ledger, sc, [Asset, Expense])
    ensures CreditSideTotal(chart, ledger, sc) == KindsTotal(chart, ledger, sc, [Liability, Equity, Revenue])
  {
    if |chart| > 0 {
      SideTotalsAreKindsTotals(chart[1..], ledger, sc);
    }
  }

  /** The trial balance balances: over any date window, with every entry
      balanced and every line posting to the chart, the debit column total
      equals the credit column total. */
  lemma TrialBalanceTiesOut(chart: seq<Account>, ledger: seq<Entry>, sc: Scope)
    requires DistinctIds(chart) && ChartCovers(chart, ledger) && AllBalanced(ledger)
    ensures GetData(LedgerTotals(chart, ledger, sc, TrialBalance), TrialBalance).totalDebits
            == GetData(LedgerTotals(chart, ledger, sc, TrialBalance), TrialBalance).totalCredits
  {
    SideSumIsKindsTotal(chart, ledger, sc, TrialBalance, DebitTypes(TrialBalance));
    SideSumIsKindsTotal(chart, ledger, sc, TrialBalance, CreditTypes(TrialBalance));
    SideTotalsAreKindsTotals(chart, ledger, sc);
    TieOut(chart, ledger, sc);
  }

  /** Balance-sheet debits − credits equals revenue − expense. */
  lemma BalanceSheetGapIsProfit(chart: seq<Account>, ledger: seq<Entry>, sc: Scope)
    requires DistinctIds(chart) && ChartCovers(chart, ledger) && AllBalanced(ledger)
    ensures
      var bs := GetData(LedgerTotals(chart, ledger, sc, BalanceSheet), BalanceSheet);
      var pl := GetData(LedgerTotals(chart, ledger, sc, ProfitAndLoss), ProfitAndLoss);
      bs.totalDebits - bs.totalCredits == pl.totalCredits - pl.totalDebits
  {
    SideSumIsKindsTotal(chart, ledger, sc, BalanceSheet, DebitTypes(BalanceSheet));
    SideSumIsKindsTotal(chart, ledger, sc, BalanceSheet, CreditTypes(BalanceSheet));
    SideSumIsKindsTotal(chart, ledger, sc, ProfitAndLoss, DebitTypes(ProfitAndLoss));
    SideSumIsKindsTotal(chart, ledger, sc, ProfitAndLoss, CreditTypes(ProfitAndLoss));
    KindsTotalSplit(chart, ledger, sc, [Asset], [Expense]);
    assert [Asset] + [Expense] == [Asset, Expense];
    KindsTotalSplit(chart, ledger, sc, [Liability, Equity], [Revenue]);
    assert [Liability, Equity] + [Revenue] == [Liability, Equity, Revenue];
    SideTotalsAreKindsTotals(chart, ledger, sc);
    TieOut(chart, ledger, sc);
  }

  /** The balance-sheet difference is the period result: over the same
      window, `rebf` is set exactly when the profit-and-loss statement
      shows a net income, and then equals it; otherwise `debfb` equals the
      net loss, or 0 when revenue and expense are equal. */
  lemma BalanceSheetDifferenceIsNetResult(chart: seq<Account>, ledger: seq<Entry>, sc: Scope)
    requires DistinctIds(chart) && ChartCovers(chart, ledger) && AllBalanced(ledger)
    ensures
      var bs := BalanceSheetContextOf(GetData(LedgerTotals(chart, ledger, sc, BalanceSheet), BalanceSheet));
      var pl := ProfitAndLossContextOf(GetData(LedgerTotals(chart, ledger, sc, ProfitAndLoss), ProfitAndLoss));
      && bs.rebf == pl.netIncome
      && (bs.debfb.Some? ==> bs.debfb.value == pl.netLoss.GetOr(0))
  {
    BalanceSheetGapIsProfit(chart, ledger, sc);
    ContextsAgree(GetData(LedgerTotals(chart, ledger, sc, BalanceSheet), BalanceSheet),
                  GetData(LedgerTotals(chart, ledger, sc, ProfitAndLoss), ProfitAndLoss));
  }

  /** When the balance-sheet gap is the profit, the two contexts report
      the same result. */
  lemma ContextsAgree(bs: StatementData, pl: StatementData)
    requires bs.totalDebits - bs.totalCredits == pl.totalCredits - pl.totalDebits
    ensures BalanceSheetContextOf(bs).rebf == ProfitAndLossContextOf(pl).netIncome
    ensures BalanceSheetContextOf(bs).debfb.Some?
            ==> BalanceSheetContextOf(bs).debfb.value == ProfitAndLossContextOf(pl).netLoss.GetOr(0)
  {
  }
}
