/** The bookkeeping data model: accounts of the five types, companies,
    journal entries with their debit and credit lines, fiscal periods and
    fixed assets, and the ledger as an immutable sequence of entries. The
    ORM queries of the reports become the filters and sums defined here. */
module Ledger {
  import opened Wrappers
  import opened Dates
  import Sorting

  /** `ACCOUNT_TYPE_CHOICES`: asset, liability, equity, revenue, expense. */
  datatype AccountType = Asset | Liability | Equity | Revenue | Expense

  /** Account names are unique (`unique=True`); lines refer to accounts by id. */
  datatype Account = Account(id: nat, name: string, kind: AccountType)

  datatype Company = Company(id: nat, name: string)

  /** A debit or a credit line: an amount in cents posted to one account. */
  datatype Line = Line(account: Account, amount: int)

  /** `entry_type`: "normal", "adjustment" or "closing". */
  datatype EntryType = Normal | Adjustment | Closing

  /** A purchase-book detail row attached to an entry; `quantity * unitPrice`
      is its amount in cents. */
  datatype PurchaseDetail = PurchaseDetail(itemName: Option<string>, quantity: int, unitPrice: int)

  /** A journal entry header with its debit lines, credit lines and purchase
      details, each in insertion order. */
  datatype Entry = Entry(
    pk: nat,
    date: Date,
    summary: string,
    entryType: EntryType,
    company: Option<Company>,
    fiscalPeriod: Option<nat>,
    debits: seq<Line>,
    credits: seq<Line>,
    purchaseDetails: seq<PurchaseDetail>)

  datatype FiscalPeriod = FiscalPeriod(id: nat, name: string, startDate: Date, endDate: Date, isClosed: bool)

  datatype FixedAsset = FixedAsset(
    id: nat,
    assetNumber: string,
    name: string,
    account: Account,
    acquisitionDate: Date,
    acquisitionCost: int,
    acquisitionEntry: Option<nat>,
    usefulLife: int,
    depreciationMethod: string,
    residualValue: int,
    status: string,
    company: Option<Company>)

  /** One recorded depreciation amount for an (asset, fiscal period) pair. */
  datatype DepreciationHistory = DepreciationHistory(assetId: nat, periodId: nat, amount: int)

  /** Asset and expense accounts increase on the debit side; liability,
      equity and revenue accounts on the credit side. */
  predicate DebitNormal(kind: AccountType) {
    kind == Asset || kind == Expense
  }

  /** Balance of an account from its debit and credit totals, by type. */
  function SignedBalance(kind: AccountType, debitTotal: int, creditTotal: int): (r: int)
    ensures DebitNormal(kind) ==> r == debitTotal - creditTotal
    ensures !DebitNormal(kind) ==> r == creditTotal - debitTotal
    ensures r == 0 <==> debitTotal == creditTotal
  {
    if DebitNormal(kind) then debitTotal - creditTotal else creditTotal - debitTotal
  }

  /** Σ amount over a line set. */
  function LinesTotal(lines: seq<Line>): int {
    if |lines| == 0 then 0 else lines[0].amount + LinesTotal(lines[1..])
  }

  /** Some line of the set posts to `a`. */
  predicate HasLine(lines: seq<Line>, a: Account) {
    exists i :: 0 <= i < |lines| && lines[i].account.id == a.id
  }

  predicate AllPositive(lines: seq<Line>) {
    forall i :: 0 <= i < |lines| ==> lines[i].amount > 0
  }

  /** Σ amount over the lines of a set that post to `a`. */
  function LinesTotalFor(lines: seq<Line>, a: Account): (r: int)
    ensures !HasLine(lines, a) ==> r == 0
    ensures AllPositive(lines) ==> (r > 0 <==> HasLine(lines, a))
  {
    if |lines| == 0 then 0
    else
      assert forall i :: 1 <= i < |lines| ==> lines[1..][i - 1] == lines[i];
      (if lines[0].account.id == a.id then lines[0].amount else 0) + LinesTotalFor(lines[1..], a)
  }

  lemma {:induction false} LinesTotalForAll(lines: seq<Line>, a: Account)
    requires forall i :: 0 <= i < |lines| ==> lines[i].account.id == a.id
    ensures LinesTotalFor(lines, a) == LinesTotal(lines)
  {
    if |lines| > 0 {
      LinesTotalForAll(lines[1..], a);
    }
  }

  /** The entry has a line on `a` on either side (the ORM's
      `Q(debits__account=a) | Q(credits__account=a)`). */
  predicate Touches(e: Entry, a: Account) {
    HasLine(e.debits, a) || HasLine(e.credits, a)
  }

  /** The double-entry invariant: Σ debits == Σ credits. */
  predicate Balanced(e: Entry) {
    LinesTotal(e.debits) == LinesTotal(e.credits)
  }

  /** Net movement of one entry on `a`: Σ its debits − Σ its credits on `a`. */
  function Movement(e: Entry, a: Account): (r: int)
    ensures !Touches(e, a) ==> r == 0
  {
    LinesTotalFor(e.debits, a) - LinesTotalFor(e.credits, a)
  }

  /** A date window with an optional lower bound and an optional company,
      as in `journal_entry__date__gte`, `__lte` and `journal_entry__company`. */
  datatype Scope = Scope(from: Option<Date>, to: Date, company: Option<Company>)

  predicate InScope(e: Entry, sc: Scope) {
    && (sc.from.None? || OnOrBefore(sc.from.value, e.date))
    && OnOrBefore(e.date, sc.to)
    && (sc.company.None? || e.company == sc.company)
  }

  /** `Debit.objects.filter(account=a, <scope>).aggregate(Sum("amount"))`, 0 when empty. */
  function DebitTotal(ledger: seq<Entry>, a: Account, sc: Scope): int {
    if |ledger| == 0 then 0
    else (if InScope(ledger[0], sc) then LinesTotalFor(ledger[0].debits, a) else 0)
         + DebitTotal(ledger[1..], a, sc)
  }

  /** `Credit.objects.filter(account=a, <scope>).aggregate(Sum("amount"))`, 0 when empty. */
  function CreditTotal(ledger: seq<Entry>, a: Account, sc: Scope): int {
    if |ledger| == 0 then 0
    else (if InScope(ledger[0], sc) then LinesTotalFor(ledger[0].credits, a) else 0)
         + CreditTotal(ledger[1..], a, sc)
  }

  /** Σ debits − Σ credits on `a` over the entries in scope. */
  function NetInScope(ledger: seq<Entry>, a: Account, sc: Scope): int {
    DebitTotal(ledger, a, sc) - CreditTotal(ledger, a, sc)
  }

  /** `Account.objects.get(name=...)` / `.filter(name=...).first()`: the
      first account of the chart with that name. */
  function FindAccount(chart: seq<Account>, name: string): (r: Option<Account>)
    ensures r.None? <==> forall i :: 0 <= i < |chart| ==> chart[i].name != name
    ensures r.Some? ==> r.value.name == name && exists i :: 0 <= i < |chart| && chart[i] == r.value
  {
    if |chart| == 0 then None
    else if chart[0].name == name then Some(chart[0])
    else
      var r := FindAccount(chart[1..], name);
      assert forall i :: 1 <= i < |chart| ==> chart[1..][i - 1] == chart[i];
      r
  }

  /** Ordering key `order_by("date", "pk")`. */
  predicate EntryOnOrBefore(x: Entry, y: Entry) {
    Before(x.date, y.date) || (x.date == y.date && x.pk <= y.pk)
  }

  lemma EntryOrderIsTotalPreorder()
    ensures Sorting.TotalPreorder(EntryOnOrBefore)
  {
    forall x, y, z | EntryOnOrBefore(x, y) && EntryOnOrBefore(y, z)
      ensures EntryOnOrBefore(x, z)
    {
      OnOrBeforeTransitive(x.date, y.date, z.date);
    }
  }

  /** `.order_by("date", "pk")` over a sequence of entries. */
  function SortByDatePk(es: seq<Entry>): (r: seq<Entry>)
    ensures multiset(r) == multiset(es)
    ensures Sorting.SortedBy(r, EntryOnOrBefore)
  {
    EntryOrderIsTotalPreorder();
    Sorting.SortSorted(es, EntryOnOrBefore);
    Sorting.Sort(es, EntryOnOrBefore)
  }

  /** Primary keys are unique across the ledger. */
  predicate DistinctPks(ledger: seq<Entry>) {
    forall i, j :: 0 <= i < j < |ledger| ==> ledger[i].pk != ledger[j].pk
  }

  /** Every entry date is a real calendar date. */
  predicate ValidDates(ledger: seq<Entry>) {
    forall i :: 0 <= i < |ledger| ==> ValidDate(ledger[i].date)
  }

  /** Signed balance of `a` over the entries in scope, by the account's type. */
  function ScopedBalance(ledger: seq<Entry>, a: Account, sc: Scope): (r: int)
    ensures DebitNormal(a.kind) ==> r == NetInScope(ledger, a, sc)
    ensures !DebitNormal(a.kind) ==> r == -NetInScope(ledger, a, sc)
  {
    SignedBalance(a.kind, DebitTotal(ledger, a, sc), CreditTotal(ledger, a, sc))
  }

  predicate IdInChart(chart: seq<Account>, id: nat) {
    exists k :: 0 <= k < |chart| && chart[k].id == id
  }

  predicate DistinctIds(chart: seq<Account>) {
    forall i, j :: 0 <= i < j < |chart| ==> chart[i].id != chart[j].id
  }

  predicate LinesInChart(chart: seq<Account>, lines: seq<Line>) {
    forall j :: 0 <= j < |lines| ==> IdInChart(chart, lines[j].account.id)
  }

  /** Every line of the ledger posts to an account of the chart. */
  predicate ChartCovers(chart: seq<Account>, ledger: seq<Entry>) {
    forall i :: 0 <= i < |ledger| ==> LinesInChart(chart, ledger[i].debits) && LinesInChart(chart, ledger[i].credits)
  }

  predicate AllBalanced(ledger: seq<Entry>) {
    forall i :: 0 <= i < |ledger| ==> Balanced(ledger[i])
  }

  /** Σ over debit-normal accounts of the chart of their scoped balances. */
  function DebitSideTotal(chart: seq<Account>, ledger: seq<Entry>, sc: Scope): int {
    if |chart| == 0 then 0
    else (if DebitNormal(chart[0].kind) then ScopedBalance(ledger, chart[0], sc) else 0)
         + DebitSideTotal(chart[1..], ledger, sc)
  }

  /** Σ over the other accounts of the chart of their scoped balances. */
  function CreditSideTotal(chart: seq<Account>, ledger: seq<Entry>, sc: Scope): int {
    if |chart| == 0 then 0
    else (if DebitNormal(chart[0].kind) then 0 else ScopedBalance(ledger, chart[0], sc))
         + CreditSideTotal(chart[1..], ledger, sc)
  }

  /** Σ over the chart of each account's net movement in scope. */
  function ChartNet(chart: seq<Account>, ledger: seq<Entry>, sc: Scope): int {
    if |chart| == 0 then 0 else NetInScope(ledger, chart[0], sc) + ChartNet(chart[1..], ledger, sc)
  }

  /** Σ over the chart of the amounts each account receives from a line set. */
  function ChartLines(chart: seq<Account>, lines: seq<Line>): int {
    if |chart| == 0 then 0 else LinesTotalFor(lines, chart[0]) + ChartLines(chart[1..], lines)
  }

  /** Σ over the chart of the amount one line gives each account. */
  function ChartShare(chart: seq<Account>, l: Line): int {
    if |chart| == 0 then 0
    else (if chart[0].id == l.account.id then l.amount else 0) + ChartShare(chart[1..], l)
  }

  lemma {:induction false} SidesDifference(chart: seq<Account>, ledger: seq<Entry>, sc: Scope)
    ensures DebitSideTotal(chart, ledger, sc) - CreditSideTotal(chart, ledger, sc) == ChartNet(chart, ledger, sc)
  {
    if |chart| > 0 {
      SidesDifference(chart[1..], ledger, sc);
    }
  }

  /** A line gives its amount to exactly one account of a chart with
      distinct ids that contains its account. */
  lemma {:induction false} ChartShareIsAmount(chart: seq<Account>, l: Line)
    requires DistinctIds(chart)
    ensures ChartShare(chart, l) == (if IdInChart(chart, l.account.id) then l.amount else 0)
  {
    if |chart| > 0 {
      assert DistinctIds(chart[1..]) by {
        forall i, j | 0 <= i < j < |chart[1..]|
          ensures chart[1..][i].id != chart[1..][j].id
        {
          assert chart[1..][i] == chart[i + 1] && chart[1..][j] == chart[j + 1];
        }
      }
      ChartShareIsAmount(chart[1..], l);
      if chart[0].id == l.account.id {
        forall k | 0 <= k < |chart[1..]|
          ensures chart[1..][k].id != l.account.id
        {
          assert chart[1..][k] == chart[k + 1];
        }
      } else {
        if IdInChart(chart, l.account.id) {
          var k :| 0 <= k < |chart| && chart[k].id == l.account.id;
          assert chart[1..][k - 1].id == l.account.id;
        }
        if IdInChart(chart[1..], l.account.id) {
          var k :| 0 <= k < |chart[1..]| && chart[1..][k].id == l.account.id;
          assert chart[k + 1].id == l.account.id;
        }
      }
    }
  }

  lemma {:induction false} ChartLinesCons(chart: seq<Account>, lines: seq<Line>)
    requires |lines| > 0
    ensures ChartLines(chart, lines) == ChartShare(chart, lines[0]) + ChartLines(chart, lines[1..])
  {
    if |chart| > 0 {
      ChartLinesCons(chart[1..], lines);
    }
  }

  /** Summed over a covering chart with distinct ids, the per-account
      totals of a line set add up to the line set's total. */
  lemma {:induction false} ChartLinesIsTotal(chart: seq<Account>, lines: seq<Line>)
    requires DistinctIds(chart) && LinesInChart(chart, lines)
    ensures ChartLines(chart, lines) == LinesTotal(lines)
  {
    if |lines| == 0 {
      ChartLinesEmpty(chart, lines);
    } else {
      ChartLinesCons(chart, lines);
      ChartShareIsAmount(chart, lines[0]);
      assert IdInChart(chart, lines[0].account.id);
      assert LinesInChart(chart, lines[1..]) by {
        forall j | 0 <= j < |lines[1..]|
          ensures IdInChart(chart, lines[1..][j].account.id)
        {
          assert lines[1..][j] == lines[j + 1];
        }
      }
      ChartLinesIsTotal(chart, lines[1..]);
    }
  }

  lemma {:induction false} ChartLinesEmpty(chart: seq<Account>, lines: seq<Line>)
    requires |lines| == 0
    ensures ChartLines(chart, lines) == 0
  {
    if |chart| > 0 {
      ChartLinesEmpty(chart[1..], lines);
    }
  }

  /** The chart net of a ledger is the first entry's share plus the rest's. */
  lemma {:induction false} ChartNetCons(chart: seq<Account>, ledger: seq<Entry>, sc: Scope)
    requires |ledger| > 0
    ensures ChartNet(chart, ledger, sc)
            == (if InScope(ledger[0], sc)
                then ChartLines(chart, ledger[0].debits) - ChartLines(chart, ledger[0].credits)
                else 0)
               + ChartNet(chart, ledger[1..], sc)
  {
    if |chart| > 0 {
      ChartNetCons(chart[1..], ledger, sc);
    }
  }

  /** With balanced entries and a covering chart, the accounts' net
      movements cancel out. */
  lemma {:induction false} ChartNetIsZero(chart: seq<Account>, ledger: seq<Entry>, sc: Scope)
    requires DistinctIds(chart) && ChartCovers(chart, ledger) && AllBalanced(ledger)
    ensures ChartNet(chart, ledger, sc) == 0
  {
    if |ledger| == 0 {
      ChartNetEmpty(chart, ledger, sc);
    } else {
      ChartNetCons(chart, ledger, sc);
      ChartLinesIsTotal(chart, ledger[0].debits);
      ChartLinesIsTotal(chart, ledger[0].credits);
      assert ChartCovers(chart, ledger[1..]) && AllBalanced(ledger[1..]) by {
        assert forall i :: 0 <= i < |ledger[1..]| ==> ledger[1..][i] == ledger[i + 1];
      }
      ChartNetIsZero(chart, ledger[1..], sc);
    }
  }

  lemma {:induction false} ChartNetEmpty(chart: seq<Account>, ledger: seq<Entry>, sc: Scope)
    requires |ledger| == 0
    ensures ChartNet(chart, ledger, sc) == 0
  {
    if |chart| > 0 {
      ChartNetEmpty(chart[1..], ledger, sc);
    }
  }

  /** Trial-balance tie-out: when every entry is balanced and every line
      posts to the chart, Σ balances of asset and expense accounts equals
      Σ balances of the other accounts, for any date window and company. */
  lemma TieOut(chart: seq<Account>, ledger: seq<Entry>, sc: Scope)
    requires DistinctIds(chart) && ChartCovers(chart, ledger) && AllBalanced(ledger)
    ensures DebitSideTotal(chart, ledger, sc) == CreditSideTotal(chart, ledger, sc)
  {
    SidesDifference(chart, ledger, sc);
    ChartNetIsZero(chart, ledger, sc);
  }

  /** Appending an entry adds its lines on `a` to the totals when it is in
      scope, and nothing otherwise. */
  lemma {:induction false} TotalsAppend(ledger: seq<Entry>, e: Entry, a: Account, sc: Scope)
    ensures DebitTotal(ledger + [e], a, sc)
            == DebitTotal(ledger, a, sc) + (if InScope(e, sc) then LinesTotalFor(e.debits, a) else 0)
    ensures CreditTotal(ledger + [e], a, sc)
            == CreditTotal(ledger, a, sc) + (if InScope(e, sc) then LinesTotalFor(e.credits, a) else 0)
  {
    if |ledger| == 0 {
      assert [] + [e] == [e];
      assert [e][1..] == [];
    } else {
      assert (ledger + [e])[1..] == ledger[1..] + [e];
      TotalsAppend(ledger[1..], e, a, sc);
    }
  }

  /** The balance over no entries is zero, and one more entry adds its own
      signed lines on the account when it is in scope and nothing otherwise. */
  lemma ScopedBalanceSnoc(ledger: seq<Entry>, e: Entry, a: Account, sc: Scope)
    ensures ScopedBalance([], a, sc) == 0
    ensures ScopedBalance(ledger + [e], a, sc)
            == ScopedBalance(ledger, a, sc)
               + (if InScope(e, sc) then SignedBalance(a.kind, LinesTotalFor(e.debits, a), LinesTotalFor(e.credits, a)) else 0)
  {
    TotalsAppend(ledger, e, a, sc);
  }
}
