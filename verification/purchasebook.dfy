/** The purchase book (`PurchaseBookView.get_context_data`): the month's
    entries that post to the 仕入 (purchases) account, each shown as a
    purchase or a purchase return with its counter account, company and
    item lines, checked against its item details, and totalled into gross
    purchases, returns and net purchases. */
module PurchaseBook {
  import opened Wrappers
  import opened Dates
  import opened Money
  import opened Ledger
  import Sorting
  import Numerals

  const PurchaseAccountName: string := "仕入"
  const MissingAccountMessage: string := "勘定科目「仕入」が見つかりません。"
  const UnknownName: string := "不明"
  const UnknownItemName: string := "不明商品"

  /** The error recorded for an entry whose item details disagree with it. */
  function MismatchMessage(pk: nat): string {
    "仕訳ID " + Numerals.NatToString(pk) + " の内訳金額合計が仕訳金額と一致しません。"
  }

  /** Different entries give different messages. */
  lemma MismatchMessageNamesEntry(a: nat, b: nat)
    requires MismatchMessage(a) == MismatchMessage(b)
    ensures a == b
  {
    var prefix := "仕訳ID ";
    var suffix := " の内訳金額合計が仕訳金額と一致しません。";
    var sa := Numerals.NatToString(a);
    var sb := Numerals.NatToString(b);
    assert MismatchMessage(a)[|prefix|..|MismatchMessage(a)| - |suffix|] == sa;
    assert MismatchMessage(b)[|prefix|..|MismatchMessage(b)| - |suffix|] == sb;
    Numerals.NatToStringInjective(a, b);
  }

  datatype PurchaseItem = PurchaseItem(name: string, quantity: int, unitPrice: int)

  /** One book line (`PurchaseBookEntry`); amounts in cents. */
  datatype PurchaseBookEntry = PurchaseBookEntry(
    date: Date,
    company: string,
    items: seq<PurchaseItem>,
    counterAccount: string,
    isReturn: bool,
    totalAmount: int)

  /** `ClosingEntry`: gross purchases, returns and allowances, net purchases. */
  datatype ClosingEntry = ClosingEntry(totalPurchase: int, totalReturns: int, netPurchase: int)

  datatype Book = Book(year: int, month: int, bookEntries: seq<PurchaseBookEntry>, closingEntry: ClosingEntry)

  /** The view's context: the book when the purchases account exists, and
      the last error message, if any. */
  datatype BookContext = BookContext(book: Option<Book>, error: Option<string>)

  // ---------------------------------------------------------------------
  // The month's purchase entries

  /** `date__year=year, date__month=month`. */
  predicate InYearMonth(e: Entry, y: int, m: int) {
    e.date.year == y && e.date.month == m
  }

  function MonthTouchingOf(p: Account, y: int, m: int): Entry -> bool {
    e => InYearMonth(e, y, m) && Touches(e, p)
  }

  /** The query with each matching entry once, by date (ties by pk). */
  function PurchaseJournals(ledger: seq<Entry>, p: Account, y: int, m: int): (r: seq<Entry>)
    ensures forall i :: 0 <= i < |r| ==> r[i] in ledger && InYearMonth(r[i], y, m) && Touches(r[i], p)
    ensures forall i :: 0 <= i < |ledger| && InYearMonth(ledger[i], y, m) && Touches(ledger[i], p) ==> ledger[i] in r
    ensures forall e :: multiset(r)[e] == if InYearMonth(e, y, m) && Touches(e, p) then multiset(ledger)[e] else 0
    ensures Sorting.SortedBy(r, EntryOnOrBefore)
  {
    var f := Sorting.Filter(ledger, MonthTouchingOf(p, y, m));
    var r := SortByDatePk(f);
    forall e
      ensures multiset(r)[e] == if InYearMonth(e, y, m) && Touches(e, p) then multiset(ledger)[e] else 0
    {
      Sorting.FilterMultiplicity(ledger, MonthTouchingOf(p, y, m), e);
    }
    forall i | 0 <= i < |r|
      ensures r[i] in ledger && InYearMonth(r[i], y, m) && Touches(r[i], p)
    {
      assert r[i] in multiset(f);
    }
    forall i | 0 <= i < |ledger| && InYearMonth(ledger[i], y, m) && Touches(ledger[i], p)
      ensures ledger[i] in r
    {
      assert ledger[i] in multiset(r);
    }
    r
  }

  /** A line set padded as by a LEFT OUTER JOIN: one NULL row when empty. */
  function Padded(lines: seq<Line>): (r: seq<Option<Line>>)
    ensures |r| == if |lines| == 0 then 1 else |lines|
  {
    if |lines| == 0 then [None] else PaddedSome(lines)
  }

  function PaddedSome(lines: seq<Line>): (r: seq<Option<Line>>)
    ensures |r| == |lines| && forall i :: 0 <= i < |r| ==> r[i] == Some(lines[i])
  {
    if |lines| == 0 then [] else [Some(lines[0])] + PaddedSome(lines[1..])
  }

  predicate OnAccount(l: Option<Line>, p: Account) {
    l.Some? && l.value.account.id == p.id
  }

  /** Joined (debit, credit) rows of one debit row that meet the OR filter. */
  function RowsWith(d: Option<Line>, cs: seq<Option<Line>>, p: Account): nat {
    if |cs| == 0 then 0 else (if OnAccount(d, p) || OnAccount(cs[0], p) then 1 else 0) + RowsWith(d, cs[1..], p)
  }

  function JoinedRows(ds: seq<Option<Line>>, cs: seq<Option<Line>>, p: Account): nat {
    if |ds| == 0 then 0 else RowsWith(ds[0], cs, p) + JoinedRows(ds[1..], cs, p)
  }

  /** How often an entry comes back from `filter(Q(debits__account=p) |
      Q(credits__account=p))` without `.distinct()`: once per (debit line,
      credit line) pair of the outer joins in which either line is on `p`. */
  function JoinMultiplicity(e: Entry, p: Account): nat {
    JoinedRows(Padded(e.debits), Padded(e.credits), p)
  }

  function JoinMultiplicityOf(p: Account): Entry -> nat {
    e => JoinMultiplicity(e, p)
  }

  /** The query as the view writes it: the joined rows of the matching
      entries, one copy of an entry per joined row. */
  function PurchaseJournalsAsWritten(ledger: seq<Entry>, p: Account, y: int, m: int): (r: seq<Entry>)
    ensures forall e :: multiset(r)[e]
                        == if InYearMonth(e, y, m) && Touches(e, p) then multiset(ledger)[e] * JoinMultiplicity(e, p) else 0
    ensures Sorting.SortedBy(r, EntryOnOrBefore)
  {
    var f := Sorting.Filter(ledger, MonthTouchingOf(p, y, m));
    var r := SortByDatePk(Sorting.Expand(f, JoinMultiplicityOf(p)));
    forall e
      ensures multiset(r)[e]
              == if InYearMonth(e, y, m) && Touches(e, p) then multiset(ledger)[e] * JoinMultiplicity(e, p) else 0
    {
      Sorting.FilterMultiplicity(ledger, MonthTouchingOf(p, y, m), e);
      Sorting.ExpandMultiplicity(f, JoinMultiplicityOf(p), e);
      var k := multiset(f)[e];
      var n := JoinMultiplicity(e, p);
      assert multiset(r)[e] == k * n;
      assert MonthTouchingOf(p, y, m)(e) == (InYearMonth(e, y, m) && Touches(e, p));
      if InYearMonth(e, y, m) && Touches(e, p) {
        assert k == multiset(ledger)[e];
        assert multiset(r)[e] == multiset(ledger)[e] * n;
      } else {
        assert k == 0;
        Sorting.MulZero(n);
      }
    }
    r
  }

  // ---------------------------------------------------------------------
  // One entry

  /** Σ quantity × unit price over the item details, in cents. */
  function DetailTotal(ds: seq<PurchaseDetail>): int {
    if |ds| == 0 then 0 else ds[0].quantity * ds[0].unitPrice + DetailTotal(ds[1..])
  }

  function Items(ds: seq<PurchaseDetail>): (r: seq<PurchaseItem>)
    ensures |r| == |ds|
    ensures forall i :: 0 <= i < |r| ==> r[i] == PurchaseItem(ds[i].itemName.GetOr(UnknownItemName), ds[i].quantity, ds[i].unitPrice)
  {
    if |ds| == 0 then []
    else [PurchaseItem(ds[0].itemName.GetOr(UnknownItemName), ds[0].quantity, ds[0].unitPrice)] + Items(ds[1..])
  }

  /** The 仕入 amount on the debit side: a purchase. */
  function PurchaseAmount(e: Entry, p: Account): int {
    if HasLine(e.debits, p) then LinesTotalFor(e.debits, p) else 0
  }

  /** The 仕入 amount on the credit side of an entry with none on the debit
      side: a return or allowance. */
  function ReturnAmount(e: Entry, p: Account): int {
    if !HasLine(e.debits, p) && HasLine(e.credits, p) then LinesTotalFor(e.credits, p) else 0
  }

  /** The amount shown for the entry: its 仕入 lines on the deciding side. */
  function EntryAmount(e: Entry, p: Account): (r: int)
    ensures r == PurchaseAmount(e, p) + ReturnAmount(e, p)
  {
    if HasLine(e.debits, p) then LinesTotalFor(e.debits, p) else LinesTotalFor(e.credits, p)
  }

  /** `round(total_detail_amount) != round(amount)`: the two amounts differ
      once each is rounded to whole yen, ties to even. */
  predicate Mismatch(e: Entry, p: Account) {
    Touches(e, p)
    && RoundHalfEven(DetailTotal(e.purchaseDetails), 100) != RoundHalfEven(EntryAmount(e, p), 100)
  }

  /** Name of the first line of a side, or 不明 when the side is empty. */
  function FirstName(lines: seq<Line>): string {
    if |lines| == 0 then UnknownName else lines[0].account.name
  }

  /** The book line for an entry that posts to 仕入. A purchase takes the
      first credit line as its counter account, a return the first debit
      line; the company shows as 不明 when absent. */
  function BookRow(e: Entry, p: Account): (r: PurchaseBookEntry)
    ensures r.isReturn <==> !HasLine(e.debits, p)
    ensures r.totalAmount == EntryAmount(e, p)
    ensures r.date == e.date
    ensures r.counterAccount == if r.isReturn then FirstName(e.debits) else FirstName(e.credits)
    ensures r.company == if e.company.Some? then e.company.value.name else UnknownName
    ensures r.items == Items(e.purchaseDetails)
  {
    var isReturn := !HasLine(e.debits, p);
    var counter := if isReturn then FirstName(e.debits) else FirstName(e.credits);
    var company := if e.company.Some? then e.company.value.name else UnknownName;
    PurchaseBookEntry(e.date, company, Items(e.purchaseDetails), counter, isReturn, EntryAmount(e, p))
  }

  // ---------------------------------------------------------------------
  // The loop over the entries

  datatype BookState = BookState(rows: seq<PurchaseBookEntry>, totalPurchase: int, totalReturns: int, error: Option<string>)

  /** One iteration of the loop: entries without 仕入 are skipped. */
  function Step(st: BookState, e: Entry, p: Account): BookState {
    if !Touches(e, p) then st
    else
      var purchase := HasLine(e.debits, p);
      BookState(
        st.rows + [BookRow(e, p)],
        st.totalPurchase + (if purchase then EntryAmount(e, p) else 0),
        st.totalReturns + (if purchase then 0 else EntryAmount(e, p)),
        if Mismatch(e, p) then Some(MismatchMessage(e.pk)) else st.error)
  }

  function PurchaseAmountOf(p: Account): Entry -> int {
    e => PurchaseAmount(e, p)
  }

  function ReturnAmountOf(p: Account): Entry -> int {
    e => ReturnAmount(e, p)
  }

  /** The loop over a query result, in order; `Step` is applied to each
      entry, and a line is added for each entry that posts to 仕入. */
  function RunBook(es: seq<Entry>, p: Account): (r: BookState)
    ensures |r.rows| <= |es|
  {
    if |es| == 0 then BookState([], 0, 0, None)
    else Step(RunBook(es[..|es| - 1], p), es[|es| - 1], p)
  }

  lemma StepFields(st: BookState, e: Entry, p: Account)
    ensures Step(st, e, p).error == if Mismatch(e, p) then Some(MismatchMessage(e.pk)) else st.error
    ensures Step(st, e, p).rows == if Touches(e, p) then st.rows + [BookRow(e, p)] else st.rows
  {
  }

  lemma RunBookUnfold(es: seq<Entry>, p: Account)
    requires |es| > 0
    ensures RunBook(es, p) == Step(RunBook(es[..|es| - 1], p), es[|es| - 1], p)
  {
  }

  /** An entry posting to 仕入 adds its line at the end of the book. */
  lemma RunBookLastRow(es: seq<Entry>, p: Account)
    requires |es| > 0 && Touches(es[|es| - 1], p)
    ensures RunBook(es, p).rows == RunBook(es[..|es| - 1], p).rows + [BookRowOf(p)(es[|es| - 1])]
  {
    RunBookUnfold(es, p);
    StepFields(RunBook(es[..|es| - 1], p), es[|es| - 1], p);
  }

  /** The last entry adds its purchase and return amounts to the totals. */
  lemma RunBookLastTotals(es: seq<Entry>, p: Account)
    requires |es| > 0
    ensures RunBook(es, p).totalPurchase == RunBook(es[..|es| - 1], p).totalPurchase + PurchaseAmountOf(p)(es[|es| - 1])
    ensures RunBook(es, p).totalReturns == RunBook(es[..|es| - 1], p).totalReturns + ReturnAmountOf(p)(es[|es| - 1])
  {
    RunBookUnfold(es, p);
  }

  /** Gross purchases and returns are the per-entry 仕入 amounts summed. */
  lemma {:induction false} RunBookTotals(es: seq<Entry>, p: Account)
    ensures RunBook(es, p).totalPurchase == Sorting.SumOf(es, PurchaseAmountOf(p))
    ensures RunBook(es, p).totalReturns == Sorting.SumOf(es, ReturnAmountOf(p))
  {
    if |es| > 0 {
      var init := es[..|es| - 1];
      var e := es[|es| - 1];
      RunBookTotals(init, p);
      RunBookLastTotals(es, p);
      Sorting.ButLastSplit(es);
      assert Sorting.SumOf([e], PurchaseAmountOf(p)) == PurchaseAmountOf(p)(e) by {
        assert [e][1..] == [];
      }
      assert Sorting.SumOf([e], ReturnAmountOf(p)) == ReturnAmountOf(p)(e) by {
        assert [e][1..] == [];
      }
      Sorting.SumOfConcat(init, [e], PurchaseAmountOf(p));
      Sorting.SumOfConcat(init, [e], ReturnAmountOf(p));
    }
  }

  /** The error names the last entry whose details disagree with it, and
      is absent when none does. */
  lemma {:induction false} RunBookError(es: seq<Entry>, p: Account)
    ensures RunBook(es, p).error == ErrorFor(es, p)
  {
    if |es| > 0 {
      var init := es[..|es| - 1];
      RunBookError(init, p);
      RunBookUnfold(es, p);
      StepFields(RunBook(init, p), es[|es| - 1], p);
      if !Mismatch(es[|es| - 1], p) && Sorting.LastIndexWhere(init, MismatchOf(p)) >= 0 {
        var j := Sorting.LastIndexWhere(init, MismatchOf(p));
        assert init[j] == es[j];
      }
    }
  }

  function MismatchOf(p: Account): Entry -> bool {
    e => Mismatch(e, p)
  }

  /** The message for the last entry whose details disagree with it, or
      none when every entry agrees. */
  function ErrorFor(es: seq<Entry>, p: Account): (r: Option<string>)
    ensures r.None? <==> forall i :: 0 <= i < |es| ==> !Mismatch(es[i], p)
    ensures r.Some? ==> exists j :: 0 <= j < |es| && Mismatch(es[j], p) && r.value == MismatchMessage(es[j].pk)
                                    && forall k :: j < k < |es| ==> !Mismatch(es[k], p)
  {
    var j := Sorting.LastIndexWhere(es, MismatchOf(p));
    if j < 0 then None else Some(MismatchMessage(es[j].pk))
  }

  /** When every entry posts to 仕入, the book has one line per entry, in order. */
  lemma {:induction false} RunBookRows(es: seq<Entry>, p: Account)
    requires forall i :: 0 <= i < |es| ==> Touches(es[i], p)
    ensures |RunBook(es, p).rows| == |es|
    ensures forall i :: 0 <= i < |es| ==> RunBook(es, p).rows[i] == BookRow(es[i], p)
  {
    if |es| > 0 {
      var init := es[..|es| - 1];
      var e := es[|es| - 1];
      var before := RunBook(init, p).rows;
      assert |before| == |init| && forall i :: 0 <= i < |init| ==> before[i] == BookRowOf(p)(init[i]) by {
        forall i | 0 <= i < |init| ensures Touches(init[i], p) {
          assert init[i] == es[i];
        }
        RunBookRows(init, p);
      }
      assert RunBook(es, p).rows == before + [BookRowOf(p)(e)] by {
        RunBookLastRow(es, p);
      }
      Sorting.ButLastSplit(es);
      Sorting.SnocPointwise(init, e, before, BookRowOf(p));
    }
  }

  function BookRowOf(p: Account): Entry -> PurchaseBookEntry {
    e => BookRow(e, p)
  }

  // ---------------------------------------------------------------------
  // The view

  /** `get_context_data` for a year and month: an error alone when there
      is no 仕入 account; otherwise the book over the month's 仕入 entries,
      with net purchases = gross − returns. */
  function PurchaseBookContext(chart: seq<Account>, ledger: seq<Entry>, y: int, m: int): (r: BookContext)
    ensures FindAccount(chart, PurchaseAccountName).None? ==> r == BookContext(None, Some(MissingAccountMessage))
    ensures FindAccount(chart, PurchaseAccountName).Some? ==> r.book.Some?
    ensures r.book.Some? ==> r.book.value.closingEntry.netPurchase
                             == r.book.value.closingEntry.totalPurchase - r.book.value.closingEntry.totalReturns
  {
    match FindAccount(chart, PurchaseAccountName)
    case None => BookContext(None, Some(MissingAccountMessage))
    case Some(p) =>
      var st := RunBook(PurchaseJournals(ledger, p, y, m), p);
      BookContext(Some(Book(y, m, st.rows, ClosingEntry(st.totalPurchase, st.totalReturns, st.totalPurchase - st.totalReturns))), st.error)
  }

  /** Purchases of the month counted from the whole ledger. */
  function MonthPurchaseOf(p: Account, y: int, m: int): Entry -> int {
    e => if InYearMonth(e, y, m) then PurchaseAmount(e, p) else 0
  }

  function MonthReturnOf(p: Account, y: int, m: int): Entry -> int {
    e => if InYearMonth(e, y, m) then ReturnAmount(e, p) else 0
  }

  /** Summing over the month's query equals summing the month's 仕入
      amounts over the whole ledger, whatever the order. */
  lemma QueryTotals(ledger: seq<Entry>, p: Account, y: int, m: int)
    ensures Sorting.SumOf(PurchaseJournals(ledger, p, y, m), PurchaseAmountOf(p)) == Sorting.SumOf(ledger, MonthPurchaseOf(p, y, m))
    ensures Sorting.SumOf(PurchaseJournals(ledger, p, y, m), ReturnAmountOf(p)) == Sorting.SumOf(ledger, MonthReturnOf(p, y, m))
  {
    var keep := MonthTouchingOf(p, y, m);
    var f := Sorting.Filter(ledger, keep);
    EntryOrderIsTotalPreorder();
    Sorting.SumOfSort(f, EntryOnOrBefore, PurchaseAmountOf(p));
    Sorting.SumOfSort(f, EntryOnOrBefore, ReturnAmountOf(p));
    Sorting.SumOfFilterZero(ledger, keep, MonthPurchaseOf(p, y, m));
    Sorting.SumOfFilterZero(ledger, keep, MonthReturnOf(p, y, m));
    SumOfAgreeOnFilter(f, keep, PurchaseAmountOf(p), MonthPurchaseOf(p, y, m));
    SumOfAgreeOnFilter(f, keep, ReturnAmountOf(p), MonthReturnOf(p, y, m));
  }

  /** Two term functions that agree on every kept element have equal sums. */
  lemma {:induction false} SumOfAgreeOnFilter(s: seq<Entry>, keep: Entry -> bool, f: Entry -> int, g: Entry -> int)
    requires forall i :: 0 <= i < |s| ==> keep(s[i])
    requires forall e :: keep(e) ==> f(e) == g(e)
    ensures Sorting.SumOf(s, f) == Sorting.SumOf(s, g)
  {
    if |s| > 0 {
      assert forall i :: 0 <= i < |s[1..]| ==> s[1..][i] == s[i + 1];
      SumOfAgreeOnFilter(s[1..], keep, f, g);
    }
  }

  /** Gross purchases and returns of the book are the month's 仕入 debit
      amounts and 仕入 return amounts over the whole ledger, each entry
      counted once; the error is set exactly when some entry of the month
      posting to 仕入 disagrees with its details. */
  lemma PurchaseBookTotals(chart: seq<Account>, ledger: seq<Entry>, y: int, m: int)
    requires FindAccount(chart, PurchaseAccountName).Some?
    ensures
      var p := FindAccount(chart, PurchaseAccountName).value;
      var r := PurchaseBookContext(chart, ledger, y, m);
      && r.book.value.closingEntry.totalPurchase == Sorting.SumOf(ledger, MonthPurchaseOf(p, y, m))
      && r.book.value.closingEntry.totalReturns == Sorting.SumOf(ledger, MonthReturnOf(p, y, m))
      && (r.error.Some? <==> exists i :: 0 <= i < |ledger| && InYearMonth(ledger[i], y, m) && Mismatch(ledger[i], p))
  {
    var p := FindAccount(chart, PurchaseAccountName).value;
    var q := PurchaseJournals(ledger, p, y, m);
    var st := RunBook(q, p);
    var r := PurchaseBookContext(chart, ledger, y, m);
    assert r.book.value.closingEntry.totalPurchase == st.totalPurchase
           && r.book.value.closingEntry.totalReturns == st.totalReturns
           && r.error == st.error;
    assert st.totalPurchase == Sorting.SumOf(ledger, MonthPurchaseOf(p, y, m))
           && st.totalReturns == Sorting.SumOf(ledger, MonthReturnOf(p, y, m)) by {
      QueryTotals(ledger, p, y, m);
      RunBookTotals(q, p);
    }
    assert st.error.Some? <==> exists j :: 0 <= j < |q| && MismatchOf(p)(q[j]) by {
      RunBookError(q, p);
    }
    MonthPropertyInQuery(ledger, p, y, m, MismatchOf(p));
    assert (exists i :: 0 <= i < |ledger| && InYearMonth(ledger[i], y, m) && MismatchOf(p)(ledger[i]))
           <==> exists i :: 0 <= i < |ledger| && InYearMonth(ledger[i], y, m) && Mismatch(ledger[i], p);
  }

  /** For a property that only entries posting to 仕入 can have, some
      entry of the query has it exactly when some entry of the month does. */
  lemma MonthPropertyInQuery(ledger: seq<Entry>, p: Account, y: int, m: int, P: Entry -> bool)
    requires forall e :: P(e) ==> Touches(e, p)
    ensures (exists j :: 0 <= j < |PurchaseJournals(ledger, p, y, m)| && P(PurchaseJournals(ledger, p, y, m)[j]))
            <==> exists i :: 0 <= i < |ledger| && InYearMonth(ledger[i], y, m) && P(ledger[i])
  {
    var q := PurchaseJournals(ledger, p, y, m);
    if exists i :: 0 <= i < |ledger| && InYearMonth(ledger[i], y, m) && P(ledger[i]) {
      var i :| 0 <= i < |ledger| && InYearMonth(ledger[i], y, m) && P(ledger[i]);
      var j :| 0 <= j < |q| && q[j] == ledger[i];
      assert P(q[j]);
    }
    if exists j :: 0 <= j < |q| && P(q[j]) {
      var j :| 0 <= j < |q| && P(q[j]);
      var i :| 0 <= i < |ledger| && ledger[i] == q[j];
      assert InYearMonth(ledger[i], y, m);
    }
  }

  /** The book has one line per matching entry, in query order. */
  lemma PurchaseBookRows(chart: seq<Account>, ledger: seq<Entry>, y: int, m: int)
    requires FindAccount(chart, PurchaseAccountName).Some?
    ensures
      var p := FindAccount(chart, PurchaseAccountName).value;
      var q := PurchaseJournals(ledger, p, y, m);
      var rows := PurchaseBookContext(chart, ledger, y, m).book.value.bookEntries;
      |rows| == |q| && forall i :: 0 <= i < |q| ==> rows[i] == BookRow(q[i], p)
  {
    var p := FindAccount(chart, PurchaseAccountName).value;
    RunBookRows(PurchaseJournals(ledger, p, y, m), p);
  }

  // ---------------------------------------------------------------------
  // The query as written counts an entry once per joined row

  /** An entry with one 仕入 debit of 100.00 paid 60.00 on account and
      40.00 in cash comes back twice from the query as written, so the book
      built from it shows gross purchases of 200.00; the deduplicated query
      shows 100.00. */
  lemma DuplicateRowsDoublePurchases()
    ensures
      var p := Account(1, PurchaseAccountName, Expense);
      var e := Entry(7, Date(2025, 4, 10), "掛仕入", Normal, None, None,
                     [Line(p, 10000)],
                     [Line(Account(2, "買掛金", Liability), 6000), Line(Account(3, "現金", Asset), 4000)],
                     []);
      && RunBook(PurchaseJournalsAsWritten([e], p, 2025, 4), p).totalPurchase == 20000
      && RunBook(PurchaseJournals([e], p, 2025, 4), p).totalPurchase == 10000
  {
    var p := Account(1, PurchaseAccountName, Expense);
    var payable := Account(2, "買掛金", Liability);
    var cash := Account(3, "現金", Asset);
    var e := Entry(7, Date(2025, 4, 10), "掛仕入", Normal, None, None,
                   [Line(p, 10000)], [Line(payable, 6000), Line(cash, 4000)], []);
    assert e.debits[0].account.id == p.id;
    assert HasLine(e.debits, p) && Touches(e, p);
    assert [e][1..] == [];
    var f := Sorting.Filter([e], MonthTouchingOf(p, 2025, 4));
    assert f == [e];
    assert LinesTotalFor(e.debits, p) == 10000 by {
      assert e.debits[1..] == [];
    }
    assert PurchaseAmount(e, p) == 10000;
    // Two joined rows: (仕入, 買掛金) and (仕入, 現金).
    var ds := Padded(e.debits);
    var cs := Padded(e.credits);
    assert ds == [Some(Line(p, 10000))];
    assert cs == [Some(Line(payable, 6000)), Some(Line(cash, 4000))];
    assert OnAccount(ds[0], p);
    assert RowsWith(ds[0], cs[1..][1..], p) == 0 by {
      assert cs[1..][1..] == [];
    }
    assert RowsWith(ds[0], cs[1..], p) == 1;
    assert RowsWith(ds[0], cs, p) == 2;
    assert JoinedRows(ds[1..], cs, p) == 0 by {
      assert ds[1..] == [];
    }
    assert JoinMultiplicity(e, p) == 2;
    var x := Sorting.Expand(f, JoinMultiplicityOf(p));
    assert x == Sorting.Repeat(e, 2) + Sorting.Expand([], JoinMultiplicityOf(p));
    assert x == [e, e];
    Sorting.SumOfSort(x, EntryOnOrBefore, PurchaseAmountOf(p));
    assert [e, e][1..] == [e];
    Sorting.SumOfSort(f, EntryOnOrBefore, PurchaseAmountOf(p));
    RunBookTotals(PurchaseJournalsAsWritten([e], p, 2025, 4), p);
    RunBookTotals(PurchaseJournals([e], p, 2025, 4), p);
  }

  /** The join multiplicity of an entry that posts to `p` is at least one,
      and exactly one when it has at most one line per side, so the query
      as written agrees with the deduplicated one on such entries. */
  lemma JoinMultiplicitySingleLines(e: Entry, p: Account)
    requires Touches(e, p) && |e.debits| <= 1 && |e.credits| <= 1
    ensures JoinMultiplicity(e, p) == 1
  {
    var ds := Padded(e.debits);
    var cs := Padded(e.credits);
    assert |ds| == 1 && |cs| == 1;
    assert ds[1..] == [] && cs[1..] == [];
    if HasLine(e.debits, p) {
      var i :| 0 <= i < |e.debits| && e.debits[i].account.id == p.id;
      assert OnAccount(ds[0], p);
    } else {
      var i :| 0 <= i < |e.credits| && e.credits[i].account.id == p.id;
      assert OnAccount(cs[0], p);
    }
    assert RowsWith(ds[0], cs[1..], p) == 0;
    assert RowsWith(ds[0], cs, p) == 1;
    assert JoinedRows(ds[1..], cs, p) == 0;
  }
}
