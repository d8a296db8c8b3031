/** The monthly cash book (`calculate_monthly_balance`): an opening anchor,
    the balance brought forward to the first of the month, one row per
    entry of the month that touches the target account, and a closing
    carried-forward row. */
module CashBook {
  import opened Wrappers
  import opened Dates
  import opened Ledger
  import Sorting

  /** An opening balance for one account, valid from `startDate`. */
  datatype InitialBalance = InitialBalance(account: Account, balance: int, startDate: Date)

  /** One line of the cash book; `income` is the debit side and `expense`
      the credit side of the target account. */
  datatype CashRow = CashRow(date: Date, summary: string, income: int, expense: int, balance: int)

  /** The report; `error` is set, with no rows, when the account is unknown. */
  datatype MonthlyBalance = MonthlyBalance(data: seq<CashRow>, endingBalance: int, error: Option<string>)

  /** The opening balance and the date it is valid from. */
  datatype Anchor = Anchor(balance: int, start: Date)

  const BroughtForwardSummary: string := "前月繰越"
  const CarriedForwardSummary: string := "次月繰越"

  function NotFoundMessage(name: string): string {
    "勘定科目 \"" + name + "\" が見つかりません。"
  }

  /** `InitialBalance.objects.filter(account=t).first()`. */
  function FindInitialBalance(inits: seq<InitialBalance>, t: Account): (r: Option<InitialBalance>)
    ensures r.None? <==> forall i :: 0 <= i < |inits| ==> inits[i].account.id != t.id
    ensures r.Some? ==> exists i :: 0 <= i < |inits| && inits[i] == r.value && inits[i].account.id == t.id
                                    && forall j :: 0 <= j < i ==> inits[j].account.id != t.id
  {
    if |inits| == 0 then None
    else if inits[0].account.id == t.id then Some(inits[0])
    else
      var r := FindInitialBalance(inits[1..], t);
      assert forall i :: 1 <= i < |inits| ==> inits[1..][i - 1] == inits[i];
      if r.Some? then
        var k :| 0 <= k < |inits[1..]| && inits[1..][k] == r.value && inits[1..][k].account.id == t.id
                 && forall j :: 0 <= j < k ==> inits[1..][j].account.id != t.id;
        assert inits[k + 1] == r.value;
        r
      else r
  }

  /** `get_initial_balance`: the account's opening balance, or 0 without one. */
  function GetInitialBalance(inits: seq<InitialBalance>, t: Account): (r: int)
    ensures (forall i :: 0 <= i < |inits| ==> inits[i].account.id != t.id) ==> r == 0
    ensures (exists i :: 0 <= i < |inits| && inits[i].account.id == t.id) ==>
              exists i :: 0 <= i < |inits| && inits[i].account.id == t.id && r == inits[i].balance
  {
    match FindInitialBalance(inits, t)
    case Some(ib) => ib.balance
    case None => 0
  }

  /** The InitialBalance of the target if there is one, else 0 valid from
      1 January of the requested year. */
  function OpeningAnchor(inits: seq<InitialBalance>, t: Account, year: int): (r: Anchor)
    ensures FindInitialBalance(inits, t).None? ==> r == Anchor(0, Date(year, 1, 1))
    ensures FindInitialBalance(inits, t).Some? ==>
              r.balance == FindInitialBalance(inits, t).value.balance
              && r.start == FindInitialBalance(inits, t).value.startDate
  {
    match FindInitialBalance(inits, t)
    case Some(ib) => Anchor(ib.balance, ib.startDate)
    case None => Anchor(0, Date(year, 1, 1))
  }

  /** Anchor balance + Σ debits − Σ credits on the target over entries dated
      in [anchor start, last day of the previous month]. */
  function BroughtForward(ledger: seq<Entry>, inits: seq<InitialBalance>, t: Account, y: int, m: int): int
    requires 1 <= m <= 12
  {
    var a := OpeningAnchor(inits, t, y);
    a.balance + NetInScope(ledger, t, Scope(Some(a.start), EndOfPrevMonth(y, m), None))
  }

  /** The month's row filter: touches the target and is dated in the month. */
  function InMonthTouching(t: Account, y: int, m: int): Entry -> bool {
    e => Touches(e, t) && InMonth(e.date, y, m)
  }

  /** The month's entries on the target, once each, in (date, pk) order. */
  function MonthEntries(ledger: seq<Entry>, t: Account, y: int, m: int): (r: seq<Entry>)
    ensures multiset(r) == multiset(Sorting.Filter(ledger, InMonthTouching(t, y, m)))
    ensures Sorting.SortedBy(r, EntryOnOrBefore)
  {
    SortByDatePk(Sorting.Filter(ledger, InMonthTouching(t, y, m)))
  }

  /** Exactly the ledger's entries that touch the target and are dated in
      [1st, last day] of the month become rows. */
  lemma MonthEntriesMembers(ledger: seq<Entry>, t: Account, y: int, m: int, e: Entry)
    ensures e in MonthEntries(ledger, t, y, m) <==> e in ledger && Touches(e, t) && InMonth(e.date, y, m)
  {
    var f := Sorting.Filter(ledger, InMonthTouching(t, y, m));
    var r := MonthEntries(ledger, t, y, m);
    assert e in r <==> e in multiset(r);
    assert e in f <==> e in multiset(f);
    if e in f {
      var i :| 0 <= i < |f| && f[i] == e;
    }
    if e in ledger && Touches(e, t) && InMonth(e.date, y, m) {
      var i :| 0 <= i < |ledger| && ledger[i] == e;
    }
  }

  /** Name of the first line of `lines` whose account is not the target. */
  function FirstOtherName(lines: seq<Line>, t: Account): (r: Option<string>)
    ensures r.None? <==> forall i :: 0 <= i < |lines| ==> lines[i].account.id == t.id
    ensures r.Some? ==> exists i :: 0 <= i < |lines| && lines[i].account.id != t.id
                                    && lines[i].account.name == r.value
                                    && forall j :: 0 <= j < i ==> lines[j].account.id == t.id
  {
    if |lines| == 0 then None
    else if lines[0].account.id != t.id then Some(lines[0].account.name)
    else
      var r := FirstOtherName(lines[1..], t);
      assert forall i :: 1 <= i < |lines| ==> lines[1..][i - 1] == lines[i];
      if r.Some? then
        var k :| 0 <= k < |lines[1..]| && lines[1..][k].account.id != t.id
                 && lines[1..][k].account.name == r.value
                 && forall j :: 0 <= j < k ==> lines[1..][j].account.id == t.id;
        assert lines[k + 1] == lines[1..][k];
        r
      else r
  }

  /** The row's summary: the first counter-account on the opposite side,
      else the entry's own summary. */
  function RowSummary(e: Entry, t: Account): string {
    if HasLine(e.debits, t) then FirstOtherName(e.credits, t).GetOr(e.summary)
    else if HasLine(e.credits, t) then FirstOtherName(e.debits, t).GetOr(e.summary)
    else e.summary
  }

  /** A row's effect on the running balance: the debit side wins. */
  function RowDelta(e: Entry, t: Account): int {
    if HasLine(e.debits, t) then LinesTotalFor(e.debits, t) else -LinesTotalFor(e.credits, t)
  }

  function RowDeltaOf(t: Account): Entry -> int {
    e => RowDelta(e, t)
  }

  function MovementOf(t: Account): Entry -> int {
    e => Movement(e, t)
  }

  /** Σ income − Σ expense over rows. */
  function RowsNet(rows: seq<CashRow>): int {
    if |rows| == 0 then 0 else rows[0].income - rows[0].expense + RowsNet(rows[1..])
  }

  /** The row for one entry after a running balance of `prev`. */
  function EntryRow(e: Entry, t: Account, prev: int): (row: CashRow)
    ensures row.date == e.date && row.summary == RowSummary(e, t)
    ensures HasLine(e.debits, t) ==> row.income == LinesTotalFor(e.debits, t) && row.expense == 0
    ensures !HasLine(e.debits, t) ==> row.income == 0 && row.expense == LinesTotalFor(e.credits, t)
    ensures row.balance - prev == row.income - row.expense == RowDelta(e, t)
  {
    if HasLine(e.debits, t) then
      var amount := LinesTotalFor(e.debits, t);
      CashRow(e.date, RowSummary(e, t), amount, 0, prev + amount)
    else if HasLine(e.credits, t) then
      var amount := LinesTotalFor(e.credits, t);
      CashRow(e.date, RowSummary(e, t), 0, amount, prev - amount)
    else
      CashRow(e.date, RowSummary(e, t), 0, 0, prev)
  }

  /** The loop over the month's entries, carrying the running balance. */
  function RunRows(es: seq<Entry>, t: Account, opening: int): (rows: seq<CashRow>)
    ensures |rows| == |es|
  {
    if |es| == 0 then []
    else
      var first := EntryRow(es[0], t, opening);
      [first] + RunRows(es[1..], t, first.balance)
  }

  /** Row i reports entry i: its date, its summary, and its income or
      expense on the target, the debit side taking precedence. */
  lemma {:induction false} RunRowsFields(es: seq<Entry>, t: Account, opening: int, i: int)
    requires 0 <= i < |es|
    ensures var row := RunRows(es, t, opening)[i];
            && row.date == es[i].date
            && row.summary == RowSummary(es[i], t)
            && (HasLine(es[i].debits, t) ==> row.income == LinesTotalFor(es[i].debits, t) && row.expense == 0)
            && (!HasLine(es[i].debits, t) ==> row.income == 0 && row.expense == LinesTotalFor(es[i].credits, t))
  {
    if i > 0 {
      var first := EntryRow(es[0], t, opening);
      RunRowsFields(es[1..], t, first.balance, i - 1);
      assert es[1..][i - 1] == es[i];
    }
  }

  /** Each row's balance is the opening balance plus Σ income − Σ expense
      of the rows up to and including it. */
  lemma {:induction false} RunRowsBalance(es: seq<Entry>, t: Account, opening: int, i: int)
    requires 0 <= i < |es|
    ensures var rows := RunRows(es, t, opening);
            rows[i].balance == opening + RowsNet(rows[..i + 1])
  {
    var rows := RunRows(es, t, opening);
    var first := EntryRow(es[0], t, opening);
    var rest := RunRows(es[1..], t, first.balance);
    assert rows == [first] + rest;
    if i == 0 {
      assert rows[..1] == [first];
      assert RowsNet([first]) == first.income - first.expense + RowsNet([]);
    } else {
      RunRowsBalance(es[1..], t, first.balance, i - 1);
      assert rows[..i + 1] == [first] + rest[..i];
      assert rows[..i + 1][1..] == rest[..i];
    }
  }

  /** Σ income − Σ expense over all rows is the sum of the entries' row deltas. */
  lemma {:induction false} RunRowsNet(es: seq<Entry>, t: Account, opening: int)
    ensures RowsNet(RunRows(es, t, opening)) == Sorting.SumOf(es, RowDeltaOf(t))
  {
    if |es| > 0 {
      var first := EntryRow(es[0], t, opening);
      RunRowsNet(es[1..], t, first.balance);
      assert RunRows(es, t, opening)[1..] == RunRows(es[1..], t, first.balance);
    }
  }

  /** The last row's balance is the opening balance plus the net of all rows. */
  lemma RunRowsLast(es: seq<Entry>, t: Account, opening: int)
    requires |es| > 0
    ensures var rows := RunRows(es, t, opening);
            rows[|rows| - 1].balance == opening + RowsNet(rows)
  {
    var rows := RunRows(es, t, opening);
    RunRowsBalance(es, t, opening, |es| - 1);
    assert rows[..|es|] == rows;
  }

  /** `calculate_monthly_balance(account_name, year, month)`. */
  function CalculateMonthlyBalance(chart: seq<Account>, inits: seq<InitialBalance>, ledger: seq<Entry>,
                                   name: string, y: int, m: int): (r: MonthlyBalance)
    requires FindAccount(chart, name).Some? ==> 1 <= m <= 12
    ensures r.error.Some? <==> FindAccount(chart, name).None?
    ensures FindAccount(chart, name).None? ==>
              r.data == [] && r.endingBalance == 0 && r.error == Some(NotFoundMessage(name))
    ensures FindAccount(chart, name).Some? ==>
              var t := FindAccount(chart, name).value;
              var es := MonthEntries(ledger, t, y, m);
              var bf := BroughtForward(ledger, inits, t, y, m);
              && |r.data| == |es| + 2
              && r.data[0] == CashRow(FirstOfMonth(y, m), BroughtForwardSummary, 0, 0, bf)
              && r.data[|es| + 1] == CashRow(EndOfMonth(y, m), CarriedForwardSummary, 0, r.endingBalance, 0)
              && r.data[1..|es| + 1] == RunRows(es, t, bf)
              && r.endingBalance == bf + RowsNet(RunRows(es, t, bf))
  {
    match FindAccount(chart, name)
    case None => MonthlyBalance([], 0, Some(NotFoundMessage(name)))
    case Some(t) =>
      var es := MonthEntries(ledger, t, y, m);
      var bf := BroughtForward(ledger, inits, t, y, m);
      var rows := RunRows(es, t, bf);
      var ending := if |rows| == 0 then bf else rows[|rows| - 1].balance;
      var data := [CashRow(FirstOfMonth(y, m), BroughtForwardSummary, 0, 0, bf)]
                  + rows
                  + [CashRow(EndOfMonth(y, m), CarriedForwardSummary, 0, ending, 0)];
      assert data[1..|rows| + 1] == rows;
      if |es| > 0 then
        RunRowsLast(es, t, bf);
        MonthlyBalance(data, ending, None)
      else
        MonthlyBalance(data, ending, None)
  }

  /** Row `i + 1` of the report is entry `i` of the month: same date, the
      counter-account summary, income from the debit side or else expense
      from the credit side, and the running balance brought forward plus
      the net of the rows so far. */
  lemma CashBookRow(chart: seq<Account>, inits: seq<InitialBalance>, ledger: seq<Entry>,
                    name: string, y: int, m: int, i: int)
    requires 1 <= m <= 12 && FindAccount(chart, name).Some?
    requires 0 <= i < |MonthEntries(ledger, FindAccount(chart, name).value, y, m)|
    ensures var t := FindAccount(chart, name).value;
            var es := MonthEntries(ledger, t, y, m);
            var r := CalculateMonthlyBalance(chart, inits, ledger, name, y, m);
            var row := r.data[i + 1];
            && row.date == es[i].date
            && row.summary == RowSummary(es[i], t)
            && (HasLine(es[i].debits, t) ==> row.income == LinesTotalFor(es[i].debits, t) && row.expense == 0)
            && (!HasLine(es[i].debits, t) ==> row.income == 0 && row.expense == LinesTotalFor(es[i].credits, t))
            && row.balance == r.data[0].balance + RowsNet(r.data[1..i + 2])
  {
    var t := FindAccount(chart, name).value;
    var es := MonthEntries(ledger, t, y, m);
    var bf := BroughtForward(ledger, inits, t, y, m);
    var r := CalculateMonthlyBalance(chart, inits, ledger, name, y, m);
    var rows := RunRows(es, t, bf);
    var data := r.data;
    assert data[1..|es| + 1] == rows;
    assert data[i + 1] == rows[i] by {
      assert data[1..|es| + 1][i] == data[i + 1];
    }
    assert data[1..i + 2] == rows[..i + 1] by {
      Sorting.SliceOfSlice(data, 1, |es| + 1, i + 1);
    }
    RunRowsFields(es, t, bf, i);
    RunRowsBalance(es, t, bf, i);
  }

  /** A one-entry ledger whose entry is a row of the month has that entry
      as the month's only row. */
  lemma SingleEntryMonth(e: Entry, t: Account, y: int, m: int)
    requires Touches(e, t) && InMonth(e.date, y, m)
    ensures MonthEntries([e], t, y, m) == [e]
  {
    assert [e][1..] == [];
    assert Sorting.Filter([e], InMonthTouching(t, y, m)) == [e];
    Sorting.SingletonFromMultiset(MonthEntries([e], t, y, m), e);
  }

  /** Without an entry that posts the target on both sides, a row's effect
      on the balance is the entry's net movement on the target. */
  lemma RowDeltaIsMovement(e: Entry, t: Account)
    requires !(HasLine(e.debits, t) && HasLine(e.credits, t))
    ensures RowDelta(e, t) == Movement(e, t)
  {
  }

  lemma {:induction false} SumRowDeltaIsMovement(es: seq<Entry>, t: Account)
    requires forall i :: 0 <= i < |es| ==> !(HasLine(es[i].debits, t) && HasLine(es[i].credits, t))
    ensures Sorting.SumOf(es, RowDeltaOf(t)) == Sorting.SumOf(es, MovementOf(t))
  {
    if |es| > 0 {
      RowDeltaIsMovement(es[0], t);
      SumRowDeltaIsMovement(es[1..], t);
    }
  }

  function MonthScope(y: int, m: int): Scope
    requires 1 <= m <= 12
  {
    Scope(Some(FirstOfMonth(y, m)), EndOfMonth(y, m), None)
  }

  /** Summing the movements of the month's row entries gives the month's
      net movement on the target. */
  lemma {:induction false} FilterMovementIsMonthNet(ledger: seq<Entry>, t: Account, y: int, m: int)
    requires 1 <= m <= 12
    ensures Sorting.SumOf(Sorting.Filter(ledger, InMonthTouching(t, y, m)), MovementOf(t))
            == NetInScope(ledger, t, MonthScope(y, m))
  {
    if |ledger| > 0 {
      FilterMovementIsMonthNet(ledger[1..], t, y, m);
      var e := ledger[0];
      var f := Sorting.Filter(ledger, InMonthTouching(t, y, m));
      var f' := Sorting.Filter(ledger[1..], InMonthTouching(t, y, m));
      if InMonthTouching(t, y, m)(e) {
        assert f == [e] + f';
        assert f[1..] == f';
      }
    }
  }

  /** For a window starting on or before the 1st, the net up to the month's
      end is the net up to the previous month's end plus the month's net. */
  lemma {:induction false} SplitAtMonth(ledger: seq<Entry>, t: Account, s: Date, y: int, m: int)
    requires 1 <= m <= 12 && ValidDates(ledger) && OnOrBefore(s, FirstOfMonth(y, m))
    ensures NetInScope(ledger, t, Scope(Some(s), EndOfMonth(y, m), None))
            == NetInScope(ledger, t, Scope(Some(s), EndOfPrevMonth(y, m), None))
               + NetInScope(ledger, t, MonthScope(y, m))
  {
    if |ledger| > 0 {
      assert ValidDates(ledger[1..]) by {
        assert forall i :: 0 <= i < |ledger[1..]| ==> ledger[1..][i] == ledger[i + 1];
      }
      SplitAtMonth(ledger[1..], t, s, y, m);
      var d := ledger[0].date;
      assert ValidDate(d);
      BeforeFirstIffOnOrBeforePrevEnd(d, y, m);
      if OnOrBefore(s, d) && OnOrBefore(d, EndOfPrevMonth(y, m)) {
        OnOrBeforeTransitive(d, EndOfPrevMonth(y, m), EndOfMonth(y, m));
      }
      if OnOrBefore(FirstOfMonth(y, m), d) {
        OnOrBeforeTransitive(s, FirstOfMonth(y, m), d);
      }
    }
  }

  /** Month-to-month continuity: with a fixed opening anchor on or before
      the month, and no entry of the month posting the target on both
      sides, the month's ending balance is the next month's brought-forward
      balance. */
  lemma MonthContinuity(chart: seq<Account>, inits: seq<InitialBalance>, ledger: seq<Entry>,
                        name: string, y: int, m: int)
    requires 1 <= m <= 12 && FindAccount(chart, name).Some? && ValidDates(ledger)
    requires var t := FindAccount(chart, name).value;
             match FindInitialBalance(inits, t)
             case Some(ib) => OnOrBefore(ib.startDate, FirstOfMonth(y, m))
             case None => m < 12
    requires var t := FindAccount(chart, name).value;
             forall i :: 0 <= i < |ledger| && InMonth(ledger[i].date, y, m) ==>
               !(HasLine(ledger[i].debits, t) && HasLine(ledger[i].credits, t))
    ensures var next := NextMonth(y, m);
            CalculateMonthlyBalance(chart, inits, ledger, name, y, m).endingBalance
            == CalculateMonthlyBalance(chart, inits, ledger, name, next.0, next.1).data[0].balance
  {
    var t := FindAccount(chart, name).value;
    var next := NextMonth(y, m);
    var es := MonthEntries(ledger, t, y, m);
    var a := OpeningAnchor(inits, t, y);
    assert OpeningAnchor(inits, t, next.0) == a;
    var bf := BroughtForward(ledger, inits, t, y, m);
    RunRowsNet(es, t, bf);
    MonthRowsNetIsMonthNet(ledger, t, y, m);
    SplitAtMonth(ledger, t, a.start, y, m);
    EndOfMonthIsPrevOfNext(y, m);
  }

  /** Without an entry of the month posting the target on both sides, the
      rows' deltas add up to the month's net movement on the target. */
  lemma MonthRowsNetIsMonthNet(ledger: seq<Entry>, t: Account, y: int, m: int)
    requires 1 <= m <= 12
    requires forall i :: 0 <= i < |ledger| && InMonth(ledger[i].date, y, m) ==>
               !(HasLine(ledger[i].debits, t) && HasLine(ledger[i].credits, t))
    ensures Sorting.SumOf(MonthEntries(ledger, t, y, m), RowDeltaOf(t)) == NetInScope(ledger, t, MonthScope(y, m))
  {
    var es := MonthEntries(ledger, t, y, m);
    forall i | 0 <= i < |es|
      ensures !(HasLine(es[i].debits, t) && HasLine(es[i].credits, t))
    {
      MonthEntriesMembers(ledger, t, y, m, es[i]);
      var j :| 0 <= j < |ledger| && ledger[j] == es[i];
    }
    SumRowDeltaIsMovement(es, t);
    Sorting.SumOfSort(Sorting.Filter(ledger, InMonthTouching(t, y, m)), EntryOnOrBefore, MovementOf(t));
    FilterMovementIsMonthNet(ledger, t, y, m);
  }

  /** An entry that posts the target on both sides counts only its debit
      side in the month's rows but both sides in the next month's
      brought-forward sum, so continuity needs the second precondition above. */
  lemma TwoSidedEntryBreaksContinuity()
    ensures var cash := Account(1, "現金", Asset);
            var sales := Account(2, "売上", Revenue);
            var e := Entry(1, Date(2025, 4, 10), "", Normal, None, None,
                           [Line(cash, 100)], [Line(cash, 30), Line(sales, 70)], []);
            var inits := [InitialBalance(cash, 0, Date(2025, 1, 1))];
            && CalculateMonthlyBalance([cash, sales], inits, [e], "現金", 2025, 4).endingBalance == 100
            && CalculateMonthlyBalance([cash, sales], inits, [e], "現金", 2025, 5).data[0].balance == 70
  {
    var cash := Account(1, "現金", Asset);
    var sales := Account(2, "売上", Revenue);
    var e := Entry(1, Date(2025, 4, 10), "", Normal, None, None,
                   [Line(cash, 100)], [Line(cash, 30), Line(sales, 70)], []);
    var inits := [InitialBalance(cash, 0, Date(2025, 1, 1))];
    TwoSidedApril(e, cash, sales, inits);
    TwoSidedMay(e, cash, sales, inits);
  }

  /** April of the two-sided example: nothing brought forward, one row
      with income 100. */
  lemma TwoSidedApril(e: Entry, cash: Account, sales: Account, inits: seq<InitialBalance>)
    requires cash == Account(1, "現金", Asset) && sales == Account(2, "売上", Revenue)
    requires e == Entry(1, Date(2025, 4, 10), "", Normal, None, None,
                        [Line(cash, 100)], [Line(cash, 30), Line(sales, 70)], [])
    requires inits == [InitialBalance(cash, 0, Date(2025, 1, 1))]
    ensures CalculateMonthlyBalance([cash, sales], inits, [e], "現金", 2025, 4).endingBalance == 100
  {
    assert FindAccount([cash, sales], "現金") == Some(cash);
    assert FindInitialBalance(inits, cash) == Some(inits[0]);
    var march := Scope(Some(Date(2025, 1, 1)), EndOfPrevMonth(2025, 4), None);
    assert EndOfPrevMonth(2025, 4) == Date(2025, 3, 31);
    assert BroughtForward([e], inits, cash, 2025, 4) == 0 by {
      assert [e][1..] == [];
      assert !InScope(e, march);
      assert OpeningAnchor(inits, cash, 2025) == Anchor(0, Date(2025, 1, 1));
      assert DebitTotal([e], cash, march) == 0;
      assert CreditTotal([e], cash, march) == 0;
    }
    assert HasLine(e.debits, cash) by {
      assert e.debits[0].account.id == cash.id;
    }
    assert LinesTotalFor(e.debits, cash) == 100 by {
      assert e.debits[1..] == [];
    }
    SingleEntryMonth(e, cash, 2025, 4);
    var row := EntryRow(e, cash, 0);
    assert RunRows([e], cash, 0) == [row] by {
      assert [e][1..] == [];
    }
    assert RowsNet([row]) == 100 by {
      assert [row][1..] == [];
    }
  }

  /** May of the two-sided example: both sides of the April entry are
      brought forward, 100 − 30. */
  lemma TwoSidedMay(e: Entry, cash: Account, sales: Account, inits: seq<InitialBalance>)
    requires cash == Account(1, "現金", Asset) && sales == Account(2, "売上", Revenue)
    requires e == Entry(1, Date(2025, 4, 10), "", Normal, None, None,
                        [Line(cash, 100)], [Line(cash, 30), Line(sales, 70)], [])
    requires inits == [InitialBalance(cash, 0, Date(2025, 1, 1))]
    ensures CalculateMonthlyBalance([cash, sales], inits, [e], "現金", 2025, 5).data[0].balance == 70
  {
    assert FindAccount([cash, sales], "現金") == Some(cash);
    assert FindInitialBalance(inits, cash) == Some(inits[0]);
    assert LinesTotalFor(e.debits, cash) == 100 && LinesTotalFor(e.credits, cash) == 30 by {
      assert e.debits[0].account.id == cash.id && e.credits[0].account.id == cash.id;
      assert e.debits[1..] == [] && e.credits[1..][1..] == [];
    }
    var april := Scope(Some(Date(2025, 1, 1)), EndOfPrevMonth(2025, 5), None);
    assert [e][1..] == [];
    assert InScope(e, april);
    assert DebitTotal([e], cash, april) == 100 && CreditTotal([e], cash, april) == 30;
    assert BroughtForward([e], inits, cash, 2025, 5) == 70;
  }

  /** Without an InitialBalance the anchor is 1 January of the requested
      year, so December's ending balance is not carried into January. */
  lemma YearEndResetsWithoutInitialBalance()
    ensures var cash := Account(1, "現金", Asset);
            var sales := Account(2, "売上", Revenue);
            var e := Entry(1, Date(2025, 12, 10), "", Normal, None, None,
                           [Line(cash, 100)], [Line(sales, 100)], []);
            && CalculateMonthlyBalance([cash, sales], [], [e], "現金", 2025, 12).endingBalance == 100
            && CalculateMonthlyBalance([cash, sales], [], [e], "現金", 2026, 1).data[0].balance == 0
  {
    var cash := Account(1, "現金", Asset);
    var sales := Account(2, "売上", Revenue);
    var e := Entry(1, Date(2025, 12, 10), "", Normal, None, None,
                   [Line(cash, 100)], [Line(sales, 100)], []);
    YearEndDecember(e, cash, sales);
    YearEndJanuary(e, cash, sales);
  }

  /** December of the year-end example: nothing brought forward, one row
      with income 100. */
  lemma YearEndDecember(e: Entry, cash: Account, sales: Account)
    requires cash == Account(1, "現金", Asset) && sales == Account(2, "売上", Revenue)
    requires e == Entry(1, Date(2025, 12, 10), "", Normal, None, None, [Line(cash, 100)], [Line(sales, 100)], [])
    ensures CalculateMonthlyBalance([cash, sales], [], [e], "現金", 2025, 12).endingBalance == 100
  {
    assert FindAccount([cash, sales], "現金") == Some(cash);
    var toNov := Scope(Some(Date(2025, 1, 1)), EndOfPrevMonth(2025, 12), None);
    assert EndOfPrevMonth(2025, 12) == Date(2025, 11, 30);
    assert BroughtForward([e], [], cash, 2025, 12) == 0 by {
      assert [e][1..] == [];
      assert !InScope(e, toNov);
      assert OpeningAnchor([], cash, 2025) == Anchor(0, Date(2025, 1, 1));
      assert DebitTotal([e], cash, toNov) == 0;
      assert CreditTotal([e], cash, toNov) == 0;
    }
    assert HasLine(e.debits, cash) by {
      assert e.debits[0].account.id == cash.id;
    }
    assert LinesTotalFor(e.debits, cash) == 100 by {
      assert e.debits[1..] == [];
    }
    SingleEntryMonth(e, cash, 2025, 12);
    var row := EntryRow(e, cash, 0);
    assert RunRows([e], cash, 0) == [row] by {
      assert [e][1..] == [];
    }
    assert RowsNet([row]) == 100 by {
      assert [row][1..] == [];
    }
  }

  /** January of the year-end example: the anchor moves to 1 January 2026,
      so December's entry is not brought forward. */
  lemma YearEndJanuary(e: Entry, cash: Account, sales: Account)
    requires cash == Account(1, "現金", Asset) && sales == Account(2, "売上", Revenue)
    requires e == Entry(1, Date(2025, 12, 10), "", Normal, None, None, [Line(cash, 100)], [Line(sales, 100)], [])
    ensures CalculateMonthlyBalance([cash, sales], [], [e], "現金", 2026, 1).data[0].balance == 0
  {
    assert FindAccount([cash, sales], "現金") == Some(cash);
    var toDec := Scope(Some(Date(2026, 1, 1)), EndOfPrevMonth(2026, 1), None);
    assert OpeningAnchor([], cash, 2026) == Anchor(0, Date(2026, 1, 1));
    assert [e][1..] == [];
    assert !InScope(e, toDec);
    assert DebitTotal([e], cash, toDec) == 0 by {
      assert DebitTotal([e][1..], cash, toDec) == 0;
    }
    assert CreditTotal([e], cash, toDec) == 0 by {
      assert CreditTotal([e][1..], cash, toDec) == 0;
    }
    assert BroughtForward([e], [], cash, 2026, 1) == 0;
  }
}
