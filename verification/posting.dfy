/** The decision logic of the two entry-posting views: the journal-entry
    form, which can also register a fixed asset bought by the entry, and the
    closing-adjustment entry form. Whether a form or formset validates is an
    input. The model covers the order of the checks, what each outcome
    saves, and the values stamped on the saved records. */
module Posting {
  import opened Wrappers
  import opened Dates
  import opened Ledger
  import Adjustment
  import Sorting

  /** `ErrorMessages.MESSAGE_0001`. */
  const UnbalancedMessage: string := "借方合計と貸方合計は一致する必要があります。"

  /** The values of the `register_as_fixed_asset` field that tick the box. */
  const RegisterFlagValues: seq<string> := ["on", "True", "true", "1"]

  /** The box is ticked: the field is present and holds one of the accepted
      spellings. A missing field (`POST.get` gives `None`) is unticked. */
  predicate RegisterChecked(flag: Option<string>) {
    flag.Some? && flag.value in RegisterFlagValues
  }

  const AssetCostPrefix: string := "固定資産登録エラー: 仕訳の借方に勘定科目「"
  const AssetCostSuffix: string := "」の金額が存在しません。"

  /** The error added when the entry has no positive debit on the asset's
      account; it quotes the account's name. */
  function AssetCostMessage(accountName: string): (m: string)
    ensures |m| == |AssetCostPrefix| + |accountName| + |AssetCostSuffix|
    ensures m[..|AssetCostPrefix|] == AssetCostPrefix
    ensures m[|AssetCostPrefix|..|AssetCostPrefix| + |accountName|] == accountName
  {
    AssetCostPrefix + accountName + AssetCostSuffix
  }

  /** The message tells the account apart: different names give different messages. */
  lemma AssetCostMessageNamesAccount(x: string, y: string)
    requires AssetCostMessage(x) == AssetCostMessage(y)
    ensures x == y
  {
    var m := AssetCostMessage(x);
    assert |x| == |y|;
    assert x == m[|AssetCostPrefix|..|AssetCostPrefix| + |x|];
  }

  /** A posted journal-entry form: the header (date, summary, company and
      the key the saved entry gets), both line formsets with their validity,
      the registration flag and the inline fixed-asset form. */
  datatype JournalSubmission = JournalSubmission(
    header: Entry,
    debits: seq<Line>,
    debitsValid: bool,
    credits: seq<Line>,
    creditsValid: bool,
    registerFlag: Option<string>,
    assetForm: FixedAsset,
    assetFormValid: bool)

  /** What a posting view ends with. `Rejected` saves nothing and carries the
      non-field errors added to the form. `SavedAssetRejected` is the
      fixed-asset error path: the form is re-displayed with the error, but
      the entry and its lines were already saved and stay saved. */
  datatype Outcome =
    | Rejected(errors: seq<string>)
    | Saved(entry: Entry, asset: Option<FixedAsset>)
    | SavedAssetRejected(entry: Entry, error: string)

  /** The header with the submitted lines attached. */
  function WithLines(header: Entry, debits: seq<Line>, credits: seq<Line>): (e: Entry)
    ensures e.pk == header.pk && e.date == header.date && e.company == header.company
    ensures e.summary == header.summary && e.entryType == header.entryType
    ensures e.fiscalPeriod == header.fiscalPeriod && e.purchaseDetails == header.purchaseDetails
    ensures e.debits == debits && e.credits == credits
  {
    header.(debits := debits, credits := credits)
  }

  /** The checks that run before anything is saved, in source order: both
      formsets, then the asset form when the box is ticked, then the totals. */
  predicate PassesJournalChecks(s: JournalSubmission) {
    && s.debitsValid && s.creditsValid
    && (RegisterChecked(s.registerFlag) ==> s.assetFormValid)
    && LinesTotal(s.debits) == LinesTotal(s.credits)
  }

  /** The acquisition cost: Σ of the saved entry's debit lines on the asset's account. */
  function AcquisitionCost(s: JournalSubmission): int {
    LinesTotalFor(s.debits, s.assetForm.account)
  }

  /** `JournalEntryFormMixin.form_valid`. */
  function PostJournalEntry(s: JournalSubmission): (r: Outcome)
    ensures r.Rejected? <==> !PassesJournalChecks(s)
    ensures r.Rejected? ==> (r.errors == [UnbalancedMessage] || r.errors == [])
    ensures !r.Rejected? ==> r.entry == WithLines(s.header, s.debits, s.credits) && Balanced(r.entry)
    ensures r.Saved? && r.asset.Some? ==> r.asset.value.acquisitionCost > 0
    ensures r.Saved? ==> (r.asset.Some? <==> RegisterChecked(s.registerFlag))
    ensures r.SavedAssetRejected? ==> RegisterChecked(s.registerFlag) && AcquisitionCost(s) <= 0
    ensures r.SavedAssetRejected? ==> r.error == AssetCostMessage(s.assetForm.account.name)
  {
    if !(s.debitsValid && s.creditsValid) then Rejected([])
    else if RegisterChecked(s.registerFlag) && !s.assetFormValid then Rejected([])
    else if LinesTotal(s.debits) != LinesTotal(s.credits) then Rejected([UnbalancedMessage])
    else
      var e := WithLines(s.header, s.debits, s.credits);
      if !RegisterChecked(s.registerFlag) then Saved(e, None)
      else
        var cost := AcquisitionCost(s);
        if cost <= 0 then SavedAssetRejected(e, AssetCostMessage(s.assetForm.account.name))
        else
          Saved(e, Some(s.assetForm.(acquisitionEntry := Some(e.pk),
                                     acquisitionDate := e.date,
                                     acquisitionCost := cost)))
  }

  /** The balance message is added exactly when every earlier check passed
      and only the totals differ; an invalid formset or asset form rejects
      silently, before the totals are compared. */
  lemma UnbalancedMessageIffOnlyTotalsFail(s: JournalSubmission)
    ensures PostJournalEntry(s) == Rejected([UnbalancedMessage])
            <==> && s.debitsValid && s.creditsValid
                 && (RegisterChecked(s.registerFlag) ==> s.assetFormValid)
                 && LinesTotal(s.debits) != LinesTotal(s.credits)
  {
  }

  /** A registered asset records the entry that bought it: its acquisition
      entry is the saved entry's key, its date the entry's date, and its cost
      the Σ of that entry's debit lines on the asset's own account. Every
      other field comes from the asset form. */
  lemma RegisteredAssetStamps(s: JournalSubmission)
    requires PostJournalEntry(s).Saved? && PostJournalEntry(s).asset.Some?
    ensures var r := PostJournalEntry(s);
            && r.asset.value.acquisitionEntry == Some(r.entry.pk)
            && r.asset.value.acquisitionDate == r.entry.date
            && r.asset.value.acquisitionCost == LinesTotalFor(r.entry.debits, r.asset.value.account)
            && r.asset.value.(acquisitionEntry := s.assetForm.acquisitionEntry,
                              acquisitionDate := s.assetForm.acquisitionDate,
                              acquisitionCost := s.assetForm.acquisitionCost) == s.assetForm
  {
  }

  /** Σ of the lines on `a` splits over a concatenation. */
  lemma {:induction false} LinesTotalForAppend(xs: seq<Line>, ys: seq<Line>, a: Account)
    ensures LinesTotalFor(xs + ys, a) == LinesTotalFor(xs, a) + LinesTotalFor(ys, a)
    decreases |xs|
  {
    if |xs| == 0 {
      assert xs + ys == ys;
    } else {
      assert (xs + ys)[1..] == xs[1..] + ys;
      LinesTotalForAppend(xs[1..], ys, a);
    }
  }

  /** Only the asset account's debit lines count towards the cost: adding
      debit lines on other accounts, or changing the credit lines, leaves
      it unchanged. */
  lemma AcquisitionCostIgnoresOtherLines(s: JournalSubmission, extra: seq<Line>, credits: seq<Line>)
    requires forall i :: 0 <= i < |extra| ==> extra[i].account.id != s.assetForm.account.id
    ensures AcquisitionCost(s.(debits := s.debits + extra, credits := credits)) == AcquisitionCost(s)
  {
    LinesTotalForAppend(s.debits, extra, s.assetForm.account);
    assert !HasLine(extra, s.assetForm.account);
  }

  /** With positive line amounts (the formsets' amount check), a submission
      that passes the checks with the box ticked saves the asset exactly
      when some debit line posts to the asset's account. */
  lemma AssetSavedIffDebitOnAssetAccount(s: JournalSubmission)
    requires PassesJournalChecks(s) && RegisterChecked(s.registerFlag)
    requires AllPositive(s.debits)
    ensures PostJournalEntry(s).Saved? <==> HasLine(s.debits, s.assetForm.account)
    ensures PostJournalEntry(s).SavedAssetRejected? <==> !HasLine(s.debits, s.assetForm.account)
  {
  }

  /** Saving by key: an edited entry replaces the stored entry with its key,
      a new one is appended. */
  function Store(ledger: seq<Entry>, e: Entry): (r: seq<Entry>)
    ensures e in r
    ensures forall x :: x in ledger && x.pk != e.pk ==> x in r
    ensures forall x :: x in r ==> x == e || x in ledger
    decreases |ledger|
  {
    if |ledger| == 0 then [e]
    else if ledger[0].pk == e.pk then [e] + ledger[1..]
    else [ledger[0]] + Store(ledger[1..], e)
  }

  /** Distinct keys for a sequence with a head: the tail has distinct keys
      and none of them is the head's. */
  lemma DistinctPksCons(x: Entry, rest: seq<Entry>)
    ensures DistinctPks([x] + rest)
            <==> DistinctPks(rest) && forall k :: 0 <= k < |rest| ==> rest[k].pk != x.pk
  {
    var l := [x] + rest;
    if DistinctPks(l) {
      forall i, j | 0 <= i < j < |rest| ensures rest[i].pk != rest[j].pk {
        assert rest[i] == l[i + 1] && rest[j] == l[j + 1];
      }
      forall k | 0 <= k < |rest| ensures rest[k].pk != x.pk {
        assert rest[k] == l[k + 1] && l[0] == x;
        assert l[0].pk != l[k + 1].pk;
      }
    }
    if DistinctPks(rest) && forall k :: 0 <= k < |rest| ==> rest[k].pk != x.pk {
      forall i, j | 0 <= i < j < |l| ensures l[i].pk != l[j].pk {
        assert l[j] == rest[j - 1];
        if i > 0 {
          assert l[i] == rest[i - 1];
        }
      }
    }
  }

  /** Saving keeps the keys unique. */
  lemma {:induction false} StoreKeepsPksDistinct(ledger: seq<Entry>, e: Entry)
    requires DistinctPks(ledger)
    ensures DistinctPks(Store(ledger, e))
    decreases |ledger|
  {
    if |ledger| == 0 {
      DistinctPksCons(e, []);
    } else {
      var rest := ledger[1..];
      assert ledger == [ledger[0]] + rest;
      DistinctPksCons(ledger[0], rest);
      if ledger[0].pk != e.pk {
        StoreKeepsPksDistinct(rest, e);
        var tail := Store(rest, e);
        forall k | 0 <= k < |tail| ensures tail[k].pk != ledger[0].pk {
          assert tail[k] in tail;
          if tail[k] != e {
            var m :| 0 <= m < |rest| && rest[m] == tail[k];
          }
        }
        DistinctPksCons(ledger[0], tail);
      } else {
        forall k | 0 <= k < |rest| ensures rest[k].pk != e.pk {
        }
        DistinctPksCons(e, rest);
      }
    }
  }

  /** A new key appends. */
  lemma {:induction false} StoreFresh(ledger: seq<Entry>, e: Entry)
    requires forall i :: 0 <= i < |ledger| ==> ledger[i].pk != e.pk
    ensures Store(ledger, e) == ledger + [e]
    decreases |ledger|
  {
    if |ledger| > 0 {
      assert ledger[0].pk != e.pk;
      StoreFresh(ledger[1..], e);
      assert ledger == [ledger[0]] + ledger[1..];
    }
  }

  /** The ledger and asset register after the view ends with `r`. */
  function Commit(ledger: seq<Entry>, assets: seq<FixedAsset>, r: Outcome): (seq<Entry>, seq<FixedAsset>) {
    match r
    case Rejected(_) => (ledger, assets)
    case Saved(e, a) => (Store(ledger, e), if a.Some? then assets + [a.value] else assets)
    case SavedAssetRejected(e, _) => (Store(ledger, e), assets)
  }

  /** The double-entry invariant survives every posting: a rejected form
      changes nothing and whatever is saved is balanced. */
  lemma PostingPreservesBalance(ledger: seq<Entry>, assets: seq<FixedAsset>, s: JournalSubmission)
    requires AllBalanced(ledger)
    ensures AllBalanced(Commit(ledger, assets, PostJournalEntry(s)).0)
    ensures PostJournalEntry(s).Rejected? ==> Commit(ledger, assets, PostJournalEntry(s)) == (ledger, assets)
  {
    var r := PostJournalEntry(s);
    if !r.Rejected? {
      var l := Store(ledger, r.entry);
      forall i | 0 <= i < |l| ensures Balanced(l[i]) {
        assert l[i] in l;
        if l[i] != r.entry {
          var k :| 0 <= k < |ledger| && ledger[k] == l[i];
        }
      }
    }
  }

  /** A posted closing-adjustment form: header, both line formsets with
      their validity, and the fiscal period chosen in the form. */
  datatype AdjustmentSubmission = AdjustmentSubmission(
    header: Entry,
    debits: seq<Line>,
    debitsValid: bool,
    credits: seq<Line>,
    creditsValid: bool,
    period: FiscalPeriod)

  /** `AdjustmentEntryCreateView.form_valid`. */
  function PostAdjustmentEntry(s: AdjustmentSubmission): (r: Outcome)
    ensures r.SavedAssetRejected? == false
    ensures r.Rejected? <==> !(s.debitsValid && s.creditsValid) || LinesTotal(s.debits) != LinesTotal(s.credits)
    ensures r.Rejected? ==> (r.errors == [UnbalancedMessage] <==> s.debitsValid && s.creditsValid)
    ensures r.Rejected? ==> (r.errors == [] <==> !(s.debitsValid && s.creditsValid))
    ensures r.Saved? ==> && r.asset.None?
                         && r.entry.date == s.period.endDate
                         && r.entry.entryType == EntryType.Adjustment
                         && r.entry.fiscalPeriod == Some(s.period.id)
                         && r.entry.debits == s.debits && r.entry.credits == s.credits
                         && r.entry.pk == s.header.pk && r.entry.company == s.header.company
                         && r.entry.summary == s.header.summary
                         && r.entry.purchaseDetails == s.header.purchaseDetails
                         && Balanced(r.entry)
  {
    if !(s.debitsValid && s.creditsValid) then Rejected([])
    else if LinesTotal(s.debits) != LinesTotal(s.credits) then Rejected([UnbalancedMessage])
    else
      Saved(WithLines(s.header, s.debits, s.credits).(date := s.period.endDate,
                                                      fiscalPeriod := Some(s.period.id),
                                                      entryType := EntryType.Adjustment), None)
  }

  /** The date typed into the header plays no part: two submissions that
      differ only there end the same way. */
  lemma AdjustmentIgnoresInputDate(s: AdjustmentSubmission, d: Date)
    ensures PostAdjustmentEntry(s.(header := s.header.(date := d))) == PostAdjustmentEntry(s)
  {
  }

  /** Stamping the period end puts a new adjustment entry into the balances
      as of the period end, by its own signed movement on each account, and
      leaves every balance as of an earlier date untouched. */
  lemma AdjustmentLandsAtPeriodEnd(ledger: seq<Entry>, assets: seq<FixedAsset>, s: AdjustmentSubmission,
                                   a: Account, asOf: Date)
    requires PostAdjustmentEntry(s).Saved?
    requires forall i :: 0 <= i < |ledger| ==> ledger[i].pk != s.header.pk
    ensures var after := Commit(ledger, assets, PostAdjustmentEntry(s)).0;
            && Adjustment.AccountBalance(after, a, s.period.endDate, None)
               == Adjustment.AccountBalance(ledger, a, s.period.endDate, None)
                  + SignedBalance(a.kind, LinesTotalFor(s.debits, a), LinesTotalFor(s.credits, a))
            && (Before(asOf, s.period.endDate)
                ==> Adjustment.AccountBalance(after, a, asOf, None) == Adjustment.AccountBalance(ledger, a, asOf, None))
  {
    var e := PostAdjustmentEntry(s).entry;
    StoreFresh(ledger, e);
    TotalsAppend(ledger, e, a, Scope(None, s.period.endDate, None));
    if Before(asOf, s.period.endDate) {
      Adjustment.AccountBalanceIgnoresOutOfScope(ledger, e, a, asOf, None);
    }
  }

  /** `FiscalPeriod.objects.get(id=...)`, `None` for `DoesNotExist`. */
  function FindPeriod(periods: seq<FiscalPeriod>, id: nat): (r: Option<FiscalPeriod>)
    ensures r.None? <==> forall i :: 0 <= i < |periods| ==> periods[i].id != id
    ensures r.Some? ==> r.value.id == id && r.value in periods
  {
    if |periods| == 0 then None
    else if periods[0].id == id then Some(periods[0])
    else FindPeriod(periods[1..], id)
  }

  /** The reference figures shown beside the adjustment form: computed only
      when a period id was given and names an existing period; an unknown id
      is ignored. */
  method ReferenceInfo(
    periodId: Option<nat>, periods: seq<FiscalPeriod>,
    assets: seq<Adjustment.DepreciableAsset>, hs: seq<DepreciationHistory>,
    chart: seq<Account>, ledger: seq<Entry>)
    returns (r: Option<Adjustment.AdjustmentInfo>)
    requires Adjustment.AllAnnualValid(assets)
    ensures r.Some? <==> periodId.Some? && exists i :: 0 <= i < |periods| && periods[i].id == periodId.value
    ensures r.Some? ==> r.value.fiscalPeriod.id == periodId.value && r.value.fiscalPeriod in periods
    ensures r.Some? ==> r.value.depreciation.totalDepreciation
                        == Sorting.SumOf(r.value.depreciation.assets, Adjustment.CurrentOf())
    ensures r.Some? ==> var p := r.value.fiscalPeriod;
                        var listed := Adjustment.ListedAssets(assets, p, None);
                        && |r.value.depreciation.assets| == |listed|
                        && (forall i :: 0 <= i < |listed| ==> r.value.depreciation.assets[i] == Adjustment.AssetRow(listed[i], hs, p))
                        && r.value.allowance == Adjustment.CalculateAllowance(chart, ledger, p, None)
  {
    r := None;
    if periodId.Some? {
      var found := FindPeriod(periods, periodId.value);
      if found.Some? {
        var info := Adjustment.GetAllAdjustmentInfo(assets, hs, chart, ledger, found.value, None);
        r := Some(info);
      }
    }
  }
}
