// The accounting service: tables updated in place and reports that loop over joined rows.
module LedgerService {
  import opened Wrappers
  import opened Seqs
  import opened Sums
  import opened Text
  import opened Tables
  import opened Validation
  import opened Journal
  import opened Reports
  import opened Statements
  import opened Coa
  import opened SP = SourcePosting
  import Runs

  datatype BalanceSheet = BalanceSheet(
    assets: seq<ReportLine>, liabilities: seq<ReportLine>, equity: seq<ReportLine>, earningsLine: Option<int>,
    totalAssets: int, totalLiabilities: int, totalEquity: int)

  class Ledger {
    var accounts: seq<Account>
    var entries: seq<Entry>
    var lines: seq<Line>
    var sources: seq<SourceAccount>
    var mappings: seq<Mapping>

    function View(): Db
      reads this
    {
      Db(accounts, entries, lines, sources, mappings)
    }

    ghost predicate Valid()
      reads this
    {
      WellFormed(View())
    }

    constructor ()
      ensures View() == Runs.EMPTY && Valid()
    {
      accounts, entries, lines, sources, mappings := [], [], [], [], [];
    }

    method AddAccount(a: Account) returns (r: Result<nat, PostError>)
      requires Valid()
      modifies this
      ensures Valid() && (View(), r) == CreateAccount(old(View()), a)
    {
      CreateAccountKeeps(View(), a);
      if !AccountChecks(a) {
        return Err(IntegrityError);
      }
      if a.code.Some? {
        var clash := FindFirst(accounts, HasCode(a.scope, a.code.value));
        if clash.Some? {
          return Err(IntegrityError);
        }
      }
      r := Ok(|accounts|);
      accounts := accounts + [a];
    }

    method UpdateAccountName(scope: Scope, code: string, name: string) returns (r: Result<nat, PostError>)
      requires Valid()
      modifies this`accounts
      ensures Valid() && (View(), r) == RenameAccount(old(View()), scope, code, Strip(name))
    {
      RenameKeeps(View(), scope, code, Strip(name));
      var found := FindFirst(accounts, HasCode(scope, code));
      if found.None? {
        return Err(PostError.AccountsNotFound({}));
      }
      accounts := accounts[found.value := accounts[found.value].(name := Strip(name))];
      r := Ok(found.value);
    }

    method PostJournalEntry(scope: Scope, request: Request, key: Option<string>, author: string)
      returns (r: Result<Posted, PostError>)
      requires Valid()
      modifies this`entries, this`lines
      ensures Valid() && (View(), r) == Post(old(View()), scope, request, key, author)
    {
      PostKeeps(View(), scope, request, key, author);
      var verdict := Validate(request.lines, NoBlank);
      if verdict.Err? {
        return Err(InvalidLines(verdict.error));
      }
      var checked := verdict.value;
      if key.Some? && key.value != "" {
        var existing := FindFirst(entries, HasKey(scope, key.value));
        if existing.Some? {
          return Ok(Posted(existing.value, false));
        }
      }
      var missing := MissingAccounts(accounts, scope, KeysOf(checked.postings));
      if missing != {} {
        return Err(PostError.AccountsNotFound(missing));
      }
      if KeyTaken(entries, scope, key) {
        return Err(IntegrityError);
      }
      var journalId := |entries|;
      entries := entries + [NewEntry(scope, request, key, author, checked)];
      WriteLines(scope, journalId, checked.postings);
      r := Ok(Posted(journalId, true));
    }

    /** The loop that adds one row per normalised line. */
    method WriteLines(scope: Scope, journalId: int, ps: seq<Posting<int>>)
      modifies this`lines
      ensures lines == old(lines) + ToLines(scope, journalId, ps)
    {
      ghost var added := ToLines(scope, journalId, ps);
      for i := 0 to |ps|
        invariant lines == old(lines) + added[..i]
      {
        lines := lines + [Line(scope, journalId, ps[i].key, ps[i].debit, ps[i].credit)];
      }
      assert added[..|ps|] == added;
    }

    method PostSourceJournalEntry(scope: Scope, request: SourceRequest, key: Option<string>, author: string)
      returns (r: Result<Posted, PostError>)
      requires Valid()
      modifies this`entries, this`lines
      ensures Valid() && (View(), r) == PostSource(old(View()), scope, request, key, author)
    {
      var stripped := StripLines(request.lines);
      var verdict := Validate(stripped, IsBlank);
      if verdict.Err? {
        return Err(InvalidLines(verdict.error));
      }
      var ps := verdict.value.postings;
      var unknown := Unknown(View(), scope, request.system, KeysOf(ps));
      if unknown != {} {
        return Err(PostError.SourcesNotFound(unknown));
      }
      var unresolved := Unresolved(View(), scope, request.system, KeysOf(ps));
      if unresolved != {} {
        return Err(MappingMissing(unresolved));
      }
      AcceptedIff(stripped, IsBlank);
      var canonical := CanonicalLines(ps, Canonical(View(), scope, request.system));
      r := PostJournalEntry(scope, Request(request.date, request.description, request.reference, canonical),
        SourceIdempotencyKey(request.system, key), author);
    }

    static method CanonicalLines(ps: seq<Posting<string>>, resolve: string -> int)
      returns (canonical: seq<RawLine<int>>)
      requires forall p | p in ps :: p.debit >= 0 && p.credit >= 0
      ensures canonical == Translate(ps, resolve)
    {
      canonical := [];
      for i := 0 to |ps|
        invariant canonical == Translate(ps, resolve)[..i]
      {
        assert ps[i] in ps;
        canonical := canonical + [RawLine(resolve(ps[i].key), ps[i].debit as real, ps[i].credit as real)];
      }
      assert canonical == Translate(ps, resolve);
    }

    method UpsertSourceAccounts(scope: Scope, items: seq<SourceIn>) returns (error: Option<CoaError>)
      requires Valid()
      modifies this`sources
      ensures Valid() && (View(), error) == UpsertSources(old(View()), scope, items)
    {
      UpsertSourcesKeeps(View(), scope, items);
      for i := 0 to |items|
        invariant forall j :: 0 <= j < i ==> !BLANK_SOURCE(items[j])
      {
        if Strip(items[i].code) == "" {
          assert BLANK_SOURCE(items[i]);
          return Some(CoaError.BlankCode);
        }
        if Strip(items[i].name) == "" {
          assert BLANK_SOURCE(items[i]);
          return Some(BlankName);
        }
        assert !BLANK_SOURCE(items[i]);
      }
      for i := 0 to |items|
        invariant sources == UpsertAll(old(sources), scope, items[..i])
      {
        assert items[..i + 1][..i] == items[..i];
        sources := UpsertSource(sources, scope, items[i]);
      }
      assert items[..|items|] == items;
      error := None;
    }

    method UpsertCoaMappings(scope: Scope, items: seq<MappingIn>, author: string) returns (error: Option<CoaError>)
      requires Valid()
      modifies this`mappings
      ensures Valid() && (View(), error) == UpsertMappings(old(View()), scope, items, author)
    {
      UpsertMappingsKeeps(View(), scope, items, author);
      var blank, keys, byKey := KeyItems(items);
      if blank {
        return Some(CoaError.BlankCode);
      }
      var missing := MissingKeys(sources, scope, byKey);
      if missing != {} {
        return Some(CoaError.SourcesNotFound(missing));
      }
      var unknown := MissingAccounts(accounts, scope, Canonicals(byKey));
      if unknown != {} {
        return Some(CoaError.AccountsNotFound(unknown));
      }
      KeysResolved(sources, scope, keys, byKey);
      WriteMappings(scope, keys, byKey, author);
      error := None;
    }

    /** The request loop: refuses a blank code, collects the keys in order and the last item of each key. */
    static method KeyItems(items: seq<MappingIn>)
      returns (blank: bool, keys: seq<SourceKey>, byKey: map<SourceKey, MappingIn>)
      ensures blank <==> FindFirst(items, BLANK_MAPPING).Some?
      ensures !blank ==> (keys, byKey) == Keyed(items)
    {
      blank, keys, byKey := false, [], map[];
      for i := 0 to |items|
        invariant !blank && FindFirst(items[..i], BLANK_MAPPING).None?
        invariant keys == Keyed(items[..i]).0 && byKey == Keyed(items[..i]).1
      {
        if Strip(items[i].code) == "" {
          assert BLANK_MAPPING(items[i]);
          blank := true;
          return;
        }
        NotBlankStep(items, i);
        KeyedStep(items, i);
        var k := KeyOf(items[i]);
        if k !in byKey { keys := keys + [k]; }
        byKey := byKey[k := items[i]];
      }
      assert items[..|items|] == items;
    }

    method WriteMappings(scope: Scope, keys: seq<SourceKey>, byKey: map<SourceKey, MappingIn>, author: string)
      requires forall k | k in keys :: k in byKey && SourceId(sources, scope, k).Some?
      modifies this`mappings
      ensures mappings == ApplyMappings(old(View()), scope, keys, byKey, author)
    {
      for i := 0 to |keys|
        invariant mappings == ApplyMappings(old(View()), scope, keys[..i], byKey, author)
      {
        assert keys[..i + 1][..i] == keys[..i] && keys[i] in keys;
        mappings := ApplyMapping(mappings, scope, SourceId(sources, scope, keys[i]).value, byKey[keys[i]], author);
      }
      assert keys[..|keys|] == keys;
    }

    method ApproveCoaMappings(scope: Scope, system: SourceSystem, codes: seq<string>, author: string)
      returns (error: Option<CoaError>, approvedCount: int)
      requires Valid()
      modifies this`mappings
      ensures Valid() && (View(), error) == Approve(old(View()), scope, system, codes, author)
      ensures error.None? ==>
                approvedCount == SumBy(old(mappings),
                    NeedsApproval(scope, ApprovalScope(old(View()), scope, system, StripAll(codes))))
    {
      ApproveKeeps(View(), scope, system, codes, author);
      var wanted := StripAll(codes);
      if |codes| > 0 && wanted == {} {
        return Some(BlankCodeList), 0;
      }
      var ids := ApprovalScope(View(), scope, system, wanted);
      if ids == {} {
        return Some(NothingToApprove), 0;
      }
      var absent := AbsentKeys(sources, system, ids, wanted);
      if absent != {} {
        return Some(CoaError.SourcesNotFound(absent)), 0;
      }
      if !AnyMapping(mappings, scope, ids) {
        return Some(NoMappings), 0;
      }
      approvedCount := ActivateMappings(scope, ids, author);
      error := None;
    }

    /** The loop that activates every mapping of the covered source accounts and counts those that were not active. */
    method ActivateMappings(scope: Scope, ids: set<int>, author: string) returns (approvedCount: int)
      modifies this`mappings
      ensures mappings == ApproveRows(old(mappings), scope, ids, author)
      ensures approvedCount == SumBy(old(mappings), NeedsApproval(scope, ids))
    {
      approvedCount := 0;
      ghost var before, target := mappings, ApproveRows(mappings, scope, ids, author);
      for i := 0 to |mappings|
        invariant |mappings| == |before|
        invariant forall k :: 0 <= k < i ==> mappings[k] == target[k]
        invariant forall k :: i <= k < |before| ==> mappings[k] == before[k]
        invariant approvedCount == SumBy(before[..i], NeedsApproval(scope, ids))
      {
        var m := mappings[i];
        SumStep(before, i, NeedsApproval(scope, ids));
        if m.scope == scope && m.sourceId in ids && m.status != Active {
          mappings := mappings[i := m.(status := Active, mappedBy := author)];
          approvedCount := approvedCount + 1;
        }
      }
      assert before[..|before|] == before;
    }

    method GetCoaMappingGaps(scope: Scope, system: SourceSystem) returns (gaps: seq<int>)
      ensures gaps == Gaps(View(), scope, system)
    {
      var ids := ActiveSources(View(), scope, system);
      var mapped := MappedIds(View(), scope, ids, {Active});
      gaps := [];
      for i := 0 to |ids|
        invariant gaps == Filter(ids[..i], Unmapped(mapped))
      {
        assert ids[..i + 1][..i] == ids[..i];
        if ids[i] !in mapped {
          gaps := gaps + [ids[i]];
        }
      }
      assert ids[..|ids|] == ids;
    }

    method GetCoaOnboardingStatus(scope: Scope, system: SourceSystem) returns (s: Status)
      ensures s == OnboardingStatus(View(), scope, system)
      ensures s.total == s.mappedActive + s.mappedDraft + s.unmapped
      ensures s.mappedDraft + s.unmapped == |Gaps(View(), scope, system)|
    {
      StatusLaws(View(), scope, system);
      var ids := ActiveSources(View(), scope, system);
      var active := MappedIds(View(), scope, ids, {Active});
      var draft := MappedIds(View(), scope, ids, {Draft});
      var unmapped := |ids| - |active| - |draft - active|;
      s := Status(|ids|, |active|, |draft - active|, if unmapped < 0 then 0 else unmapped);
    }

    // ---- Reports ----

    /** The grouped join. Callers learn the rows but not their order. */
    method GlSumsByAccount(q: Query) returns (rows: seq<GlRow>)
      requires q.account.None?
      ensures IsGlResult(View(), q, rows)
    {
      GroupedIsResult(View(), q);
      rows := Grouped(View(), q, |accounts|);
    }

    method GetLedgerLines(scope: Scope, accountId: int) returns (r: Result<seq<LedgerLine>, PostError>)
      requires Valid()
      ensures r.Ok? <==> 0 <= accountId < |accounts| && accounts[accountId].scope == scope
      ensures r.Ok? ==> IsLedger(View(), LedgerQuery(scope, accountId), r.value)
    {
      if !(0 <= accountId < |accounts| && accounts[accountId].scope == scope) {
        return Err(PostError.AccountsNotFound({accountId}));
      }
      var q := LedgerQuery(scope, accountId);
      var ids := OrderedIds(View(), q, |lines|);
      OrderedLedger(View(), q, |lines|);
      var running := 0;
      var output: seq<LedgerLine> := [];
      for i := 0 to |ids|
        invariant running == SumBy(ids[..i], NetAt(View()))
        invariant |output| == i
        invariant forall k | 0 <= k < i ::
                    0 <= ids[k] < |lines| && 0 <= lines[ids[k]].journalId < |entries|
                        && output[k] == LineAt(View(), ids, k)
      {
        LedgerStep(View(), ids, i);
        var l := lines[ids[i]];
        var e := entries[l.journalId];
        running := running + (l.debit - l.credit);
        output := output + [LedgerLine(l.journalId, e.date, e.reference, e.description, l.debit, l.credit, running)];
      }
      r := Ok(output);
    }

    static lemma LedgerStep(db: Db, ids: seq<int>, i: nat)
      requires LinesOk(db) && i < |ids| && forall k | k in ids :: 0 <= k < |db.lines|
      ensures 0 <= ids[i] < |db.lines| && 0 <= db.lines[ids[i]].journalId < |db.entries|
      ensures SumBy(ids[..i + 1], NetAt(db))
                == SumBy(ids[..i], NetAt(db)) + (db.lines[ids[i]].debit - db.lines[ids[i]].credit)
      ensures LineAt(db, ids, i).running == SumBy(ids[..i + 1], NetAt(db))
    {
      assert ids[i] in ids && db.lines[ids[i]] in db.lines;
      SumStep(ids, i, NetAt(db));
    }

    method GetTrialBalance(scope: Scope, d: int) returns (report: seq<ReportLine>, totalDebit: int, totalCredit: int)
      requires Valid()
      ensures IsReport(View(), AsOf(scope, d, ALL_TYPES), false, report)
      ensures totalDebit == totalCredit == Total(View(), AsOf(scope, d, ALL_TYPES), DR)
    {
      var q := AsOf(scope, d, ALL_TYPES);
      var rows := GlSumsByAccount(q);
      report, totalDebit, totalCredit := [], 0, 0;
      for i := 0 to |rows|
        invariant totalDebit == SumBy(rows[..i], ROW_DEBIT) && totalCredit == SumBy(rows[..i], ROW_CREDIT)
        invariant report == Select(rows[..i], ALL_TYPES, false)
      {
        var r := rows[i];
        totalDebit, totalCredit := totalDebit + r.debitTotal, totalCredit + r.creditTotal;
        report := report + [ReportLine(r.accountId, r.account, r.debitTotal, r.creditTotal,
            r.debitTotal - r.creditTotal)];
        SumStep(rows, i, ROW_DEBIT);
        SumStep(rows, i, ROW_CREDIT);
        SelectStep(rows, i, ALL_TYPES, false);
        EveryType(r.account.kind);
      }
      assert rows[..|rows|] == rows;
      SelectIsReport(View(), q, rows, ALL_TYPES, false);
      assert q.(types := q.types * ALL_TYPES) == q;
      DebitCreditTotals(View(), q, rows);
      NothingLost(View(), scope, d);
      NetSplit(View(), q);
    }

    method GetProfitLoss(scope: Scope, from: int, to: int)
      returns (report: seq<ReportLine>, income: int, expense: int, netProfit: int)
      requires Valid()
      ensures IsReport(View(), Period(scope, from, to, {Income, Expense}), true, report)
      ensures income == TypeBalance(View(), Period(scope, from, to, ALL_TYPES), Income)
      ensures expense == TypeBalance(View(), Period(scope, from, to, ALL_TYPES), Expense)
      ensures netProfit == Earnings(View(), Period(scope, from, to, ALL_TYPES))
    {
      var q := Period(scope, from, to, {Income, Expense});
      var rows := GlSumsByAccount(q);
      report, income, expense := [], 0, 0;
      for i := 0 to |rows|
        invariant income == SumBy(rows[..i], KindBalance(Income)) && expense == SumBy(rows[..i], KindBalance(Expense))
        invariant report == Select(rows[..i], {Income, Expense}, true)
      {
        var r := rows[i];
        RowKind(View(), q, r);
        var net;
        if r.account.kind == Income {
          net := r.creditTotal - r.debitTotal;
          income := income + net;
        } else {
          net := r.debitTotal - r.creditTotal;
          expense := expense + net;
        }
        report := report + [ReportLine(r.accountId, r.account, r.debitTotal, r.creditTotal, net)];
        ProfitStep(rows, i);
      }
      assert rows[..|rows|] == rows;
      ProfitTotals(View(), scope, from, to, rows);
      netProfit := income - expense;
    }

    /** One more row counts as income or as expense. */
    static lemma ProfitStep(rows: seq<GlRow>, i: nat)
      requires i < |rows| && rows[i].account.kind in {Income, Expense}
      ensures var (r, isIncome) := (rows[i], rows[i].account.kind == Income);
        var net := if isIncome then r.creditTotal - r.debitTotal else r.debitTotal - r.creditTotal;
        && SumBy(rows[..i + 1], KindBalance(Income))
             == SumBy(rows[..i], KindBalance(Income)) + (if isIncome then net else 0)
        && SumBy(rows[..i + 1], KindBalance(Expense))
             == SumBy(rows[..i], KindBalance(Expense)) + (if isIncome then 0 else net)
        && Select(rows[..i + 1], {Income, Expense}, true)
             == Select(rows[..i], {Income, Expense}, true)
                  + [ReportLine(r.accountId, r.account, r.debitTotal, r.creditTotal, net)]
    {
      SumStep(rows, i, KindBalance(Income));
      SumStep(rows, i, KindBalance(Expense));
      SelectStep(rows, i, {Income, Expense}, true);
    }

    static lemma ProfitTotals(db: Db, scope: Scope, from: int, to: int, rows: seq<GlRow>)
      requires IsGlResult(db, Period(scope, from, to, {Income, Expense}), rows)
      ensures IsReport(db, Period(scope, from, to, {Income, Expense}), true, Select(rows, {Income, Expense}, true))
      ensures forall k | k in {Income, Expense} ::
                SumBy(rows, KindBalance(k)) == TypeBalance(db, Period(scope, from, to, ALL_TYPES), k)
      ensures SumBy(rows, KindBalance(Income)) - SumBy(rows, KindBalance(Expense))
                == Earnings(db, Period(scope, from, to, ALL_TYPES))
    {
      var q := Period(scope, from, to, {Income, Expense});
      SelectIsReport(db, q, rows, {Income, Expense}, true);
      assert q.(types := q.types * {Income, Expense}) == q;
      KindTotals(db, q, rows, Income);
      KindTotals(db, q, rows, Expense);
      TypeNet(db, q, Income);
      TypeNet(db, q, Expense);
    }

    method GetReceiptsPayments(scope: Scope, from: int, to: int)
      returns (report: seq<ReportLine>, receipts: int, payments: int, netReceipts: int)
      requires Valid()
      ensures IsReport(View(), Period(scope, from, to, ALL_TYPES).(onlyCashBank := true), false, report)
      ensures receipts == Total(View(), Period(scope, from, to, ALL_TYPES).(onlyCashBank := true), DR)
      ensures payments == Total(View(), Period(scope, from, to, ALL_TYPES).(onlyCashBank := true), CR)
      ensures netReceipts == Total(View(), Period(scope, from, to, ALL_TYPES).(onlyCashBank := true), NET)
    {
      var q := Period(scope, from, to, ALL_TYPES).(onlyCashBank := true);
      var rows := GlSumsByAccount(q);
      report, receipts, payments := [], 0, 0;
      for i := 0 to |rows|
        invariant receipts == SumBy(rows[..i], ROW_DEBIT) && payments == SumBy(rows[..i], ROW_CREDIT)
        invariant report == Select(rows[..i], ALL_TYPES, false)
      {
        var r := rows[i];
        receipts, payments := receipts + r.debitTotal, payments + r.creditTotal;
        report := report + [ReportLine(r.accountId, r.account, r.debitTotal, r.creditTotal,
            r.debitTotal - r.creditTotal)];
        SumStep(rows, i, ROW_DEBIT);
        SumStep(rows, i, ROW_CREDIT);
        SelectStep(rows, i, ALL_TYPES, false);
        EveryType(r.account.kind);
      }
      assert rows[..|rows|] == rows;
      SelectIsReport(View(), q, rows, ALL_TYPES, false);
      assert q.(types := q.types * ALL_TYPES) == q;
      DebitCreditTotals(View(), q, rows);
      NetSplit(View(), q);
      netReceipts := receipts - payments;
    }

    /** _net_profit_from_rows. */
    method NetProfitFromRows(rows: seq<GlRow>) returns (net: int)
      ensures net == SumBy(rows, KindBalance(Income)) - SumBy(rows, KindBalance(Expense))
    {
      var income, expense := 0, 0;
      for i := 0 to |rows|
        invariant income == SumBy(rows[..i], KindBalance(Income)) && expense == SumBy(rows[..i], KindBalance(Expense))
      {
        var r := rows[i];
        if r.account.kind == Income {
          income := income + (r.creditTotal - r.debitTotal);
        } else if r.account.kind == Expense {
          expense := expense + (r.debitTotal - r.creditTotal);
        }
        SumStep(rows, i, KindBalance(Income));
        SumStep(rows, i, KindBalance(Expense));
      }
      assert rows[..|rows|] == rows;
      net := income - expense;
    }

    /** The two sides come from separate queries, and still agree: assets equal liabilities plus equity. */
    method GetBalanceSheet(scope: Scope, d: int) returns (b: BalanceSheet)
      requires Valid()
      ensures IsReport(View(), AsOf(scope, d, {Asset}), true, b.assets)
      ensures IsReport(View(), AsOf(scope, d, {Liability}), true, b.liabilities)
      ensures IsReport(View(), AsOf(scope, d, {Equity}), true, b.equity)
      ensures var earnings := Earnings(View(), AsOf(scope, d, ALL_TYPES));
        && b.earningsLine == (if earnings != 0 then Some(earnings) else None)
        && b.totalAssets == TypeBalance(View(), AsOf(scope, d, ALL_TYPES), Asset)
        && b.totalLiabilities == TypeBalance(View(), AsOf(scope, d, ALL_TYPES), Liability)
        && b.totalEquity == TypeBalance(View(), AsOf(scope, d, ALL_TYPES), Equity) + earnings
      ensures b.totalAssets == b.totalLiabilities + b.totalEquity
    {
      var q := AsOf(scope, d, {Asset, Liability, Equity});
      var rows := GlSumsByAccount(q);
      var assets, liabilities, equity := [], [], [];
      var totalAssets, totalLiabilities, totalEquity := 0, 0, 0;
      for i := 0 to |rows|
        invariant totalAssets == SumBy(rows[..i], KindBalance(Asset))
        invariant totalLiabilities == SumBy(rows[..i], KindBalance(Liability))
        invariant totalEquity == SumBy(rows[..i], KindBalance(Equity))
        invariant assets == Select(rows[..i], {Asset}, true)
        invariant liabilities == Select(rows[..i], {Liability}, true)
        invariant equity == Select(rows[..i], {Equity}, true)
      {
        var r := rows[i];
        RowKind(View(), q, r);
        SheetStep(rows, i);
        var balance := Balance(r.account.kind, r.debitTotal, r.creditTotal);
        var line := ReportLine(r.accountId, r.account, r.debitTotal, r.creditTotal, balance);
        if r.account.kind == Asset {
          assets, totalAssets := assets + [line], totalAssets + balance;
        } else if r.account.kind == Liability {
          liabilities, totalLiabilities := liabilities + [line], totalLiabilities + balance;
        } else {
          equity, totalEquity := equity + [line], totalEquity + balance;
        }
      }
      assert rows[..|rows|] == rows;
      SheetLists(View(), q, rows);
      var pnl := AsOf(scope, d, {Income, Expense});
      var pnlRows := GlSumsByAccount(pnl);
      var earnings := NetProfitFromRows(pnlRows);
      SheetTotals(View(), scope, d, rows, pnlRows);
      var earningsLine := None;
      if earnings != 0 {
        earningsLine := Some(earnings);
        totalEquity := totalEquity + earnings;
      }
      b := BalanceSheet(assets, liabilities, equity, earningsLine, totalAssets, totalLiabilities, totalEquity);
    }

    static lemma SheetStep(rows: seq<GlRow>, i: nat)
      requires i < |rows|
      ensures forall k: AccountType ::
                SumBy(rows[..i + 1], KindBalance(k)) == SumBy(rows[..i], KindBalance(k)) + KindBalance(k)(rows[i])
      ensures forall k: AccountType :: Select(rows[..i + 1], {k}, true)
                == Select(rows[..i], {k}, true) + if rows[i].account.kind == k then [Present(rows[i], true)] else []
    {
      forall k: AccountType
        ensures SumBy(rows[..i + 1], KindBalance(k)) == SumBy(rows[..i], KindBalance(k)) + KindBalance(k)(rows[i])
        ensures Select(rows[..i + 1], {k}, true)
             == Select(rows[..i], {k}, true) + if rows[i].account.kind == k then [Present(rows[i], true)] else []
      {
        SumStep(rows, i, KindBalance(k));
        SelectStep(rows, i, {k}, true);
      }
    }

    static lemma SheetLists(db: Db, q: Query, rows: seq<GlRow>)
      requires q.account.None? && IsGlResult(db, q, rows) && q.types == {Asset, Liability, Equity}
      ensures IsReport(db, q.(types := {Asset}), true, Select(rows, {Asset}, true))
      ensures IsReport(db, q.(types := {Liability}), true, Select(rows, {Liability}, true))
      ensures IsReport(db, q.(types := {Equity}), true, Select(rows, {Equity}, true))
    {
      SelectIsReport(db, q, rows, {Asset}, true);
      SelectIsReport(db, q, rows, {Liability}, true);
      SelectIsReport(db, q, rows, {Equity}, true);
      assert q.types * {Asset} == {Asset} && q.types * {Liability} == {Liability} && q.types * {Equity} == {Equity};
    }

    static lemma SheetTotals(db: Db, scope: Scope, d: int, rows: seq<GlRow>, pnlRows: seq<GlRow>)
      requires WellFormed(db)
      requires IsGlResult(db, AsOf(scope, d, {Asset, Liability, Equity}), rows)
      requires IsGlResult(db, AsOf(scope, d, {Income, Expense}), pnlRows)
      ensures forall k | k in {Asset, Liability, Equity} ::
                SumBy(rows, KindBalance(k)) == TypeBalance(db, AsOf(scope, d, ALL_TYPES), k)
      ensures SumBy(pnlRows, KindBalance(Income)) - SumBy(pnlRows, KindBalance(Expense))
           == Earnings(db, AsOf(scope, d, ALL_TYPES))
      ensures SumBy(rows, KindBalance(Asset))
           == SumBy(rows, KindBalance(Liability)) + SumBy(rows, KindBalance(Equity))
               + Earnings(db, AsOf(scope, d, ALL_TYPES))
    {
      var q, pnl := AsOf(scope, d, {Asset, Liability, Equity}), AsOf(scope, d, {Income, Expense});
      forall k | k in {Asset, Liability, Equity}
        ensures SumBy(rows, KindBalance(k)) == TypeBalance(db, AsOf(scope, d, ALL_TYPES), k)
      {
        KindTotals(db, q, rows, k);
      }
      KindTotals(db, pnl, pnlRows, Income);
      KindTotals(db, pnl, pnlRows, Expense);
      forall k: AccountType
        ensures TypeBalance(db, AsOf(scope, d, ALL_TYPES), k) == if k in {Asset, Expense}
                then Total(db, AsOf(scope, d, {k}), NET) else -Total(db, AsOf(scope, d, {k}), NET)
      {
        TypeNet(db, AsOf(scope, d, ALL_TYPES), k);
      }
      AccountingEquation(db, scope, d);
    }

    /** The shared loop of the receivable and payable reports. */
    method SubledgerReport(q: Query, kind: AccountType) returns (report: seq<ReportLine>, total: int)
      requires Valid() && q.account.None? && q.types == ALL_TYPES
      requires forall a | a in accounts && AccountFits(q, a) :: a.kind == kind
      ensures IsReport(View(), q, true, report)
      ensures total == Balance(kind, Total(View(), q, DR), Total(View(), q, CR))
    {
      var rows := GlSumsByAccount(q);
      report, total := [], 0;
      for i := 0 to |rows|
        invariant total == SumBy(rows[..i], ROW_BALANCE)
        invariant report == Select(rows[..i], ALL_TYPES, true)
      {
        var r := rows[i];
        var balance := Balance(r.account.kind, r.debitTotal, r.creditTotal);
        total := total + balance;
        report := report + [ReportLine(r.accountId, r.account, r.debitTotal, r.creditTotal, balance)];
        SumStep(rows, i, ROW_BALANCE);
        SelectStep(rows, i, ALL_TYPES, true);
        EveryType(r.account.kind);
      }
      assert rows[..|rows|] == rows;
      SelectIsReport(View(), q, rows, ALL_TYPES, true);
      assert q.(types := q.types * ALL_TYPES) == q;
      forall r | r in rows ensures r.account.kind == kind {
        RowKind(View(), q, r);
        assert r.account in accounts;
      }
      BalanceTotals(View(), q, rows, kind);
    }

    /** Receivables: the total is the net of the receivable accounts, whatever entries touched them. */
    method GetAccountsReceivable(scope: Scope, d: int) returns (report: seq<ReportLine>, total: int)
      requires Valid()
      ensures IsReport(View(), AsOf(scope, d, ALL_TYPES).(onlyReceivable := true), true, report)
      ensures total == Total(View(), AsOf(scope, d, ALL_TYPES).(onlyReceivable := true), NET)
    {
      NetSplit(View(), AsOf(scope, d, ALL_TYPES).(onlyReceivable := true));
      report, total := SubledgerReport(AsOf(scope, d, ALL_TYPES).(onlyReceivable := true), Asset);
    }

    method GetAccountsPayable(scope: Scope, d: int) returns (report: seq<ReportLine>, total: int)
      requires Valid()
      ensures IsReport(View(), AsOf(scope, d, ALL_TYPES).(onlyPayable := true), true, report)
      ensures total == -Total(View(), AsOf(scope, d, ALL_TYPES).(onlyPayable := true), NET)
    {
      NetSplit(View(), AsOf(scope, d, ALL_TYPES).(onlyPayable := true));
      report, total := SubledgerReport(AsOf(scope, d, ALL_TYPES).(onlyPayable := true), Liability);
    }
  }
}
