// What each report's figures are, as sums over the stored lines with every condition written out.
module ReportTotals {
  import opened Wrappers
  import opened Sums
  import opened Tables
  import opened Reports
  import opened Statements

  /** The line is of the scope and its entry is dated from..to. */
  predicate Within(db: Db, l: Line, scope: Scope, from: int, to: int) {
    && l.scope == scope && 0 <= l.journalId < |db.entries| && 0 <= l.accountId < |db.accounts|
    && from <= db.entries[l.journalId].date <= to
  }

  /** The line is of the scope and its entry is dated d or earlier. */
  predicate UpTo(db: Db, l: Line, scope: Scope, d: int) {
    && l.scope == scope && 0 <= l.journalId < |db.entries| && 0 <= l.accountId < |db.accounts|
    && db.entries[l.journalId].date <= d
  }

  // ---- Receipts and payments ----

  function CashIn(db: Db, scope: Scope, from: int, to: int): Line -> int {
    (l: Line) => if Within(db, l, scope, from, to) && db.accounts[l.accountId].isCashBank then l.debit else 0
  }

  function CashOut(db: Db, scope: Scope, from: int, to: int): Line -> int {
    (l: Line) => if Within(db, l, scope, from, to) && db.accounts[l.accountId].isCashBank then l.credit else 0
  }

  /** Receipts are the debits, and payments the credits, that the period's entries put on cash and bank accounts. */
  lemma ReceiptsAre(db: Db, scope: Scope, from: int, to: int)
    requires LinesOk(db)
    ensures var q := Period(scope, from, to, ALL_TYPES).(onlyCashBank := true);
      && Total(db, q, DR) == SumBy(db.lines, CashIn(db, scope, from, to))
      && Total(db, q, CR) == SumBy(db.lines, CashOut(db, scope, from, to))
  {
    var q := Period(scope, from, to, ALL_TYPES).(onlyCashBank := true);
    forall l | l in db.lines
      ensures Pick(db, q, DR)(l) == CashIn(db, scope, from, to)(l)
      ensures Pick(db, q, CR)(l) == CashOut(db, scope, from, to)(l)
    {
      EveryType(db.accounts[l.accountId].kind);
    }
    SumExt(db.lines, Pick(db, q, DR), CashIn(db, scope, from, to));
    SumExt(db.lines, Pick(db, q, CR), CashOut(db, scope, from, to));
  }

  // ---- Receivables and payables ----

  function Owed(db: Db, scope: Scope, d: int): Line -> int {
    (l: Line) => if UpTo(db, l, scope, d) && db.accounts[l.accountId].isReceivable then l.debit - l.credit else 0
  }

  function Due(db: Db, scope: Scope, d: int): Line -> int {
    (l: Line) => if UpTo(db, l, scope, d) && db.accounts[l.accountId].isPayable then l.debit - l.credit else 0
  }

  /** Receivables are the net debits of the receivable accounts, payables the net of the payable ones. */
  lemma OutstandingIs(db: Db, scope: Scope, d: int)
    requires LinesOk(db)
    ensures Total(db, AsOf(scope, d, ALL_TYPES).(onlyReceivable := true), NET) == SumBy(db.lines, Owed(db, scope, d))
    ensures Total(db, AsOf(scope, d, ALL_TYPES).(onlyPayable := true), NET) == SumBy(db.lines, Due(db, scope, d))
  {
    var r, p := AsOf(scope, d, ALL_TYPES).(onlyReceivable := true), AsOf(scope, d, ALL_TYPES).(onlyPayable := true);
    forall l | l in db.lines
      ensures Pick(db, r, NET)(l) == Owed(db, scope, d)(l) && Pick(db, p, NET)(l) == Due(db, scope, d)(l)
    {
      EveryType(db.accounts[l.accountId].kind);
    }
    SumExt(db.lines, Pick(db, r, NET), Owed(db, scope, d));
    SumExt(db.lines, Pick(db, p, NET), Due(db, scope, d));
  }

  // ---- Profit and loss, balance sheet ----

  function KindIn(db: Db, scope: Scope, from: int, to: int, kind: AccountType): Line -> int {
    (l: Line) =>
      if Within(db, l, scope, from, to) && db.accounts[l.accountId].kind == kind then l.debit - l.credit else 0
  }

  function KindUpTo(db: Db, scope: Scope, d: int, kind: AccountType): Line -> int {
    (l: Line) => if UpTo(db, l, scope, d) && db.accounts[l.accountId].kind == kind then l.debit - l.credit else 0
  }

  lemma KindNets(db: Db, scope: Scope, from: int, to: int, kind: AccountType)
    requires LinesOk(db)
    ensures Total(db, Period(scope, from, to, {kind}), NET) == SumBy(db.lines, KindIn(db, scope, from, to, kind))
    ensures Total(db, AsOf(scope, to, {kind}), NET) == SumBy(db.lines, KindUpTo(db, scope, to, kind))
  {
    SumExt(db.lines, Pick(db, Period(scope, from, to, {kind}), NET), KindIn(db, scope, from, to, kind));
    SumExt(db.lines, Pick(db, AsOf(scope, to, {kind}), NET), KindUpTo(db, scope, to, kind));
  }

  /** Income is the period's net credit of income accounts, expense the net debit of expense accounts, and net profit
      the difference. */
  lemma ProfitIs(db: Db, scope: Scope, from: int, to: int)
    requires LinesOk(db)
    ensures var q := Period(scope, from, to, ALL_TYPES);
      var income, expense := KindIn(db, scope, from, to, Income), KindIn(db, scope, from, to, Expense);
      && TypeBalance(db, q, Income) == -SumBy(db.lines, income)
      && TypeBalance(db, q, Expense) == SumBy(db.lines, expense)
      && Earnings(db, q) == -SumBy(db.lines, income) - SumBy(db.lines, expense)
  {
    KindNets(db, scope, from, to, Income);
    KindNets(db, scope, from, to, Expense);
    TypeNet(db, Period(scope, from, to, ALL_TYPES), Income);
    TypeNet(db, Period(scope, from, to, ALL_TYPES), Expense);
  }

  /** Total assets are the net debits of asset accounts up to the day, liabilities and equity the net credits of theirs,
      and the earnings line the net credits of income less the net debits of expense accounts. */
  lemma SheetIs(db: Db, scope: Scope, d: int)
    requires LinesOk(db)
    ensures var q := AsOf(scope, d, ALL_TYPES);
      && TypeBalance(db, q, Asset) == SumBy(db.lines, KindUpTo(db, scope, d, Asset))
      && TypeBalance(db, q, Liability) == -SumBy(db.lines, KindUpTo(db, scope, d, Liability))
      && TypeBalance(db, q, Equity) == -SumBy(db.lines, KindUpTo(db, scope, d, Equity))
      && Earnings(db, q) == -SumBy(db.lines, KindUpTo(db, scope, d, Income))
                            - SumBy(db.lines, KindUpTo(db, scope, d, Expense))
  {
    var q := AsOf(scope, d, ALL_TYPES);
    KindNets(db, scope, d, d, Asset);
    KindNets(db, scope, d, d, Liability);
    KindNets(db, scope, d, d, Equity);
    KindNets(db, scope, d, d, Income);
    KindNets(db, scope, d, d, Expense);
    TypeNet(db, q, Asset);
    TypeNet(db, q, Liability);
    TypeNet(db, q, Equity);
  }

  // ---- Printed lines ----

  function AccountDebit(db: Db, scope: Scope, from: Option<int>, to: int, a: int): Line -> int {
    (l: Line) => if UpTo(db, l, scope, to) && (from.None? || from.value <= db.entries[l.journalId].date)
                    && l.accountId == a then l.debit else 0
  }

  function AccountCredit(db: Db, scope: Scope, from: Option<int>, to: int, a: int): Line -> int {
    (l: Line) => if UpTo(db, l, scope, to) && (from.None? || from.value <= db.entries[l.journalId].date)
                    && l.accountId == a then l.credit else 0
  }

  /** The report covers the days from from, if given, to to. */
  predicate Spans(q: Query, from: Option<int>, to: int) {
    (q.asOf == Some(to) && q.fromDate.None? && q.toDate.None? && from.None?)
    || (q.asOf.None? && q.fromDate == from && q.toDate == Some(to))
  }

  /** A printed line carries its account's row of the accounts table and the account's debits and credits in the
      report's days; its net is debit less credit, turned round on signed reports for liabilities, equity and income. */
  lemma ReportLineIs(db: Db, q: Query, signed: bool, lines: seq<ReportLine>, l: ReportLine, from: Option<int>, to: int)
    requires LinesOk(db) && IsReport(db, q, signed, lines) && l in lines && Spans(q, from, to) && q.account.None?
    ensures 0 <= l.accountId < |db.accounts| && l.account == db.accounts[l.accountId] && l.account.scope == q.scope
    ensures l.debit == SumBy(db.lines, AccountDebit(db, q.scope, from, to, l.accountId))
    ensures l.credit == SumBy(db.lines, AccountCredit(db, q.scope, from, to, l.accountId))
    ensures l.net == if signed && l.account.kind != Asset && l.account.kind != Expense then l.credit - l.debit
                     else l.debit - l.credit
  {
    var one := q.(account := Some(l.accountId));
    RowKind(db, q, GlRow(l.accountId, l.account, l.debit, l.credit));
    AccountSums(db, q, l.accountId, from, to);
  }

  lemma AccountSums(db: Db, q: Query, a: int, from: Option<int>, to: int)
    requires LinesOk(db) && Spans(q, from, to)
    requires 0 <= a < |db.accounts| && AccountFits(q, db.accounts[a])
    ensures Total(db, q.(account := Some(a)), DR) == SumBy(db.lines, AccountDebit(db, q.scope, from, to, a))
    ensures Total(db, q.(account := Some(a)), CR) == SumBy(db.lines, AccountCredit(db, q.scope, from, to, a))
  {
    var one := q.(account := Some(a));
    forall l | l in db.lines
      ensures Pick(db, one, DR)(l) == AccountDebit(db, q.scope, from, to, a)(l)
      ensures Pick(db, one, CR)(l) == AccountCredit(db, q.scope, from, to, a)(l)
    {
    }
    SumExt(db.lines, Pick(db, one, DR), AccountDebit(db, q.scope, from, to, a));
    SumExt(db.lines, Pick(db, one, CR), AccountCredit(db, q.scope, from, to, a));
  }

  /** The report lists every account of its types and flags that has a line in its days, and no other. */
  lemma ReportLists(db: Db, q: Query, signed: bool, lines: seq<ReportLine>, a: int, from: Option<int>, to: int)
    requires LinesOk(db) && IsReport(db, q, signed, lines) && Spans(q, from, to) && q.account.None?
    requires 0 <= a < |db.accounts|
    ensures Lists(lines, a) <==>
              && db.accounts[a].kind in q.types && (q.onlyCashBank ==> db.accounts[a].isCashBank)
              && (q.onlyReceivable ==> db.accounts[a].isReceivable) && (q.onlyPayable ==> db.accounts[a].isPayable)
              && exists l | l in db.lines ::
                   UpTo(db, l, q.scope, to) && (from.None? || from.value <= db.entries[l.journalId].date)
                   && l.accountId == a
  {
    if x :| x in lines && x.accountId == a {
      ListedHasLine(db, q, signed, lines, x, from, to);
    }
    if l :| l in db.lines && UpTo(db, l, q.scope, to) && (from.None? || from.value <= db.entries[l.journalId].date)
            && l.accountId == a && AccountFits(q, db.accounts[a]) {
      assert Matches(db, q.(account := Some(a)), l);
    }
  }

  lemma ListedHasLine(db: Db, q: Query, signed: bool, lines: seq<ReportLine>, x: ReportLine, from: Option<int>, to: int)
    requires IsReport(db, q, signed, lines) && x in lines && Spans(q, from, to)
    ensures 0 <= x.accountId < |db.accounts| && AccountFits(q, db.accounts[x.accountId])
    ensures exists l | l in db.lines ::
              UpTo(db, l, q.scope, to) && (from.None? || from.value <= db.entries[l.journalId].date)
              && l.accountId == x.accountId
  {
    RowKind(db, q, GlRow(x.accountId, x.account, x.debit, x.credit));
    var l :| l in db.lines && Matches(db, q.(account := Some(x.accountId)), l);
    assert UpTo(db, l, q.scope, to);
  }

  /** Stored line i is printed as l. */
  predicate Prints(db: Db, i: int, l: LedgerLine) {
    && 0 <= i < |db.lines| && 0 <= db.lines[i].journalId < |db.entries|
    && l.journalId == db.lines[i].journalId && l.debit == db.lines[i].debit && l.credit == db.lines[i].credit
    && l.date == db.entries[l.journalId].date && l.reference == db.entries[l.journalId].reference
    && l.description == db.entries[l.journalId].description
  }

  /** The stored lines that the ledger prints, in its order. */
  ghost predicate IsPrintOrder(db: Db, scope: Scope, a: int, ids: seq<int>, out: seq<LedgerLine>) {
    && |ids| == |out|
    && (forall i :: i in ids <==> 0 <= i < |db.lines| && db.lines[i].scope == scope && db.lines[i].accountId == a)
    && (forall k | 0 <= k < |out| :: Prints(db, ids[k], out[k]))
    && forall j, k | 0 <= j < k < |out| :: out[j].date < out[k].date || (out[j].date == out[k].date && ids[j] < ids[k])
  }

  /** The ledger prints exactly the account's lines in the scope, by entry date and then line id, each with its entry's
      date, reference and description and its own amounts. */
  lemma LedgerPrints(db: Db, scope: Scope, a: int, out: seq<LedgerLine>)
    requires LinesOk(db) && IsLedger(db, LedgerQuery(scope, a), out)
    ensures exists ids :: IsPrintOrder(db, scope, a, ids, out)
  {
    var q := LedgerQuery(scope, a);
    var ids := OrderedIds(db, q, |db.lines|);
    OrderedLedger(db, q, |db.lines|);
    forall i ensures i in ids <==> 0 <= i < |db.lines| && db.lines[i].scope == scope && db.lines[i].accountId == a {
      if 0 <= i < |db.lines| {
        assert db.lines[i] in db.lines;
        EveryType(db.accounts[db.lines[i].accountId].kind);
      }
    }
    forall k | 0 <= k < |out| ensures Prints(db, ids[k], out[k]) && out[k].date == LineDate(db, ids[k]) {
      assert out[k] == LineAt(db, ids, k);
    }
    assert IsPrintOrder(db, scope, a, ids, out);
  }

  /** The running balance grows by debit less credit from line to line, from zero. */
  lemma LedgerRuns(db: Db, scope: Scope, a: int, out: seq<LedgerLine>, k: nat)
    requires IsLedger(db, LedgerQuery(scope, a), out) && k < |out|
    ensures out[k].running == (if k == 0 then 0 else out[k - 1].running) + out[k].debit - out[k].credit
  {
    var ids := OrderedIds(db, LedgerQuery(scope, a), |db.lines|);
    assert out[k] == LineAt(db, ids, k);
    SumStep(ids, k, NetAt(db));
    if k > 0 {
      assert out[k - 1] == LineAt(db, ids, k - 1);
    } else {
      assert ids[..k] == [];
    }
  }
}
