// The lines of the printed reports, and how any two reports agree.
module Statements {
  import opened Wrappers
  import opened Seqs
  import opened Sums
  import opened Tables
  import opened Reports

  /** One line of a report; net is debit less credit, or the balance on the account's normal side when signed. */
  datatype ReportLine = ReportLine(accountId: int, account: Account, debit: int, credit: int, net: int)

  datatype LedgerLine = LedgerLine(
    journalId: int, date: int, reference: Option<string>, description: Option<string>,
    debit: int, credit: int, running: int)

  function Present(r: GlRow, signed: bool): ReportLine {
    ReportLine(r.accountId, r.account, r.debitTotal, r.creditTotal,
      if signed then Balance(r.account.kind, r.debitTotal, r.creditTotal) else r.debitTotal - r.creditTotal)
  }

  function Select(rows: seq<GlRow>, kinds: set<AccountType>, signed: bool): seq<ReportLine> {
    if |rows| == 0 then []
    else
      var last := rows[|rows| - 1];
      Select(rows[..|rows| - 1], kinds, signed) + if last.account.kind in kinds then [Present(last, signed)] else []
  }

  predicate Lists(lines: seq<ReportLine>, a: int) {
    exists l | l in lines :: l.accountId == a
  }

  ghost predicate IsReportLine(db: Db, q: Query, signed: bool, l: ReportLine) {
    && IsRow(db, q, GlRow(l.accountId, l.account, l.debit, l.credit)) && l.account.kind in q.types
    && l.net == if signed then Balance(l.account.kind, l.debit, l.credit) else l.debit - l.credit
  }

  /** Every account with a matching line appears exactly once, with its own sums; no other account appears. */
  ghost predicate IsReport(db: Db, q: Query, signed: bool, lines: seq<ReportLine>) {
    && (forall i, j :: 0 <= i < j < |lines| ==> lines[i].accountId != lines[j].accountId)
    && (forall l | l in lines :: IsReportLine(db, q, signed, l))
    && forall a | 0 <= a < |db.accounts| && HasLine(db, q.(account := Some(a))) :: Lists(lines, a)
  }

  lemma {:induction false} SelectLines(rows: seq<GlRow>, kinds: set<AccountType>, signed: bool)
    requires NoDup(RowIds(rows))
    ensures forall l | l in Select(rows, kinds, signed) :: exists r | r in rows ::
              r.account.kind in kinds && l == Present(r, signed)
    ensures forall r | r in rows && r.account.kind in kinds :: Present(r, signed) in Select(rows, kinds, signed)
    ensures forall i, j :: 0 <= i < j < |Select(rows, kinds, signed)| ==>
              Select(rows, kinds, signed)[i].accountId != Select(rows, kinds, signed)[j].accountId
  {
    if |rows| == 0 {
    } else {
      var prev, last := rows[..|rows| - 1], rows[|rows| - 1];
      assert RowIds(prev) == RowIds(rows)[..|prev|];
      SelectLines(prev, kinds, signed);
      var lines := Select(prev, kinds, signed);
      forall i | 0 <= i < |lines| ensures lines[i].accountId != last.accountId {
        assert lines[i] in lines;
        var r :| r in prev && lines[i] == Present(r, signed);
        var k :| 0 <= k < |prev| && prev[k] == r;
        assert RowIds(rows)[k] != RowIds(rows)[|prev|];
      }
    }
  }

  lemma SelectIsReport(db: Db, q: Query, rows: seq<GlRow>, kinds: set<AccountType>, signed: bool)
    requires q.account.None? && IsGlResult(db, q, rows)
    ensures IsReport(db, q.(types := q.types * kinds), signed, Select(rows, kinds, signed))
  {
    var sub, lines := q.(types := q.types * kinds), Select(rows, kinds, signed);
    SelectLines(rows, kinds, signed);
    forall l | l in lines ensures IsReportLine(db, sub, signed, l) {
      var r :| r in rows && r.account.kind in kinds && l == Present(r, signed);
      RowInKinds(db, q, r, kinds);
    }
    forall a | 0 <= a < |db.accounts| && HasLine(db, sub.(account := Some(a))) ensures Lists(lines, a) {
      var l :| l in db.lines && Matches(db, sub.(account := Some(a)), l);
      assert Matches(db, q.(account := Some(a)), l);
      assert a in RowIds(rows);
      var i :| 0 <= i < |rows| && RowIds(rows)[i] == a;
      assert rows[i] in rows;
      assert Present(rows[i], signed) in lines;
    }
  }

  lemma RowInKinds(db: Db, q: Query, r: GlRow, kinds: set<AccountType>)
    requires IsRow(db, q, r) && r.account.kind in kinds
    ensures IsRow(db, q.(types := q.types * kinds), r) && r.account.kind in q.types
  {
    KindTotal(db, q, r, kinds, DR);
    KindTotal(db, q, r, kinds, CR);
    var l :| l in db.lines && Matches(db, q.(account := Some(r.accountId)), l);
    assert Matches(db, q.(types := q.types * kinds).(account := Some(r.accountId)), l);
  }

  // ---- Agreement ----

  /** Once the account is fixed, the account-side filters of a query do not change what it sums. */
  lemma FilterIrrelevant(db: Db, q: Query, p: Query, a: int, amount: Line -> int)
    requires 0 <= a < |db.accounts| && AccountFits(q, db.accounts[a]) && AccountFits(p, db.accounts[a])
    requires q.fromDate == p.fromDate && q.toDate == p.toDate && q.asOf == p.asOf
    ensures Total(db, q.(account := Some(a)), amount) == Total(db, p.(account := Some(a)), amount)
    ensures HasLine(db, q.(account := Some(a))) <==> HasLine(db, p.(account := Some(a)))
  {
    var q', p' := q.(account := Some(a)), p.(account := Some(a));
    assert forall l :: Matches(db, q', l) <==> Matches(db, p', l);
    SumExt(db.lines, Pick(db, q', amount), Pick(db, p', amount));
  }

  /** Any two reports of one scope over the same dates list the same accounts, as far as their filters both admit them,
      and print the same debit and credit totals for them. */
  lemma ReportsAgree(db: Db, q: Query, p: Query, signedQ: bool, signedP: bool, ql: seq<ReportLine>,
      pl: seq<ReportLine>, a: int)
    requires IsReport(db, q, signedQ, ql) && IsReport(db, p, signedP, pl)
    requires q.fromDate == p.fromDate && q.toDate == p.toDate && q.asOf == p.asOf && q.account.None? && p.account.None?
    requires 0 <= a < |db.accounts| && AccountFits(q, db.accounts[a]) && AccountFits(p, db.accounts[a])
    ensures Lists(ql, a) <==> Lists(pl, a)
    ensures forall x, y | x in ql && y in pl && x.accountId == y.accountId == a ::
              x.debit == y.debit && x.credit == y.credit && (signedQ == signedP ==> x == y)
  {
    FilterIrrelevant(db, q, p, a, DR);
    FilterIrrelevant(db, q, p, a, CR);
  }

  // ---- Ledger against trial balance ----

  function LineAt(db: Db, ids: seq<int>, k: nat): LedgerLine
    requires k < |ids| && 0 <= ids[k] < |db.lines| && 0 <= db.lines[ids[k]].journalId < |db.entries|
  {
    var l := db.lines[ids[k]];
    var e := db.entries[l.journalId];
    LedgerLine(l.journalId, e.date, e.reference, e.description, l.debit, l.credit, Running(db, ids, k))
  }

  /** The account's lines in date order, each with the balance so far. */
  ghost predicate IsLedger(db: Db, q: Query, out: seq<LedgerLine>) {
    var ids := OrderedIds(db, q, |db.lines|);
    && |out| == |ids|
    && forall k | 0 <= k < |ids| ::
         0 <= ids[k] < |db.lines| && 0 <= db.lines[ids[k]].journalId < |db.entries| && out[k] == LineAt(db, ids, k)
  }

  function LedgerQuery(scope: Scope, a: int): Query {
    Query(scope, None, None, None, ALL_TYPES, false, false, false, Some(a))
  }

  /** The last ledger line dated at most d carries the account's net balance in the trial balance as of d; the account
      is missing from that trial balance exactly when the ledger has no such line. */
  lemma LedgerMatchesTrialBalance(db: Db, scope: Scope, a: int, d: int, ledger: seq<LedgerLine>, trial: seq<ReportLine>)
    requires 0 <= a < |db.accounts|
    requires IsLedger(db, LedgerQuery(scope, a), ledger)
    requires IsReport(db, AsOf(scope, d, ALL_TYPES), false, trial)
    ensures Lists(trial, a) <==> exists k :: 0 <= k < |ledger| && ledger[k].date <= d
    ensures forall k, t | 0 <= k < |ledger| && ledger[k].date <= d
              && (forall j | k < j < |ledger| :: ledger[j].date > d)
                          && t in trial && t.accountId == a ::
              ledger[k].running == t.net
  {
    LedgerCovers(db, scope, a, d, ledger);
    forall k, t | 0 <= k < |ledger| && ledger[k].date <= d && (forall j | k < j < |ledger| :: ledger[j].date > d)
                  && t in trial && t.accountId == a
      ensures ledger[k].running == t.net
    {
      LastLineNet(db, scope, a, d, ledger, k);
      NetSplit(db, AsOf(scope, d, ALL_TYPES).(account := Some(a)));
    }
  }

  lemma LedgerCovers(db: Db, scope: Scope, a: int, d: int, ledger: seq<LedgerLine>)
    requires IsLedger(db, LedgerQuery(scope, a), ledger)
    ensures HasLine(db, AsOf(scope, d, ALL_TYPES).(account := Some(a))) <==>
            exists k :: 0 <= k < |ledger| && ledger[k].date <= d
  {
    var q, one := LedgerQuery(scope, a), AsOf(scope, d, ALL_TYPES).(account := Some(a));
    var ids := OrderedIds(db, q, |db.lines|);
    OrderedLedger(db, q, |db.lines|);
    if l :| l in db.lines && Matches(db, one, l) {
      var i :| 0 <= i < |db.lines| && db.lines[i] == l;
      assert Matches(db, q, db.lines[i]) && i in ids;
      var k :| 0 <= k < |ids| && ids[k] == i;
      assert ledger[k] == LineAt(db, ids, k);
    }
    if k :| 0 <= k < |ledger| && ledger[k].date <= d {
      assert ids[k] in ids && ledger[k] == LineAt(db, ids, k);
      assert Matches(db, one, db.lines[ids[k]]);
    }
  }

  lemma LastLineNet(db: Db, scope: Scope, a: int, d: int, ledger: seq<LedgerLine>, k: nat)
    requires IsLedger(db, LedgerQuery(scope, a), ledger)
    requires k < |ledger| && ledger[k].date <= d && forall j | k < j < |ledger| :: ledger[j].date > d
    ensures ledger[k].running == Total(db, AsOf(scope, d, ALL_TYPES).(account := Some(a)), NET)
  {
    var q := LedgerQuery(scope, a);
    var ids := OrderedIds(db, q, |db.lines|);
    forall j | k <= j < |ids| ensures ledger[j].date == LineDate(db, ids[j]) {
      assert ledger[j] == LineAt(db, ids, j);
    }
    assert LastUpTo(db, ids, d, k);
    RunningIsNet(db, q, d, k);
    assert q.(asOf := Some(d)) == AsOf(scope, d, ALL_TYPES).(account := Some(a));
  }

  /** Net receipts of a period are the change in the cash and bank accounts' total net balance. */
  lemma ReceiptsAreCashChange(db: Db, scope: Scope, d1: int, d2: int)
    requires d1 <= d2
    ensures Total(db, Period(scope, d1 + 1, d2, ALL_TYPES).(onlyCashBank := true), NET)
         == Total(db, AsOf(scope, d2, ALL_TYPES).(onlyCashBank := true), NET)
            - Total(db, AsOf(scope, d1, ALL_TYPES).(onlyCashBank := true), NET)
  {
    PeriodIsDifference(db, Query(scope, None, None, None, ALL_TYPES, true, false, false, None), d1, d2, NET);
  }

  // ---- Totals accumulated over report rows ----

  const ROW_DEBIT: GlRow -> int := (r: GlRow) => r.debitTotal
  const ROW_CREDIT: GlRow -> int := (r: GlRow) => r.creditTotal
  const ROW_BALANCE: GlRow -> int := (r: GlRow) => Balance(r.account.kind, r.debitTotal, r.creditTotal)

  function KindBalance(kind: AccountType): GlRow -> int {
    (r: GlRow) => if r.account.kind == kind then Balance(kind, r.debitTotal, r.creditTotal) else 0
  }

  /** The balance of one account type on its normal side, straight from the lines. */
  function TypeBalance(db: Db, q: Query, kind: AccountType): int {
    Balance(kind, Total(db, q.(types := {kind}), DR), Total(db, q.(types := {kind}), CR))
  }

  lemma RowKind(db: Db, q: Query, r: GlRow)
    requires IsRow(db, q, r)
    ensures r.account.kind in q.types && AccountFits(q, r.account)
  {
    var l :| l in db.lines && Matches(db, q.(account := Some(r.accountId)), l);
  }

  /** Report totals over rows are sums over the matching lines. */
  lemma DebitCreditTotals(db: Db, q: Query, rows: seq<GlRow>)
    requires q.account.None? && IsGlResult(db, q, rows)
    ensures SumBy(rows, ROW_DEBIT) == Total(db, q, DR) && SumBy(rows, ROW_CREDIT) == Total(db, q, CR)
  {
    forall r | r in rows ensures r.account.kind in q.types { RowKind(db, q, r); }
    RowsTotal(db, q, rows, q.types, DR, ROW_DEBIT);
    RowsTotal(db, q, rows, q.types, CR, ROW_CREDIT);
    assert q.(types := q.types * q.types) == q;
  }

  lemma KindTotals(db: Db, q: Query, rows: seq<GlRow>, kind: AccountType)
    requires q.account.None? && IsGlResult(db, q, rows) && kind in q.types
    ensures SumBy(rows, KindBalance(kind)) == TypeBalance(db, q, kind)
  {
    var dr := (r: GlRow) => if r.account.kind == kind then r.debitTotal else 0;
    var cr := (r: GlRow) => if r.account.kind == kind then r.creditTotal else 0;
    RowsTotal(db, q, rows, {kind}, DR, dr);
    RowsTotal(db, q, rows, {kind}, CR, cr);
    assert q.types * {kind} == {kind};
    if kind in {Asset, Expense} {
      SumAdd(rows, KindBalance(kind), cr, dr);
    } else {
      SumAdd(rows, KindBalance(kind), dr, cr);
    }
  }

  /** Restricted to accounts of one normal side, the printed balances add up to that side's net. */
  lemma BalanceTotals(db: Db, q: Query, rows: seq<GlRow>, kind: AccountType)
    requires q.account.None? && IsGlResult(db, q, rows)
    requires forall r | r in rows :: r.account.kind == kind
    ensures SumBy(rows, ROW_BALANCE) == Balance(kind, Total(db, q, DR), Total(db, q, CR))
  {
    DebitCreditTotals(db, q, rows);
    if kind in {Asset, Expense} {
      SumAdd(rows, ROW_BALANCE, ROW_CREDIT, ROW_DEBIT);
    } else {
      SumAdd(rows, ROW_BALANCE, ROW_DEBIT, ROW_CREDIT);
    }
  }

  lemma TypeNet(db: Db, q: Query, kind: AccountType)
    ensures TypeBalance(db, q, kind)
         == if kind in {Asset, Expense} then Total(db, q.(types := {kind}), NET)
             else -Total(db, q.(types := {kind}), NET)
  {
    NetSplit(db, q.(types := {kind}));
  }

  lemma SelectStep(rows: seq<GlRow>, i: nat, kinds: set<AccountType>, signed: bool)
    requires i < |rows|
    ensures Select(rows[..i + 1], kinds, signed)
         == Select(rows[..i], kinds, signed) + if rows[i].account.kind in kinds then [Present(rows[i], signed)] else []
  {
    assert rows[..i + 1][..i] == rows[..i];
  }
}
