// The join of accounts, entries and lines that every report reads, and the laws that tie the reports together.
module Reports {
  import opened Wrappers
  import opened Seqs
  import opened Sums
  import opened Tables

  const ALL_TYPES: set<AccountType> := {Asset, Liability, Equity, Income, Expense}

  /** The WHERE clause of _gl_sums_by_account; account picks one group. */
  datatype Query = Query(
    scope: Scope, fromDate: Option<int>, toDate: Option<int>, asOf: Option<int>, types: set<AccountType>,
    onlyCashBank: bool, onlyReceivable: bool, onlyPayable: bool, account: Option<int>)

  function AsOf(scope: Scope, d: int, types: set<AccountType>): Query {
    Query(scope, None, None, Some(d), types, false, false, false, None)
  }

  function Period(scope: Scope, from: int, to: int, types: set<AccountType>): Query {
    Query(scope, Some(from), Some(to), None, types, false, false, false, None)
  }

  predicate InDates(q: Query, date: int) {
    && (q.fromDate.Some? ==> q.fromDate.value <= date)
    && (q.toDate.Some? ==> date <= q.toDate.value)
    && (q.asOf.Some? ==> date <= q.asOf.value)
  }

  predicate AccountFits(q: Query, a: Account) {
    && a.scope == q.scope && a.kind in q.types
    && (q.onlyCashBank ==> a.isCashBank) && (q.onlyReceivable ==> a.isReceivable) && (q.onlyPayable ==> a.isPayable)
  }

  /** The inner join: the line, its entry and its account all lie in the scope and meet the conditions. */
  predicate Matches(db: Db, q: Query, l: Line) {
    && 0 <= l.journalId < |db.entries| && 0 <= l.accountId < |db.accounts|
    && l.scope == q.scope && db.entries[l.journalId].scope == q.scope
    && AccountFits(q, db.accounts[l.accountId])
    && InDates(q, db.entries[l.journalId].date)
    && (q.account.Some? ==> q.account.value == l.accountId)
  }

  predicate HasLine(db: Db, q: Query) {
    exists l | l in db.lines :: Matches(db, q, l)
  }

  function Pick(db: Db, q: Query, amount: Line -> int): Line -> int {
    (l: Line) => if Matches(db, q, l) then amount(l) else 0
  }

  /** SUM(amount) over the joined lines. */
  function Total(db: Db, q: Query, amount: Line -> int): int {
    SumBy(db.lines, Pick(db, q, amount))
  }

  // ---- GROUP BY account ----

  datatype GlRow = GlRow(accountId: int, account: Account, debitTotal: int, creditTotal: int)

  predicate IsRow(db: Db, q: Query, r: GlRow) {
    && 0 <= r.accountId < |db.accounts| && r.account == db.accounts[r.accountId]
    && HasLine(db, q.(account := Some(r.accountId)))
    && r.debitTotal == Total(db, q.(account := Some(r.accountId)), DR)
    && r.creditTotal == Total(db, q.(account := Some(r.accountId)), CR)
  }

  function RowIds(rows: seq<GlRow>): (r: seq<int>)
    ensures |r| == |rows| && forall i :: 0 <= i < |r| ==> r[i] == rows[i].accountId
  {
    seq(|rows|, i requires 0 <= i < |rows| => rows[i].accountId)
  }

  /** One row per account that has a matching line, in any order. */
  ghost predicate IsGlResult(db: Db, q: Query, rows: seq<GlRow>) {
    && NoDup(RowIds(rows))
    && (forall r | r in rows :: IsRow(db, q, r))
    && forall a | 0 <= a < |db.accounts| && HasLine(db, q.(account := Some(a))) :: a in RowIds(rows)
  }

  function RowFor(db: Db, q: Query, a: nat): GlRow
    requires a < |db.accounts|
  {
    GlRow(a, db.accounts[a], Total(db, q.(account := Some(a)), DR), Total(db, q.(account := Some(a)), CR))
  }

  function Grouped(db: Db, q: Query, n: nat): seq<GlRow>
    requires n <= |db.accounts|
  {
    if n == 0 then []
    else if HasLine(db, q.(account := Some(n - 1))) then Grouped(db, q, n - 1) + [RowFor(db, q, n - 1)]
    else Grouped(db, q, n - 1)
  }

  lemma {:induction false} GroupedRows(db: Db, q: Query, n: nat)
    requires n <= |db.accounts|
    ensures forall r | r in Grouped(db, q, n) :: IsRow(db, q, r) && r.accountId < n
    ensures NoDup(RowIds(Grouped(db, q, n)))
    ensures forall a | 0 <= a < n && HasLine(db, q.(account := Some(a))) :: a in RowIds(Grouped(db, q, n))
  {
    if n > 0 {
      GroupedRows(db, q, n - 1);
      if HasLine(db, q.(account := Some(n - 1))) {
        AddRow(db, q, Grouped(db, q, n - 1), RowFor(db, q, n - 1));
      }
    }
  }

  lemma AddRow(db: Db, q: Query, rows: seq<GlRow>, r: GlRow)
    requires NoDup(RowIds(rows)) && forall x | x in rows :: x.accountId < r.accountId
    ensures NoDup(RowIds(rows + [r]))
    ensures forall a :: a in RowIds(rows + [r]) <==> a in RowIds(rows) || a == r.accountId
  {
    assert forall i | 0 <= i < |rows| :: rows[i] in rows;
    assert RowIds(rows + [r]) == RowIds(rows) + [r.accountId];
  }

  lemma GroupedIsResult(db: Db, q: Query)
    ensures IsGlResult(db, q, Grouped(db, q, |db.accounts|))
  {
    GroupedRows(db, q, |db.accounts|);
  }

  lemma GroupTotal(db: Db, q: Query, a: int, amount: Line -> int)
    requires q.account.None?
    ensures SliceSum(db.lines, ACCOUNT, Pick(db, q, amount))(a) == Total(db, q.(account := Some(a)), amount)
  {
    var f, g := Slice(ACCOUNT, Pick(db, q, amount), a), Pick(db, q.(account := Some(a)), amount);
    assert forall l :: Matches(db, q.(account := Some(a)), l) <==> Matches(db, q, l) && l.accountId == a;
    assert forall l | l in db.lines :: f(l) == g(l);
    SumExt(db.lines, f, g);
  }

  /** Adding up the rows of the chosen account types gives the sum over the matching lines of those types. */
  lemma RowsTotal(db: Db, q: Query, rows: seq<GlRow>, kinds: set<AccountType>, amount: Line -> int, g: GlRow -> int)
    requires q.account.None? && IsGlResult(db, q, rows)
    requires forall r | r in rows ::
               g(r) == if r.account.kind in kinds then Total(db, q.(account := Some(r.accountId)), amount) else 0
    ensures SumBy(rows, g) == Total(db, q.(types := q.types * kinds), amount)
  {
    var sub := q.(types := q.types * kinds);
    var f, ids := Pick(db, sub, amount), RowIds(rows);
    forall l | l in db.lines && f(l) != 0 ensures l.accountId in ids {
      assert Matches(db, q.(account := Some(l.accountId)), l);
    }
    SumGroup(db.lines, ids, ACCOUNT, f);
    var h := SliceSum(db.lines, ACCOUNT, f);
    forall i | 0 <= i < |rows| ensures g(rows[i]) == h(ids[i]) {
      assert rows[i] in rows;
      GroupTotal(db, sub, ids[i], amount);
      KindTotal(db, q, rows[i], kinds, amount);
    }
    SumZip(rows, ids, g, h);
  }

  lemma KindTotal(db: Db, q: Query, r: GlRow, kinds: set<AccountType>, amount: Line -> int)
    requires IsRow(db, q, r)
    ensures Total(db, q.(types := q.types * kinds).(account := Some(r.accountId)), amount)
         == if r.account.kind in kinds then Total(db, q.(account := Some(r.accountId)), amount) else 0
  {
    var one, sub := q.(account := Some(r.accountId)), q.(types := q.types * kinds).(account := Some(r.accountId));
    if r.account.kind in kinds {
      assert forall l :: Matches(db, one, l) <==> Matches(db, sub, l);
      assert forall l | l in db.lines :: Pick(db, one, amount)(l) == Pick(db, sub, amount)(l);
      SumExt(db.lines, Pick(db, one, amount), Pick(db, sub, amount));
    } else {
      assert forall l :: !Matches(db, sub, l);
      SumZero(db.lines, Pick(db, sub, amount));
    }
  }

  lemma NetSplit(db: Db, q: Query)
    ensures Total(db, q, NET) == Total(db, q, DR) - Total(db, q, CR)
  {
    SumAdd(db.lines, Pick(db, q, NET), Pick(db, q, CR), Pick(db, q, DR));
  }

  lemma TypesAdd(db: Db, q: Query, k1: set<AccountType>, k2: set<AccountType>, amount: Line -> int)
    requires k1 !! k2
    ensures Total(db, q.(types := k1 + k2), amount)
         == Total(db, q.(types := k1), amount) + Total(db, q.(types := k2), amount)
  {
    var q1, q2, q3 := q.(types := k1), q.(types := k2), q.(types := k1 + k2);
    assert forall l :: Matches(db, q3, l) <==> Matches(db, q1, l) || Matches(db, q2, l);
    assert forall l :: !(Matches(db, q1, l) && Matches(db, q2, l));
    SumAdd(db.lines, Pick(db, q1, amount), Pick(db, q2, amount), Pick(db, q3, amount));
  }

  // ---- The accounting equation ----

  /** Up to any date the debits and credits of a scope cancel, because entries balance and never straddle scopes or
      dates. */
  lemma NothingLost(db: Db, scope: Scope, d: int)
    requires WellFormed(db)
    ensures Total(db, AsOf(scope, d, ALL_TYPES), NET) == 0
  {
    var q := AsOf(scope, d, ALL_TYPES);
    var f, ids := Pick(db, q, NET), Range(|db.entries|);
    var keys: seq<int> := ids;
    assert NoDup(keys);
    forall l | l in db.lines && f(l) != 0 ensures l.journalId in keys {
      assert keys[l.journalId] == l.journalId;
    }
    SumGroup(db.lines, keys, JOURNAL, f);
    forall e | e in keys ensures SliceSum(db.lines, JOURNAL, f)(e) == 0 {
      EntryCancels(db, q, e);
    }
    SumZero(keys, SliceSum(db.lines, JOURNAL, f));
  }

  lemma EveryType(kind: AccountType)
    ensures kind in ALL_TYPES
  {
    match kind
    case Asset => case Liability => case Equity => case Income => case Expense =>
  }

  lemma EntryCancels(db: Db, q: Query, e: int)
    requires WellFormed(db) && 0 <= e < |db.entries| && q.types == ALL_TYPES
    requires q == AsOf(q.scope, q.asOf.GetOr(0), ALL_TYPES)
    ensures SumBy(db.lines, Slice(JOURNAL, Pick(db, q, NET), e)) == 0
  {
    var f := Slice(JOURNAL, Pick(db, q, NET), e);
    if db.entries[e].scope == q.scope && InDates(q, db.entries[e].date) {
      forall l | l in db.lines && l.journalId == e ensures Matches(db, q, l) {
        EveryType(db.accounts[l.accountId].kind);
      }
      SumAdd(db.lines, f, Slice(JOURNAL, CR, e), Slice(JOURNAL, DR, e));
    } else {
      SumZero(db.lines, f);
    }
  }

  function Balance(kind: AccountType, debit: int, credit: int): int {
    if kind in {Asset, Expense} then debit - credit else credit - debit
  }

  /** Net profit over a query's dates: income less expense. */
  function Earnings(db: Db, q: Query): int {
    -Total(db, q.(types := {Income}), NET) - Total(db, q.(types := {Expense}), NET)
  }

  /** Assets equal liabilities plus equity plus unclosed earnings. */
  lemma AccountingEquation(db: Db, scope: Scope, d: int)
    requires WellFormed(db)
    ensures Total(db, AsOf(scope, d, {Asset}), NET)
         == -Total(db, AsOf(scope, d, {Liability}), NET) - Total(db, AsOf(scope, d, {Equity}), NET)
            + Earnings(db, AsOf(scope, d, ALL_TYPES))
  {
    var q := AsOf(scope, d, ALL_TYPES);
    NothingLost(db, scope, d);
    TypesAdd(db, q, {Asset}, {Liability}, NET);
    TypesAdd(db, q, {Asset} + {Liability}, {Equity}, NET);
    TypesAdd(db, q, {Asset} + {Liability} + {Equity}, {Income}, NET);
    TypesAdd(db, q, {Asset} + {Liability} + {Equity} + {Income}, {Expense}, NET);
    assert {Asset} + {Liability} + {Equity} + {Income} + {Expense} == ALL_TYPES;
  }

  // ---- Reports over adjoining periods ----

  /** Totals up to d2 split at d1: whatever the account filter, a period's total is the change in the running totals. */
  lemma PeriodIsDifference(db: Db, q: Query, d1: int, d2: int, amount: Line -> int)
    requires d1 <= d2 && q.fromDate.None? && q.toDate.None? && q.asOf.None?
    ensures Total(db, q.(fromDate := Some(d1 + 1), toDate := Some(d2)), amount)
         == Total(db, q.(asOf := Some(d2)), amount) - Total(db, q.(asOf := Some(d1)), amount)
  {
    var p, q1, q2 := q.(fromDate := Some(d1 + 1), toDate := Some(d2)), q.(asOf := Some(d1)), q.(asOf := Some(d2));
    assert forall l :: Matches(db, q2, l) <==> Matches(db, p, l) || Matches(db, q1, l);
    assert forall l :: !(Matches(db, p, l) && Matches(db, q1, l));
    SumAdd(db.lines, Pick(db, p, amount), Pick(db, q1, amount), Pick(db, q2, amount));
  }

  /** Net profit for the days after d1 up to d2 is the growth of the balance sheet's unclosed earnings. */
  lemma ProfitComposes(db: Db, scope: Scope, d1: int, d2: int)
    requires d1 <= d2
    ensures Earnings(db, Period(scope, d1 + 1, d2, ALL_TYPES))
         == Earnings(db, AsOf(scope, d2, ALL_TYPES)) - Earnings(db, AsOf(scope, d1, ALL_TYPES))
  {
    var base := Query(scope, None, None, None, ALL_TYPES, false, false, false, None);
    PeriodIsDifference(db, base.(types := {Income}), d1, d2, NET);
    PeriodIsDifference(db, base.(types := {Expense}), d1, d2, NET);
  }

  // ---- Account ledgers ----

  function LineDate(db: Db, i: int): int {
    if 0 <= i < |db.lines| && 0 <= db.lines[i].journalId < |db.entries| then db.entries[db.lines[i].journalId].date
        else 0
  }

  predicate Before(db: Db, i: int, j: int) {
    LineDate(db, i) < LineDate(db, j) || (LineDate(db, i) == LineDate(db, j) && i < j)
  }

  function InsertByDate(db: Db, ids: seq<int>, i: int): (r: seq<int>)
    ensures multiset(r) == multiset(ids) + multiset{i}
    ensures |r| == |ids| + 1
  {
    if |ids| == 0 || Before(db, ids[|ids| - 1], i) then ids + [i]
    else
      assert ids == ids[..|ids| - 1] + [ids[|ids| - 1]];
      InsertByDate(db, ids[..|ids| - 1], i) + [ids[|ids| - 1]]
  }

  /** ORDER BY entry_date, line id over the matching lines among the first n. */
  function OrderedIds(db: Db, q: Query, n: nat): seq<int>
    requires n <= |db.lines|
  {
    if n == 0 then []
    else if Matches(db, q, db.lines[n - 1]) then InsertByDate(db, OrderedIds(db, q, n - 1), n - 1)
    else OrderedIds(db, q, n - 1)
  }

  predicate Sorted(db: Db, ids: seq<int>) {
    forall j, k :: 0 <= j < k < |ids| ==> Before(db, ids[j], ids[k])
  }

  lemma {:induction false} InsertSorted(db: Db, ids: seq<int>, i: int)
    requires Sorted(db, ids) && i !in ids
    ensures Sorted(db, InsertByDate(db, ids, i))
  {
    if |ids| == 0 {
    } else if Before(db, ids[|ids| - 1], i) {
      assert forall k | 0 <= k < |ids| :: Before(db, ids[k], i);
    } else {
      var rest, last := ids[..|ids| - 1], ids[|ids| - 1];
      InsertSorted(db, rest, i);
      var r := InsertByDate(db, rest, i);
      forall k | 0 <= k < |r| ensures Before(db, r[k], last) {
        assert r[k] in multiset(r);
        assert r[k] in rest || r[k] == i;
        assert last in ids;
      }
    }
  }

  lemma InsertMembers(db: Db, ids: seq<int>, i: int)
    ensures forall x :: x in InsertByDate(db, ids, i) <==> x in ids || x == i
  {
    var r := InsertByDate(db, ids, i);
    forall x ensures x in r <==> x in ids || x == i {
      assert x in r <==> x in multiset(r);
      assert x in ids <==> x in multiset(ids);
    }
  }

  lemma {:induction false} InsertSum(db: Db, ids: seq<int>, i: int, f: int -> int)
    ensures SumBy(InsertByDate(db, ids, i), f) == SumBy(ids, f) + f(i)
  {
    if |ids| == 0 || Before(db, ids[|ids| - 1], i) {
      assert (ids + [i])[..|ids|] == ids;
    } else {
      var rest, last := ids[..|ids| - 1], ids[|ids| - 1];
      InsertSum(db, rest, i, f);
      var r := InsertByDate(db, rest, i);
      assert (r + [last])[..|r|] == r;
    }
  }

  /** The ordered ledger holds exactly the matching lines, once each, by date and then by line id. */
  lemma {:induction false} OrderedLedger(db: Db, q: Query, n: nat)
    requires n <= |db.lines|
    ensures forall i :: i in OrderedIds(db, q, n) <==> 0 <= i < n && Matches(db, q, db.lines[i])
    ensures Sorted(db, OrderedIds(db, q, n))
  {
    if n > 0 {
      OrderedLedger(db, q, n - 1);
      if Matches(db, q, db.lines[n - 1]) {
        var prev := OrderedIds(db, q, n - 1);
        InsertSorted(db, prev, n - 1);
        InsertMembers(db, prev, n - 1);
      }
    }
  }

  function NetAt(db: Db): int -> int {
    (i: int) => if 0 <= i < |db.lines| then db.lines[i].debit - db.lines[i].credit else 0
  }

  function NetUpTo(db: Db, d: int): int -> int {
    (i: int) => if LineDate(db, i) <= d && 0 <= i < |db.lines| then db.lines[i].debit - db.lines[i].credit else 0
  }

  lemma {:induction false} LedgerSum(db: Db, q: Query, d: int, n: nat)
    requires n <= |db.lines| && q.asOf.None?
    ensures SumBy(OrderedIds(db, q, n), NetUpTo(db, d)) == SumBy(db.lines[..n], Pick(db, q.(asOf := Some(d)), NET))
  {
    if n > 0 {
      LedgerSum(db, q, d, n - 1);
      var l := db.lines[n - 1];
      SumStep(db.lines, n - 1, Pick(db, q.(asOf := Some(d)), NET));
      if Matches(db, q, l) {
        InsertSum(db, OrderedIds(db, q, n - 1), n - 1, NetUpTo(db, d));
      }
      DatedMatch(db, q, d, n - 1);
    }
  }

  lemma DatedMatch(db: Db, q: Query, d: int, i: nat)
    requires i < |db.lines| && q.asOf.None?
    ensures Pick(db, q.(asOf := Some(d)), NET)(db.lines[i]) == if Matches(db, q, db.lines[i]) then NetUpTo(db, d)(i)
              else 0
  {
    assert Matches(db, q.(asOf := Some(d)), db.lines[i]) <==> Matches(db, q, db.lines[i]) && LineDate(db, i) <= d;
  }

  /** The running balance printed on ledger line k. */
  function Running(db: Db, ids: seq<int>, k: nat): int
    requires k < |ids|
  {
    SumBy(ids[..k + 1], NetAt(db))
  }

  /** In a date-ordered ledger, line k is the last one dated at most d. */
  predicate LastUpTo(db: Db, ids: seq<int>, d: int, k: nat) {
    && k < |ids| && LineDate(db, ids[k]) <= d
    && forall j | k < j < |ids| :: LineDate(db, ids[j]) > d
  }

  /** At the last line dated at most d, the running balance is the account's net as of d. */
  lemma RunningIsNet(db: Db, q: Query, d: int, k: nat)
    requires q.asOf.None? && LastUpTo(db, OrderedIds(db, q, |db.lines|), d, k)
    ensures Running(db, OrderedIds(db, q, |db.lines|), k) == Total(db, q.(asOf := Some(d)), NET)
  {
    var ids := OrderedIds(db, q, |db.lines|);
    LedgerSum(db, q, d, |db.lines|);
    assert db.lines[..|db.lines|] == db.lines;
    OrderedLedger(db, q, |db.lines|);
    SplitAtDate(db, ids, d, k);
  }

  lemma SplitAtDate(db: Db, ids: seq<int>, d: int, k: nat)
    requires Sorted(db, ids) && LastUpTo(db, ids, d, k)
    ensures SumBy(ids, NetUpTo(db, d)) == SumBy(ids[..k + 1], NetAt(db))
  {
    var head, tail := ids[..k + 1], ids[k + 1..];
    assert ids == head + tail;
    SumAppend(head, tail, NetUpTo(db, d));
    forall i | i in tail ensures NetUpTo(db, d)(i) == 0 {
      var j :| 0 <= j < |tail| && tail[j] == i;
      assert ids[k + 1 + j] == i;
    }
    SumZero(tail, NetUpTo(db, d));
    forall i | i in head ensures NetUpTo(db, d)(i) == NetAt(db)(i) {
      var j :| 0 <= j < |head| && head[j] == i;
      assert j < k ==> Before(db, ids[j], ids[k]);
    }
    SumExt(head, NetUpTo(db, d), NetAt(db));
  }
}
