// Maintenance bills and the journal entries they are posted to: two stores that must agree.
module Bills {
  import opened Wrappers
  import opened Seqs
  import opened Sums
  import opened Money
  import opened Tables
  import opened Validation
  import opened Journal

  datatype BillStatus = Generated | PostedBill | ReversedBill

  /** Component amounts in paise; overrides on regeneration need not be whole. */
  datatype Amounts = Amounts(
    maintenance: real, water: real, fixed: real, sinking: real, repair: real, association: real, corpus: real,
        extra: real)

  datatype Bill = Bill(
    id: string, flatId: string, flatNumber: string, month: int, year: int, status: BillStatus, isPosted: bool,
    journalId: Option<nat>, amounts: Amounts, amount: real)

  datatype Component = Component(code: string, amount: int)

  const RECEIVABLE := "13001"

  /** The maintenance part of a bill, which extra charges add to. */
  function MaintenancePart(a: Amounts): int {
    RoundMoney(a.maintenance) + RoundMoney(a.fixed) + RoundMoney(a.extra)
  }

  function AllComponents(a: Amounts): seq<Component> {
    [Component("41001", MaintenancePart(a)),
     Component("41004", RoundMoney(a.water)),
     Component("31011", RoundMoney(a.sinking)),
     Component("31012", RoundMoney(a.repair)),
     Component("31010", RoundMoney(a.association)),
     Component("31004", RoundMoney(a.corpus))]
  }

  const POSITIVE: Component -> bool := (c: Component) => c.amount > 0
  const AMOUNT: Component -> int := (c: Component) => c.amount
  const POSITIVE_PART: Component -> int := (c: Component) => if c.amount > 0 then c.amount else 0

  /** _bill_credit_components: components that are not positive are dropped. */
  function CreditComponents(a: Amounts): seq<Component> {
    Filter(AllComponents(a), POSITIVE)
  }

  /** The debit of the posting: the sum of the positive components, whatever the bill's own total says. */
  function CreditTotal(a: Amounts): int {
    SumBy(CreditComponents(a), AMOUNT)
  }

  function OnCode(code: Option<string>): Component -> int {
    (c: Component) => if Some(c.code) == code then c.amount else 0
  }

  /** What a posted bill puts on the account with the given code: receivable on the debit side, components on the credit
      side. */
  function BillNet(a: Amounts, code: Option<string>): int {
    (if code == Some(RECEIVABLE) then CreditTotal(a) else 0) - SumBy(CreditComponents(a), OnCode(code))
  }

  lemma CreditTotalIsPositivePart(a: Amounts)
    ensures CreditTotal(a) == SumBy(AllComponents(a), POSITIVE_PART)
  {
    SumFilter(AllComponents(a), POSITIVE, POSITIVE_PART);
    SumExt(CreditComponents(a), AMOUNT, POSITIVE_PART);
  }

  /** The posted debit equals the sum of all components exactly when no component is negative. */
  lemma NothingDroppedIff(a: Amounts)
    ensures CreditTotal(a) >= SumBy(AllComponents(a), AMOUNT)
    ensures CreditTotal(a) == SumBy(AllComponents(a), AMOUNT) <==> forall c | c in AllComponents(a) :: c.amount >= 0
  {
    CreditTotalIsPositivePart(a);
    PartsCompare(AllComponents(a));
  }

  lemma {:induction false} PartsCompare(cs: seq<Component>)
    ensures SumBy(cs, POSITIVE_PART) >= SumBy(cs, AMOUNT)
    ensures SumBy(cs, POSITIVE_PART) == SumBy(cs, AMOUNT) <==> forall c | c in cs :: c.amount >= 0
  {
    if |cs| == 0 {
    } else {
      PartsCompare(cs[..|cs| - 1]);
      assert forall c | c in cs :: c in cs[..|cs| - 1] || c == cs[|cs| - 1];
    }
  }

  // ---- Posting lines ----

  function IdOf(db: Db, scope: Scope, code: string): Option<nat> {
    FindFirst(db.accounts, HasCode(scope, code))
  }

  function RequiredCodes(a: Amounts): set<string> {
    {RECEIVABLE} + set c | c in CreditComponents(a) :: c.code
  }

  function MissingCodes(db: Db, scope: Scope, a: Amounts): set<string> {
    set c | c in RequiredCodes(a) && IdOf(db, scope, c).None?
  }

  function KeyFor(db: Db, scope: Scope, code: string): int {
    match IdOf(db, scope, code) case Some(i) => i case None => -1
  }

  function CreditLines(db: Db, scope: Scope, cs: seq<Component>): (r: seq<RawLine<int>>)
    requires forall c | c in cs :: c.amount > 0
    ensures |r| == |cs|
    ensures forall i :: 0 <= i < |r| ==>
              cs[i].amount > 0 && r[i] == RawLine(KeyFor(db, scope, cs[i].code), 0.0, cs[i].amount as real)
  {
    seq(|cs|, i requires 0 <= i < |cs| =>
        assert cs[i] in cs; RawLine(KeyFor(db, scope, cs[i].code), 0.0, cs[i].amount as real))
  }

  lemma {:induction false} PositiveTotal(cs: seq<Component>)
    requires forall c | c in cs :: c.amount > 0
    ensures SumBy(cs, AMOUNT) >= |cs|
  {
    if |cs| == 0 {
    } else {
      PositiveTotal(cs[..|cs| - 1]);
      assert cs[|cs| - 1] in cs;
    }
  }

  function PostingLines(db: Db, scope: Scope, a: Amounts): seq<RawLine<int>> {
    var cs := CreditComponents(a);
    PositiveTotal(cs);
    [RawLine(KeyFor(db, scope, RECEIVABLE), CreditTotal(a) as real, 0.0)] + CreditLines(db, scope, cs)
  }

  function CreditPostings(db: Db, scope: Scope, cs: seq<Component>): (r: seq<Posting<int>>)
    ensures |r| == |cs| && forall i :: 0 <= i < |r| ==> r[i] == Posting(KeyFor(db, scope, cs[i].code), 0, cs[i].amount)
  {
    seq(|cs|, i requires 0 <= i < |cs| => Posting(KeyFor(db, scope, cs[i].code), 0, cs[i].amount))
  }

  /** The rounded posting lines: one debit on the receivable account, one credit per positive component. */
  lemma PostingShape(db: Db, scope: Scope, a: Amounts)
    ensures RoundAll(PostingLines(db, scope, a))
         == [Posting(KeyFor(db, scope, RECEIVABLE), CreditTotal(a), 0)] + CreditPostings(db, scope, CreditComponents(a))
  {
    WholePaise(CreditTotal(a));
    WholePaise(0);
    PositiveTotal(CreditComponents(a));
    CreditShape(db, scope, CreditComponents(a));
  }

  lemma CreditShape(db: Db, scope: Scope, cs: seq<Component>)
    requires forall c | c in cs :: c.amount > 0
    ensures RoundAll(CreditLines(db, scope, cs)) == CreditPostings(db, scope, cs)
  {
    WholePaise(0);
    var raw := CreditLines(db, scope, cs);
    forall i | 0 <= i < |cs| ensures RoundAll(raw)[i] == CreditPostings(db, scope, cs)[i] {
      WholePaise(cs[i].amount);
      assert RoundAll(raw)[i] == RoundLine(raw[i]);
    }
  }

  /** An id resolved for a code carries that code, in the scope, and no other account of the scope does. */
  lemma CodeOfId(db: Db, scope: Scope, code: string, a: int)
    requires AccountsOk(db.accounts) && IdOf(db, scope, code).Some?
    requires 0 <= a < |db.accounts| && db.accounts[a].scope == scope
    ensures KeyFor(db, scope, code) == a <==> db.accounts[a].code == Some(code)
  {
    var i := IdOf(db, scope, code).value;
    assert HasCode(scope, code)(db.accounts[i]);
  }

  lemma RequiredFound(db: Db, scope: Scope, a: Amounts)
    requires MissingCodes(db, scope, a) == {}
    ensures IdOf(db, scope, RECEIVABLE).Some?
    ensures forall c | c in CreditComponents(a) :: IdOf(db, scope, c.code).Some?
  {
    assert RECEIVABLE in RequiredCodes(a) && RECEIVABLE !in MissingCodes(db, scope, a);
    forall c | c in CreditComponents(a) ensures IdOf(db, scope, c.code).Some? {
      assert c.code in RequiredCodes(a) && c.code !in MissingCodes(db, scope, a);
    }
  }

  lemma CreditNet(db: Db, scope: Scope, cs: seq<Component>, id: int)
    requires AccountsOk(db.accounts) && forall c | c in cs :: IdOf(db, scope, c.code).Some?
    requires 0 <= id < |db.accounts| && db.accounts[id].scope == scope
    ensures SumBy(CreditPostings(db, scope, cs), Slice(ACCOUNT_ID, ACCOUNT_NET, id))
              == -SumBy(cs, OnCode(db.accounts[id].code))
  {
    var ps, f, on := CreditPostings(db, scope, cs), Slice(ACCOUNT_ID, ACCOUNT_NET, id), OnCode(db.accounts[id].code);
    var minus := (c: Component) => -on(c);
    forall i | 0 <= i < |cs| ensures f(ps[i]) == minus(cs[i]) {
      assert cs[i] in cs;
      CodeOfId(db, scope, cs[i].code, id);
    }
    SumZip(ps, cs, f, minus);
    SumNegate(cs, on, minus);
  }

  /** The posting lines put exactly the bill's net on every account of the scope. */
  lemma PostingNet(db: Db, scope: Scope, a: Amounts, id: int)
    requires AccountsOk(db.accounts) && MissingCodes(db, scope, a) == {}
    requires 0 <= id < |db.accounts| && db.accounts[id].scope == scope
    ensures SumBy(RoundAll(PostingLines(db, scope, a)), Slice(ACCOUNT_ID, ACCOUNT_NET, id))
              == BillNet(a, db.accounts[id].code)
  {
    RequiredFound(db, scope, a);
    PostingShape(db, scope, a);
    SumCons(Posting(KeyFor(db, scope, RECEIVABLE), CreditTotal(a), 0), CreditPostings(db, scope, CreditComponents(a)),
      Slice(ACCOUNT_ID, ACCOUNT_NET, id));
    CreditNet(db, scope, CreditComponents(a), id);
    CodeOfId(db, scope, RECEIVABLE, id);
  }

  /** A bill with a positive component, its accounts existing, always yields lines that validation accepts. */
  lemma BillAccepted(db: Db, scope: Scope, a: Amounts)
    requires AccountsOk(db.accounts) && MissingCodes(db, scope, a) == {} && |CreditComponents(a)| > 0
    ensures Check(PostingLines(db, scope, a), NoBlank).Ok?
    ensures MissingAccounts(db.accounts, scope, KeysOf(RoundAll(PostingLines(db, scope, a)))) == {}
  {
    PostingIsDouble(db, scope, a);
    AcceptedIff(PostingLines(db, scope, a), NoBlank);
    PostingSides(db, scope, a);
  }

  lemma PostingIsDouble(db: Db, scope: Scope, a: Amounts)
    requires AccountsOk(db.accounts) && MissingCodes(db, scope, a) == {} && |CreditComponents(a)| > 0
    ensures IsDoubleEntry(RoundAll(PostingLines(db, scope, a)))
  {
    PostingSides(db, scope, a);
    PostingSums(db, scope, a);
    PostingKeys(db, scope, a);
  }

  lemma PostingSides(db: Db, scope: Scope, a: Amounts)
    requires MissingCodes(db, scope, a) == {} && |CreditComponents(a)| > 0
    ensures forall p | p in RoundAll(PostingLines(db, scope, a)) ::
              OneSide(p) && 0 <= p.key < |db.accounts| && db.accounts[p.key].scope == scope
  {
    var cs := CreditComponents(a);
    PostingShape(db, scope, a);
    PositiveTotal(cs);
    RequiredFound(db, scope, a);
    forall p | p in CreditPostings(db, scope, cs)
      ensures OneSide(p) && 0 <= p.key < |db.accounts| && db.accounts[p.key].scope == scope
    {
      var i :| 0 <= i < |cs| && CreditPostings(db, scope, cs)[i] == p;
      assert cs[i] in cs;
    }
  }

  lemma PostingKeys(db: Db, scope: Scope, a: Amounts)
    requires MissingCodes(db, scope, a) == {} && |CreditComponents(a)| > 0
    ensures var ps := RoundAll(PostingLines(db, scope, a)); |ps| >= 2 && ps[0].key != ps[1].key
  {
    var c := CreditComponents(a)[0];
    PostingShape(db, scope, a);
    RequiredFound(db, scope, a);
    assert c in CreditComponents(a) && c in AllComponents(a);
  }

  lemma PostingSums(db: Db, scope: Scope, a: Amounts)
    ensures SumBy(RoundAll(PostingLines(db, scope, a)), Debit) == SumBy(RoundAll(PostingLines(db, scope, a)), Credit)
  {
    var head, tail := Posting(KeyFor(db, scope, RECEIVABLE), CreditTotal(a), 0),
        CreditPostings(db, scope, CreditComponents(a));
    PostingShape(db, scope, a);
    SumCons(head, tail, Debit);
    SumCons(head, tail, Credit);
    SumZero(tail, Debit);
    SumZip(tail, CreditComponents(a), Credit, AMOUNT);
  }

  // ---- Reversal lines ----

  function InJournal(e: int): Line -> bool {
    (l: Line) => l.journalId == e
  }

  /** Stored debit and credit columns are never negative. */
  function AsAmount(x: int): Amount {
    if x >= 0 then x as real else 0.0
  }

  /** The original entry's lines with the sides swapped. */
  function ReversalLines(db: Db, e: int): (r: seq<RawLine<int>>)
    ensures |r| == |Filter(db.lines, InJournal(e))|
    ensures forall i :: 0 <= i < |r| ==> var l := Filter(db.lines, InJournal(e))[i];
              r[i] == RawLine(l.accountId, AsAmount(l.credit), AsAmount(l.debit))
  {
    var ls := Filter(db.lines, InJournal(e));
    seq(|ls|, i requires 0 <= i < |ls| => RawLine(ls[i].accountId, AsAmount(ls[i].credit), AsAmount(ls[i].debit)))
  }

  /** The net of entry e on account a. */
  function EntryAt(e: int, a: int): Line -> int {
    (l: Line) => if l.journalId == e && l.accountId == a then l.debit - l.credit else 0
  }

  function EntryNet(db: Db, e: int, a: int): int {
    SumBy(db.lines, EntryAt(e, a))
  }

  /** The reversal of any stored entry is accepted. */
  lemma ReversalAccepted(db: Db, e: int)
    requires WellFormed(db) && 0 <= e < |db.entries|
    ensures Check(ReversalLines(db, e), NoBlank).Ok?
    ensures MissingAccounts(db.accounts, db.entries[e].scope, KeysOf(RoundAll(ReversalLines(db, e)))) == {}
  {
    ReversalIsDouble(db, e);
    AcceptedIff(ReversalLines(db, e), NoBlank);
    ReversalSides(db, e);
  }

  lemma ReversalIsDouble(db: Db, e: int)
    requires WellFormed(db) && 0 <= e < |db.entries|
    ensures IsDoubleEntry(RoundAll(ReversalLines(db, e)))
  {
    ReversalSides(db, e);
    ReversalSums(db, e);
    ReversalSpread(db, e);
  }

  lemma ReversalSides(db: Db, e: int)
    requires LinesOk(db) && 0 <= e < |db.entries|
    ensures forall p | p in RoundAll(ReversalLines(db, e)) ::
              OneSide(p) && 0 <= p.key < |db.accounts| && db.accounts[p.key].scope == db.entries[e].scope
  {
    var ps, ls := RoundAll(ReversalLines(db, e)), Filter(db.lines, InJournal(e));
    forall p | p in ps
      ensures OneSide(p) && 0 <= p.key < |db.accounts| && db.accounts[p.key].scope == db.entries[e].scope
    {
      var i :| 0 <= i < |ps| && ps[i] == p;
      assert ls[i] in ls && ls[i] in db.lines && InJournal(e)(ls[i]);
    }
  }

  lemma ReversalSums(db: Db, e: int)
    requires WellFormed(db) && 0 <= e < |db.entries|
    ensures SumBy(RoundAll(ReversalLines(db, e)), Debit) == SumBy(RoundAll(ReversalLines(db, e)), Credit)
  {
    var ps, ls := RoundAll(ReversalLines(db, e)), Filter(db.lines, InJournal(e));
    assert forall i | 0 <= i < |ls| :: ls[i] in ls && InJournal(e)(ls[i]);
    SumZip(ps, ls, Debit, Slice(JOURNAL, CR, e));
    SumZip(ps, ls, Credit, Slice(JOURNAL, DR, e));
    SumFilter(db.lines, InJournal(e), Slice(JOURNAL, DR, e));
    SumFilter(db.lines, InJournal(e), Slice(JOURNAL, CR, e));
  }

  lemma ReversalSpread(db: Db, e: int)
    requires WellFormed(db) && 0 <= e < |db.entries|
    ensures var ps := RoundAll(ReversalLines(db, e));
      |ps| >= 2 && exists i, j :: 0 <= i < |ps| && 0 <= j < |ps| && ps[i].key != ps[j].key
  {
    var m, n := TwoJournalLines(db, e);
    var ps := RoundAll(ReversalLines(db, e));
    assert ps[m].key != ps[n].key;
  }

  lemma TwoJournalLines(db: Db, e: int) returns (m: nat, n: nat)
    requires AllSpread(db) && 0 <= e < |db.entries|
    ensures var ls := Filter(db.lines, InJournal(e)); m < |ls| && n < |ls| && ls[m].accountId != ls[n].accountId
  {
    var ls := Filter(db.lines, InJournal(e));
    assert Spread(db.lines, e);
    var i, j :| 0 <= i < |db.lines| && 0 <= j < |db.lines| && db.lines[i].journalId == db.lines[j].journalId == e
                && db.lines[i].accountId != db.lines[j].accountId;
    assert InJournal(e)(db.lines[i]) && InJournal(e)(db.lines[j]);
    assert db.lines[i] in ls && db.lines[j] in ls;
    m :| 0 <= m < |ls| && ls[m] == db.lines[i];
    n :| 0 <= n < |ls| && ls[n] == db.lines[j];
  }

  /** An entry and its reversal cancel on every account. */
  lemma ReversalNet(db: Db, e: int, a: int)
    requires WellFormed(db)
    ensures SumBy(RoundAll(ReversalLines(db, e)), Slice(ACCOUNT_ID, ACCOUNT_NET, a)) == -EntryNet(db, e, a)
  {
    var ps, ls := RoundAll(ReversalLines(db, e)), Filter(db.lines, InJournal(e));
    var minus := (l: Line) => if l.journalId == e && l.accountId == a then l.credit - l.debit else 0;
    forall i | 0 <= i < |ls| ensures Slice(ACCOUNT_ID, ACCOUNT_NET, a)(ps[i]) == minus(ls[i]) {
      assert ls[i] in ls && InJournal(e)(ls[i]);
    }
    SumZip(ps, ls, Slice(ACCOUNT_ID, ACCOUNT_NET, a), minus);
    SumNegate(ls, EntryAt(e, a), minus);
    SumFilter(db.lines, InJournal(e), EntryAt(e, a));
  }
}
