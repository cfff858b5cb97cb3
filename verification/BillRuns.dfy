// Runs of the maintenance endpoints over the bill collection and the ledger.
module BillRuns {
  import opened Wrappers
  import opened Seqs
  import opened Sums
  import opened Money
  import opened Tables
  import opened Validation
  import opened Journal
  import opened Bills
  import opened Runs

  datatype Shop = Shop(bills: seq<Bill>, db: Db)

  datatype BillError =
    | NoComponents | AccountsMissing(codes: set<string>) | OriginalMissing | Refused(error: PostError)

  // ---- Idempotency keys ----

  function KeyPrefix(scope: Scope): string {
    "gruhamitra:" + scope.tenantId + ":" + scope.appKey + ":maintenance-bill"
  }

  function BillKey(scope: Scope, id: string): string { KeyPrefix(scope) + ":" + id }
  function ReversalKey(scope: Scope, id: string): string { KeyPrefix(scope) + "-reversal:" + id }

  predicate IsMaintenance(scope: Scope, key: string) {
    KeyPrefix(scope) <= key
  }

  /** Different bills, and a bill and a reversal, never share a key. */
  lemma KeysDiffer(scope: Scope, a: string, b: string)
    ensures BillKey(scope, a) != ReversalKey(scope, b)
    ensures BillKey(scope, a) == BillKey(scope, b) ==> a == b
    ensures ReversalKey(scope, a) == ReversalKey(scope, b) ==> a == b
    ensures IsMaintenance(scope, BillKey(scope, a)) && IsMaintenance(scope, ReversalKey(scope, a))
  {
    var p := KeyPrefix(scope);
    assert BillKey(scope, a)[|p|] == ':' && ReversalKey(scope, b)[|p|] == '-';
    assert BillKey(scope, a)[|p| + 1..] == a && BillKey(scope, b)[|p| + 1..] == b;
    var q := p + "-reversal:";
    assert ReversalKey(scope, a)[|q|..] == a && ReversalKey(scope, b)[|q|..] == b;
  }

  // ---- Operations ----

  function MonthDays(month: int, year: int): int {
    if month == 2 then (if year % 4 == 0 && (year % 100 != 0 || year % 400 == 0) then 29 else 28)
    else if month in {4, 6, 9, 11} then 30
    else 31
  }

  function DaysThrough(month: nat, year: int): int {
    if month == 0 then 0 else DaysThrough(month - 1, year) + MonthDays(month, year)
  }

  /** The day number of the last day of the month, counted from year 1. */
  function MonthEnd(month: int, year: int): int {
    365 * (year - 1) + (year - 1) / 4 - (year - 1) / 100 + (year - 1) / 400
    + if month < 0 then 0 else DaysThrough(month, year)
  }

  function BillRequest(db: Db, scope: Scope, b: Bill): Request {
    Request(MonthEnd(b.month, b.year), Some("Monthly maintenance bill for " + b.flatNumber),
        Some("MBILL-" + b.flatNumber),
      PostingLines(db, scope, b.amounts))
  }

  function ReversalRequest(db: Db, b: Bill, e: int, reason: string): Request {
    Request(MonthEnd(b.month, b.year), Some("Reversal of maintenance bill for " + b.flatNumber + ": " + reason),
      Some("REV-MBILL-" + b.flatNumber), ReversalLines(db, e))
  }

  predicate Postable(b: Bill) {
    b.status != ReversedBill && !b.isPosted
  }

  function Marked(b: Bill, e: nat): Bill {
    b.(status := PostedBill, isPosted := true, journalId := Some(e))
  }

  function HasId(id: string): Bill -> bool {
    (b: Bill) => b.id == id
  }

  /** The journal half of posting a bill. */
  function PostEntryOf(db: Db, scope: Scope, b: Bill, author: string): (Db, Result<nat, BillError>) {
    if |CreditComponents(b.amounts)| == 0 then (db, Err(NoComponents))
    else if MissingCodes(db, scope, b.amounts) != {} then (db, Err(AccountsMissing(MissingCodes(db, scope, b.amounts))))
    else
      var (db', r) := Post(db, scope, BillRequest(db, scope, b), Some(BillKey(scope, b.id)), author);
      (db', match r case Ok(p) => Ok(p.entryId) case Err(e) => Err(Refused(e)))
  }

  function PostBill(s: Shop, scope: Scope, i: nat, author: string): (Shop, Result<nat, BillError>)
    requires i < |s.bills|
  {
    var (db', r) := PostEntryOf(s.db, scope, s.bills[i], author);
    match r
    case Err(e) => (s.(db := db'), Err(e))
    case Ok(id) => (Shop(s.bills[i := Marked(s.bills[i], id)], db'), Ok(id))
  }

  function Reversed(b: Bill): Bill {
    b.(status := ReversedBill, isPosted := false)
  }

  /** Reversing an unposted bill only marks it; a posted one first gets a reversal entry. */
  function ReverseBill(s: Shop, scope: Scope, i: nat, reason: string, author: string)
    : (Shop, Result<Option<nat>, BillError>)
    requires i < |s.bills|
  {
    var b := s.bills[i];
    if !b.isPosted || b.journalId.None? then (s.(bills := s.bills[i := Reversed(b)]), Ok(None))
    else
      var e := b.journalId.value;
      if !(e < |s.db.entries| && s.db.entries[e].scope == scope) || |ReversalLines(s.db, e)| == 0
      then (s, Err(OriginalMissing))
      else
        var (db', r) := Post(s.db, scope, ReversalRequest(s.db, b, e, reason), Some(ReversalKey(scope, b.id)), author);
        match r
        case Err(x) => (s.(db := db'), Err(Refused(x)))
        case Ok(p) => (Shop(s.bills[i := Reversed(b)], db'), Ok(Some(p.entryId)))
  }

  predicate Chargeable(b: Bill, amount: real) {
    RoundMoney(amount) > 0 && !b.isPosted && b.status == Generated
  }

  function Charged(b: Bill, amount: real): Bill {
    var c := RoundMoney(amount) as real;
    b.(amounts := b.amounts.(extra := b.amounts.extra + c), amount := b.amount + c)
  }

  function NotInMonth(month: int, year: int): Bill -> bool {
    (b: Bill) => !(b.month == month && b.year == year)
  }

  predicate PostedIn(bills: seq<Bill>, month: int, year: int) {
    exists b | b in bills :: b.isPosted && b.month == month && b.year == year
  }

  /** Generation refuses a month with posted bills and otherwise replaces that month's bills. */
  function Generate(s: Shop, month: int, year: int, news: seq<Bill>): Shop {
    if PostedIn(s.bills, month, year) then s
    else s.(bills := Filter(s.bills, NotInMonth(month, year)) + news)
  }

  /** The journal commit of a posting, working from a copy of the bill that a post-bills call has read. */
  function Commit(s: Shop, scope: Scope, copy: Bill, author: string): Shop {
    s.(db := PostEntryOf(s.db, scope, copy, author).0)
  }

  /** The bill update of a posting: by id, whatever has become of the bill. */
  function Mark(s: Shop, id: string, e: nat): Shop {
    match FindFirst(s.bills, HasId(id))
    case None => s
    case Some(i) => s.(bills := s.bills[i := Marked(s.bills[i], e)])
  }

  /** A posting cut off after the journal commit: the bill is not yet marked. */
  function CutPost(s: Shop, scope: Scope, i: nat, author: string): Shop
    requires i < |s.bills|
  {
    Commit(s, scope, s.bills[i], author)
  }

  /** A reversal cut off after its journal commit: the bill still reads posted. */
  function CutReverse(s: Shop, scope: Scope, i: nat, reason: string, author: string): Shop
    requires i < |s.bills|
  {
    s.(db := ReverseBill(s, scope, i, reason, author).0.db)
  }

  // ---- Steps and runs ----

  datatype BillStep =
    | GenerateStep(month: int, year: int, news: seq<Bill>)
    | RegenerateStep(bill: Bill)
    | ChargeStep(index: nat, amount: real)
    | PostStep(index: nat, author: string)
    | ReverseStep(index: nat, reason: string, author: string)
    | CommitStep(copy: Bill, author: string)
    | MarkStep(id: string, entry: nat)
    | CutReverseStep(index: nat, reason: string, author: string)
    | LedgerStep(step: Step)

  /** A new bill: unposted, with an id that no bill and no journal key has used (uuid4). */
  ghost predicate IsNew(s: Shop, scope: Scope, b: Bill) {
    && b.status == Generated && !b.isPosted && b.journalId.None?
    && (forall x | x in s.bills :: x.id != b.id)
    && !KeyTaken(s.db.entries, scope, Some(BillKey(scope, b.id)))
    && !KeyTaken(s.db.entries, scope, Some(ReversalKey(scope, b.id)))
  }

  predicate DistinctIds(bills: seq<Bill>) {
    forall i, j | 0 <= i < j < |bills| :: bills[i].id != bills[j].id
  }

  /** b is the copy as it has become: extra charges may have been added, the other amounts never change. */
  predicate Later(copy: Bill, b: Bill) {
    && b.id == copy.id && b.amounts == copy.amounts.(extra := b.amounts.extra)
    && copy.amounts.extra <= b.amounts.extra
  }

  /** What the environment guarantees of a step: fresh ids, copies that have been read, marks that follow a commit. */
  ghost predicate StepAllowed(s: Shop, scope: Scope, step: BillStep) {
    match step
    case GenerateStep(month, year, news) => DistinctIds(news) && forall b | b in news :: IsNew(s, scope, b)
    case RegenerateStep(b) => IsNew(s, scope, b)
    case CommitStep(copy, author) => Postable(copy) && forall b | b in s.bills && b.id == copy.id :: Later(copy, b)
    case MarkStep(id, e) => FindFirst(s.db.entries, HasKey(scope, BillKey(scope, id))) == Some(e)
    case _ => true
  }

  function Advance(s: Shop, scope: Scope, step: BillStep): Shop {
    match step
    case GenerateStep(month, year, news) => Generate(s, month, year, news)
    case RegenerateStep(b) => s.(bills := s.bills + [b])
    case ChargeStep(i, amount) =>
      if i < |s.bills| && Chargeable(s.bills[i], amount)
      then s.(bills := s.bills[i := Charged(s.bills[i], amount)])
      else s
    case PostStep(i, author) => if i < |s.bills| && Postable(s.bills[i]) then PostBill(s, scope, i, author).0 else s
    case ReverseStep(i, reason, author) => if i < |s.bills| then ReverseBill(s, scope, i, reason, author).0 else s
    case CommitStep(copy, author) => Commit(s, scope, copy, author)
    case MarkStep(id, e) => Mark(s, id, e)
    case CutReverseStep(i, reason, author) => if i < |s.bills| then CutReverse(s, scope, i, reason, author) else s
    case LedgerStep(st) => s.(db := Apply(s.db, st))
  }

  // ---- The two-store invariant ----

  function IsMaintEntry(scope: Scope, e: Entry): bool {
    e.scope == scope && e.key.Some? && IsMaintenance(scope, e.key.value)
  }

  function MaintAt(db: Db, scope: Scope, a: int): Line -> int {
    (l: Line) =>
      if 0 <= l.journalId < |db.entries| && IsMaintEntry(scope, db.entries[l.journalId]) && l.accountId == a
      then l.debit - l.credit else 0
  }

  /** The balance that maintenance journals put on account a. */
  function MaintNet(db: Db, scope: Scope, a: int): int {
    SumBy(db.lines, MaintAt(db, scope, a))
  }

  /** The bill's entry is in the ledger and stands unreversed, whether or not the bill says so. */
  predicate Booked(db: Db, scope: Scope, b: Bill) {
    && b.status != ReversedBill
    && KeyTaken(db.entries, scope, Some(BillKey(scope, b.id)))
    && !KeyTaken(db.entries, scope, Some(ReversalKey(scope, b.id)))
  }

  /** A posting of the bill was cut off: its entry is there, the bill is not marked. */
  predicate CutPosting(db: Db, scope: Scope, b: Bill) {
    Postable(b) && KeyTaken(db.entries, scope, Some(BillKey(scope, b.id)))
  }

  function BookedNet(db: Db, scope: Scope, code: Option<string>): Bill -> int {
    (b: Bill) => if Booked(db, scope, b) then BillNet(b.amounts, code) else 0
  }

  function PostedNet(code: Option<string>): Bill -> int {
    (b: Bill) => if b.isPosted then BillNet(b.amounts, code) else 0
  }

  predicate InScope(db: Db, scope: Scope, a: int) {
    0 <= a < |db.accounts| && db.accounts[a].scope == scope
  }

  /** The bill has a positive component and all the accounts it needs. */
  predicate Payable(db: Db, scope: Scope, a: Amounts) {
    |CreditComponents(a)| > 0 && MissingCodes(db, scope, a) == {}
  }

  /** Entry e is the bill's own and carries exactly its positive components, of which there is one. */
  ghost predicate Carries(db: Db, scope: Scope, b: Bill, e: nat) {
    && Payable(db, scope, b.amounts)
    && e < |db.entries| && HasKey(scope, BillKey(scope, b.id))(db.entries[e])
    && forall a | InScope(db, scope, a) :: EntryNet(db, e, a) == BillNet(b.amounts, db.accounts[a].code)
  }

  /** A posted bill points at its entry; an entry under a bill's key carries the bill; only a bill with an entry has a
      reversal, and a reversed bill with an entry has one. */
  ghost predicate BillOk(db: Db, scope: Scope, b: Bill) {
    var posted := KeyTaken(db.entries, scope, Some(BillKey(scope, b.id)));
    var reversed := KeyTaken(db.entries, scope, Some(ReversalKey(scope, b.id)));
    && (b.isPosted ==> b.status == PostedBill && b.journalId.Some? && Carries(db, scope, b, b.journalId.value))
    && (b.status == PostedBill ==> b.isPosted)
    && (posted ==> exists e: nat :: Carries(db, scope, b, e))
    && (reversed ==> posted && !Postable(b))
    && (posted && b.status == ReversedBill ==> reversed)
  }

  /** Each account's balance from maintenance journals is the signed sum of the positive components of the bills whose
      entries stand. */
  ghost predicate Conserved(s: Shop, scope: Scope) {
    forall a | InScope(s.db, scope, a) ::
      MaintNet(s.db, scope, a) == SumBy(s.bills, BookedNet(s.db, scope, s.db.accounts[a].code))
  }

  ghost predicate ShopOk(s: Shop, scope: Scope) {
    && WellFormed(s.db) && DistinctIds(s.bills)
    && (forall i | 0 <= i < |s.bills| :: BillOk(s.db, scope, s.bills[i]))
    && Conserved(s, scope)
  }

  /** Nothing is half done: the bills that say posted are those whose entries stand. */
  ghost predicate Settled(s: Shop, scope: Scope) {
    forall i | 0 <= i < |s.bills| :: s.bills[i].isPosted <==> Booked(s.db, scope, s.bills[i])
  }

  /** With nothing half done conservation is about the bills currently posted. */
  lemma ConservedIsPosted(s: Shop, scope: Scope)
    requires Settled(s, scope)
    ensures Conserved(s, scope) <==>
              forall a | InScope(s.db, scope, a) ::
                  MaintNet(s.db, scope, a) == SumBy(s.bills, PostedNet(s.db.accounts[a].code))
  {
    forall a | InScope(s.db, scope, a)
      ensures SumBy(s.bills, BookedNet(s.db, scope, s.db.accounts[a].code))
                == SumBy(s.bills, PostedNet(s.db.accounts[a].code))
    {
      SumZip(s.bills, s.bills, BookedNet(s.db, scope, s.db.accounts[a].code), PostedNet(s.db.accounts[a].code));
    }
  }

  // ---- Effect of one new entry ----

  lemma AppendMaint(db: Db, e: Entry, ps: seq<Posting<int>>, scope: Scope, a: int)
    requires LinesOk(db)
    ensures MaintNet(AppendEntry(db, e, ps), scope, a)
         == MaintNet(db, scope, a) + if IsMaintEntry(scope, e) then SumBy(ps, Slice(ACCOUNT_ID, ACCOUNT_NET, a)) else 0
  {
    var db', added := AppendEntry(db, e, ps), ToLines(e.scope, |db.entries|, ps);
    SumAppend(db.lines, added, MaintAt(db', scope, a));
    SumExt(db.lines, MaintAt(db, scope, a), MaintAt(db', scope, a));
    if IsMaintEntry(scope, e) {
      SumZip(added, ps, MaintAt(db', scope, a), Slice(ACCOUNT_ID, ACCOUNT_NET, a));
    } else {
      SumZero(added, MaintAt(db', scope, a));
    }
  }

  lemma AppendEntryNet(db: Db, e: Entry, ps: seq<Posting<int>>, k: int, a: int)
    requires LinesOk(db) && 0 <= k <= |db.entries|
    ensures EntryNet(AppendEntry(db, e, ps), k, a)
         == if k < |db.entries| then EntryNet(db, k, a) else SumBy(ps, Slice(ACCOUNT_ID, ACCOUNT_NET, a))
  {
    var added := ToLines(e.scope, |db.entries|, ps);
    SumAppend(db.lines, added, EntryAt(k, a));
    if k < |db.entries| {
      SumZero(added, EntryAt(k, a));
    } else {
      SumZero(db.lines, EntryAt(k, a));
      SumZip(added, ps, EntryAt(k, a), Slice(ACCOUNT_ID, ACCOUNT_NET, a));
    }
  }

  lemma KeyTakenAppend(entries: seq<Entry>, e: Entry, scope: Scope, key: string)
    ensures KeyTaken(entries + [e], scope, Some(key)) <==> KeyTaken(entries, scope, Some(key)) || HasKey(scope, key)(e)
  {
    var r := FindFirst(entries + [e], HasKey(scope, key));
    var before := FindFirst(entries, HasKey(scope, key));
    if before.Some? { assert (entries + [e])[before.value] == entries[before.value]; }
    assert (entries + [e])[|entries|] == e;
    assert forall i | 0 <= i < |entries| :: (entries + [e])[i] == entries[i];
  }

  /** An entry keeps carrying its bill as the ledger grows. */
  lemma CarriesStays(db: Db, e: Entry, ps: seq<Posting<int>>, scope: Scope, b: Bill, k: nat)
    requires LinesOk(db) && Carries(db, scope, b, k)
    ensures Carries(AppendEntry(db, e, ps), scope, b, k)
  {
    forall a | InScope(db, scope, a)
      ensures EntryNet(AppendEntry(db, e, ps), k, a) == BillNet(b.amounts, db.accounts[a].code)
    {
      AppendEntryNet(db, e, ps, k, a);
    }
    assert MissingCodes(AppendEntry(db, e, ps), scope, b.amounts) == MissingCodes(db, scope, b.amounts);
  }

  /** A bill other than the one being written about is undisturbed by a new entry. */
  lemma BillStays(db: Db, e: Entry, ps: seq<Posting<int>>, scope: Scope, b: Bill)
    requires LinesOk(db) && BillOk(db, scope, b)
    requires !HasKey(scope, BillKey(scope, b.id))(e) && !HasKey(scope, ReversalKey(scope, b.id))(e)
    ensures BillOk(AppendEntry(db, e, ps), scope, b)
    ensures Booked(AppendEntry(db, e, ps), scope, b) <==> Booked(db, scope, b)
    ensures CutPosting(AppendEntry(db, e, ps), scope, b) <==> CutPosting(db, scope, b)
  {
    KeyTakenAppend(db.entries, e, scope, BillKey(scope, b.id));
    KeyTakenAppend(db.entries, e, scope, ReversalKey(scope, b.id));
    if b.isPosted {
      CarriesStays(db, e, ps, scope, b, b.journalId.value);
    }
    if KeyTaken(db.entries, scope, Some(BillKey(scope, b.id))) {
      var k: nat :| Carries(db, scope, b, k);
      CarriesStays(db, e, ps, scope, b, k);
    }
  }
}
