// What a journal post answers and stores, in the words of the request, and how it moves every report.
module PostedEntries {
  import opened Wrappers
  import opened Seqs
  import opened Sums
  import opened Money
  import opened Tables
  import opened Validation
  import opened Journal
  import opened Reports

  const ROUNDED_DEBIT: RawLine<int> -> int := (l: RawLine<int>) => Quantize(l.debit)

  /** The entry that a post creates holds the request's own fields, and totals the rounded debits. */
  lemma PostStores(db: Db, scope: Scope, r: Request, key: Option<string>, author: string)
    requires Post(db, scope, r, key, author).1.Ok? && Post(db, scope, r, key, author).1.value.created
    ensures var (entries, n) := (Post(db, scope, r, key, author).0.entries, |db.entries|);
      && |entries| == n + 1 && entries[..n] == db.entries
      && entries[n].scope == scope && entries[n].date == r.date
      && entries[n].description == r.description && entries[n].reference == r.reference
      && entries[n].key == key && entries[n].createdBy == author
      && entries[n].totalDebit == entries[n].totalCredit == SumBy(r.lines, ROUNDED_DEBIT)
      && Post(db, scope, r, key, author).1.value.entryId == n
  {
    PostCreates(db, scope, r, key, author);
    SumZip(RoundAll(r.lines), r.lines, Debit, ROUNDED_DEBIT);
  }

  /** Its lines hold the request's accounts and rounded amounts, in order; nothing that was stored before changes. */
  lemma PostStoresLines(db: Db, scope: Scope, r: Request, key: Option<string>, author: string)
    requires Post(db, scope, r, key, author).1.Ok? && Post(db, scope, r, key, author).1.value.created
    ensures var db' := Post(db, scope, r, key, author).0;
      && db.lines <= db'.lines && IsPostedAs(db'.lines[|db.lines|..], scope, |db.entries|, r.lines)
      && db'.accounts == db.accounts && db'.sources == db.sources && db'.mappings == db.mappings
  {
    PostCreates(db, scope, r, key, author);
    LinesAre(scope, |db.entries|, r.lines);
    var added := ToLines(scope, |db.entries|, RoundAll(r.lines));
    assert (db.lines + added)[|db.lines|..] == added;
  }

  /** The lines are those of the request, in order: its accounts and its amounts rounded to the paisa. */
  predicate IsPostedAs(lines: seq<Line>, scope: Scope, n: int, raw: seq<RawLine<int>>) {
    |lines| == |raw| && forall k | 0 <= k < |raw| ::
      lines[k] == Line(scope, n, raw[k].key, Quantize(raw[k].debit), Quantize(raw[k].credit))
  }

  lemma LinesAre(scope: Scope, n: nat, raw: seq<RawLine<int>>)
    ensures IsPostedAs(ToLines(scope, n, RoundAll(raw)), scope, n, raw)
  {
    var ps := RoundAll(raw);
    assert forall k | 0 <= k < |ps| :: ToLines(scope, n, ps)[k] == ToLine(scope, n, ps[k]);
  }

  /** Lines on account ids are valid exactly when they are a double entry once rounded; an id is never blank. */
  lemma ValidIff(r: Request)
    ensures Check(r.lines, NoBlank).Ok? <==> IsDoubleEntry(RoundAll(r.lines))
  {
    AcceptedIff(r.lines, NoBlank);
  }

  /** An entry of the scope carries the key. */
  predicate InUse(db: Db, scope: Scope, key: string) {
    exists e | e in db.entries :: e.scope == scope && e.key == Some(key)
  }

  /** The accounts of the request that are not accounts of the scope. */
  function Strays(db: Db, scope: Scope, r: Request): set<int> {
    set l | l in r.lines && !(0 <= l.key < |db.accounts| && db.accounts[l.key].scope == scope) :: l.key
  }

  lemma InUseIff(db: Db, scope: Scope, key: string)
    ensures InUse(db, scope, key) <==> FindFirst(db.entries, HasKey(scope, key)).Some?
  {
    var f := FindFirst(db.entries, HasKey(scope, key));
    if f.Some? { assert HasKey(scope, key)(db.entries[f.value]) && db.entries[f.value] in db.entries; }
    if e :| e in db.entries && e.scope == scope && e.key == Some(key) { assert HasKey(scope, key)(e); }
  }

  /** The answer, cause by cause: invalid lines first, then a key already in use, then accounts outside the scope; an
      empty key is never looked up, so that its second use violates the unique index. */
  lemma PostAnswers(db: Db, scope: Scope, r: Request, key: Option<string>, author: string)
    ensures var (db', a) := Post(db, scope, r, key, author);
      var replay := key.Some? && key.value != "" && InUse(db, scope, key.value);
      var clash := key == Some("") && InUse(db, scope, "");
      match Check(r.lines, NoBlank)
      case Err(x) => db' == db && a == Err(InvalidLines(x))
      case Ok(_) =>
        if replay then
          && db' == db && a.Ok? && !a.value.created && a.value.entryId < |db.entries|
          && db.entries[a.value.entryId].scope == scope && db.entries[a.value.entryId].key == key
        else if Strays(db, scope, r) != {} then db' == db && a == Err(AccountsNotFound(Strays(db, scope, r)))
        else if clash then db' == db && a == Err(IntegrityError)
        else a == Ok(Posted(|db.entries|, true))
  {
    AcceptedIff(r.lines, NoBlank);
    if key.Some? {
      InUseIff(db, scope, key.value);
      var f := FindFirst(db.entries, HasKey(scope, key.value));
      if f.Some? { assert HasKey(scope, key.value)(db.entries[f.value]); }
    }
    if Check(r.lines, NoBlank).Ok? { StraysAre(db, scope, r); }
  }

  lemma StraysAre(db: Db, scope: Scope, r: Request)
    ensures MissingAccounts(db.accounts, scope, KeysOf(RoundAll(r.lines))) == Strays(db, scope, r)
  {
    var ps := RoundAll(r.lines);
    forall id ensures id in KeysOf(ps) <==> exists l | l in r.lines :: l.key == id {
      if p :| p in ps && p.key == id {
        var k :| 0 <= k < |ps| && ps[k] == p;
        assert r.lines[k] in r.lines;
      }
      if l :| l in r.lines && l.key == id {
        var k :| 0 <= k < |r.lines| && r.lines[k] == l;
        assert ps[k] in ps;
      }
    }
  }

  /** The account's flags fit its type: only assets are receivable or cash, only liabilities payable, and nothing is
      both receivable and payable. */
  predicate FlagsFit(a: Account) {
    && (a.isReceivable || a.isCashBank ==> a.kind == Asset) && (a.isPayable ==> a.kind == Liability)
    && !(a.isReceivable && a.isPayable)
  }

  /** An account is created as asked exactly when its flags fit its type and no account of its scope has its code. */
  lemma CreateAccountIff(db: Db, a: Account)
    ensures var (db', r) := CreateAccount(db, a);
      if FlagsFit(a) && forall x | x in db.accounts :: !(x.scope == a.scope && a.code.Some? && x.code == a.code)
      then r == Ok(|db.accounts|) && db' == db.(accounts := db.accounts + [a])
      else r == Err(IntegrityError) && db' == db
  {
    if a.code.Some? {
      var p := HasCode(a.scope, a.code.value);
      var f := FindFirst(db.accounts, p);
      if f.Some? { assert p(db.accounts[f.value]) && db.accounts[f.value] in db.accounts; }
      if x :| x in db.accounts && x.scope == a.scope && x.code == a.code { assert p(x); }
    }
  }

  /** Renaming by code changes that account's name and nothing else; an unknown code changes nothing. */
  lemma RenameIs(db: Db, scope: Scope, code: string, name: string)
    requires AccountsOk(db.accounts)
    ensures var (db', r) := RenameAccount(db, scope, code, name);
      && (forall i: nat | i < |db.accounts| && db.accounts[i].scope == scope && db.accounts[i].code == Some(code) ::
           r == Ok(i) && db' == db.(accounts := db.accounts[i := db.accounts[i].(name := name)]))
      && ((forall x | x in db.accounts :: !(x.scope == scope && x.code == Some(code))) ==>
           r == Err(AccountsNotFound({})) && db' == db)
  {
    var p := HasCode(scope, code);
    var f := FindFirst(db.accounts, p);
    if f.Some? { assert p(db.accounts[f.value]) && db.accounts[f.value] in db.accounts; }
    forall i: nat | i < |db.accounts| && db.accounts[i].scope == scope && db.accounts[i].code == Some(code)
      ensures f == Some(i)
    {
      assert p(db.accounts[i]);
    }
  }

  // ---- Every report ----

  /** What a line of the request adds to a report that asks for the account: its rounded debit or credit. */
  function Added(accounts: seq<Account>, q: Query, debits: bool): RawLine<int> -> int {
    (l: RawLine<int>) =>
      if && 0 <= l.key < |accounts| && accounts[l.key].scope == q.scope && accounts[l.key].kind in q.types
         && (q.onlyCashBank ==> accounts[l.key].isCashBank) && (q.onlyReceivable ==> accounts[l.key].isReceivable)
         && (q.onlyPayable ==> accounts[l.key].isPayable) && (q.account.None? || q.account.value == l.key)
      then (if debits then Quantize(l.debit) else Quantize(l.credit)) else 0
  }

  /** The report covers the date. */
  predicate Covers(q: Query, date: int) {
    && (q.fromDate.None? || q.fromDate.value <= date) && (q.toDate.None? || date <= q.toDate.value)
    && (q.asOf.None? || date <= q.asOf.value)
  }

  /** A created post adds its rounded lines to exactly those reports of its scope that cover the request's date. */
  lemma PostMovesReports(db: Db, scope: Scope, r: Request, key: Option<string>, author: string, q: Query)
    requires LinesOk(db)
    requires Post(db, scope, r, key, author).1.Ok? && Post(db, scope, r, key, author).1.value.created
    ensures var db' := Post(db, scope, r, key, author).0;
      var counted := scope == q.scope && Covers(q, r.date);
      && Total(db', q, DR)
           == Total(db, q, DR) + (if counted then SumBy(r.lines, Added(db.accounts, q, true)) else 0)
      && Total(db', q, CR)
           == Total(db, q, CR) + (if counted then SumBy(r.lines, Added(db.accounts, q, false)) else 0)
  {
    PostStores(db, scope, r, key, author);
    PostStoresLines(db, scope, r, key, author);
    NewLinesMove(db, Post(db, scope, r, key, author).0, scope, r, q, DR, true);
    NewLinesMove(db, Post(db, scope, r, key, author).0, scope, r, q, CR, false);
  }

  lemma NewLinesMove(db: Db, db': Db, scope: Scope, r: Request, q: Query, amount: Line -> int, debits: bool)
    requires LinesOk(db) && db'.accounts == db.accounts && amount == if debits then DR else CR
    requires |db'.entries| == |db.entries| + 1 && db'.entries[..|db.entries|] == db.entries
    requires db'.entries[|db.entries|].scope == scope && db'.entries[|db.entries|].date == r.date
    requires db.lines <= db'.lines && IsPostedAs(db'.lines[|db.lines|..], scope, |db.entries|, r.lines)
    ensures Total(db', q, amount)
         == Total(db, q, amount)
              + if scope == q.scope && Covers(q, r.date) then SumBy(r.lines, Added(db.accounts, q, debits)) else 0
  {
    var news := db'.lines[|db.lines|..];
    assert db'.lines == db.lines + news;
    SumAppend(db.lines, news, Pick(db', q, amount));
    OldLinesStay(db, db', q, amount);
    SumOfNews(db', news, scope, r, q, amount, debits);
  }

  lemma {:induction false} SumOfNews(db: Db, news: seq<Line>, scope: Scope, r: Request, q: Query, amount: Line -> int,
      debits: bool)
    requires |db.entries| > 0 && amount == if debits then DR else CR
    requires db.entries[|db.entries| - 1].scope == scope && db.entries[|db.entries| - 1].date == r.date
    requires IsPostedAs(news, scope, |db.entries| - 1, r.lines)
    ensures SumBy(news, Pick(db, q, amount))
         == if scope == q.scope && Covers(q, r.date) then SumBy(r.lines, Added(db.accounts, q, debits)) else 0
  {
    if |news| == 0 {
    } else {
      var n := |news| - 1;
      SumOfNews(db, news[..n], scope, r.(lines := r.lines[..n]), q, amount, debits);
      NewLineMoves(db, q, r.lines[n], news[n], r.date, amount, debits);
    }
  }

  lemma NewLineMoves(db: Db, q: Query, raw: RawLine<int>, l: Line, date: int, amount: Line -> int, debits: bool)
    requires |db.entries| > 0 && amount == (if debits then DR else CR)
    requires l == Line(l.scope, |db.entries| - 1, raw.key, Quantize(raw.debit), Quantize(raw.credit))
    requires db.entries[|db.entries| - 1].scope == l.scope && db.entries[|db.entries| - 1].date == date
    ensures Pick(db, q, amount)(l)
         == if l.scope == q.scope && Covers(q, date) then Added(db.accounts, q, debits)(raw) else 0
  {
  }

  lemma OldLinesStay(db: Db, db': Db, q: Query, amount: Line -> int)
    requires LinesOk(db) && db'.accounts == db.accounts && db.entries <= db'.entries
    ensures SumBy(db.lines, Pick(db', q, amount)) == Total(db, q, amount)
  {
    SumExt(db.lines, Pick(db', q, amount), Pick(db, q, amount));
  }
}
