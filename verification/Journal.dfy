// post_journal_entry, create_account and update_account_name as functions on the tables.
module Journal {
  import opened Wrappers
  import opened Seqs
  import opened Sums
  import opened Tables
  import opened Validation

  datatype Request = Request(
    date: int, description: Option<string>, reference: Option<string>, lines: seq<RawLine<int>>)

  datatype PostError =
    | InvalidLines(error: LineError)
    | AccountsNotFound(ids: set<int>)
    | SourcesNotFound(codes: set<string>)
    | MappingMissing(codes: set<string>)
    | IntegrityError

  /** The entry an accepted post answers with, and whether this call created it. */
  datatype Posted = Posted(entryId: nat, created: bool)

  function NoBlank(id: int): bool { false }

  /** The requested account ids that are not accounts of the scope. */
  function MissingAccounts(accounts: seq<Account>, scope: Scope, ids: set<int>): set<int> {
    set id | id in ids && !(0 <= id < |accounts| && accounts[id].scope == scope)
  }

  function ToLine(scope: Scope, journalId: int, p: Posting<int>): Line {
    Line(scope, journalId, p.key, p.debit, p.credit)
  }

  function ToLines(scope: Scope, journalId: int, ps: seq<Posting<int>>): (r: seq<Line>)
    ensures |r| == |ps| && forall i :: 0 <= i < |r| ==> r[i] == ToLine(scope, journalId, ps[i])
  {
    seq(|ps|, i requires 0 <= i < |ps| => ToLine(scope, journalId, ps[i]))
  }

  function NewEntry(scope: Scope, r: Request, key: Option<string>, author: string, c: Checked<int>): Entry {
    Entry(scope, r.date, r.description, r.reference, key, c.totalDebit, c.totalCredit, author)
  }

  function AppendEntry(db: Db, e: Entry, ps: seq<Posting<int>>): Db {
    db.(entries := db.entries + [e], lines := db.lines + ToLines(e.scope, |db.entries|, ps))
  }

  /** The lookup by idempotency key, skipped for an absent or empty key. */
  function Replayed(entries: seq<Entry>, scope: Scope, key: Option<string>): Option<nat> {
    if key.Some? && key.value != "" then FindFirst(entries, HasKey(scope, key.value)) else None
  }

  /** The unique constraint on (scope, idempotency key) refuses a second row with the same key. */
  function KeyTaken(entries: seq<Entry>, scope: Scope, key: Option<string>): bool {
    key.Some? && FindFirst(entries, HasKey(scope, key.value)).Some?
  }

  function Post(db: Db, scope: Scope, r: Request, key: Option<string>, author: string)
    : (Db, Result<Posted, PostError>)
  {
    match Check(r.lines, NoBlank)
    case Err(e) => (db, Err(InvalidLines(e)))
    case Ok(c) =>
      var replay := Replayed(db.entries, scope, key);
      if replay.Some? then (db, Ok(Posted(replay.value, false)))
      else
        var missing := MissingAccounts(db.accounts, scope, KeysOf(c.postings));
        if missing != {} then (db, Err(AccountsNotFound(missing)))
        else Insert(db, NewEntry(scope, r, key, author, c), c.postings)
  }

  /** The transaction that writes the entry and its lines: all or nothing under the unique constraint. */
  function Insert(db: Db, e: Entry, ps: seq<Posting<int>>): (Db, Result<Posted, PostError>) {
    if KeyTaken(db.entries, e.scope, e.key) then (db, Err(IntegrityError))
    else (AppendEntry(db, e, ps), Ok(Posted(|db.entries|, true)))
  }

  function CreateAccount(db: Db, a: Account): (Db, Result<nat, PostError>) {
    if !AccountChecks(a) || (a.code.Some? && FindFirst(db.accounts, HasCode(a.scope, a.code.value)).Some?)
    then (db, Err(IntegrityError))
    else (db.(accounts := db.accounts + [a]), Ok(|db.accounts|))
  }

  /** Renaming touches the name column only; a missing code is reported as no account found. */
  function RenameAccount(db: Db, scope: Scope, code: string, name: string): (Db, Result<nat, PostError>) {
    match FindFirst(db.accounts, HasCode(scope, code))
    case None => (db, Err(AccountsNotFound({})))
    case Some(i) => (db.(accounts := db.accounts[i := db.accounts[i].(name := name)]), Ok(i))
  }

  const ACCOUNT_ID: Posting<int> -> int := (p: Posting<int>) => p.key
  const ACCOUNT_NET: Posting<int> -> int := (p: Posting<int>) => p.debit - p.credit

  // ---- What one step keeps ----

  lemma NewLineSums(scope: Scope, n: int, e: int, ps: seq<Posting<int>>)
    ensures SumBy(ToLines(scope, n, ps), Slice(JOURNAL, DR, e)) == if e == n then SumBy(ps, Debit) else 0
    ensures SumBy(ToLines(scope, n, ps), Slice(JOURNAL, CR, e)) == if e == n then SumBy(ps, Credit) else 0
  {
    var ls := ToLines(scope, n, ps);
    var dr, cr := Slice(JOURNAL, DR, e), Slice(JOURNAL, CR, e);
    forall i | 0 <= i < |ps|
      ensures dr(ls[i]) == if e == n then ps[i].debit else 0
      ensures cr(ls[i]) == if e == n then ps[i].credit else 0
    {
      assert ls[i] == ToLine(scope, n, ps[i]);
    }
    if e == n {
      SumZip(ls, ps, dr, Debit);
      SumZip(ls, ps, cr, Credit);
    } else {
      SumZero(ls, dr);
      SumZero(ls, cr);
    }
  }

  /** No stored line belongs to the entry that is about to be written. */
  lemma OldLineSums(db: Db)
    requires LinesOk(db)
    ensures SumBy(db.lines, Slice(JOURNAL, DR, |db.entries|)) == 0
    ensures SumBy(db.lines, Slice(JOURNAL, CR, |db.entries|)) == 0
  {
    SumZero(db.lines, Slice(JOURNAL, DR, |db.entries|));
    SumZero(db.lines, Slice(JOURNAL, CR, |db.entries|));
  }

  /** Writing one double-entry block of lines on accounts of the scope keeps the tables well formed. */
  lemma AppendKeeps(db: Db, e: Entry, ps: seq<Posting<int>>)
    requires WellFormed(db) && IsDoubleEntry(ps)
    requires MissingAccounts(db.accounts, e.scope, KeysOf(ps)) == {}
    requires !KeyTaken(db.entries, e.scope, e.key)
    requires e.totalDebit == SumBy(ps, Debit) && e.totalCredit == SumBy(ps, Credit)
    ensures WellFormed(AppendEntry(db, e, ps))
  {
    AppendBalanced(db, e, ps);
    NewLinesOk(db, e, ps);
    NewSpread(db, e, ps);
    assert MappingsOk(AppendEntry(db, e, ps));
  }

  lemma NewSpread(db: Db, e: Entry, ps: seq<Posting<int>>)
    requires AllSpread(db) && IsDoubleEntry(ps)
    ensures AllSpread(AppendEntry(db, e, ps))
  {
    var lines := AppendEntry(db, e, ps).lines;
    var n := |db.lines|;
    var a, b :| 0 <= a < |ps| && 0 <= b < |ps| && ps[a].key != ps[b].key;
    assert lines[n + a] == ToLine(e.scope, |db.entries|, ps[a]) && lines[n + b] == ToLine(e.scope, |db.entries|, ps[b]);
    forall k | 0 <= k < |db.entries| ensures Spread(lines, k) {
      assert Spread(db.lines, k);
      var i, j :| 0 <= i < n && 0 <= j < n && db.lines[i].journalId == db.lines[j].journalId == k
                  && db.lines[i].accountId != db.lines[j].accountId;
      assert lines[i] == db.lines[i] && lines[j] == db.lines[j];
    }
  }

  lemma AppendBalanced(db: Db, e: Entry, ps: seq<Posting<int>>)
    requires LinesOk(db) && Balanced(db) && IsDoubleEntry(ps)
    requires e.totalDebit == SumBy(ps, Debit) && e.totalCredit == SumBy(ps, Credit)
    ensures Balanced(AppendEntry(db, e, ps))
  {
    var db' := AppendEntry(db, e, ps);
    var n := |db.entries|;
    BothSides(ps);
    OldLineSums(db);
    forall k | 0 <= k <= n
      ensures SumBy(db'.lines, Slice(JOURNAL, DR, k)) == db'.entries[k].totalDebit
      ensures SumBy(db'.lines, Slice(JOURNAL, CR, k)) == db'.entries[k].totalCredit
      ensures db'.entries[k].totalDebit == db'.entries[k].totalCredit > 0
    {
      NewLineSums(e.scope, n, k, ps);
      SumAppend(db.lines, ToLines(e.scope, n, ps), Slice(JOURNAL, DR, k));
      SumAppend(db.lines, ToLines(e.scope, n, ps), Slice(JOURNAL, CR, k));
    }
  }

  lemma NewLinesOk(db: Db, e: Entry, ps: seq<Posting<int>>)
    requires LinesOk(db) && IsDoubleEntry(ps)
    requires MissingAccounts(db.accounts, e.scope, KeysOf(ps)) == {}
    ensures LinesOk(AppendEntry(db, e, ps))
  {
    var db' := AppendEntry(db, e, ps);
    var added := ToLines(e.scope, |db.entries|, ps);
    forall l | l in db'.lines
      ensures 0 <= l.journalId < |db'.entries| && 0 <= l.accountId < |db'.accounts|
      ensures l.scope == db'.entries[l.journalId].scope == db'.accounts[l.accountId].scope
                && OneSided(l.debit, l.credit)
    {
      if l in added {
        var i :| 0 <= i < |added| && added[i] == l;
        assert ps[i] in ps && ps[i].key in KeysOf(ps);
        assert ps[i].key !in MissingAccounts(db.accounts, e.scope, KeysOf(ps));
      } else {
        assert l in db.lines;
      }
    }
  }

  /** Posting keeps every table constraint and the balance of every entry, whatever the request. */
  lemma PostKeeps(db: Db, scope: Scope, r: Request, key: Option<string>, author: string)
    requires WellFormed(db)
    ensures WellFormed(Post(db, scope, r, key, author).0)
  {
    AcceptedIff(r.lines, NoBlank);
    if Post(db, scope, r, key, author).0 != db {
      var c := Check(r.lines, NoBlank).value;
      AppendKeeps(db, NewEntry(scope, r, key, author, c), c.postings);
    }
  }

  /** A valid request on accounts of the scope is accepted, unless its key is the empty string. */
  lemma PostAccepts(db: Db, scope: Scope, r: Request, key: Option<string>, author: string)
    requires Check(r.lines, NoBlank).Ok? && key != Some("")
    requires MissingAccounts(db.accounts, scope, KeysOf(RoundAll(r.lines))) == {}
    ensures Post(db, scope, r, key, author).1.Ok?
  {
    AcceptedIff(r.lines, NoBlank);
  }

  /** A valid request under a fresh key on accounts of the scope appends its entry. */
  lemma PostFresh(db: Db, scope: Scope, r: Request, key: string, author: string)
    requires Check(r.lines, NoBlank).Ok? && !KeyTaken(db.entries, scope, Some(key))
    requires MissingAccounts(db.accounts, scope, KeysOf(RoundAll(r.lines))) == {}
    ensures var ps := RoundAll(r.lines);
      Post(db, scope, r, Some(key), author)
        == (AppendEntry(db, NewEntry(scope, r, Some(key), author, Checked(SumBy(ps, Debit), SumBy(ps, Debit), ps)), ps),
            Ok(Posted(|db.entries|, true)))
  {
    AcceptedIff(r.lines, NoBlank);
  }

  /** A created entry is appended with the rounded request lines, and nothing else changes. */
  lemma PostCreates(db: Db, scope: Scope, r: Request, key: Option<string>, author: string)
    requires Post(db, scope, r, key, author).1.Ok? && Post(db, scope, r, key, author).1.value.created
    ensures var (ps, db') := (RoundAll(r.lines), Post(db, scope, r, key, author).0);
      && IsDoubleEntry(ps)
      && db' == AppendEntry(db, NewEntry(scope, r, key, author, Checked(SumBy(ps, Debit), SumBy(ps, Debit), ps)), ps)
      && Post(db, scope, r, key, author).1.value.entryId == |db.entries|
  {
    AcceptedIff(r.lines, NoBlank);
  }

  /** Once an entry carries a non-empty key, a later valid post with that key returns it and writes nothing. */
  lemma ReplayReturnsEntry(db: Db, e: nat, r: Request, author: string)
    requires WellFormed(db) && e < |db.entries| && db.entries[e].key.Some? && db.entries[e].key.value != ""
    requires Check(r.lines, NoBlank).Ok?
    ensures Post(db, db.entries[e].scope, r, db.entries[e].key, author) == (db, Ok(Posted(e, false)))
  {
    var scope, key := db.entries[e].scope, db.entries[e].key.value;
    assert HasKey(scope, key)(db.entries[e]);
    var found := FindFirst(db.entries, HasKey(scope, key));
    assert HasKey(scope, key)(db.entries[found.value]);
  }

  lemma CreateAccountKeeps(db: Db, a: Account)
    requires WellFormed(db)
    ensures WellFormed(CreateAccount(db, a).0)
    ensures CreateAccount(db, a).0.entries == db.entries && CreateAccount(db, a).0.lines == db.lines
    ensures CreateAccount(db, a).0.accounts == db.accounts + if CreateAccount(db, a).1.Ok? then [a] else []
  {
    var db' := CreateAccount(db, a).0;
    if db' != db && a.code.Some? {
      forall i | 0 <= i < |db.accounts| && db.accounts[i].scope == a.scope ensures db.accounts[i].code != a.code {
        assert !HasCode(a.scope, a.code.value)(db.accounts[i]);
      }
    }
    assert LinesOk(db') && Balanced(db') && AllSpread(db') && MappingsOk(db');
  }

  lemma RenameKeeps(db: Db, scope: Scope, code: string, name: string)
    requires WellFormed(db)
    ensures WellFormed(RenameAccount(db, scope, code, name).0)
  {
    var db' := RenameAccount(db, scope, code, name).0;
    if db' != db {
      assert forall i | 0 <= i < |db.accounts| ::
          db'.accounts[i] == db.accounts[i].(name := db'.accounts[i].name);
      assert forall i | 0 <= i < |db.accounts| :: db.accounts[i] in db.accounts && AccountChecks(db.accounts[i]);
      assert LinesOk(db') && Balanced(db') && AllSpread(db') && MappingsOk(db');
    }
  }
}
