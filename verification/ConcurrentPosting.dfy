// Posting with the key lookup and the insert as separate transactions of concurrent callers.
module ConcurrentPosting {
  import opened Wrappers
  import opened Sums
  import opened Tables
  import opened Validation
  import opened Journal
  import opened Runs
  import SP = SourcePosting

  datatype Call =
    | Waiting(entry: Entry, postings: seq<Posting<int>>)
    | Done(scope: Scope, key: Option<string>, answer: Result<Posted, PostError>)

  datatype Shared = Shared(db: Db, calls: map<nat, Call>)

  datatype Move =
    | Look(id: nat, scope: Scope, request: Request, key: Option<string>, author: string)
    | Commit(id: nat)
    | Other(step: Step)

  /** Validation, key lookup and account check; a call that passes them still has to insert. */
  function LookUp(db: Db, scope: Scope, r: Request, key: Option<string>, author: string): Call {
    match Check(r.lines, NoBlank)
    case Err(e) => Done(scope, key, Err(InvalidLines(e)))
    case Ok(c) =>
      var replay := Replayed(db.entries, scope, key);
      var missing := MissingAccounts(db.accounts, scope, KeysOf(c.postings));
      if replay.Some? then Done(scope, key, Ok(Posted(replay.value, false)))
      else if missing != {} then Done(scope, key, Err(AccountsNotFound(missing)))
      else Waiting(NewEntry(scope, r, key, author, c), c.postings)
  }

  function Next(s: Shared, m: Move): Shared {
    match m
    case Look(id, scope, r, key, author) =>
      if id in s.calls then s else s.(calls := s.calls[id := LookUp(s.db, scope, r, key, author)])
    case Commit(id) =>
      if id in s.calls && s.calls[id].Waiting? then
        var c := s.calls[id];
        var (db', answer) := Insert(s.db, c.entry, c.postings);
        Shared(db', s.calls[id := Done(c.entry.scope, c.entry.key, answer)])
      else s
    case Other(step) => s.(db := Apply(s.db, step))
  }

  function Interleave(s: Shared, moves: seq<Move>): Shared {
    if |moves| == 0 then s else Next(Interleave(s, moves[..|moves| - 1]), moves[|moves| - 1])
  }

  ghost predicate CallOk(db: Db, c: Call) {
    match c
    case Waiting(e, ps) =>
      && IsDoubleEntry(ps) && e.totalDebit == SumBy(ps, Debit) && e.totalCredit == SumBy(ps, Credit)
      && MissingAccounts(db.accounts, e.scope, KeysOf(ps)) == {}
    case Done(scope, key, answer) =>
      answer.Ok? ==> answer.value.entryId < |db.entries|
                     && db.entries[answer.value.entryId].scope == scope && db.entries[answer.value.entryId].key == key
  }

  ghost predicate Consistent(s: Shared) {
    WellFormed(s.db) && forall id | id in s.calls :: CallOk(s.db, s.calls[id])
  }

  ghost predicate Grows(a: Db, b: Db) {
    && a.entries <= b.entries && |a.accounts| <= |b.accounts|
    && forall i | 0 <= i < |a.accounts| :: b.accounts[i].scope == a.accounts[i].scope
  }

  lemma PostGrows(db: Db, scope: Scope, r: Request, key: Option<string>, author: string)
    ensures Grows(db, Post(db, scope, r, key, author).0)
  {
  }

  /** Entries are never rewritten and accounts never leave their scope. */
  lemma ApplyGrows(db: Db, step: Step)
    ensures Grows(db, Apply(db, step))
  {
    match step
    case NewAccount(a) =>
    case Rename(s, c, n) =>
    case PostEntry(s, r, k, a) => PostGrows(db, s, r, k, a);
    case PostFromSource(s, r, k, a) => SourcePostGrows(db, s, r, k, a);
    case PutSources(s, items) =>
    case PutMappings(s, items, a) =>
    case ApproveMappings(s, sys, codes, a) =>
  }

  lemma SourcePostGrows(db: Db, scope: Scope, r: SP.SourceRequest, key: Option<string>, author: string)
    ensures Grows(db, SP.PostSource(db, scope, r, key, author).0)
  {
    var request, full := SP.CanonicalRequest(db, scope, r), SP.SourceIdempotencyKey(r.system, key);
    SourcePostIsPost(db, scope, r, key, author);
    PostGrows(db, scope, request, full, author);
  }

  lemma SourcePostIsPost(db: Db, scope: Scope, r: SP.SourceRequest, key: Option<string>, author: string)
    ensures SP.PostSource(db, scope, r, key, author).0 in
              [db, Post(db, scope, SP.CanonicalRequest(db, scope, r), SP.SourceIdempotencyKey(r.system, key), author).0]
  {
  }

  lemma CallStaysOk(a: Db, b: Db, c: Call)
    requires CallOk(a, c) && Grows(a, b)
    ensures CallOk(b, c)
  {
    if c.Waiting? {
      forall k | k in KeysOf(c.postings) ensures 0 <= k < |b.accounts| && b.accounts[k].scope == c.entry.scope {
        assert k !in MissingAccounts(a.accounts, c.entry.scope, KeysOf(c.postings));
      }
    }
  }

  lemma LookUpOk(db: Db, scope: Scope, r: Request, key: Option<string>, author: string)
    ensures CallOk(db, LookUp(db, scope, r, key, author))
  {
    AcceptedIff(r.lines, NoBlank);
    var replay := Replayed(db.entries, scope, key);
    if replay.Some? {
      assert HasKey(scope, key.value)(db.entries[replay.value]);
    }
  }

  lemma NextKeeps(s: Shared, m: Move)
    requires Consistent(s)
    ensures Consistent(Next(s, m))
  {
    match m
    case Look(id, scope, r, key, author) => LookUpOk(s.db, scope, r, key, author);
    case Other(step) =>
      ApplyKeeps(s.db, step);
      ApplyGrows(s.db, step);
      OthersStayOk(s, Apply(s.db, step));
    case Commit(id) => CommitKeeps(s, id);
  }

  lemma OthersStayOk(s: Shared, b: Db)
    requires Consistent(s) && Grows(s.db, b)
    ensures forall id | id in s.calls :: CallOk(b, s.calls[id])
  {
    forall id | id in s.calls ensures CallOk(b, s.calls[id]) { CallStaysOk(s.db, b, s.calls[id]); }
  }

  lemma InsertGrows(db: Db, e: Entry, ps: seq<Posting<int>>)
    ensures Grows(db, Insert(db, e, ps).0)
  {
  }

  lemma InsertKeeps(db: Db, c: Call)
    requires WellFormed(db) && CallOk(db, c) && c.Waiting?
    ensures WellFormed(Insert(db, c.entry, c.postings).0)
  {
    if Insert(db, c.entry, c.postings).0 != db { AppendKeeps(db, c.entry, c.postings); }
  }

  lemma CommitKeeps(s: Shared, id: nat)
    requires Consistent(s)
    ensures Consistent(Next(s, Commit(id)))
  {
    if id in s.calls && s.calls[id].Waiting? {
      var c := s.calls[id];
      var db' := Insert(s.db, c.entry, c.postings).0;
      InsertKeeps(s.db, c);
      InsertGrows(s.db, c.entry, c.postings);
      OthersStayOk(s, db');
    }
  }

  /** Under every interleaving, all successful answers for one scope and key name the same entry, which is the only one
      with that key. */
  lemma {:induction false} OneEntryPerKey(s: Shared, moves: seq<Move>)
    requires Consistent(s)
    ensures var s' := Interleave(s, moves);
      && Consistent(s')
      && forall i, j | i in s'.calls && j in s'.calls && s'.calls[i].Done? && s'.calls[j].Done?
                       && s'.calls[i].scope == s'.calls[j].scope && s'.calls[i].key == s'.calls[j].key
                           && s'.calls[i].key.Some?
                       && s'.calls[i].answer.Ok? && s'.calls[j].answer.Ok? ::
           s'.calls[i].answer.value.entryId == s'.calls[j].answer.value.entryId
  {
    if |moves| > 0 {
      OneEntryPerKey(s, moves[..|moves| - 1]);
      NextKeeps(Interleave(s, moves[..|moves| - 1]), moves[|moves| - 1]);
    }
    var s' := Interleave(s, moves);
    forall i, j | i in s'.calls && j in s'.calls && s'.calls[i].Done? && s'.calls[j].Done?
                  && s'.calls[i].scope == s'.calls[j].scope && s'.calls[i].key == s'.calls[j].key
                      && s'.calls[i].key.Some?
                  && s'.calls[i].answer.Ok? && s'.calls[j].answer.Ok?
      ensures s'.calls[i].answer.value.entryId == s'.calls[j].answer.value.entryId
    {
      assert CallOk(s'.db, s'.calls[i]) && CallOk(s'.db, s'.calls[j]);
    }
  }

  /** An uninterrupted lookup and insert is exactly a post. */
  lemma LookThenCommitIsPost(s: Shared, id: nat, scope: Scope, r: Request, key: Option<string>, author: string)
    requires id !in s.calls
    ensures var s' := Next(Next(s, Look(id, scope, r, key, author)), Commit(id));
      && s'.db == Post(s.db, scope, r, key, author).0
      && s'.calls[id] == Done(scope, key, Post(s.db, scope, r, key, author).1)
  {
  }
}
