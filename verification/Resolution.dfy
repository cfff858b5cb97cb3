// Which canonical account a source code stands for, what the source post answers, and what the gap list leaves open.
module Resolution {
  import opened Wrappers
  import opened Seqs
  import opened Money
  import opened Text
  import opened Tables
  import opened Validation
  import opened Journal
  import opened PostedEntries
  import opened SP = SourcePosting
  import opened Coa

  /** Source account i of the scope and system carries the code and is active. */
  predicate Carries(db: Db, scope: Scope, system: SourceSystem, code: string, i: nat) {
    && i < |db.sources| && db.sources[i].scope == scope && db.sources[i].system == system
    && db.sources[i].code == code && db.sources[i].active
  }

  /** An approved mapping of source account i leads to account a. */
  predicate Leads(db: Db, scope: Scope, i: nat, a: int) {
    exists m | m in db.mappings :: m.scope == scope && m.sourceId == i && m.status == Active && m.canonicalId == a
  }

  predicate IsApproved(db: Db, scope: Scope, i: nat) {
    exists m | m in db.mappings :: m.scope == scope && m.sourceId == i && m.status == Active
  }

  lemma SourceOf(db: Db, scope: Scope, system: SourceSystem, code: string, i: nat)
    requires SourcesOk(db.sources) && Carries(db, scope, system, code, i)
    ensures ActiveSource(db, scope, system, code) == Some(i)
  {
    assert IsActiveSource(scope, system, code)(db.sources[i]);
    var f := ActiveSource(db, scope, system, code).value;
    assert IsActiveSource(scope, system, code)(db.sources[f]);
  }

  lemma MappingOf(db: Db, scope: Scope, i: nat, m: Mapping)
    requires MappingsOk(db) && m in db.mappings && m.scope == scope && m.sourceId == i && m.status == Active
    ensures var f := FindFirst(db.mappings, IsActiveMapping(scope, i)); f.Some? && db.mappings[f.value] == m
  {
    var k :| 0 <= k < |db.mappings| && db.mappings[k] == m;
    assert IsActiveMapping(scope, i)(db.mappings[k]);
    var f := FindFirst(db.mappings, IsActiveMapping(scope, i)).value;
    assert IsActiveMapping(scope, i)(db.mappings[f]);
  }

  /** A code resolves to an account exactly when an active source account of the scope and system carries it and an
      active mapping of that source account leads to the account. */
  lemma CanonicalIff(db: Db, scope: Scope, system: SourceSystem, code: string, a: nat)
    requires WellFormed(db)
    ensures Canonical(db, scope, system)(code) == a
            <==> exists i :: Carries(db, scope, system, code, i) && Leads(db, scope, i, a)
  {
    if i :| Carries(db, scope, system, code, i) && Leads(db, scope, i, a) {
      SourceOf(db, scope, system, code, i);
      var m :| m in db.mappings && m.scope == scope && m.sourceId == i && m.status == Active && m.canonicalId == a;
      MappingOf(db, scope, i, m);
    }
    if Canonical(db, scope, system)(code) == a {
      var i := ActiveSource(db, scope, system, code).value;
      assert IsActiveSource(scope, system, code)(db.sources[i]);
      var k := ActiveMapping(db, scope, system, code).value;
      assert IsActiveMapping(scope, i)(db.mappings[k]) && db.mappings[k] in db.mappings;
      assert Carries(db, scope, system, code, i) && Leads(db, scope, i, a);
    }
  }

  lemma UnknownIff(db: Db, scope: Scope, system: SourceSystem, code: string)
    requires SourcesOk(db.sources)
    ensures ActiveSource(db, scope, system, code).None? <==> forall i :: !Carries(db, scope, system, code, i)
  {
    var f := ActiveSource(db, scope, system, code);
    if f.Some? {
      assert IsActiveSource(scope, system, code)(db.sources[f.value]);
      assert Carries(db, scope, system, code, f.value);
    }
    if i :| Carries(db, scope, system, code, i) { SourceOf(db, scope, system, code, i); }
  }

  lemma UnresolvedIff(db: Db, scope: Scope, system: SourceSystem, code: string)
    requires WellFormed(db)
    ensures ActiveMapping(db, scope, system, code).None?
            <==> forall i :: Carries(db, scope, system, code, i) ==> !IsApproved(db, scope, i)
  {
    UnknownIff(db, scope, system, code);
    if i :| Carries(db, scope, system, code, i) && IsApproved(db, scope, i) {
      SourceOf(db, scope, system, code, i);
      var m :| m in db.mappings && m.scope == scope && m.sourceId == i && m.status == Active;
      MappingOf(db, scope, i, m);
    }
    if k :| ActiveMapping(db, scope, system, code) == Some(k) {
      var i := ActiveSource(db, scope, system, code).value;
      assert IsActiveSource(scope, system, code)(db.sources[i]) && Carries(db, scope, system, code, i);
      assert IsActiveMapping(scope, i)(db.mappings[k]) && db.mappings[k] in db.mappings && IsApproved(db, scope, i);
    }
  }

  /** The stripped codes of the request. */
  function Codes(r: SourceRequest): set<string> {
    set l | l in r.lines :: Strip(l.key)
  }

  ghost function UnknownCodes(db: Db, scope: Scope, r: SourceRequest): set<string> {
    set c | c in Codes(r) && forall i :: !Carries(db, scope, r.system, c, i)
  }

  ghost function UnapprovedCodes(db: Db, scope: Scope, r: SourceRequest): set<string> {
    set c | c in Codes(r) && forall i :: Carries(db, scope, r.system, c, i) ==> !IsApproved(db, scope, i)
  }

  lemma CodesAre(r: SourceRequest)
    ensures KeysOf(RoundAll(StripLines(r.lines))) == Codes(r)
  {
    var ps := RoundAll(StripLines(r.lines));
    forall k | 0 <= k < |ps| ensures ps[k].key == Strip(r.lines[k].key) && ps[k] in ps && r.lines[k] in r.lines {
    }
    forall c ensures c in KeysOf(ps) <==> c in Codes(r) {
      if p :| p in ps && p.key == c {
        var k :| 0 <= k < |ps| && ps[k] == p;
      }
      if l :| l in r.lines && Strip(l.key) == c {
        var k :| 0 <= k < |r.lines| && r.lines[k] == l;
      }
    }
  }

  lemma ProblemCodes(db: Db, scope: Scope, r: SourceRequest)
    requires WellFormed(db)
    ensures Unknown(db, scope, r.system, Codes(r)) == UnknownCodes(db, scope, r)
    ensures Unresolved(db, scope, r.system, Codes(r)) == UnapprovedCodes(db, scope, r)
  {
    forall c | c in Codes(r)
      ensures ActiveSource(db, scope, r.system, c).None? <==> forall i :: !Carries(db, scope, r.system, c, i)
      ensures ActiveMapping(db, scope, r.system, c).None?
              <==> forall i :: Carries(db, scope, r.system, c, i) ==> !IsApproved(db, scope, i)
    {
      UnknownIff(db, scope, r.system, c);
      UnresolvedIff(db, scope, r.system, c);
    }
  }

  /** The answer, cause by cause: invalid lines first, then codes that no active source account carries, then codes
      whose source account has no active mapping, and only then a direct post. */
  lemma SourceAnswers(db: Db, scope: Scope, r: SourceRequest, key: Option<string>, author: string)
    requires WellFormed(db)
    ensures var (db', a) := PostSource(db, scope, r, key, author);
      match Check(StripLines(r.lines), IsBlank)
      case Err(x) => db' == db && a == Err(InvalidLines(x))
      case Ok(_) =>
        if UnknownCodes(db, scope, r) != {} then
          db' == db && a == Err(PostError.SourcesNotFound(UnknownCodes(db, scope, r)))
        else if UnapprovedCodes(db, scope, r) != {} then
          db' == db && a == Err(MappingMissing(UnapprovedCodes(db, scope, r)))
        else (db', a) == Post(db, scope, CanonicalRequest(db, scope, r), SourceIdempotencyKey(r.system, key), author)
  {
    AcceptedIff(StripLines(r.lines), IsBlank);
    CodesAre(r);
    ProblemCodes(db, scope, r);
  }

  /** Source lines are valid exactly when no stripped code is empty and the rounded lines are a double entry by code. */
  lemma SourceValidIff(r: SourceRequest)
    ensures Check(StripLines(r.lines), IsBlank).Ok? <==>
              (forall l | l in r.lines :: Strip(l.key) != "") && IsDoubleEntry(RoundAll(StripLines(r.lines)))
  {
    AcceptedIff(StripLines(r.lines), IsBlank);
    StripBlanks(r.lines);
  }

  lemma {:induction false} StripBlanks(raw: seq<RawLine<string>>)
    ensures (forall l | l in StripLines(raw) :: !IsBlank(l.key)) <==> forall l | l in raw :: Strip(l.key) != ""
  {
    if |raw| == 0 {
    } else {
      var front, last := raw[..|raw| - 1], raw[|raw| - 1];
      StripBlanks(front);
      assert raw == front + [last];
      assert StripLines(raw) == StripLines(front) + [StripLine(last)];
    }
  }

  /** The stored key begins with the system's name and the stripped caller's key, and holds at most 120 characters of
      them. */
  lemma StoredKeyIs(system: SourceSystem, key: string)
    requires key != ""
    ensures var name := match system case GharMitra => "ghar_mitra" case MandirMitra => "mandir_mitra"
                          case MitraBooks => "mitra_books" case LegalMitra => "legal_mitra"
                          case InvestMitra => "invest_mitra";
      var (full, k) := (name + ":" + Strip(key), SourceIdempotencyKey(system, Some(key)).value);
      k <= full && |k| == if |full| <= 120 then |full| else 120
  {
  }

  // ---- What a source post stores ----

  /** The entry that a source post creates holds the request's own fields under the prefixed key. */
  lemma SourceStores(db: Db, scope: Scope, r: SourceRequest, key: Option<string>, author: string)
    requires PostSource(db, scope, r, key, author).1.Ok? && PostSource(db, scope, r, key, author).1.value.created
    ensures var (entries, n) := (PostSource(db, scope, r, key, author).0.entries, |db.entries|);
      && |entries| == n + 1 && entries[..n] == db.entries
      && entries[n].scope == scope && entries[n].date == r.date
      && entries[n].description == r.description && entries[n].reference == r.reference
      && entries[n].key == SourceIdempotencyKey(r.system, key) && entries[n].createdBy == author
  {
    PostStores(db, scope, CanonicalRequest(db, scope, r), SourceIdempotencyKey(r.system, key), author);
  }

  /** Its lines hold, in order, the rounded amounts of the request's lines on the accounts that the active mappings of
      their codes lead to. */
  lemma SourceStoresLines(db: Db, scope: Scope, r: SourceRequest, key: Option<string>, author: string, k: nat)
    requires WellFormed(db) && k < |r.lines|
    requires PostSource(db, scope, r, key, author).1.Ok? && PostSource(db, scope, r, key, author).1.value.created
    ensures var lines := PostSource(db, scope, r, key, author).0.lines;
      && db.lines <= lines && |lines| == |db.lines| + |r.lines|
      && var l := lines[|db.lines|..][k];
      && l.scope == scope && l.journalId == |db.entries| && l.accountId >= 0
      && l.debit == Quantize(r.lines[k].debit) && l.credit == Quantize(r.lines[k].credit)
      && exists i :: Carries(db, scope, r.system, Strip(r.lines[k].key), i) && Leads(db, scope, i, l.accountId)
  {
    var c := Strip(r.lines[k].key);
    SourceLineStored(db, scope, r, key, author, k);
    CodeResolved(db, scope, r, key, author, k);
    CanonicalIff(db, scope, r.system, c, Canonical(db, scope, r.system)(c));
  }

  lemma SourceLineStored(db: Db, scope: Scope, r: SourceRequest, key: Option<string>, author: string, k: nat)
    requires k < |r.lines|
    requires PostSource(db, scope, r, key, author).1.Ok? && PostSource(db, scope, r, key, author).1.value.created
    ensures var lines := PostSource(db, scope, r, key, author).0.lines;
      && db.lines <= lines && |lines| == |db.lines| + |r.lines|
      && lines[|db.lines|..][k]
           == Line(scope, |db.entries|, Canonical(db, scope, r.system)(Strip(r.lines[k].key)),
                Quantize(r.lines[k].debit), Quantize(r.lines[k].credit))
  {
    var q, full := CanonicalRequest(db, scope, r), SourceIdempotencyKey(r.system, key);
    PostsDirectly(db, scope, r, key, author);
    TranslatedLine(db, scope, r, k);
    PostStoresLines(db, scope, q, full, author);
    assert Post(db, scope, q, full, author).0.lines[|db.lines|..][k]
        == Line(scope, |db.entries|, q.lines[k].key, Quantize(q.lines[k].debit), Quantize(q.lines[k].credit));
  }

  lemma PostsDirectly(db: Db, scope: Scope, r: SourceRequest, key: Option<string>, author: string)
    requires PostSource(db, scope, r, key, author).1.Ok?
    ensures forall p | p in RoundAll(StripLines(r.lines)) :: p.debit >= 0 && p.credit >= 0
    ensures |CanonicalRequest(db, scope, r).lines| == |r.lines|
    ensures PostSource(db, scope, r, key, author)
         == Post(db, scope, CanonicalRequest(db, scope, r), SourceIdempotencyKey(r.system, key), author)
  {
    AcceptedIff(StripLines(r.lines), IsBlank);
  }

  lemma TranslatedLine(db: Db, scope: Scope, r: SourceRequest, k: nat)
    requires k < |r.lines| && forall p | p in RoundAll(StripLines(r.lines)) :: p.debit >= 0 && p.credit >= 0
    ensures var l := CanonicalRequest(db, scope, r).lines[k];
      && l.key == Canonical(db, scope, r.system)(Strip(r.lines[k].key))
      && Quantize(l.debit) == Quantize(r.lines[k].debit) && Quantize(l.credit) == Quantize(r.lines[k].credit)
  {
    WholePaise(Quantize(r.lines[k].debit));
    WholePaise(Quantize(r.lines[k].credit));
  }

  lemma CodeResolved(db: Db, scope: Scope, r: SourceRequest, key: Option<string>, author: string, k: nat)
    requires WellFormed(db) && k < |r.lines| && PostSource(db, scope, r, key, author).1.Ok?
    ensures Canonical(db, scope, r.system)(Strip(r.lines[k].key)) >= 0
  {
    var c := Strip(r.lines[k].key);
    AcceptedIff(StripLines(r.lines), IsBlank);
    CodesAre(r);
    assert r.lines[k] in r.lines && c in Codes(r);
    assert c !in Unresolved(db, scope, r.system, Codes(r));
    var m := ActiveMapping(db, scope, r.system, c).value;
    assert MappingOk(db, db.mappings[m]);
  }

  // ---- The gap list ----

  /** The gap list names exactly the active source accounts of the system without an active mapping. */
  lemma GapsIff(db: Db, scope: Scope, system: SourceSystem, i: nat)
    ensures i in Gaps(db, scope, system) <==>
              i < |db.sources| && Carries(db, scope, system, db.sources[i].code, i) && !IsApproved(db, scope, i)
  {
  }

  /** With an empty gap list every code of an active source account resolves. */
  lemma NoGapsResolve(db: Db, scope: Scope, system: SourceSystem, i: nat)
    requires WellFormed(db) && Gaps(db, scope, system) == []
    requires i < |db.sources| && Carries(db, scope, system, db.sources[i].code, i)
    ensures Canonical(db, scope, system)(db.sources[i].code) >= 0
    ensures Unresolved(db, scope, system, {db.sources[i].code}) == {}
  {
    var code := db.sources[i].code;
    GapsIff(db, scope, system, i);
    UnresolvedIff(db, scope, system, code);
    var m := ActiveMapping(db, scope, system, code).value;
    assert MappingOk(db, db.mappings[m]);
  }
}
