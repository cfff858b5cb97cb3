// post_source_journal_entry: source-system lines resolved through the mapping and posted as canonical lines.
module SourcePosting {
  import opened Wrappers
  import opened Seqs
  import opened Sums
  import opened Money
  import opened Text
  import opened Tables
  import opened Validation
  import opened Journal

  datatype SourceRequest = SourceRequest(
    system: SourceSystem, date: int, description: Option<string>, reference: Option<string>,
        lines: seq<RawLine<string>>)

  function SystemName(s: SourceSystem): (r: string)
    ensures r != ""
  {
    match s
    case GharMitra => "ghar_mitra"
    case MandirMitra => "mandir_mitra"
    case MitraBooks => "mitra_books"
    case LegalMitra => "legal_mitra"
    case InvestMitra => "invest_mitra"
  }

  /** The prefixed, truncated idempotency key; none when the caller's key is absent or empty. */
  function SourceIdempotencyKey(system: SourceSystem, key: Option<string>): (r: Option<string>)
    ensures r.Some? ==> r.value != ""
  {
    if key.None? || key.value == "" then None
    else
      var full := SystemName(system) + ":" + Strip(key.value);
      Some(if |full| > 120 then full[..120] else full)
  }

  /** How many characters of the caller's key survive beside the system's prefix. */
  function Room(system: SourceSystem): nat {
    119 - |SystemName(system)|
  }

  function CutTo(s: string, n: nat): string {
    if |s| > n then s[..n] else s
  }

  /** Two callers' keys end up the same exactly when they name the same system and their stripped keys agree on the
      characters that survive the cut at 120. */
  lemma KeysCollideIff(s: SourceSystem, a: string, t: SourceSystem, b: string)
    requires a != "" && b != ""
    ensures SourceIdempotencyKey(s, Some(a)) == SourceIdempotencyKey(t, Some(b))
            <==> s == t && CutTo(Strip(a), Room(s)) == CutTo(Strip(b), Room(t))
  {
    var k, l := SourceIdempotencyKey(s, Some(a)).value, SourceIdempotencyKey(t, Some(b)).value;
    KeyShape(s, a);
    KeyShape(t, b);
    if k == l {
      PrefixTells(s, t, CutTo(Strip(a), Room(s)), CutTo(Strip(b), Room(t)));
    }
  }

  lemma KeyShape(s: SourceSystem, a: string)
    requires a != ""
    ensures SourceIdempotencyKey(s, Some(a)) == Some(SystemName(s) + ":" + CutTo(Strip(a), Room(s)))
  {
    var name, x := SystemName(s), Strip(a);
    if |name + ":" + x| > 120 {
      assert (name + ":" + x)[..120] == name + ":" + x[..Room(s)];
    }
  }

  lemma PrefixTells(s: SourceSystem, t: SourceSystem, x: string, y: string)
    requires SystemName(s) + ":" + x == SystemName(t) + ":" + y
    ensures s == t && x == y
  {
    var k := SystemName(s) + ":" + x;
    assert k[0] == SystemName(s)[0] == SystemName(t)[0] && k[1] == SystemName(s)[1] == SystemName(t)[1];
    assert s == t;
    var n := |SystemName(s)| + 1;
    assert k[n..] == x;
    assert (SystemName(t) + ":" + y)[n..] == y;
  }

  function StripLine(l: RawLine<string>): RawLine<string> {
    l.(key := Strip(l.key))
  }

  function StripLines(lines: seq<RawLine<string>>): (r: seq<RawLine<string>>)
    ensures |r| == |lines| && forall i :: 0 <= i < |r| ==> r[i] == StripLine(lines[i])
  {
    seq(|lines|, i requires 0 <= i < |lines| => StripLine(lines[i]))
  }

  function IsBlank(code: string): bool { code == "" }

  function IsActiveSource(scope: Scope, system: SourceSystem, code: string): SourceAccount -> bool {
    (s: SourceAccount) => s.scope == scope && s.system == system && s.code == code && s.active
  }

  function IsActiveMapping(scope: Scope, sourceId: int): Mapping -> bool {
    (m: Mapping) => m.scope == scope && m.status == Active && m.sourceId == sourceId
  }

  function ActiveSource(db: Db, scope: Scope, system: SourceSystem, code: string): Option<nat> {
    FindFirst(db.sources, IsActiveSource(scope, system, code))
  }

  function ActiveMapping(db: Db, scope: Scope, system: SourceSystem, code: string): Option<nat> {
    var s := ActiveSource(db, scope, system, code);
    if s.None? then None else FindFirst(db.mappings, IsActiveMapping(scope, s.value))
  }

  /** The canonical account a source code currently resolves to, -1 when it resolves to none. */
  function Canonical(db: Db, scope: Scope, system: SourceSystem): string -> int {
    (code: string) =>
      var m := ActiveMapping(db, scope, system, code);
      if m.None? then -1 else db.mappings[m.value].canonicalId
  }

  function Unknown(db: Db, scope: Scope, system: SourceSystem, codes: set<string>): set<string> {
    set c | c in codes && ActiveSource(db, scope, system, c).None?
  }

  function Unresolved(db: Db, scope: Scope, system: SourceSystem, codes: set<string>): set<string> {
    set c | c in codes && ActiveMapping(db, scope, system, c).None?
  }

  /** The rounded source lines carried over to their canonical accounts. */
  function Translate(ps: seq<Posting<string>>, resolve: string -> int): (r: seq<RawLine<int>>)
    requires forall p | p in ps :: p.debit >= 0 && p.credit >= 0
    ensures |r| == |ps|
    ensures forall i :: 0 <= i < |r| ==> r[i] == RawLine(resolve(ps[i].key), ps[i].debit as real, ps[i].credit as real)
  {
    seq(|ps|, i requires 0 <= i < |ps| =>
      assert ps[i] in ps;
      RawLine(resolve(ps[i].key), ps[i].debit as real, ps[i].credit as real))
  }

  function CanonicalRequest(db: Db, scope: Scope, r: SourceRequest): Request {
    var ps := RoundAll(StripLines(r.lines));
    Request(r.date, r.description, r.reference, Translate(ps, Canonical(db, scope, r.system)))
  }

  function PostSource(db: Db, scope: Scope, r: SourceRequest, key: Option<string>, author: string): (Db, Result<Posted,
      PostError>) {
    match Check(StripLines(r.lines), IsBlank)
    case Err(e) => (db, Err(InvalidLines(e)))
    case Ok(c) =>
      var codes := KeysOf(c.postings);
      if Unknown(db, scope, r.system, codes) != {} then
        (db, Err(SourcesNotFound(Unknown(db, scope, r.system, codes))))
      else if Unresolved(db, scope, r.system, codes) != {} then
        (db, Err(MappingMissing(Unresolved(db, scope, r.system, codes))))
      else
        Post(db, scope, CanonicalRequest(db, scope, r), SourceIdempotencyKey(r.system, key), author)
  }

  // ---- What the translation keeps ----

  /** Rounding the translated lines gives back the source lines under their canonical accounts. */
  lemma TranslatedLines(ps: seq<Posting<string>>, resolve: string -> int)
    requires forall p | p in ps :: p.debit >= 0 && p.credit >= 0
    ensures var t := RoundAll(Translate(ps, resolve));
      && |t| == |ps|
      && (forall i | 0 <= i < |ps| :: t[i] == Posting(resolve(ps[i].key), ps[i].debit, ps[i].credit))
      && SumBy(t, Debit) == SumBy(ps, Debit) && SumBy(t, Credit) == SumBy(ps, Credit)
  {
    var t := RoundAll(Translate(ps, resolve));
    forall i | 0 <= i < |ps| ensures t[i] == Posting(resolve(ps[i].key), ps[i].debit, ps[i].credit) {
      WholePaise(ps[i].debit);
      WholePaise(ps[i].credit);
    }
    SumZip(t, ps, Debit, Debit);
    SumZip(t, ps, Credit, Credit);
  }

  const CODE: Posting<string> -> string := (p: Posting<string>) => p.key
  const CODE_NET: Posting<string> -> int := (p: Posting<string>) => p.debit - p.credit

  /** The nets of the source codes that resolve to account a. */
  function MappedTo(ps: seq<Posting<string>>, resolve: string -> int, a: int): string -> int {
    (c: string) => if resolve(c) == a then SliceSum(ps, CODE, CODE_NET)(c) else 0
  }

  /** An account's net on the translated lines is the sum of the nets of the source codes mapped to it. */
  lemma NetByCode(ps: seq<Posting<string>>, resolve: string -> int, codes: seq<string>, a: int)
    requires forall p | p in ps :: p.debit >= 0 && p.credit >= 0
    requires NoDup(codes) && forall p | p in ps :: p.key in codes
    ensures SliceSum(RoundAll(Translate(ps, resolve)), ACCOUNT_ID, ACCOUNT_NET)(a)
              == SumBy(codes, MappedTo(ps, resolve, a))
  {
    TranslatedLines(ps, resolve);
    var t := RoundAll(Translate(ps, resolve));
    var onA := (p: Posting<string>) => if resolve(p.key) == a then p.debit - p.credit else 0;
    SumZip(t, ps, Slice(ACCOUNT_ID, ACCOUNT_NET, a), onA);
    SumGroup(ps, codes, CODE, onA);
    forall c | c in codes ensures SliceSum(ps, CODE, onA)(c) == MappedTo(ps, resolve, a)(c) {
      if resolve(c) == a {
        SumExt(ps, Slice(CODE, onA, c), Slice(CODE, CODE_NET, c));
      } else {
        SumZero(ps, Slice(CODE, onA, c));
      }
    }
    SumExt(codes, SliceSum(ps, CODE, onA), MappedTo(ps, resolve, a));
  }

  /** All the codes of the request have an active source account with an active mapping. */
  predicate FullyMapped(db: Db, scope: Scope, r: SourceRequest) {
    Unresolved(db, scope, r.system, KeysOf(RoundAll(StripLines(r.lines)))) == {}
  }

  /** Every line falls on the same canonical account. */
  predicate OneTarget(ps: seq<Posting<string>>, resolve: string -> int) {
    forall i, j :: 0 <= i < |ps| && 0 <= j < |ps| ==> resolve(ps[i].key) == resolve(ps[j].key)
  }

  predicate Collapses(db: Db, scope: Scope, r: SourceRequest) {
    OneTarget(RoundAll(StripLines(r.lines)), Canonical(db, scope, r.system))
  }

  /** A valid source journal whose codes are all mapped is accepted unless all codes collapse to one canonical account;
      no account is ever missing, and the unique key is never violated. */
  lemma MappedPostFailsIff(db: Db, scope: Scope, r: SourceRequest, key: Option<string>, author: string)
    requires WellFormed(db)
    requires Check(StripLines(r.lines), IsBlank).Ok? && FullyMapped(db, scope, r)
    ensures PostSource(db, scope, r, key, author).1.Err? <==> Collapses(db, scope, r)
    ensures PostSource(db, scope, r, key, author).1.Err? ==>
              PostSource(db, scope, r, key, author) == (db, Err(InvalidLines(SingleAccount)))
  {
    MappedIsDirect(db, scope, r, key, author);
    AcceptedIff(StripLines(r.lines), IsBlank);
    TranslatedVerdict(RoundAll(StripLines(r.lines)), Canonical(db, scope, r.system));
    if !Collapses(db, scope, r) {
      MappedAccounts(db, scope, r);
      PostAccepts(db, scope, CanonicalRequest(db, scope, r), SourceIdempotencyKey(r.system, key), author);
    }
  }

  lemma MappedIsDirect(db: Db, scope: Scope, r: SourceRequest, key: Option<string>, author: string)
    requires Check(StripLines(r.lines), IsBlank).Ok? && FullyMapped(db, scope, r)
    ensures PostSource(db, scope, r, key, author)
         == Post(db, scope, CanonicalRequest(db, scope, r), SourceIdempotencyKey(r.system, key), author)
  {
    AcceptedIff(StripLines(r.lines), IsBlank);
    MappedCodes(db, scope, r);
  }

  lemma MappedCodes(db: Db, scope: Scope, r: SourceRequest)
    requires FullyMapped(db, scope, r)
    ensures forall c | c in KeysOf(RoundAll(StripLines(r.lines))) :: ActiveMapping(db, scope, r.system, c).Some?
    ensures Unknown(db, scope, r.system, KeysOf(RoundAll(StripLines(r.lines)))) == {}
  {
    var codes := KeysOf(RoundAll(StripLines(r.lines)));
    forall c | c in codes ensures ActiveMapping(db, scope, r.system, c).Some? {
      assert c !in Unresolved(db, scope, r.system, codes);
    }
  }

  lemma MappedAccounts(db: Db, scope: Scope, r: SourceRequest)
    requires WellFormed(db) && FullyMapped(db, scope, r)
    ensures MissingAccounts(db.accounts, scope, KeysOf(RoundAll(CanonicalRequest(db, scope, r).lines))) == {}
  {
    var ps := RoundAll(StripLines(r.lines));
    MappedCodes(db, scope, r);
  }

  /** A valid, fully mapped source journal that does not collapse is always answered with an entry. It is written
      exactly when no entry of the scope carries the prefixed key yet; otherwise it is dropped: the answer is that
      entry, and nothing is written. */
  lemma JournalDroppedIff(db: Db, scope: Scope, r: SourceRequest, key: Option<string>, author: string)
    requires WellFormed(db)
    requires Check(StripLines(r.lines), IsBlank).Ok? && FullyMapped(db, scope, r) && !Collapses(db, scope, r)
    ensures var (k, posted) := (SourceIdempotencyKey(r.system, key), PostSource(db, scope, r, key, author).1);
      && posted.Ok? && (posted.value.created <==> !KeyTaken(db.entries, scope, k))
      && (forall e: nat | e < |db.entries| && k.Some? && HasKey(scope, k.value)(db.entries[e]) ::
          PostSource(db, scope, r, key, author) == (db, Ok(Posted(e, false))))
  {
    MappedPostFailsIff(db, scope, r, key, author);
    MappedIsDirect(db, scope, r, key, author);
    var k := SourceIdempotencyKey(r.system, key);
    forall e: nat | e < |db.entries| && k.Some? && HasKey(scope, k.value)(db.entries[e])
      ensures PostSource(db, scope, r, key, author) == (db, Ok(Posted(e, false)))
    {
      MappedReplays(db, scope, r, key, author, e);
    }
  }

  lemma MappedReplays(db: Db, scope: Scope, r: SourceRequest, key: Option<string>, author: string, e: nat)
    requires WellFormed(db) && e < |db.entries| && SourceIdempotencyKey(r.system, key).Some?
    requires HasKey(scope, SourceIdempotencyKey(r.system, key).value)(db.entries[e])
    requires Check(StripLines(r.lines), IsBlank).Ok? && FullyMapped(db, scope, r) && !Collapses(db, scope, r)
    ensures PostSource(db, scope, r, key, author) == (db, Ok(Posted(e, false)))
  {
    MappedIsDirect(db, scope, r, key, author);
    AcceptedIff(StripLines(r.lines), IsBlank);
    TranslatedVerdict(RoundAll(StripLines(r.lines)), Canonical(db, scope, r.system));
    ReplayReturnsEntry(db, e, CanonicalRequest(db, scope, r), author);
  }

  /** A direct journal may carry a source system's prefix in its own key: the source journal that comes after it under
      the bare key is dropped, although no two source keys collide. */
  lemma DirectKeyShadows(db: Db, scope: Scope, direct: Request, r: SourceRequest, author: string)
    requires WellFormed(db) && r.system == GharMitra
    requires Post(db, scope, direct, Some("ghar_mitra:1"), author).1.Ok?
    requires Check(StripLines(r.lines), IsBlank).Ok?
    ensures var (db', first) := Post(db, scope, direct, Some("ghar_mitra:1"), author);
      FullyMapped(db', scope, r) && !Collapses(db', scope, r) ==>
        PostSource(db', scope, r, Some("1"), author) == (db', Ok(Posted(first.value.entryId, false)))
  {
    var (db', first) := Post(db, scope, direct, Some("ghar_mitra:1"), author);
    PostKeeps(db, scope, direct, Some("ghar_mitra:1"), author);
    PostedUnderKey(db, scope, direct, "ghar_mitra:1", author);
    KeyOfOne();
    if FullyMapped(db', scope, r) && !Collapses(db', scope, r) {
      JournalDroppedIff(db', scope, r, Some("1"), author);
    }
  }

  lemma KeyOfOne()
    ensures SourceIdempotencyKey(GharMitra, Some("1")) == Some("ghar_mitra:1")
  {
    assert !IsSpace("1"[0]) && Strip("1") == "1";
    assert SystemName(GharMitra) + ":" + Strip("1") == "ghar_mitra:1";
  }

  /** The entry that an accepted post answers with carries the post's key. */
  lemma PostedUnderKey(db: Db, scope: Scope, r: Request, key: string, author: string)
    requires key != "" && Post(db, scope, r, Some(key), author).1.Ok?
    ensures var (db', posted) := Post(db, scope, r, Some(key), author);
      posted.value.entryId < |db'.entries| && HasKey(scope, key)(db'.entries[posted.value.entryId])
  {
    if Post(db, scope, r, Some(key), author).1.value.created {
      PostCreates(db, scope, r, Some(key), author);
    }
  }

  /** The translated lines fail validation exactly when they fall on one account. */
  lemma TranslatedVerdict(ps: seq<Posting<string>>, resolve: string -> int)
    requires IsDoubleEntry(ps)
    ensures var v := Check(Translate(ps, resolve), NoBlank);
      && (v.Err? <==> OneTarget(ps, resolve))
      && (v.Err? ==> v.error == SingleAccount)
  {
    var lines := Translate(ps, resolve);
    TranslatedLines(ps, resolve);
    BothSides(ps);
    TranslatedFaults(ps, resolve);
    BalancedVerdict(lines, NoBlank);
    DistinctTargets(ps, resolve);
  }

  lemma TranslatedFaults(ps: seq<Posting<string>>, resolve: string -> int)
    requires forall p | p in ps :: OneSide(p) && p.debit >= 0 && p.credit >= 0
    ensures forall l | l in Translate(ps, resolve) :: Fault(l, NoBlank).None?
  {
    var lines := Translate(ps, resolve);
    forall l | l in lines ensures Fault(l, NoBlank).None? {
      var i :| 0 <= i < |lines| && lines[i] == l;
      assert OneSide(ps[i]);
      WholePaise(ps[i].debit);
      WholePaise(ps[i].credit);
    }
  }

  lemma DistinctTargets(ps: seq<Posting<string>>, resolve: string -> int)
    requires forall p | p in ps :: p.debit >= 0 && p.credit >= 0
    ensures |KeysOf(RoundAll(Translate(ps, resolve)))| < 2 <==> OneTarget(ps, resolve)
  {
    TranslatedLines(ps, resolve);
    var t := RoundAll(Translate(ps, resolve));
    assert forall i | 0 <= i < |ps| :: t[i].key == resolve(ps[i].key);
    TwoKeys(t);
  }

  /** An accepted source journal writes exactly one entry with the source totals, on which every account's net is the
      sum of the nets of the source codes mapped to it. */
  lemma SourceRefinesDirect(db: Db, scope: Scope, r: SourceRequest, key: Option<string>, author: string,
      codes: seq<string>, a: int)
    requires PostSource(db, scope, r, key, author).1.Ok? && PostSource(db, scope, r, key, author).1.value.created
    requires NoDup(codes) && forall p | p in RoundAll(StripLines(r.lines)) :: p.key in codes
    ensures var ps := RoundAll(StripLines(r.lines));
      var db' := PostSource(db, scope, r, key, author).0;
      && |db'.entries| == |db.entries| + 1 && db.lines <= db'.lines
      && db'.entries[|db.entries|].totalDebit == SumBy(ps, Debit)
      && db'.entries[|db.entries|].totalCredit == SumBy(ps, Credit)
      && SumBy(db'.lines[|db.lines|..], Slice(ACCOUNT, NET, a))
           == SumBy(codes, MappedTo(ps, Canonical(db, scope, r.system), a))
  {
    var ps, resolve := RoundAll(StripLines(r.lines)), Canonical(db, scope, r.system);
    TranslatedLines(ps, resolve);
    SourceAppends(db, scope, r, key, author);
    NewLinesNet(db, scope, ps, resolve, codes, a);
  }

  /** What an accepted source journal writes. */
  lemma SourceAppends(db: Db, scope: Scope, r: SourceRequest, key: Option<string>, author: string)
    requires PostSource(db, scope, r, key, author).1.Ok? && PostSource(db, scope, r, key, author).1.value.created
    ensures var (db', t) := (PostSource(db, scope, r, key, author).0, RoundAll(CanonicalRequest(db, scope, r).lines));
      && |db'.entries| == |db.entries| + 1 && db.lines <= db'.lines
      && db'.entries[|db.entries|].totalDebit == SumBy(t, Debit)
          && db'.entries[|db.entries|].totalCredit == SumBy(t, Credit)
      && db'.lines[|db.lines|..] == ToLines(scope, |db.entries|, t)
  {
    var t := RoundAll(CanonicalRequest(db, scope, r).lines);
    PostCreates(db, scope, CanonicalRequest(db, scope, r), SourceIdempotencyKey(r.system, key), author);
    assert (db.lines + ToLines(scope, |db.entries|, t))[|db.lines|..] == ToLines(scope, |db.entries|, t);
  }

  lemma NewLinesNet(db: Db, scope: Scope, ps: seq<Posting<string>>, resolve: string -> int, codes: seq<string>, a: int)
    requires forall p | p in ps :: p.debit >= 0 && p.credit >= 0
    requires NoDup(codes) && forall p | p in ps :: p.key in codes
    ensures SumBy(ToLines(scope, |db.entries|, RoundAll(Translate(ps, resolve))), Slice(ACCOUNT, NET, a))
         == SumBy(codes, MappedTo(ps, resolve, a))
  {
    var t := RoundAll(Translate(ps, resolve));
    NetByCode(ps, resolve, codes, a);
    SumZip(ToLines(scope, |db.entries|, t), t, Slice(ACCOUNT, NET, a), Slice(ACCOUNT_ID, ACCOUNT_NET, a));
  }

  lemma PostSourceKeeps(db: Db, scope: Scope, r: SourceRequest, key: Option<string>, author: string)
    requires WellFormed(db)
    ensures WellFormed(PostSource(db, scope, r, key, author).0)
  {
    if PostSource(db, scope, r, key, author).0 != db {
      PostKeeps(db, scope, CanonicalRequest(db, scope, r), SourceIdempotencyKey(r.system, key), author);
    }
  }
}
