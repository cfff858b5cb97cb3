// What each maintenance endpoint and accounting operation keeps of the agreement between bills and ledger.
module BillSafety {
  import opened Wrappers
  import opened Seqs
  import opened Sums
  import opened Money
  import opened Tables
  import opened Validation
  import opened Journal
  import opened Bills
  import opened BillRuns
  import opened Runs
  import SP = SourcePosting

  function EntryOf(scope: Scope, r: Request, key: string, author: string): Entry {
    var ps := RoundAll(r.lines);
    NewEntry(scope, r, Some(key), author, Checked(SumBy(ps, Debit), SumBy(ps, Debit), ps))
  }

  // ---- Posting ----

  /** Posting a bill whose key is free appends its entry. */
  lemma BillPosts(db: Db, scope: Scope, b: Bill, author: string)
    requires WellFormed(db) && !KeyTaken(db.entries, scope, Some(BillKey(scope, b.id)))
    requires |CreditComponents(b.amounts)| > 0 && MissingCodes(db, scope, b.amounts) == {}
    ensures PostEntryOf(db, scope, b, author)
         == (AppendEntry(db, EntryOf(scope, BillRequest(db, scope, b), BillKey(scope, b.id), author),
               RoundAll(PostingLines(db, scope, b.amounts))), Ok(|db.entries|))
    ensures WellFormed(PostEntryOf(db, scope, b, author).0)
  {
    BillAccepted(db, scope, b.amounts);
    PostFresh(db, scope, BillRequest(db, scope, b), BillKey(scope, b.id), author);
    PostKeeps(db, scope, BillRequest(db, scope, b), Some(BillKey(scope, b.id)), author);
  }

  function NetOn(ps: seq<Posting<int>>, a: int): int {
    SumBy(ps, Slice(ACCOUNT_ID, ACCOUNT_NET, a))
  }

  /** The lines put a bill's net on every account. */
  ghost predicate PutsBill(db: Db, scope: Scope, ps: seq<Posting<int>>, amounts: Amounts) {
    forall a | InScope(db, scope, a) :: NetOn(ps, a) == BillNet(amounts, db.accounts[a].code)
  }

  /** The lines take a bill's net off every account. */
  ghost predicate TakesBill(db: Db, scope: Scope, ps: seq<Posting<int>>, amounts: Amounts) {
    forall a | InScope(db, scope, a) :: NetOn(ps, a) == -BillNet(amounts, db.accounts[a].code)
  }

  lemma PostingPuts(db: Db, scope: Scope, amounts: Amounts)
    requires AccountsOk(db.accounts) && MissingCodes(db, scope, amounts) == {}
    ensures PutsBill(db, scope, RoundAll(PostingLines(db, scope, amounts)), amounts)
  {
    forall a | InScope(db, scope, a)
      ensures NetOn(RoundAll(PostingLines(db, scope, amounts)), a) == BillNet(amounts, db.accounts[a].code)
    {
      PostingNet(db, scope, amounts, a);
    }
  }

  /** An entry under the bill's key that puts its net carries the bill. */
  lemma NewEntryCarries(db: Db, scope: Scope, b: Bill, e: Entry, ps: seq<Posting<int>>)
    requires WellFormed(db) && Payable(db, scope, b.amounts) && PutsBill(db, scope, ps, b.amounts)
    requires e.scope == scope && e.key == Some(BillKey(scope, b.id))
    ensures Carries(AppendEntry(db, e, ps), scope, b, |db.entries|)
  {
    var db' := AppendEntry(db, e, ps);
    forall a | InScope(db, scope, a) ensures EntryNet(db', |db.entries|, a) == BillNet(b.amounts, db.accounts[a].code) {
      AppendEntryNet(db, e, ps, |db.entries|, a);
    }
    assert MissingCodes(db', scope, b.amounts) == MissingCodes(db, scope, b.amounts);
  }

  lemma OthersStay(s: Shop, scope: Scope, i: nat, e: Entry, ps: seq<Posting<int>>, j: nat)
    requires ShopOk(s, scope) && i < |s.bills| && j < |s.bills| && i != j
    requires e.key == Some(BillKey(scope, s.bills[i].id)) || e.key == Some(ReversalKey(scope, s.bills[i].id))
    ensures BillOk(AppendEntry(s.db, e, ps), scope, s.bills[j])
    ensures Booked(AppendEntry(s.db, e, ps), scope, s.bills[j]) <==> Booked(s.db, scope, s.bills[j])
  {
    var a, b := s.bills[i].id, s.bills[j].id;
    assert a != b;
    KeysDiffer(scope, a, b);
    KeysDiffer(scope, b, a);
    BillStays(s.db, e, ps, scope, s.bills[j]);
  }

  /** Writing one entry about bill i and rewriting that bill keeps conservation when the two changes match. */
  lemma ConservedUpdate(s: Shop, scope: Scope, i: nat, b: Bill, e: Entry, ps: seq<Posting<int>>)
    requires LinesOk(s.db) && Conserved(s, scope) && i < |s.bills| && IsMaintEntry(scope, e)
    requires forall j | 0 <= j < |s.bills| && j != i ::
               Booked(AppendEntry(s.db, e, ps), scope, s.bills[j]) <==> Booked(s.db, scope, s.bills[j])
    requires forall a | InScope(s.db, scope, a) ::
               SumBy(ps, Slice(ACCOUNT_ID, ACCOUNT_NET, a))
                 == BookedNet(AppendEntry(s.db, e, ps), scope, s.db.accounts[a].code)(b)
                    - BookedNet(s.db, scope, s.db.accounts[a].code)(s.bills[i])
    ensures Conserved(Shop(s.bills[i := b], AppendEntry(s.db, e, ps)), scope)
  {
    var db' := AppendEntry(s.db, e, ps);
    forall a | InScope(s.db, scope, a)
      ensures MaintNet(db', scope, a) == SumBy(s.bills[i := b], BookedNet(db', scope, s.db.accounts[a].code))
    {
      var code := s.db.accounts[a].code;
      AppendMaint(s.db, e, ps, scope, a);
      SumExcept(s.bills, i, BookedNet(s.db, scope, code), BookedNet(db', scope, code));
      SumUpdate(s.bills, i, b, BookedNet(db', scope, code));
    }
  }

  /** Rewriting a bill without touching the ledger keeps or breaks conservation as its own share changes. */
  lemma ConservedRewrite(s: Shop, scope: Scope, i: nat, b: Bill, a: int)
    requires i < |s.bills| && InScope(s.db, scope, a)
    ensures var net := BookedNet(s.db, scope, s.db.accounts[a].code);
      SumBy(s.bills[i := b], net) == SumBy(s.bills, net) - net(s.bills[i]) + net(b)
  {
    SumUpdate(s.bills, i, b, BookedNet(s.db, scope, s.db.accounts[a].code));
  }

  lemma BillsAfter(s: Shop, scope: Scope, i: nat, e: Entry, ps: seq<Posting<int>>, b: Bill)
    requires ShopOk(s, scope) && i < |s.bills| && b.id == s.bills[i].id
    requires e.key == Some(BillKey(scope, b.id)) || e.key == Some(ReversalKey(scope, b.id))
    requires BillOk(AppendEntry(s.db, e, ps), scope, b)
    ensures var after := s.bills[i := b];
      DistinctIds(after) && forall j | 0 <= j < |after| :: BillOk(AppendEntry(s.db, e, ps), scope, after[j])
    ensures forall j | 0 <= j < |s.bills| && j != i ::
              Booked(AppendEntry(s.db, e, ps), scope, s.bills[j]) <==> Booked(s.db, scope, s.bills[j])
  {
    forall j | 0 <= j < |s.bills| && j != i
      ensures BillOk(AppendEntry(s.db, e, ps), scope, s.bills[j])
      ensures Booked(AppendEntry(s.db, e, ps), scope, s.bills[j]) <==> Booked(s.db, scope, s.bills[j])
    {
      OthersStay(s, scope, i, e, ps, j);
    }
  }

  /** Whether a postable bill without an entry is marked or left as it is, an entry that puts its net books it. */
  lemma FirstEntryKeeps(s: Shop, scope: Scope, i: nat, e: Entry, ps: seq<Posting<int>>, b: Bill)
    requires ShopOk(s, scope) && i < |s.bills| && Postable(s.bills[i]) && !CutPosting(s.db, scope, s.bills[i])
    requires Payable(s.db, scope, s.bills[i].amounts) && PutsBill(s.db, scope, ps, s.bills[i].amounts)
    requires e.scope == scope && e.key == Some(BillKey(scope, s.bills[i].id))
    requires WellFormed(AppendEntry(s.db, e, ps))
    requires b == s.bills[i] || b == Marked(s.bills[i], |s.db.entries|)
    ensures ShopOk(Shop(s.bills[i := b], AppendEntry(s.db, e, ps)), scope)
  {
    FirstEntryBooks(s.db, scope, s.bills[i], e, ps, b);
    BillsAfter(s, scope, i, e, ps, b);
    KeysDiffer(scope, b.id, b.id);
    ConservedUpdate(s, scope, i, b, e, ps);
  }

  lemma FirstEntryBooks(db: Db, scope: Scope, was: Bill, e: Entry, ps: seq<Posting<int>>, b: Bill)
    requires WellFormed(db) && BillOk(db, scope, was) && Postable(was) && !CutPosting(db, scope, was)
    requires Payable(db, scope, was.amounts) && PutsBill(db, scope, ps, was.amounts)
    requires e.scope == scope && e.key == Some(BillKey(scope, was.id))
    requires b == was || b == Marked(was, |db.entries|)
    ensures var db' := AppendEntry(db, e, ps);
      BillOk(db', scope, b) && Booked(db', scope, b) && !Booked(db, scope, was)
  {
    NewEntryCarries(db, scope, was, e, ps);
    KeysDiffer(scope, b.id, b.id);
    KeyTakenAppend(db.entries, e, scope, ReversalKey(scope, b.id));
    KeyTakenAppend(db.entries, e, scope, BillKey(scope, b.id));
    assert Carries(AppendEntry(db, e, ps), scope, b, |db.entries|);
  }

  // ---- Posting a bill whose entry already stands ----

  /** With an entry under the bill's key, posting any payable components returns that entry and writes nothing. */
  lemma EntryReplays(db: Db, scope: Scope, b: Bill, author: string)
    requires WellFormed(db) && KeyTaken(db.entries, scope, Some(BillKey(scope, b.id)))
    ensures PostEntryOf(db, scope, b, author).0 == db
    ensures |CreditComponents(b.amounts)| > 0 && MissingCodes(db, scope, b.amounts) == {} ==>
              PostEntryOf(db, scope, b, author).1
                  == Ok(FindFirst(db.entries, HasKey(scope, BillKey(scope, b.id))).value)
  {
    if |CreditComponents(b.amounts)| > 0 && MissingCodes(db, scope, b.amounts) == {} {
      BillAccepted(db, scope, b.amounts);
    }
  }

  /** The only entry under a bill's key is the one that carries it. */
  lemma CarrierIsFound(db: Db, scope: Scope, b: Bill, e: nat)
    requires WellFormed(db) && Carries(db, scope, b, e)
    ensures FindFirst(db.entries, HasKey(scope, BillKey(scope, b.id))) == Some(e)
  {
    var p := HasKey(scope, BillKey(scope, b.id));
    assert p(db.entries[e]);
    var f := FindFirst(db.entries, p);
    assert p(db.entries[f.value]);
  }

  lemma CarrierOf(db: Db, scope: Scope, b: Bill) returns (e: nat)
    requires WellFormed(db) && BillOk(db, scope, b) && KeyTaken(db.entries, scope, Some(BillKey(scope, b.id)))
    ensures Carries(db, scope, b, e) && FindFirst(db.entries, HasKey(scope, BillKey(scope, b.id))) == Some(e)
  {
    e :| Carries(db, scope, b, e);
    CarrierIsFound(db, scope, b, e);
  }

  /** Marking a bill against its entry keeps agreement, even when the bill has been reversed since the commit. */
  lemma MarkKeeps(s: Shop, scope: Scope, id: string, e: nat)
    requires ShopOk(s, scope) && FindFirst(s.db.entries, HasKey(scope, BillKey(scope, id))) == Some(e)
    ensures ShopOk(Mark(s, id, e), scope)
  {
    var found := FindFirst(s.bills, HasId(id));
    if found.Some? {
      var i := found.value;
      var own := CarrierOf(s.db, scope, s.bills[i]);
      assert Carries(s.db, scope, Marked(s.bills[i], e), own);
      MarkNeutral(s, scope, i, e);
    }
  }

  lemma MarkNeutral(s: Shop, scope: Scope, i: nat, e: nat)
    requires i < |s.bills|
    requires s.bills[i].status == ReversedBill ==>
               KeyTaken(s.db.entries, scope, Some(ReversalKey(scope, s.bills[i].id)))
    ensures Conserved(s.(bills := s.bills[i := Marked(s.bills[i], e)]), scope) <==> Conserved(s, scope)
  {
    forall a | InScope(s.db, scope, a)
      ensures SumBy(s.bills[i := Marked(s.bills[i], e)], BookedNet(s.db, scope, s.db.accounts[a].code))
           == SumBy(s.bills, BookedNet(s.db, scope, s.db.accounts[a].code))
    {
      ConservedRewrite(s, scope, i, Marked(s.bills[i], e), a);
    }
  }

  lemma FoundById(bills: seq<Bill>, i: nat)
    requires DistinctIds(bills) && i < |bills|
    ensures FindFirst(bills, HasId(bills[i].id)) == Some(i)
  {
    assert HasId(bills[i].id)(bills[i]);
    var f := FindFirst(bills, HasId(bills[i].id)).value;
    assert HasId(bills[i].id)(bills[f]);
  }

  /** With the bill's entry standing, posting it is marking it against that entry. */
  lemma RepeatIsMark(s: Shop, scope: Scope, i: nat, author: string) returns (e: nat)
    requires ShopOk(s, scope) && i < |s.bills| && CutPosting(s.db, scope, s.bills[i])
    ensures Carries(s.db, scope, s.bills[i], e)
    ensures FindFirst(s.db.entries, HasKey(scope, BillKey(scope, s.bills[i].id))) == Some(e)
    ensures PostBill(s, scope, i, author) == (Mark(s, s.bills[i].id, e), Ok(e))
    ensures Mark(s, s.bills[i].id, e) == Shop(s.bills[i := Marked(s.bills[i], e)], s.db)
  {
    e := CarrierOf(s.db, scope, s.bills[i]);
    EntryReplays(s.db, scope, s.bills[i], author);
    FoundById(s.bills, i);
  }

  /** Repeating a cut posting settles the bill: it is marked against its own entry, and the ledger is left alone. */
  lemma RepeatSettles(s: Shop, scope: Scope, i: nat, author: string)
    requires ShopOk(s, scope) && i < |s.bills| && CutPosting(s.db, scope, s.bills[i])
    ensures exists e: nat :: Carries(s.db, scope, s.bills[i], e)
                             && PostBill(s, scope, i, author)
                                 == (Shop(s.bills[i := Marked(s.bills[i], e)], s.db), Ok(e))
    ensures ShopOk(PostBill(s, scope, i, author).0, scope)
    ensures var b := PostBill(s, scope, i, author).0.bills[i]; b.isPosted && Booked(s.db, scope, b)
  {
    assert BillOk(s.db, scope, s.bills[i]);
    var e := RepeatIsMark(s, scope, i, author);
    MarkKeeps(s, scope, s.bills[i].id, e);
  }

  /** Whatever was done to a cut bill since, posting it again moves nothing: the stores agree after it exactly when they
      agreed before. */
  lemma RepeatNeutral(s: Shop, scope: Scope, i: nat, author: string)
    requires WellFormed(s.db) && i < |s.bills| && CutPosting(s.db, scope, s.bills[i])
    ensures PostBill(s, scope, i, author).0.db == s.db
    ensures Conserved(PostBill(s, scope, i, author).0, scope) <==> Conserved(s, scope)
  {
    EntryReplays(s.db, scope, s.bills[i], author);
    var r := PostEntryOf(s.db, scope, s.bills[i], author).1;
    if r.Ok? { MarkNeutral(s, scope, i, r.value); }
  }

  lemma PostBillKeeps(s: Shop, scope: Scope, i: nat, author: string)
    requires ShopOk(s, scope) && i < |s.bills| && Postable(s.bills[i])
    ensures ShopOk(PostBill(s, scope, i, author).0, scope)
  {
    var b := s.bills[i];
    if CutPosting(s.db, scope, b) {
      RepeatSettles(s, scope, i, author);
    } else if |CreditComponents(b.amounts)| > 0 && MissingCodes(s.db, scope, b.amounts) == {} {
      BillPosts(s.db, scope, b, author);
      PostingPuts(s.db, scope, b.amounts);
      FirstEntryKeeps(s, scope, i, EntryOf(scope, BillRequest(s.db, scope, b), BillKey(scope, b.id), author),
        RoundAll(PostingLines(s.db, scope, b.amounts)), Marked(b, |s.db.entries|));
    }
  }

  /** Posting again after the cut gives the outcome of one uncut posting: one entry per bill. */
  lemma RepeatAfterCut(s: Shop, scope: Scope, i: nat, author: string, again: string)
    requires ShopOk(s, scope) && i < |s.bills| && Postable(s.bills[i])
    ensures PostBill(CutPost(s, scope, i, author), scope, i, again) == PostBill(s, scope, i, author)
  {
    var b, db' := s.bills[i], CutPost(s, scope, i, author).db;
    if CutPosting(s.db, scope, b) {
      EntryReplays(s.db, scope, b, author);
      EntryReplays(s.db, scope, b, again);
    } else if |CreditComponents(b.amounts)| > 0 && MissingCodes(s.db, scope, b.amounts) == {} {
      BillPosts(s.db, scope, b, author);
      var e := EntryOf(scope, BillRequest(s.db, scope, b), BillKey(scope, b.id), author);
      PostingPuts(s.db, scope, b.amounts);
      NewEntryCarries(s.db, scope, b, e, RoundAll(PostingLines(s.db, scope, b.amounts)));
      CarrierIsFound(db', scope, b, |s.db.entries|);
      EntryReplays(db', scope, b, again);
    }
  }

  // ---- Reversal ----

  /** Under a free key, the reversal of a stored entry of the scope is accepted and written. */
  lemma ReversalPosts(db: Db, scope: Scope, b: Bill, e: nat, reason: string, author: string)
    requires WellFormed(db) && e < |db.entries| && db.entries[e].scope == scope
    requires !KeyTaken(db.entries, scope, Some(ReversalKey(scope, b.id)))
    ensures |ReversalLines(db, e)| > 0
    ensures Post(db, scope, ReversalRequest(db, b, e, reason), Some(ReversalKey(scope, b.id)), author)
         == (AppendEntry(db, EntryOf(scope, ReversalRequest(db, b, e, reason), ReversalKey(scope, b.id), author),
               RoundAll(ReversalLines(db, e))), Ok(Posted(|db.entries|, true)))
    ensures WellFormed(Post(db, scope, ReversalRequest(db, b, e, reason), Some(ReversalKey(scope, b.id)), author).0)
  {
    ReversalAccepted(db, e);
    ReversalSpread(db, e);
    PostFresh(db, scope, ReversalRequest(db, b, e, reason), ReversalKey(scope, b.id), author);
    PostKeeps(db, scope, ReversalRequest(db, b, e, reason), Some(ReversalKey(scope, b.id)), author);
  }

  /** Reversing a posted bill appends the swapped lines of its own entry. */
  lemma BillReverses(s: Shop, scope: Scope, i: nat, reason: string, author: string)
    requires ShopOk(s, scope) && i < |s.bills| && s.bills[i].isPosted && Booked(s.db, scope, s.bills[i])
    ensures var (b, e) := (s.bills[i], s.bills[i].journalId.value);
      && ReverseBill(s, scope, i, reason, author)
           == (Shop(s.bills[i := Reversed(b)],
                 AppendEntry(s.db,
                   EntryOf(scope, ReversalRequest(s.db, b, e, reason), ReversalKey(scope, b.id), author),
                   RoundAll(ReversalLines(s.db, e)))), Ok(Some(|s.db.entries|)))
      && WellFormed(ReverseBill(s, scope, i, reason, author).0.db)
  {
    assert BillOk(s.db, scope, s.bills[i]);
    ReversalPosts(s.db, scope, s.bills[i], s.bills[i].journalId.value, reason, author);
  }

  /** With the reversal entry already written, reversing again only marks the bill. */
  lemma ReversalReplays(s: Shop, scope: Scope, i: nat, reason: string, author: string)
    requires ShopOk(s, scope) && i < |s.bills| && s.bills[i].isPosted && !Booked(s.db, scope, s.bills[i])
    ensures ReverseBill(s, scope, i, reason, author).0 == Shop(s.bills[i := Reversed(s.bills[i])], s.db)
    ensures ReverseBill(s, scope, i, reason, author).1
         == Ok(Some(FindFirst(s.db.entries, HasKey(scope, ReversalKey(scope, s.bills[i].id))).value))
  {
    var b := s.bills[i];
    assert BillOk(s.db, scope, b);
    CarrierIsFound(s.db, scope, b, b.journalId.value);
    ReversalLookup(s.db, scope, b, b.journalId.value, reason, author);
  }

  lemma ReversalLookup(db: Db, scope: Scope, b: Bill, e: nat, reason: string, author: string)
    requires WellFormed(db) && e < |db.entries| && KeyTaken(db.entries, scope, Some(ReversalKey(scope, b.id)))
    ensures |ReversalLines(db, e)| > 0
    ensures Post(db, scope, ReversalRequest(db, b, e, reason), Some(ReversalKey(scope, b.id)), author)
         == (db, Ok(Posted(FindFirst(db.entries, HasKey(scope, ReversalKey(scope, b.id))).value, false)))
  {
    ReversalAccepted(db, e);
    ReversalSpread(db, e);
  }

  lemma ReversalTakes(db: Db, scope: Scope, b: Bill, e: nat)
    requires Carries(db, scope, b, e) && WellFormed(db)
    ensures TakesBill(db, scope, RoundAll(ReversalLines(db, e)), b.amounts)
  {
    forall a | InScope(db, scope, a)
      ensures NetOn(RoundAll(ReversalLines(db, e)), a) == -BillNet(b.amounts, db.accounts[a].code)
    {
      ReversalNet(db, e, a);
    }
  }

  /** An entry under the reversal key that takes the bill's net unbooks the bill, marked reversed or not. */
  lemma ReversalEntryKeeps(s: Shop, scope: Scope, i: nat, e: Entry, ps: seq<Posting<int>>, b: Bill)
    requires ShopOk(s, scope) && i < |s.bills| && s.bills[i].isPosted && Booked(s.db, scope, s.bills[i])
    requires e.scope == scope && e.key == Some(ReversalKey(scope, s.bills[i].id))
    requires WellFormed(AppendEntry(s.db, e, ps)) && TakesBill(s.db, scope, ps, s.bills[i].amounts)
    requires b == s.bills[i] || b == Reversed(s.bills[i])
    ensures ShopOk(Shop(s.bills[i := b], AppendEntry(s.db, e, ps)), scope)
  {
    var was, own := s.bills[i], s.bills[i].journalId.value;
    assert BillOk(s.db, scope, was);
    KeysDiffer(scope, b.id, b.id);
    KeyTakenAppend(s.db.entries, e, scope, ReversalKey(scope, b.id));
    KeyTakenAppend(s.db.entries, e, scope, BillKey(scope, b.id));
    CarriesStays(s.db, e, ps, scope, was, own);
    assert Carries(AppendEntry(s.db, e, ps), scope, b, own);
    BillsAfter(s, scope, i, e, ps, b);
    ConservedUpdate(s, scope, i, b, e, ps);
  }

  lemma ReversedOk(db: Db, scope: Scope, b: Bill)
    requires WellFormed(db) && BillOk(db, scope, b) && !Booked(db, scope, b)
    ensures BillOk(db, scope, Reversed(b))
  {
    if KeyTaken(db.entries, scope, Some(BillKey(scope, b.id))) {
      var own := CarrierOf(db, scope, b);
      assert Carries(db, scope, Reversed(b), own);
    }
  }

  /** Marking a bill that is not booked as reversed changes no balance. */
  lemma MarkReversedKeeps(s: Shop, scope: Scope, i: nat)
    requires ShopOk(s, scope) && i < |s.bills| && !Booked(s.db, scope, s.bills[i])
    ensures ShopOk(s.(bills := s.bills[i := Reversed(s.bills[i])]), scope)
  {
    ReversedOk(s.db, scope, s.bills[i]);
    forall a | InScope(s.db, scope, a)
      ensures MaintNet(s.db, scope, a)
           == SumBy(s.bills[i := Reversed(s.bills[i])], BookedNet(s.db, scope, s.db.accounts[a].code))
    {
      ConservedRewrite(s, scope, i, Reversed(s.bills[i]), a);
    }
  }

  /** A booked bill is posted, or its posting was cut off. */
  lemma BookedIff(db: Db, scope: Scope, b: Bill)
    requires WellFormed(db) && BillOk(db, scope, b)
    ensures Booked(db, scope, b) <==>
              CutPosting(db, scope, b) || (b.isPosted && !KeyTaken(db.entries, scope, Some(ReversalKey(scope, b.id))))
  {
    if b.isPosted {
      CarrierIsFound(db, scope, b, b.journalId.value);
    }
  }

  lemma ReverseKeeps(s: Shop, scope: Scope, i: nat, reason: string, author: string)
    requires ShopOk(s, scope) && i < |s.bills| && !CutPosting(s.db, scope, s.bills[i])
    ensures ShopOk(ReverseBill(s, scope, i, reason, author).0, scope)
  {
    var b := s.bills[i];
    assert BillOk(s.db, scope, b);
    BookedIff(s.db, scope, b);
    if Booked(s.db, scope, b) {
      var e := b.journalId.value;
      BillReverses(s, scope, i, reason, author);
      ReversalTakes(s.db, scope, b, e);
      ReversalEntryKeeps(s, scope, i,
        EntryOf(scope, ReversalRequest(s.db, b, e, reason), ReversalKey(scope, b.id), author),
        RoundAll(ReversalLines(s.db, e)), Reversed(b));
    } else {
      if b.isPosted { ReversalReplays(s, scope, i, reason, author); }
      MarkReversedKeeps(s, scope, i);
    }
  }

  lemma CutReverseKeeps(s: Shop, scope: Scope, i: nat, reason: string, author: string)
    requires ShopOk(s, scope) && i < |s.bills|
    ensures ShopOk(CutReverse(s, scope, i, reason, author), scope)
  {
    var b := s.bills[i];
    assert BillOk(s.db, scope, b);
    if b.isPosted && Booked(s.db, scope, b) {
      var e := b.journalId.value;
      BillReverses(s, scope, i, reason, author);
      ReversalTakes(s.db, scope, b, e);
      ReversalEntryKeeps(s, scope, i,
        EntryOf(scope, ReversalRequest(s.db, b, e, reason), ReversalKey(scope, b.id), author),
        RoundAll(ReversalLines(s.db, e)), b);
      assert s.bills[i := b] == s.bills;
    } else if b.isPosted {
      ReversalReplays(s, scope, i, reason, author);
    }
  }

  /** Repeating a cut reversal gives the outcome of one uncut reversal: cutting a reversal never does harm. */
  lemma RepeatReversalAfterCut(s: Shop, scope: Scope, i: nat, reason: string, author: string, again: string,
      by2: string)
    requires ShopOk(s, scope) && i < |s.bills| && s.bills[i].isPosted
    ensures ReverseBill(CutReverse(s, scope, i, reason, author), scope, i, again, by2)
         == ReverseBill(s, scope, i, reason, author)
  {
    var b, cut := s.bills[i], CutReverse(s, scope, i, reason, author);
    CutReverseKeeps(s, scope, i, reason, author);
    if Booked(s.db, scope, b) {
      BillReverses(s, scope, i, reason, author);
      var e := EntryOf(scope, ReversalRequest(s.db, b, b.journalId.value, reason), ReversalKey(scope, b.id), author);
      var key := HasKey(scope, ReversalKey(scope, b.id));
      assert key(cut.db.entries[|s.db.entries|]);
      assert FindFirst(s.db.entries, key).None?;
      assert FindFirst(cut.db.entries, key) == Some(|s.db.entries|);
      ReversalReplays(cut, scope, i, again, by2);
    } else {
      ReversalReplays(s, scope, i, reason, author);
      ReversalReplays(cut, scope, i, again, by2);
    }
  }

  // ---- Generation, regeneration, charges ----

  lemma {:induction false} FilterDistinct(bills: seq<Bill>, p: Bill -> bool)
    requires DistinctIds(bills)
    ensures DistinctIds(Filter(bills, p))
  {
    if |bills| == 0 {
    } else {
      var front, last := bills[..|bills| - 1], bills[|bills| - 1];
      FilterDistinct(front, p);
      var r := Filter(front, p);
      forall i | 0 <= i < |r| ensures r[i].id != last.id {
        assert r[i] in r && r[i] in front;
      }
    }
  }

  lemma AppendDistinct(old_: seq<Bill>, news: seq<Bill>)
    requires DistinctIds(old_) && DistinctIds(news)
    requires forall a, b | a in old_ && b in news :: a.id != b.id
    ensures DistinctIds(old_ + news)
  {
  }

  lemma AddBillsKeeps(s: Shop, scope: Scope, news: seq<Bill>)
    requires ShopOk(s, scope) && DistinctIds(news) && forall b | b in news :: IsNew(s, scope, b)
    ensures ShopOk(s.(bills := s.bills + news), scope)
  {
    var s' := s.(bills := s.bills + news);
    AppendDistinct(s.bills, news);
    forall i | 0 <= i < |s'.bills| ensures BillOk(s.db, scope, s'.bills[i]) {
      if i >= |s.bills| { assert s'.bills[i] in news; }
    }
    forall a | InScope(s.db, scope, a)
      ensures MaintNet(s.db, scope, a) == SumBy(s'.bills, BookedNet(s.db, scope, s.db.accounts[a].code))
    {
      SumAppend(s.bills, news, BookedNet(s.db, scope, s.db.accounts[a].code));
      SumZero(news, BookedNet(s.db, scope, s.db.accounts[a].code));
    }
  }

  /** A posting of this month was cut off. */
  predicate CutInMonth(s: Shop, scope: Scope, month: int, year: int) {
    exists b | b in s.bills :: b.month == month && b.year == year && CutPosting(s.db, scope, b)
  }

  lemma DropMonthKeeps(s: Shop, scope: Scope, month: int, year: int)
    requires ShopOk(s, scope) && !PostedIn(s.bills, month, year) && !CutInMonth(s, scope, month, year)
    ensures ShopOk(s.(bills := Filter(s.bills, NotInMonth(month, year))), scope)
  {
    var kept := Filter(s.bills, NotInMonth(month, year));
    FilterDistinct(s.bills, NotInMonth(month, year));
    forall i | 0 <= i < |kept| ensures BillOk(s.db, scope, kept[i]) {
      assert kept[i] in kept && kept[i] in s.bills;
    }
    forall b | b in s.bills && !NotInMonth(month, year)(b) ensures !Booked(s.db, scope, b) {
      assert BillOk(s.db, scope, b);
      BookedIff(s.db, scope, b);
    }
    forall a | InScope(s.db, scope, a)
      ensures MaintNet(s.db, scope, a) == SumBy(kept, BookedNet(s.db, scope, s.db.accounts[a].code))
    {
      SumFilter(s.bills, NotInMonth(month, year), BookedNet(s.db, scope, s.db.accounts[a].code));
    }
  }

  lemma GenerateKeeps(s: Shop, scope: Scope, month: int, year: int, news: seq<Bill>)
    requires ShopOk(s, scope) && DistinctIds(news) && forall b | b in news :: IsNew(s, scope, b)
    requires PostedIn(s.bills, month, year) || !CutInMonth(s, scope, month, year)
    ensures ShopOk(Generate(s, month, year, news), scope)
  {
    if !PostedIn(s.bills, month, year) {
      var kept := s.(bills := Filter(s.bills, NotInMonth(month, year)));
      DropMonthKeeps(s, scope, month, year);
      forall b | b in news ensures IsNew(kept, scope, b) {
        assert IsNew(s, scope, b);
      }
      AddBillsKeeps(kept, scope, news);
    }
  }

  /** What the bill's entry shows of the maintenance part. */
  function Shown(a: Amounts): int {
    if MaintenancePart(a) > 0 then MaintenancePart(a) else 0
  }

  predicate OnlyExtraDiffers(a: Amounts, b: Amounts) {
    b == a.(extra := b.extra)
  }

  lemma SameShown(a: Amounts, b: Amounts)
    requires OnlyExtraDiffers(a, b) && Shown(a) == Shown(b)
    ensures CreditComponents(a) == CreditComponents(b)
  {
    var rest := AllComponents(a)[1..];
    assert AllComponents(a) == [AllComponents(a)[0]] + rest && AllComponents(b) == [AllComponents(b)[0]] + rest;
    FilterAppend([AllComponents(a)[0]], rest, POSITIVE);
    FilterAppend([AllComponents(b)[0]], rest, POSITIVE);
  }

  lemma ShownDecides(a: Amounts, b: Amounts)
    requires OnlyExtraDiffers(a, b)
    ensures CreditTotal(b) - CreditTotal(a) == Shown(b) - Shown(a)
  {
    CreditTotalIsPositivePart(a);
    CreditTotalIsPositivePart(b);
    assert AllComponents(b) == AllComponents(a)[0 := AllComponents(b)[0]];
    SumUpdate(AllComponents(a), 0, AllComponents(b)[0], POSITIVE_PART);
  }

  lemma ChargeAdds(x: real, c: int)
    ensures RoundMoney(x + c as real) == RoundMoney(x) + c
  {
    Nearest(x);
    RoundUnique(x + c as real, RoundMoney(x) + c);
  }

  /** The charge changes what the bill's entry should carry. */
  predicate ChargeShows(b: Bill, amount: real) {
    MaintenancePart(b.amounts) + RoundMoney(amount) > 0
  }

  lemma ChargeShowsIff(b: Bill, amount: real)
    requires Chargeable(b, amount)
    ensures OnlyExtraDiffers(b.amounts, Charged(b, amount).amounts)
    ensures ChargeShows(b, amount) <==> Shown(Charged(b, amount).amounts) != Shown(b.amounts)
  {
    ChargeAdds(b.amounts.extra, RoundMoney(amount));
  }

  lemma ChargeKeeps(s: Shop, scope: Scope, i: nat, amount: real)
    requires ShopOk(s, scope) && i < |s.bills| && Chargeable(s.bills[i], amount)
    requires CutPosting(s.db, scope, s.bills[i]) ==> !ChargeShows(s.bills[i], amount)
    ensures ShopOk(s.(bills := s.bills[i := Charged(s.bills[i], amount)]), scope)
  {
    var b, b' := s.bills[i], Charged(s.bills[i], amount);
    assert BillOk(s.db, scope, b);
    if CutPosting(s.db, scope, b) {
      ChargeShowsIff(b, amount);
      SameShown(b.amounts, b'.amounts);
      var e: nat :| Carries(s.db, scope, b, e);
      assert Carries(s.db, scope, b', e);
    }
    forall a | InScope(s.db, scope, a)
      ensures MaintNet(s.db, scope, a) == SumBy(s.bills[i := b'], BookedNet(s.db, scope, s.db.accounts[a].code))
    {
      ConservedRewrite(s, scope, i, b', a);
      assert BookedNet(s.db, scope, s.db.accounts[a].code)(b) == BookedNet(s.db, scope, s.db.accounts[a].code)(b');
    }
  }

  // ---- Other accounting operations ----

  /** No journal line is written; accounts keep their scopes and codes, and new ones bring new codes. */
  ghost predicate OnlyAccountsGrow(a: Db, b: Db) {
    && b.lines == a.lines && b.entries == a.entries && |a.accounts| <= |b.accounts|
    && (forall i | 0 <= i < |a.accounts| ::
        b.accounts[i].scope == a.accounts[i].scope && b.accounts[i].code == a.accounts[i].code)
    && forall i, j | 0 <= i < |a.accounts| <= j < |b.accounts|
                     && a.accounts[i].scope == b.accounts[j].scope && a.accounts[i].code.Some? ::
         b.accounts[j].code != a.accounts[i].code
  }

  lemma NoNewCode(a: Db, b: Db, scope: Scope, amounts: Amounts, id: int)
    requires OnlyAccountsGrow(a, b) && MissingCodes(a, scope, amounts) == {}
    requires |a.accounts| <= id < |b.accounts| && b.accounts[id].scope == scope
    ensures BillNet(amounts, b.accounts[id].code) == 0
  {
    RequiredFound(a, scope, amounts);
    forall c | c in CreditComponents(amounts) ensures OnCode(b.accounts[id].code)(c) == 0 {
    }
    SumZero(CreditComponents(amounts), OnCode(b.accounts[id].code));
  }

  lemma CarriesGrows(a: Db, b: Db, scope: Scope, bill: Bill, e: nat)
    requires OnlyAccountsGrow(a, b) && LinesOk(a) && Carries(a, scope, bill, e)
    ensures Carries(b, scope, bill, e)
  {
    RequiredFound(a, scope, bill.amounts);
    forall c | c in RequiredCodes(bill.amounts) ensures IdOf(b, scope, c).Some? {
    }
    forall id | InScope(b, scope, id) ensures EntryNet(b, e, id) == BillNet(bill.amounts, b.accounts[id].code) {
      if id >= |a.accounts| {
        NoNewCode(a, b, scope, bill.amounts, id);
        SumZero(b.lines, EntryAt(e, id));
      } else {
        assert InScope(a, scope, id);
      }
    }
  }

  lemma BillGrows(a: Db, b: Db, scope: Scope, bill: Bill)
    requires OnlyAccountsGrow(a, b) && LinesOk(a) && BillOk(a, scope, bill)
    ensures BillOk(b, scope, bill)
  {
    if bill.isPosted {
      CarriesGrows(a, b, scope, bill, bill.journalId.value);
    }
    if KeyTaken(a.entries, scope, Some(BillKey(scope, bill.id))) {
      var e: nat :| Carries(a, scope, bill, e);
      CarriesGrows(a, b, scope, bill, e);
    }
  }

  lemma GrowKeeps(s: Shop, scope: Scope, b: Db)
    requires ShopOk(s, scope) && WellFormed(b) && OnlyAccountsGrow(s.db, b)
    ensures ShopOk(s.(db := b), scope)
  {
    forall i | 0 <= i < |s.bills| ensures BillOk(b, scope, s.bills[i]) {
      BillGrows(s.db, b, scope, s.bills[i]);
    }
    forall a | InScope(b, scope, a)
      ensures MaintNet(b, scope, a) == SumBy(s.bills, BookedNet(b, scope, b.accounts[a].code))
    {
      SumExt(b.lines, MaintAt(s.db, scope, a), MaintAt(b, scope, a));
      if a >= |s.db.accounts| {
        SumZero(b.lines, MaintAt(b, scope, a));
        NewAccountUnbooked(s, scope, b, a);
      } else {
        assert InScope(s.db, scope, a);
        SumExt(s.bills, BookedNet(s.db, scope, b.accounts[a].code), BookedNet(b, scope, b.accounts[a].code));
      }
    }
  }

  lemma NewAccountUnbooked(s: Shop, scope: Scope, b: Db, a: int)
    requires ShopOk(s, scope) && OnlyAccountsGrow(s.db, b) && |s.db.accounts| <= a < |b.accounts|
              && InScope(b, scope, a)
    ensures SumBy(s.bills, BookedNet(b, scope, b.accounts[a].code)) == 0
  {
    forall x | x in s.bills ensures BookedNet(b, scope, b.accounts[a].code)(x) == 0 {
      assert BillOk(s.db, scope, x);
      BookedIff(s.db, scope, x);
      if Booked(s.db, scope, x) { NoNewCode(s.db, b, scope, x.amounts, a); }
    }
    SumZero(s.bills, BookedNet(b, scope, b.accounts[a].code));
  }

  /** The entry's key belongs to no bill, and either it is no maintenance key or the lines cancel on every account. */
  ghost predicate Unrelated(s: Shop, scope: Scope, e: Entry, ps: seq<Posting<int>>) {
    && (forall b | b in s.bills ::
        !HasKey(scope, BillKey(scope, b.id))(e) && !HasKey(scope, ReversalKey(scope, b.id))(e))
    && (IsMaintEntry(scope, e) ==> forall a | InScope(s.db, scope, a) :: NetOn(ps, a) == 0)
  }

  lemma UnrelatedEntryKeeps(s: Shop, scope: Scope, e: Entry, ps: seq<Posting<int>>)
    requires ShopOk(s, scope) && WellFormed(AppendEntry(s.db, e, ps)) && Unrelated(s, scope, e, ps)
    ensures ShopOk(s.(db := AppendEntry(s.db, e, ps)), scope)
  {
    var db' := AppendEntry(s.db, e, ps);
    forall i | 0 <= i < |s.bills|
      ensures BillOk(db', scope, s.bills[i]) && (Booked(db', scope, s.bills[i]) <==> Booked(s.db, scope, s.bills[i]))
    {
      assert s.bills[i] in s.bills;
      BillStays(s.db, e, ps, scope, s.bills[i]);
    }
    forall a | InScope(db', scope, a)
      ensures MaintNet(db', scope, a) == SumBy(s.bills, BookedNet(db', scope, db'.accounts[a].code))
    {
      AppendMaint(s.db, e, ps, scope, a);
      assert InScope(s.db, scope, a);
      SumZip(s.bills, s.bills, BookedNet(s.db, scope, s.db.accounts[a].code),
          BookedNet(db', scope, s.db.accounts[a].code));
    }
  }

  /** A journal outside the maintenance keys disturbs nothing. */
  lemma ForeignEntryKeeps(s: Shop, scope: Scope, e: Entry, ps: seq<Posting<int>>)
    requires ShopOk(s, scope) && WellFormed(AppendEntry(s.db, e, ps)) && !IsMaintEntry(scope, e)
    ensures ShopOk(s.(db := AppendEntry(s.db, e, ps)), scope)
  {
    forall b | b in s.bills
      ensures !HasKey(scope, BillKey(scope, b.id))(e) && !HasKey(scope, ReversalKey(scope, b.id))(e)
    {
      KeysDiffer(scope, b.id, b.id);
    }
    UnrelatedEntryKeeps(s, scope, e, ps);
  }

  lemma ForeignPostKeeps(s: Shop, scope: Scope, at: Scope, r: Request, key: Option<string>, author: string)
    requires ShopOk(s, scope) && (at == scope && key.Some? ==> !IsMaintenance(scope, key.value))
    ensures ShopOk(s.(db := Post(s.db, at, r, key, author).0), scope)
  {
    PostKeeps(s.db, at, r, key, author);
    if Post(s.db, at, r, key, author).0 != s.db {
      PostCreates(s.db, at, r, key, author);
      var ps := RoundAll(r.lines);
      ForeignEntryKeeps(s, scope, NewEntry(at, r, key, author, Checked(SumBy(ps, Debit), SumBy(ps, Debit), ps)), ps);
    }
  }

  /** Keys of source-system journals never look like maintenance keys. */
  lemma SourceKeysForeign(system: SourceSystem, key: Option<string>, scope: Scope)
    ensures var k := SP.SourceIdempotencyKey(system, key); k.Some? ==> !IsMaintenance(scope, k.value)
  {
    var k := SP.SourceIdempotencyKey(system, key);
    if k.Some? {
      var name := SP.SystemName(system);
      assert k.value[1] == name[1] && name[1] != 'r';
      assert KeyPrefix(scope)[1] == 'r';
    }
  }

  lemma SourcePostKeeps(s: Shop, scope: Scope, at: Scope, r: SP.SourceRequest, key: Option<string>, author: string)
    requires ShopOk(s, scope)
    ensures ShopOk(s.(db := SP.PostSource(s.db, at, r, key, author).0), scope)
  {
    SourceKeysForeign(r.system, key, scope);
    if SP.PostSource(s.db, at, r, key, author).0 != s.db {
      ForeignPostKeeps(s, scope, at, SP.CanonicalRequest(s.db, at, r), SP.SourceIdempotencyKey(r.system, key), author);
    }
  }

  /** A direct journal in the society's own scope under a key with the maintenance prefix. */
  predicate UsesMaintenanceKey(scope: Scope, st: Step) {
    st.PostEntry? && st.scope == scope && st.key.Some? && IsMaintenance(scope, st.key.value)
  }

  /** No other accounting operation disturbs the agreement. */
  lemma LedgerStepKeeps(s: Shop, scope: Scope, st: Step)
    requires ShopOk(s, scope) && !UsesMaintenanceKey(scope, st)
    ensures ShopOk(s.(db := Apply(s.db, st)), scope)
  {
    ApplyKeeps(s.db, st);
    match st
    case PostEntry(at, r, k, author) => ForeignPostKeeps(s, scope, at, r, k, author);
    case PostFromSource(at, r, k, author) => SourcePostKeeps(s, scope, at, r, k, author);
    case _ =>
      AdminGrows(s.db, st);
      GrowKeeps(s, scope, Apply(s.db, st));
  }

  lemma AdminGrows(db: Db, st: Step)
    requires !st.PostEntry? && !st.PostFromSource?
    ensures OnlyAccountsGrow(db, Apply(db, st))
  {
    match st
    case NewAccount(a) =>
    case Rename(at, c, n) =>
    case PutSources(at, items) =>
    case PutMappings(at, items, author) =>
    case ApproveMappings(at, sys, codes, author) =>
  }
}
