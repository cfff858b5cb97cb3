// What breaks the agreement between bills and ledger: each harmful call, with the exact condition under which it harms.
module BillBreaks {
  import opened Wrappers
  import opened Seqs
  import opened Sums
  import opened Tables
  import opened Validation
  import opened Journal
  import opened Bills
  import opened BillRuns
  import opened BillSafety
  import opened Runs

  lemma ReceivableNet(a: Amounts)
    ensures BillNet(a, Some(RECEIVABLE)) == CreditTotal(a)
  {
    forall c | c in CreditComponents(a) ensures OnCode(Some(RECEIVABLE))(c) == 0 {
    }
    SumZero(CreditComponents(a), OnCode(Some(RECEIVABLE)));
  }

  lemma ReceivableOf(db: Db, scope: Scope, b: Bill) returns (a: int)
    requires Payable(db, scope, b.amounts)
    ensures InScope(db, scope, a) && db.accounts[a].code == Some(RECEIVABLE)
    ensures BillNet(b.amounts, Some(RECEIVABLE)) == CreditTotal(b.amounts) > 0
  {
    RequiredFound(db, scope, b.amounts);
    a := KeyFor(db, scope, RECEIVABLE);
    ReceivableNet(b.amounts);
    PositiveTotal(CreditComponents(b.amounts));
  }

  // ---- An entry under a maintenance key, from wherever it comes ----

  /** How far the new entry moves ledger and bills apart on account a. */
  lemma GapAfter(s: Shop, scope: Scope, i: nat, e: Entry, ps: seq<Posting<int>>, a: int)
    requires ShopOk(s, scope) && i < |s.bills| && InScope(s.db, scope, a) && e.scope == scope
    requires e.key == Some(BillKey(scope, s.bills[i].id)) || e.key == Some(ReversalKey(scope, s.bills[i].id))
    ensures var (db', code) := (AppendEntry(s.db, e, ps), s.db.accounts[a].code);
      MaintNet(db', scope, a) - SumBy(s.bills, BookedNet(db', scope, code))
        == NetOn(ps, a) - BookedNet(db', scope, code)(s.bills[i]) + BookedNet(s.db, scope, code)(s.bills[i])
  {
    var db', code := AppendEntry(s.db, e, ps), s.db.accounts[a].code;
    KeysDiffer(scope, s.bills[i].id, s.bills[i].id);
    AppendMaint(s.db, e, ps, scope, a);
    forall j | 0 <= j < |s.bills| && j != i
      ensures BookedNet(s.db, scope, code)(s.bills[j]) == BookedNet(db', scope, code)(s.bills[j])
    {
      OthersStay(s, scope, i, e, ps, j);
    }
    SumExcept(s.bills, i, BookedNet(s.db, scope, code), BookedNet(db', scope, code));
  }

  predicate KeyOfBill(s: Shop, scope: Scope, e: Entry) {
    exists b | b in s.bills :: HasKey(scope, BillKey(scope, b.id))(e) || HasKey(scope, ReversalKey(scope, b.id))(e)
  }

  lemma GapWithoutBill(s: Shop, scope: Scope, e: Entry, ps: seq<Posting<int>>, a: int)
    requires ShopOk(s, scope) && InScope(s.db, scope, a) && IsMaintEntry(scope, e) && !KeyOfBill(s, scope, e)
    ensures var (db', code) := (AppendEntry(s.db, e, ps), s.db.accounts[a].code);
      MaintNet(db', scope, a) - SumBy(s.bills, BookedNet(db', scope, code)) == NetOn(ps, a)
  {
    var db', code := AppendEntry(s.db, e, ps), s.db.accounts[a].code;
    AppendMaint(s.db, e, ps, scope, a);
    forall j | 0 <= j < |s.bills|
      ensures BookedNet(s.db, scope, code)(s.bills[j]) == BookedNet(db', scope, code)(s.bills[j])
    {
      assert s.bills[j] in s.bills;
      BillStays(s.db, e, ps, scope, s.bills[j]);
    }
    SumZip(s.bills, s.bills, BookedNet(s.db, scope, code), BookedNet(db', scope, code));
  }

  /** The entry does to every account what the call that owns its key would do: post a postable bill, reverse a posted
      one, or, when the key is no bill's, nothing. */
  ghost predicate Fits(s: Shop, scope: Scope, e: Entry, ps: seq<Posting<int>>) {
    && (forall b | b in s.bills && HasKey(scope, BillKey(scope, b.id))(e) ::
        Postable(b) && Payable(s.db, scope, b.amounts) && PutsBill(s.db, scope, ps, b.amounts))
    && (forall b | b in s.bills && HasKey(scope, ReversalKey(scope, b.id))(e) ::
        b.isPosted && TakesBill(s.db, scope, ps, b.amounts))
    && (KeyOfBill(s, scope, e) || forall a | InScope(s.db, scope, a) :: NetOn(ps, a) == 0)
  }

  /** An entry under a free maintenance key leaves the two stores in agreement exactly when it does what its key says.
      */
  lemma EntryFitsIff(s: Shop, scope: Scope, e: Entry, ps: seq<Posting<int>>)
    requires ShopOk(s, scope) && IsMaintEntry(scope, e) && !KeyTaken(s.db.entries, scope, e.key)
    requires WellFormed(AppendEntry(s.db, e, ps))
    ensures ShopOk(s.(db := AppendEntry(s.db, e, ps)), scope) <==> Fits(s, scope, e, ps)
  {
    if b :| b in s.bills && HasKey(scope, BillKey(scope, b.id))(e) {
      var i :| 0 <= i < |s.bills| && s.bills[i] == b;
      PostingFitsIff(s, scope, i, e, ps);
      FitsAsPosting(s, scope, i, e, ps);
    } else if b :| b in s.bills && HasKey(scope, ReversalKey(scope, b.id))(e) {
      var i :| 0 <= i < |s.bills| && s.bills[i] == b;
      ReversalFitsIff(s, scope, i, e, ps);
      FitsAsReversal(s, scope, i, e, ps);
    } else {
      LooseFitsIff(s, scope, e, ps);
    }
  }

  lemma OneKeyOneBill(s: Shop, scope: Scope, i: nat, e: Entry)
    requires DistinctIds(s.bills) && i < |s.bills|
    ensures HasKey(scope, BillKey(scope, s.bills[i].id))(e) ==> forall b | b in s.bills ::
                !HasKey(scope, ReversalKey(scope, b.id))(e)
                && (HasKey(scope, BillKey(scope, b.id))(e) ==> b == s.bills[i])
    ensures HasKey(scope, ReversalKey(scope, s.bills[i].id))(e) ==> forall b | b in s.bills ::
                !HasKey(scope, BillKey(scope, b.id))(e)
                && (HasKey(scope, ReversalKey(scope, b.id))(e) ==> b == s.bills[i])
  {
    forall b | b in s.bills
      ensures BillKey(scope, b.id) == BillKey(scope, s.bills[i].id) ==> b == s.bills[i]
      ensures ReversalKey(scope, b.id) == ReversalKey(scope, s.bills[i].id) ==> b == s.bills[i]
      ensures BillKey(scope, b.id) != ReversalKey(scope, s.bills[i].id)
      ensures ReversalKey(scope, b.id) != BillKey(scope, s.bills[i].id)
    {
      KeysDiffer(scope, b.id, s.bills[i].id);
      KeysDiffer(scope, s.bills[i].id, b.id);
    }
  }

  lemma FitsAsPosting(s: Shop, scope: Scope, i: nat, e: Entry, ps: seq<Posting<int>>)
    requires DistinctIds(s.bills) && i < |s.bills| && HasKey(scope, BillKey(scope, s.bills[i].id))(e)
    ensures Fits(s, scope, e, ps) <==>
              Postable(s.bills[i]) && Payable(s.db, scope, s.bills[i].amounts)
              && PutsBill(s.db, scope, ps, s.bills[i].amounts)
  {
    OneKeyOneBill(s, scope, i, e);
    assert s.bills[i] in s.bills;
  }

  lemma FitsAsReversal(s: Shop, scope: Scope, i: nat, e: Entry, ps: seq<Posting<int>>)
    requires DistinctIds(s.bills) && i < |s.bills| && HasKey(scope, ReversalKey(scope, s.bills[i].id))(e)
    ensures Fits(s, scope, e, ps) <==>
              s.bills[i].isPosted && TakesBill(s.db, scope, ps, s.bills[i].amounts)
  {
    OneKeyOneBill(s, scope, i, e);
    assert s.bills[i] in s.bills;
  }

  lemma PostingFitsIff(s: Shop, scope: Scope, i: nat, e: Entry, ps: seq<Posting<int>>)
    requires ShopOk(s, scope) && i < |s.bills| && HasKey(scope, BillKey(scope, s.bills[i].id))(e)
    requires !KeyTaken(s.db.entries, scope, e.key) && WellFormed(AppendEntry(s.db, e, ps))
    ensures ShopOk(s.(db := AppendEntry(s.db, e, ps)), scope) <==>
              Postable(s.bills[i]) && Payable(s.db, scope, s.bills[i].amounts)
              && PutsBill(s.db, scope, ps, s.bills[i].amounts)
  {
    var b, db' := s.bills[i], AppendEntry(s.db, e, ps);
    assert BillOk(s.db, scope, b);
    if Postable(b) && Payable(s.db, scope, b.amounts) && PutsBill(s.db, scope, ps, b.amounts) {
      LeaveUnmarked(s, scope, i, e, ps);
    }
    if ShopOk(s.(db := db'), scope) {
      OwnEntryPuts(s.db, scope, b, e, ps);
    }
  }

  /** An entry that is fine under the bill's key carries the bill. */
  lemma OwnEntryPuts(db: Db, scope: Scope, b: Bill, e: Entry, ps: seq<Posting<int>>)
    requires WellFormed(db) && BillOk(db, scope, b) && HasKey(scope, BillKey(scope, b.id))(e)
    requires !KeyTaken(db.entries, scope, e.key)
    requires WellFormed(AppendEntry(db, e, ps)) && BillOk(AppendEntry(db, e, ps), scope, b)
    ensures Postable(b) && Payable(db, scope, b.amounts) && PutsBill(db, scope, ps, b.amounts)
  {
    var db' := AppendEntry(db, e, ps);
    KeysDiffer(scope, b.id, b.id);
    KeyTakenAppend(db.entries, e, scope, BillKey(scope, b.id));
    KeyTakenAppend(db.entries, e, scope, ReversalKey(scope, b.id));
    var own := CarrierOf(db', scope, b);
    assert own == |db.entries|;
    assert MissingCodes(db', scope, b.amounts) == MissingCodes(db, scope, b.amounts);
    forall a | InScope(db, scope, a) ensures NetOn(ps, a) == BillNet(b.amounts, db.accounts[a].code) {
      assert InScope(db', scope, a);
      AppendEntryNet(db, e, ps, own, a);
    }
  }

  lemma ReversalFitsIff(s: Shop, scope: Scope, i: nat, e: Entry, ps: seq<Posting<int>>)
    requires ShopOk(s, scope) && i < |s.bills| && HasKey(scope, ReversalKey(scope, s.bills[i].id))(e)
    requires !KeyTaken(s.db.entries, scope, e.key) && WellFormed(AppendEntry(s.db, e, ps))
    ensures ShopOk(s.(db := AppendEntry(s.db, e, ps)), scope) <==>
              s.bills[i].isPosted && TakesBill(s.db, scope, ps, s.bills[i].amounts)
  {
    var b, db' := s.bills[i], AppendEntry(s.db, e, ps);
    assert BillOk(s.db, scope, b);
    BookedIff(s.db, scope, b);
    if b.isPosted && TakesBill(s.db, scope, ps, b.amounts) {
      ReversalEntryKeeps(s, scope, i, e, ps, b);
      assert s.bills[i := b] == s.bills;
    }
    if ShopOk(s.(db := db'), scope) {
      OwnReversalTakes(s, scope, i, e, ps);
    }
  }

  lemma OwnReversalTakes(s: Shop, scope: Scope, i: nat, e: Entry, ps: seq<Posting<int>>)
    requires ShopOk(s, scope) && i < |s.bills| && HasKey(scope, ReversalKey(scope, s.bills[i].id))(e)
    requires !KeyTaken(s.db.entries, scope, e.key) && ShopOk(s.(db := AppendEntry(s.db, e, ps)), scope)
    ensures s.bills[i].isPosted && TakesBill(s.db, scope, ps, s.bills[i].amounts)
  {
    var b, db' := s.bills[i], AppendEntry(s.db, e, ps);
    assert BillOk(s.db, scope, b) && BillOk(db', scope, b);
    KeysDiffer(scope, b.id, b.id);
    KeyTakenAppend(s.db.entries, e, scope, BillKey(scope, b.id));
    KeyTakenAppend(s.db.entries, e, scope, ReversalKey(scope, b.id));
    BookedIff(s.db, scope, b);
    forall a | InScope(s.db, scope, a) ensures NetOn(ps, a) == -BillNet(b.amounts, s.db.accounts[a].code) {
      assert InScope(db', scope, a);
      GapAfter(s, scope, i, e, ps, a);
    }
  }

  lemma LooseFitsIff(s: Shop, scope: Scope, e: Entry, ps: seq<Posting<int>>)
    requires ShopOk(s, scope) && IsMaintEntry(scope, e) && !KeyOfBill(s, scope, e)
    requires WellFormed(AppendEntry(s.db, e, ps))
    ensures ShopOk(s.(db := AppendEntry(s.db, e, ps)), scope) <==>
              forall a | InScope(s.db, scope, a) :: NetOn(ps, a) == 0
  {
    var s' := s.(db := AppendEntry(s.db, e, ps));
    if forall a | InScope(s.db, scope, a) :: NetOn(ps, a) == 0 {
      UnrelatedEntryKeeps(s, scope, e, ps);
    }
    if ShopOk(s', scope) {
      forall a | InScope(s.db, scope, a) ensures NetOn(ps, a) == 0 {
        assert InScope(s'.db, scope, a);
        GapWithoutBill(s, scope, e, ps, a);
      }
    }
  }

  // ---- Direct journals under maintenance keys ----

  /** A direct journal creates an entry under a maintenance key that does not do what the key says. */
  ghost predicate Intrudes(s: Shop, scope: Scope, st: Step) {
    && UsesMaintenanceKey(scope, st)
    && var posted := Post(s.db, scope, st.request, st.key, st.author).1;
      posted.Ok? && posted.value.created
      && !Fits(s, scope, EntryOf(scope, st.request, st.key.value, st.author), RoundAll(st.request.lines))
  }

  /** Any other accounting operation keeps the stores in agreement exactly when it is no such journal. */
  lemma LedgerStepIff(s: Shop, scope: Scope, st: Step)
    requires ShopOk(s, scope)
    ensures ShopOk(s.(db := Apply(s.db, st)), scope) <==> !Intrudes(s, scope, st)
  {
    if UsesMaintenanceKey(scope, st) {
      DirectPostIff(s, scope, st.request, st.key.value, st.author);
    } else {
      LedgerStepKeeps(s, scope, st);
    }
  }

  lemma DirectPostIff(s: Shop, scope: Scope, r: Request, key: string, author: string)
    requires ShopOk(s, scope) && IsMaintenance(scope, key)
    ensures var (db', posted) := Post(s.db, scope, r, Some(key), author);
      ShopOk(s.(db := db'), scope) <==>
        (posted.Ok? && posted.value.created ==> Fits(s, scope, EntryOf(scope, r, key, author), RoundAll(r.lines)))
  {
    var (db', posted) := Post(s.db, scope, r, Some(key), author);
    if posted.Ok? && posted.value.created {
      PostCreates(s.db, scope, r, Some(key), author);
      PostKeeps(s.db, scope, r, Some(key), author);
      EntryFitsIff(s, scope, EntryOf(scope, r, key, author), RoundAll(r.lines));
    }
  }

  // ---- A commit from a copy that has gone stale ----

  /** The bill is still there to be posted, with the components the copy shows. */
  predicate StillCurrent(s: Shop, copy: Bill) {
    exists b | b in s.bills :: b.id == copy.id && Postable(b) && Shown(b.amounts) == Shown(copy.amounts)
  }

  /** The commit writes an entry that the bill as it has become does not stand for. */
  predicate Orphans(s: Shop, scope: Scope, copy: Bill) {
    && Payable(s.db, scope, copy.amounts) && !KeyTaken(s.db.entries, scope, Some(BillKey(scope, copy.id)))
    && !StillCurrent(s, copy)
  }

  lemma CommitKeeps(s: Shop, scope: Scope, copy: Bill, author: string)
    requires ShopOk(s, scope) && StepAllowed(s, scope, CommitStep(copy, author)) && !Orphans(s, scope, copy)
    ensures ShopOk(Commit(s, scope, copy, author), scope)
  {
    if KeyTaken(s.db.entries, scope, Some(BillKey(scope, copy.id))) {
      EntryReplays(s.db, scope, copy, author);
    } else if Payable(s.db, scope, copy.amounts) {
      var b :| b in s.bills && b.id == copy.id && Postable(b) && Shown(b.amounts) == Shown(copy.amounts);
      var i :| 0 <= i < |s.bills| && s.bills[i] == b;
      SameShown(copy.amounts, b.amounts);
      CommitBooks(s, scope, i, copy, author);
    }
  }

  lemma CommitBooks(s: Shop, scope: Scope, i: nat, copy: Bill, author: string)
    requires ShopOk(s, scope) && i < |s.bills| && s.bills[i].id == copy.id && Postable(s.bills[i])
    requires Payable(s.db, scope, copy.amounts) && !KeyTaken(s.db.entries, scope, Some(BillKey(scope, copy.id)))
    requires CreditComponents(copy.amounts) == CreditComponents(s.bills[i].amounts)
    ensures ShopOk(Commit(s, scope, copy, author), scope)
  {
    var e := EntryOf(scope, BillRequest(s.db, scope, copy), BillKey(scope, copy.id), author);
    var ps := RoundAll(PostingLines(s.db, scope, copy.amounts));
    BillPosts(s.db, scope, copy, author);
    PostingPuts(s.db, scope, copy.amounts);
    SameComponents(s.db, scope, copy.amounts, s.bills[i].amounts, ps);
    LeaveUnmarked(s, scope, i, e, ps);
  }

  lemma LeaveUnmarked(s: Shop, scope: Scope, i: nat, e: Entry, ps: seq<Posting<int>>)
    requires ShopOk(s, scope) && i < |s.bills| && Postable(s.bills[i]) && !CutPosting(s.db, scope, s.bills[i])
    requires Payable(s.db, scope, s.bills[i].amounts) && PutsBill(s.db, scope, ps, s.bills[i].amounts)
    requires e.scope == scope && e.key == Some(BillKey(scope, s.bills[i].id))
    requires WellFormed(AppendEntry(s.db, e, ps))
    ensures ShopOk(s.(db := AppendEntry(s.db, e, ps)), scope)
  {
    FirstEntryKeeps(s, scope, i, e, ps, s.bills[i]);
    assert s.bills[i := s.bills[i]] == s.bills;
  }

  lemma SameComponents(db: Db, scope: Scope, a: Amounts, b: Amounts, ps: seq<Posting<int>>)
    requires CreditComponents(a) == CreditComponents(b) && Payable(db, scope, a) && PutsBill(db, scope, ps, a)
    ensures Payable(db, scope, b) && PutsBill(db, scope, ps, b)
  {
    assert MissingCodes(db, scope, b) == MissingCodes(db, scope, a);
  }

  /** A commit from the bill as it is keeps agreement, whatever happens to the call afterwards. */
  lemma CutPostKeeps(s: Shop, scope: Scope, i: nat, author: string)
    requires ShopOk(s, scope) && i < |s.bills| && Postable(s.bills[i])
    ensures StepAllowed(s, scope, CommitStep(s.bills[i], author)) && ShopOk(CutPost(s, scope, i, author), scope)
  {
    forall b | b in s.bills && b.id == s.bills[i].id ensures b == s.bills[i] {
    }
    assert StillCurrent(s, s.bills[i]);
    CommitKeeps(s, scope, s.bills[i], author);
  }

  lemma CommitBreaks(s: Shop, scope: Scope, copy: Bill, author: string)
    requires ShopOk(s, scope) && StepAllowed(s, scope, CommitStep(copy, author)) && Orphans(s, scope, copy)
    ensures !Conserved(Commit(s, scope, copy, author), scope)
  {
    var e := EntryOf(scope, BillRequest(s.db, scope, copy), BillKey(scope, copy.id), author);
    var ps := RoundAll(PostingLines(s.db, scope, copy.amounts));
    var r := ReceivableOf(s.db, scope, copy);
    BillPosts(s.db, scope, copy, author);
    PostingPuts(s.db, scope, copy.amounts);
    KeysDiffer(scope, copy.id, copy.id);
    assert InScope(AppendEntry(s.db, e, ps), scope, r);
    if b :| b in s.bills && b.id == copy.id {
      var i :| 0 <= i < |s.bills| && s.bills[i] == b;
      GapAfter(s, scope, i, e, ps, r);
      CopyDiffers(s, scope, i, copy);
    } else {
      forall b | b in s.bills
        ensures !HasKey(scope, BillKey(scope, b.id))(e) && !HasKey(scope, ReversalKey(scope, b.id))(e)
      {
        KeysDiffer(scope, b.id, copy.id);
        KeysDiffer(scope, copy.id, b.id);
      }
      GapWithoutBill(s, scope, e, ps, r);
    }
  }

  lemma CopyDiffers(s: Shop, scope: Scope, i: nat, copy: Bill)
    requires ShopOk(s, scope) && i < |s.bills| && s.bills[i].id == copy.id && Later(copy, s.bills[i])
    requires Orphans(s, scope, copy)
    ensures !Booked(s.db, scope, s.bills[i])
    ensures s.bills[i].status == ReversedBill
            || BillNet(s.bills[i].amounts, Some(RECEIVABLE)) != BillNet(copy.amounts, Some(RECEIVABLE))
  {
    var b := s.bills[i];
    assert b in s.bills && BillOk(s.db, scope, b);
    ReceivableNet(b.amounts);
    ReceivableNet(copy.amounts);
    ShownDecides(copy.amounts, b.amounts);
  }

  // ---- Harm to a cut posting ----

  lemma ReverseBreaks(s: Shop, scope: Scope, i: nat, reason: string, author: string)
    requires ShopOk(s, scope) && i < |s.bills| && CutPosting(s.db, scope, s.bills[i])
    ensures !Conserved(ReverseBill(s, scope, i, reason, author).0, scope)
  {
    var b := s.bills[i];
    assert BillOk(s.db, scope, b);
    BookedIff(s.db, scope, b);
    var r := ReceivableOf(s.db, scope, b);
    ConservedRewrite(s, scope, i, Reversed(b), r);
  }

  lemma ChargeBreaks(s: Shop, scope: Scope, i: nat, amount: real)
    requires ShopOk(s, scope) && i < |s.bills| && Chargeable(s.bills[i], amount)
    requires CutPosting(s.db, scope, s.bills[i]) && ChargeShows(s.bills[i], amount)
    ensures !Conserved(s.(bills := s.bills[i := Charged(s.bills[i], amount)]), scope)
  {
    var b, b' := s.bills[i], Charged(s.bills[i], amount);
    assert BillOk(s.db, scope, b);
    BookedIff(s.db, scope, b);
    var r := ReceivableOf(s.db, scope, b);
    ChargeShowsIff(b, amount);
    ShownDecides(b.amounts, b'.amounts);
    ReceivableNet(b'.amounts);
    ConservedRewrite(s, scope, i, b', r);
  }

  lemma GenerateBreaks(s: Shop, scope: Scope, month: int, year: int, news: seq<Bill>)
    requires ShopOk(s, scope) && (forall b | b in news :: IsNew(s, scope, b))
    requires !PostedIn(s.bills, month, year) && CutInMonth(s, scope, month, year)
    ensures !Conserved(Generate(s, month, year, news), scope)
  {
    var b :| b in s.bills && b.month == month && b.year == year && CutPosting(s.db, scope, b);
    assert BillOk(s.db, scope, b);
    BookedIff(s.db, scope, b);
    var r := ReceivableOf(s.db, scope, b);
    var net := BookedNet(s.db, scope, Some(RECEIVABLE));
    DroppedNet(s.db, scope, s.bills, NotInMonth(month, year), b);
    SumZero(news, net);
    SumAppend(Filter(s.bills, NotInMonth(month, year)), news, net);
  }

  /** Dropping a booked bill lowers what the bills owe on the receivable account. */
  lemma DroppedNet(db: Db, scope: Scope, bills: seq<Bill>, p: Bill -> bool, b: Bill)
    requires b in bills && !p(b) && Booked(db, scope, b) && CreditTotal(b.amounts) > 0
    ensures SumBy(Filter(bills, p), BookedNet(db, scope, Some(RECEIVABLE)))
              < SumBy(bills, BookedNet(db, scope, Some(RECEIVABLE)))
  {
    var net := BookedNet(db, scope, Some(RECEIVABLE));
    forall x | x in bills ensures net(x) >= 0 {
      ReceivableNet(x.amounts);
      PositiveTotal(CreditComponents(x.amounts));
    }
    ReceivableNet(b.amounts);
    SumFilterDrops(bills, p, net, b);
  }
}
