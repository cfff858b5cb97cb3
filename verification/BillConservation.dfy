// The bill collection and the ledger agree after every run, exactly as long as no call does harm.
module BillConservation {
  import opened Wrappers
  import opened Seqs
  import opened Sums
  import opened Tables
  import opened Validation
  import opened Journal
  import opened Bills
  import opened BillRuns
  import opened BillSafety
  import opened BillBreaks
  import opened Runs
  import SP = SourcePosting

  /** The step throws away what a cut posting still owes (it drops the bill, reverses it without a reversal entry, or
      changes the components that its entry already carries), commits a copy that its bill no longer matches, or is a
      direct journal that takes a maintenance key for something else. */
  ghost predicate Breaks(s: Shop, scope: Scope, step: BillStep) {
    match step
    case GenerateStep(month, year, news) => !PostedIn(s.bills, month, year) && CutInMonth(s, scope, month, year)
    case ReverseStep(i, reason, author) => i < |s.bills| && CutPosting(s.db, scope, s.bills[i])
    case ChargeStep(i, amount) =>
      i < |s.bills| && Chargeable(s.bills[i], amount) && CutPosting(s.db, scope, s.bills[i])
          && ChargeShows(s.bills[i], amount)
    case CommitStep(copy, author) => Orphans(s, scope, copy)
    case LedgerStep(st) => Intrudes(s, scope, st)
    case _ => false
  }

  /** A step leaves the two stores in agreement exactly when it does not break them. */
  lemma StepConservesIff(s: Shop, scope: Scope, step: BillStep)
    requires ShopOk(s, scope) && StepAllowed(s, scope, step)
    ensures ShopOk(Advance(s, scope, step), scope) <==> !Breaks(s, scope, step)
    ensures Breaks(s, scope, step) && !step.LedgerStep? ==> !Conserved(Advance(s, scope, step), scope)
  {
    if Breaks(s, scope, step) {
      match step
      case GenerateStep(month, year, news) => GenerateBreaks(s, scope, month, year, news);
      case ReverseStep(i, reason, author) => ReverseBreaks(s, scope, i, reason, author);
      case ChargeStep(i, amount) => ChargeBreaks(s, scope, i, amount);
      case CommitStep(copy, author) => CommitBreaks(s, scope, copy, author);
      case LedgerStep(st) => LedgerStepIff(s, scope, st);
    } else {
      AdvanceKeeps(s, scope, step);
    }
  }

  lemma AdvanceKeeps(s: Shop, scope: Scope, step: BillStep)
    requires ShopOk(s, scope) && StepAllowed(s, scope, step) && !Breaks(s, scope, step)
    ensures ShopOk(Advance(s, scope, step), scope)
  {
    match step
    case GenerateStep(month, year, news) => GenerateKeeps(s, scope, month, year, news);
    case RegenerateStep(b) => AddBillsKeeps(s, scope, [b]);
    case ChargeStep(i, amount) =>
        if i < |s.bills| && Chargeable(s.bills[i], amount) { ChargeKeeps(s, scope, i, amount); }
    case PostStep(i, author) => if i < |s.bills| && Postable(s.bills[i]) { PostBillKeeps(s, scope, i, author); }
    case ReverseStep(i, reason, author) => if i < |s.bills| { ReverseKeeps(s, scope, i, reason, author); }
    case CommitStep(copy, author) => CommitKeeps(s, scope, copy, author);
    case MarkStep(id, e) => MarkKeeps(s, scope, id, e);
    case CutReverseStep(i, reason, author) => if i < |s.bills| { CutReverseKeeps(s, scope, i, reason, author); }
    case LedgerStep(st) => LedgerStepIff(s, scope, st);
  }

  // ---- Runs ----

  function RunBills(s: Shop, scope: Scope, steps: seq<BillStep>): Shop {
    if |steps| == 0 then s else Advance(RunBills(s, scope, steps[..|steps| - 1]), scope, steps[|steps| - 1])
  }

  ghost predicate RunAllowed(s: Shop, scope: Scope, steps: seq<BillStep>) {
    forall k | 0 <= k < |steps| :: StepAllowed(RunBills(s, scope, steps[..k]), scope, steps[k])
  }

  ghost predicate AgreesAt(s: Shop, scope: Scope, steps: seq<BillStep>, k: int) {
    0 <= k <= |steps| && ShopOk(RunBills(s, scope, steps[..k]), scope)
  }

  ghost predicate HarmlessAt(s: Shop, scope: Scope, steps: seq<BillStep>, k: int) {
    0 <= k < |steps| && !Breaks(RunBills(s, scope, steps[..k]), scope, steps[k])
  }

  lemma AgreementAt(s: Shop, scope: Scope, steps: seq<BillStep>, k: nat)
    requires RunAllowed(s, scope, steps) && k < |steps| && AgreesAt(s, scope, steps, k)
    ensures AgreesAt(s, scope, steps, k + 1) <==> HarmlessAt(s, scope, steps, k)
  {
    assert steps[..k + 1][..k] == steps[..k];
    StepConservesIff(RunBills(s, scope, steps[..k]), scope, steps[k]);
  }

  /** Over every run of generate, regenerate, add-extra-charge, post and reverse, with postings split into a commit from
      an earlier copy and a later mark, either of them cut off, reversals cut off after their commit, and any other
      accounting operations in between: each account's balance from maintenance journals stays the signed sum of the
      positive components of the bills whose entries stand, exactly as long as no step breaks it. */
  lemma RunConservesIff(s: Shop, scope: Scope, steps: seq<BillStep>)
    requires ShopOk(s, scope) && RunAllowed(s, scope, steps)
    ensures (forall k | 0 <= k <= |steps| :: AgreesAt(s, scope, steps, k))
            <==> forall k | 0 <= k < |steps| :: HarmlessAt(s, scope, steps, k)
  {
    assert steps[..0] == [];
    assert AgreesAt(s, scope, steps, 0);
    var p, q := (k: int) => AgreesAt(s, scope, steps, k), (k: int) => HarmlessAt(s, scope, steps, k);
    forall k | 0 <= k < |steps| && p(k) ensures p(k + 1) <==> q(k) {
      AgreementAt(s, scope, steps, k);
    }
    IffAlong(p, q, |steps|);
    assert forall k :: p(k) <==> AgreesAt(s, scope, steps, k);
    assert forall k :: q(k) <==> HarmlessAt(s, scope, steps, k);
  }

  ghost predicate SettledAt(s: Shop, scope: Scope, steps: seq<BillStep>, k: int) {
    AgreesAt(s, scope, steps, k) && Settled(RunBills(s, scope, steps[..k]), scope)
  }

  ghost predicate TruthfulAt(s: Shop, scope: Scope, steps: seq<BillStep>, k: int) {
    HarmlessAt(s, scope, steps, k) && !Misleads(RunBills(s, scope, steps[..k]), scope, steps[k])
  }

  /** Along the same runs, the bills that say posted are throughout exactly those whose entries stand, and the stores
      agree, exactly as long as no step breaks the agreement or misleads. */
  lemma RunSettledIff(s: Shop, scope: Scope, steps: seq<BillStep>)
    requires ShopOk(s, scope) && Settled(s, scope) && RunAllowed(s, scope, steps)
    ensures (forall k | 0 <= k <= |steps| :: SettledAt(s, scope, steps, k))
            <==> forall k | 0 <= k < |steps| :: TruthfulAt(s, scope, steps, k)
  {
    assert steps[..0] == [];
    assert SettledAt(s, scope, steps, 0);
    var p, q := (k: int) => SettledAt(s, scope, steps, k), (k: int) => TruthfulAt(s, scope, steps, k);
    forall k | 0 <= k < |steps| && p(k) ensures p(k + 1) <==> q(k) {
      AgreementAt(s, scope, steps, k);
      assert steps[..k + 1][..k] == steps[..k];
      StepSettledIff(RunBills(s, scope, steps[..k]), scope, steps[k]);
    }
    IffAlong(p, q, |steps|);
    assert forall k :: p(k) <==> SettledAt(s, scope, steps, k);
    assert forall k :: q(k) <==> TruthfulAt(s, scope, steps, k);
  }

  /** One database call of a posting or reversal by itself, or a direct journal under a maintenance key. */
  predicate IsPiece(scope: Scope, step: BillStep) {
    || step.CommitStep? || step.MarkStep? || step.CutReverseStep?
    || (step.LedgerStep? && UsesMaintenanceKey(scope, step.step))
  }

  /** When every call runs in one piece nothing ever breaks: every account's balance from maintenance journals is the
      signed sum of the positive components of the bills currently posted, receivable on the debit side. */
  lemma {:induction false} RunConserves(s: Shop, scope: Scope, steps: seq<BillStep>)
    requires ShopOk(s, scope) && Settled(s, scope) && RunAllowed(s, scope, steps)
    requires forall st | st in steps :: !IsPiece(scope, st)
    ensures var s' := RunBills(s, scope, steps);
      && ShopOk(s', scope) && Settled(s', scope)
      && forall a | InScope(s'.db, scope, a) ::
          MaintNet(s'.db, scope, a) == SumBy(s'.bills, PostedNet(s'.db.accounts[a].code))
  {
    if |steps| == 0 {
    } else {
      var front, last := steps[..|steps| - 1], steps[|steps| - 1];
      forall k | 0 <= k < |front| ensures StepAllowed(RunBills(s, scope, front[..k]), scope, front[k]) {
        assert front[..k] == steps[..k] && front[k] == steps[k];
      }
      assert forall st | st in front :: st in steps;
      RunConserves(s, scope, front);
      WholeStep(RunBills(s, scope, front), scope, last);
    }
    ConservedIsPosted(RunBills(s, scope, steps), scope);
  }

  /** The step leaves a bill that says posted though its entry does not stand, or the other way round: it commits
      without marking, reverses without marking, marks a bill that has been reversed since its commit, or is a direct
      journal under the key of an open bill. */
  predicate Misleads(s: Shop, scope: Scope, step: BillStep) {
    match step
    case CommitStep(copy, author) =>
      && Payable(s.db, scope, copy.amounts) && !KeyTaken(s.db.entries, scope, Some(BillKey(scope, copy.id)))
      && exists b | b in s.bills :: b.id == copy.id && Postable(b)
    case MarkStep(id, e) => exists b | b in s.bills :: b.id == id && b.status == ReversedBill
    case CutReverseStep(i, reason, author) => i < |s.bills| && s.bills[i].isPosted
    case LedgerStep(st) => UsesMaintenanceKey(scope, st) && Flips(s, scope, st.request, st.key.value, st.author)
    case _ => false
  }

  /** The direct journal is written under the bill key of a postable bill or the reversal key of a posted one. */
  predicate Flips(s: Shop, scope: Scope, r: Request, key: string, author: string) {
    var posted := Post(s.db, scope, r, Some(key), author).1;
    && posted.Ok? && posted.value.created
    && exists b | b in s.bills ::
         (Postable(b) && key == BillKey(scope, b.id)) || (b.isPosted && key == ReversalKey(scope, b.id))
  }

  /** A step leaves every bill's posted flag in line with its entry exactly when it does not mislead. */
  lemma StepSettledIff(s: Shop, scope: Scope, step: BillStep)
    requires ShopOk(s, scope) && Settled(s, scope) && StepAllowed(s, scope, step)
    ensures Settled(Advance(s, scope, step), scope) <==> !Misleads(s, scope, step)
  {
    match step
    case CommitStep(copy, author) => CommitSettledIff(s, scope, copy, author);
    case MarkStep(id, e) => MarkSettledIff(s, scope, id, e);
    case CutReverseStep(i, reason, author) => if i < |s.bills| { CutReverseSettledIff(s, scope, i, reason, author); }
    case LedgerStep(st) => LedgerSettledIff(s, scope, st);
    case _ => StaysSettled(s, scope, step);
  }

  lemma WholeStep(s: Shop, scope: Scope, step: BillStep)
    requires ShopOk(s, scope) && Settled(s, scope) && StepAllowed(s, scope, step) && !IsPiece(scope, step)
    ensures ShopOk(Advance(s, scope, step), scope) && Settled(Advance(s, scope, step), scope)
  {
    AdvanceKeeps(s, scope, step);
    StepSettledIff(s, scope, step);
  }

  lemma StaysSettled(s: Shop, scope: Scope, step: BillStep)
    requires ShopOk(s, scope) && Settled(s, scope) && StepAllowed(s, scope, step)
    requires !step.CommitStep? && !step.MarkStep? && !step.CutReverseStep? && !step.LedgerStep?
    ensures Settled(Advance(s, scope, step), scope)
  {
    match step
    case GenerateStep(month, year, news) => GenerateSettled(s, scope, month, year, news);
    case RegenerateStep(b) =>
    case ChargeStep(i, amount) =>
    case PostStep(i, author) => if i < |s.bills| && Postable(s.bills[i]) { PostSettled(s, scope, i, author); }
    case ReverseStep(i, reason, author) => if i < |s.bills| { ReverseSettled(s, scope, i, reason, author); }
  }

  lemma GenerateSettled(s: Shop, scope: Scope, month: int, year: int, news: seq<Bill>)
    requires Settled(s, scope) && forall b | b in news :: IsNew(s, scope, b)
    ensures Settled(Generate(s, month, year, news), scope)
  {
    var bills := Generate(s, month, year, news).bills;
    forall k | 0 <= k < |bills| ensures bills[k].isPosted <==> Booked(s.db, scope, bills[k]) {
      assert bills[k] in bills && (bills[k] in s.bills || bills[k] in news);
    }
  }

  lemma SettledUpdate(s: Shop, scope: Scope, i: nat, b: Bill, e: Entry, ps: seq<Posting<int>>)
    requires ShopOk(s, scope) && Settled(s, scope) && i < |s.bills|
    requires e.key == Some(BillKey(scope, s.bills[i].id)) || e.key == Some(ReversalKey(scope, s.bills[i].id))
    requires b.isPosted <==> Booked(AppendEntry(s.db, e, ps), scope, b)
    ensures Settled(Shop(s.bills[i := b], AppendEntry(s.db, e, ps)), scope)
  {
    forall j | 0 <= j < |s.bills| && j != i
      ensures Booked(AppendEntry(s.db, e, ps), scope, s.bills[j]) <==> Booked(s.db, scope, s.bills[j])
    {
      OthersStay(s, scope, i, e, ps, j);
    }
  }

  lemma PostSettled(s: Shop, scope: Scope, i: nat, author: string)
    requires ShopOk(s, scope) && Settled(s, scope) && i < |s.bills| && Postable(s.bills[i])
    ensures Settled(PostBill(s, scope, i, author).0, scope)
  {
    var b := s.bills[i];
    assert BillOk(s.db, scope, b);
    BookedIff(s.db, scope, b);
    if |CreditComponents(b.amounts)| > 0 && MissingCodes(s.db, scope, b.amounts) == {} {
      var e := EntryOf(scope, BillRequest(s.db, scope, b), BillKey(scope, b.id), author);
      BillPosts(s.db, scope, b, author);
      PostingPuts(s.db, scope, b.amounts);
      FirstEntryBooks(s.db, scope, b, e, RoundAll(PostingLines(s.db, scope, b.amounts)), Marked(b, |s.db.entries|));
      SettledUpdate(s, scope, i, Marked(b, |s.db.entries|), e, RoundAll(PostingLines(s.db, scope, b.amounts)));
    }
  }

  lemma ReverseSettled(s: Shop, scope: Scope, i: nat, reason: string, author: string)
    requires ShopOk(s, scope) && Settled(s, scope) && i < |s.bills|
    ensures Settled(ReverseBill(s, scope, i, reason, author).0, scope)
  {
    var b := s.bills[i];
    assert BillOk(s.db, scope, b);
    if b.isPosted {
      var e := EntryOf(scope, ReversalRequest(s.db, b, b.journalId.value, reason), ReversalKey(scope, b.id), author);
      BillReverses(s, scope, i, reason, author);
      SettledUpdate(s, scope, i, Reversed(b), e, RoundAll(ReversalLines(s.db, b.journalId.value)));
    }
  }

  /** An entry under a free key flips whether a bill is booked exactly when the key is that bill's. */
  lemma EntryFlips(db: Db, scope: Scope, e: Entry, ps: seq<Posting<int>>, b: Bill)
    requires WellFormed(db) && BillOk(db, scope, b) && !KeyTaken(db.entries, scope, e.key)
    requires b.isPosted <==> Booked(db, scope, b)
    ensures (Booked(AppendEntry(db, e, ps), scope, b) <==> Booked(db, scope, b)) <==>
              !(HasKey(scope, BillKey(scope, b.id))(e) && Postable(b))
              && !(HasKey(scope, ReversalKey(scope, b.id))(e) && b.isPosted)
  {
    KeysDiffer(scope, b.id, b.id);
    KeyTakenAppend(db.entries, e, scope, BillKey(scope, b.id));
    KeyTakenAppend(db.entries, e, scope, ReversalKey(scope, b.id));
  }

  lemma EntrySettledIff(s: Shop, scope: Scope, e: Entry, ps: seq<Posting<int>>)
    requires ShopOk(s, scope) && Settled(s, scope) && !KeyTaken(s.db.entries, scope, e.key)
    ensures Settled(s.(db := AppendEntry(s.db, e, ps)), scope) <==>
              forall b | b in s.bills ::
                  !(HasKey(scope, BillKey(scope, b.id))(e) && Postable(b))
                  && !(HasKey(scope, ReversalKey(scope, b.id))(e) && b.isPosted)
  {
    var db' := AppendEntry(s.db, e, ps);
    forall k | 0 <= k < |s.bills|
      ensures (s.bills[k].isPosted <==> Booked(db', scope, s.bills[k])) <==>
                !(HasKey(scope, BillKey(scope, s.bills[k].id))(e) && Postable(s.bills[k]))
                && !(HasKey(scope, ReversalKey(scope, s.bills[k].id))(e) && s.bills[k].isPosted)
    {
      EntryFlips(s.db, scope, e, ps, s.bills[k]);
    }
  }

  lemma CommitSettledIff(s: Shop, scope: Scope, copy: Bill, author: string)
    requires ShopOk(s, scope) && Settled(s, scope) && StepAllowed(s, scope, CommitStep(copy, author))
    ensures Settled(Commit(s, scope, copy, author), scope) <==> !Misleads(s, scope, CommitStep(copy, author))
  {
    if KeyTaken(s.db.entries, scope, Some(BillKey(scope, copy.id))) {
      EntryReplays(s.db, scope, copy, author);
    } else if Payable(s.db, scope, copy.amounts) {
      BillPosts(s.db, scope, copy, author);
      EntrySettledIff(s, scope, EntryOf(scope, BillRequest(s.db, scope, copy), BillKey(scope, copy.id), author),
        RoundAll(PostingLines(s.db, scope, copy.amounts)));
      BillKeysTell(s, scope, copy.id);
    }
  }

  lemma BillKeysTell(s: Shop, scope: Scope, id: string)
    ensures forall b | b in s.bills ::
              (BillKey(scope, b.id) == BillKey(scope, id) <==> b.id == id)
              && (ReversalKey(scope, b.id) == ReversalKey(scope, id) <==> b.id == id)
              && BillKey(scope, b.id) != ReversalKey(scope, id) && ReversalKey(scope, b.id) != BillKey(scope, id)
  {
    forall b | b in s.bills
      ensures BillKey(scope, b.id) == BillKey(scope, id) <==> b.id == id
      ensures ReversalKey(scope, b.id) == ReversalKey(scope, id) <==> b.id == id
      ensures BillKey(scope, b.id) != ReversalKey(scope, id) && ReversalKey(scope, b.id) != BillKey(scope, id)
    {
      KeysDiffer(scope, b.id, id);
      KeysDiffer(scope, id, b.id);
    }
  }

  lemma MarkSettledIff(s: Shop, scope: Scope, id: string, e: nat)
    requires ShopOk(s, scope) && Settled(s, scope) && StepAllowed(s, scope, MarkStep(id, e))
    ensures Settled(Mark(s, id, e), scope) <==> !Misleads(s, scope, MarkStep(id, e))
  {
    var found := FindFirst(s.bills, HasId(id));
    if found.Some? {
      var b := s.bills[found.value];
      assert b in s.bills && HasId(id)(b) && BillOk(s.db, scope, b);
      assert forall x | x in s.bills && x.id == id :: x == b;
      var after := Mark(s, id, e);
      assert after.bills[found.value] == Marked(b, e);
      assert forall k | 0 <= k < |s.bills| && k != found.value :: after.bills[k] == s.bills[k];
    } else {
      forall b | b in s.bills ensures b.id != id {
        assert !HasId(id)(b);
      }
    }
  }

  lemma CutReverseSettledIff(s: Shop, scope: Scope, i: nat, reason: string, author: string)
    requires ShopOk(s, scope) && Settled(s, scope) && i < |s.bills|
    ensures Settled(CutReverse(s, scope, i, reason, author), scope) <==> !s.bills[i].isPosted
  {
    var b := s.bills[i];
    if b.isPosted {
      var e := EntryOf(scope, ReversalRequest(s.db, b, b.journalId.value, reason), ReversalKey(scope, b.id), author);
      BillReverses(s, scope, i, reason, author);
      KeyTakenAppend(s.db.entries, e, scope, ReversalKey(scope, b.id));
      assert !Booked(CutReverse(s, scope, i, reason, author).db, scope, b);
    }
  }

  lemma LedgerSettledIff(s: Shop, scope: Scope, st: Step)
    requires ShopOk(s, scope) && Settled(s, scope)
    ensures Settled(s.(db := Apply(s.db, st)), scope) <==> !Misleads(s, scope, LedgerStep(st))
  {
    if st.PostEntry? {
      PostSettledIff(s, scope, st);
    } else if st.PostFromSource? {
      SourceSettled(s, scope, st.scope, st.source, st.key, st.author);
    } else {
      AdminSettled(s, scope, st);
    }
  }

  lemma AdminSettled(s: Shop, scope: Scope, st: Step)
    requires Settled(s, scope) && !st.PostEntry? && !st.PostFromSource?
    ensures Settled(s.(db := Apply(s.db, st)), scope)
  {
    AdminGrows(s.db, st);
  }

  lemma PostSettledIff(s: Shop, scope: Scope, st: Step)
    requires ShopOk(s, scope) && Settled(s, scope) && st.PostEntry?
    ensures Settled(s.(db := Apply(s.db, st)), scope) <==> !Misleads(s, scope, LedgerStep(st))
  {
    if st.scope == scope && st.key.Some? {
      OwnPostSettledIff(s, scope, st.request, st.key.value, st.author);
    } else {
      ForeignPostSettled(s, scope, st.scope, st.request, st.key, st.author);
    }
  }

  lemma ForeignPostSettled(s: Shop, scope: Scope, at: Scope, r: Request, key: Option<string>, author: string)
    requires Settled(s, scope) && (at != scope || key.None? || !IsMaintenance(scope, key.value))
    ensures Settled(s.(db := Post(s.db, at, r, key, author).0), scope)
  {
    if Post(s.db, at, r, key, author).0 != s.db {
      PostCreates(s.db, at, r, key, author);
      var ps := RoundAll(r.lines);
      ForeignSettled(s, scope, NewEntry(at, r, key, author, Checked(SumBy(ps, Debit), SumBy(ps, Debit), ps)), ps);
    }
  }

  lemma OwnPostSettledIff(s: Shop, scope: Scope, r: Request, key: string, author: string)
    requires ShopOk(s, scope) && Settled(s, scope)
    ensures Settled(s.(db := Post(s.db, scope, r, Some(key), author).0), scope) <==>
              !(IsMaintenance(scope, key) && Flips(s, scope, r, key, author))
  {
    var posted := Post(s.db, scope, r, Some(key), author).1;
    if posted.Ok? && posted.value.created {
      PostCreates(s.db, scope, r, Some(key), author);
      EntrySettledIff(s, scope, EntryOf(scope, r, key, author), RoundAll(r.lines));
      if Flips(s, scope, r, key, author) { MaintenanceOnly(s, scope, key); }
    }
  }

  /** Only maintenance keys are keys of bills. */
  lemma MaintenanceOnly(s: Shop, scope: Scope, key: string)
    requires exists b | b in s.bills :: key == BillKey(scope, b.id) || key == ReversalKey(scope, b.id)
    ensures IsMaintenance(scope, key)
  {
    var b :| b in s.bills && (key == BillKey(scope, b.id) || key == ReversalKey(scope, b.id));
    KeysDiffer(scope, b.id, b.id);
  }

  lemma ForeignSettled(s: Shop, scope: Scope, e: Entry, ps: seq<Posting<int>>)
    requires Settled(s, scope) && !IsMaintEntry(scope, e)
    ensures Settled(s.(db := AppendEntry(s.db, e, ps)), scope)
  {
    forall k | 0 <= k < |s.bills|
      ensures Booked(AppendEntry(s.db, e, ps), scope, s.bills[k]) <==> Booked(s.db, scope, s.bills[k])
    {
      var b := s.bills[k];
      KeysDiffer(scope, b.id, b.id);
      KeyTakenAppend(s.db.entries, e, scope, BillKey(scope, b.id));
      KeyTakenAppend(s.db.entries, e, scope, ReversalKey(scope, b.id));
    }
  }

  lemma SourceSettled(s: Shop, scope: Scope, at: Scope, r: SP.SourceRequest, key: Option<string>, author: string)
    requires Settled(s, scope)
    ensures Settled(s.(db := SP.PostSource(s.db, at, r, key, author).0), scope)
  {
    SourceKeysForeign(r.system, key, scope);
    if SP.PostSource(s.db, at, r, key, author).0 != s.db {
      ForeignPostSettled(s, scope, at, SP.CanonicalRequest(s.db, at, r), SP.SourceIdempotencyKey(r.system, key),
        author);
    }
  }

  // ---- Copies, commits and marks ----

  /** The bills that a step creates. */
  function News(step: BillStep): seq<Bill> {
    match step
    case GenerateStep(month, year, news) => news
    case RegenerateStep(b) => [b]
    case _ => []
  }

  lemma StepAges(s: Shop, scope: Scope, step: BillStep, b: Bill)
    requires b in Advance(s, scope, step).bills && b !in News(step)
    ensures exists x :: x in s.bills && Later(x, b)
  {
    if b in s.bills {
      assert Later(b, b);
    } else {
      var i :| 0 <= i < |s.bills| && Advance(s, scope, step).bills[i] == b;
      assert Later(s.bills[i], b);
    }
  }

  /** What a call has read of a bill stays an earlier version of it: every allowed run ages copies as commits assume. */
  lemma {:induction false} CopiesAge(s: Shop, scope: Scope, steps: seq<BillStep>, copy: Bill, b: Bill)
    requires DistinctIds(s.bills) && copy in s.bills && b in RunBills(s, scope, steps).bills && b.id == copy.id
    requires forall st, x | st in steps && x in News(st) :: x.id != copy.id
    ensures Later(copy, b)
  {
    if |steps| == 0 {
    } else {
      var front, last := steps[..|steps| - 1], steps[|steps| - 1];
      assert last in steps && forall st | st in front :: st in steps;
      StepAges(RunBills(s, scope, front), scope, last, b);
      var x :| x in RunBills(s, scope, front).bills && Later(x, b);
      CopiesAge(s, scope, front, copy, x);
    }
  }

  /** A commit that succeeds leaves its entry under the bill's key, so that its mark may follow. */
  lemma CommitLeavesEntry(s: Shop, scope: Scope, copy: Bill, author: string)
    requires WellFormed(s.db) && PostEntryOf(s.db, scope, copy, author).1.Ok?
    ensures StepAllowed(Commit(s, scope, copy, author), scope,
              MarkStep(copy.id, PostEntryOf(s.db, scope, copy, author).1.value))
  {
    if KeyTaken(s.db.entries, scope, Some(BillKey(scope, copy.id))) {
      EntryReplays(s.db, scope, copy, author);
    } else {
      BillPosts(s.db, scope, copy, author);
      PostingPuts(s.db, scope, copy.amounts);
      NewEntryCarries(s.db, scope, copy,
        EntryOf(scope, BillRequest(s.db, scope, copy), BillKey(scope, copy.id), author),
        RoundAll(PostingLines(s.db, scope, copy.amounts)));
      CarrierIsFound(Commit(s, scope, copy, author).db, scope, copy, |s.db.entries|);
    }
  }

  /** With nothing in between, a commit from the bill as it is and the mark that follows are one posting. */
  lemma CommitThenMarkIsPost(s: Shop, scope: Scope, i: nat, author: string)
    requires ShopOk(s, scope) && i < |s.bills| && Postable(s.bills[i])
    ensures var r := PostEntryOf(s.db, scope, s.bills[i], author).1;
      var cut := Commit(s, scope, s.bills[i], author);
      PostBill(s, scope, i, author).0 == if r.Ok? then Mark(cut, s.bills[i].id, r.value) else cut
  {
    FoundById(s.bills, i);
  }

  // ---- A charge between cut and repeat ----

  /** Cut posting, extra charge, repeated posting. */
  function LateCharge(s: Shop, scope: Scope, i: nat, author: string, amount: real, again: string): Shop
    requires i < |s.bills|
  {
    var cut := CutPost(s, scope, i, author);
    PostBill(cut.(bills := cut.bills[i := Charged(cut.bills[i], amount)]), scope, i, again).0
  }

  /** The repeat marks the bill against the entry without the charge: the stores agree on every account exactly when the
      charge leaves the maintenance part at or below zero, so that the component is dropped either way. */
  lemma LateChargeLostIff(s: Shop, scope: Scope, i: nat, author: string, amount: real, again: string)
    requires ShopOk(s, scope) && i < |s.bills| && Chargeable(s.bills[i], amount)
    requires |CreditComponents(s.bills[i].amounts)| > 0 && MissingCodes(s.db, scope, s.bills[i].amounts) == {}
    ensures Conserved(LateCharge(s, scope, i, author, amount, again), scope) <==> !ChargeShows(s.bills[i], amount)
  {
    var cut := CutPost(s, scope, i, author);
    CutPostKeeps(s, scope, i, author);
    CutIsCut(s, scope, i, author);
    var late := cut.(bills := cut.bills[i := Charged(cut.bills[i], amount)]);
    if ChargeShows(s.bills[i], amount) {
      ChargeBreaks(cut, scope, i, amount);
    } else {
      ChargeKeeps(cut, scope, i, amount);
    }
    RepeatNeutral(late, scope, i, again);
  }

  lemma CutIsCut(s: Shop, scope: Scope, i: nat, author: string)
    requires ShopOk(s, scope) && i < |s.bills| && Postable(s.bills[i])
    requires |CreditComponents(s.bills[i].amounts)| > 0 && MissingCodes(s.db, scope, s.bills[i].amounts) == {}
    ensures CutPosting(CutPost(s, scope, i, author).db, scope, s.bills[i])
  {
    var b := s.bills[i];
    if CutPosting(s.db, scope, b) {
      EntryReplays(s.db, scope, b, author);
    } else {
      BillPosts(s.db, scope, b, author);
      KeyTakenAppend(s.db.entries, EntryOf(scope, BillRequest(s.db, scope, b), BillKey(scope, b.id), author), scope,
        BillKey(scope, b.id));
    }
  }
}
