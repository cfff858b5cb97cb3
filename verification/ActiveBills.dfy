// One active bill per flat and month: which calls add a second one, and what the second one costs the flat.
module ActiveBills {
  import opened Wrappers
  import opened Seqs
  import opened Tables
  import opened Validation
  import opened Journal
  import opened Bills
  import opened BillRuns
  import opened BillSafety
  import opened BillBreaks
  import opened BillConservation

  predicate Unreversed(b: Bill) {
    b.status != ReversedBill
  }

  predicate SameSlot(a: Bill, b: Bill) {
    a.flatId == b.flatId && a.month == b.month && a.year == b.year
  }

  predicate Clash(a: Bill, b: Bill) {
    Unreversed(a) && Unreversed(b) && SameSlot(a, b)
  }

  /** No flat has two active bills for one month. */
  predicate OneActive(bills: seq<Bill>) {
    forall i, j | 0 <= i < j < |bills| :: !Clash(bills[i], bills[j])
  }

  predicate DistinctFlats(bills: seq<Bill>) {
    forall i, j | 0 <= i < j < |bills| :: bills[i].flatId != bills[j].flatId
  }

  /** Generation makes one bill per flat of the month; regeneration makes an active bill. */
  predicate Shaped(step: BillStep) {
    match step
    case GenerateStep(month, year, news) =>
      DistinctFlats(news) && forall b | b in news :: b.month == month && b.year == year
    case RegenerateStep(b) => Unreversed(b)
    case _ => true
  }

  predicate HasUnreversed(bills: seq<Bill>, slot: Bill) {
    exists x | x in bills :: Unreversed(x) && SameSlot(x, slot)
  }

  /** The step regenerates for a flat that still has an active bill of the month, or marks as posted a bill that has
      been reversed since its commit while the flat has another active one. */
  predicate Doubles(s: Shop, step: BillStep) {
    match step
    case RegenerateStep(b) => HasUnreversed(s.bills, b)
    case MarkStep(id, e) =>
      var found := FindFirst(s.bills, HasId(id));
      found.Some? && !Unreversed(s.bills[found.value]) && HasUnreversed(s.bills, s.bills[found.value])
    case _ => false
  }

  lemma AppendOneIff(bills: seq<Bill>, b: Bill)
    requires OneActive(bills) && Unreversed(b)
    ensures OneActive(bills + [b]) <==> !HasUnreversed(bills, b)
  {
    var after := bills + [b];
    if HasUnreversed(bills, b) {
      var i :| 0 <= i < |bills| && Unreversed(bills[i]) && SameSlot(bills[i], b);
      assert Clash(after[i], after[|bills|]);
    } else {
      forall i, j | 0 <= i < j < |after| ensures !Clash(after[i], after[j]) {
        assert after[i] in bills && (j < |bills| ==> !Clash(bills[i], bills[j]));
      }
    }
  }

  /** Replacing a bill keeps the property exactly when the replacement is not a newly active bill beside another. */
  lemma ReplaceOneIff(bills: seq<Bill>, i: nat, b: Bill)
    requires OneActive(bills) && i < |bills| && SameSlot(bills[i], b)
    ensures OneActive(bills[i := b]) <==> !(Unreversed(b) && !Unreversed(bills[i]) && HasUnreversed(bills, bills[i]))
  {
    var after := bills[i := b];
    if Unreversed(b) && !Unreversed(bills[i]) && HasUnreversed(bills, bills[i]) {
      var j :| 0 <= j < |bills| && Unreversed(bills[j]) && SameSlot(bills[j], bills[i]);
      assert Clash(after[if i < j then i else j], after[if i < j then j else i]);
    } else {
      forall j, k | 0 <= j < k < |after| ensures !Clash(after[j], after[k]) {
        assert !Clash(bills[j], bills[k]) && bills[j] in bills && bills[k] in bills;
      }
    }
  }

  lemma {:induction false} FilterOne(bills: seq<Bill>, p: Bill -> bool)
    requires OneActive(bills)
    ensures OneActive(Filter(bills, p))
  {
    if |bills| == 0 {
    } else {
      var front, last := bills[..|bills| - 1], bills[|bills| - 1];
      FilterOne(front, p);
      var r := Filter(front, p);
      forall i | 0 <= i < |r| ensures !Clash(r[i], last) {
        assert r[i] in r && r[i] in front;
        var k :| 0 <= k < |front| && front[k] == r[i];
        assert !Clash(bills[k], bills[|bills| - 1]);
      }
    }
  }

  lemma GenerateOne(s: Shop, month: int, year: int, news: seq<Bill>)
    requires OneActive(s.bills) && Shaped(GenerateStep(month, year, news))
    ensures OneActive(Generate(s, month, year, news).bills)
  {
    var kept := Filter(s.bills, NotInMonth(month, year));
    FilterOne(s.bills, NotInMonth(month, year));
    var after := kept + news;
    forall i, j | 0 <= i < j < |after| ensures !Clash(after[i], after[j]) {
      if i < |kept| {
        assert after[i] in kept && (j < |kept| ==> !Clash(kept[i], kept[j]));
        if j >= |kept| { assert after[j] in news; }
      }
    }
  }

  /** A step keeps one active bill per flat and month exactly when it does not double one. */
  lemma StepOneActiveIff(s: Shop, scope: Scope, step: BillStep)
    requires OneActive(s.bills) && Shaped(step)
    ensures OneActive(Advance(s, scope, step).bills) <==> !Doubles(s, step)
  {
    match step
    case GenerateStep(month, year, news) => GenerateOne(s, month, year, news);
    case RegenerateStep(b) => AppendOneIff(s.bills, b);
    case ChargeStep(i, amount) =>
      if i < |s.bills| { ReplaceOneIff(s.bills, i, Charged(s.bills[i], amount)); }
    case PostStep(i, author) =>
      if i < |s.bills| && PostEntryOf(s.db, scope, s.bills[i], author).1.Ok? {
        ReplaceOneIff(s.bills, i, Marked(s.bills[i], PostEntryOf(s.db, scope, s.bills[i], author).1.value));
      }
    case ReverseStep(i, reason, author) =>
      if i < |s.bills| { ReplaceOneIff(s.bills, i, Reversed(s.bills[i])); }
    case CommitStep(copy, author) =>
    case MarkStep(id, e) =>
      var found := FindFirst(s.bills, HasId(id));
      if found.Some? { ReplaceOneIff(s.bills, found.value, Marked(s.bills[found.value], e)); }
    case CutReverseStep(i, reason, author) =>
    case LedgerStep(st) =>
  }

  predicate OneActiveAt(s: Shop, scope: Scope, steps: seq<BillStep>, k: int) {
    0 <= k <= |steps| && OneActive(RunBills(s, scope, steps[..k]).bills)
  }

  predicate SinglesAt(s: Shop, scope: Scope, steps: seq<BillStep>, k: int) {
    0 <= k < |steps| && !Doubles(RunBills(s, scope, steps[..k]), steps[k])
  }

  /** Along every run each flat has at most one active bill per month throughout, exactly as long as no step doubles
      one. */
  lemma RunOneActiveIff(s: Shop, scope: Scope, steps: seq<BillStep>)
    requires OneActive(s.bills) && forall st | st in steps :: Shaped(st)
    ensures (forall k | 0 <= k <= |steps| :: OneActiveAt(s, scope, steps, k))
            <==> forall k | 0 <= k < |steps| :: SinglesAt(s, scope, steps, k)
  {
    assert steps[..0] == [];
    assert OneActiveAt(s, scope, steps, 0);
    var p, q := (k: int) => OneActiveAt(s, scope, steps, k), (k: int) => SinglesAt(s, scope, steps, k);
    forall k | 0 <= k < |steps| && p(k) ensures p(k + 1) <==> q(k) {
      assert steps[..k + 1][..k] == steps[..k] && steps[k] in steps;
      StepOneActiveIff(RunBills(s, scope, steps[..k]), scope, steps[k]);
    }
    IffAlong(p, q, |steps|);
    assert forall k :: p(k) <==> OneActiveAt(s, scope, steps, k);
    assert forall k :: q(k) <==> SinglesAt(s, scope, steps, k);
  }

  // ---- What a second active bill costs ----

  /** With one active bill per flat and month, at most one entry stands for each flat and month. */
  lemma OneEntryPerFlat(s: Shop, scope: Scope, i: nat, j: nat)
    requires OneActive(s.bills) && i < |s.bills| && j < |s.bills| && SameSlot(s.bills[i], s.bills[j])
    requires Booked(s.db, scope, s.bills[i]) && Booked(s.db, scope, s.bills[j])
    ensures i == j
  {
    assert i < j ==> !Clash(s.bills[i], s.bills[j]);
    assert j < i ==> !Clash(s.bills[j], s.bills[i]);
  }

  /** A bill regenerated beside a booked one is posted as well: two entries stand for the flat and month, and the
      receivable account is debited a second time. */
  lemma RegeneratedPostsTwice(s: Shop, scope: Scope, i: nat, b: Bill, author: string) returns (a: int)
    requires ShopOk(s, scope) && i < |s.bills| && Booked(s.db, scope, s.bills[i])
    requires IsNew(s, scope, b) && SameSlot(s.bills[i], b) && Payable(s.db, scope, b.amounts)
    ensures InScope(s.db, scope, a) && s.db.accounts[a].code == Some(RECEIVABLE)
    ensures var s2 := PostBill(Advance(s, scope, RegenerateStep(b)), scope, |s.bills|, author).0;
      && |s2.bills| == |s.bills| + 1 && SameSlot(s2.bills[i], s2.bills[|s.bills|])
      && Booked(s2.db, scope, s2.bills[i]) && Booked(s2.db, scope, s2.bills[|s.bills|])
      && MaintNet(s2.db, scope, a) == MaintNet(s.db, scope, a) + CreditTotal(b.amounts) > MaintNet(s.db, scope, a)
  {
    var e := EntryOf(scope, BillRequest(s.db, scope, b), BillKey(scope, b.id), author);
    var ps := RoundAll(PostingLines(s.db, scope, b.amounts));
    a := ReceivableOf(s.db, scope, b);
    BillPosts(s.db, scope, b, author);
    PostingPuts(s.db, scope, b.amounts);
    KeysDiffer(scope, b.id, b.id);
    AppendMaint(s.db, e, ps, scope, a);
    NewBooked(s.db, scope, b, e, ps);
    StillBooked(s.db, scope, s.bills[i], b, e, ps);
  }

  lemma NewBooked(db: Db, scope: Scope, b: Bill, e: Entry, ps: seq<Posting<int>>)
    requires e.scope == scope && e.key == Some(BillKey(scope, b.id)) && Unreversed(b)
    requires !KeyTaken(db.entries, scope, Some(ReversalKey(scope, b.id)))
    ensures Booked(AppendEntry(db, e, ps), scope, b)
  {
    KeysDiffer(scope, b.id, b.id);
    KeyTakenAppend(db.entries, e, scope, BillKey(scope, b.id));
    KeyTakenAppend(db.entries, e, scope, ReversalKey(scope, b.id));
  }

  lemma StillBooked(db: Db, scope: Scope, x: Bill, b: Bill, e: Entry, ps: seq<Posting<int>>)
    requires Booked(db, scope, x) && x.id != b.id && e.key == Some(BillKey(scope, b.id))
    ensures Booked(AppendEntry(db, e, ps), scope, x)
  {
    KeysDiffer(scope, b.id, x.id);
    KeyTakenAppend(db.entries, e, scope, BillKey(scope, x.id));
    KeyTakenAppend(db.entries, e, scope, ReversalKey(scope, x.id));
  }

  /** The smallest case: one flat, one generated bill, one regeneration. */
  lemma SecondBill(db: Db, scope: Scope)
    ensures var bill := Bill("1", "flat", "A-101", 4, 2025, Generated, false, None,
                Amounts(100.0, 0.0, 0.0, 0.0, 0.0, 0.0, 0.0, 0.0), 100.0);
      OneActive([bill]) && !OneActive(Advance(Shop([bill], db), scope, RegenerateStep(bill.(id := "2"))).bills)
  {
    var bill := Bill("1", "flat", "A-101", 4, 2025, Generated, false, None,
      Amounts(100.0, 0.0, 0.0, 0.0, 0.0, 0.0, 0.0, 0.0), 100.0);
    assert bill in [bill] && Unreversed(bill);
    StepOneActiveIff(Shop([bill], db), scope, RegenerateStep(bill.(id := "2")));
  }
}
