// The maintenance endpoints as calls on the bill collection and the ledger.
module BillingService {
  import opened Wrappers
  import opened Seqs
  import opened Sums
  import opened Money
  import opened Tables
  import opened Bills
  import opened BillRuns
  import opened BillSafety
  import opened BillConservation
  import opened ActiveBills
  import opened LedgerService
  import opened BillGeneration
  import opened BillPosting

  datatype CallError =
    | BadRequest | NoFlats | PostedBillsExist | BillNotFound | NotEditable | Failed(error: BillError)

  function OfFlat(flatId: string, month: int, year: int): Bill -> bool {
    (b: Bill) => b.flatId == flatId && b.month == month && b.year == year
  }

  /** Ids that no bill and no journal key has used. */
  ghost predicate FreshIds(s: Shop, scope: Scope, ids: seq<string>) {
    forall i | 0 <= i < |ids| :: IsNew(s, scope, Bill(ids[i], "", "", 0, 0, Generated, false, None, NOTHING, 0.0))
  }

  lemma BillRunIsNew(s: Shop, scope: Scope, flats: seq<Flat>, c: Charges, month: int, year: int, ids: seq<string>,
      docs: seq<Bill>)
    requires IsBillRun(flats, c, month, year, ids, docs) && FreshIds(s, scope, ids) && NoDup(ids)
    ensures DistinctIds(docs) && forall b | b in docs :: IsNew(s, scope, b)
  {
    forall b | b in docs ensures IsNew(s, scope, b) {
      var i :| 0 <= i < |docs| && docs[i] == b;
      assert IsNew(s, scope, Bill(ids[i], "", "", 0, 0, Generated, false, None, NOTHING, 0.0));
    }
  }

  /** What replacing a month without posted bills does to ids, to the agreement and to the active bills. */
  lemma BillRunOutcome(s: Shop, scope: Scope, flats: seq<Flat>, c: Charges, month: int, year: int, ids: seq<string>,
      docs: seq<Bill>)
    requires DistinctIds(s.bills) && !PostedIn(s.bills, month, year)
    requires IsBillRun(flats, c, month, year, ids, docs) && FreshIds(s, scope, ids) && NoDup(ids)
    ensures var after := Generate(s, month, year, docs);
      && DistinctIds(after.bills)
      && (ShopOk(s, scope) ==> (ShopOk(after, scope) <==> !CutInMonth(s, scope, month, year)))
      && (OneActive(s.bills) && NoDup(FlatIds(flats)) ==> OneActive(after.bills))
  {
    BillRunIsNew(s, scope, flats, c, month, year, ids, docs);
    FilterDistinct(s.bills, NotInMonth(month, year));
    AppendDistinct(Filter(s.bills, NotInMonth(month, year)), docs);
    if ShopOk(s, scope) { StepConservesIff(s, scope, GenerateStep(month, year, docs)); }
    if OneActive(s.bills) && NoDup(FlatIds(flats)) { BillRunStaysOne(s, flats, c, month, year, ids, docs); }
  }

  class Maintenance {
    const ledger: Ledger
    const scope: Scope
    var bills: seq<Bill>

    function View(): Shop
      reads this, ledger
    {
      Shop(bills, ledger.View())
    }

    ghost predicate Valid()
      reads this, ledger
    {
      ledger.Valid() && DistinctIds(bills)
    }

    /** The bills and the ledger agree. */
    ghost predicate Agrees()
      reads this, ledger
    {
      ShopOk(View(), scope)
    }

    constructor (ledger: Ledger, scope: Scope)
      requires ledger.Valid() && forall e | e in ledger.entries :: !IsMaintEntry(scope, e)
      ensures Valid() && Agrees() && bills == [] && this.ledger == ledger && this.scope == scope
    {
      this.ledger, this.scope, bills := ledger, scope, [];
      new;
      forall a | InScope(ledger.View(), scope, a) ensures MaintNet(ledger.View(), scope, a) == 0 {
        SumZero(ledger.lines, MaintAt(ledger.View(), scope, a));
      }
    }

    /** Refuses a month with posted bills, else replaces the month's bills. The stores then still agree exactly when no
        posting of the month had been cut off. */
    method GenerateBills(month: int, year: int, flats: seq<Flat>, c: Charges, ids: seq<string>)
      returns (r: Result<seq<Bill>, CallError>)
      requires Valid() && |ids| == |flats| && NoDup(ids)
      requires FreshIds(View(), scope, ids)
      modifies this
      ensures Valid() && ledger.View() == old(ledger.View())
      ensures r.Err? ==> bills == old(bills)
      ensures r.Err? <==> !(1 <= month <= 12) || year < 2000 || flats == []
                          || exists b | b in old(bills) :: b.isPosted && b.month == month && b.year == year
      ensures r.Ok? ==> IsBillRun(flats, c, month, year, ids, r.value)
      ensures r.Ok? ==> View() == Generate(old(View()), month, year, r.value)
      ensures old(Agrees()) && r.Ok? ==> (Agrees() <==> !old(CutInMonth(View(), scope, month, year)))
      ensures old(OneActive(bills)) && NoDup(FlatIds(flats)) ==> OneActive(bills)
    {
      if month < 1 || month > 12 || year < 2000 {
        return Err(BadRequest);
      }
      if flats == [] {
        return Err(NoFlats);
      }
      if PostedIn(bills, month, year) {
        return Err(PostedBillsExist);
      }
      var docs := BuildBills(month, year, flats, c, ids);
      BillRunOutcome(View(), scope, flats, c, month, year, ids, docs);
      bills := Filter(bills, NotInMonth(month, year)) + docs;
      r := Ok(docs);
    }

    /** The loop over the flats. */
    static method BuildBills(month: int, year: int, flats: seq<Flat>, c: Charges, ids: seq<string>)
      returns (docs: seq<Bill>)
      requires |ids| == |flats|
      ensures IsBillRun(flats, c, month, year, ids, docs)
    {
      docs := [];
      for i := 0 to |flats|
        invariant |docs| == i && forall k | 0 <= k < i :: docs[k] == BillFor(flats, c, month, year, ids[k], k)
      {
        var flat := flats[i];
        var maintenance, water := MaintenanceShare(flats, c, i), WaterPart(flats, c, i);
        var fixed, sinking, repair :=
            FundShare(flats, c, Fixed, i), FundShare(flats, c, Sinking, i), FundShare(flats, c, Repair, i);
        var association, corpus := FundShare(flats, c, Association, i), FundShare(flats, c, Corpus, i);
        var a := Whole(maintenance, water, fixed, sinking, repair, association, corpus);
        assert a == AmountsFor(flats, c, i);
        docs := docs + [Bill(ids[i], flat.id, flat.number, month, year, Generated, false, None, a, AmountTotal(a))];
      }
    }

    method PostBills(month: int, year: int, author: string) returns (r: Result<seq<nat>, CallError>)
      requires Valid()
      modifies this, ledger
      ensures Valid()
      ensures !(1 <= month <= 12) || year < 2000 ==> r == Err(BadRequest) && View() == old(View())
      ensures 1 <= month <= 12 && year >= 2000 ==>
                var (s, posted) :=
                    PostAll(old(View()), scope, SelectedIds(old(bills), month, year, |old(bills)|), author);
                View() == s && r == (match posted case Ok(ids) => Ok(ids) case Err(e) => Err(Failed(e)))
      ensures |bills| == |old(bills)| && forall i | 0 <= i < |bills| && !IsOpen(old(bills)[i], month, year) ::
                bills[i] == old(bills)[i]
      ensures r.Ok? ==> forall i | 0 <= i < |bills| && IsOpen(old(bills)[i], month, year) ::
                MarkedUnder(ledger.View(), scope, old(bills)[i], bills[i])
      ensures old(Agrees()) ==> Agrees()
    {
      if month < 1 || month > 12 || year < 2000 {
        return Err(BadRequest);
      }
      var ids := SelectedIds(bills, month, year, |bills|);
      assert forall k | 0 <= k < |ids| :: ids[k] in ids;
      PostAllIds(View(), scope, ids, author);
      PassPostsMonth(View(), scope, month, year, author);
      if ShopOk(View(), scope) { PostAllKeeps(View(), scope, ids, author); }
      var posted := PostLoop(ids, author);
      r := match posted case Ok(done) => Ok(done) case Err(e) => Err(Failed(e));
    }

    /** The loop over the selected bills. */
    method PostLoop(ids: seq<nat>, author: string) returns (r: Result<seq<nat>, BillError>)
      requires ledger.Valid() && forall k | 0 <= k < |ids| :: ids[k] < |bills|
      modifies this, ledger
      ensures ledger.Valid() && (View(), r) == PostAll(old(View()), scope, ids, author)
    {
      var posted: seq<nat> := [];
      for k := 0 to |ids|
        invariant ledger.Valid() && |bills| == |old(bills)|
        invariant (View(), Ok(posted)) == PostAll(old(View()), scope, ids[..k], author)
      {
        assert ids[..k + 1][..k] == ids[..k];
        PostAllPrefix(old(View()), scope, ids, k + 1, author);
        var id := PostOne(ids[k], author);
        if id.Err? {
          return Err(id.error);
        }
        posted := posted + [id.value];
      }
      assert ids[..|ids|] == ids;
      r := Ok(posted);
    }

    /** An error ends the whole pass. */
    static lemma {:induction false} PostAllPrefix(s: Shop, scope: Scope, ids: seq<nat>, k: nat, author: string)
      requires k <= |ids|
      ensures PostAll(s, scope, ids[..k], author).1.Err? ==>
                PostAll(s, scope, ids, author) == PostAll(s, scope, ids[..k], author)
    {
      if k < |ids| {
        PostAllPrefix(s, scope, ids[..|ids| - 1], k, author);
        assert ids[..|ids| - 1][..k] == ids[..k];
      } else {
        assert ids[..k] == ids;
      }
    }

    /** _post_maintenance_bill_to_accounting followed by the bill update. */
    method PostOne(i: nat, author: string) returns (r: Result<nat, BillError>)
      requires ledger.Valid() && i < |bills|
      modifies this, ledger
      ensures ledger.Valid() && (View(), r) == PostBill(old(View()), scope, i, author)
    {
      var b := bills[i];
      var credits := CreditComponents(b.amounts);
      if |credits| == 0 {
        return Err(NoComponents);
      }
      var missing := MissingCodes(ledger.View(), scope, b.amounts);
      if missing != {} {
        return Err(AccountsMissing(missing));
      }
      var posted := ledger.PostJournalEntry(scope, BillRequest(ledger.View(), scope, b), Some(BillKey(scope, b.id)),
          author);
      if posted.Err? {
        return Err(Refused(posted.error));
      }
      bills := bills[i := Marked(b, posted.value.entryId)];
      r := Ok(posted.value.entryId);
    }

    /** find_one by id: there is at most one. */
    method FindBill(id: string) returns (found: Option<nat>)
      requires DistinctIds(bills)
      ensures found.None? <==> forall b | b in bills :: b.id != id
      ensures found.Some? ==> found.value < |bills| && bills[found.value].id == id
      ensures found.Some? ==> forall b | b in bills && b.id == id :: b == bills[found.value]
      ensures found.Some? ==> forall j: nat | j < |bills| && bills[j].id == id :: j == found.value
    {
      found := FindFirst(bills, HasId(id));
      if found.None? {
        assert forall i | 0 <= i < |bills| :: !HasId(id)(bills[i]);
      } else {
        assert HasId(id)(bills[found.value]) && bills[found.value] in bills;
      }
    }

    /** Adds the rounded amount to the bill with the id. The stores then still agree exactly when the bill's posting had
        not been cut off or the charge does not show. */
    method AddExtraCharge(id: string, amount: real, description: string) returns (r: Result<Bill, CallError>)
      requires Valid()
      modifies this
      ensures Valid() && ledger.View() == old(ledger.View())
      ensures r.Err? ==> bills == old(bills)
      ensures r == Err(BadRequest) <==> id == "" || amount < 0.5 || description == ""
      ensures r == Err(BillNotFound) <==> r != Err(BadRequest) && forall b | b in old(bills) :: b.id != id
      ensures r.Ok? ==> exists i: nat :: i < |old(bills)| && old(bills)[i].id == id && Chargeable(old(bills)[i], amount)
                          && bills == old(bills)[i := Charged(old(bills)[i], amount)] && r.value == bills[i]
                          && (old(Agrees()) ==> (Agrees() <==> !Breaks(old(View()), scope, ChargeStep(i, amount))))
      ensures (exists b | b in old(bills) :: b.id == id && Chargeable(b, amount)) && r != Err(BadRequest) ==> r.Ok?
      ensures r == Err(NotEditable) <==> r != Err(BadRequest) && exists b | b in old(bills) ::
                b.id == id && (b.isPosted || b.status == PostedBill || b.status == ReversedBill)
      ensures r.Ok? ==> exists b | b in old(bills) :: b.id == id && b.status == Generated && !b.isPosted
                          && r.value == b.(amount := b.amount + RoundMoney(amount) as real,
                               amounts := b.amounts.(extra := b.amounts.extra + RoundMoney(amount) as real))
    {
      if id == "" || RoundMoney(amount) <= 0 || description == "" {
        return Err(BadRequest);
      }
      var found := FindBill(id);
      if found.None? {
        return Err(BillNotFound);
      }
      var i := found.value;
      assert bills[i] in bills;
      if bills[i].isPosted || bills[i].status != Generated {
        return Err(NotEditable);
      }
      ChargeOne(i, amount);
      r := Ok(bills[i]);
    }

    /** The update that adds the charge. */
    method ChargeOne(i: nat, amount: real)
      requires Valid() && i < |bills| && Chargeable(bills[i], amount)
      modifies this
      ensures Valid() && ledger.View() == old(ledger.View()) && bills == old(bills)[i := Charged(old(bills)[i], amount)]
      ensures old(Agrees()) ==> (Agrees() <==> !Breaks(old(View()), scope, ChargeStep(i, amount)))
    {
      if ShopOk(View(), scope) { StepConservesIff(View(), scope, ChargeStep(i, amount)); }
      bills := bills[i := Charged(bills[i], amount)];
    }

    /** Reverses the bill with the id. The stores then still agree exactly when its posting had not been cut off. */
    method Reverse(id: string, reason: string, author: string) returns (r: Result<Option<nat>, CallError>)
      requires Valid()
      modifies this, ledger
      ensures Valid()
      ensures r == Err(BadRequest) <==> id == "" || |reason| < 10
      ensures r == Err(BillNotFound) <==> id != "" && |reason| >= 10 && forall b | b in old(bills) :: b.id != id
      ensures r == Err(BadRequest) || r == Err(BillNotFound) ==> View() == old(View())
      ensures forall i: nat | i < |old(bills)| && old(bills)[i].id == id && id != "" && |reason| >= 10 ::
                var (s, reversed) := ReverseBill(old(View()), scope, i, reason, author);
                && View() == s && r == (match reversed case Ok(e) => Ok(e) case Err(e) => Err(Failed(e)))
                && (old(Agrees()) ==> (Agrees() <==> !CutPosting(old(ledger.View()), scope, old(bills)[i])))
    {
      if id == "" || |reason| < 10 {
        return Err(BadRequest);
      }
      var found := FindBill(id);
      if found.None? {
        return Err(BillNotFound);
      }
      var i := found.value;
      assert bills[i] in bills;
      if ShopOk(View(), scope) { StepConservesIff(View(), scope, ReverseStep(i, reason, author)); }
      r := ReverseOne(i, reason, author);
    }

    /** _reverse_maintenance_bill_accounting for a posted bill, followed by the bill update. */
    method ReverseOne(i: nat, reason: string, author: string) returns (r: Result<Option<nat>, CallError>)
      requires ledger.Valid() && i < |bills|
      modifies this, ledger
      ensures ledger.Valid() && |bills| == |old(bills)| && forall j | 0 <= j < |bills| ::
                bills[j].id == old(bills)[j].id
      ensures var (s, reversed) := ReverseBill(old(View()), scope, i, reason, author);
        View() == s && r == (match reversed case Ok(e) => Ok(e) case Err(e) => Err(Failed(e)))
    {
      var b := bills[i];
      var reversalId: Option<nat> := None;
      if b.isPosted && b.journalId.Some? {
        var e := b.journalId.value;
        if !(e < |ledger.entries| && ledger.entries[e].scope == scope) || |ReversalLines(ledger.View(), e)| == 0 {
          return Err(Failed(OriginalMissing));
        }
        var posted := ledger.PostJournalEntry(scope, ReversalRequest(ledger.View(), b, e, reason),
            Some(ReversalKey(scope, b.id)), author);
        if posted.Err? {
          return Err(Failed(Refused(posted.error)));
        }
        reversalId := Some(posted.value.entryId);
      }
      bills := bills[i := Reversed(b)];
      r := Ok(reversalId);
    }

    /** previous is the flat's most recently updated bill of the month, and absent only when there is none. The flat
        keeps a single active bill exactly when it had no unreversed one. */
    method RegenerateBill(flat: Flat, month: int, year: int, previous: Option<nat>, o: Overrides, id: string)
      returns (b: Bill)
      requires Valid() && FreshIds(View(), scope, [id])
      requires previous.Some? ==> previous.value < |bills| && OfFlat(flat.id, month, year)(bills[previous.value])
      requires previous.None? ==> forall b | b in bills :: !OfFlat(flat.id, month, year)(b)
      modifies this
      ensures Valid() && ledger.View() == old(ledger.View())
      ensures old(Agrees()) ==> Agrees()
      ensures bills == old(bills) + [b] && Postable(b) && b.flatId == flat.id && b.month == month && b.year == year
      ensures b.amounts == Regenerated(if previous.Some? then old(bills)[previous.value].amounts else NOTHING, o)
      ensures b.flatNumber == flat.number
      ensures Regenerates(if previous.Some? then old(bills)[previous.value].amounts
                            else Amounts(0.0, 0.0, 0.0, 0.0, 0.0, 0.0, 0.0, 0.0), o, b.amounts)
      ensures b.amount == AmountTotal(b.amounts)
      ensures old(OneActive(bills)) ==>
                (OneActive(bills) <==> !exists x | x in old(bills) :: Unreversed(x) && OfFlat(flat.id, month, year)(x))
    {
      var a := Regenerated(if previous.Some? then bills[previous.value].amounts else NOTHING, o);
      RegeneratedIs(if previous.Some? then bills[previous.value].amounts else NOTHING, o);
      b := Bill(id, flat.id, flat.number, month, year, Generated, false, None, a, AmountTotal(a));
      assert [id][0] == id && IsNew(View(), scope, b);
      if ShopOk(View(), scope) { AddBillsKeeps(View(), scope, [b]); }
      if OneActive(bills) { AppendOneIff(bills, b); }
      bills := bills + [b];
    }
  }
}
