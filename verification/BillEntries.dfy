// What a bill's journal entries hold: the day, the key, and the amount on every account code.
module BillEntries {
  import opened Wrappers
  import opened Seqs
  import opened Sums
  import opened Money
  import Splits
  import opened Tables
  import opened Validation
  import opened Journal
  import opened PostedEntries
  import opened Bills
  import opened BillRuns
  import opened BillSafety
  import opened BillBreaks

  // ---- The day ----

  predicate IsLeap(year: int) {
    year % 4 == 0 && (year % 100 != 0 || year % 400 == 0)
  }

  /** The last days of the months are as far apart as the calendar says, and the years follow on one another. */
  lemma MonthEndLaws(month: int, year: int)
    requires 1 <= month <= 12
    ensures MonthEnd(month, year) - MonthEnd(month - 1, year)
         == (if month == 4 || month == 6 || month == 9 || month == 11 then 30
             else if month != 2 then 31 else if IsLeap(year) then 29 else 28)
    ensures MonthEnd(12, year) == MonthEnd(0, year + 1) && MonthEnd(0, 1) == 0
  {
    var d := DaysThrough(12, year);
    YearDays(year);
    LeapDays(year);
  }

  lemma YearDays(year: int)
    ensures DaysThrough(12, year) == if IsLeap(year) then 366 else 365
  {
    assert DaysThrough(1, year) == 31 && DaysThrough(2, year) == 31 + MonthDays(2, year);
    assert DaysThrough(4, year) == DaysThrough(3, year) + 30 && DaysThrough(3, year) == DaysThrough(2, year) + 31;
    assert DaysThrough(6, year) == DaysThrough(5, year) + 30 && DaysThrough(5, year) == DaysThrough(4, year) + 31;
    assert DaysThrough(8, year) == DaysThrough(7, year) + 31 && DaysThrough(7, year) == DaysThrough(6, year) + 31;
    assert DaysThrough(10, year) == DaysThrough(9, year) + 31 && DaysThrough(9, year) == DaysThrough(8, year) + 30;
    assert DaysThrough(12, year) == DaysThrough(11, year) + 31 && DaysThrough(11, year) == DaysThrough(10, year) + 30;
  }

  lemma QuotientStep(y: int, d: nat)
    requires d > 1
    ensures y / d - (y - 1) / d == if y % d == 0 then 1 else 0
  {
    var q, r := y / d, y % d;
    if r == 0 {
      assert y - 1 == d * (q - 1) + (d - 1);
      Splits.Division(y - 1, d, q - 1, d - 1);
    } else {
      assert y - 1 == d * q + (r - 1);
      Splits.Division(y - 1, d, q, r - 1);
    }
  }

  lemma LeapDays(year: int)
    ensures year / 4 - year / 100 + year / 400 - ((year - 1) / 4 - (year - 1) / 100 + (year - 1) / 400)
         == if IsLeap(year) then 1 else 0
  {
    QuotientStep(year, 4);
    QuotientStep(year, 100);
    QuotientStep(year, 400);
    assert year % 400 == 0 ==> year % 100 == 0;
    assert year % 100 == 0 ==> year % 4 == 0;
  }

  /** As ordinals of the calendar: 30 April 2025 and 29 February 2024. */
  lemma MonthEndExamples()
    ensures MonthEnd(4, 2025) == 739371 && MonthEnd(2, 2024) == 738945
  {
    assert DaysThrough(2, 2025) == 59 && DaysThrough(4, 2025) == 120;
    assert DaysThrough(2, 2024) == 60;
  }

  // ---- The amounts ----

  function Positive(x: int): int {
    if x > 0 then x else 0
  }

  /** What a posted bill puts on each account code: the sum of the positive components as a debit on 13001, and each
      positive component as a credit on its own code; other codes, and accounts without one, are left alone. */
  function CodeAmount(a: Amounts, code: Option<string>): int {
    var maintenance := RoundMoney(a.maintenance) + RoundMoney(a.fixed) + RoundMoney(a.extra);
    if code == Some("13001") then
      Positive(maintenance) + Positive(RoundMoney(a.water)) + Positive(RoundMoney(a.sinking))
      + Positive(RoundMoney(a.repair)) + Positive(RoundMoney(a.association)) + Positive(RoundMoney(a.corpus))
    else if code == Some("41001") then -Positive(maintenance)
    else if code == Some("41004") then -Positive(RoundMoney(a.water))
    else if code == Some("31011") then -Positive(RoundMoney(a.sinking))
    else if code == Some("31012") then -Positive(RoundMoney(a.repair))
    else if code == Some("31010") then -Positive(RoundMoney(a.association))
    else if code == Some("31004") then -Positive(RoundMoney(a.corpus))
    else 0
  }

  lemma BillNetByCode(a: Amounts, code: Option<string>)
    ensures BillNet(a, code) == CodeAmount(a, code)
  {
    if code == Some("13001") {
      ReceivableNet(a);
      CreditTotalIsPositivePart(a);
      SixTerms(AllComponents(a), POSITIVE_PART);
    } else {
      CodeNet(a, code);
    }
  }

  lemma CodeNet(a: Amounts, code: Option<string>)
    requires code != Some("13001")
    ensures BillNet(a, code) == -SixOn(AllComponents(a), code)
  {
    SumFilter(AllComponents(a), POSITIVE, PositiveOn(code));
    SumExt(CreditComponents(a), OnCode(code), PositiveOn(code));
    SixTerms(AllComponents(a), PositiveOn(code));
  }

  function PositiveOn(code: Option<string>): Component -> int {
    (c: Component) => if Some(c.code) == code && c.amount > 0 then c.amount else 0
  }

  function SixOn(cs: seq<Component>, code: Option<string>): int
    requires |cs| == 6
  {
    PositiveOn(code)(cs[0]) + PositiveOn(code)(cs[1]) + PositiveOn(code)(cs[2]) + PositiveOn(code)(cs[3])
    + PositiveOn(code)(cs[4]) + PositiveOn(code)(cs[5])
  }

  lemma SixTerms(cs: seq<Component>, f: Component -> int)
    requires |cs| == 6
    ensures SumBy(cs, f) == f(cs[0]) + f(cs[1]) + f(cs[2]) + f(cs[3]) + f(cs[4]) + f(cs[5])
  {
    SumStep(cs, 5, f);
    SumStep(cs, 4, f);
    SumStep(cs, 3, f);
    SumStep(cs, 2, f);
    SumStep(cs, 1, f);
    SumStep(cs, 0, f);
    assert cs[..6] == cs;
  }

  // ---- Posting and reversal ----

  /** Posting touches its own bill only: on success the bill is marked posted against an entry under its key, on failure
      nothing about the bills changes. The ledger's entries only grow. */
  lemma PostBillMarks(s: Shop, scope: Scope, i: nat, author: string)
    requires i < |s.bills|
    ensures var (s', r) := PostBill(s, scope, i, author);
      && s.db.entries <= s'.db.entries
      && (r.Err? ==> s'.bills == s.bills)
      && (r.Ok? ==>
           && s'.bills == s.bills[i := s'.bills[i]]
           && s'.bills[i] == s.bills[i].(status := PostedBill, isPosted := true, journalId := Some(r.value))
           && r.value < |s'.db.entries| && s'.db.entries[r.value].scope == scope
           && s'.db.entries[r.value].key
                == Some("gruhamitra:" + scope.tenantId + ":" + scope.appKey + ":maintenance-bill:" + s.bills[i].id))
  {
    var b := s.bills[i];
    var (db', r) := PostEntryOf(s.db, scope, b, author);
    PostGrows(s.db, scope, BillRequest(s.db, scope, b), Some(BillKey(scope, b.id)), author);
    KeyTexts(scope, b.id);
    if r.Ok? { UnderKey(s.db, scope, BillRequest(s.db, scope, b), BillKey(scope, b.id), author); }
  }

  lemma PostGrows(db: Db, scope: Scope, r: Request, key: Option<string>, author: string)
    ensures db.entries <= Post(db, scope, r, key, author).0.entries
  {
  }

  lemma UnderKey(db: Db, scope: Scope, r: Request, key: string, author: string)
    requires key != "" && Post(db, scope, r, Some(key), author).1.Ok?
    ensures var (db', posted) := Post(db, scope, r, Some(key), author);
      && posted.value.entryId < |db'.entries|
      && db'.entries[posted.value.entryId].scope == scope && db'.entries[posted.value.entryId].key == Some(key)
  {
    PostAnswers(db, scope, r, Some(key), author);
    if Post(db, scope, r, Some(key), author).1.value.created { PostStores(db, scope, r, Some(key), author); }
  }

  /** The entry written for a bill is dated on the last day of its month, in the poster's name, and puts the bill's net
      on every account of the scope. */
  lemma PostBillStores(db: Db, scope: Scope, b: Bill, author: string)
    requires WellFormed(db) && !KeyTaken(db.entries, scope, Some(BillKey(scope, b.id))) && Payable(db, scope, b.amounts)
    ensures var (db', n) := (PostEntryOf(db, scope, b, author).0, |db.entries|);
      && PostEntryOf(db, scope, b, author).1 == Ok(n) && |db'.entries| == n + 1
      && db'.entries[n].date == MonthEnd(b.month, b.year) && db'.entries[n].createdBy == author
      && db'.entries[n].scope == scope && db'.entries[n].reference == Some("MBILL-" + b.flatNumber)
      && db'.entries[n].description == Some("Monthly maintenance bill for " + b.flatNumber)
      && (forall a | InScope(db, scope, a) :: EntryNet(db', n, a) == BillNet(b.amounts, db.accounts[a].code))
  {
    var q, key := BillRequest(db, scope, b), BillKey(scope, b.id);
    BillPosts(db, scope, b, author);
    PostedFresh(db, scope, b, author);
    PostStores(db, scope, q, Some(key), author);
    PostingPuts(db, scope, b.amounts);
    NewEntryCarries(db, scope, b, EntryOf(scope, q, key, author), RoundAll(PostingLines(db, scope, b.amounts)));
  }

  lemma PostedFresh(db: Db, scope: Scope, b: Bill, author: string)
    requires WellFormed(db) && !KeyTaken(db.entries, scope, Some(BillKey(scope, b.id))) && Payable(db, scope, b.amounts)
    ensures var posted := Post(db, scope, BillRequest(db, scope, b), Some(BillKey(scope, b.id)), author);
      posted.1 == Ok(Posted(|db.entries|, true)) && posted.0 == PostEntryOf(db, scope, b, author).0
  {
    BillAccepted(db, scope, b.amounts);
    PostFresh(db, scope, BillRequest(db, scope, b), BillKey(scope, b.id), author);
  }

  /** Why a bill is not posted: no positive component, or an account that does not exist. */
  lemma PostBillFails(db: Db, scope: Scope, b: Bill, author: string)
    requires WellFormed(db)
    ensures var (db', r) := PostEntryOf(db, scope, b, author);
      && (r.Err? ==> db' == db)
      && (r == Err(NoComponents) <==> BillNet(b.amounts, Some("13001")) == 0)
      && (r.Err? <==> r == Err(NoComponents) || MissingCodes(db, scope, b.amounts) != {})
  {
    ReceivableNet(b.amounts);
    PositiveTotal(CreditComponents(b.amounts));
    if |CreditComponents(b.amounts)| == 0 {
    } else if MissingCodes(db, scope, b.amounts) == {} {
      if KeyTaken(db.entries, scope, Some(BillKey(scope, b.id))) {
        EntryReplays(db, scope, b, author);
      } else {
        BillPosts(db, scope, b, author);
      }
    }
  }

  /** A code is missing exactly when the bill needs it and no account of the scope has it. */
  lemma MissingCodesAre(db: Db, scope: Scope, a: Amounts, code: string)
    ensures code in MissingCodes(db, scope, a) <==>
              (code == "13001" || BillNet(a, Some(code)) < 0)
              && forall x | x in db.accounts :: !(x.scope == scope && x.code == Some(code))
  {
    var at := IdOf(db, scope, code);
    if at.Some? {
      assert HasCode(scope, code)(db.accounts[at.value]) && db.accounts[at.value] in db.accounts;
    }
    if x :| x in db.accounts && x.scope == scope && x.code == Some(code) { assert HasCode(scope, code)(x); }
    NeededIff(a, code);
  }

  lemma NeededIff(a: Amounts, code: string)
    ensures code in RequiredCodes(a) <==> code == "13001" || BillNet(a, Some(code)) < 0
  {
    ReceivableNet(a);
    PositiveTotal(CreditComponents(a));
    if code != "13001" {
      var cs, on := CreditComponents(a), OnCode(Some(code));
      if c :| c in cs && c.code == code {
        SumAtLeast(cs, on, c);
      } else {
        SumZero(cs, on);
      }
    }
  }

  /** The reversal entry of a posted bill is dated on the last day of the bill's month under the reversal key; the bill
      is then reversed and unposted, and otherwise as it was. */
  lemma ReverseStores(s: Shop, scope: Scope, i: nat, reason: string, author: string)
    requires ShopOk(s, scope) && i < |s.bills| && s.bills[i].isPosted && Booked(s.db, scope, s.bills[i])
    ensures var (s', n) := (ReverseBill(s, scope, i, reason, author).0, |s.db.entries|);
      && |s'.db.entries| == n + 1 && s'.db.entries[n].date == MonthEnd(s.bills[i].month, s.bills[i].year)
      && s'.db.entries[n].createdBy == author
      && s'.db.entries[n].reference == Some("REV-MBILL-" + s.bills[i].flatNumber)
      && s'.db.entries[n].description
           == Some("Reversal of maintenance bill for " + s.bills[i].flatNumber + ": " + reason)
      && s'.db.entries[n].key == Some("gruhamitra:" + scope.tenantId + ":" + scope.appKey
                                      + ":maintenance-bill-reversal:" + s.bills[i].id)
      && s'.bills == s.bills[i := s.bills[i].(status := ReversedBill, isPosted := false)]
  {
    BillReverses(s, scope, i, reason, author);
    KeyTexts(scope, s.bills[i].id);
    var b, e := s.bills[i], s.bills[i].journalId.value;
    var entry := EntryOf(scope, ReversalRequest(s.db, b, e, reason), ReversalKey(scope, b.id), author);
    assert ReverseBill(s, scope, i, reason, author).0.db.entries == s.db.entries + [entry];
  }

  lemma KeyTexts(scope: Scope, id: string)
    ensures BillKey(scope, id) == "gruhamitra:" + scope.tenantId + ":" + scope.appKey + ":maintenance-bill:" + id
    ensures ReversalKey(scope, id)
         == "gruhamitra:" + scope.tenantId + ":" + scope.appKey + ":maintenance-bill-reversal:" + id
  {
  }

  /** That entry takes the bill's net off every account. */
  lemma ReverseTakesOff(s: Shop, scope: Scope, i: nat, reason: string, author: string, a: int)
    requires ShopOk(s, scope) && i < |s.bills| && s.bills[i].isPosted && Booked(s.db, scope, s.bills[i])
    requires InScope(s.db, scope, a)
    ensures EntryNet(ReverseBill(s, scope, i, reason, author).0.db, |s.db.entries|, a)
         == -BillNet(s.bills[i].amounts, s.db.accounts[a].code)
  {
    var b, e := s.bills[i], s.bills[i].journalId.value;
    assert BillOk(s.db, scope, b);
    BillReverses(s, scope, i, reason, author);
    ReversalTakes(s.db, scope, b, e);
    AppendEntryNet(s.db, EntryOf(scope, ReversalRequest(s.db, b, e, reason), ReversalKey(scope, b.id), author),
      RoundAll(ReversalLines(s.db, e)), |s.db.entries|, a);
  }

  /** A posted bill whose journal is not an entry of the scope with lines cannot be reversed, and nothing changes. */
  lemma ReverseMissing(s: Shop, scope: Scope, i: nat, reason: string, author: string)
    requires i < |s.bills| && s.bills[i].isPosted && s.bills[i].journalId.Some?
    ensures var e := s.bills[i].journalId.value;
      e >= |s.db.entries| || s.db.entries[e].scope != scope || (forall l | l in s.db.lines :: l.journalId != e) ==>
        ReverseBill(s, scope, i, reason, author) == (s, Err(OriginalMissing))
  {
    var ls := Filter(s.db.lines, InJournal(s.bills[i].journalId.value));
    if |ls| > 0 { assert ls[0] in ls && InJournal(s.bills[i].journalId.value)(ls[0]); }
  }

  /** Reversing a bill that is not marked posted only marks it reversed. */
  lemma ReverseUnposted(s: Shop, scope: Scope, i: nat, reason: string, author: string)
    requires i < |s.bills| && !s.bills[i].isPosted
    ensures ReverseBill(s, scope, i, reason, author)
         == (s.(bills := s.bills[i := s.bills[i].(status := ReversedBill, isPosted := false)]), Ok(None))
  {
  }

  /** An extra charge raises the bill's extra amount and its total by the amount rounded to the nearest paisa, and
      changes nothing else about it. */
  lemma ChargedIs(b: Bill, amount: real)
    ensures var (b', c) := (Charged(b, amount), RoundMoney(amount) as real);
      && -0.5 < c - amount <= 0.5
      && b' == b.(amount := b.amount + c, amounts := b.amounts.(extra := b.amounts.extra + c))
  {
    Nearest(amount);
  }

  /** Generation leaves a month with a posted bill alone, and otherwise replaces all bills of the month, reversed ones
      included, and no others. */
  lemma GenerateIs(s: Shop, month: int, year: int, news: seq<Bill>)
    ensures var after := Generate(s, month, year, news);
      && after.db == s.db
      && if exists b | b in s.bills :: b.isPosted && b.month == month && b.year == year then after == s
         else forall b :: b in after.bills <==>
                b in news || (b in s.bills && (b.month != month || b.year != year))
  {
  }
}
