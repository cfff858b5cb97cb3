// Posting a month: which bills a post-bills call takes, and what it leaves in both stores.
module BillPosting {
  import opened Wrappers
  import opened Seqs
  import opened Tables
  import opened Bills
  import opened BillRuns
  import opened BillSafety
  import opened BillEntries

  // ---- Posting a month ----

  function Selected(month: int, year: int): Bill -> bool {
    (b: Bill) => b.month == month && b.year == year && Postable(b)
  }

  /** The positions of the month's unposted, unreversed bills. */
  function SelectedIds(bills: seq<Bill>, month: int, year: int, n: nat): (r: seq<nat>)
    requires n <= |bills|
    ensures forall i: nat :: i in r <==> i < n && Selected(month, year)(bills[i])
    ensures NoDup(r)
  {
    if n == 0 then []
    else
      var r := SelectedIds(bills, month, year, n - 1);
      if Selected(month, year)(bills[n - 1]) then r + [n - 1] else r
  }

  /** Posts the bills one after another; the first failure stops the rest, keeping what was done. */
  function PostAll(s: Shop, scope: Scope, ids: seq<nat>, author: string): (Shop, Result<seq<nat>, BillError>) {
    if |ids| == 0 then (s, Ok([]))
    else
      var (s1, r1) := PostAll(s, scope, ids[..|ids| - 1], author);
      var i := ids[|ids| - 1];
      if r1.Err? || i >= |s1.bills| then (s1, r1)
      else
        var (s2, r2) := PostBill(s1, scope, i, author);
        match r2
        case Err(e) => (s2, Err(e))
        case Ok(id) => (s2, Ok(r1.value + [id]))
  }

  /** Posting some bills leaves the others as they were. */
  lemma {:induction false} PostAllOthers(s: Shop, scope: Scope, ids: seq<nat>, author: string)
    requires forall k | 0 <= k < |ids| :: ids[k] < |s.bills|
    ensures var after := PostAll(s, scope, ids, author).0.bills;
      |after| == |s.bills| && forall i | 0 <= i < |s.bills| && i !in ids :: after[i] == s.bills[i]
  {
    if |ids| == 0 {
    } else {
      var front, i := ids[..|ids| - 1], ids[|ids| - 1];
      PostAllOthers(s, scope, front, author);
      assert i in ids && forall x | x in front :: x in ids;
    }
  }

  lemma {:induction false} PostAllKeeps(s: Shop, scope: Scope, ids: seq<nat>, author: string)
    requires ShopOk(s, scope) && NoDup(ids)
    requires forall k | 0 <= k < |ids| :: ids[k] < |s.bills| && Postable(s.bills[ids[k]])
    ensures ShopOk(PostAll(s, scope, ids, author).0, scope)
  {
    if |ids| == 0 {
    } else {
      var front, i := ids[..|ids| - 1], ids[|ids| - 1];
      PostAllKeeps(s, scope, front, author);
      PostAllOthers(s, scope, front, author);
      assert i !in front;
      if PostAll(s, scope, front, author).1.Ok? {
        PostBillKeeps(PostAll(s, scope, front, author).0, scope, i, author);
      }
    }
  }

  /** Posting keeps every bill's id. */
  lemma {:induction false} PostAllIds(s: Shop, scope: Scope, ids: seq<nat>, author: string)
    requires forall k | 0 <= k < |ids| :: ids[k] < |s.bills|
    ensures var after := PostAll(s, scope, ids, author).0.bills;
      |after| == |s.bills| && forall i | 0 <= i < |after| :: after[i].id == s.bills[i].id
  {
    if |ids| == 0 {
    } else {
      PostAllIds(s, scope, ids[..|ids| - 1], author);
      var (s1, r1) := PostAll(s, scope, ids[..|ids| - 1], author);
    }
  }

  predicate PostedAs(bills: seq<Bill>, i: nat, e: nat) {
    i < |bills| && bills[i].isPosted && bills[i].journalId == Some(e)
  }

  lemma PostedStep(a: seq<Bill>, b: seq<Bill>, ids: seq<nat>, entries: seq<nat>, e: nat)
    requires |a| == |b| && |ids| == |entries| + 1 && NoDup(ids) && ids[|entries|] < |a|
    requires forall k | 0 <= k < |entries| :: PostedAs(a, ids[k], entries[k])
    requires forall j | 0 <= j < |a| && j != ids[|entries|] :: b[j] == a[j]
    requires PostedAs(b, ids[|entries|], e)
    ensures forall k | 0 <= k < |ids| :: PostedAs(b, ids[k], (entries + [e])[k])
  {
    forall k | 0 <= k < |entries| ensures PostedAs(b, ids[k], entries[k]) {
      assert PostedAs(a, ids[k], entries[k]) && ids[k] != ids[|entries|];
    }
  }

  /** A month that posts without error leaves no selected bill behind: all of them are posted, in order. */
  lemma {:induction false} PostAllPosts(s: Shop, scope: Scope, ids: seq<nat>, author: string)
    requires NoDup(ids) && forall k | 0 <= k < |ids| :: ids[k] < |s.bills|
    ensures var (s', r) := PostAll(s, scope, ids, author);
      |s'.bills| == |s.bills| &&
      (r.Ok? ==> |r.value| == |ids| && forall k | 0 <= k < |ids| :: PostedAs(s'.bills, ids[k], r.value[k]))
  {
    if |ids| == 0 {
    } else {
      var front, i := ids[..|ids| - 1], ids[|ids| - 1];
      PostAllPosts(s, scope, front, author);
      var (s1, r1) := PostAll(s, scope, front, author);
      if r1.Ok? && PostBill(s1, scope, i, author).1.Ok? {
        var (s2, r2) := PostBill(s1, scope, i, author);
        PostedStep(s1.bills, s2.bills, ids, r1.value, r2.value);
      }
    }
  }

  // ---- The pass in the words of the request ----

  /** A bill of the month that is neither reversed nor posted. */
  predicate IsOpen(b: Bill, month: int, year: int) {
    b.month == month && b.year == year && b.status != ReversedBill && !b.isPosted
  }

  /** post-bills takes exactly the open bills of the month and year. */
  lemma SelectedIff(bills: seq<Bill>, month: int, year: int, i: nat)
    requires i < |bills|
    ensures i in SelectedIds(bills, month, year, |bills|) <==> IsOpen(bills[i], month, year)
  {
  }

  /** The bill has been marked posted against a ledger entry of the scope under its own key, and is otherwise as it was.
      */
  predicate MarkedUnder(db: Db, scope: Scope, was: Bill, now: Bill) {
    && now.journalId.Some? && now == was.(status := PostedBill, isPosted := true, journalId := now.journalId)
    && now.journalId.value < |db.entries| && db.entries[now.journalId.value].scope == scope
    && db.entries[now.journalId.value].key
         == Some("gruhamitra:" + scope.tenantId + ":" + scope.appKey + ":maintenance-bill:" + was.id)
  }

  /** The pass marks the first n bills in order and leaves the rest; it stops short exactly at a bill whose posting
      fails, and reports that failure. */
  ghost predicate PassIs(s: Shop, scope: Scope, ids: seq<nat>, author: string, n: nat) {
    var (s', r) := PostAll(s, scope, ids, author);
    && FirstMarked(s, s', scope, ids, n) && RestKept(s, s', ids, n)
    && (r.Ok? ==> n == |ids| && AnswersJournals(s', ids, r.value))
    && (r.Err? ==>
         n < |ids| && var sofar := PostAll(s, scope, ids[..n], author).0;
         PostEntryOf(sofar.db, scope, s.bills[ids[n]], author).1 == Err(r.error))
  }

  predicate InRange(s: Shop, after: Shop, ids: seq<nat>) {
    |after.bills| == |s.bills| && forall k | 0 <= k < |ids| :: ids[k] < |s.bills|
  }

  predicate FirstMarked(s: Shop, after: Shop, scope: Scope, ids: seq<nat>, n: nat) {
    && InRange(s, after, ids) && n <= |ids|
    && forall k | 0 <= k < n :: MarkedUnder(after.db, scope, s.bills[ids[k]], after.bills[ids[k]])
  }

  predicate RestKept(s: Shop, after: Shop, ids: seq<nat>, n: nat) {
    InRange(s, after, ids) && forall k | n <= k < |ids| :: after.bills[ids[k]] == s.bills[ids[k]]
  }

  /** The answer lists the bills' journals in order. */
  predicate AnswersJournals(after: Shop, ids: seq<nat>, entries: seq<nat>) {
    |entries| == |ids| && forall k | 0 <= k < |ids| ::
      ids[k] < |after.bills| && after.bills[ids[k]].journalId == Some(entries[k])
  }

  lemma {:induction false} PassEffect(s: Shop, scope: Scope, ids: seq<nat>, author: string) returns (n: nat)
    requires NoDup(ids) && forall k | 0 <= k < |ids| :: ids[k] < |s.bills|
    ensures PassIs(s, scope, ids, author, n)
  {
    if |ids| == 0 {
      n := 0;
    } else {
      var front, i := ids[..|ids| - 1], ids[|ids| - 1];
      n := PassEffect(s, scope, front, author);
      PostAllOthers(s, scope, front, author);
      assert i !in front;
      if PostAll(s, scope, front, author).1.Ok? {
        n := PassStep(s, scope, ids, author);
      } else {
        assert front[..n] == ids[..n] && forall k | 0 <= k < |front| :: ids[k] == front[k];
      }
    }
  }

  lemma PassStep(s: Shop, scope: Scope, ids: seq<nat>, author: string) returns (n: nat)
    requires |ids| > 0 && NoDup(ids) && forall k | 0 <= k < |ids| :: ids[k] < |s.bills|
    requires var s1 := PostAll(s, scope, ids[..|ids| - 1], author);
      s1.1.Ok? && PassIs(s, scope, ids[..|ids| - 1], author, |ids| - 1)
      && s1.0.bills[ids[|ids| - 1]] == s.bills[ids[|ids| - 1]]
    ensures PassIs(s, scope, ids, author, n)
  {
    var front, i := ids[..|ids| - 1], ids[|ids| - 1];
    var (s1, r1) := PostAll(s, scope, front, author);
    var (s2, r2) := PostBill(s1, scope, i, author);
    OneMarked(s1, scope, i, author);
    if r2.Err? { FailedPost(s1, scope, i, author); }
    n := if r2.Ok? then |ids| else |ids| - 1;
    assert forall k | 0 <= k < |front| :: ids[k] == front[k] && ids[k] != i;
    FrontStays(s, s1, s2, scope, front);
    MarksNext(s, s2, scope, ids, n);
    if r2.Ok? { AnswersNext(s1, s2, ids, r1.value, r2.value); }
  }

  lemma MarksNext(s: Shop, after: Shop, scope: Scope, ids: seq<nat>, n: nat)
    requires |ids| > 0 && InRange(s, after, ids) && |ids| - 1 <= n <= |ids|
    requires FirstMarked(s, after, scope, ids[..|ids| - 1], |ids| - 1)
    requires n == |ids| ==> MarkedUnder(after.db, scope, s.bills[ids[n - 1]], after.bills[ids[n - 1]])
    requires n < |ids| ==> after.bills[ids[n]] == s.bills[ids[n]]
    ensures FirstMarked(s, after, scope, ids, n) && RestKept(s, after, ids, n)
  {
    assert forall k | 0 <= k < |ids| - 1 :: ids[..|ids| - 1][k] == ids[k];
  }

  lemma FrontStays(s: Shop, s1: Shop, s2: Shop, scope: Scope, front: seq<nat>)
    requires FirstMarked(s, s1, scope, front, |front|) && InRange(s, s2, front) && s1.db.entries <= s2.db.entries
    requires forall k | 0 <= k < |front| :: s2.bills[front[k]] == s1.bills[front[k]]
    ensures FirstMarked(s, s2, scope, front, |front|)
  {
    forall k | 0 <= k < |front| ensures MarkedUnder(s2.db, scope, s.bills[front[k]], s2.bills[front[k]]) {
      MarkedStays(s1.db, s2.db, scope, s.bills[front[k]], s1.bills[front[k]]);
    }
  }

  lemma FailedPost(s: Shop, scope: Scope, i: nat, author: string)
    requires i < |s.bills| && PostBill(s, scope, i, author).1.Err?
    ensures PostBill(s, scope, i, author).0.bills == s.bills
    ensures PostEntryOf(s.db, scope, s.bills[i], author).1 == Err(PostBill(s, scope, i, author).1.error)
  {
  }

  lemma AnswersNext(s1: Shop, s2: Shop, ids: seq<nat>, entries: seq<nat>, e: nat)
    requires |ids| > 0 && |s1.bills| == |s2.bills| && AnswersJournals(s1, ids[..|ids| - 1], entries)
    requires forall k | 0 <= k < |ids| - 1 :: ids[k] < |s1.bills| && s2.bills[ids[k]] == s1.bills[ids[k]]
    requires ids[|ids| - 1] < |s2.bills| && s2.bills[ids[|ids| - 1]].journalId == Some(e)
    ensures AnswersJournals(s2, ids, entries + [e])
  {
    assert forall k | 0 <= k < |ids| - 1 :: ids[..|ids| - 1][k] == ids[k];
  }

  lemma MarkedStays(a: Db, b: Db, scope: Scope, was: Bill, now: Bill)
    requires MarkedUnder(a, scope, was, now) && a.entries <= b.entries
    ensures MarkedUnder(b, scope, was, now)
  {
  }

  lemma OneMarked(s: Shop, scope: Scope, i: nat, author: string)
    requires i < |s.bills|
    ensures var (s', r) := PostBill(s, scope, i, author);
      && s.db.entries <= s'.db.entries && |s'.bills| == |s.bills|
      && (forall j | 0 <= j < |s.bills| && j != i :: s'.bills[j] == s.bills[j])
      && (r.Ok? ==> MarkedUnder(s'.db, scope, s.bills[i], s'.bills[i]) && s'.bills[i].journalId == Some(r.value))
  {
    PostBillMarks(s, scope, i, author);
  }

  /** post-bills for a month: bills of other months, reversed ones and posted ones stay as they are; when the call
      succeeds every open bill of the month is marked posted against an entry under its own key. */
  lemma PassPostsMonth(s: Shop, scope: Scope, month: int, year: int, author: string)
    ensures var (s', r) := PostAll(s, scope, SelectedIds(s.bills, month, year, |s.bills|), author);
      && |s'.bills| == |s.bills|
      && (forall i | 0 <= i < |s.bills| && !IsOpen(s.bills[i], month, year) :: s'.bills[i] == s.bills[i])
      && (r.Ok? ==> forall i | 0 <= i < |s.bills| && IsOpen(s.bills[i], month, year) ::
            MarkedUnder(s'.db, scope, s.bills[i], s'.bills[i]))
  {
    var ids := SelectedIds(s.bills, month, year, |s.bills|);
    assert forall k | 0 <= k < |ids| :: ids[k] in ids;
    forall i: nat | i < |s.bills| ensures i in ids <==> IsOpen(s.bills[i], month, year) {
      SelectedIff(s.bills, month, year, i);
    }
    var n := PassEffect(s, scope, ids, author);
    PostAllOthers(s, scope, ids, author);
    var (s', r) := PostAll(s, scope, ids, author);
    forall i: nat | i < |s.bills| && IsOpen(s.bills[i], month, year) && r.Ok?
      ensures MarkedUnder(s'.db, scope, s.bills[i], s'.bills[i])
    {
      assert i in ids;
      var k :| 0 <= k < |ids| && ids[k] == i;
    }
  }
}
