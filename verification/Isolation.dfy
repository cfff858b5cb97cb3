// Isolation between scopes over whole runs.
module Isolation {
  import opened Wrappers
  import opened Seqs
  import opened Sums
  import opened Tables
  import opened Journal
  import opened Reports
  import opened Statements
  import opened Runs
  import Coa
  import Text
  import SP = SourcePosting

  /** Rows of scope t are the same before and after, and rows elsewhere never enter t. */
  ghost predicate Untouched(a: Db, b: Db, t: Scope) {
    && |a.accounts| <= |b.accounts| && a.entries <= b.entries && a.lines <= b.lines
    && |a.sources| <= |b.sources| && |a.mappings| <= |b.mappings|
    && (forall i | 0 <= i < |b.accounts| && (i >= |a.accounts| || a.accounts[i] != b.accounts[i]) ::
          b.accounts[i].scope != t && (i < |a.accounts| ==> a.accounts[i].scope != t))
    && (forall i | |a.entries| <= i < |b.entries| :: b.entries[i].scope != t)
    && (forall i | |a.lines| <= i < |b.lines| :: b.lines[i].scope != t)
    && (forall i | 0 <= i < |b.sources| && (i >= |a.sources| || a.sources[i] != b.sources[i]) ::
          b.sources[i].scope != t && (i < |a.sources| ==> a.sources[i].scope != t))
    && (forall i | 0 <= i < |b.mappings| && (i >= |a.mappings| || a.mappings[i] != b.mappings[i]) ::
          b.mappings[i].scope != t && (i < |a.mappings| ==> a.mappings[i].scope != t))
  }

  lemma PostUntouched(db: Db, scope: Scope, r: Request, key: Option<string>, author: string, t: Scope)
    requires scope != t
    ensures Untouched(db, Post(db, scope, r, key, author).0, t)
  {
  }

  lemma {:induction false} SourcesUntouched(sources: seq<SourceAccount>, scope: Scope, items: seq<Coa.SourceIn>,
      t: Scope)
    requires scope != t
    ensures var after := Coa.UpsertAll(sources, scope, items);
      |sources| <= |after| &&
      forall i | 0 <= i < |after| && (i >= |sources| || sources[i] != after[i]) ::
        after[i].scope != t && (i < |sources| ==> sources[i].scope != t)
  {
    if |items| == 0 {
    } else {
      SourcesUntouched(sources, scope, items[..|items| - 1], t);
      var prev, item := Coa.UpsertAll(sources, scope, items[..|items| - 1]), items[|items| - 1];
      var at := FindFirst(prev, Coa.IsSource(scope, (item.system, Text.Strip(item.code))));
      if at.Some? {
        assert Coa.IsSource(scope, (item.system, Text.Strip(item.code)))(prev[at.value]);
      }
    }
  }

  lemma {:induction false} MappingsUntouched(
      db: Db, scope: Scope, keys: seq<Coa.SourceKey>, byKey: map<Coa.SourceKey, Coa.MappingIn>, author: string,
          t: Scope)
    requires scope != t
    requires forall k | k in keys :: k in byKey && Coa.SourceId(db.sources, scope, k).Some?
    ensures var after := Coa.ApplyMappings(db, scope, keys, byKey, author);
      |db.mappings| <= |after| &&
      forall i | 0 <= i < |after| && (i >= |db.mappings| || db.mappings[i] != after[i]) ::
        after[i].scope != t && (i < |db.mappings| ==> db.mappings[i].scope != t)
  {
    if |keys| == 0 {
    } else {
      MappingsUntouched(db, scope, keys[..|keys| - 1], byKey, author, t);
      var prev := Coa.ApplyMappings(db, scope, keys[..|keys| - 1], byKey, author);
      var id := Coa.SourceId(db.sources, scope, keys[|keys| - 1]).value;
      var at := FindFirst(prev, Coa.IsMappingOf(scope, id));
      if at.Some? {
        assert Coa.IsMappingOf(scope, id)(prev[at.value]);
      }
    }
  }

  lemma PostSourceUntouched(db: Db, scope: Scope, r: SP.SourceRequest, key: Option<string>, author: string, t: Scope)
    requires scope != t
    ensures Untouched(db, SP.PostSource(db, scope, r, key, author).0, t)
  {
    if SP.PostSource(db, scope, r, key, author).0 != db {
      PostUntouched(db, scope, SP.CanonicalRequest(db, scope, r), SP.SourceIdempotencyKey(r.system, key), author, t);
    }
  }

  lemma PutMappingsUntouched(db: Db, scope: Scope, items: seq<Coa.MappingIn>, author: string, t: Scope)
    requires scope != t
    ensures Untouched(db, Coa.UpsertMappings(db, scope, items, author).0, t)
  {
    if Coa.UpsertMappings(db, scope, items, author).1.None? {
      var (keys, byKey) := Coa.Keyed(items);
      assert forall k | k in keys :: k in byKey && k !in Coa.MissingKeys(db.sources, scope, byKey);
      MappingsUntouched(db, scope, keys, byKey, author, t);
    }
  }

  /** No operation touches a row of another scope. */
  lemma StepUntouched(db: Db, step: Step, t: Scope)
    requires ScopeOf(step) != t
    ensures Untouched(db, Apply(db, step), t)
  {
    match step
    case NewAccount(a) =>
    case Rename(s, c, n) =>
    case PostEntry(s, r, k, a) => PostUntouched(db, s, r, k, a, t);
    case PostFromSource(s, r, k, a) => PostSourceUntouched(db, s, r, k, a, t);
    case PutSources(s, items) => SourcesUntouched(db.sources, s, items, t);
    case PutMappings(s, items, a) => PutMappingsUntouched(db, s, items, a, t);
    case ApproveMappings(s, sys, codes, a) =>
  }

  /** A run of operations in other scopes leaves every row of scope t alone. */
  lemma {:induction false} RunUntouched(db: Db, steps: seq<Step>, t: Scope)
    requires forall s | s in steps :: ScopeOf(s) != t
    ensures Untouched(db, Run(db, steps), t)
  {
    if |steps| == 0 {
    } else {
      var front := steps[..|steps| - 1];
      RunUntouched(db, front, t);
      StepUntouched(Run(db, front), steps[|steps| - 1], t);
    }
  }

  // ---- Everything a scope can observe ----

  lemma TotalSame(a: Db, b: Db, q: Query, amount: Line -> int)
    requires Untouched(a, b, q.scope) && LinesOk(a)
    ensures Total(a, q, amount) == Total(b, q, amount)
    ensures HasLine(a, q) <==> HasLine(b, q)
  {
    var added := b.lines[|a.lines|..];
    assert b.lines == a.lines + added;
    SumAppend(a.lines, added, Pick(b, q, amount));
    SumZero(added, Pick(b, q, amount));
    SumExt(a.lines, Pick(a, q, amount), Pick(b, q, amount));
  }

  /** Every grouped report of scope t is the same in both databases. */
  lemma ReportSame(a: Db, b: Db, q: Query, signed: bool, lines: seq<ReportLine>)
    requires Untouched(a, b, q.scope) && LinesOk(a) && LinesOk(b)
    ensures IsReport(a, q, signed, lines) <==> IsReport(b, q, signed, lines)
  {
    forall x: int
      ensures Total(a, q.(account := Some(x)), DR) == Total(b, q.(account := Some(x)), DR)
      ensures Total(a, q.(account := Some(x)), CR) == Total(b, q.(account := Some(x)), CR)
      ensures HasLine(a, q.(account := Some(x))) <==> HasLine(b, q.(account := Some(x)))
      ensures HasLine(a, q.(account := Some(x))) ==> 0 <= x < |a.accounts| && a.accounts[x] == b.accounts[x]
    {
      TotalSame(a, b, q.(account := Some(x)), DR);
      TotalSame(a, b, q.(account := Some(x)), CR);
    }
    forall l | l in lines ensures IsReportLine(a, q, signed, l) <==> IsReportLine(b, q, signed, l) {
      assert HasLine(a, q.(account := Some(l.accountId))) <==> HasLine(b, q.(account := Some(l.accountId)));
    }
  }

  lemma {:induction false} OrderedSame(a: Db, b: Db, q: Query, n: nat)
    requires Untouched(a, b, q.scope) && LinesOk(a) && n <= |b.lines|
    ensures OrderedIds(b, q, n) == OrderedIds(a, q, if n <= |a.lines| then n else |a.lines|)
  {
    if n > 0 {
      OrderedSame(a, b, q, n - 1);
      if n <= |a.lines| {
        assert a.lines[n - 1] == b.lines[n - 1] && a.lines[n - 1] in a.lines;
        OrderedLedger(a, q, n - 1);
        InsertSame(a, b, OrderedIds(a, q, n - 1), n - 1);
      }
    }
  }

  lemma {:induction false} InsertSame(a: Db, b: Db, ids: seq<int>, i: int)
    requires a.lines <= b.lines && a.entries <= b.entries && LinesOk(a)
    requires 0 <= i < |a.lines| && forall k | k in ids :: 0 <= k < |a.lines|
    ensures InsertByDate(a, ids, i) == InsertByDate(b, ids, i)
  {
    if |ids| == 0 {
    } else {
      assert ids[|ids| - 1] in ids;
      assert a.lines[i] in a.lines && a.lines[ids[|ids| - 1]] in a.lines;
      var rest := ids[..|ids| - 1];
      forall k | k in rest ensures 0 <= k < |a.lines| {
        var j :| 0 <= j < |rest| && rest[j] == k;
        assert ids[j] in ids;
      }
      InsertSame(a, b, rest, i);
    }
  }

  lemma LineSame(a: Db, b: Db, ids: seq<int>, k: nat)
    requires a.lines <= b.lines && a.entries <= b.entries && LinesOk(a)
    requires k < |ids| && forall i | i in ids :: 0 <= i < |a.lines|
    ensures 0 <= ids[k] < |a.lines| && 0 <= a.lines[ids[k]].journalId < |a.entries|
    ensures LineAt(a, ids, k) == LineAt(b, ids, k)
  {
    assert ids[k] in ids && a.lines[ids[k]] in a.lines;
    forall i | i in ids[..k + 1] ensures NetAt(a)(i) == NetAt(b)(i) {
      assert i in ids;
    }
    SumExt(ids[..k + 1], NetAt(a), NetAt(b));
  }

  /** The account ledgers of scope t are the same in both databases. */
  lemma LedgerSame(a: Db, b: Db, q: Query, out: seq<LedgerLine>)
    requires Untouched(a, b, q.scope) && LinesOk(a) && LinesOk(b)
    ensures IsLedger(a, q, out) <==> IsLedger(b, q, out)
  {
    OrderedSame(a, b, q, |b.lines|);
    OrderedInRange(a, q);
    AllLinesSame(a, b, OrderedIds(a, q, |a.lines|));
  }

  lemma OrderedInRange(db: Db, q: Query)
    ensures forall i | i in OrderedIds(db, q, |db.lines|) :: 0 <= i < |db.lines|
  {
    OrderedLedger(db, q, |db.lines|);
  }

  lemma AllLinesSame(a: Db, b: Db, ids: seq<int>)
    requires a.lines <= b.lines && a.entries <= b.entries && LinesOk(a)
    requires forall i | i in ids :: 0 <= i < |a.lines|
    ensures forall k | 0 <= k < |ids| :: 0 <= ids[k] < |a.lines| && 0 <= a.lines[ids[k]].journalId < |a.entries|
              && a.lines[ids[k]] == b.lines[ids[k]] && LineAt(a, ids, k) == LineAt(b, ids, k)
  {
    forall k | 0 <= k < |ids|
      ensures 0 <= ids[k] < |a.lines| && 0 <= a.lines[ids[k]].journalId < |a.entries|
      ensures a.lines[ids[k]] == b.lines[ids[k]] && LineAt(a, ids, k) == LineAt(b, ids, k)
    {
      LineSame(a, b, ids, k);
    }
  }

  lemma {:induction false} ActiveSame(a: Db, b: Db, t: Scope, system: SourceSystem, n: nat)
    requires Untouched(a, b, t) && n <= |b.sources|
    ensures Coa.ActiveIds(b.sources, t, system, n)
         == Coa.ActiveIds(a.sources, t, system, if n <= |a.sources| then n else |a.sources|)
  {
    if n > 0 {
      ActiveSame(a, b, t, system, n - 1);
    }
  }

  lemma MappedSame(a: Db, b: Db, t: Scope, ids: seq<int>, states: set<MappingStatus>)
    requires Untouched(a, b, t)
    ensures Coa.MappedIds(a, t, ids, states) == Coa.MappedIds(b, t, ids, states)
  {
    forall m | m in a.mappings && m.scope == t ensures m in b.mappings {
      var i :| 0 <= i < |a.mappings| && a.mappings[i] == m;
      assert b.mappings[i] == m;
    }
    forall m | m in b.mappings && m.scope == t ensures m in a.mappings {
      var i :| 0 <= i < |b.mappings| && b.mappings[i] == m;
      assert a.mappings[i] == m;
    }
  }

  /** The mapping gaps and the onboarding status of scope t are the same in both databases. */
  lemma StatusSame(a: Db, b: Db, t: Scope, system: SourceSystem)
    requires Untouched(a, b, t)
    ensures Coa.OnboardingStatus(a, t, system) == Coa.OnboardingStatus(b, t, system)
    ensures Coa.Gaps(a, t, system) == Coa.Gaps(b, t, system)
  {
    ActiveSame(a, b, t, system, |b.sources|);
    MappedSame(a, b, t, Coa.ActiveSources(a, t, system), {Active});
    MappedSame(a, b, t, Coa.ActiveSources(a, t, system), {Draft});
  }

  /** Non-interference: after any run of operations in other scopes, every report, every account ledger and every
      mapping status of scope t reads exactly as before. */
  lemma NonInterference(db: Db, steps: seq<Step>, t: Scope, q: Query, signed: bool,
                        lines: seq<ReportLine>, out: seq<LedgerLine>, system: SourceSystem)
    requires WellFormed(db) && q.scope == t
    requires forall s | s in steps :: ScopeOf(s) != t
    ensures var after := Run(db, steps);
      && (IsReport(db, q, signed, lines) <==> IsReport(after, q, signed, lines))
      && (IsLedger(db, q, out) <==> IsLedger(after, q, out))
      && Coa.OnboardingStatus(db, t, system) == Coa.OnboardingStatus(after, t, system)
      && Coa.Gaps(db, t, system) == Coa.Gaps(after, t, system)
  {
    RunUntouched(db, steps, t);
    RunKeeps(db, steps);
    ReportSame(db, Run(db, steps), q, signed, lines);
    LedgerSame(db, Run(db, steps), q, out);
    StatusSame(db, Run(db, steps), t, system);
  }
}
