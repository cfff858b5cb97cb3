// The queue collection and one pass of a worker over it.
module SyncWorker {
  import opened Wrappers
  import opened Seqs
  import opened Sums
  import opened QueueModel
  import opened JobStates

  /** What processing a claimed job produced; an exception counts as one error. */
  datatype Outcome = Outcome(ingested: nat, duplicates: nat, errors: nat, error: string)

  /** The message passed on for a failed job. */
  function FailureText(o: Outcome): string {
    if o.error == "" then "sync failed" else o.error
  }

  predicate HardFailure(o: Outcome) {
    o.ingested == 0 && o.duplicates == 0 && o.errors > 0
  }

  datatype Summary = Summary(
    batchSize: nat, recoveredStale: nat, claimed: nat, completed: nat, retried: nat, failed: nat,
    ingested: nat, duplicates: nat, errors: nat)

  class Queue {
    var jobs: seq<Job>

    constructor ()
      ensures jobs == []
    {
      jobs := [];
    }

    method EnqueueQuery(key: QueryKey, now: int)
      modifies this
      ensures jobs == Enqueue(old(jobs), key, now)
    {
      if !HasPending(jobs, key) {
        jobs := jobs + [Job(key, Pending, 0, now, None, None, None, None)];
      }
    }

    /** update_many in the database's visiting order: releases the longest prefix of the scan that is clear, and reports
        an index violation exactly when that is not all of it. */
    method RecoverStaleJobs(now: int, timeout: int, order: seq<nat>) returns (count: nat, duplicateKey: bool)
      requires IsScan(jobs, Cutoff(now, timeout), order)
      modifies this
      ensures IsRecovery(old(jobs), order, count, jobs) && (duplicateKey <==> count < |order|)
      ensures forall i: nat | i < |jobs| && jobs[i] != old(jobs)[i] ::
                && old(jobs)[i].status == Processing && old(jobs)[i].lockedAt.Some?
                && old(jobs)[i].lockedAt.value < now - 30 && old(jobs)[i].lockedAt.value < now - timeout
                && jobs[i] == old(jobs)[i].(status := Pending, lockedAt := None, workerId := None,
                    lastError := Some("Recovered stale processing lock"))
      ensures !duplicateKey ==> forall j | j in jobs && j.status == Processing && j.lockedAt.Some? ::
                j.lockedAt.value >= now - 30 || j.lockedAt.value >= now - timeout
    {
      count, duplicateKey := 0, false;
      while count < |order|
        invariant count <= |order| && ReleasedSoFar(old(jobs), order, count, jobs) && Clear(old(jobs), order, count)
      {
        var id := order[count];
        if !CanRelease(jobs, id) {
          return count, true;
        }
        jobs := jobs[id := jobs[id].(
          status := Pending, lockedAt := None, workerId := None, lastError := Some("Recovered stale processing lock"))];
        count := count + 1;
      }
    }

    /** find_one_and_update: one of the oldest claimable jobs, or none exactly when there is none. */
    method ClaimPendingJob(s: Selector, worker: string, now: int, max: nat) returns (claimed: Option<Claimed>)
      modifies this
      ensures claimed.None? ==> jobs == old(jobs) && Drained(jobs, s, now, max)
      ensures claimed.Some? ==>
                && IsChoice(old(jobs), s, now, max, claimed.value.id)
                && claimed.value.attempts == old(jobs)[claimed.value.id].attempts + 1
                && jobs == Claim(old(jobs), claimed.value.id, worker, now)
                && Due(old(jobs)[claimed.value.id], s, now, max)
                && (forall j | j in old(jobs) && Due(j, s, now, max) ::
                     old(jobs)[claimed.value.id].createdAt <= j.createdAt)
    {
      if !exists j | j in jobs :: Claimable(j, s, now, max) {
        return None;
      }
      OldestExists(jobs, s, now, max);
      var id: nat :| id < |jobs| && IsChoice(jobs, s, now, max, id);
      ClaimIs(jobs, s, now, max, id, worker);
      claimed := Some(Claimed(id, jobs[id].attempts + 1));
      jobs := Claim(jobs, id, worker, now);
    }

    method MarkJobCompleted(c: Claimed)
      modifies this
      ensures jobs == Finish(old(jobs), c.id, Completed, None)
      ensures c.id < |old(jobs)| && old(jobs)[c.id].status == Processing ==>
                Unlocked(old(jobs), jobs, c.id) && jobs[c.id].status == Completed
    {
      if IsProcessing(jobs, c.id) {
        jobs := jobs[c.id := jobs[c.id].(
          status := Completed, lockedAt := None, workerId := None, retryAfter := None, lastError := None)];
      }
    }

    method MarkJobFailedOrRetry(c: Claimed, max: nat, now: int, delay: int, error: string) returns (m: Marked)
      modifies this
      ensures (jobs, m) == FailOrRetry(old(jobs), c, max, now + (if delay < 15 then 15 else delay), error)
      ensures c.id < |old(jobs)| && old(jobs)[c.id].status == Processing ==>
                && (jobs == old(jobs) || Unlocked(old(jobs), jobs, c.id))
                && (m == FailedNow <==> c.attempts >= max)
                && (jobs[c.id].status == Failed <==> c.attempts >= max)
                && (jobs[c.id].status == Pending <==>
                     c.attempts < max && !HasPending(old(jobs), old(jobs)[c.id].key))
                && (jobs[c.id].status == Pending ==>
                     jobs[c.id].retryAfter.Some? && jobs[c.id].retryAfter.value >= now + 15
                     && jobs[c.id].retryAfter.value >= now + delay)
    {
      if c.attempts >= max {
        if IsProcessing(jobs, c.id) {
          jobs := jobs[c.id := jobs[c.id].(
            status := Failed, lockedAt := None, workerId := None, retryAfter := None,
            lastError := Some(ErrorText(error)))];
        }
        return FailedNow;
      }
      var retryAfter := now + if delay < 15 then 15 else delay;
      if IsProcessing(jobs, c.id) {
        if !CanRelease(jobs, c.id) {
          return DuplicateKey;
        }
        jobs := jobs[c.id := jobs[c.id].(
          status := Pending, lockedAt := None, workerId := None, lastError := Some(ErrorText(error)),
          retryAfter := Some(retryAfter))];
      }
      return Retried;
    }

    /** One turn of the loop: claim, process, report. */
    method ProcessNext(process: nat, s: Selector, worker: string, max: nat, delay: int, claimAt: int, markAt: int,
        o: Outcome,
                       ghost w: World, ghost events: seq<Event>, ghost v: World)
      returns (report: Report, ghost events': seq<Event>, ghost v': World)
      requires v == Run(w, events, max) && v.jobs == jobs && process !in v.held
      modifies this
      ensures v' == Run(w, events', max) && v'.jobs == jobs && process !in v'.held
      ensures |v'.claims| == |v.claims| + if report == NothingClaimed then 0 else 1
      ensures report == NothingClaimed ==> v' == v && jobs == old(jobs) && Drained(jobs, s, claimAt, max)
      ensures report != NothingClaimed ==>
                && v'.claims[..|v.claims|] == v.claims
                && (report == CompletedJob <==> !HardFailure(o))
                && (report == FailedJob <==> HardFailure(o) && v'.claims[|v.claims|].attempts >= max)
                && IsEnded(v'.claims[|v.claims|], o, max, jobs)
      ensures EndedStay(old(jobs), jobs)
      ensures Tally(old(jobs), jobs, if report == CompletedJob then 1 else 0, if report == FailedJob then 1 else 0,
                if report == NothingClaimed then 0 else 1)
    {
      events', v' := events, v;
      var claimed := ClaimPendingJob(s, worker, claimAt, max);
      if claimed.None? {
        return NothingClaimed, events', v';
      }
      v', events' := Extend(w, events', v', ClaimEvent(process, worker, s, claimAt, claimed.value.id), max);
      assert v'.claims == v.claims + [claimed.value];
      OneJobTally(old(jobs), jobs, claimed.value.id);
      assert EndedStay(old(jobs), jobs);
      report, events', v' := Settle(process, claimed.value, max, delay, markAt, o, w, events', v');
    }

    /** Marks a claimed job by the outcome of its processing. */
    method Settle(process: nat, c: Claimed, max: nat, delay: int, markAt: int, o: Outcome,
                  ghost w: World, ghost events: seq<Event>, ghost v: World)
      returns (report: Report, ghost events': seq<Event>, ghost v': World)
      requires v == Run(w, events, max) && v.jobs == jobs && process in v.held && v.held[process] == c
      requires IsProcessing(jobs, c.id)
      modifies this
      ensures v' == Run(w, events', max) && v'.jobs == jobs && process !in v'.held && v'.claims == v.claims
      ensures report != NothingClaimed && (report == CompletedJob <==> !HardFailure(o))
      ensures report == FailedJob <==> HardFailure(o) && c.attempts >= max
      ensures IsEnded(c, o, max, jobs) && EndedStay(old(jobs), jobs)
      ensures Tally(old(jobs), jobs, if report == CompletedJob then 1 else 0, if report == FailedJob then 1 else 0, 0)
    {
      if HardFailure(o) {
        report, events', v' := SettleFailure(process, c, max, delay, markAt, o, w, events, v);
      } else {
        CompletionEnds(jobs, c, max, o);
        MarkJobCompleted(c);
        v', events' := Extend(w, events, v, CompleteEvent(process), max);
        report := CompletedJob;
      }
    }

    method SettleFailure(process: nat, c: Claimed, max: nat, delay: int, markAt: int, o: Outcome,
                         ghost w: World, ghost events: seq<Event>, ghost v: World)
      returns (report: Report, ghost events': seq<Event>, ghost v': World)
      requires v == Run(w, events, max) && v.jobs == jobs && process in v.held && v.held[process] == c
      requires IsProcessing(jobs, c.id) && HardFailure(o)
      modifies this
      ensures v' == Run(w, events', max) && v'.jobs == jobs && process !in v'.held && v'.claims == v.claims
      ensures report in {FailedJob, RetriedJob, AbortedReport} && (report == FailedJob <==> c.attempts >= max)
      ensures IsEnded(c, o, max, jobs) && EndedStay(old(jobs), jobs)
      ensures Tally(old(jobs), jobs, 0, if report == FailedJob then 1 else 0, 0)
    {
      var until := markAt + if delay < 15 then 15 else delay;
      FailureEnds(jobs, c, max, until, o);
      var m := MarkJobFailedOrRetry(c, max, markAt, delay, FailureText(o));
      v', events' := Extend(w, events, v, FailEvent(process, until, FailureText(o)), max);
      report := ReportOf(m);
    }

    /** One turn with its bookkeeping. */
    method Turn(process: nat, s: Selector, worker: string, max: nat, delay: int, claimAt: int, markAt: int,
                outcomes: nat -> Outcome, before: Summary, ghost from: seq<Job>, ghost w: World,
                ghost events: seq<Event>, ghost v: World)
      returns (report: Report, after: Summary, ghost events': seq<Event>, ghost v': World)
      requires Follows(w, events, v, max, process, jobs)
      requires Counted(before, outcomes, v.claims[|w.claims|..], max, from, jobs)
      modifies this
      ensures Follows(w, events', v', max, process, jobs)
      ensures Counted(after, outcomes, v'.claims[|w.claims|..], max, from, jobs)
      ensures after == if report == NothingClaimed then before else Record(before, outcomes(before.claimed), report)
      ensures report == NothingClaimed ==> Drained(jobs, s, claimAt, max)
    {
      var o := outcomes(before.claimed);
      report, events', v' := ProcessNext(process, s, worker, max, delay, claimAt, markAt, o, w, events, v);
      after := before;
      if report != NothingClaimed {
        assert v'.claims[|w.claims|..][..before.claimed] == v.claims[|w.claims|..];
        AllEndedStep(outcomes, v.claims[|w.claims|..], v'.claims[|w.claims|..], max, old(jobs), jobs);
        TallyStep(before, outcomes, v.claims[|w.claims|..], v'.claims[|w.claims|..], max, report);
        after := after.(claimed := after.claimed + 1, ingested := after.ingested + o.ingested,
          duplicates := after.duplicates + o.duplicates, errors := after.errors + o.errors);
        if report == FailedJob {
          after := after.(failed := after.failed + 1);
        } else if report == RetriedJob {
          after := after.(retried := after.retried + 1);
        } else if report == CompletedJob {
          after := after.(completed := after.completed + 1);
        }
      }
    }

    /** run_legal_sync_once. The pass is a run of the interleaving model, every claim it makes is reported exactly once
        unless the pass aborts on an index violation, and it makes at most batchSize claims. */
    method RunOnce(process: nat, maxJobs: int, s: Selector, worker: string, maxAttempts: int, timeout: int, poll: int,
                   order: seq<nat>, recoverAt: int, claimAt: nat -> int, markAt: nat -> int, outcomes: nat -> Outcome,
                   ghost w: World)
      returns (summary: Summary, aborted: bool, ghost events: seq<Event>)
      requires w.jobs == jobs && process !in w.held
      requires IsScan(jobs, Cutoff(recoverAt, timeout), order)
      modifies this
      ensures var max := if maxAttempts < 1 then 1 else maxAttempts;
        && Follows(w, events, Run(w, events, max), max, process, jobs)
        && Counted(summary, outcomes, Run(w, events, max).claims[|w.claims|..], max, old(jobs), jobs)
      ensures summary.claimed == summary.completed + summary.retried + summary.failed
                                 + if aborted && summary.claimed > 0 then 1 else 0
      ensures summary.batchSize == (if maxJobs < 1 then 1 else if maxJobs > 100 then 100 else maxJobs)
      ensures summary.claimed <= summary.batchSize
      ensures !aborted && summary.claimed < summary.batchSize ==>
                Drained(jobs, s, claimAt(summary.claimed), if maxAttempts < 1 then 1 else maxAttempts)
      ensures exists recovered :: IsRecovery(old(jobs), order, summary.recoveredStale, recovered)
      ensures (aborted && summary.claimed == 0) || summary.recoveredStale == |order|
    {
      var batchSize: nat := if maxJobs > 100 then 100 else AtLeast(maxJobs, 1);
      var max, delay := AtLeast(maxAttempts, 1), AtLeast(poll, 10);
      ghost var before := jobs;
      var recovered, duplicateKey := RecoverStaleJobs(recoverAt, timeout, order);
      ghost var v;
      v, events := w.(jobs := jobs), ReleaseEvents(order[..recovered], Cutoff(recoverAt, timeout));
      RecoveryIsRun(w, Cutoff(recoverAt, timeout), order, recovered, jobs, max);
      assert IsRecovery(before, order, recovered, jobs);
      RecoveryTally(before, order, recovered, jobs);
      summary := Summary(batchSize, recovered, 0, 0, 0, 0, 0, 0, 0);
      aborted := duplicateKey;
      if !duplicateKey {
        ghost var recovering := jobs;
        summary, aborted, events := RunTurns(process, s, worker, max, delay, summary, claimAt, markAt, outcomes,
          w, events, v);
        TallyFrom(before, recovering, summary, outcomes, Run(w, events, max).claims[|w.claims|..], max, jobs);
      }
    }

    /** The claim loop. */
    method RunTurns(process: nat, s: Selector, worker: string, max: nat, delay: int, start: Summary,
                    claimAt: nat -> int, markAt: nat -> int, outcomes: nat -> Outcome, ghost w: World,
                    ghost events: seq<Event>, ghost v: World)
      returns (summary: Summary, aborted: bool, ghost events': seq<Event>)
      requires v == Run(w, events, max) && v.jobs == jobs && process !in v.held && v.claims == w.claims
      requires start == Summary(start.batchSize, start.recoveredStale, 0, 0, 0, 0, 0, 0, 0)
      modifies this
      ensures var w' := Run(w, events', max);
        && Follows(w, events', w', max, process, jobs)
        && Counted(summary, outcomes, w'.claims[|w.claims|..], max, old(jobs), jobs)
      ensures summary.claimed == summary.completed + summary.retried + summary.failed + if aborted then 1 else 0
      ensures summary.batchSize == start.batchSize && summary.recoveredStale == start.recoveredStale
      ensures summary.claimed <= summary.batchSize
      ensures !aborted && summary.claimed < summary.batchSize ==>
                Drained(jobs, s, claimAt(summary.claimed), max)
    {
      ghost var u := v;
      summary, aborted, events' := start, false, events;
      var done, turns := false, 0;
      while !done && turns < start.batchSize
        invariant Follows(w, events', u, max, process, jobs)
        invariant Counted(summary, outcomes, u.claims[|w.claims|..], max, old(jobs), jobs)
        invariant summary.batchSize == start.batchSize && summary.recoveredStale == start.recoveredStale
        invariant summary.claimed <= turns <= start.batchSize && (aborted ==> done)
        invariant if done && !aborted then Drained(jobs, s, claimAt(summary.claimed), max)
                  else summary.claimed == turns
        invariant summary.claimed == summary.completed + summary.retried + summary.failed + if aborted then 1 else 0
      {
        var report;
        report, summary, events', u := Turn(process, s, worker, max, delay, claimAt(turns), markAt(turns),
          outcomes, summary, old(jobs), w, events', u);
        aborted := report == AbortedReport;
        done := aborted || report == NothingClaimed;
        turns := turns + 1;
      }
    }
  }

  /** The claimed job's final state is what its outcome says: completed when anything was ingested or found a duplicate,
      or nothing went wrong; failed when there were only errors on its last allowed attempt, with the message kept, at
      most 1000 characters of it. */
  predicate IsEnded(c: Claimed, o: Outcome, max: nat, jobs: seq<Job>) {
    && c.id < |jobs|
    && (o.ingested > 0 || o.duplicates > 0 || o.errors == 0 ==> jobs[c.id].status == Completed)
    && (o.ingested == 0 && o.duplicates == 0 && o.errors > 0 && c.attempts >= max ==>
         && jobs[c.id].status == Failed
         && var text := if o.error == "" then "sync failed" else o.error;
           jobs[c.id].lastError == Some(if |text| <= 1000 then text else text[..1000]))
  }

  predicate AllEnded(outcomes: nat -> Outcome, claims: seq<Claimed>, max: nat, jobs: seq<Job>) {
    forall i: nat | i < |claims| :: IsEnded(claims[i], outcomes(i), max, jobs)
  }

  /** v is where the events lead from w, the queue shows it, and the process holds no claim. */
  ghost predicate Follows(w: World, events: seq<Event>, v: World, max: nat, process: nat, jobs: seq<Job>) {
    v == Run(w, events, max) && v.jobs == jobs && process !in v.held && |w.claims| <= |v.claims|
  }

  /** The counters are those of the claims, the claimed jobs have ended as they should, and the queue has gained as many
      ended jobs and attempts as the counters say. */
  ghost predicate Counted(s: Summary, outcomes: nat -> Outcome, claims: seq<Claimed>, max: nat, from: seq<Job>,
      jobs: seq<Job>) {
    && Tallied(s, outcomes, claims, max) && AllEnded(outcomes, claims, max, jobs)
    && Tally(from, jobs, s.completed, s.failed, s.claimed)
  }

  lemma TallyFrom(a: seq<Job>, b: seq<Job>, s: Summary, outcomes: nat -> Outcome, claims: seq<Claimed>, max: nat,
      jobs: seq<Job>)
    requires Tally(a, b, 0, 0, 0) && Counted(s, outcomes, claims, max, b, jobs)
    ensures Counted(s, outcomes, claims, max, a, jobs)
  {
  }

  /** No job may be claimed at this time. */
  predicate Drained(jobs: seq<Job>, s: Selector, now: int, max: nat) {
    forall j | j in jobs :: !Due(j, s, now, max)
  }

  /** Ended jobs stay as they are. */
  predicate EndedStay(a: seq<Job>, b: seq<Job>) {
    |a| == |b| && forall i | 0 <= i < |a| && a[i].status in {Completed, Failed} :: b[i] == a[i]
  }

  lemma FailureEnds(jobs: seq<Job>, c: Claimed, max: nat, until: int, o: Outcome)
    requires IsProcessing(jobs, c.id) && HardFailure(o)
    ensures var (after, m) := FailOrRetry(jobs, c, max, until, FailureText(o));
      && IsEnded(c, o, max, after) && EndedStay(jobs, after)
      && Tally(jobs, after, 0, if ReportOf(m) == FailedJob then 1 else 0, 0)
      && (ReportOf(m) == FailedJob <==> c.attempts >= max)
  {
    FailureIs(jobs, c, max, until, FailureText(o));
    OneJobTally(jobs, FailOrRetry(jobs, c, max, until, FailureText(o)).0, c.id);
  }

  lemma CompletionEnds(jobs: seq<Job>, c: Claimed, max: nat, o: Outcome)
    requires IsProcessing(jobs, c.id) && !HardFailure(o)
    ensures var after := Finish(jobs, c.id, Completed, None);
      IsEnded(c, o, max, after) && EndedStay(jobs, after) && Tally(jobs, after, 1, 0, 0)
  {
    CompletionIs(jobs, c.id);
    OneJobTally(jobs, Finish(jobs, c.id, Completed, None), c.id);
  }

  lemma AllEndedStep(outcomes: nat -> Outcome, before: seq<Claimed>, after: seq<Claimed>, max: nat, a: seq<Job>,
      b: seq<Job>)
    requires AllEnded(outcomes, before, max, a) && EndedStay(a, b)
    requires |after| == |before| + 1 && after[..|before|] == before
    requires IsEnded(after[|before|], outcomes(|before|), max, b)
    ensures AllEnded(outcomes, after, max, b)
  {
    forall i: nat | i < |before| ensures IsEnded(after[i], outcomes(i), max, b) {
      assert after[i] == before[i] && IsEnded(before[i], outcomes(i), max, a);
    }
  }

  datatype Report = NothingClaimed | CompletedJob | FailedJob | RetriedJob | AbortedReport

  function ReportOf(m: Marked): (r: Report)
    ensures r in {FailedJob, RetriedJob, AbortedReport}
  {
    match m case FailedNow => FailedJob case Retried => RetriedJob case DuplicateKey => AbortedReport
  }

  function Ingested(outcomes: nat -> Outcome): nat -> int { (i: nat) => outcomes(i).ingested }
  function Duplicates(outcomes: nat -> Outcome): nat -> int { (i: nat) => outcomes(i).duplicates }
  function Errors(outcomes: nat -> Outcome): nat -> int { (i: nat) => outcomes(i).errors }
  function Succeeded(outcomes: nat -> Outcome): nat -> int {
    (i: nat) => if outcomes(i).ingested == 0 && outcomes(i).duplicates == 0 && outcomes(i).errors > 0 then 0 else 1
  }

  /** 1 for the i-th claim of the pass when it failed on its last allowed attempt. */
  function LastAttempt(outcomes: nat -> Outcome, claims: seq<Claimed>, max: nat): nat -> int {
    (i: nat) =>
      if && i < |claims| && claims[i].attempts >= max
         && outcomes(i).ingested == 0 && outcomes(i).duplicates == 0 && outcomes(i).errors > 0 then 1 else 0
  }

  lemma RangeStep(n: nat, f: nat -> int)
    ensures SumBy(Range(n + 1), f) == SumBy(Range(n), f) + f(n)
  {
    assert Range(n + 1)[..n] == Range(n);
  }

  lemma RangeSteps(outcomes: nat -> Outcome, n: nat)
    ensures SumBy(Range(n + 1), Ingested(outcomes)) == SumBy(Range(n), Ingested(outcomes)) + outcomes(n).ingested
    ensures SumBy(Range(n + 1), Duplicates(outcomes)) == SumBy(Range(n), Duplicates(outcomes)) + outcomes(n).duplicates
    ensures SumBy(Range(n + 1), Errors(outcomes)) == SumBy(Range(n), Errors(outcomes)) + outcomes(n).errors
    ensures SumBy(Range(n + 1), Succeeded(outcomes))
              == SumBy(Range(n), Succeeded(outcomes)) + if HardFailure(outcomes(n)) then 0 else 1
  {
    RangeStep(n, Ingested(outcomes));
    RangeStep(n, Duplicates(outcomes));
    RangeStep(n, Errors(outcomes));
    RangeStep(n, Succeeded(outcomes));
  }

  lemma LastAttemptStep(outcomes: nat -> Outcome, before: seq<Claimed>, after: seq<Claimed>, max: nat)
    requires |after| == |before| + 1 && after[..|before|] == before
    ensures SumBy(Range(|after|), LastAttempt(outcomes, after, max))
              == SumBy(Range(|before|), LastAttempt(outcomes, before, max))
              + if HardFailure(outcomes(|before|)) && after[|before|].attempts >= max then 1 else 0
  {
    RangeStep(|before|, LastAttempt(outcomes, after, max));
    forall i | i in Range(|before|)
      ensures LastAttempt(outcomes, after, max)(i) == LastAttempt(outcomes, before, max)(i)
    {
      assert after[i] == before[i];
    }
    SumExt(Range(|before|), LastAttempt(outcomes, after, max), LastAttempt(outcomes, before, max));
  }

  function AtLeast(x: int, low: nat): nat {
    if x < low then low else x
  }

  /** The counters are what the pass's claims and outcomes add up to. */
  ghost predicate Tallied(s: Summary, outcomes: nat -> Outcome, claims: seq<Claimed>, max: nat) {
    && |claims| == s.claimed
    && s.ingested == SumBy(Range(s.claimed), Ingested(outcomes))
    && s.duplicates == SumBy(Range(s.claimed), Duplicates(outcomes))
    && s.errors == SumBy(Range(s.claimed), Errors(outcomes))
    && s.completed == SumBy(Range(s.claimed), Succeeded(outcomes))
    && s.failed == SumBy(Range(s.claimed), LastAttempt(outcomes, claims, max))
  }

  function Record(s: Summary, o: Outcome, report: Report): Summary {
    s.(claimed := s.claimed + 1, ingested := s.ingested + o.ingested,
       duplicates := s.duplicates + o.duplicates, errors := s.errors + o.errors,
       completed := s.completed + if report == CompletedJob then 1 else 0,
       retried := s.retried + if report == RetriedJob then 1 else 0,
       failed := s.failed + if report == FailedJob then 1 else 0)
  }

  lemma TallyStep(s: Summary, outcomes: nat -> Outcome, before: seq<Claimed>, after: seq<Claimed>, max: nat,
      report: Report)
    requires Tallied(s, outcomes, before, max)
    requires |after| == |before| + 1 && after[..|before|] == before
    requires report == CompletedJob <==> !HardFailure(outcomes(|before|))
    requires report == FailedJob <==> HardFailure(outcomes(|before|)) && after[|before|].attempts >= max
    ensures Tallied(Record(s, outcomes(|before|), report), outcomes, after, max)
  {
    RangeSteps(outcomes, |before|);
    LastAttemptStep(outcomes, before, after, max);
  }

  lemma Extend(w: World, events: seq<Event>, v: World, e: Event, max: nat) returns (v': World, events': seq<Event>)
    requires v == Run(w, events, max)
    ensures v' == Next(v, e, max) && events' == events + [e] && v' == Run(w, events', max)
  {
    v', events' := Next(v, e, max), events + [e];
    assert events'[..|events|] == events;
  }

  lemma {:induction false} OldestExists(jobs: seq<Job>, s: Selector, now: int, max: nat)
    requires exists j | j in jobs :: Claimable(j, s, now, max)
    ensures exists id: nat :: id < |jobs| && IsChoice(jobs, s, now, max, id)
  {
    var front, last := jobs[..|jobs| - 1], |jobs| - 1;
    if exists j | j in front :: Claimable(j, s, now, max) {
      OldestExists(front, s, now, max);
      var id: nat :| id < |front| && IsChoice(front, s, now, max, id);
      if Claimable(jobs[last], s, now, max) && jobs[last].createdAt < jobs[id].createdAt {
        assert forall i: nat | i < |front| && Claimable(jobs[i], s, now, max) ::
            front[id].createdAt <= front[i].createdAt;
        assert IsChoice(jobs, s, now, max, last);
      } else {
        assert forall i: nat | i < |front| && Claimable(jobs[i], s, now, max) ::
            front[id].createdAt <= front[i].createdAt;
        assert IsChoice(jobs, s, now, max, id);
      }
    } else {
      assert forall i: nat | i < |front| :: front[i] in front && !Claimable(jobs[i], s, now, max);
      assert IsChoice(jobs, s, now, max, last);
    }
  }
}
