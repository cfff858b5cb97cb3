// What each queue operation does to a job, field by field, and how a job can end.
module JobStates {
  import opened Wrappers
  import opened Sums
  import opened QueueModel

  // ---- Enqueue and claim ----

  /** A new request adds one pending job without attempts; a request whose query is already pending adds none. */
  lemma EnqueueIs(jobs: seq<Job>, key: QueryKey, now: int)
    ensures var after := Enqueue(jobs, key, now);
      if exists j | j in jobs :: j.status == Pending && j.key == key then after == jobs
      else
        && |after| == |jobs| + 1 && after[..|jobs|] == jobs
        && var j := after[|jobs|];
        && j.key == key && j.status == Pending && j.attempts == 0 && j.createdAt == now
        && j.lockedAt == None && j.workerId == None && j.retryAfter == None && j.lastError == None
  {
  }

  /** The job may be claimed now: pending, attempts left, not waiting for its retry time, of the worker's tenant and
      application. */
  predicate Due(j: Job, s: Selector, now: int, max: nat) {
    && j.status == Pending && j.attempts < max && (j.retryAfter.Some? ==> j.retryAfter.value <= now)
    && (s.tenantId.Some? ==> j.key.tenantId == s.tenantId.value) && (s.appKey.Some? ==> j.key.appKey == s.appKey.value)
  }

  /** A claim takes a due job that no due job is older than, and leaves it processing under the worker's lock with one
      more attempt; everything else about it and every other job stays. */
  lemma ClaimIs(jobs: seq<Job>, s: Selector, now: int, max: nat, id: nat, worker: string)
    requires id < |jobs|
    ensures IsChoice(jobs, s, now, max, id) <==>
              Due(jobs[id], s, now, max) && forall j | j in jobs && Due(j, s, now, max) ::
                jobs[id].createdAt <= j.createdAt
    ensures var after := Claim(jobs, id, worker, now);
      && |after| == |jobs| && (forall i | 0 <= i < |jobs| && i != id :: after[i] == jobs[i])
      && after[id].status == Processing && after[id].attempts == jobs[id].attempts + 1
      && after[id].lockedAt == Some(now) && after[id].workerId == Some(worker)
      && after[id].key == jobs[id].key && after[id].createdAt == jobs[id].createdAt
      && after[id].retryAfter == jobs[id].retryAfter && after[id].lastError == jobs[id].lastError
  {
    assert forall i: nat | i < |jobs| :: jobs[i] in jobs;
  }

  // ---- How a job ends ----

  /** No other job moves, and the job is no longer locked. */
  predicate Unlocked(jobs: seq<Job>, after: seq<Job>, id: nat) {
    && id < |jobs| == |after| && (forall i | 0 <= i < |jobs| && i != id :: after[i] == jobs[i])
    && after[id].lockedAt == None && after[id].workerId == None
    && after[id].key == jobs[id].key && after[id].createdAt == jobs[id].createdAt
    && after[id].attempts == jobs[id].attempts
  }

  /** Completing a job that is processing stores it completed, without retry time or error. */
  lemma CompletionIs(jobs: seq<Job>, id: nat)
    ensures var after := Finish(jobs, id, Completed, None);
      if id < |jobs| && jobs[id].status == Processing then
        && Unlocked(jobs, after, id) && after[id].status == Completed
        && after[id].retryAfter == None && after[id].lastError == None
      else after == jobs
  {
  }

  /** An error message is kept in its first 1000 characters, and a missing one is replaced. */
  lemma ErrorTextIs(error: string)
    ensures error == "" ==> ErrorText(error) == "unknown error"
    ensures error != "" ==> ErrorText(error) <= error && |ErrorText(error)| == if |error| <= 1000 then |error| else 1000
  {
  }

  /** A failure report on a processing job fails it exactly when the claimed attempt was the last allowed one, and puts
      it back with the retry time exactly when it was not and no pending job has its query; otherwise the index refuses
      and nothing changes. A report on a job that is not processing changes nothing. */
  lemma FailureIs(jobs: seq<Job>, c: Claimed, max: nat, until: int, error: string)
    ensures var (after, m) := FailOrRetry(jobs, c, max, until, error);
      if !(c.id < |jobs| && jobs[c.id].status == Processing) then
        after == jobs && m == if c.attempts >= max then FailedNow else Retried
      else if c.attempts >= max then
        && m == FailedNow && Unlocked(jobs, after, c.id) && after[c.id].status == Failed
        && after[c.id].retryAfter == None && after[c.id].lastError == Some(ErrorText(error))
      else if exists j | j in jobs :: j.status == Pending && j.key == jobs[c.id].key then
        m == DuplicateKey && after == jobs
      else
        && m == Retried && Unlocked(jobs, after, c.id) && after[c.id].status == Pending
        && after[c.id].retryAfter == Some(until) && after[c.id].lastError == Some(ErrorText(error))
  {
  }

  /** A released job is pending again, unlocked, with its attempts and its retry time as they were. */
  lemma ReleaseIs(jobs: seq<Job>, id: nat, cutoff: int)
    requires Releases(jobs, id, cutoff)
    ensures jobs[id].status == Processing && jobs[id].lockedAt.Some? && jobs[id].lockedAt.value < cutoff
    ensures !exists j | j in jobs :: j.status == Pending && j.key == jobs[id].key
    ensures var after := jobs[id := Released(jobs[id], RECOVERED)];
      Unlocked(jobs, after, id) && after[id].status == Pending && after[id].retryAfter == jobs[id].retryAfter
  {
  }

  // ---- Over runs ----

  /** Event e is the completion of job i by the process that claimed it, while it is processing. */
  predicate Completes(w: World, e: Event, i: nat) {
    e.CompleteEvent? && e.process in w.held && w.held[e.process].id == i && i < |w.jobs|
    && w.jobs[i].status == Processing
  }

  /** Event e is a failure report on job i's last allowed attempt, while it is processing. */
  predicate Fails(w: World, e: Event, i: nat, max: nat) {
    e.FailEvent? && e.process in w.held && w.held[e.process].id == i && w.held[e.process].attempts >= max
    && i < |w.jobs| && w.jobs[i].status == Processing
  }

  /** A step makes a job completed exactly when it is a completion of it, and failed exactly when it is a failure report
      on its last attempt. */
  lemma StepEndsIff(w: World, e: Event, max: nat, i: nat)
    requires i < |w.jobs|
    ensures |Next(w, e, max).jobs| >= |w.jobs|
    ensures w.jobs[i].status != Completed ==> (Next(w, e, max).jobs[i].status == Completed <==> Completes(w, e, i))
    ensures w.jobs[i].status != Failed ==> (Next(w, e, max).jobs[i].status == Failed <==> Fails(w, e, i, max))
    ensures w.jobs[i].status in {Completed, Failed} ==> Next(w, e, max).jobs[i] == w.jobs[i]
  {
    match e
    case EnqueueEvent(key, at) =>
    case ReleaseEvent(id, cutoff) =>
    case ClaimEvent(p, worker, s, at, id) =>
    case CompleteEvent(p) => if p in w.held { CompletionIs(w.jobs, w.held[p].id); }
    case FailEvent(p, until, error) => if p in w.held { FailureIs(w.jobs, w.held[p], max, until, error); }
    case CrashEvent(p) =>
  }

  lemma NewJobsPend(w: World, e: Event, max: nat)
    ensures forall i | |w.jobs| <= i < |Next(w, e, max).jobs| :: Next(w, e, max).jobs[i].status == Pending
  {
    if e.FailEvent? && e.process in w.held { FailureIs(w.jobs, w.held[e.process], max, e.until, e.error); }
  }

  ghost predicate CompletedAt(w: World, events: seq<Event>, max: nat, i: nat, k: int) {
    0 <= k < |events| && Completes(Run(w, events[..k], max), events[k], i)
  }

  ghost predicate FailedAt(w: World, events: seq<Event>, max: nat, i: nat, k: int) {
    0 <= k < |events| && Fails(Run(w, events[..k], max), events[k], i, max)
  }

  /** Over every run: a job that ends completed was completed by a process that had claimed it, and one that ends failed
      had a failure reported on its last allowed attempt; unless it began that way. */
  lemma {:induction false} EndsHaveCause(w: World, events: seq<Event>, max: nat, i: nat)
    requires i < |Run(w, events, max).jobs|
    ensures |w.jobs| <= |Run(w, events, max).jobs|
    ensures Run(w, events, max).jobs[i].status == Completed && !(i < |w.jobs| && w.jobs[i].status == Completed) ==>
              exists k :: CompletedAt(w, events, max, i, k)
    ensures Run(w, events, max).jobs[i].status == Failed && !(i < |w.jobs| && w.jobs[i].status == Failed) ==>
              exists k :: FailedAt(w, events, max, i, k)
  {
    if |events| == 0 {
    } else {
      var n := |events| - 1;
      var v := Run(w, events[..n], max);
      NewJobsPend(v, events[n], max);
      GrowsOnly(w, events[..n], max);
      if i < |v.jobs| {
        EndsHaveCause(w, events[..n], max, i);
        StepEndsIff(v, events[n], max, i);
        LiftCause(w, events[..n], events[n], max, i);
        assert events[..n] + [events[n]] == events;
        if Completes(v, events[n], i) { assert CompletedAt(w, events, max, i, n); }
        if Fails(v, events[n], i, max) { assert FailedAt(w, events, max, i, n); }
      } else {
        GrowsOnly(w, events, max);
      }
    }
  }

  lemma {:induction false} GrowsOnly(w: World, events: seq<Event>, max: nat)
    ensures |w.jobs| <= |Run(w, events, max).jobs|
  {
    if |events| == 0 {
    } else {
      GrowsOnly(w, events[..|events| - 1], max);
      var v, e := Run(w, events[..|events| - 1], max), events[|events| - 1];
      if e.FailEvent? && e.process in v.held { FailureIs(v.jobs, v.held[e.process], max, e.until, e.error); }
    }
  }

  lemma LiftCause(w: World, front: seq<Event>, last: Event, max: nat, i: nat)
    ensures (exists k :: CompletedAt(w, front, max, i, k)) ==> exists k :: CompletedAt(w, front + [last], max, i, k)
    ensures (exists k :: FailedAt(w, front, max, i, k)) ==> exists k :: FailedAt(w, front + [last], max, i, k)
  {
    var events := front + [last];
    assert forall k | 0 <= k < |front| :: front[..k] == events[..k] && front[k] == events[k];
    if k :| CompletedAt(w, front, max, i, k) { assert CompletedAt(w, events, max, i, k); }
    if k :| FailedAt(w, front, max, i, k) { assert FailedAt(w, events, max, i, k); }
  }

  // ---- Counting ended jobs ----

  const COMPLETED: Job -> int := (j: Job) => if j.status == Completed then 1 else 0
  const FAILED: Job -> int := (j: Job) => if j.status == Failed then 1 else 0
  const ATTEMPTS: Job -> int := (j: Job) => j.attempts

  /** From a to b, so many jobs were completed, failed and attempted. */
  predicate Tally(a: seq<Job>, b: seq<Job>, completed: int, failed: int, attempts: int) {
    && SumBy(b, COMPLETED) == SumBy(a, COMPLETED) + completed
    && SumBy(b, FAILED) == SumBy(a, FAILED) + failed
    && SumBy(b, ATTEMPTS) == SumBy(a, ATTEMPTS) + attempts
  }

  lemma OneJobTally(a: seq<Job>, b: seq<Job>, id: nat)
    requires id < |a| == |b| && forall i | 0 <= i < |a| && i != id :: b[i] == a[i]
    ensures Tally(a, b, COMPLETED(b[id]) - COMPLETED(a[id]), FAILED(b[id]) - FAILED(a[id]),
                  b[id].attempts - a[id].attempts)
  {
    assert b == a[id := b[id]];
    SumUpdate(a, id, b[id], COMPLETED);
    SumUpdate(a, id, b[id], FAILED);
    SumUpdate(a, id, b[id], ATTEMPTS);
  }

  /** Putting jobs back to pending counts as nothing. */
  lemma RecoveryTally(before: seq<Job>, order: seq<nat>, count: nat, after: seq<Job>)
    requires IsRecovery(before, order, count, after) && forall k | 0 <= k < |order| :: IsProcessing(before, order[k])
    ensures Tally(before, after, 0, 0, 0)
  {
    forall i | 0 <= i < |before|
      ensures COMPLETED(after[i]) == COMPLETED(before[i]) && FAILED(after[i]) == FAILED(before[i])
              && ATTEMPTS(after[i]) == ATTEMPTS(before[i])
    {
      if i in order[..count] {
        var k :| 0 <= k < count && order[..count][k] == i;
        assert order[k] == i;
      }
    }
    SumZip(before, after, COMPLETED, COMPLETED);
    SumZip(before, after, FAILED, FAILED);
    SumZip(before, after, ATTEMPTS, ATTEMPTS);
  }
}
