// The legal sync queue: jobs claimed, completed, retried, failed and recovered by concurrent workers.
module QueueModel {
  import opened Wrappers
  import opened Seqs
  import opened Sums

  datatype Status = Pending | Processing | Completed | Failed

  datatype QueryKey = QueryKey(tenantId: string, appKey: string, hash: string)

  /** A queue document; its id is its position, since jobs are only ever inserted and updated. */
  datatype Job = Job(
    key: QueryKey, status: Status, attempts: nat, createdAt: int,
    lockedAt: Option<int>, workerId: Option<string>, retryAfter: Option<int>, lastError: Option<string>)

  /** The tenant and application a worker restricts itself to, if any. */
  datatype Selector = Selector(tenantId: Option<string>, appKey: Option<string>)

  /** What a claim returns: the job and its attempt number. */
  datatype Claimed = Claimed(id: nat, attempts: nat)

  // ---- The database operations ----

  predicate HasPending(jobs: seq<Job>, key: QueryKey) {
    exists j | j in jobs :: j.status == Pending && j.key == key
  }

  /** The unique partial index on pending jobs. */
  ghost predicate PendingUnique(jobs: seq<Job>) {
    forall i, j | 0 <= i < j < |jobs| && jobs[i].status == Pending && jobs[j].status == Pending ::
        jobs[i].key != jobs[j].key
  }

  /** enqueue_auto_sync_query: an existing pending job for the query absorbs the request. */
  function Enqueue(jobs: seq<Job>, key: QueryKey, now: int): seq<Job> {
    if HasPending(jobs, key) then jobs else jobs + [Job(key, Pending, 0, now, None, None, None, None)]
  }

  function Released(j: Job, error: string): Job {
    j.(status := Pending, lockedAt := None, workerId := None, lastError := Some(error))
  }

  /** Moves a job back to pending; refused when the unique index already holds its key. */
  predicate CanRelease(jobs: seq<Job>, id: nat) {
    id < |jobs| && !HasPending(jobs, jobs[id].key)
  }

  function Cutoff(now: int, timeout: int): int {
    now - if timeout < 30 then 30 else timeout
  }

  predicate Stale(j: Job, cutoff: int) {
    j.status == Processing && j.lockedAt.Some? && j.lockedAt.value < cutoff
  }

  /** The stale jobs in the order the database visits them. */
  predicate IsScan(jobs: seq<Job>, cutoff: int, order: seq<nat>) {
    && NoDup(order)
    && (forall k | 0 <= k < |order| :: order[k] < |jobs| && Stale(jobs[order[k]], cutoff))
    && forall i: nat | i < |jobs| && Stale(jobs[i], cutoff) :: i in order
  }

  const RECOVERED := "Recovered stale processing lock"

  /** The first n jobs of the scan can all go back to pending: no two share a query, and none has a pending twin. */
  ghost predicate Clear(jobs: seq<Job>, order: seq<nat>, n: nat)
    requires n <= |order| && forall k | 0 <= k < |order| :: order[k] < |jobs|
  {
    && (forall k | 0 <= k < n :: !HasPending(jobs, jobs[order[k]].key))
    && forall j, k | 0 <= j < k < n :: jobs[order[j]].key != jobs[order[k]].key
  }

  /** update_many is not atomic: it releases one job after another and stops at the first index violation. So count is
      the length of the longest clear prefix of the scan, and exactly those jobs are released. */
  ghost predicate IsRecovery(before: seq<Job>, order: seq<nat>, count: nat, after: seq<Job>) {
    && (forall k | 0 <= k < |order| :: order[k] < |before|)
    && count <= |order| && Clear(before, order, count) && (count < |order| ==> !Clear(before, order, count + 1))
    && |after| == |before|
    && forall i: nat | i < |before| :: after[i] == if i in order[..count] then Released(before[i], RECOVERED)
        else before[i]
  }

  predicate Claimable(j: Job, s: Selector, now: int, max: nat) {
    && j.status == Pending && j.attempts < max
    && (j.retryAfter.None? || j.retryAfter.value <= now)
    && (s.tenantId.None? || s.tenantId.value == j.key.tenantId)
    && (s.appKey.None? || s.appKey.value == j.key.appKey)
  }

  /** One of the oldest claimable jobs. */
  predicate IsChoice(jobs: seq<Job>, s: Selector, now: int, max: nat, id: nat) {
    && id < |jobs| && Claimable(jobs[id], s, now, max)
    && forall i: nat | i < |jobs| && Claimable(jobs[i], s, now, max) :: jobs[id].createdAt <= jobs[i].createdAt
  }

  function Claim(jobs: seq<Job>, id: nat, worker: string, now: int): seq<Job>
    requires id < |jobs|
  {
    jobs[id := jobs[id].(
      status := Processing, workerId := Some(worker), lockedAt := Some(now), attempts := jobs[id].attempts + 1)]
  }

  predicate IsProcessing(jobs: seq<Job>, id: nat) {
    id < |jobs| && jobs[id].status == Processing
  }

  function Finish(jobs: seq<Job>, id: nat, status: Status, error: Option<string>): seq<Job> {
    if IsProcessing(jobs, id)
    then jobs[id := jobs[id].(
      status := status, lockedAt := None, workerId := None, retryAfter := None, lastError := error)]
    else jobs
  }

  /** What is kept of an error message: at most 1000 characters, and something even when there is none. */
  function ErrorText(error: string): string {
    if error == "" then "unknown error" else if |error| > 1000 then error[..1000] else error
  }

  datatype Marked = FailedNow | Retried | DuplicateKey

  /** Fails the job when the claimed attempt was the last, else releases it; only the status is checked. */
  function FailOrRetry(jobs: seq<Job>, c: Claimed, max: nat, until: int, error: string): (seq<Job>, Marked) {
    if c.attempts >= max then (Finish(jobs, c.id, Failed, Some(ErrorText(error))), FailedNow)
    else if !IsProcessing(jobs, c.id) then (jobs, Retried)
    else if !CanRelease(jobs, c.id) then (jobs, DuplicateKey)
    else (jobs[c.id := Released(jobs[c.id], ErrorText(error)).(retryAfter := Some(until))], Retried)
  }

  // ---- Interleavings ----

  /** The queue, the claim each running process still has to report on, and every claim ever made. */
  datatype World = World(jobs: seq<Job>, held: map<nat, Claimed>, claims: seq<Claimed>)

  datatype Event =
    | EnqueueEvent(key: QueryKey, at: int)
    | ReleaseEvent(id: nat, cutoff: int)
    | ClaimEvent(process: nat, worker: string, selector: Selector, at: int, id: nat)
    | CompleteEvent(process: nat)
    | FailEvent(process: nat, until: int, error: string)
    | CrashEvent(process: nat)

  /** One step of a recovery scan: the job is still stale when its turn comes, and the index has room for it. */
  predicate Releases(jobs: seq<Job>, id: nat, cutoff: int) {
    id < |jobs| && Stale(jobs[id], cutoff) && CanRelease(jobs, id)
  }

  function Next(w: World, e: Event, max: nat): World {
    match e
    case EnqueueEvent(key, at) => w.(jobs := Enqueue(w.jobs, key, at))
    case ReleaseEvent(id, cutoff) =>
      if Releases(w.jobs, id, cutoff) then w.(jobs := w.jobs[id := Released(w.jobs[id], RECOVERED)]) else w
    case ClaimEvent(p, worker, s, at, id) =>
      if p !in w.held && IsChoice(w.jobs, s, at, max, id) then
        var c := Claimed(id, w.jobs[id].attempts + 1);
        World(Claim(w.jobs, id, worker, at), w.held[p := c], w.claims + [c])
      else w
    case CompleteEvent(p) =>
      if p in w.held then World(Finish(w.jobs, w.held[p].id, Completed, None), w.held - {p}, w.claims) else w
    case FailEvent(p, until, error) =>
      if p in w.held then World(FailOrRetry(w.jobs, w.held[p], max, until, error).0, w.held - {p}, w.claims) else w
    case CrashEvent(p) => w.(held := w.held - {p})
  }

  function Run(w: World, events: seq<Event>, max: nat): World {
    if |events| == 0 then w else Next(Run(w, events[..|events| - 1], max), events[|events| - 1], max)
  }

  const START := World([], map[], [])

  // ---- Invariants of every interleaving ----

  predicate JobOk(j: Job, max: nat) {
    && j.attempts <= max
    && (j.status == Processing <==> j.lockedAt.Some?) && (j.status == Processing <==> j.workerId.Some?)
  }

  /** Attempts never exceed the limit, locks are held exactly while processing, the index holds, and claims are numbered
      within the attempts made so far, all different. */
  ghost predicate Inv(w: World, max: nat) {
    && (forall i | 0 <= i < |w.jobs| :: JobOk(w.jobs[i], max))
    && PendingUnique(w.jobs)
    && NoDup(w.claims)
    && (forall k | 0 <= k < |w.claims| ::
        w.claims[k].id < |w.jobs| && w.claims[k].attempts <= w.jobs[w.claims[k].id].attempts)
    && (forall p | p in w.held :: w.held[p] in w.claims)
  }

  /** What any database step may do to one job. */
  predicate Evolves(a: Job, b: Job) {
    && a.key == b.key && a.createdAt == b.createdAt && a.attempts <= b.attempts
    && (a.status == Completed || a.status == Failed ==> b == a)
  }

  ghost predicate AllEvolve(a: seq<Job>, b: seq<Job>) {
    |a| <= |b| && forall i | 0 <= i < |a| :: Evolves(a[i], b[i])
  }

  /** The attempts a live job still has. */
  function Remaining(max: nat): Job -> int {
    (j: Job) => if j.status == Pending || j.status == Processing then max - j.attempts else 0
  }

  const RUNNING: Job -> int := (j: Job) => if j.status == Processing then 1 else 0

  ghost predicate JobsOk(jobs: seq<Job>, max: nat) {
    PendingUnique(jobs) && forall i | 0 <= i < |jobs| :: JobOk(jobs[i], max)
  }

  lemma EnqueueOk(jobs: seq<Job>, key: QueryKey, at: int, max: nat)
    requires JobsOk(jobs, max)
    ensures JobsOk(Enqueue(jobs, key, at), max) && AllEvolve(jobs, Enqueue(jobs, key, at))
  {
    assert !HasPending(jobs, key) ==> forall i | 0 <= i < |jobs| :: jobs[i] in jobs;
  }

  lemma ReleaseOk(jobs: seq<Job>, id: nat, cutoff: int, max: nat)
    requires JobsOk(jobs, max) && Releases(jobs, id, cutoff)
    ensures var after := jobs[id := Released(jobs[id], RECOVERED)]; JobsOk(after, max) && AllEvolve(jobs, after)
  {
  }

  lemma FailOk(jobs: seq<Job>, c: Claimed, max: nat, until: int, error: string)
    requires JobsOk(jobs, max)
    ensures var after := FailOrRetry(jobs, c, max, until, error).0; JobsOk(after, max) && AllEvolve(jobs, after)
  {
  }

  lemma NextJobs(w: World, e: Event, max: nat)
    requires Inv(w, max)
    ensures JobsOk(Next(w, e, max).jobs, max) && AllEvolve(w.jobs, Next(w, e, max).jobs)
  {
    match e
    case EnqueueEvent(key, at) => EnqueueOk(w.jobs, key, at, max);
    case ReleaseEvent(id, cutoff) => if Releases(w.jobs, id, cutoff) { ReleaseOk(w.jobs, id, cutoff, max); }
    case ClaimEvent(p, worker, s, at, id) =>
    case CompleteEvent(p) =>
    case FailEvent(p, until, error) =>
      if p in w.held { FailOk(w.jobs, w.held[p], max, until, error); }
    case CrashEvent(p) =>
  }

  lemma NextKeeps(w: World, e: Event, max: nat)
    requires Inv(w, max)
    ensures Inv(Next(w, e, max), max)
  {
    NextJobs(w, e, max);
    if e.ClaimEvent? { }
  }

  /** Over every interleaving: the invariant holds, finished jobs never change, and attempts only grow. */
  lemma {:induction false} RunKeeps(w: World, events: seq<Event>, max: nat)
    requires Inv(w, max)
    ensures Inv(Run(w, events, max), max) && AllEvolve(w.jobs, Run(w, events, max).jobs)
  {
    if |events| == 0 {
    } else {
      var front := events[..|events| - 1];
      RunKeeps(w, front, max);
      NextKeeps(Run(w, front, max), events[|events| - 1], max);
      NextJobs(Run(w, front, max), events[|events| - 1], max);
    }
  }

  lemma RunStep(w: World, events: seq<Event>, k: nat, max: nat)
    requires k < |events|
    ensures Run(w, events[..k + 1], max) == Next(Run(w, events[..k], max), events[k], max)
  {
    assert events[..k + 1][..k] == events[..k];
  }

  // ---- Progress ----

  predicate Falls(b1: int, r1: int, b2: int, r2: int) {
    b2 < b1 || (b2 == b1 && r2 < r1)
  }

  /** Every effective step other than an enqueue lowers (remaining attempts, running jobs) lexicographically. */
  lemma EffectiveStepFalls(w: World, e: Event, max: nat)
    requires Inv(w, max) && !e.EnqueueEvent? && Next(w, e, max).jobs != w.jobs
    ensures Falls(SumBy(w.jobs, Remaining(max)), SumBy(w.jobs, RUNNING),
                  SumBy(Next(w, e, max).jobs, Remaining(max)), SumBy(Next(w, e, max).jobs, RUNNING))
    ensures SumBy(Next(w, e, max).jobs, Remaining(max))
         <= SumBy(w.jobs, Remaining(max)) - (|Next(w, e, max).claims| - |w.claims|)
  {
    var w' := Next(w, e, max);
    match e
    case ReleaseEvent(id, cutoff) => OneJobChanged(w.jobs, w'.jobs, id, max);
    case ClaimEvent(p, worker, s, at, id) => OneJobChanged(w.jobs, w'.jobs, id, max);
    case CompleteEvent(p) => OneJobChanged(w.jobs, w'.jobs, w.held[p].id, max);
    case FailEvent(p, until, error) => OneJobChanged(w.jobs, w'.jobs, w.held[p].id, max);
  }

  lemma OneJobChanged(a: seq<Job>, b: seq<Job>, id: nat, max: nat)
    requires id < |a| == |b| && b == a[id := b[id]]
    ensures SumBy(b, Remaining(max)) == SumBy(a, Remaining(max)) - Remaining(max)(a[id]) + Remaining(max)(b[id])
    ensures SumBy(b, RUNNING) == SumBy(a, RUNNING) - RUNNING(a[id]) + RUNNING(b[id])
  {
    SumUpdate(a, id, b[id], Remaining(max));
    SumUpdate(a, id, b[id], RUNNING);
  }

  lemma ClaimsStep(w: World, e: Event, max: nat)
    requires Inv(w, max)
    ensures var w' := Next(w, e, max);
      && |w.jobs| <= |w'.jobs| <= |w.jobs| + 1
      && |w'.claims| + SumBy(w'.jobs, Remaining(max))
           <= |w.claims| + SumBy(w.jobs, Remaining(max)) + if |w'.jobs| > |w.jobs| then max else 0
  {
    if e.EnqueueEvent? {
      SumAppend(w.jobs, [Job(e.key, Pending, 0, e.at, None, None, None, None)], Remaining(max));
    } else {
      if Next(w, e, max).jobs != w.jobs { EffectiveStepFalls(w, e, max); }
    }
  }

  lemma RemainingNonNegative(jobs: seq<Job>, max: nat)
    requires forall i | 0 <= i < |jobs| :: JobOk(jobs[i], max)
    ensures SumBy(jobs, Remaining(max)) >= 0
  {
    if |jobs| == 0 {
    } else {
      RemainingNonNegative(jobs[..|jobs| - 1], max);
      assert JobOk(jobs[|jobs| - 1], max);
    }
  }

  /** From a to b, claims plus attempts left grow by at most max for each job inserted. */
  predicate Paid(a: World, b: World, max: nat) {
    && |a.jobs| <= |b.jobs|
    && |b.claims| + SumBy(b.jobs, Remaining(max))
         <= |a.claims| + SumBy(a.jobs, Remaining(max)) + max * (|b.jobs| - |a.jobs|)
  }

  lemma Distribute(max: int, i: int, j: int)
    ensures max * (i + j) == max * i + max * j
  {
  }

  lemma {:induction false} PaidAlong(trace: seq<World>, max: nat)
    requires |trace| > 0 && forall k | 0 <= k < |trace| - 1 :: Paid(trace[k], trace[k + 1], max)
    ensures Paid(trace[0], trace[|trace| - 1], max)
  {
    var n := |trace| - 1;
    if n == 0 {
    } else {
      PaidAlong(trace[..n], max);
      assert Paid(trace[n - 1], trace[n - 1 + 1], max);
    }
  }

  lemma PaidStep(w: World, events: seq<Event>, k: nat, max: nat)
    requires Inv(w, max) && k < |events|
    ensures Paid(Run(w, events[..k], max), Run(w, events[..k + 1], max), max)
  {
    RunKeeps(w, events[..k], max);
    RunStep(w, events, k, max);
    EventPaid(Run(w, events[..k], max), events[k], max);
  }

  lemma EventPaid(w: World, e: Event, max: nat)
    requires Inv(w, max)
    ensures Paid(w, Next(w, e, max), max)
  {
    ClaimsStep(w, e, max);
    assert max * 1 == max && max * 0 == 0;
  }

  function Trace(w: World, events: seq<Event>, max: nat): (r: seq<World>)
    ensures |r| == |events| + 1 && forall k :: 0 <= k <= |events| ==> r[k] == Run(w, events[..k], max)
  {
    seq(|events| + 1, k requires 0 <= k <= |events| => Run(w, events[..k], max))
  }

  lemma TracePaid(w: World, events: seq<Event>, max: nat)
    requires Inv(w, max)
    ensures var trace := Trace(w, events, max); Paid(trace[0], trace[|events|], max)
  {
    var trace := Trace(w, events, max);
    forall k | 0 <= k < |trace| - 1 ensures Paid(trace[k], trace[k + 1], max) {
      PaidStep(w, events, k, max);
    }
    PaidAlong(trace, max);
  }

  /** Claims are paid for: over any run, new claims plus remaining attempts never exceed the attempts there were plus
      max for each job inserted. Without enqueues only finitely many claims can happen. */
  lemma ClaimsBounded(w: World, events: seq<Event>, max: nat)
    requires Inv(w, max)
    ensures var w' := Run(w, events, max);
      && SumBy(w'.jobs, Remaining(max)) >= 0 && |w.jobs| <= |w'.jobs|
      && |w'.claims| + SumBy(w'.jobs, Remaining(max))
           <= |w.claims| + SumBy(w.jobs, Remaining(max)) + max * (|w'.jobs| - |w.jobs|)
  {
    TracePaid(w, events, max);
    assert events[..0] == [] && events[..|events|] == events;
    RunKeeps(w, events, max);
    RemainingNonNegative(Run(w, events, max).jobs, max);
  }

  // ---- Ownership ----

  /** Each process's claim is the current one of a job that is still processing, and no two share a job. */
  ghost predicate Exclusive(w: World) {
    && (forall p | p in w.held ::
        IsProcessing(w.jobs, w.held[p].id) && w.jobs[w.held[p].id].attempts == w.held[p].attempts)
    && forall p, q | p in w.held && q in w.held && p != q :: w.held[p].id != w.held[q].id
  }

  ghost predicate AllClaimable(jobs: seq<Job>, max: nat) {
    forall i | 0 <= i < |jobs| && jobs[i].status == Pending :: jobs[i].attempts < max
  }

  /** The event is a recovery that releases a job whose claimer is still running. */
  predicate TakesRunning(w: World, e: Event) {
    e.ReleaseEvent? && Releases(w.jobs, e.id, e.cutoff) && exists p | p in w.held :: w.held[p].id == e.id
  }

  /** A late claim's retry: the job has moved on to its last attempt under another claim. */
  predicate LateRetry(w: World, e: Event, max: nat) {
    e.FailEvent? && e.process in w.held &&
    var c := w.held[e.process];
    c.attempts < max && IsProcessing(w.jobs, c.id) && CanRelease(w.jobs, c.id) && w.jobs[c.id].attempts >= max
  }

  /** The event puts a job back that has used its last attempt. */
  predicate Strands(w: World, e: Event, max: nat) {
    || (e.ReleaseEvent? && Releases(w.jobs, e.id, e.cutoff) && w.jobs[e.id].attempts >= max)
    || LateRetry(w, e, max)
  }

  /** A step breaks ownership exactly when it releases a job whose claimer is still running. */
  lemma OwnershipStepIff(w: World, e: Event, max: nat)
    requires Inv(w, max) && Exclusive(w)
    ensures Exclusive(Next(w, e, max)) <==> !TakesRunning(w, e)
  {
    match e
    case EnqueueEvent(key, at) =>
    case ReleaseEvent(id, cutoff) =>
    case ClaimEvent(p, worker, s, at, id) =>
    case CompleteEvent(p) => FinishOwned(w, p, Completed, None);
    case FailEvent(p, until, error) => FailOwned(w, p, max, until, error);
    case CrashEvent(p) =>
  }

  /** A step strands a job, leaving it pending without an attempt, exactly when it puts back one that has used its
      last. */
  lemma StrandsStepIff(w: World, e: Event, max: nat)
    requires max >= 1 && Inv(w, max) && AllClaimable(w.jobs, max)
    ensures AllClaimable(Next(w, e, max).jobs, max) <==> !Strands(w, e, max)
  {
    var w' := Next(w, e, max);
    match e
    case EnqueueEvent(key, at) =>
    case ReleaseEvent(id, cutoff) => if Releases(w.jobs, id, cutoff) { assert w'.jobs[id].status == Pending; }
    case ClaimEvent(p, worker, s, at, id) =>
    case CompleteEvent(p) =>
    case FailEvent(p, until, error) =>
      if p in w.held && w'.jobs != w.jobs { assert w'.jobs == w.jobs[w.held[p].id := w'.jobs[w.held[p].id]]; }
    case CrashEvent(p) =>
  }

  lemma FinishOwned(w: World, p: nat, status: Status, error: Option<string>)
    requires Exclusive(w) && status != Pending
    ensures p in w.held ==> Exclusive(World(Finish(w.jobs, w.held[p].id, status, error), w.held - {p}, w.claims))
  {
  }

  lemma FailOwned(w: World, p: nat, max: nat, until: int, error: string)
    requires Exclusive(w)
    ensures p in w.held ==>
              Exclusive(World(FailOrRetry(w.jobs, w.held[p], max, until, error).0, w.held - {p}, w.claims))
  {
    FinishOwned(w, p, Failed, Some(error));
  }

  ghost predicate OwnedAt(w: World, events: seq<Event>, max: nat, k: int) {
    0 <= k <= |events| && Exclusive(Run(w, events[..k], max))
  }

  ghost predicate SparesRunningAt(w: World, events: seq<Event>, max: nat, k: int) {
    0 <= k < |events| && !TakesRunning(Run(w, events[..k], max), events[k])
  }

  ghost predicate ClaimableAt(w: World, events: seq<Event>, max: nat, k: int) {
    0 <= k <= |events| && AllClaimable(Run(w, events[..k], max).jobs, max)
  }

  ghost predicate StrandsNoneAt(w: World, events: seq<Event>, max: nat, k: int) {
    0 <= k < |events| && !Strands(Run(w, events[..k], max), events[k], max)
  }

  lemma OwnershipAt(w: World, events: seq<Event>, k: nat, max: nat)
    requires Inv(w, max) && k < |events| && OwnedAt(w, events, max, k)
    ensures OwnedAt(w, events, max, k + 1) <==> SparesRunningAt(w, events, max, k)
  {
    RunStep(w, events, k, max);
    RunKeeps(w, events[..k], max);
    OwnershipStepIff(Run(w, events[..k], max), events[k], max);
  }

  lemma ClaimabilityAt(w: World, events: seq<Event>, k: nat, max: nat)
    requires max >= 1 && Inv(w, max) && k < |events| && ClaimableAt(w, events, max, k)
    ensures ClaimableAt(w, events, max, k + 1) <==> StrandsNoneAt(w, events, max, k)
  {
    RunStep(w, events, k, max);
    RunKeeps(w, events[..k], max);
    StrandsStepIff(Run(w, events[..k], max), events[k], max);
  }

  /** Along a run every claim stays exclusive until reported exactly as long as no recovery releases a job whose claimer
      is still running. Recovering a crashed worker's jobs is harmless. */
  lemma OwnershipRunIff(w: World, events: seq<Event>, max: nat)
    requires Inv(w, max) && Exclusive(w)
    ensures (forall k | 0 <= k <= |events| :: OwnedAt(w, events, max, k))
            <==> forall k | 0 <= k < |events| :: SparesRunningAt(w, events, max, k)
  {
    assert events[..0] == [];
    assert OwnedAt(w, events, max, 0);
    var p, q := (k: int) => OwnedAt(w, events, max, k), (k: int) => SparesRunningAt(w, events, max, k);
    forall k | 0 <= k < |events| && p(k) ensures p(k + 1) <==> q(k) {
      OwnershipAt(w, events, k, max);
    }
    IffAlong(p, q, |events|);
    assert forall k :: p(k) <==> OwnedAt(w, events, max, k);
    assert forall k :: q(k) <==> SparesRunningAt(w, events, max, k);
  }

  /** Along a run every pending job stays claimable exactly as long as no event puts back a job on its last attempt. */
  lemma ClaimableRunIff(w: World, events: seq<Event>, max: nat)
    requires max >= 1 && Inv(w, max) && AllClaimable(w.jobs, max)
    ensures (forall k | 0 <= k <= |events| :: ClaimableAt(w, events, max, k))
            <==> forall k | 0 <= k < |events| :: StrandsNoneAt(w, events, max, k)
  {
    assert events[..0] == [];
    assert ClaimableAt(w, events, max, 0);
    var p, q := (k: int) => ClaimableAt(w, events, max, k), (k: int) => StrandsNoneAt(w, events, max, k);
    forall k | 0 <= k < |events| && p(k) ensures p(k + 1) <==> q(k) {
      ClaimabilityAt(w, events, k, max);
    }
    IffAlong(p, q, |events|);
    assert forall k :: p(k) <==> ClaimableAt(w, events, max, k);
    assert forall k :: q(k) <==> StrandsNoneAt(w, events, max, k);
  }

  /** In runs where no lock goes stale both hold throughout. */
  lemma OwnershipWithoutStaleLocks(w: World, events: seq<Event>, max: nat)
    requires max >= 1 && Inv(w, max) && Exclusive(w) && AllClaimable(w.jobs, max)
    requires forall k | 0 <= k < |events| && events[k].ReleaseEvent? ::
               !Releases(Run(w, events[..k], max).jobs, events[k].id, events[k].cutoff)
    ensures forall k | 0 <= k <= |events| :: OwnedAt(w, events, max, k) && ClaimableAt(w, events, max, k)
  {
    OwnershipRunIff(w, events, max);
    assert forall k | 0 <= k < |events| :: SparesRunningAt(w, events, max, k);
    forall k | 0 <= k < |events| ensures StrandsNoneAt(w, events, max, k) {
      assert OwnedAt(w, events, max, k);
      if !events[k].ReleaseEvent? { }
    }
    ClaimableRunIff(w, events, max);
  }

  /** With a stale recovery, ownership fails: a late worker completes the job another process has re-claimed. */
  lemma LateCompletion(key: QueryKey) returns (events: seq<Event>)
    ensures var w := Run(START, events, 4);
      && 0 in w.held && 1 in w.held && w.held[0].id == w.held[1].id == 0 && IsProcessing(w.jobs, 0)
      && w.jobs[0].attempts == w.held[1].attempts && w.held[0].attempts != w.held[1].attempts
      && Next(w, CompleteEvent(0), 4).jobs[0].status == Completed
  {
    var any := Selector(None, None);
    var e0, e1 := EnqueueEvent(key, 0), ClaimEvent(0, "a", any, 1, 0);
    var e2, e3 := ReleaseEvent(0, 2), ClaimEvent(1, "b", any, 3, 0);
    var j := Job(key, Pending, 0, 0, None, None, None, None);
    var k := j.(status := Processing, workerId := Some("a"), lockedAt := Some(1), attempts := 1);
    var l := Released(k, RECOVERED);
    var w2 := World([k], map[0 := Claimed(0, 1)], [Claimed(0, 1)]);
    assert Run(START, [e0], 4) == World([j], map[], []) by { assert [e0][..0] == []; }
    assert Run(START, [e0, e1], 4) == w2 by { assert [e0, e1][..1] == [e0]; }
    assert Run(START, [e0, e1, e2], 4) == w2.(jobs := [l]) by {
      assert [e0, e1, e2][..2] == [e0, e1];
      assert [k][0 := l] == [l];
    }
    events := [e0, e1, e2, e3];
    assert events[..3] == [e0, e1, e2];
  }

  /** And it strands jobs: with a single allowed attempt, one recovery leaves a pending job no worker can claim. */
  lemma RecoveryStrands(key: QueryKey) returns (events: seq<Event>)
    ensures Stuck(Run(START, events, 1).jobs, 0, 1)
  {
    var e0, e1, e2 := EnqueueEvent(key, 0), ClaimEvent(0, "a", Selector(None, None), 1, 0), ReleaseEvent(0, 2);
    var j := Job(key, Pending, 0, 0, None, None, None, None);
    var k := j.(status := Processing, workerId := Some("a"), lockedAt := Some(1), attempts := 1);
    assert Run(START, [e0], 1) == World([j], map[], []) by { assert [e0][..0] == []; }
    assert Run(START, [e0, e1], 1) == World([k], map[0 := Claimed(0, 1)], [Claimed(0, 1)]) by { assert [e0, e1][..1]
        == [e0]; }
    events := [e0, e1, e2];
    assert events[..2] == [e0, e1];
    assert Run(START, [e0, e1], 1).jobs[0] == k;
  }

  // ---- Stuck jobs ----

  /** Pending, but out of attempts: the claim filter never selects it. */
  predicate Stuck(jobs: seq<Job>, id: nat, max: nat) {
    id < |jobs| && jobs[id].status == Pending && jobs[id].attempts >= max
  }

  // ---- A whole recovery scan ----

  /** A scan releases job id exactly when id comes up while the scan is still clear: the jobs up to and including it
      have different queries, none of which is already pending. */
  lemma ReleasedIff(jobs: seq<Job>, order: seq<nat>, count: nat, after: seq<Job>, id: nat)
    requires IsRecovery(jobs, order, count, after)
    ensures id in order[..count] <==> exists k | 0 <= k < |order| :: order[k] == id && Clear(jobs, order, k + 1)
  {
    if id in order[..count] {
      var k :| 0 <= k < count && order[..count][k] == id;
      assert order[k] == id && Clear(jobs, order, k + 1);
    }
    if k :| 0 <= k < |order| && order[k] == id && Clear(jobs, order, k + 1) {
      assert k < count;
      assert order[..count][k] == id;
    }
  }

  /** A scan strands a job exactly when it releases one that has used its last attempt. */
  lemma RecoveryStrandsIff(jobs: seq<Job>, order: seq<nat>, count: nat, after: seq<Job>, max: nat, id: nat)
    requires IsRecovery(jobs, order, count, after) && id < |jobs| && !Stuck(jobs, id, max)
    ensures Stuck(after, id, max) <==>
              jobs[id].attempts >= max && exists k | 0 <= k < |order| :: order[k] == id && Clear(jobs, order, k + 1)
  {
    ReleasedIff(jobs, order, count, after, id);
  }

  /** A scan leaves every claim exclusive exactly when it releases no job whose claimer is still running. */
  lemma RecoveryOwnershipIff(w: World, cutoff: int, order: seq<nat>, count: nat, after: seq<Job>, max: nat)
    requires Inv(w, max) && Exclusive(w) && IsScan(w.jobs, cutoff, order) && IsRecovery(w.jobs, order, count, after)
    ensures Exclusive(w.(jobs := after)) <==>
              forall p, k | p in w.held && 0 <= k < |order| && order[k] == w.held[p].id :: !Clear(w.jobs, order, k + 1)
  {
    forall p | p in w.held
      ensures w.held[p].id in order[..count] <==>
                exists k | 0 <= k < |order| :: order[k] == w.held[p].id && Clear(w.jobs, order, k + 1)
    {
      ReleasedIff(w.jobs, order, count, after, w.held[p].id);
    }
    assert Exclusive(w.(jobs := after)) <==> forall p | p in w.held :: w.held[p].id !in order[..count];
  }

  function ReleaseEvents(order: seq<nat>, cutoff: int): (r: seq<Event>)
    ensures |r| == |order| && forall k :: 0 <= k < |r| ==> r[k] == ReleaseEvent(order[k], cutoff)
  {
    seq(|order|, k requires 0 <= k < |order| => ReleaseEvent(order[k], cutoff))
  }

  /** The jobs after the first n of them are released. */
  ghost predicate ReleasedSoFar(before: seq<Job>, order: seq<nat>, n: nat, jobs: seq<Job>) {
    && n <= |order| && |jobs| == |before|
    && forall i: nat | i < |before| :: jobs[i] == if i in order[..n] then Released(before[i], RECOVERED) else before[i]
  }

  function AfterReleases(before: seq<Job>, order: seq<nat>, n: nat): (r: seq<Job>)
    requires n <= |order|
    ensures ReleasedSoFar(before, order, n, r)
  {
    seq(|before|, i requires 0 <= i < |before| =>
      if i in order[..n] then Released(before[i], RECOVERED) else before[i])
  }

  lemma {:induction false} ScanIsRun(w: World, cutoff: int, order: seq<nat>, n: nat, max: nat)
    requires IsScan(w.jobs, cutoff, order) && n <= |order| && Clear(w.jobs, order, n)
    ensures Run(w, ReleaseEvents(order[..n], cutoff), max) == w.(jobs := AfterReleases(w.jobs, order, n))
  {
    var events := ReleaseEvents(order[..n], cutoff);
    if n == 0 {
      assert AfterReleases(w.jobs, order, 0) == w.jobs;
    } else {
      ScanIsRun(w, cutoff, order, n - 1, max);
      assert events[..n - 1] == ReleaseEvents(order[..n - 1], cutoff);
      ScanStep(w, cutoff, order, n - 1, max);
    }
  }

  lemma ScanStep(w: World, cutoff: int, order: seq<nat>, n: nat, max: nat)
    requires IsScan(w.jobs, cutoff, order) && n < |order| && Clear(w.jobs, order, n) && Clear(w.jobs, order, n + 1)
    ensures Next(w.(jobs := AfterReleases(w.jobs, order, n)), ReleaseEvent(order[n], cutoff), max)
         == w.(jobs := AfterReleases(w.jobs, order, n + 1))
  {
    var prev := AfterReleases(w.jobs, order, n);
    assert AfterReleases(w.jobs, order, n + 1) == prev[order[n] := Released(prev[order[n]], RECOVERED)];
  }

  /** A scan that nothing interrupts is a run of single releases. */
  lemma RecoveryIsRun(w: World, cutoff: int, order: seq<nat>, count: nat, after: seq<Job>, max: nat)
    requires IsScan(w.jobs, cutoff, order) && IsRecovery(w.jobs, order, count, after)
    ensures Run(w, ReleaseEvents(order[..count], cutoff), max) == w.(jobs := after)
  {
    ScanIsRun(w, cutoff, order, count, max);
    assert after == AfterReleases(w.jobs, order, count);
  }

  /** No event moves a stuck job, and while it sits there no enqueue of its query inserts a fresh one. */
  lemma StuckStep(w: World, e: Event, max: nat, id: nat)
    requires Inv(w, max) && Stuck(w.jobs, id, max)
    ensures id < |Next(w, e, max).jobs| && Next(w, e, max).jobs[id] == w.jobs[id]
    ensures e.EnqueueEvent? && e.key == w.jobs[id].key ==> Next(w, e, max) == w
    ensures forall k | |w.claims| <= k < |Next(w, e, max).claims| :: Next(w, e, max).claims[k].id != id
  {
    match e
    case EnqueueEvent(key, at) => assert w.jobs[id] in w.jobs;
    case ReleaseEvent(i, cutoff) =>
    case ClaimEvent(p, worker, s, at, i) =>
    case CompleteEvent(p) =>
    case FailEvent(p, until, error) =>
    case CrashEvent(p) =>
  }

  lemma {:induction false} StuckRun(w: World, events: seq<Event>, max: nat, id: nat)
    requires Inv(w, max) && Stuck(w.jobs, id, max)
    ensures var w' := Run(w, events, max);
      && id < |w'.jobs| && w'.jobs[id] == w.jobs[id]
      && |w.claims| <= |w'.claims| && forall k | |w.claims| <= k < |w'.claims| :: w'.claims[k].id != id
  {
    if |events| == 0 {
    } else {
      var front := events[..|events| - 1];
      StuckRun(w, front, max, id);
      RunKeeps(w, front, max);
      StuckStep(Run(w, front, max), events[|events| - 1], max, id);
    }
  }

  /** A stuck job is stuck for ever: it is never claimed again, it never finishes, and it stays the only pending job of
      its query, so no later request for that query is ever served. */
  lemma StuckForever(w: World, events: seq<Event>, max: nat, id: nat)
    requires Inv(w, max) && Stuck(w.jobs, id, max)
    ensures var w' := Run(w, events, max);
      && id < |w'.jobs| && w'.jobs[id] == w.jobs[id]
      && |w.claims| <= |w'.claims| && (forall k | |w.claims| <= k < |w'.claims| :: w'.claims[k].id != id)
      && forall i | 0 <= i < |w'.jobs| && i != id && w'.jobs[i].key == w.jobs[id].key :: w'.jobs[i].status != Pending
  {
    StuckRun(w, events, max, id);
    RunKeeps(w, events, max);
  }

}
