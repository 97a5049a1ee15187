/**
 * The durable notification push outbox (`notification-push.ts`): the job rows and
 * the conditional updates that sweepers, dead-letter recovery and queue workers
 * run on them, interleaved in any order. Every step reads its own clock; nothing
 * about fencing depends on those clocks agreeing.
 */
module PushOutbox {
  import opened Wrappers

  const MAX_ATTEMPTS: nat := 5
  const STALE_PROCESSING_MS: nat := 120000
  const STALE_INFLIGHT_MS: nat := 900000
  const JOB_RETENTION_MS: nat := 7776000000

  datatype Status = Pending | Queued | Processing | RetryWait | Delivered | Failed

  /** A job row; `pending` is the stored list of pushers still to reach. */
  datatype Job = Job(
    status: Status,
    token: Option<nat>,
    attempts: nat,
    pending: Option<seq<Id>>,
    nextAttemptAt: int,
    updatedAt: int)

  predicate Terminal(s: Status) {
    s == Delivered || s == Failed
  }

  // ---- the conditional updates, one row at a time ----

  /** The trigger's insert for a new inbox row. */
  function InsertJob(jobs: map<Id, Job>, id: Id, now: int): map<Id, Job> {
    if id in jobs then jobs else jobs[id := Job(Pending, None, 0, None, now, now)]
  }

  /** Sweep: give back in-flight rows whose queue message is gone, at the cost of one attempt. */
  function ReclaimStale(job: Job, now: int): Job {
    if (job.status == Queued || job.status == Processing) && job.updatedAt <= now - STALE_INFLIGHT_MS then
      job.(status := if job.attempts + 1 >= MAX_ATTEMPTS then Failed else Pending,
           attempts := job.attempts + 1, token := None, updatedAt := now)
    else job
  }

  /** Sweep: mark as queued the selected rows that are still waiting. */
  function MarkQueued(job: Job, now: int): Job {
    if job.status == Pending || job.status == RetryWait then job.(status := Queued, token := None, updatedAt := now) else job
  }

  /** Dead-letter recovery: any live row goes back to waiting, at the cost of one attempt. */
  function RecoverDeadLettered(job: Job, now: int): Job {
    if Terminal(job.status) then job
    else job.(status := if job.attempts + 1 >= MAX_ATTEMPTS then Failed else RetryWait,
              attempts := job.attempts + 1, token := None, nextAttemptAt := now, updatedAt := now)
  }

  /** Worker: a stale processing row goes back to queued if it is still the row that was read. */
  predicate MayReclaim(job: Job, seen: Job) {
    job.status == Processing && job.updatedAt == seen.updatedAt
  }

  /** Worker: the claim compare-and-set, honouring the backoff schedule. */
  predicate MayClaim(job: Job, seen: Job, now: int) {
    job.status == seen.status && job.updatedAt == seen.updatedAt && job.nextAttemptAt <= now
  }

  /** The `processingLeaseWhere` predicate. */
  predicate HoldsLease(job: Job, token: nat) {
    job.status == Processing && job.token == Some(token)
  }

  /** What a worker holding a lease may write. */
  datatype LeaseWrite =
    | StorePending(ids: seq<Id>, at: int)
    | Refresh(at: int)
    | Finish(at: int)
    | GiveUp(remaining: Option<seq<Id>>, retryAt: int, at: int)   // None leaves the stored list alone

  function ApplyLeaseWrite(job: Job, w: LeaseWrite, seenAttempts: nat): Job {
    match w
    case StorePending(ids, at) => job.(pending := Some(ids), updatedAt := at)
    case Refresh(at) => job.(updatedAt := at)
    case Finish(at) => job.(status := Delivered, token := None, pending := Some([]), updatedAt := at)
    case GiveUp(remaining, retryAt, at) =>
      var next := job.(token := None, attempts := seenAttempts + 1, updatedAt := at,
                       pending := if remaining.Some? then remaining else job.pending);
      if seenAttempts + 1 >= MAX_ATTEMPTS then next.(status := Failed)
      else next.(status := RetryWait, nextAttemptAt := retryAt)
  }

  // ---- the interleaved system ----

  datatype Local =
    | Idle
    | Seen(jobId: Id, job: Job, readAt: int)
    | Leased(jobId: Id, token: nat, attempts: nat, pending: Option<seq<Id>>)   // count and list of the row read before the claim

  /** `nextToken` stands for the random token source: every claim draws an unused one. */
  datatype World = World(jobs: map<Id, Job>, workers: map<nat, Local>, nextToken: nat)

  datatype Step =
    | Insert(jobId: Id, now: int)
    | SweepReclaim(now: int)
    | SweepQueue(jobIds: set<Id>, now: int)
    | Recover(jobId: Id, now: int)
    | Purge(jobIds: set<Id>, now: int)
    | InboxRowDeleted(jobId: Id)
    | Read(worker: nat, jobId: Id, now: int)
    | Reclaim(worker: nat, now: int)
    | Claim(worker: nat, now: int)
    | Write(worker: nat, write: LeaseWrite)
    | Crash(worker: nat)

  function LocalOf(s: World, i: nat): Local {
    if i in s.workers then s.workers[i] else Idle
  }

  /** Reading a row: terminal rows are acknowledged, a fresh processing row is left to its owner. */
  function DoRead(s: World, i: nat, id: Id, now: int): World {
    if id in s.jobs && !Terminal(s.jobs[id].status)
       && !(s.jobs[id].status == Processing && now - s.jobs[id].updatedAt < STALE_PROCESSING_MS)
    then s.(workers := s.workers[i := Seen(id, s.jobs[id], now)])
    else s.(workers := s.workers[i := Idle])
  }

  function DoReclaim(s: World, i: nat, now: int): World {
    match LocalOf(s, i)
    case Seen(id, seen, readAt) =>
      if seen.status != Processing then s
      else if id in s.jobs && MayReclaim(s.jobs[id], seen) then
        s.(jobs := s.jobs[id := s.jobs[id].(status := Queued, token := None, updatedAt := now)],
           workers := s.workers[i := Seen(id, seen.(status := Queued, token := None, updatedAt := now), readAt)])
      else s.(workers := s.workers[i := Idle])
    case _ => s
  }

  function DoClaim(s: World, i: nat, now: int): World {
    match LocalOf(s, i)
    case Seen(id, seen, readAt) =>
      if seen.status == Processing then s
      else if id in s.jobs && MayClaim(s.jobs[id], seen, now) then
        World(s.jobs[id := s.jobs[id].(status := Processing, token := Some(s.nextToken), updatedAt := now)],
              s.workers[i := Leased(id, s.nextToken, seen.attempts, seen.pending)], s.nextToken + 1)
      else s.(workers := s.workers[i := Idle], nextToken := s.nextToken + 1)
    case _ => s
  }

  /** A lease write; a worker that finds its lease gone acknowledges and stops. */
  function DoWrite(s: World, i: nat, w: LeaseWrite): World {
    match LocalOf(s, i)
    case Leased(id, token, attempts, _) =>
      if id in s.jobs && HoldsLease(s.jobs[id], token) then
        s.(jobs := s.jobs[id := ApplyLeaseWrite(s.jobs[id], w, attempts)],
           workers := if w.Finish? || w.GiveUp? then s.workers[i := Idle] else s.workers)
      else s.(workers := s.workers[i := Idle])
    case _ => s
  }

  function Next(s: World, step: Step): World {
    match step
    case Insert(id, now) => s.(jobs := InsertJob(s.jobs, id, now))
    case SweepReclaim(now) => s.(jobs := map id | id in s.jobs :: ReclaimStale(s.jobs[id], now))
    case SweepQueue(ids, now) => s.(jobs := map id | id in s.jobs :: if id in ids then MarkQueued(s.jobs[id], now) else s.jobs[id])
    case Recover(id, now) => if id in s.jobs then s.(jobs := s.jobs[id := RecoverDeadLettered(s.jobs[id], now)]) else s
    case Purge(ids, now) => s.(jobs := map id | id in s.jobs && !(id in ids && s.jobs[id].updatedAt <= now - JOB_RETENTION_MS) :: s.jobs[id])
    case InboxRowDeleted(id) =>
      if id in s.jobs && s.jobs[id].status in {Pending, Queued, RetryWait} then s.(jobs := s.jobs - {id}) else s
    case Read(i, id, now) => DoRead(s, i, id, now)
    case Reclaim(i, now) => DoReclaim(s, i, now)
    case Claim(i, now) => DoClaim(s, i, now)
    case Write(i, w) => DoWrite(s, i, w)
    case Crash(i) => s.(workers := s.workers[i := Idle])
  }

  function Run(s: World, steps: seq<Step>): World {
    if steps == [] then s else Next(Run(s, steps[..|steps| - 1]), steps[|steps| - 1])
  }

  const EMPTY := World(map[], map[], 0)

  // ---- the invariant ----

  /** A token is present exactly while processing; a live job has attempts left. */
  ghost predicate JobOk(job: Job, nextToken: nat) {
    && (job.token.Some? <==> job.status == Processing)
    && (job.token.Some? ==> job.token.value < nextToken)
    && (!Terminal(job.status) ==> job.attempts < MAX_ATTEMPTS)
  }

  ghost predicate JobsOk(s: World) {
    && (forall id <- s.jobs :: JobOk(s.jobs[id], s.nextToken))
    && (forall a <- s.jobs, b <- s.jobs :: a != b && s.jobs[a].token.Some? ==> s.jobs[a].token != s.jobs[b].token)
  }

  /** Leases are drawn once: no two workers share a token, and no row other than its own carries it. */
  ghost predicate LeasesOk(s: World) {
    && (forall i <- s.workers :: s.workers[i].Leased? ==> s.workers[i].token < s.nextToken)
    && (forall i <- s.workers, j <- s.workers :: i != j && s.workers[i].Leased? && s.workers[j].Leased? ==> s.workers[i].token != s.workers[j].token)
    && (forall i <- s.workers, id <- s.jobs :: s.workers[i].Leased? && s.jobs[id].token == Some(s.workers[i].token) ==> id == s.workers[i].jobId)
  }

  /** A worker only goes on with a row it saw alive, and with a processing row only if it was stale by the worker's clock. */
  ghost predicate SnapshotsOk(s: World) {
    forall i <- s.workers :: s.workers[i].Seen? ==>
      && !Terminal(s.workers[i].job.status)
      && (s.workers[i].job.status == Processing ==> s.workers[i].readAt - s.workers[i].job.updatedAt >= STALE_PROCESSING_MS)
  }

  ghost predicate Inv(s: World) {
    JobsOk(s) && LeasesOk(s) && SnapshotsOk(s)
  }

  /** A step that issues no token, and lets go of rows, tokens and leases only, keeps the invariant. */
  lemma {:induction false} NoNewTokenKeepsInv(s: World, s': World)
    requires Inv(s) && s'.nextToken == s.nextToken
    requires forall id <- s'.jobs :: JobOk(s'.jobs[id], s.nextToken)
    requires forall id <- s'.jobs :: s'.jobs[id].token.Some? ==> id in s.jobs && s.jobs[id].token == s'.jobs[id].token
    requires forall i <- s'.workers :: s'.workers[i].Leased? ==> i in s.workers && s.workers[i] == s'.workers[i]
    requires SnapshotsOk(s')
    ensures Inv(s')
  {
  }

  lemma {:induction false} TableStepKeepsInv(s: World, step: Step)
    requires Inv(s)
    requires !(step.Read? || step.Reclaim? || step.Claim? || step.Write? || step.Crash?)
    ensures Inv(Next(s, step))
  {
    NoNewTokenKeepsInv(s, Next(s, step));
  }

  lemma {:induction false} ReadKeepsInv(s: World, i: nat, id: Id, now: int)
    requires Inv(s)
    ensures Inv(DoRead(s, i, id, now))
  {
    NoNewTokenKeepsInv(s, DoRead(s, i, id, now));
  }

  lemma {:induction false} ReclaimKeepsInv(s: World, i: nat, now: int)
    requires Inv(s)
    ensures Inv(DoReclaim(s, i, now))
  {
    NoNewTokenKeepsInv(s, DoReclaim(s, i, now));
  }

  lemma {:induction false} WriteKeepsInv(s: World, i: nat, w: LeaseWrite)
    requires Inv(s)
    ensures Inv(DoWrite(s, i, w))
  {
    NoNewTokenKeepsInv(s, DoWrite(s, i, w));
  }

  /** A won claim, on the job table and on the worker table. */
  lemma {:induction false} WonClaimKeepsJobs(s: World, id: Id, now: int)
    requires JobsOk(s) && id in s.jobs && !Terminal(s.jobs[id].status)
    ensures JobsOk(World(s.jobs[id := s.jobs[id].(status := Processing, token := Some(s.nextToken), updatedAt := now)], s.workers, s.nextToken + 1))
  {
    assert forall other <- s.jobs :: s.jobs[other].token != Some(s.nextToken);
  }

  lemma {:induction false} ClaimKeepsInv(s: World, i: nat, now: int)
    requires Inv(s)
    ensures Inv(DoClaim(s, i, now))
  {
    var s' := DoClaim(s, i, now);
    var l := LocalOf(s, i);
    if l.Seen? && l.job.status != Processing && l.jobId in s.jobs && MayClaim(s.jobs[l.jobId], l.job, now) {
      WonClaimKeepsJobs(s, l.jobId, now);
      assert JobsOk(s');
      assert forall id <- s'.jobs :: s'.jobs[id].token == Some(s.nextToken) ==> id == l.jobId;
    }
  }

  lemma {:induction false} NextKeepsInv(s: World, step: Step)
    requires Inv(s)
    ensures Inv(Next(s, step))
  {
    match step
    case Read(i, id, now) => ReadKeepsInv(s, i, id, now);
    case Reclaim(i, now) => ReclaimKeepsInv(s, i, now);
    case Claim(i, now) => ClaimKeepsInv(s, i, now);
    case Write(i, w) => WriteKeepsInv(s, i, w);
    case Crash(i) => NoNewTokenKeepsInv(s, Next(s, step));
    case _ => TableStepKeepsInv(s, step);
  }

  lemma {:induction false} RunKeepsInv(s: World, steps: seq<Step>)
    requires Inv(s)
    ensures Inv(Run(s, steps))
  {
    if steps != [] {
      RunKeepsInv(s, steps[..|steps| - 1]);
      NextKeepsInv(Run(s, steps[..|steps| - 1]), steps[|steps| - 1]);
    }
  }

  // ---- what every run guarantees ----

  /**
   * In every reachable state: tokens mark exactly the processing rows, live rows
   * are below the attempt budget, and at most one worker's lease matches a row.
   */
  lemma {:induction false} OutboxInvariant(steps: seq<Step>)
    ensures var s := Run(EMPTY, steps);
      && (forall id <- s.jobs :: s.jobs[id].token.Some? <==> s.jobs[id].status == Processing)
      && (forall id <- s.jobs :: !Terminal(s.jobs[id].status) ==> s.jobs[id].attempts < MAX_ATTEMPTS)
      && (forall i <- s.workers, j <- s.workers, id <- s.jobs ::
            s.workers[i].Leased? && s.workers[j].Leased? && HoldsLease(s.jobs[id], s.workers[i].token) && HoldsLease(s.jobs[id], s.workers[j].token)
            ==> i == j)
  {
    RunKeepsInv(EMPTY, steps);
  }

  /** A token that was issued and is on no row. */
  ghost predicate Superseded(s: World, token: nat) {
    token < s.nextToken && forall id <- s.jobs :: s.jobs[id].token != Some(token)
  }

  /** A token found on a row was on that row before, or was issued by this very step. */
  lemma {:induction false} TokenOrigin(s: World, step: Step, id: Id)
    requires id in Next(s, step).jobs && Next(s, step).jobs[id].token.Some?
    ensures var t := Next(s, step).jobs[id].token;
      (id in s.jobs && s.jobs[id].token == t) || (t == Some(s.nextToken) && s.nextToken < Next(s, step).nextToken)
    ensures Next(s, step).nextToken >= s.nextToken
  {
  }

  lemma {:induction false} TokensGrow(s: World, step: Step)
    ensures Next(s, step).nextToken >= s.nextToken
  {
  }

  lemma {:induction false} NextKeepsSuperseded(s: World, step: Step, token: nat)
    requires Superseded(s, token)
    ensures Superseded(Next(s, step), token)
  {
    TokensGrow(s, step);
    forall id | id in Next(s, step).jobs ensures Next(s, step).jobs[id].token != Some(token) {
      if Next(s, step).jobs[id].token.Some? {
        TokenOrigin(s, step, id);
      }
    }
  }

  /**
   * A lease that was reclaimed, recovered or purged away is gone for good: over any
   * further run no row carries its token again, and any write made under it changes
   * no row.
   */
  lemma {:induction false} LostLeaseNeverWrites(s: World, steps: seq<Step>, token: nat, i: nat, w: LeaseWrite)
    requires Superseded(s, token)
    ensures Superseded(Run(s, steps), token)
    ensures var s' := Run(s, steps);
      LocalOf(s', i).Leased? && LocalOf(s', i).token == token ==> DoWrite(s', i, w).jobs == s'.jobs
  {
    if steps != [] {
      LostLeaseNeverWrites(s, steps[..|steps| - 1], token, i, w);
      NextKeepsSuperseded(Run(s, steps[..|steps| - 1]), steps[|steps| - 1], token);
    }
  }

  /** Any step after which a row no longer carries a lease supersedes that lease. */
  lemma {:induction false} LeaseEndsSupersede(s: World, id: Id, token: nat, step: Step)
    requires Inv(s) && id in s.jobs && s.jobs[id].token == Some(token)
    requires id in Next(s, step).jobs ==> Next(s, step).jobs[id].token != Some(token)
    ensures Superseded(Next(s, step), token)
  {
    TokensGrow(s, step);
    assert JobOk(s.jobs[id], s.nextToken);
    forall other | other in Next(s, step).jobs ensures Next(s, step).jobs[other].token != Some(token) {
      if other != id && Next(s, step).jobs[other].token.Some? {
        TokenOrigin(s, step, other);
      }
    }
  }

  ghost predicate Purges(step: Step, id: Id) {
    step.Purge? && id in step.jobIds
  }

  lemma {:induction false} NextKeepsTerminal(s: World, step: Step, id: Id)
    requires Inv(s) && id in s.jobs && Terminal(s.jobs[id].status) && !Purges(step, id)
    ensures id in Next(s, step).jobs && Next(s, step).jobs[id] == s.jobs[id]
  {
  }

  /** Delivered and failed rows are absorbing: until purged, no run changes any column of them. */
  lemma {:induction false} TerminalIsAbsorbing(s: World, steps: seq<Step>, id: Id)
    requires Inv(s) && id in s.jobs && Terminal(s.jobs[id].status)
    requires forall step <- steps :: !Purges(step, id)
    ensures id in Run(s, steps).jobs && Run(s, steps).jobs[id] == s.jobs[id]
  {
    if steps != [] {
      var init := steps[..|steps| - 1];
      TerminalIsAbsorbing(s, init, id);
      RunKeepsInv(s, init);
      assert steps[|steps| - 1] in steps;
      NextKeepsTerminal(Run(s, init), steps[|steps| - 1], id);
    }
  }

  // ---- the retry budget ----

  /**
   * A worker writes `attempts` from the row it read before claiming, and the claim
   * compares only status and timestamp. Two recoveries and a sweep inside one
   * millisecond therefore let a give-up write take an attempt back.
   */
  lemma {:induction false} AttemptsCanGoBack()
    ensures var id := Id("job");
      var raced := Run(EMPTY, [Insert(id, 7), SweepQueue({id}, 7), Read(0, id, 7), Recover(id, 7), Recover(id, 7), SweepQueue({id}, 7), Claim(0, 7)]);
      && id in raced.jobs && raced.jobs[id].attempts == 2
      && id in Next(raced, Write(0, GiveUp(None, 8, 8))).jobs
      && Next(raced, Write(0, GiveUp(None, 8, 8))).jobs[id].attempts == 1
  {
    var id := Id("job");
    var first := [Insert(id, 7), SweepQueue({id}, 7), Read(0, id, 7)];
    var second := [Recover(id, 7), Recover(id, 7), SweepQueue({id}, 7), Claim(0, 7)];
    var queued := Job(Queued, None, 0, None, 7, 7);
    assert Run(EMPTY, first) == World(map[id := queued], map[0 := Seen(id, queued, 7)], 0) by { RaceReads(id); }
    RaceContinues(id);
    RunConcat(EMPTY, first, second);
    assert first + second == [Insert(id, 7), SweepQueue({id}, 7), Read(0, id, 7), Recover(id, 7), Recover(id, 7), SweepQueue({id}, 7), Claim(0, 7)];
  }

  lemma {:induction false} RunConcat(s: World, a: seq<Step>, b: seq<Step>)
    ensures Run(s, a + b) == Run(Run(s, a), b)
  {
    if b == [] {
      assert a + b == a;
    } else {
      assert (a + b)[..|a + b| - 1] == a + b[..|b| - 1];
      RunConcat(s, a, b[..|b| - 1]);
    }
  }

  lemma {:induction false} RunOne(s: World, step: Step)
    ensures Run(s, [step]) == Next(s, step)
  {
    assert [step][..0] == [];
  }

  lemma {:induction false} RaceReads(id: Id)
    ensures Run(EMPTY, [Insert(id, 7), SweepQueue({id}, 7), Read(0, id, 7)])
         == World(map[id := Job(Queued, None, 0, None, 7, 7)], map[0 := Seen(id, Job(Queued, None, 0, None, 7, 7), 7)], 0)
  {
    var a, b, c := Insert(id, 7), SweepQueue({id}, 7), Read(0, id, 7);
    RunOne(EMPTY, a);
    var s1 := World(map[id := Job(Pending, None, 0, None, 7, 7)], map[], 0);
    assert Next(EMPTY, a) == s1;
    var s2 := World(map[id := Job(Queued, None, 0, None, 7, 7)], map[], 0);
    assert Next(s1, b) == s2;
    assert [a, b][..1] == [a] && [a, b, c][..2] == [a, b];
  }

  lemma {:induction false} RaceRecovers(id: Id)
    ensures var queued := Job(Queued, None, 0, None, 7, 7);
      var me := map[0 := Seen(id, queued, 7)];
      Run(World(map[id := queued], me, 0), [Recover(id, 7), Recover(id, 7), SweepQueue({id}, 7)])
      == World(map[id := Job(Queued, None, 2, None, 7, 7)], me, 0)
  {
    var queued := Job(Queued, None, 0, None, 7, 7);
    var me := map[0 := Seen(id, queued, 7)];
    var s0 := World(map[id := queued], me, 0);
    var r, q := Recover(id, 7), SweepQueue({id}, 7);
    var s1 := World(map[id := Job(RetryWait, None, 1, None, 7, 7)], me, 0);
    var s2 := World(map[id := Job(RetryWait, None, 2, None, 7, 7)], me, 0);
    assert Run(s0, [r]) == s1 by { RunOne(s0, r); assert Next(s0, r).jobs == s1.jobs; }
    assert Run(s0, [r, r]) == s2 by { assert [r, r][..1] == [r]; assert Next(s1, r).jobs == s2.jobs; }
    assert [r, r, q][..2] == [r, r];
    assert Next(s2, q).jobs == map[id := Job(Queued, None, 2, None, 7, 7)];
  }

  lemma {:induction false} RaceContinues(id: Id)
    ensures var queued := Job(Queued, None, 0, None, 7, 7);
      Run(World(map[id := queued], map[0 := Seen(id, queued, 7)], 0), [Recover(id, 7), Recover(id, 7), SweepQueue({id}, 7), Claim(0, 7)])
      == World(map[id := Job(Processing, Some(0), 2, None, 7, 7)], map[0 := Leased(id, 0, 0, None)], 1)
  {
    var queued := Job(Queued, None, 0, None, 7, 7);
    var me := map[0 := Seen(id, queued, 7)];
    var s0 := World(map[id := queued], me, 0);
    var r, q, c := Recover(id, 7), SweepQueue({id}, 7), Claim(0, 7);
    var s3 := World(map[id := Job(Queued, None, 2, None, 7, 7)], me, 0);
    RaceRecovers(id);
    assert [r, r, q, c][..3] == [r, r, q];
    assert Next(s3, c) == DoClaim(s3, 0, 7);
    assert DoClaim(s3, 0, 7).jobs == map[id := Job(Processing, Some(0), 2, None, 7, 7)];
    assert DoClaim(s3, 0, 7).workers == map[0 := Leased(id, 0, 0, None)];
  }

  /** A lease found on a row was there before any step but its own claim, with the same attempt count. */
  lemma {:induction false} LeaseStepsBack(s: World, step: Step, id: Id, token: nat)
    requires Inv(s) && token < s.nextToken
    requires id in Next(s, step).jobs && HoldsLease(Next(s, step).jobs[id], token)
    ensures id in s.jobs && HoldsLease(s.jobs[id], token) && s.jobs[id].attempts == Next(s, step).jobs[id].attempts
  {
    TokenOrigin(s, step, id);
    assert JobOk(s.jobs[id], s.nextToken);
  }

  /** Over a whole tenure the attempt count of the row stands still. */
  lemma {:induction false} TenureKeepsAttempts(s: World, steps: seq<Step>, id: Id, token: nat)
    requires Inv(s) && token < s.nextToken
    requires id in Run(s, steps).jobs && HoldsLease(Run(s, steps).jobs[id], token)
    ensures id in s.jobs && HoldsLease(s.jobs[id], token) && s.jobs[id].attempts == Run(s, steps).jobs[id].attempts
  {
    if steps != [] {
      var init := steps[..|steps| - 1];
      RunKeepsInv(s, init);
      TokensGrowOverRuns(s, init);
      LeaseStepsBack(Run(s, init), steps[|steps| - 1], id, token);
      TenureKeepsAttempts(s, init, id, token);
    }
  }

  /** A worker storing its selection under this lease. */
  ghost predicate StoresOwnList(s: World, step: Step, token: nat) {
    step.Write? && step.write.StorePending? && LocalOf(s, step.worker).Leased? && LocalOf(s, step.worker).token == token
  }

  /** While a lease is held nobody but its holder changes the stored list. */
  lemma {:induction false} TenureKeepsList(s: World, steps: seq<Step>, id: Id, token: nat)
    requires Inv(s) && token < s.nextToken
    requires id in Run(s, steps).jobs && HoldsLease(Run(s, steps).jobs[id], token)
    requires forall n | 0 <= n < |steps| :: !StoresOwnList(Run(s, steps[..n]), steps[n], token)
    ensures id in s.jobs && s.jobs[id].pending == Run(s, steps).jobs[id].pending
  {
    if steps != [] {
      var n := |steps| - 1;
      var init := steps[..n];
      RunKeepsInv(s, init);
      TokensGrowOverRuns(s, init);
      LeaseStepsBack(Run(s, init), steps[n], id, token);
      ListStepsBack(Run(s, init), steps[n], id, token);
      forall m | 0 <= m < n ensures !StoresOwnList(Run(s, init[..m]), init[m], token) {
        assert init[..m] == steps[..m];
        assert !StoresOwnList(Run(s, steps[..m]), steps[m], token);
      }
      TenureKeepsList(s, init, id, token);
    }
  }

  lemma {:induction false} ListStepsBack(s: World, step: Step, id: Id, token: nat)
    requires Inv(s) && id in s.jobs && HoldsLease(s.jobs[id], token)
    requires id in Next(s, step).jobs && HoldsLease(Next(s, step).jobs[id], token)
    requires !StoresOwnList(s, step, token)
    ensures Next(s, step).jobs[id].pending == s.jobs[id].pending
  {
  }

  /**
   * The two lists of a tenure: the worker goes by the list of the row it read before
   * its claim, which the claim does not compare; the row keeps the list it had at the
   * claim until the worker stores its own.
   */
  lemma {:induction false} LeaseList(before: seq<Step>, i: nat, now: int, after: seq<Step>)
    requires WinsClaim(Run(EMPTY, before), i, now)
    requires var s := Run(EMPTY, before); var s1 := Next(s, Claim(i, now));
      && LocalOf(s, i).jobId in Run(s1, after).jobs && HoldsLease(Run(s1, after).jobs[LocalOf(s, i).jobId], s.nextToken)
      && forall n | 0 <= n < |after| :: !StoresOwnList(Run(s1, after[..n]), after[n], s.nextToken)
    ensures var s := Run(EMPTY, before); var s1 := Next(s, Claim(i, now)); var id := LocalOf(s, i).jobId;
      && id in s.jobs && Run(s1, after).jobs[id].pending == s.jobs[id].pending
      && LocalOf(s1, i).Leased? && LocalOf(s1, i).pending == LocalOf(s, i).job.pending
  {
    var s := Run(EMPTY, before);
    RunKeepsInv(EMPTY, before);
    NextKeepsInv(s, Claim(i, now));
    TenureKeepsList(Next(s, Claim(i, now)), after, LocalOf(s, i).jobId, s.nextToken);
  }

  /**
   * A run within one millisecond in which a worker goes by an older list than its row
   * has: it read the row before another worker stored its selection and settled a part.
   */
  lemma {:induction false} StaleListRun(id: Id, a: Id, b: Id)
    ensures var s := Run(EMPTY, [Insert(id, 7), SweepQueue({id}, 7), Read(0, id, 7), Read(1, id, 7), Claim(1, 7),
                                 Write(1, StorePending([a, b], 7)), Write(1, GiveUp(Some([b]), 30007, 7)),
                                 Recover(id, 7), SweepQueue({id}, 7), Claim(0, 7)]);
      && LocalOf(s, 0) == Leased(id, 1, 0, None)
      && id in s.jobs && s.jobs[id] == Job(Processing, Some(1), 2, Some([b]), 7, 7)
  {
    var first := [Insert(id, 7), SweepQueue({id}, 7), Read(0, id, 7)];
    var second := [Read(1, id, 7), Claim(1, 7), Write(1, StorePending([a, b], 7)), Write(1, GiveUp(Some([b]), 30007, 7))];
    var third := [Recover(id, 7), SweepQueue({id}, 7), Claim(0, 7)];
    RaceReads(id);
    OtherWorkerSettles(id, a, b);
    StaleWorkerClaims(id, b);
    RunConcat(EMPTY, first, second);
    RunConcat(EMPTY, first + second, third);
    assert first + second + third == [Insert(id, 7), SweepQueue({id}, 7), Read(0, id, 7), Read(1, id, 7), Claim(1, 7),
                                      Write(1, StorePending([a, b], 7)), Write(1, GiveUp(Some([b]), 30007, 7)),
                                      Recover(id, 7), SweepQueue({id}, 7), Claim(0, 7)];
  }

  /** The other worker reads, claims, stores two ids and gives up with one left. */
  lemma {:induction false} OtherWorkerSettles(id: Id, a: Id, b: Id)
    ensures var queued := Job(Queued, None, 0, None, 7, 7);
      Run(World(map[id := queued], map[0 := Seen(id, queued, 7)], 0),
          [Read(1, id, 7), Claim(1, 7), Write(1, StorePending([a, b], 7)), Write(1, GiveUp(Some([b]), 30007, 7))])
      == World(map[id := Job(RetryWait, None, 1, Some([b]), 30007, 7)], map[0 := Seen(id, queued, 7), 1 := Idle], 1)
  {
    var queued := Job(Queued, None, 0, None, 7, 7);
    var s0 := World(map[id := queued], map[0 := Seen(id, queued, 7)], 0);
    OtherWorkerClaims(id, queued);
    OtherWorkerWrites(id, queued, a, b);
    RunFour(s0, Read(1, id, 7), Claim(1, 7), Write(1, StorePending([a, b], 7)), Write(1, GiveUp(Some([b]), 30007, 7)));
  }

  lemma {:induction false} OtherWorkerClaims(id: Id, queued: Job)
    requires queued == Job(Queued, None, 0, None, 7, 7)
    ensures Next(Next(World(map[id := queued], map[0 := Seen(id, queued, 7)], 0), Read(1, id, 7)), Claim(1, 7))
      == World(map[id := Job(Processing, Some(0), 0, None, 7, 7)], map[0 := Seen(id, queued, 7), 1 := Leased(id, 0, 0, None)], 1)
  {
    var s0 := World(map[id := queued], map[0 := Seen(id, queued, 7)], 0);
    var s1 := World(map[id := queued], map[0 := Seen(id, queued, 7), 1 := Seen(id, queued, 7)], 0);
    var s2 := World(map[id := Job(Processing, Some(0), 0, None, 7, 7)], map[0 := Seen(id, queued, 7), 1 := Leased(id, 0, 0, None)], 1);
    assert Next(s0, Read(1, id, 7)) == s1 by { assert DoRead(s0, 1, id, 7).workers == s1.workers; }
    assert Next(s1, Claim(1, 7)) == s2 by { assert DoClaim(s1, 1, 7).workers == s2.workers && DoClaim(s1, 1, 7).jobs == s2.jobs; }
  }

  lemma {:induction false} OtherWorkerWrites(id: Id, queued: Job, a: Id, b: Id)
    ensures Next(Next(World(map[id := Job(Processing, Some(0), 0, None, 7, 7)], map[0 := Seen(id, queued, 7), 1 := Leased(id, 0, 0, None)], 1),
                      Write(1, StorePending([a, b], 7))), Write(1, GiveUp(Some([b]), 30007, 7)))
      == World(map[id := Job(RetryWait, None, 1, Some([b]), 30007, 7)], map[0 := Seen(id, queued, 7), 1 := Idle], 1)
  {
    var lease := Leased(id, 0, 0, None);
    var w, g := StorePending([a, b], 7), GiveUp(Some([b]), 30007, 7);
    var s2 := World(map[id := Job(Processing, Some(0), 0, None, 7, 7)], map[0 := Seen(id, queued, 7), 1 := lease], 1);
    var s3 := World(map[id := Job(Processing, Some(0), 0, Some([a, b]), 7, 7)], map[0 := Seen(id, queued, 7), 1 := lease], 1);
    assert Next(s2, Write(1, w)) == s3 by { assert DoWrite(s2, 1, w).jobs == s3.jobs; }
    assert DoWrite(s3, 1, g).jobs == map[id := Job(RetryWait, None, 1, Some([b]), 30007, 7)];
    assert DoWrite(s3, 1, g).workers == map[0 := Seen(id, queued, 7), 1 := Idle];
  }

  lemma {:induction false} RunFour(s: World, a: Step, b: Step, c: Step, d: Step)
    ensures Run(s, [a, b, c, d]) == Next(Next(Next(Next(s, a), b), c), d)
  {
    RunOne(s, a);
    assert [a, b][..1] == [a] && [a, b, c][..2] == [a, b] && [a, b, c, d][..3] == [a, b, c];
    assert Run(s, [a, b]) == Next(Run(s, [a]), b);
    assert Run(s, [a, b, c]) == Next(Run(s, [a, b]), c);
  }

  /** The job is recovered and queued within the same millisecond, and the first worker's claim is won. */
  lemma {:induction false} StaleWorkerClaims(id: Id, b: Id)
    ensures var queued := Job(Queued, None, 0, None, 7, 7);
      var s := Run(World(map[id := Job(RetryWait, None, 1, Some([b]), 30007, 7)], map[0 := Seen(id, queued, 7), 1 := Idle], 1),
                   [Recover(id, 7), SweepQueue({id}, 7), Claim(0, 7)]);
      && s.jobs == map[id := Job(Processing, Some(1), 2, Some([b]), 7, 7)]
      && LocalOf(s, 0) == Leased(id, 1, 0, None)
  {
    var queued := Job(Queued, None, 0, None, 7, 7);
    var me := map[0 := Seen(id, queued, 7), 1 := Idle];
    var s0 := World(map[id := Job(RetryWait, None, 1, Some([b]), 30007, 7)], me, 1);
    var r, q, c := Recover(id, 7), SweepQueue({id}, 7), Claim(0, 7);
    var s1 := World(map[id := Job(RetryWait, None, 2, Some([b]), 7, 7)], me, 1);
    var s2 := World(map[id := Job(Queued, None, 2, Some([b]), 7, 7)], me, 1);
    assert Run(s0, [r]) == s1 by { RunOne(s0, r); assert Next(s0, r).jobs == s1.jobs; }
    assert Run(s0, [r, q]) == s2 by { assert [r, q][..1] == [r]; assert Next(s1, q).jobs == s2.jobs; }
    assert [r, q, c][..2] == [r, q];
    assert DoClaim(s2, 0, 7).jobs == map[id := Job(Processing, Some(1), 2, Some([b]), 7, 7)];
  }

  lemma {:induction false} TokensGrowOverRuns(s: World, steps: seq<Step>)
    ensures Run(s, steps).nextToken >= s.nextToken
  {
    if steps != [] {
      TokensGrowOverRuns(s, steps[..|steps| - 1]);
      TokensGrow(Run(s, steps[..|steps| - 1]), steps[|steps| - 1]);
    }
  }

  /** The claim of a worker that has read a row wins. */
  ghost predicate WinsClaim(s: World, i: nat, now: int) {
    LocalOf(s, i).Seen? && LocalOf(Next(s, Claim(i, now)), i).Leased?
  }

  /**
   * The retry budget, exactly: a give-up under a lease counts one attempt if and only
   * if the claim was won on a row with the attempt count of the snapshot, which the
   * claim does not compare. In between, whatever anyone does, the row's count stands
   * still, and the give-up misses by the difference there was at the claim.
   */
  lemma {:induction false} LeaseBudget(before: seq<Step>, i: nat, now: int, after: seq<Step>, w: LeaseWrite)
    requires WinsClaim(Run(EMPTY, before), i, now)
    requires var s := Run(EMPTY, before); var s' := Run(Next(s, Claim(i, now)), after);
      && LocalOf(s', i) == LocalOf(Next(s, Claim(i, now)), i)
      && LocalOf(s, i).jobId in s'.jobs && HoldsLease(s'.jobs[LocalOf(s, i).jobId], s.nextToken)
    requires w.GiveUp?
    ensures var s := Run(EMPTY, before); var s' := Run(Next(s, Claim(i, now)), after);
      var id, seen := LocalOf(s, i).jobId, LocalOf(s, i).job;
      && id in s.jobs && id in DoWrite(s', i, w).jobs
      && var row, given := s'.jobs[id], DoWrite(s', i, w).jobs[id];
      && given.attempts == row.attempts + 1 - (s.jobs[id].attempts - seen.attempts)
      && (given.attempts == row.attempts + 1 <==> s.jobs[id].attempts == seen.attempts)
  {
    var s := Run(EMPTY, before);
    var s1 := Next(s, Claim(i, now));
    RunKeepsInv(EMPTY, before);
    NextKeepsInv(s, Claim(i, now));
    TenureKeepsAttempts(s1, after, LocalOf(s, i).jobId, s.nextToken);
  }

  /** A give-up under a live lease on this row. */
  ghost predicate GivesUp(s: World, step: Step, id: Id) {
    && step.Write? && step.write.GiveUp? && LocalOf(s, step.worker).Leased? && LocalOf(s, step.worker).jobId == id
    && id in s.jobs && HoldsLease(s.jobs[id], LocalOf(s, step.worker).token)
  }

  /**
   * Every step of every run leaves a job's count or adds one, but for a give-up whose
   * worker remembers more attempts than the row has, or at least two fewer.
   */
  lemma {:induction false} OnlyStaleGiveUpsMiscount(s: World, step: Step, id: Id)
    requires id in s.jobs && id in Next(s, step).jobs
    ensures var before, after := s.jobs[id].attempts, Next(s, step).jobs[id].attempts;
      before <= after <= before + 1
      <==> !GivesUp(s, step, id) || LocalOf(s, step.worker).attempts == before || LocalOf(s, step.worker).attempts + 1 == before
  {
    if step.Write? {
      WriteCounts(s, step.worker, step.write, id);
    } else {
      OtherStepsCount(s, step, id);
    }
  }

  lemma {:induction false} WriteCounts(s: World, i: nat, w: LeaseWrite, id: Id)
    requires id in s.jobs
    ensures id in DoWrite(s, i, w).jobs
    ensures DoWrite(s, i, w).jobs[id].attempts == if GivesUp(s, Write(i, w), id) then LocalOf(s, i).attempts + 1 else s.jobs[id].attempts
  {
  }

  lemma {:induction false} OtherStepsCount(s: World, step: Step, id: Id)
    requires !step.Write? && id in s.jobs && id in Next(s, step).jobs
    ensures s.jobs[id].attempts <= Next(s, step).jobs[id].attempts <= s.jobs[id].attempts + 1
  {
  }
}
