/**
 * What the push outbox promises about rows and times: when a job may be claimed, how
 * long a backoff stands, who may end a lease and what each retry costs.
 */
module PushLaws {
  import opened Wrappers
  import opened PushOutbox

  /** The row of a job in a state, and after a step, when it has one in both. */
  ghost predicate InBoth(s: World, step: Step, id: Id) {
    id in s.jobs && id in Next(s, step).jobs
  }

  // ----- claims -----

  /**
   * A job starts processing in one way only: a worker claims it, by a clock that has
   * reached the row's schedule, having read the very status and timestamp it still has;
   * and the claim changes nothing else of the row.
   */
  lemma {:induction false} OnlyDueClaimsProcess(s: World, step: Step, id: Id)
    requires Inv(s) && InBoth(s, step, id)
    requires s.jobs[id].status != Processing && Next(s, step).jobs[id].status == Processing
    ensures step.Claim? && s.jobs[id].nextAttemptAt <= step.now
    ensures LocalOf(s, step.worker).Seen? && LocalOf(s, step.worker).jobId == id
    ensures LocalOf(s, step.worker).job.status == s.jobs[id].status && LocalOf(s, step.worker).job.updatedAt == s.jobs[id].updatedAt
    ensures Next(s, step).jobs[id] == s.jobs[id].(status := Processing, token := Some(s.nextToken), updatedAt := step.now)
  {
  }

  /** In every run a claim that wins found its job due, waiting or queued. */
  lemma {:induction false} ClaimsAreDue(steps: seq<Step>, i: nat, now: int)
    requires WinsClaim(Run(EMPTY, steps), i, now)
    ensures var s := Run(EMPTY, steps); var id := LocalOf(s, i).jobId;
      id in s.jobs && s.jobs[id].nextAttemptAt <= now && s.jobs[id].status in {Pending, Queued, RetryWait}
  {
    RunKeepsInv(EMPTY, steps);
  }

  /** The schedule changes by a recovery, which makes the job due, and by a give-up, which names the time. */
  lemma {:induction false} ScheduleStands(s: World, step: Step, id: Id)
    requires InBoth(s, step, id) && Next(s, step).jobs[id].nextAttemptAt != s.jobs[id].nextAttemptAt
    ensures (step.Recover? && step.jobId == id && Next(s, step).jobs[id].nextAttemptAt == step.now)
      || (GivesUp(s, step, id) && Next(s, step).jobs[id].nextAttemptAt == step.write.retryAt)
  {
  }

  /** Recoveries of the job, and whatever may remove its row. */
  predicate Disturbs(step: Step, id: Id) {
    || (step.Recover? && step.jobId == id)
    || (step.Purge? && id in step.jobIds)
    || (step.InboxRowDeleted? && step.jobId == id)
  }

  /** Waiting until `retryAt`, by nobody's lease. */
  ghost predicate WaitsUntil(s: World, id: Id, retryAt: int) {
    id in s.jobs && s.jobs[id].status != Processing && s.jobs[id].nextAttemptAt == retryAt
  }

  lemma {:induction false} StepKeepsWaiting(s: World, step: Step, id: Id, retryAt: int)
    requires Inv(s) && WaitsUntil(s, id, retryAt) && !Disturbs(step, id)
    requires step.Claim? ==> step.now < retryAt
    ensures WaitsUntil(Next(s, step), id, retryAt)
  {
    if Next(s, step).jobs[id].status == Processing {
      OnlyDueClaimsProcess(s, step, id);
    }
  }

  lemma {:induction false} RunKeepsWaiting(s: World, steps: seq<Step>, id: Id, retryAt: int)
    requires Inv(s) && WaitsUntil(s, id, retryAt)
    requires forall n | 0 <= n < |steps| :: !Disturbs(steps[n], id) && (steps[n].Claim? ==> steps[n].now < retryAt)
    ensures WaitsUntil(Run(s, steps), id, retryAt)
  {
    if steps != [] {
      var init := steps[..|steps| - 1];
      RunKeepsWaiting(s, init, id, retryAt);
      RunKeepsInv(s, init);
      StepKeepsWaiting(Run(s, init), steps[|steps| - 1], id, retryAt);
    }
  }

  /**
   * A backoff is kept: after a give-up that names `retryAt` and leaves an attempt, no
   * run without a recovery or removal of the job lets any claim win on it by a clock
   * before `retryAt`, whatever else sweeps, workers and duplicate messages do.
   */
  lemma {:induction false} BackoffIsKept(s: World, i: nat, w: LeaseWrite, id: Id, steps: seq<Step>)
    requires Inv(s) && GivesUp(s, Write(i, w), id) && LocalOf(s, i).attempts + 1 < 5
    requires forall n | 0 <= n < |steps| :: !Disturbs(steps[n], id) && (steps[n].Claim? ==> steps[n].now < w.retryAt)
    ensures var after := Next(s, Write(i, w));
      && id in after.jobs && after.jobs[id].status == RetryWait && after.jobs[id].token == None && after.jobs[id].nextAttemptAt == w.retryAt
      && id in Run(after, steps).jobs && Run(after, steps).jobs[id].status != Processing && Run(after, steps).jobs[id].nextAttemptAt == w.retryAt
  {
    NextKeepsInv(s, Write(i, w));
    RunKeepsWaiting(Next(s, Write(i, w)), steps, id, w.retryAt);
  }

  /** Undisturbed, reading and claiming a due job that waits or is queued wins, and the worker remembers what it read. */
  lemma {:induction false} QuietClaimWins(s: World, i: nat, id: Id, readAt: int, now: int)
    requires id in s.jobs && s.jobs[id].status in {Pending, Queued, RetryWait} && s.jobs[id].nextAttemptAt <= now
    ensures var s' := Next(Next(s, Read(i, id, readAt)), Claim(i, now));
      && s'.jobs == s.jobs[id := s.jobs[id].(status := Processing, token := Some(s.nextToken), updatedAt := now)]
      && LocalOf(s', i) == Leased(id, s.nextToken, s.jobs[id].attempts, s.jobs[id].pending)
  {
  }

  /** A processing row that is two minutes old by the reader's clock is taken over if it is due; a younger one is left to its owner. */
  lemma {:induction false} QuietReclaim(s: World, i: nat, id: Id, readAt: int, at: int, now: int)
    requires id in s.jobs && s.jobs[id].status == Processing && s.jobs[id].nextAttemptAt <= now
    ensures var s' := Next(Next(Next(s, Read(i, id, readAt)), Reclaim(i, at)), Claim(i, now));
      if readAt - s.jobs[id].updatedAt >= 120000
      then id in s'.jobs && s'.jobs[id].status == Processing && s'.jobs[id].token == Some(s.nextToken)
           && LocalOf(s', i) == Leased(id, s.nextToken, s.jobs[id].attempts, s.jobs[id].pending)
      else s'.jobs == s.jobs && LocalOf(s', i) == Idle
  {
  }

  // ----- leases -----

  /** The holder's last write. */
  ghost predicate EndsOwn(s: World, step: Step, token: nat) {
    && step.Write? && (step.write.Finish? || step.write.GiveUp?)
    && LocalOf(s, step.worker).Leased? && LocalOf(s, step.worker).token == token
  }

  /**
   * Who may end a lease: its holder, a dead-letter recovery, a sweep fifteen minutes
   * after the last heartbeat, a worker that read the row two minutes after it, or the
   * retention purge.
   */
  lemma {:induction false} LeaseEndsOnly(s: World, step: Step, id: Id, token: nat)
    requires Inv(s) && id in s.jobs && s.jobs[id].token == Some(token)
    requires id in Next(s, step).jobs ==> Next(s, step).jobs[id].token != Some(token)
    ensures EndsOwn(s, step, token)
      || (step.Recover? && step.jobId == id)
      || (step.SweepReclaim? && s.jobs[id].updatedAt <= step.now - 900000)
      || (step.Reclaim? && LocalOf(s, step.worker).Seen? && LocalOf(s, step.worker).jobId == id
          && LocalOf(s, step.worker).job.updatedAt == s.jobs[id].updatedAt
          && LocalOf(s, step.worker).readAt - s.jobs[id].updatedAt >= 120000)
      || (step.Purge? && id in step.jobIds && s.jobs[id].updatedAt <= step.now - 90 * 86400000)
  {
    assert JobOk(s.jobs[id], s.nextToken);
  }

  // ----- what each step does to a job -----

  /** A sweep gives back exactly the in-flight rows of fifteen minutes' silence, for one attempt each. */
  lemma {:induction false} SweepReclaims(s: World, now: int, id: Id)
    requires id in s.jobs
    ensures var job := s.jobs[id];
      && id in Next(s, SweepReclaim(now)).jobs
      && var after := Next(s, SweepReclaim(now)).jobs[id];
      if job.status in {Queued, Processing} && job.updatedAt <= now - 900000
      then after == Job(if job.attempts >= 4 then Failed else Pending, None, job.attempts + 1, job.pending, job.nextAttemptAt, now)
      else after == job
  {
  }

  /** Queueing takes exactly the selected rows that wait, and costs nothing. */
  lemma {:induction false} SweepQueues(s: World, ids: set<Id>, now: int, id: Id)
    requires id in s.jobs
    ensures var job := s.jobs[id];
      && id in Next(s, SweepQueue(ids, now)).jobs
      && Next(s, SweepQueue(ids, now)).jobs[id] ==
         if id in ids && job.status in {Pending, RetryWait} then Job(Queued, None, job.attempts, job.pending, job.nextAttemptAt, now) else job
  {
  }

  /** Retention removes exactly the selected rows of ninety days' silence, and changes no other. */
  lemma {:induction false} Purges(s: World, ids: set<Id>, now: int, id: Id)
    requires id in s.jobs
    ensures var jobs' := Next(s, Purge(ids, now)).jobs;
      if id in ids && s.jobs[id].updatedAt + 90 * 86400000 <= now then id !in jobs' else id in jobs' && jobs'[id] == s.jobs[id]
  {
  }

  /** A recovery puts a live job back for one attempt, due at once, or fails it. */
  lemma {:induction false} Recovers(s: World, id: Id, now: int)
    requires id in s.jobs
    ensures var job := s.jobs[id];
      && id in Next(s, Recover(id, now)).jobs
      && Next(s, Recover(id, now)).jobs[id] ==
         if job.status in {Delivered, Failed} then job
         else Job(if job.attempts >= 4 then Failed else RetryWait, None, job.attempts + 1, job.pending, now, now)
  {
  }

  /** The diagram of the job machine: which status may follow which, by whom. */
  lemma {:induction false} Transitions(s: World, step: Step, id: Id)
    requires Inv(s) && InBoth(s, step, id) && Next(s, step).jobs[id].status != s.jobs[id].status
    ensures var before, after := s.jobs[id], Next(s, step).jobs[id];
      && before.status !in {Delivered, Failed}
      && (after.status == Delivered ==> before.status == Processing && step.Write? && step.write.Finish? && after.pending == Some([]) && after.attempts == before.attempts)
      && (after.status == Failed ==> after.attempts >= 5 && (step.SweepReclaim? || step.Recover? || GivesUp(s, step, id)))
      && (after.status == Processing ==> step.Claim? && before.status in {Pending, Queued, RetryWait})
      && (after.status == Pending ==> step.SweepReclaim? && before.status in {Queued, Processing})
      && (after.status == RetryWait ==> step.Recover? || GivesUp(s, step, id))
      && (after.status == Queued ==> (step.SweepQueue? && before.status in {Pending, RetryWait}) || (step.Reclaim? && before.status == Processing))
  {
    assert JobOk(s.jobs[id], s.nextToken);
  }
}
