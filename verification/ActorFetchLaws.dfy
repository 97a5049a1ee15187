/**
 * The retry schedule of remote actor fetches in terms of rows and times: how long a
 * failure shuts a row, what a claim needs, and what is ever removed.
 */
module ActorFetchLaws {
  import opened Wrappers
  import opened ActorFetchLedger

  // ---- how long a failure waits ----

  /** Gone is a 410 or a tombstone; a document that is not a usable actor is invalid; the rest may come back. */
  lemma {:induction false} KindsOfFailure(f: Failure)
    ensures Classify(f) == Gone <==> f.ActorTombstoned? || (f.FetchNotOk? && f.status == 410)
    ensures Classify(f) == Invalid <==> f.InvalidDocument? || f.IdMismatch? || f.MissingInbox? || f.MissingPublicKey?
  {
  }

  function Longer(a: nat, b: nat): nat {
    if a >= b then a else b
  }

  function Capped(seconds: nat): nat {
    if seconds <= 3600 then seconds else 3600
  }

  /**
   * The first failure waits 30 seconds, or 5 minutes for an invalid actor; each further
   * one twice as long, up to an hour.
   */
  lemma {:induction false} WaitDoubles(kind: Kind, count: nat)
    requires kind != Gone
    ensures Backoff(kind, 1, None) == Some(if kind == Invalid then 300 else 30)
    ensures Backoff(kind, count, None).Some?
    ensures count >= 1 ==> Backoff(kind, count + 1, None) == Some(Capped(2 * Backoff(kind, count, None).value))
  {
    var base: nat := if kind == Invalid then 300 else 30;
    assert Pow2(Exponent(1)) == 1;
    WaitIs(kind, count, base);
    WaitIs(kind, count + 1, base);
    if count >= 9 {
      Powers();
    } else if count >= 1 {
      assert Exponent(count + 1) == Exponent(count) + 1 && Pow2(Exponent(count) + 1) == 2 * Pow2(Exponent(count));
      CapDoubles(base, Pow2(Exponent(count)));
    }
  }

  lemma {:induction false} WaitIs(kind: Kind, count: nat, base: nat)
    requires kind != Gone && base == (if kind == Invalid then 300 else 30)
    ensures Backoff(kind, count, None) == Some(Capped(base * Pow2(Exponent(count))))
  {
  }

  lemma {:induction false} CapDoubles(base: nat, p: nat)
    ensures Capped(base * (2 * p)) == Capped(2 * Capped(base * p))
  {
    assert base * (2 * p) == 2 * (base * p);
  }

  /** A remote hint only lengthens the wait. */
  lemma {:induction false} HintLengthens(kind: Kind, count: nat, hint: nat)
    requires kind != Gone
    ensures Backoff(kind, count, None).Some?
    ensures Backoff(kind, count, Some(hint)) == Some(Longer(Backoff(kind, count, None).value, hint))
  {
  }

  lemma {:induction false} Powers()
    ensures Pow2(8) == 256
  {
    assert Pow2(4) == 16;
    assert Pow2(8) == 2 * (2 * (2 * (2 * Pow2(4))));
  }

  /** A date is met by the least number of whole seconds, within a second and a day; so is a number of seconds. */
  lemma {:induction false} HintIsLeast(header: Header, now: int)
    ensures header.Absent? ==> RetryAfter(header, now).None?
    ensures header.Date? ==> (RetryAfter(header, now).Some? <==> header.ms > now)
    ensures header.Seconds? ==> (RetryAfter(header, now).Some? <==> header.s >= 0.0)
    ensures RetryAfter(header, now).Some? ==>
      var h := RetryAfter(header, now).value;
      && h <= 86400
      && (header.Date? && h > 1 ==> now + (h - 1) * 1000 < header.ms)
      && (header.Date? && h < 86400 ==> now + h * 1000 >= header.ms)
      && (header.Seconds? && h > 1 ==> (h - 1) as real < header.s)
      && (header.Seconds? && h < 86400 ==> h as real >= header.s)
  {
  }

  /** What a failure leaves on its row: one failure more, the wait from its own clock on, and no lease. */
  lemma {:induction false} FailureIsWritten(s: World, i: nat, f: Failure)
    requires LocalOf(s, i).Recording?
    ensures var l := LocalOf(s, i); var s' := Next(s, RecordFailure(i, f));
      if l.actor in s.db.ledger && s.db.ledger[l.actor].token == Some(l.token) && l.actor !in s.db.cached
      then
        var row := s'.db.ledger[l.actor];
        && s'.db == s.db.(ledger := s.db.ledger[l.actor := row])
        && row.kind == Classify(f) && row.failureCount == (if l.count < 1000000 then l.count + 1 else 1000000)
        && row.token.None? && row.lease.None? && row.updatedAt == l.now
        && (row.kind == Gone ==> row.retryAt.None?)
        && (row.kind != Gone ==>
              var wait := Backoff(row.kind, row.failureCount, Remote(f));
              wait.Some? && row.retryAt == Some(l.now + wait.value * 1000))
      else s' == s
  {
    var l := LocalOf(s, i);
    var count := if l.count < 1000000 then l.count + 1 else 1000000;
    if Classify(f) != Gone {
      BackoffBounds(Classify(f), count, count, Remote(f));
    }
  }

  // ---- what a claim needs ----

  /** At `now` the actor is not gone, its retry time has come and nobody holds a lease on it. */
  predicate Open(row: Row, now: int) {
    && row.kind != Gone
    && (row.retryAt.Some? ==> row.retryAt.value <= now)
    && (row.token.Some? && row.lease.Some? ==> row.lease.value <= now)
  }

  /** A claim with nothing between its two statements wins exactly on an absent row or an open one, for 30 seconds. */
  lemma {:induction false} QuietClaim(s: World, i: nat, actor: Id, now: int)
    ensures var s' := Next(Next(s, ClaimInsert(i, actor, now)), ClaimUpdate(i));
      if actor !in s.db.ledger || Open(s.db.ledger[actor], now)
      then
        && LocalOf(s', i) == Owning(actor, s.nextToken, now)
        && s'.db == s.db.(ledger := s.db.ledger[actor :=
             if actor in s.db.ledger
             then s.db.ledger[actor].(token := Some(s.nextToken), lease := Some(now + 30000), updatedAt := now)
             else Row(Unavailable, 0, None, Some(s.nextToken), Some(now + 30000), now)])
      else LocalOf(s', i) == Idle && s'.db == s.db
  {
    var s1 := Next(s, ClaimInsert(i, actor, now));
    if actor !in s.db.ledger {
      assert LocalOf(s1, i).Owning?;
    } else {
      assert LocalOf(s1, i) == Claiming(actor, s.nextToken, now) && s1.db == s.db;
      assert Claimable(s.db.ledger[actor], now) <==> Open(s.db.ledger[actor], now);
    }
  }

  /** Steps that take the row of an actor away or write it without a claim. */
  predicate Disturbs(step: Step, actor: Id) {
    match step
    case RecordUnowned(a, _, _, _) => a == actor
    case ClearAny(a) => a == actor
    case CacheDocument(a) => a == actor
    case Reap(actors, _) => actor in actors
    case _ => false
  }

  /** A claim that read its clock before the row opens. */
  predicate Early(row: Row, now: int) {
    row.kind == Gone || (row.retryAt.Some? && now < row.retryAt.value)
  }

  /** Every claim on the actor, under way or in these steps, is early. */
  ghost predicate OnlyEarly(s: World, steps: seq<Step>, actor: Id, row: Row) {
    && (forall i <- s.workers :: s.workers[i].Claiming? && s.workers[i].actor == actor ==> Early(row, s.workers[i].now))
    && (forall n | 0 <= n < |steps| :: steps[n].ClaimInsert? && steps[n].actor == actor ==> Early(row, steps[n].now))
    && (forall n | 0 <= n < |steps| :: !Disturbs(steps[n], actor))
  }

  /** The row stands, and whoever is still claiming it is early. */
  ghost predicate Stands(s: World, actor: Id, row: Row) {
    && actor in s.db.ledger && s.db.ledger[actor] == row
    && (forall i <- s.workers :: s.workers[i].Claiming? && s.workers[i].actor == actor ==> Early(row, s.workers[i].now))
  }

  /**
   * A failure is kept: from a row without a lease, no run wins a claim on it before its
   * retry time, and none ever if the actor is gone. Only a removal or an unowned record of
   * that very actor ends the wait.
   */
  lemma {:induction false} FailureIsKept(s: World, steps: seq<Step>, actor: Id)
    requires actor in s.db.ledger && s.db.ledger[actor].token.None?
    requires OnlyEarly(s, steps, actor, s.db.ledger[actor])
    ensures Stands(Run(s, steps), actor, s.db.ledger[actor])
  {
    if steps != [] {
      var n := |steps| - 1;
      var init := steps[..n];
      assert OnlyEarly(s, init, actor, s.db.ledger[actor]);
      FailureIsKept(s, init, actor);
      StandsStep(Run(s, init), steps[n], actor, s.db.ledger[actor]);
    }
  }

  lemma {:induction false} StandsStep(s: World, step: Step, actor: Id, row: Row)
    requires Stands(s, actor, row) && row.token.None? && !Disturbs(step, actor)
    requires step.ClaimInsert? && step.actor == actor ==> Early(row, step.now)
    ensures Stands(Next(s, step), actor, row)
  {
    if step.ClaimInsert? || step.ClaimUpdate? {
      StandsClaim(s, step, actor, row);
    } else {
      StandsOther(s, step, actor, row);
    }
  }

  lemma {:induction false} StandsClaim(s: World, step: Step, actor: Id, row: Row)
    requires Stands(s, actor, row) && (step.ClaimInsert? || step.ClaimUpdate?)
    requires step.ClaimInsert? && step.actor == actor ==> Early(row, step.now)
    ensures Stands(Next(s, step), actor, row)
  {
  }

  lemma {:induction false} StandsOther(s: World, step: Step, actor: Id, row: Row)
    requires Stands(s, actor, row) && row.token.None? && !Disturbs(step, actor)
    requires !step.ClaimInsert? && !step.ClaimUpdate?
    ensures Stands(Next(s, step), actor, row)
  {
  }

  predicate Stale(row: Row, now: int) {
    row.updatedAt + 2592000000 < now && (row.lease.Some? ==> row.lease.value <= now)
  }

  /** A row with a running lease is never reaped, and no row within thirty days of its last write. */
  lemma {:induction false} ReapSpares(s: World, actors: set<Id>, now: int)
    ensures var s' := Next(s, Reap(actors, now));
      && (forall a :: a in s'.db.ledger <==> a in s.db.ledger && !(a in actors && Stale(s.db.ledger[a], now)))
      && (forall a <- s'.db.ledger :: s'.db.ledger[a] == s.db.ledger[a])
      && s'.db.cached == s.db.cached && s'.db.tombstones == s.db.tombstones
  {
  }

  /** A tombstoned actor is never cached in any run, however often its document arrives. */
  lemma {:induction false} TombstonesAreFinal(s: World, steps: seq<Step>, actor: Id)
    requires actor in s.db.tombstones && actor !in s.db.cached
    ensures actor in Run(s, steps).db.tombstones && actor !in Run(s, steps).db.cached
  {
    if steps != [] {
      var n := |steps| - 1;
      TombstonesAreFinal(s, steps[..n], actor);
      TombstoneStep(Run(s, steps[..n]), steps[n], actor);
    }
  }

  lemma {:induction false} TombstoneStep(s: World, step: Step, actor: Id)
    requires actor in s.db.tombstones && actor !in s.db.cached
    ensures actor in Next(s, step).db.tombstones && actor !in Next(s, step).db.cached
  {
  }
}
