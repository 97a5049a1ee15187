/**
 * The remote actor fetch ledger (`activitypub-actor-cache.ts`): one lease per actor,
 * failure backoff, and fenced completion. Times are milliseconds.
 *
 * A claim is two statements and a failure record is a read followed by a write, so
 * both are split into steps that other workers may interleave with. The clock value
 * an operation read at its start is carried along.
 */
module ActorFetchLedger {
  import opened Wrappers

  const LEASE_MS: int := 30000
  const TRANSIENT_BASE: nat := 30
  const INVALID_BASE: nat := 300
  const MAX_BACKOFF: nat := 3600
  const MAX_RETRY_AFTER: nat := 86400
  const RETENTION_MS: int := 2592000000
  const MAX_FAILURES: nat := 1000000

  /** A Retry-After header: missing or unreadable, a number of seconds, or a date in milliseconds. */
  datatype Header = Absent | Seconds(s: real) | Date(ms: int)

  datatype Kind = Gone | Unavailable | Invalid

  datatype Failure =
    | FetchFailed
    | FetchNotOk(status: nat, header: Header, readAt: int)
    | InvalidDocument
    | IdMismatch
    | MissingInbox
    | MissingPublicKey
    | ActorTombstoned

  // ---- pure arithmetic ----

  function Ceil(x: real): int {
    -((-x).Floor)
  }

  /** Whole seconds, at least 1 and at most `max`. */
  function ClampSeconds(seconds: real, max: nat): (r: int)
    requires max >= 1
    ensures 1 <= r <= max
    ensures 1.0 <= seconds <= max as real ==> seconds <= r as real < seconds + 1.0
  {
    var c := Ceil(seconds);
    var m := if c < max then c else max;
    if m > 1 then m else 1
  }

  /** The wait a header asks for; dates that have passed and negative numbers ask for none. */
  function RetryAfter(header: Header, now: int): Option<nat> {
    match header
    case Absent => None
    case Seconds(s) => if s >= 0.0 then Some(ClampSeconds(s, MAX_RETRY_AFTER)) else None
    case Date(ms) => if ms > now then Some(ClampSeconds((ms - now) as real / 1000.0, MAX_RETRY_AFTER)) else None
  }

  /** A hint is between a second and a day, and up to a day no shorter than the remote asked. */
  lemma {:induction false} HintBounds(header: Header, now: int)
    requires RetryAfter(header, now).Some?
    ensures var h := RetryAfter(header, now).value;
      && 1 <= h <= MAX_RETRY_AFTER
      && (header.Date? && header.ms <= now + MAX_RETRY_AFTER * 1000 ==> now + h * 1000 >= header.ms)
      && (header.Seconds? && header.s <= MAX_RETRY_AFTER as real ==> h as real >= header.s)
  {
  }

  function Remote(f: Failure): Option<nat> {
    if f.FetchNotOk? then RetryAfter(f.header, f.readAt) else None
  }

  function Classify(f: Failure): Kind {
    match f
    case FetchNotOk(status, _, _) => if status == 410 then Gone else Unavailable
    case ActorTombstoned => Gone
    case FetchFailed => Unavailable
    case _ => Invalid
  }

  function Pow2(e: nat): nat {
    if e == 0 then 1 else 2 * Pow2(e - 1)
  }

  function Exponent(count: nat): nat {
    var e := if count == 0 then 0 else count - 1;
    if e < 8 then e else 8
  }

  /** Seconds until the next try; none for an actor that is gone. */
  function Backoff(kind: Kind, count: nat, remote: Option<nat>): Option<nat> {
    if kind == Gone then None
    else
      var raw := (if kind == Invalid then INVALID_BASE else TRANSIENT_BASE) * Pow2(Exponent(count));
      var exponential := if raw < MAX_BACKOFF then raw else MAX_BACKOFF;
      var hint := if remote.Some? then remote.value else 0;
      Some(if exponential > hint then exponential else hint)
  }

  lemma {:induction false} Pow2Monotone(a: nat, b: nat)
    requires a <= b
    ensures 1 <= Pow2(a) <= Pow2(b)
    decreases b
  {
    if a < b {
      Pow2Monotone(a, b - 1);
    } else if a > 0 {
      Pow2Monotone(a - 1, a - 1);
    }
  }

  /**
   * A live failure always waits at least the lease length, at most an hour or the
   * remote hint, never less than the hint, and never shorter after more failures.
   */
  lemma {:induction false} BackoffBounds(kind: Kind, count: nat, more: nat, remote: Option<nat>)
    requires kind != Gone && count <= more
    ensures var b := Backoff(kind, count, remote);
      && b.Some? && b.value * 1000 >= LEASE_MS
      && (kind == Invalid ==> b.value >= INVALID_BASE)
      && (remote.Some? ==> b.value >= remote.value)
      && b.value <= (if remote.Some? && remote.value > MAX_BACKOFF then remote.value else MAX_BACKOFF)
      && Backoff(kind, more, remote).Some? && b.value <= Backoff(kind, more, remote).value
  {
    Pow2Monotone(Exponent(count), Exponent(more));
  }

  // ---- the ledger ----

  datatype Row = Row(kind: Kind, failureCount: nat, retryAt: Option<int>, token: Option<nat>, lease: Option<int>, updatedAt: int)

  datatype Db = Db(ledger: map<Id, Row>, cached: set<Id>, tombstones: set<Id>)

  /** The WHERE clause of the claiming update. */
  predicate Claimable(row: Row, now: int) {
    && row.kind != Gone
    && (row.retryAt.None? || row.retryAt.value <= now)
    && (row.token.None? || row.lease.None? || row.lease.value <= now)
  }

  function ClaimedRow(token: nat, now: int): Row {
    Row(Unavailable, 0, None, Some(token), Some(now + LEASE_MS), now)
  }

  /** The columns a failure record writes. */
  function FailureRow(f: Failure, priorCount: nat, now: int): Row {
    var count := if priorCount + 1 < MAX_FAILURES then priorCount + 1 else MAX_FAILURES;
    var kind := Classify(f);
    var backoff := Backoff(kind, count, Remote(f));
    Row(kind, count, if backoff.None? then None else Some(now + backoff.value * 1000), None, None, now)
  }

  predicate Reapable(row: Row, now: int) {
    row.updatedAt < now - RETENTION_MS && (row.lease.None? || row.lease.value <= now)
  }

  // ---- the interleaved system ----

  datatype Local =
    | Idle
    | Claiming(actor: Id, token: nat, now: int)                              // the insert found a row
    | Owning(actor: Id, token: nat, since: int)
    | Recording(actor: Id, token: nat, since: int, count: nat, now: int)     // prior count read
    | Dropping(actor: Id, token: nat)                                        // found the actor cached

  /** `claimedAt` is history: the time of the last successful claim on the row now in the ledger. */
  datatype World = World(db: Db, workers: map<nat, Local>, nextToken: nat, claimedAt: map<Id, int>)

  datatype Step =
    | ClaimInsert(worker: nat, actor: Id, now: int)
    | ClaimUpdate(worker: nat)
    | ReadPrior(worker: nat, now: int)
    | RecordFailure(worker: nat, failure: Failure)
    | ReadCached(worker: nat)                            // after a record that hit no row
    | DropStaleLease(worker: nat)
    | RecordUnowned(actor: Id, failure: Failure, priorCount: nat, now: int)
    | ClearOwned(worker: nat)
    | ClearAny(actor: Id)
    | CacheDocument(actor: Id)
    | Evict(actor: Id)
    | Tombstone(actor: Id)
    | Reap(actors: set<Id>, now: int)

  function LocalOf(s: World, i: nat): Local {
    if i in s.workers then s.workers[i] else Idle
  }

  predicate HasToken(db: Db, actor: Id, token: nat) {
    actor in db.ledger && db.ledger[actor].token == Some(token)
  }

  function RemoveRow(s: World, actor: Id): World {
    s.(db := s.db.(ledger := s.db.ledger - {actor}), claimedAt := s.claimedAt - {actor})
  }

  function DoClaimInsert(s: World, i: nat, actor: Id, now: int): World {
    if actor in s.db.ledger then
      s.(workers := s.workers[i := Claiming(actor, s.nextToken, now)], nextToken := s.nextToken + 1)
    else
      World(s.db.(ledger := s.db.ledger[actor := ClaimedRow(s.nextToken, now)]),
            s.workers[i := Owning(actor, s.nextToken, now)], s.nextToken + 1, s.claimedAt[actor := now])
  }

  predicate WinsUpdate(s: World, i: nat) {
    var l := LocalOf(s, i);
    l.Claiming? && l.actor in s.db.ledger && Claimable(s.db.ledger[l.actor], l.now)
  }

  function DoClaimUpdate(s: World, i: nat): World {
    var l := LocalOf(s, i);
    if !l.Claiming? then s
    else if WinsUpdate(s, i) then
      var row := s.db.ledger[l.actor].(token := Some(l.token), lease := Some(l.now + LEASE_MS), updatedAt := l.now);
      World(s.db.(ledger := s.db.ledger[l.actor := row]), s.workers[i := Owning(l.actor, l.token, l.now)], s.nextToken, s.claimedAt[l.actor := l.now])
    else s.(workers := s.workers[i := Idle])
  }

  function DoRecord(s: World, i: nat, f: Failure): World {
    var l := LocalOf(s, i);
    if l.Recording? && HasToken(s.db, l.actor, l.token) && l.actor !in s.db.cached then
      s.(db := s.db.(ledger := s.db.ledger[l.actor := FailureRow(f, l.count, l.now)]), workers := s.workers[i := Idle])
    else s
  }

  function Next(s: World, step: Step): World {
    match step
    case ClaimInsert(i, actor, now) => DoClaimInsert(s, i, actor, now)
    case ClaimUpdate(i) => DoClaimUpdate(s, i)
    case ReadPrior(i, now) =>
      var l := LocalOf(s, i);
      if l.Owning? && now >= l.since   // a worker's own clock does not run backwards
      then s.(workers := s.workers[i := Recording(l.actor, l.token, l.since, if l.actor in s.db.ledger then s.db.ledger[l.actor].failureCount else 0, now)])
      else s
    case RecordFailure(i, f) => DoRecord(s, i, f)
    case ReadCached(i) =>
      var l := LocalOf(s, i);
      if l.Recording? then s.(workers := s.workers[i := if l.actor in s.db.cached then Dropping(l.actor, l.token) else Idle]) else s
    case DropStaleLease(i) =>
      var l := LocalOf(s, i);
      if l.Dropping? && HasToken(s.db, l.actor, l.token) then RemoveRow(s, l.actor) else s
    case RecordUnowned(actor, f, count, now) =>
      s.(db := s.db.(ledger := s.db.ledger[actor := FailureRow(f, count, now)]))
    case ClearOwned(i) =>
      var l := LocalOf(s, i);
      if l.Owning? && HasToken(s.db, l.actor, l.token) then RemoveRow(s, l.actor) else s
    case ClearAny(actor) => RemoveRow(s, actor)
    case CacheDocument(actor) =>
      if actor in s.db.tombstones then s
      else RemoveRow(s, actor).(db := s.db.(cached := s.db.cached + {actor}, ledger := s.db.ledger - {actor}))
    case Evict(actor) => s.(db := s.db.(cached := s.db.cached - {actor}))
    case Tombstone(actor) => s.(db := s.db.(tombstones := s.db.tombstones + {actor}, cached := s.db.cached - {actor}))
    case Reap(actors, now) =>
      var gone := set a | a in s.db.ledger && a in actors && Reapable(s.db.ledger[a], now);
      s.(db := s.db.(ledger := s.db.ledger - gone), claimedAt := s.claimedAt - gone)
  }

  function Run(s: World, steps: seq<Step>): World {
    if steps == [] then s else Next(Run(s, steps[..|steps| - 1]), steps[|steps| - 1])
  }

  const EMPTY := World(Db(map[], {}, {}), map[], 0, map[])

  // ---- the invariant ----

  /** Nothing can claim this row before `until`. */
  ghost predicate HeldUntil(row: Row, until: int) {
    || row.kind == Gone
    || (row.retryAt.Some? && row.retryAt.value >= until)
    || (row.token.Some? && row.lease.Some? && row.lease.value >= until)
  }

  ghost predicate SpacingOk(s: World) {
    && s.claimedAt.Keys <= s.db.ledger.Keys
    && (forall a <- s.claimedAt :: HeldUntil(s.db.ledger[a], s.claimedAt[a] + LEASE_MS))
  }

  /** The token a worker holds, if any. */
  function TokenOf(l: Local): Option<nat> {
    if l.Idle? then None else Some(l.token)
  }

  ghost predicate TokensOk(s: World) {
    && (forall a <- s.db.ledger :: s.db.ledger[a].token.Some? ==> s.db.ledger[a].token.value < s.nextToken)
    && (forall i <- s.workers :: TokenOf(s.workers[i]).Some? ==> TokenOf(s.workers[i]).value < s.nextToken)
    && (forall i <- s.workers, j <- s.workers :: i != j && TokenOf(s.workers[i]).Some? ==> TokenOf(s.workers[i]) != TokenOf(s.workers[j]))
    && (forall a <- s.db.ledger, b <- s.db.ledger :: a != b && s.db.ledger[a].token.Some? ==> s.db.ledger[a].token != s.db.ledger[b].token)
    && (forall i <- s.workers, a <- s.db.ledger :: s.workers[i].Claiming? ==> s.db.ledger[a].token != Some(s.workers[i].token))
  }

  /** While a row carries a worker's token, that worker's claim is the last one. */
  ghost predicate OwnersOk(s: World) {
    forall i <- s.workers :: var l := s.workers[i];
      (l.Owning? || l.Recording?) ==>
        (HasToken(s.db, l.actor, l.token) ==> l.actor in s.claimedAt && s.claimedAt[l.actor] == l.since)
        && (l.Recording? ==> l.now >= l.since)
  }

  ghost predicate Inv(s: World) {
    SpacingOk(s) && TokensOk(s) && OwnersOk(s)
  }

  /** An unowned record is timely when it does not open the row before the last claim's lease would. */
  ghost predicate Timely(s: World, step: Step) {
    step.RecordUnowned? && step.actor in s.claimedAt ==>
      HeldUntil(FailureRow(step.failure, step.priorCount, step.now), s.claimedAt[step.actor] + LEASE_MS)
  }

  lemma {:induction false} FailureRowHolds(f: Failure, count: nat, now: int)
    ensures HeldUntil(FailureRow(f, count, now), now + LEASE_MS)
  {
    var c := if count + 1 < MAX_FAILURES then count + 1 else MAX_FAILURES;
    if Classify(f) != Gone {
      BackoffBounds(Classify(f), c, c, Remote(f));
    }
  }

  lemma {:induction false} NextKeepsSpacing(s: World, step: Step)
    requires Inv(s) && Timely(s, step)
    ensures SpacingOk(Next(s, step))
  {
    if step.RecordFailure? && LocalOf(s, step.worker).Recording? {
      var l := LocalOf(s, step.worker);
      FailureRowHolds(step.failure, l.count, l.now);
    }
  }

  /** A drawn token is on no row and with no worker. */
  lemma {:induction false} FreshTokenIsUnused(s: World)
    requires TokensOk(s)
    ensures forall a <- s.db.ledger :: s.db.ledger[a].token != Some(s.nextToken)
    ensures forall i <- s.workers :: TokenOf(s.workers[i]) != Some(s.nextToken)
  {
  }

  lemma {:induction false} InsertKeepsTokens(s: World, i: nat, actor: Id, now: int)
    requires TokensOk(s)
    ensures TokensOk(DoClaimInsert(s, i, actor, now))
  {
    FreshTokenIsUnused(s);
  }

  lemma {:induction false} UpdateKeepsTokens(s: World, i: nat)
    requires TokensOk(s)
    ensures TokensOk(DoClaimUpdate(s, i))
  {
  }

  lemma {:induction false} ClaimKeepsTokens(s: World, step: Step)
    requires TokensOk(s) && (step.ClaimInsert? || step.ClaimUpdate?)
    ensures TokensOk(Next(s, step))
  {
    if step.ClaimInsert? {
      InsertKeepsTokens(s, step.worker, step.actor, step.now);
    } else {
      UpdateKeepsTokens(s, step.worker);
    }
  }

  /** The other steps issue no token and only take tokens off rows and workers. */
  lemma {:induction false} OtherStepTokens(s: World, step: Step)
    requires !step.ClaimInsert? && !step.ClaimUpdate?
    ensures var s' := Next(s, step);
      && s'.nextToken == s.nextToken
      && (forall a <- s'.db.ledger :: s'.db.ledger[a].token.Some? ==> a in s.db.ledger && s'.db.ledger[a].token == s.db.ledger[a].token)
      && (forall i <- s'.workers :: TokenOf(s'.workers[i]).Some? ==> i in s.workers && TokenOf(s'.workers[i]) == TokenOf(s.workers[i]))
      && (forall i <- s'.workers :: s'.workers[i].Claiming? ==> i in s.workers && s.workers[i] == s'.workers[i])
  {
  }

  lemma {:induction false} NextKeepsTokens(s: World, step: Step)
    requires TokensOk(s)
    ensures TokensOk(Next(s, step))
  {
    if step.ClaimInsert? || step.ClaimUpdate? {
      ClaimKeepsTokens(s, step);
    } else {
      OtherStepTokens(s, step);
    }
  }

  lemma {:induction false} ClaimKeepsOwners(s: World, step: Step)
    requires Inv(s) && (step.ClaimInsert? || step.ClaimUpdate?)
    ensures OwnersOk(Next(s, step))
  {
  }

  lemma {:induction false} OtherStepKeepsOwners(s: World, step: Step)
    requires Inv(s) && !step.ClaimInsert? && !step.ClaimUpdate?
    ensures OwnersOk(Next(s, step))
  {
  }

  lemma {:induction false} NextKeepsInv(s: World, step: Step)
    requires Inv(s) && Timely(s, step)
    ensures Inv(Next(s, step))
  {
    NextKeepsSpacing(s, step);
    NextKeepsTokens(s, step);
    if step.ClaimInsert? || step.ClaimUpdate? {
      ClaimKeepsOwners(s, step);
    } else {
      OtherStepKeepsOwners(s, step);
    }
  }

  ghost predicate AllTimely(s: World, steps: seq<Step>) {
    forall n | 0 <= n < |steps| :: Timely(Run(s, steps[..n]), steps[n])
  }

  lemma {:induction false} RunKeepsInv(steps: seq<Step>)
    requires AllTimely(EMPTY, steps)
    ensures Inv(Run(EMPTY, steps))
  {
    if steps != [] {
      var n := |steps| - 1;
      var init := steps[..n];
      forall k | 0 <= k < n ensures Timely(Run(EMPTY, init[..k]), init[k]) {
        assert init[..k] == steps[..k];
        assert Timely(Run(EMPTY, steps[..k]), steps[k]);
      }
      RunKeepsInv(init);
      assert Timely(Run(EMPTY, steps[..n]), steps[n]);
      NextKeepsInv(Run(EMPTY, init), steps[n]);
    }
  }

  // ---- what every run guarantees ----

  /**
   * Single flight: in any run, a claim that wins on an existing row comes at least
   * the lease length after the previous claim on that row, unless a record without a
   * token was untimely. The other way to win is to create the row, which needs it to
   * be absent.
   */
  lemma {:induction false} ClaimsAreSpaced(steps: seq<Step>, i: nat)
    ensures var s := Run(EMPTY, steps);
      WinsUpdate(s, i) && LocalOf(s, i).actor in s.claimedAt ==>
        LocalOf(s, i).now >= s.claimedAt[LocalOf(s, i).actor] + LEASE_MS || UntimelyIn(EMPTY, steps)
    ensures forall actor, now :: LocalOf(Next(Run(EMPTY, steps), ClaimInsert(i, actor, now)), i).Owning? ==> actor !in Run(EMPTY, steps).db.ledger
  {
    if !UntimelyIn(EMPTY, steps) {
      forall n | 0 <= n < |steps| ensures Timely(Run(EMPTY, steps[..n]), steps[n]) {
      }
      RunKeepsInv(steps);
    }
  }

  /** Some record without a token reopened a row before the last claim's lease would have. */
  ghost predicate UntimelyIn(s: World, steps: seq<Step>) {
    exists n | 0 <= n < |steps| :: !Timely(Run(s, steps[..n]), steps[n])
  }

  /** Callers that always pass their token, as the profile route does, are spaced in every run. */
  lemma {:induction false} OwnedRunsAreSpaced(steps: seq<Step>, i: nat)
    requires forall n | 0 <= n < |steps| :: !steps[n].RecordUnowned?
    requires var s := Run(EMPTY, steps); WinsUpdate(s, i) && LocalOf(s, i).actor in s.claimedAt
    ensures LocalOf(Run(EMPTY, steps), i).now >= Run(EMPTY, steps).claimedAt[LocalOf(Run(EMPTY, steps), i).actor] + LEASE_MS
  {
    ClaimsAreSpaced(steps, i);
    forall n | 0 <= n < |steps| ensures Timely(Run(EMPTY, steps[..n]), steps[n]) {
      assert !steps[n].RecordUnowned?;
    }
  }

  /** Without the timeliness of an unowned record the spacing is lost: exactly then may a claim come too early. */
  lemma {:induction false} UntimelyRecordBreaksSpacing(s: World, step: Step)
    requires Inv(s) && step.RecordUnowned? && step.actor in s.claimedAt
    ensures Timely(s, step) <==>
      forall now :: Claimable(Next(s, step).db.ledger[step.actor], now) ==> now >= s.claimedAt[step.actor] + LEASE_MS
  {
    var row := FailureRow(step.failure, step.priorCount, step.now);
    assert Next(s, step).db.ledger[step.actor] == row;
    var until := s.claimedAt[step.actor] + LEASE_MS;
    if !HeldUntil(row, until) {
      var c := if step.priorCount + 1 < MAX_FAILURES then step.priorCount + 1 else MAX_FAILURES;
      BackoffBounds(Classify(step.failure), c, c, Remote(step.failure));
      assert Claimable(row, row.retryAt.value);
    }
  }

  lemma {:induction false} RunOne(s: World, step: Step)
    ensures Run(s, [step]) == Next(s, step)
  {
    assert [step][..0] == [];
  }

  /** A concrete early claim: a record that read its clock before the claim it wipes. */
  lemma {:induction false} EarlyClaimExample()
    ensures var a := Id("actor");
      var s := Run(EMPTY, [ClaimInsert(0, a, 1000), RecordUnowned(a, FetchFailed, 0, 0), ClaimInsert(1, a, 30000)]);
      WinsUpdate(s, 1) && a in s.claimedAt && LocalOf(s, 1).now < s.claimedAt[a] + LEASE_MS
  {
    var a := Id("actor");
    var c, r, d := ClaimInsert(0, a, 1000), RecordUnowned(a, FetchFailed, 0, 0), ClaimInsert(1, a, 30000);
    var w1 := Run(EMPTY, [c]);
    RunOne(EMPTY, c);
    assert w1 == DoClaimInsert(EMPTY, 0, a, 1000);
    assert w1.db.ledger == map[a := ClaimedRow(0, 1000)] && w1.claimedAt == map[a := 1000] && w1.nextToken == 1;
    var w2 := Run(EMPTY, [c, r]);
    assert [c, r][..1] == [c];
    assert Pow2(Exponent(1)) == 1;
    assert FailureRow(FetchFailed, 0, 0) == Row(Unavailable, 1, Some(30000), None, None, 0);
    assert w2.db.ledger[a] == FailureRow(FetchFailed, 0, 0) && w2.claimedAt == w1.claimedAt;
    assert [c, r, d][..2] == [c, r];
  }

  /** A token that was issued and is on no row. */
  ghost predicate Superseded(s: World, token: nat) {
    && token < s.nextToken
    && (forall a <- s.db.ledger :: s.db.ledger[a].token != Some(token))
    && (forall i <- s.workers :: s.workers[i].Claiming? ==> s.workers[i].token != token)
  }

  lemma {:induction false} NextKeepsSuperseded(s: World, step: Step, token: nat)
    requires Superseded(s, token)
    ensures Superseded(Next(s, step), token)
  {
    if !step.ClaimInsert? && !step.ClaimUpdate? {
      OtherStepTokens(s, step);
    }
  }

  /** A completion carrying a superseded token changes no row, now and after any further run. */
  lemma {:induction false} StaleCompletionNeverWrites(s: World, steps: seq<Step>, token: nat, i: nat, f: Failure)
    requires Superseded(s, token)
    ensures Superseded(Run(s, steps), token)
    ensures var s' := Run(s, steps);
      TokenOf(LocalOf(s', i)) == Some(token) ==>
        && Next(s', RecordFailure(i, f)).db == s'.db
        && Next(s', DropStaleLease(i)).db == s'.db
        && Next(s', ClearOwned(i)).db == s'.db
  {
    if steps != [] {
      StaleCompletionNeverWrites(s, steps[..|steps| - 1], token, i, f);
      NextKeepsSuperseded(Run(s, steps[..|steps| - 1]), steps[|steps| - 1], token);
    }
  }

  /** A won update supersedes the token it replaces. */
  lemma {:induction false} TakeoverSupersedes(s: World, i: nat, token: nat)
    requires Inv(s) && WinsUpdate(s, i) && HasToken(s.db, LocalOf(s, i).actor, token)
    ensures Superseded(DoClaimUpdate(s, i), token)
  {
  }

  /** The operations as one caller runs them. */
  class Ledger {
    var rows: map<Id, Row>
    var cached: set<Id>

    constructor ()
      ensures rows == map[] && cached == {}
    {
      rows, cached := map[], {};
    }

    /**
     * Insert the row, or take it over if it is claimable by then: `between` is the
     * table as others leave it between the two statements. A claim that wins keeps
     * everybody else out for the lease length; one that loses leaves the table alone.
     */
    method ClaimRemoteActorFetch(actor: Id, token: nat, now: int, between: map<Id, Row>) returns (owned: bool)
      modifies this`rows
      ensures owned <==> actor !in old(rows) || (actor in between && Claimable(between[actor], now))
      ensures owned ==> actor in rows && rows[actor].token == Some(token) && rows[actor].lease == Some(now + LEASE_MS)
      ensures owned ==> forall later :: Claimable(rows[actor], later) ==> later >= now + LEASE_MS
      ensures actor !in old(rows) ==> rows == old(rows)[actor := ClaimedRow(token, now)]
      ensures actor in old(rows) ==>
        rows == if owned then between[actor := between[actor].(token := Some(token), lease := Some(now + LEASE_MS), updatedAt := now)] else between
    {
      if actor !in rows {
        rows := rows[actor := ClaimedRow(token, now)];
        return true;
      }
      rows := between;
      if actor in rows && Claimable(rows[actor], now) {
        rows := rows[actor := rows[actor].(token := Some(token), lease := Some(now + LEASE_MS), updatedAt := now)];
        return true;
      }
      owned := false;
    }

    /**
     * Record a failure under a claim token. It is recorded exactly under its own token
     * on an actor that is not cached; then nobody may claim for at least the lease
     * length, and no lease is left on the row. Otherwise a row that another owner holds
     * stays as it is, and a cached actor keeps no row of this claim.
     */
    method RecordRemoteActorFetchFailure(actor: Id, f: Failure, now: int, token: nat) returns (recorded: bool)
      modifies this`rows
      ensures recorded <==> actor in old(rows) && old(rows)[actor].token == Some(token) && actor !in cached
      ensures recorded ==> rows == old(rows)[actor := FailureRow(f, old(rows)[actor].failureCount, now)]
      ensures forall a | a != actor :: a in rows <==> a in old(rows)
      ensures forall a | a in rows && a != actor :: rows[a] == old(rows)[a]
      ensures recorded ==> actor in rows && rows[actor].token.None?
      ensures recorded ==> forall later :: Claimable(rows[actor], later) ==> later >= now + LEASE_MS
      ensures actor in old(rows) && old(rows)[actor].token != Some(token) ==> rows == old(rows)
      ensures !recorded && actor in cached && actor in rows ==> rows[actor].token != Some(token)
      ensures !recorded ==> rows == if actor in cached && actor in old(rows) && old(rows)[actor].token == Some(token) then old(rows) - {actor} else old(rows)
    {
      var prior := if actor in rows then rows[actor].failureCount else 0;
      recorded := actor in rows && rows[actor].token == Some(token) && actor !in cached;
      if recorded {
        FailureRowHolds(f, prior, now);
        rows := rows[actor := FailureRow(f, prior, now)];
      } else if actor in cached && actor in rows && rows[actor].token == Some(token) {
        rows := rows - {actor};
      }
    }
  }
}
