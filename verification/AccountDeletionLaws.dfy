/**
 * What a reservation plans, what its lease admits and what becomes of the actors, in
 * terms of the rows alone.
 */
module AccountDeletionLaws {
  import opened Wrappers
  import opened AccountDeletion

  // ---- whom a deletion reaches ----

  /** A live actor that is the root or, when cascading, owned by it. */
  predicate InScope(db: Db, root: Id, cascade: bool, a: Id) {
    && a in db.actors && !db.actors[a].deleted
    && (a == root || (cascade && db.actors[a].owner == Some(root)))
  }

  /**
   * The root is alive with the expected key, user and owner, no operation has that root
   * and nobody in scope is planned already.
   */
  ghost predicate Reservable(db: Db, root: Id, key: Id, takosUser: Option<Id>, owner: Option<Id>, cascade: bool) {
    && root in db.actors && !db.actors[root].deleted
    && db.actors[root].key == key && db.actors[root].takosUser == takosUser && db.actors[root].owner == owner
    && (forall o <- db.ops :: db.ops[o].root != root)
    && (forall a <- db.targets :: !InScope(db, root, cascade, a))
  }

  /** Exactly those in scope are planned, under their keys and not yet complete, beside what was planned before. */
  ghost predicate PlansScope(db: Db, db': Db, op: nat, plan: Plan, root: Id, cascade: bool) {
    && plan.root == root && plan.cascade == cascade
    && (forall a :: a in plan.keys <==> InScope(db, root, cascade, a))
    && (forall a <- plan.keys :: plan.keys[a] == db.actors[a].key)
    && (forall a :: a in db'.targets <==> a in db.targets || InScope(db, root, cascade, a))
    && (forall a <- db'.targets :: db'.targets[a] == if a in db.targets then db.targets[a] else Target(op, db.actors[a].key, false))
  }

  /** A reservation commits exactly when it may; it then plans the scope under a fresh lease and touches nothing else. */
  lemma {:induction false} ReservationPlans(s: World, i: nat, root: Id, key: Id, takosUser: Option<Id>, owner: Option<Id>, cascade: bool, now: int)
    ensures var s' := Next(s, Reserving(i, root, key, takosUser, owner, cascade, now));
      if Reservable(s.db, root, key, takosUser, owner, cascade)
      then
        && s.next in s'.plans && PlansScope(s.db, s'.db, s.next, s'.plans[s.next], root, cascade)
        && s'.plans == s.plans[s.next := s'.plans[s.next]]
        && s'.workers == s.workers[i := Holding(s.next, s.next + 1)]
        && s'.db == s.db.(ops := s.db.ops[s.next := Operation(root, key, s.next + 1, now + 120000)], targets := s'.db.targets)
      else s' == s
  {
    ReservableIff(s.db, root, key, takosUser, owner, cascade);
    if Reservable(s.db, root, key, takosUser, owner, cascade) {
      ReservedRows(s.db, s.next, s.next + 1, root, key, cascade, now);
    }
  }

  lemma {:induction false} ReservableIff(db: Db, root: Id, key: Id, takosUser: Option<Id>, owner: Option<Id>, cascade: bool)
    ensures MayReserve(db, root, key, takosUser, owner, cascade) <==> Reservable(db, root, key, takosUser, owner, cascade)
  {
  }

  lemma {:induction false} ReservedRows(db: Db, op: nat, token: nat, root: Id, key: Id, cascade: bool, now: int)
    requires forall a <- db.targets :: !InScope(db, root, cascade, a)
    ensures PlansScope(db, Reserve(db, op, token, root, key, cascade, now), op, ReservedPlan(db, root, cascade), root, cascade)
  {
    assert forall a <- db.actors :: Planned(db, root, cascade, a) <==> InScope(db, root, cascade, a);
  }

  /** Every plan is the scope of its root in the state in which it was reserved. */
  lemma {:induction false} PlanOrigin(s: World, steps: seq<Step>, op: nat) returns (k: nat)
    requires Initial(s) && op in Run(s, steps).plans
    ensures k < |steps| && steps[k].Reserving?
    ensures var plan := Run(s, steps).plans[op];
      && plan.root == steps[k].root && plan.cascade == steps[k].cascade
      && (forall a :: a in plan.keys <==> InScope(Run(s, steps[..k]).db, plan.root, plan.cascade, a))
      && (forall a <- plan.keys :: plan.keys[a] == Run(s, steps[..k]).db.actors[a].key)
  {
    var n := |steps| - 1;
    assert steps != [];
    var before, step := Run(s, steps[..n]), steps[n];
    RunKeepsInv(s, steps[..n]);
    if op in before.plans {
      k := PlanOrigin(s, steps[..n], op);
      assert steps[..n][..k] == steps[..k];
      assert op < before.next;
      NextKeepsHistory(before, step, op);
    } else {
      NewPlanIsReserved(before, step, op);
      k := n;
      ReservationPlans(before, step.worker, step.root, step.key, step.takosUser, step.owner, step.cascade, step.now);
    }
  }

  lemma {:induction false} NewPlanIsReserved(s: World, step: Step, op: nat)
    requires op !in s.plans && op in Next(s, step).plans
    ensures step.Reserving? && op == s.next && MayReserve(s.db, step.root, step.key, step.takosUser, step.owner, step.cascade)
  {
  }

  /** The row of an actor that was finalized. */
  function Tombstone(row: Actor): Actor {
    row.(deleted := true, owner := None, takosUser := None)
  }

  /** A finalized operation whose plan has this actor, as its root or as owned by it in a cascading plan. */
  ghost predicate Erased(s: World, op: nat, a: Id, row: Actor) {
    && op in s.plans && op !in s.db.ops && a in s.plans[op].keys
    && (a == s.plans[op].root || (s.plans[op].cascade && row.owner == Some(s.plans[op].root)))
  }

  /** The row is as it was, or is the tombstone of an actor some finalized operation was to delete. */
  ghost predicate FateOf(s: World, a: Id, row: Actor) {
    && a in s.db.actors
    && (s.db.actors[a] == row
        || (!row.deleted && s.db.actors[a] == Tombstone(row) && exists op <- s.plans :: Erased(s, op, a, row)))
  }

  /** Only a finalization changes an actor's row, and only one of its plan. */
  lemma {:induction false} OnlyFinalizationErases(s: World, step: Step, a: Id)
    requires Inv(s) && a in s.db.actors
    ensures var s' := Next(s, step);
      && a in s'.db.actors
      && (s'.db.actors[a] == s.db.actors[a]
          || (step.Finalizing? && !s.db.actors[a].deleted && s'.db.actors[a] == Tombstone(s.db.actors[a])
              && LocalOf(s, step.worker).Holding? && Erased(s', LocalOf(s, step.worker).op, a, s.db.actors[a])))
  {
    if step.Finalizing? {
      var l := LocalOf(s, step.worker);
      if l.Holding? && MayFinalize(s.db, l.op, l.token, step.now) {
        assert PlanOk(s.db, l.op, s.plans[l.op]);
        assert InPlan(s.db, l.op, a) <==> a in s.plans[l.op].keys;
      }
    } else {
      OthersKeepActor(s, step, a);
    }
  }

  lemma {:induction false} OthersKeepActor(s: World, step: Step, a: Id)
    requires !step.Finalizing? && a in s.db.actors
    ensures a in Next(s, step).db.actors && Next(s, step).db.actors[a] == s.db.actors[a]
  {
  }

  /** What is gone stays gone. */
  lemma {:induction false} ErasedStays(s: World, step: Step, op: nat, a: Id, row: Actor)
    requires Inv(s) && Erased(s, op, a, row)
    ensures Erased(Next(s, step), op, a, row)
  {
    NextKeepsHistory(s, step, op);
  }

  /**
   * Over every run each actor's row survives as it was, unless a finalized operation had
   * it in its plan, as the root or as owned by the root of a cascading plan.
   */
  lemma {:induction false} ActorsFate(s: World, steps: seq<Step>, a: Id)
    requires Inv(s) && a in s.db.actors
    ensures FateOf(Run(s, steps), a, s.db.actors[a])
  {
    if steps != [] {
      var n := |steps| - 1;
      ActorsFate(s, steps[..n], a);
      RunKeepsInv(s, steps[..n]);
      FateStep(Run(s, steps[..n]), steps[n], a, s.db.actors[a]);
    }
  }

  lemma {:induction false} FateStep(s: World, step: Step, a: Id, row: Actor)
    requires Inv(s) && FateOf(s, a, row)
    ensures FateOf(Next(s, step), a, row)
  {
    OnlyFinalizationErases(s, step, a);
    var s' := Next(s, step);
    if s.db.actors[a] == row {
      if s'.db.actors[a] != row {
        assert Erased(s', LocalOf(s, step.worker).op, a, row);
      }
    } else {
      var op :| op in s.plans && Erased(s, op, a, row);
      ErasedStays(s, step, op, a, row);
      assert s'.db.actors[a] == Tombstone(row);
    }
  }

  // ---- what the lease and the fence admit ----

  /** The worker holds the operation under its current token and the lease has not run out. */
  predicate Leased(s: World, i: nat, now: int) {
    var l := LocalOf(s, i);
    l.Holding? && l.op in s.db.ops && s.db.ops[l.op].token == l.token && s.db.ops[l.op].expires > now
  }

  /** While an operation is reserved its planned actors never lose their incarnation. */
  lemma {:induction false} IncarnationsHold(s: World, op: nat)
    requires Inv(s) && op in s.db.ops
    ensures op in s.plans && RootAlive(s.db, s.db.ops[op]) && IncarnationsValid(s.db, op)
    ensures forall a :: InPlan(s.db, op, a) <==> a in s.plans[op].keys
  {
    assert PlanOk(s.db, op, s.plans[op]);
    forall a | InPlan(s.db, op, a) ensures a in s.db.actors && s.db.actors[a].key == s.db.targets[a].key && !s.db.actors[a].deleted {
      assert a in s.plans[op].keys;
    }
  }

  lemma {:induction false} ClaimIff(s: World, op: nat, now: int)
    requires Inv(s)
    ensures MayClaim(s.db, op, now) <==> op in s.db.ops && s.db.ops[op].expires <= now
  {
    if op in s.db.ops {
      IncarnationsHold(s, op);
    }
  }

  lemma {:induction false} RenewIff(s: World, op: nat, token: nat, now: int)
    requires Inv(s)
    ensures MayRenew(s.db, op, token, now) <==> op in s.db.ops && s.db.ops[op].token == token && s.db.ops[op].expires > now
  {
    if op in s.db.ops {
      IncarnationsHold(s, op);
    }
  }

  /** The planned actor is gone, has another key, or is a tombstone. */
  predicate Lost(db: Db, a: Id, key: Id) {
    a !in db.actors || db.actors[a].key != key || db.actors[a].deleted
  }

  predicate LostTarget(db: Db, op: nat, a: Id) {
    a in db.targets && db.targets[a].op == op && Lost(db, a, db.targets[a].key)
  }

  /**
   * In any state whatever, reachable or not: once the root or a planned actor has lost its
   * incarnation, no worker claims or renews the operation, and none finalizes it without a
   * planned actor.
   */
  lemma {:induction false} LostIncarnationStops(s: World, i: nat, op: nat, a: Id, now: int)
    requires op in s.db.ops
    requires Lost(s.db, s.db.ops[op].root, s.db.ops[op].rootKey) || LostTarget(s.db, op, a)
    ensures Next(s, Claiming(i, op, now)) == s
    ensures LocalOf(s, i).Holding? && LocalOf(s, i).op == op ==> Next(s, Renewing(i, now)) == s
    ensures LocalOf(s, i).Holding? && LocalOf(s, i).op == op && LostTarget(s.db, op, a) ==> Next(s, Finalizing(i, now)) == s
  {
  }

  /** A teardown batch needs the keys of its root and of its target as planned. */
  lemma {:induction false} ChangedKeyStops(s: World, i: nat, a: Id, owned: Owned, objects: map<Id, Id>, now: int)
    requires LocalOf(s, i).Holding? && LocalOf(s, i).op in s.db.ops && a in s.db.targets
    requires var o := s.db.ops[LocalOf(s, i).op];
      || o.root !in s.db.actors || s.db.actors[o.root].key != o.rootKey
      || a !in s.db.actors || s.db.actors[a].key != s.db.targets[a].key
    ensures Next(s, Tearing(i, a, owned, objects, now)) == s && Next(s, Completing(i, a, now)) == s
  {
  }

  /** A claim wins exactly when the operation is reserved and its lease has run out. */
  lemma {:induction false} ClaimNeedsExpiry(s: World, i: nat, op: nat, now: int)
    requires Inv(s)
    ensures var s' := Next(s, Claiming(i, op, now));
      if op in s.db.ops && s.db.ops[op].expires <= now
      then s' == s.(db := s.db.(ops := s.db.ops[op := Operation(s.db.ops[op].root, s.db.ops[op].rootKey, s.next, now + 120000)]),
                    workers := s.workers[i := Holding(op, s.next)], next := s.next + 1)
      else s' == s
  {
    ClaimIff(s, op, now);
  }

  /** A heartbeat renews exactly a lease that its worker holds and that has not run out. */
  lemma {:induction false} RenewNeedsLease(s: World, i: nat, now: int)
    requires Inv(s)
    ensures var s' := Next(s, Renewing(i, now));
      if Leased(s, i, now)
      then var op := LocalOf(s, i).op; s' == s.(db := s.db.(ops := s.db.ops[op := s.db.ops[op].(expires := now + 120000)]))
      else s' == s
  {
    var l := LocalOf(s, i);
    if l.Holding? {
      RenewIff(s, l.op, l.token, now);
      assert Leased(s, i, now) <==> MayRenew(s.db, l.op, l.token, now);
    }
    Renewed(s, i, now);
  }

  lemma {:induction false} Renewed(s: World, i: nat, now: int)
    ensures var s' := Next(s, Renewing(i, now)); var l := LocalOf(s, i);
      s' == if l.Holding? && MayRenew(s.db, l.op, l.token, now)
            then s.(db := s.db.(ops := s.db.ops[l.op := s.db.ops[l.op].(expires := now + 120000)])) else s
  {
  }

  /** A release ends the worker's tenure, and its lease at once if it still holds it; it needs no running lease. */
  lemma {:induction false} ReleaseFreesLease(s: World, i: nat)
    ensures var s' := Next(s, Releasing(i)); var l := LocalOf(s, i);
      && LocalOf(s', i) == Idle && (forall j | j != i :: LocalOf(s', j) == LocalOf(s, j))
      && s'.plans == s.plans && s'.next == s.next
      && s'.db == if l.Holding? && l.op in s.db.ops && s.db.ops[l.op].token == l.token
                  then s.db.(ops := s.db.ops[l.op := Operation(s.db.ops[l.op].root, s.db.ops[l.op].rootKey, l.token, 0)])
                  else s.db
  {
  }

  lemma {:induction false} GuardIff(s: World, op: nat, token: nat, target: Id, now: int)
    requires Inv(s)
    ensures WorkerGuard(s.db, op, token, target, now) <==>
      && op in s.db.ops && s.db.ops[op].token == token && s.db.ops[op].expires > now
      && op in s.plans && target in s.plans[op].keys
  {
    if op in s.db.ops {
      IncarnationsHold(s, op);
      assert InPlan(s.db, op, target) <==> target in s.plans[op].keys;
    }
  }

  /** The lease is running and its operation has this actor in its plan. */
  predicate Admitted(s: World, i: nat, target: Id, now: int) {
    && Leased(s, i, now)
    && LocalOf(s, i).op in s.plans && target in s.plans[LocalOf(s, i).op].keys
  }

  lemma {:induction false} AdmittedIff(s: World, i: nat, target: Id, now: int)
    requires Inv(s)
    ensures Admitted(s, i, target, now) <==>
      LocalOf(s, i).Holding? && WorkerGuard(s.db, LocalOf(s, i).op, LocalOf(s, i).token, target, now)
    ensures Admitted(s, i, target, now) ==> target in s.db.targets
  {
    var l := LocalOf(s, i);
    if l.Holding? {
      GuardIff(s, l.op, l.token, target, now);
    }
  }

  /** Teardown batches go through exactly under a running lease, for a planned actor. */
  lemma {:induction false} TeardownNeedsLease(s: World, i: nat, target: Id, owned: Owned, objects: map<Id, Id>, now: int)
    requires Inv(s)
    ensures Next(s, Tearing(i, target, owned, objects, now)) ==
      if Admitted(s, i, target, now) then s.(db := s.db.(owned := owned, objects := objects)) else s
  {
    AdmittedIff(s, i, target, now);
  }

  /** So does the mark that an actor's teardown is complete, and it sets that mark alone. */
  lemma {:induction false} CompletionNeedsLease(s: World, i: nat, target: Id, now: int)
    requires Inv(s)
    ensures Admitted(s, i, target, now) ==> target in s.db.targets
    ensures Next(s, Completing(i, target, now)) ==
      if Admitted(s, i, target, now)
      then s.(db := s.db.(targets := s.db.targets[target := Target(s.db.targets[target].op, s.db.targets[target].key, true)]))
      else s
  {
    AdmittedIff(s, i, target, now);
    Completed(s, i, target, now);
  }

  lemma {:induction false} Completed(s: World, i: nat, target: Id, now: int)
    ensures var l := LocalOf(s, i);
      Next(s, Completing(i, target, now)) ==
      if l.Holding? && WorkerGuard(s.db, l.op, l.token, target, now)
      then s.(db := s.db.(targets := s.db.targets[target := Target(s.db.targets[target].op, s.db.targets[target].key, true)]))
      else s
  {
  }

  /** No planned actor has an upload, an attempt or a deletion job left. */
  ghost predicate NothingLeft(db: Db, plan: Plan) {
    && (forall r <- db.owned.uploads :: db.owned.uploads[r] !in plan.keys)
    && (forall r <- db.owned.attempts :: db.owned.attempts[r] !in plan.keys)
    && (forall r <- db.owned.blobJobs :: db.owned.blobJobs[r] !in plan.keys)
  }

  ghost predicate Ready(s: World, op: nat) {
    && op in s.plans && NothingLeft(s.db, s.plans[op])
    && (forall a <- s.plans[op].keys :: a in s.db.targets && s.db.targets[a].complete)
  }

  /** A finalization commits exactly under a running lease, with every planned actor completed and nothing of theirs left. */
  lemma {:induction false} FinalizationCommitsIff(s: World, i: nat, now: int)
    requires Inv(s)
    ensures var s' := Next(s, Finalizing(i, now));
      if Leased(s, i, now) && Ready(s, LocalOf(s, i).op)
      then LocalOf(s, i).op in s.db.ops && LocalOf(s, i).op !in s'.db.ops
      else s' == s
  {
    var l := LocalOf(s, i);
    if l.Holding? && l.op in s.db.ops {
      RootPlanned(s, l.op);
      GuardIff(s, l.op, l.token, s.db.ops[l.op].root, now);
      ReadyIff(s, l.op);
    }
    Finalized(s, i, now);
  }

  lemma {:induction false} Finalized(s: World, i: nat, now: int)
    ensures var s' := Next(s, Finalizing(i, now)); var l := LocalOf(s, i);
      if l.Holding? && MayFinalize(s.db, l.op, l.token, now) then l.op in s.db.ops && l.op !in s'.db.ops else s' == s
  {
  }

  lemma {:induction false} RootPlanned(s: World, op: nat)
    requires Inv(s) && op in s.db.ops
    ensures op in s.plans && s.db.ops[op].root in s.plans[op].keys
  {
    assert PlanOk(s.db, op, s.plans[op]);
  }

  lemma {:induction false} ReadyIff(s: World, op: nat)
    requires Inv(s) && op in s.db.ops
    ensures AllDone(s.db, op) <==> Ready(s, op)
  {
    IncarnationsHold(s, op);
    DoneIff(s.db, op, s.plans[op]);
  }

  lemma {:induction false} DoneIff(db: Db, op: nat, plan: Plan)
    requires IncarnationsValid(db, op) && forall a :: InPlan(db, op, a) <==> a in plan.keys
    ensures AllDone(db, op) <==> NothingLeft(db, plan) && forall a <- plan.keys :: a in db.targets && db.targets[a].complete
  {
    RowsOfPlan(db, op, plan, db.owned.uploads);
    RowsOfPlan(db, op, plan, db.owned.attempts);
    RowsOfPlan(db, op, plan, db.owned.blobJobs);
    CompleteIff(db, op, plan);
  }

  lemma {:induction false} CompleteIff(db: Db, op: nat, plan: Plan)
    requires forall a :: InPlan(db, op, a) <==> a in plan.keys
    ensures (forall a <- db.targets :: db.targets[a].op == op ==> db.targets[a].complete)
      <==> (forall a <- plan.keys :: a in db.targets && db.targets[a].complete)
  {
    forall a | a in plan.keys ensures a in db.targets && db.targets[a].op == op {
      assert InPlan(db, op, a);
    }
    forall a | a in db.targets && db.targets[a].op == op ensures a in plan.keys {
      assert InPlan(db, op, a);
    }
  }

  lemma {:induction false} RowsOfPlan(db: Db, op: nat, plan: Plan, rows: map<Id, Id>)
    requires forall a :: InPlan(db, op, a) <==> a in plan.keys
    ensures NoRowOf(db, op, rows) <==> forall r <- rows :: rows[r] !in plan.keys
  {
    forall r | r in rows ensures rows[r] in plan.keys <==> InPlan(db, op, rows[r]) {
    }
  }

  /** It takes the plan and the planned actors' sessions away and nothing of anybody else. */
  lemma {:induction false} FinalizationErases(s: World, i: nat, now: int)
    requires Inv(s) && Next(s, Finalizing(i, now)).db != s.db
    ensures LocalOf(s, i).Holding? && LocalOf(s, i).op in s.plans
    ensures var s' := Next(s, Finalizing(i, now)); var op := LocalOf(s, i).op; var plan := s.plans[op];
      && (forall a :: a in s'.db.actors <==> a in s.db.actors)
      && (forall a <- s.db.actors :: s'.db.actors[a] == if a in plan.keys then Tombstone(s.db.actors[a]) else s.db.actors[a])
      && (forall r :: r in s'.db.owned.sessions <==> r in s.db.owned.sessions && s.db.owned.sessions[r] !in plan.keys)
      && (forall r <- s'.db.owned.sessions :: s'.db.owned.sessions[r] == s.db.owned.sessions[r])
      && (forall a :: a in s'.db.targets <==> a in s.db.targets && a !in plan.keys)
      && (forall a <- s'.db.targets :: s'.db.targets[a] == s.db.targets[a])
      && s'.db.ops == map o | o in s.db.ops && o != op :: s.db.ops[o]
  {
    var l := LocalOf(s, i);
    IncarnationsHold(s, l.op);
    ErasesPlan(s.db, l.op, s.plans[l.op]);
  }

  lemma {:induction false} ErasesPlan(db: Db, op: nat, plan: Plan)
    requires forall a :: InPlan(db, op, a) <==> a in plan.keys
    ensures var db' := Finalize(db, op);
      && (forall a :: a in db'.actors <==> a in db.actors)
      && (forall a <- db.actors :: db'.actors[a] == if a in plan.keys then Tombstone(db.actors[a]) else db.actors[a])
      && (forall r :: r in db'.owned.sessions <==> r in db.owned.sessions && db.owned.sessions[r] !in plan.keys)
      && (forall r <- db'.owned.sessions :: db'.owned.sessions[r] == db.owned.sessions[r])
      && (forall a :: a in db'.targets <==> a in db.targets && a !in plan.keys)
      && (forall a <- db'.targets :: db'.targets[a] == db.targets[a])
      && db'.ops == map o | o in db.ops && o != op :: db.ops[o]
  {
    assert forall a <- db.targets :: InPlan(db, op, a) <==> db.targets[a].op == op;
  }

  /** An actor some operation still reserved has in its plan. */
  ghost predicate Reserved(s: World, a: Id) {
    exists op <- s.db.ops :: op in s.plans && a in s.plans[op].keys
  }

  lemma {:induction false} TargetsAreReserved(s: World, a: Id)
    requires Inv(s)
    ensures a in s.db.targets <==> Reserved(s, a)
  {
    if a in s.db.targets {
      var op := s.db.targets[a].op;
      IncarnationsHold(s, op);
      assert InPlan(s.db, op, a);
    }
    if Reserved(s, a) {
      var op :| op in s.db.ops && op in s.plans && a in s.plans[op].keys;
      IncarnationsHold(s, op);
      assert InPlan(s.db, op, a);
    }
  }

  /**
   * An ordinary write commits exactly when its actor is alive with the expected key and
   * user and neither it nor its owner is reserved for deletion; an interaction exactly
   * when its object stands under that author and neither the author nor its owner is.
   */
  lemma {:induction false} WritesCommitIff(s: World, step: Step)
    requires Inv(s) && (step.Ordinary? || step.Interacting?)
    ensures step.Ordinary? ==> (Next(s, step) != s <==>
      && step.actor in s.db.actors && !s.db.actors[step.actor].deleted
      && s.db.actors[step.actor].key == step.key && s.db.actors[step.actor].takosUser == step.takosUser
      && !Reserved(s, step.actor)
      && (s.db.actors[step.actor].owner.Some? ==> !Reserved(s, s.db.actors[step.actor].owner.value)))
    ensures step.Interacting? ==> (Next(s, step) != s <==>
      && step.noteId in s.db.objects && s.db.objects[step.noteId] == step.author
      && !Reserved(s, step.author)
      && (step.author in s.db.actors && s.db.actors[step.author].owner.Some? ==> !Reserved(s, s.db.actors[step.author].owner.value)))
  {
    var a := if step.Ordinary? then step.actor else step.author;
    TargetsAreReserved(s, a);
    if a in s.db.actors && s.db.actors[a].owner.Some? {
      TargetsAreReserved(s, s.db.actors[a].owner.value);
    }
    JournalGrows(s, step, a);
  }

  /** A commit lengthens the journal, so it shows. */
  lemma {:induction false} JournalGrows(s: World, step: Step, a: Id)
    requires (step.Ordinary? && step.actor == a) || (step.Interacting? && step.author == a)
    ensures Next(s, step) != s ==> Next(s, step).db.journal == s.db.journal + [a]
    ensures (if step.Ordinary? then OrdinaryGuard(s.db, a, step.key, step.takosUser) else ObjectGuard(s.db, step.noteId, a)) ==> Next(s, step).db.journal != s.db.journal
  {
    assert |s.db.journal + [a]| == |s.db.journal| + 1;
  }
}
