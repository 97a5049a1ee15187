/**
 * `runOperation` as one worker executes it when nobody interferes: two loops over the
 * planned targets under renewed leases, each stopping at the first failure, then the
 * finalization batch. Reconciling upload attempts (`media-upload-lifecycle.ts`) and
 * purging media (`account-teardown.ts`) fail as they do there.
 */
module AccountDeletionWorker {
  import opened Wrappers
  import opened FiniteSets
  import opened AccountDeletion

  /** Upload attempts cleaned for one actor in one round. */
  const CLEANUP_LIMIT: nat := 50
  /** Storage keys deleted in one call. */
  const DELETE_PAGE: nat := 1000

  /**
   * What is not decided by the rows: whether object storage is configured, which keys
   * may be claimed for deletion when their owner's turn comes, which physical deletes
   * go through (by attempt id or key), and for which targets the rest of the teardown does.
   */
  datatype Outside = Outside(bound: bool, claimable: Id -> bool, deletes: Id -> bool, tears: Id -> bool)

  /** The row ids of one actor. */
  function Of(rows: map<Id, Id>, a: Id): set<Id> {
    set r | r in rows && rows[r] == a
  }

  /** Every attempt of the actor has settled, there are at most fifty, and storage deletes them. */
  ghost predicate AttemptsReady(owned: Owned, a: Id, out: Outside) {
    && Of(owned.attempts, a) <= owned.cleanup && |Of(owned.attempts, a)| <= CLEANUP_LIMIT
    && forall r | r in Of(owned.attempts, a) :: out.bound && out.deletes(r)
  }

  function Keys(owned: Owned, a: Id): set<Id> {
    Of(owned.uploads, a) + Of(owned.blobJobs, a)
  }

  /** Every key of the actor can be claimed and deleted. */
  ghost predicate KeysReady(owned: Owned, a: Id, out: Outside) {
    forall k | k in Keys(owned, a) :: out.claimable(k) && out.bound && out.deletes(k)
  }

  ghost predicate Ready(owned: Owned, a: Id, out: Outside) {
    AttemptsReady(owned, a, out) && KeysReady(owned, a, out)
  }

  ghost predicate NoMedia(owned: Owned, a: Id) {
    Of(owned.attempts, a) == {} && Keys(owned, a) == {}
  }

  /** Media rows of actors outside `touched` are the same rows. */
  ghost predicate OthersMedia(before: Owned, after: Owned, touched: set<Id>) {
    && after.sessions == before.sessions && after.cleanup == before.cleanup
    && forall a | a !in touched ::
         && Of(after.attempts, a) == Of(before.attempts, a)
         && Of(after.uploads, a) == Of(before.uploads, a)
         && Of(after.blobJobs, a) == Of(before.blobJobs, a)
  }

  lemma {:induction false} OthersReady(before: Owned, after: Owned, touched: set<Id>, a: Id, out: Outside)
    requires OthersMedia(before, after, touched) && a !in touched
    ensures Ready(after, a, out) == Ready(before, a, out) && NoMedia(after, a) == NoMedia(before, a)
  {
    assert Keys(after, a) == Keys(before, a);
  }

  // ----- one worker, undisturbed -----

  /** What both loops keep: the lease held, actors and plan as at the start. */
  ghost predicate Running(start: Db, db: Db, op: nat, token: nat, now: int) {
    && SameShape(start, db) && db.objects == start.objects && db.journal == start.journal
    && op in db.ops && db.ops[op].token == token && db.ops[op].expires > now
  }

  /** The operation as `reserveOperation` or `claimExpiredOperation` hands it over. */
  ghost predicate Startable(start: Db, op: nat) {
    op in start.ops && RootAlive(start, start.ops[op]) && IncarnationsValid(start, op) && InPlan(start, op, start.ops[op].root)
  }

  /** Under the same shape every guard of this worker passes. */
  lemma {:induction false} GuardsPass(start: Db, db: Db, op: nat, token: nat, now: int, target: Id)
    requires Startable(start, op) && Running(start, db, op, token, now) && InPlan(start, op, target)
    ensures MayRenew(db, op, token, now) && WorkerGuard(db, op, token, target, now)
    ensures IncarnationsValid(db, op)
  {
  }

  lemma {:induction false} SamePlan(start: Db, db: Db, op: nat, a: Id)
    requires SameShape(start, db)
    ensures InPlan(db, op, a) <==> InPlan(start, op, a)
  {
  }

  class Worker {
    var db: Db

    constructor (initial: Db)
      ensures db == initial
    {
      db := initial;
    }

    /**
     * Renewal succeeds exactly for a live lease on a valid plan; the worker's guard then
     * holds for every target of the plan until the new expiry. No other operation's
     * lease is touched.
     */
    method RenewLease(op: nat, token: nat, now: int) returns (renewed: bool)
      modifies this
      ensures renewed == MayRenew(old(db), op, token, now)
      ensures db == old(db).(ops := db.ops) && db.ops.Keys == old(db).ops.Keys
      ensures forall o | o in db.ops && (o != op || !renewed) :: db.ops[o] == old(db).ops[o]
      ensures renewed ==> db.ops[op] == old(db).ops[op].(expires := now + LEASE_MS)
      ensures renewed ==> forall t, at: int | InPlan(db, op, t) && at < now + LEASE_MS :: WorkerGuard(db, op, token, t, at)
    {
      renewed := MayRenew(db, op, token, now);
      if renewed {
        db := db.(ops := db.ops[op := db.ops[op].(expires := now + LEASE_MS)]);
      }
    }

    /**
     * After a release no guard of this worker holds at any time, a valid plan may be
     * claimed at once, and every other worker's guard is as it was.
     */
    method ReleaseLease(op: nat, token: nat)
      modifies this
      ensures db == old(db).(ops := db.ops) && db.ops.Keys == old(db).ops.Keys
      ensures forall o | o in db.ops :: db.ops[o] == old(db).ops[o] || (o == op && db.ops[o] == old(db).ops[o].(expires := 0) && db.ops[o].token == token)
      ensures forall t, at: int | at >= 0 :: !WorkerGuard(db, op, token, t, at)
      ensures forall o, k, t, at: int | o != op || k != token :: WorkerGuard(db, o, k, t, at) == WorkerGuard(old(db), o, k, t, at)
      ensures op in db.ops && db.ops[op].token == token ==>
        db.ops[op].expires == 0
        && forall now: int | now >= 0 :: RootAlive(db, db.ops[op]) && IncarnationsValid(db, op) ==> MayClaim(db, op, now)
    {
      if op in db.ops && db.ops[op].token == token {
        db := db.(ops := db.ops[op := db.ops[op].(expires := 0)]);
      }
    }

    /** SELECT ... WHERE uploader = target AND phase = 'cleanup' LIMIT 50 */
    method SelectCleanup(target: Id) returns (list: seq<Id>)
      ensures Distinct(list)
      ensures forall r | r in list :: r in Of(db.owned.attempts, target) && r in db.owned.cleanup
      ensures |list| <= CLEANUP_LIMIT
      ensures |list| < CLEANUP_LIMIT ==> forall r | r in Of(db.owned.attempts, target) && r in db.owned.cleanup :: r in list
    {
      list := [];
      var all := set r | r in db.owned.attempts && db.owned.attempts[r] == target && r in db.owned.cleanup;
      var rest := all;
      while rest != {} && |list| < CLEANUP_LIMIT
        invariant Distinct(list)
        invariant forall r :: r in all <==> r in list || r in rest
        invariant forall r | r in list :: r !in rest
        invariant |list| <= CLEANUP_LIMIT
        decreases rest
      {
        var r :| r in rest;
        list := list + [r];
        rest := rest - {r};
      }
    }

    /** `reconcileActorUploadAttempts`: clean up to fifty settled attempts, then fail if any row is left. */
    method ReconcileAttempts(op: nat, token: nat, target: Id, out: Outside, now: int) returns (ok: bool)
      requires WorkerGuard(db, op, token, target, now)
      modifies this
      ensures db == old(db).(owned := db.owned) && OthersMedia(old(db).owned, db.owned, {target})
      ensures ok <==> AttemptsReady(old(db).owned, target, out)
      ensures ok ==> Of(db.owned.attempts, target) == {} && Keys(db.owned, target) == Keys(old(db).owned, target)
    {
      var list := SelectCleanup(target);
      var cleaned := CleanUp(op, token, target, list, out, now);
      ReconcileOutcome(old(db).owned, target, list, out);
      OthersUntouched(old(db).owned, db.owned, target);
      if !cleaned {
        return false;
      }
      ok := Of(db.owned.attempts, target) == {};
    }

    /** The cleanup loop: a missing storage or a failed delete ends it. */
    method CleanUp(op: nat, token: nat, target: Id, list: seq<Id>, out: Outside, now: int) returns (ok: bool)
      requires WorkerGuard(db, op, token, target, now) && ToSet(list) <= Of(db.owned.attempts, target)
      modifies this
      ensures db == old(db).(owned := db.owned) && OnlyAttemptsGone(old(db).owned, db.owned, target)
      ensures ok <==> forall r | r in list :: out.bound && out.deletes(r)
      ensures ok ==> Of(db.owned.attempts, target) == Of(old(db).owned.attempts, target) - ToSet(list)
    {
      for i := 0 to |list|
        invariant db == old(db).(owned := old(db).owned.(attempts := old(db).owned.attempts - ToSet(list[..i])))
        invariant forall j | 0 <= j < i :: out.bound && out.deletes(list[j])
      {
        assert list[i] in ToSet(list);
        if !out.bound || !out.deletes(list[i]) || !WorkerGuard(db, op, token, target, now) {
          assert forall r | r in ToSet(list[..i]) :: r in ToSet(list);
          return false;
        }
        assert list[..i + 1] == list[..i] + [list[i]];
        assert ToSet(list[..i + 1]) == ToSet(list[..i]) + {list[i]};
        db := db.(owned := db.owned.(attempts := db.owned.attempts - {list[i]}));
      }
      assert list[..|list|] == list;
      ok := true;
    }

    /** One page of at most a thousand keys. */
    method SelectPage(keys: set<Id>) returns (page: set<Id>)
      ensures page <= keys && |page| <= DELETE_PAGE && (keys != {} ==> page != {})
    {
      page := {};
      var rest := keys;
      while rest != {} && |page| < DELETE_PAGE
        invariant page <= keys && rest <= keys && page !! rest && |page| <= DELETE_PAGE && (keys != {} ==> page + rest != {})
        invariant page == {} ==> rest == keys
        decreases rest
      {
        var k :| k in rest;
        page := page + {k};
        rest := rest - {k};
      }
    }

    /** The delete loop: the lease is renewed before each page, and a page is acknowledged once storage deleted it. */
    method DeletePages(op: nat, token: nat, target: Id, keys: set<Id>, out: Outside, now: int) returns (ok: bool)
      requires MayRenew(db, op, token, now) && WorkerGuard(db, op, token, target, now)
      modifies this
      ensures SameButMedia(old(db), db, op, target, now)
      ensures ok <==> forall k | k in keys :: out.deletes(k)
      ensures ok ==> db.owned == Acknowledged(old(db).owned, target, keys)
    {
      var rest := keys;
      AcknowledgedNone(db.owned, target);
      while rest != {}
        invariant rest <= keys && forall k | k in keys - rest :: out.deletes(k)
        invariant MayRenew(db, op, token, now) && WorkerGuard(db, op, token, target, now)
        invariant SameOperation(old(db), db, op, now) && db.owned == Acknowledged(old(db).owned, target, keys - rest)
        decreases rest
      {
        AcknowledgedMedia(old(db).owned, target, keys - rest);
        var page := SelectPage(rest);
        var renewed := RenewLease(op, token, now);
        if !renewed || exists k | k in page :: !out.deletes(k) {
          return false;
        }
        AcknowledgedMore(old(db).owned, target, keys - rest, page);
        assert keys - (rest - page) == (keys - rest) + page;
        db := db.(owned := Acknowledged(db.owned, target, page));
        rest := rest - page;
      }
      AcknowledgedMedia(old(db).owned, target, keys);
      assert keys - rest == keys;
      ok := true;
    }

    /** `purgeActorMediaUploads`: every key claimed, or none is deleted; then deletes in pages, each acknowledged. */
    method PurgeMedia(op: nat, token: nat, target: Id, out: Outside, now: int) returns (ok: bool)
      requires MayRenew(db, op, token, now) && WorkerGuard(db, op, token, target, now)
      modifies this
      ensures SameButMedia(old(db), db, op, target, now)
      ensures ok <==> KeysReady(old(db).owned, target, out)
      ensures ok ==> Keys(db.owned, target) == {} && Of(db.owned.attempts, target) == Of(old(db).owned.attempts, target)
    {
      var keys := Keys(db.owned, target);
      if keys == {} {
        return true;
      }
      var claimed := set k | k in keys && out.claimable(k);
      ClaimedMedia(db.owned, target, claimed);
      db := db.(owned := InsertJobs(db.owned, target));
      db := db.(owned := ClaimKeys(db.owned, target, claimed));
      ghost var before := db;
      if claimed != keys || !out.bound {
        assert exists k | k in keys :: !out.claimable(k) || !out.bound;
        return false;
      }
      ok := DeletePages(op, token, target, claimed, out, now);
      if ok {
        AcknowledgedMedia(before.owned, target, claimed);
      }
      MediaChain(old(db), before, db, op, target, now);
    }

    /** SELECT ... FROM account_deletion_targets WHERE operation_id = op, in whatever order the query gives. */
    method SelectTargets(op: nat) returns (list: seq<Id>)
      ensures forall a :: a in list <==> InPlan(db, op, a)
      ensures Distinct(list)
    {
      list := [];
      var rest := set a | a in db.targets && db.targets[a].op == op;
      while rest != {}
        invariant forall a :: InPlan(db, op, a) <==> a in list || a in rest
        invariant Distinct(list)
        invariant forall a | a in list :: a !in rest
        decreases |rest|
      {
        var a :| a in rest;
        list := list + [a];
        rest := rest - {a};
      }
    }

    /** Attempts, what else there is to tear down, and media of one target, each able to fail. */
    method Clear(op: nat, token: nat, target: Id, rest: bool, out: Outside, now: int) returns (ok: bool)
      requires MayRenew(db, op, token, now) && WorkerGuard(db, op, token, target, now)
      modifies this
      ensures SameButMedia(old(db), db, op, target, now)
      ensures ok <==> Ready(old(db).owned, target, out) && rest
      ensures ok ==> NoMedia(db.owned, target)
    {
      var renewed := RenewLease(op, token, now);
      ghost var start := db;
      var reconciled := ReconcileAttempts(op, token, target, out, now);
      if !reconciled || !rest {
        return false;
      }
      ghost var middle := db;
      assert SameButMedia(old(db), middle, op, target, now);
      assert KeysReady(middle.owned, target, out) == KeysReady(start.owned, target, out);
      ok := PurgeMedia(op, token, target, out, now);
      MediaChain(old(db), middle, db, op, target, now);
    }

    /** One round of the first loop: a target not yet complete is torn down and, if all of it went through, marked. */
    method ProcessTarget(op: nat, token: nat, target: Id, out: Outside, now: int, ghost start: Db) returns (ok: bool)
      requires Startable(start, op) && Running(start, db, op, token, now) && InPlan(start, op, target)
      modifies this
      ensures Running(start, db, op, token, now)
      ensures target in old(db).targets
      ensures ok <==> old(db).targets[target].complete || (Ready(old(db).owned, target, out) && out.tears(target))
      ensures db.targets == if ok then Marked(old(db).targets, {target}) else old(db).targets
      ensures OthersMedia(old(db).owned, db.owned, if old(db).targets[target].complete then {} else {target})
      ensures ok && !old(db).targets[target].complete ==> NoMedia(db.owned, target)
    {
      GuardsPass(start, db, op, token, now, target);
      if db.targets[target].complete {
        return true;
      }
      ghost var before := db;
      ok := Clear(op, token, target, out.tears(target), out, now);
      RunningStill(start, before, db, op, token, now, target);
      GuardsPass(start, db, op, token, now, target);
      if ok && WorkerGuard(db, op, token, target, now) {
        db := db.(targets := db.targets[target := db.targets[target].(complete := true)]);
      }
    }

    /** One round of the second loop: whatever media the target still has goes, or the run fails. */
    method ReconcileTarget(op: nat, token: nat, target: Id, out: Outside, now: int, ghost start: Db) returns (ok: bool)
      requires Startable(start, op) && Running(start, db, op, token, now) && InPlan(start, op, target)
      modifies this
      ensures Running(start, db, op, token, now) && SameButMedia(old(db), db, op, target, now)
      ensures ok <==> Ready(old(db).owned, target, out)
      ensures ok ==> NoMedia(db.owned, target)
    {
      GuardsPass(start, db, op, token, now, target);
      ghost var before := db;
      ok := Clear(op, token, target, true, out, now);
      RunningStill(start, before, db, op, token, now, target);
    }

    /** The first loop: it stops at the first target that fails, with exactly the ones before it complete. */
    method TearDownAll(op: nat, token: nat, list: seq<Id>, out: Outside, now: int, ghost start: Db) returns (done: nat)
      requires Startable(start, op) && Running(start, db, op, token, now) && db.owned == start.owned && db.targets == start.targets
      requires Lists(list, start, op)
      modifies this
      ensures Running(start, db, op, token, now) && done <= |list|
      ensures db.targets == Marked(start.targets, ToSet(list[..done]))
      ensures forall j | 0 <= j < done :: Passes(start, list[j], out)
      ensures done < |list| ==> !Passes(start, list[done], out)
      ensures OthersMedia(start.owned, db.owned, ToSet(list))
      ensures done == |list| ==> TornDown(start, db.owned, ToSet(list))
    {
      done := 0;
      FirstLoopStarts(start, list, out);
      while done < |list|
        invariant done <= |list| && Running(start, db, op, token, now)
        invariant FirstLoop(start, db, list, done, out)
      {
        ghost var before := db;
        FirstLoopAt(start, before, list, done, op, out);
        var ok := ProcessTarget(op, token, list[done], out, now, start);
        FirstLoopNext(start, before, db, list, done, ok, out);
        if !ok {
          return;
        }
        done := done + 1;
      }
      assert list[..done] == list;
      TornDownOthers(start, db.owned, ToSet(list));
    }

    /** The second loop over the plan. */
    method ReconcileAll(op: nat, token: nat, list: seq<Id>, out: Outside, now: int, ghost start: Db) returns (ok: bool)
      requires Startable(start, op) && Running(start, db, op, token, now) && Lists(list, start, op)
      modifies this
      ensures Running(start, db, op, token, now) && db.targets == old(db).targets
      ensures ok <==> forall a | a in list :: Ready(old(db).owned, a, out)
      ensures ok ==> forall a | a in list :: NoMedia(db.owned, a)
      ensures OthersMedia(old(db).owned, db.owned, ToSet(list))
    {
      assert list[..0] == [];
      for i := 0 to |list|
        invariant Running(start, db, op, token, now) && db.targets == old(db).targets
        invariant Reconciled(old(db).owned, db.owned, list, i, out)
      {
        ghost var before := db;
        NotBefore(list, i);
        OthersReady(old(db).owned, db.owned, ToSet(list[..i]), list[i], out);
        assert list[i] in list;
        ok := ReconcileTarget(op, token, list[i], out, now, start);
        ReconciledNext(old(db).owned, before.owned, db.owned, list, i, ok, out);
        if !ok {
          return;
        }
      }
      assert list[..|list|] == list;
      assert forall a | a in list :: exists j :: 0 <= j < |list| && list[j] == a;
      ok := true;
    }

    /**
     * The whole operation, `list` being the plan in query order. It deletes exactly when
     * every planned target has no attempt still being put, at most fifty settled ones,
     * only keys that can be claimed, storage for what it has, and a teardown that goes
     * through unless it was complete already. Otherwise the plan stays whole with its
     * lease given up, and exactly the targets before the first failing one, and those
     * complete before, are complete.
     */
    method RunOperation(op: nat, token: nat, out: Outside, now: int) returns (deleted: bool, list: seq<Id>, done: nat)
      requires Startable(db, op) && db.ops[op].token == token && db.ops[op].expires > now
      modifies this
      ensures Lists(list, old(db), op) && done <= |list|
      ensures deleted <==> forall a | InPlan(old(db), op, a) :: Ready(old(db).owned, a, out) && (old(db).targets[a].complete || out.tears(a))
      ensures deleted ==> Deleted(old(db), db, op)
      ensures !deleted ==> StillReserved(old(db), db, op) && db.targets == Marked(old(db).targets, ToSet(list[..done]))
      ensures forall j | 0 <= j < done :: Passes(old(db), list[j], out)
      ensures done < |list| ==> !Passes(old(db), list[done], out)
    {
      list := SelectTargets(op);
      done := TearDownAll(op, token, list, out, now, old(db));
      if done < |list| {
        assert list[done] in list;
        ghost var held := db;
        ReleaseLease(op, token);
        ReleasedIsReserved(old(db), held, db, op, token, now);
        return false, list, done;
      }
      assert list[..done] == list;
      SecondLoop(old(db), db.owned, list, out);
      var reconciled := ReconcileAll(op, token, list, out, now, old(db));
      GuardsPass(old(db), db, op, token, now, old(db).ops[op].root);
      if !reconciled {
        ghost var held := db;
        ReleaseLease(op, token);
        ReleasedIsReserved(old(db), held, db, op, token, now);
        return false, list, done;
      }
      var renewed := RenewLease(op, token, now);
      FinalGuard(old(db), db, op, token, list, now);
      assert renewed && MayFinalize(db, op, token, now);
      FinalizedIsDeleted(old(db), db, op, token, now);
      db := Finalize(db, op);
      deleted := true;
    }
  }

  /** The plan, each target once. */
  ghost predicate Lists(list: seq<Id>, db: Db, op: nat) {
    && (forall a :: a in list <==> InPlan(db, op, a))
    && (Distinct(list))
  }

  /** The first loop gets past the target. */
  ghost predicate Passes(start: Db, a: Id, out: Outside)
  {
    a in start.targets && (start.targets[a].complete || (Ready(start.owned, a, out) && out.tears(a)))
  }

  function Marked(targets: map<Id, Target>, done: set<Id>): map<Id, Target> {
    map a | a in targets :: if a in done then targets[a].(complete := true) else targets[a]
  }

  lemma {:induction false} MarkedNone(targets: map<Id, Target>)
    ensures Marked(targets, ToSet([])) == targets
  {
  }

  lemma {:induction false} MarkedMore(targets: map<Id, Target>, done: set<Id>, a: Id)
    ensures Marked(Marked(targets, done), {a}) == Marked(targets, done + {a})
  {
  }

  lemma {:induction false} NotBefore(list: seq<Id>, i: nat)
    requires i < |list| && Distinct(list)
    ensures list[i] !in ToSet(list[..i])
  {
  }

  /** Of the targets seen, those not complete at the start have no media left; all other media is as at the start. */
  ghost predicate TornDown(start: Db, owned: Owned, seen: set<Id>) {
    && OthersMedia(start.owned, owned, Incomplete(start, seen))
    && forall a | a in Incomplete(start, seen) :: NoMedia(owned, a)
  }

  function Incomplete(start: Db, seen: set<Id>): set<Id> {
    set a | a in seen && a in start.targets && !start.targets[a].complete
  }

  lemma {:induction false} TornDownNext(start: Db, owned: Owned, seen: set<Id>, target: Id, out: Outside)
    requires TornDown(start, owned, seen) && target !in seen
    ensures Ready(owned, target, out) == Ready(start.owned, target, out)
  {
    OthersReady(start.owned, owned, Incomplete(start, seen), target, out);
  }

  lemma {:induction false} TornDownStep(start: Db, before: Owned, after: Owned, list: seq<Id>, done: nat, ok: bool)
    requires done < |list| && list[done] in start.targets && list[done] !in ToSet(list[..done])
    requires TornDown(start, before, ToSet(list[..done]))
    requires OthersMedia(before, after, if start.targets[list[done]].complete then {} else {list[done]})
    requires ok && !start.targets[list[done]].complete ==> NoMedia(after, list[done])
    ensures OthersMedia(start.owned, after, ToSet(list))
    ensures ok ==> TornDown(start, after, ToSet(list[..done + 1]))
  {
    var seen, more := ToSet(list[..done]), ToSet(list[..done + 1]);
    var touched := if start.targets[list[done]].complete then {} else {list[done]};
    assert more == seen + {list[done]} && more <= ToSet(list);
    assert Incomplete(start, more) == Incomplete(start, seen) + touched;
    OthersChain(start.owned, before, after, Incomplete(start, seen), touched);
    OthersMore(start.owned, after, Incomplete(start, more), ToSet(list));
    if ok {
      forall a | a in Incomplete(start, seen) ensures NoMedia(after, a) {
        OthersNoMedia(before, after, touched, a);
      }
    }
  }

  lemma {:induction false} TornDownOthers(start: Db, owned: Owned, seen: set<Id>)
    requires TornDown(start, owned, seen)
    ensures OthersMedia(start.owned, owned, seen)
  {
    OthersMore(start.owned, owned, Incomplete(start, seen), seen);
  }

  /** The first loop before its round `done`. */
  ghost predicate FirstLoop(start: Db, db: Db, list: seq<Id>, done: nat, out: Outside)
    requires done <= |list|
  {
    && db.targets == Marked(start.targets, ToSet(list[..done]))
    && (forall j | 0 <= j < done :: Passes(start, list[j], out))
    && TornDown(start, db.owned, ToSet(list[..done]))
  }

  lemma {:induction false} FirstLoopStarts(start: Db, list: seq<Id>, out: Outside)
    ensures FirstLoop(start, start, list, 0, out)
  {
    assert list[..0] == [];
    MarkedNone(start.targets);
  }

  /** At its turn a target is as it was at the start. */
  lemma {:induction false} FirstLoopAt(start: Db, db: Db, list: seq<Id>, done: nat, op: nat, out: Outside)
    requires done < |list| && Lists(list, start, op) && FirstLoop(start, db, list, done, out)
    ensures list[done] !in ToSet(list[..done]) && InPlan(start, op, list[done])
    ensures db.targets[list[done]].complete == start.targets[list[done]].complete
    ensures Ready(db.owned, list[done], out) == Ready(start.owned, list[done], out)
  {
    NotBefore(list, done);
    assert list[done] in list;
    TornDownNext(start, db.owned, ToSet(list[..done]), list[done], out);
  }

  lemma {:induction false} FirstLoopNext(start: Db, before: Db, db: Db, list: seq<Id>, done: nat, ok: bool, out: Outside)
    requires done < |list| && FirstLoop(start, before, list, done, out)
    requires list[done] in start.targets && list[done] !in ToSet(list[..done])
    requires db.targets == if ok then Marked(before.targets, {list[done]}) else before.targets
    requires OthersMedia(before.owned, db.owned, if start.targets[list[done]].complete then {} else {list[done]})
    requires ok && !start.targets[list[done]].complete ==> NoMedia(db.owned, list[done])
    requires ok <==> Passes(start, list[done], out)
    ensures OthersMedia(start.owned, db.owned, ToSet(list))
    ensures if ok then FirstLoop(start, db, list, done + 1, out) else db.targets == Marked(start.targets, ToSet(list[..done]))
  {
    TornDownStep(start, before.owned, db.owned, list, done, ok);
    MarkedMore(start.targets, ToSet(list[..done]), list[done]);
    assert ToSet(list[..done + 1]) == ToSet(list[..done]) + {list[done]};
  }

  /** The second loop before its round `i`. */
  ghost predicate Reconciled(start: Owned, owned: Owned, list: seq<Id>, i: nat, out: Outside)
    requires i <= |list|
  {
    && OthersMedia(start, owned, ToSet(list[..i]))
    && forall j | 0 <= j < i :: Ready(start, list[j], out) && NoMedia(owned, list[j])
  }

  lemma {:induction false} ReconciledNext(start: Owned, before: Owned, after: Owned, list: seq<Id>, i: nat, ok: bool, out: Outside)
    requires i < |list| && Reconciled(start, before, list, i, out) && list[i] !in ToSet(list[..i])
    requires OthersMedia(before, after, {list[i]}) && (ok ==> Ready(start, list[i], out) && NoMedia(after, list[i]))
    ensures OthersMedia(start, after, ToSet(list))
    ensures ok ==> Reconciled(start, after, list, i + 1, out)
  {
    OthersChain(start, before, after, ToSet(list[..i]), {list[i]});
    assert ToSet(list[..i + 1]) == ToSet(list[..i]) + {list[i]};
    OthersMore(start, after, ToSet(list[..i + 1]), ToSet(list));
    forall j | 0 <= j < i ensures ok ==> NoMedia(after, list[j]) {
      assert list[j] in ToSet(list[..i]);
      OthersNoMedia(before, after, {list[i]}, list[j]);
    }
  }

  lemma {:induction false} RunningStill(start: Db, before: Db, after: Db, op: nat, token: nat, now: int, target: Id)
    requires Running(start, before, op, token, now) && SameButMedia(before, after, op, target, now)
    ensures Running(start, after, op, token, now) && after.targets == before.targets
  {
  }

  lemma {:induction false} OthersNoMedia(before: Owned, after: Owned, touched: set<Id>, a: Id)
    requires OthersMedia(before, after, touched) && a !in touched && NoMedia(before, a)
    ensures NoMedia(after, a)
  {
    assert Keys(after, a) == Keys(before, a);
  }

  lemma {:induction false} OthersChain(a: Owned, b: Owned, c: Owned, first: set<Id>, second: set<Id>)
    requires OthersMedia(a, b, first) && OthersMedia(b, c, second)
    ensures OthersMedia(a, c, first + second)
  {
  }

  lemma {:induction false} OthersMore(a: Owned, b: Owned, some: set<Id>, all: set<Id>)
    requires OthersMedia(a, b, some) && some <= all
    ensures OthersMedia(a, b, all)
  {
  }

  /** What the second loop finds: torn down targets have no media, complete ones what they had. */
  lemma {:induction false} SecondLoop(start: Db, owned: Owned, list: seq<Id>, out: Outside)
    requires TornDown(start, owned, ToSet(list)) && forall j | 0 <= j < |list| :: Passes(start, list[j], out)
    ensures forall a | a in list :: a in start.targets
    ensures (forall a | a in list :: Ready(owned, a, out))
      <==> forall a | a in list :: Ready(start.owned, a, out) && (start.targets[a].complete || out.tears(a))
  {
    forall a | a in list
      ensures a in start.targets
      ensures Ready(owned, a, out) <==> Ready(start.owned, a, out) && (start.targets[a].complete || out.tears(a))
    {
      var j :| 0 <= j < |list| && list[j] == a;
      assert Passes(start, list[j], out);
      if start.targets[a].complete {
        OthersReady(start.owned, owned, Incomplete(start, ToSet(list)), a, out);
      } else {
        assert a in Incomplete(start, ToSet(list));
      }
    }
  }

  /** Nothing of the plan is left and every planned actor is a tombstone without sessions. */
  ghost predicate Deleted(start: Db, db: Db, op: nat) {
    && op !in db.ops
    && (forall a :: !InPlan(db, op, a))
    && (forall a :: InPlan(start, op, a) ==> a in db.actors && db.actors[a].deleted)
    && (forall r <- db.owned.sessions :: !InPlan(start, op, db.owned.sessions[r]))
  }

  /** The same plan for the same root, its lease given up, and no actor touched. */
  ghost predicate StillReserved(start: Db, db: Db, op: nat) {
    && op in start.ops && op in db.ops && db.ops[op].root == start.ops[op].root && db.ops[op].expires == 0
    && db.actors == start.actors
    && (forall a :: InPlan(db, op, a) <==> InPlan(start, op, a))
  }

  lemma {:induction false} ReleasedIsReserved(start: Db, held: Db, db: Db, op: nat, token: nat, now: int)
    requires Startable(start, op) && Running(start, held, op, token, now)
    requires db == held.(ops := db.ops) && db.ops.Keys == held.ops.Keys && db.ops[op] == held.ops[op].(expires := 0)
    ensures StillReserved(start, db, op)
  {
  }

  lemma {:induction false} FinalizedIsDeleted(start: Db, db: Db, op: nat, token: nat, now: int)
    requires Startable(start, op) && Running(start, db, op, token, now)
    ensures Deleted(start, Finalize(db, op), op)
  {
    forall a ensures InPlan(start, op, a) <==> InPlan(db, op, a) {
      SamePlan(start, db, op, a);
    }
  }

  lemma {:induction false} FinalGuard(start: Db, db: Db, op: nat, token: nat, list: seq<Id>, now: int)
    requires Startable(start, op) && Running(start, db, op, token, now) && Lists(list, start, op)
    requires db.targets == Marked(start.targets, ToSet(list)) && forall a | a in list :: NoMedia(db.owned, a)
    ensures MayFinalize(db, op, token, now)
  {
    var root := db.ops[op].root;
    forall a ensures InPlan(start, op, a) <==> InPlan(db, op, a) {
      SamePlan(start, db, op, a);
    }
    GuardsPass(start, db, op, token, now, root);
    NoRows(db, op, list, db.owned.uploads);
    NoRows(db, op, list, db.owned.blobJobs);
    NoRows(db, op, list, db.owned.attempts);
  }

  lemma {:induction false} NoRows(db: Db, op: nat, list: seq<Id>, rows: map<Id, Id>)
    requires (forall a :: InPlan(db, op, a) ==> a in list) && forall a | a in list :: Of(rows, a) == {}
    ensures NoRowOf(db, op, rows)
  {
    forall r | r in rows && rows[r] in db.targets ensures db.targets[rows[r]].op != op {
      assert r in Of(rows, rows[r]);
      assert !InPlan(db, op, rows[r]);
    }
  }

  /** A deletion job for every upload of the actor, existing jobs left alone. */
  function InsertJobs(owned: Owned, target: Id): Owned {
    owned.(blobJobs := owned.blobJobs + map k | k in owned.uploads && owned.uploads[k] == target && k !in owned.blobJobs :: target)
  }

  /** Claiming a key removes its upload row. */
  function ClaimKeys(owned: Owned, target: Id, claimed: set<Id>): Owned {
    owned.(uploads := owned.uploads - (Of(owned.uploads, target) * claimed))
  }

  lemma {:induction false} ClaimedMedia(owned: Owned, target: Id, claimed: set<Id>)
    ensures var after := ClaimKeys(InsertJobs(owned, target), target, claimed);
      && OthersMedia(owned, after, {target}) && after.attempts == owned.attempts
      && Of(after.uploads, target) == Of(owned.uploads, target) - claimed
      && Of(after.blobJobs, target) <= Keys(owned, target)
  {
    var after := ClaimKeys(InsertJobs(owned, target), target, claimed);
    forall a | a != target ensures Of(after.uploads, a) == Of(owned.uploads, a) && Of(after.blobJobs, a) == Of(owned.blobJobs, a) {
    }
  }

  /** The actor's jobs for these keys are deleted. */
  function Acknowledged(owned: Owned, target: Id, keys: set<Id>): Owned {
    owned.(blobJobs := owned.blobJobs - (Of(owned.blobJobs, target) * keys))
  }

  lemma {:induction false} AcknowledgedNone(owned: Owned, target: Id)
    ensures forall keys: set<Id> | keys == {} :: Acknowledged(owned, target, keys) == owned
  {
  }

  lemma {:induction false} AcknowledgedMore(owned: Owned, target: Id, done: set<Id>, page: set<Id>)
    ensures Acknowledged(Acknowledged(owned, target, done), target, page) == Acknowledged(owned, target, done + page)
  {
  }

  lemma {:induction false} AcknowledgedMedia(owned: Owned, target: Id, keys: set<Id>)
    ensures var after := Acknowledged(owned, target, keys);
      OthersMedia(owned, after, {target}) && Of(after.blobJobs, target) == Of(owned.blobJobs, target) - keys
  {
    var after := Acknowledged(owned, target, keys);
    forall a | a != target ensures Of(after.blobJobs, a) == Of(owned.blobJobs, a) {
    }
  }

  lemma {:induction false} MediaChain(a: Db, b: Db, c: Db, op: nat, target: Id, now: int)
    requires SameButMedia(a, b, op, target, now) && SameButMedia(b, c, op, target, now)
    ensures SameButMedia(a, c, op, target, now)
  {
  }

  /** Rows of one actor's attempts may be gone, nothing else. */
  ghost predicate OnlyAttemptsGone(before: Owned, after: Owned, target: Id) {
    && after == before.(attempts := after.attempts)
    && after.attempts.Keys <= before.attempts.Keys
    && (forall r | r in after.attempts :: after.attempts[r] == before.attempts[r])
    && (forall r | r in before.attempts && before.attempts[r] != target :: r in after.attempts)
  }

  /** The selection covers the actor's rows exactly when all have settled and there are at most fifty. */
  lemma {:induction false} SelectedAll(mine: set<Id>, cleanup: set<Id>, list: seq<Id>)
    requires Distinct(list)
    requires forall r | r in list :: r in mine && r in cleanup
    requires |list| <= CLEANUP_LIMIT && (|list| < CLEANUP_LIMIT ==> forall r | r in mine && r in cleanup :: r in list)
    ensures mine - ToSet(list) == {} <==> mine <= cleanup && |mine| <= CLEANUP_LIMIT
    ensures mine - ToSet(list) == {} ==> mine == ToSet(list)
  {
    ToSetSize(list);
    SubsetCount(ToSet(list), mine);
    if mine <= cleanup && |mine| <= CLEANUP_LIMIT {
      if |list| < CLEANUP_LIMIT {
        assert mine <= ToSet(list);
      }
    }
  }

  lemma {:induction false} OthersUntouched(before: Owned, after: Owned, target: Id)
    requires OnlyAttemptsGone(before, after, target)
    ensures OthersMedia(before, after, {target}) && Keys(after, target) == Keys(before, target)
  {
    forall a | a != target ensures Of(after.attempts, a) == Of(before.attempts, a) {
    }
  }

  lemma {:induction false} ReconcileOutcome(owned: Owned, target: Id, list: seq<Id>, out: Outside)
    requires Distinct(list)
    requires forall r | r in list :: r in Of(owned.attempts, target) && r in owned.cleanup
    requires |list| <= CLEANUP_LIMIT
    requires |list| < CLEANUP_LIMIT ==> forall r | r in Of(owned.attempts, target) && r in owned.cleanup :: r in list
    ensures AttemptsReady(owned, target, out)
      <==> (forall r | r in list :: out.bound && out.deletes(r)) && Of(owned.attempts, target) - ToSet(list) == {}
  {
    SelectedAll(Of(owned.attempts, target), owned.cleanup, list);
  }

  /** Apart from owned rows and this operation's expiry the database is the same. */
  ghost predicate SameOperation(before: Db, after: Db, op: nat, now: int) {
    && after == before.(owned := after.owned, ops := after.ops) && after.ops.Keys == before.ops.Keys
    && (forall o | o in after.ops :: after.ops[o] == before.ops[o].(expires := after.ops[o].expires) && (o != op ==> after.ops[o] == before.ops[o]))
    && (op in after.ops && before.ops[op].expires > now ==> after.ops[op].expires > now)
  }

  /** The same, and of the owned rows only the target's media may differ. */
  ghost predicate SameButMedia(before: Db, after: Db, op: nat, target: Id, now: int) {
    SameOperation(before, after, op, now) && OthersMedia(before.owned, after.owned, {target})
  }
}
