/**
 * Durable account deletion (`account-deletion-lifecycle.ts`,
 * `account-deletion-admission.ts`): a reservation plan that outlives its workers,
 * an expiring worker lease, guarded writes, and a finalization that is one batch.
 *
 * Each batch or single statement is one step. Every step carries the clock value
 * its worker read, which need not agree with anybody else's.
 */
module AccountDeletion {
  import opened Wrappers

  const LEASE_MS: nat := 120000

  datatype Actor = Actor(key: Id, deleted: bool, owner: Option<Id>, takosUser: Option<Id>)

  datatype Operation = Operation(root: Id, rootKey: Id, token: nat, expires: int)

  datatype Target = Target(op: nat, key: Id, complete: bool)

  /**
   * Rows and the actor they belong to: sessions and upload attempts by row id, uploads
   * and deletion jobs by storage key. An attempt is still being put unless its id is in
   * `cleanup`.
   */
  datatype Owned = Owned(
    sessions: map<Id, Id>, uploads: map<Id, Id>, attempts: map<Id, Id>, blobJobs: map<Id, Id>,
    cleanup: set<Id>)

  datatype Db = Db(
    actors: map<Id, Actor>,
    ops: map<nat, Operation>,
    targets: map<Id, Target>,
    objects: map<Id, Id>,        // live object -> author
    owned: Owned,
    journal: seq<Id>)            // actors whose ordinary writes committed, and authors whose objects were written to

  // ---- predicates the SQL evaluates ----

  /** The live actors a reservation captures. */
  predicate Planned(db: Db, root: Id, cascade: bool, a: Id) {
    a in db.actors && !db.actors[a].deleted && (a == root || (cascade && db.actors[a].owner == Some(root)))
  }

  /** The reservation batch goes through: no unique index is violated and the witness is found. */
  predicate MayReserve(db: Db, root: Id, key: Id, takosUser: Option<Id>, owner: Option<Id>, cascade: bool) {
    && (forall o <- db.ops :: db.ops[o].root != root)
    && (forall a <- db.actors :: Planned(db, root, cascade, a) ==> a !in db.targets)
    && Planned(db, root, cascade, root)
    && db.actors[root].key == key && db.actors[root].takosUser == takosUser && db.actors[root].owner == owner
  }

  function Reserve(db: Db, op: nat, token: nat, root: Id, key: Id, cascade: bool, now: int): Db {
    db.(ops := db.ops[op := Operation(root, key, token, now + LEASE_MS)],
        targets := db.targets + map a | a in db.actors && Planned(db, root, cascade, a) :: Target(op, db.actors[a].key, false))
  }

  /** Every planned actor still exists, with its recorded key, not deleted. */
  predicate IncarnationsValid(db: Db, op: nat) {
    forall a <- db.targets :: db.targets[a].op == op ==>
      a in db.actors && db.actors[a].key == db.targets[a].key && !db.actors[a].deleted
  }

  predicate RootAlive(db: Db, op: Operation) {
    op.root in db.actors && db.actors[op.root].key == op.rootKey && !db.actors[op.root].deleted
  }

  predicate MayClaim(db: Db, op: nat, now: int) {
    op in db.ops && db.ops[op].expires <= now && RootAlive(db, db.ops[op]) && IncarnationsValid(db, op)
  }

  predicate MayRenew(db: Db, op: nat, token: nat, now: int) {
    op in db.ops && db.ops[op].token == token && db.ops[op].expires > now && RootAlive(db, db.ops[op]) && IncarnationsValid(db, op)
  }

  /** The worker guard's witness for one target. */
  predicate WorkerGuard(db: Db, op: nat, token: nat, target: Id, now: int) {
    && op in db.ops && db.ops[op].token == token && db.ops[op].expires > now
    && db.ops[op].root in db.actors && db.actors[db.ops[op].root].key == db.ops[op].rootKey
    && target in db.targets && db.targets[target].op == op
    && target in db.actors && db.actors[target].key == db.targets[target].key
  }

  predicate NoRowOf(db: Db, op: nat, rows: map<Id, Id>) {
    forall r <- rows :: rows[r] in db.targets ==> db.targets[rows[r]].op != op
  }

  /** The extra clauses of the finalization guard. */
  predicate AllDone(db: Db, op: nat) {
    && IncarnationsValid(db, op)
    && (forall a <- db.targets :: db.targets[a].op == op ==> db.targets[a].complete)
    && NoRowOf(db, op, db.owned.uploads) && NoRowOf(db, op, db.owned.blobJobs) && NoRowOf(db, op, db.owned.attempts)
  }

  predicate MayFinalize(db: Db, op: nat, token: nat, now: int) {
    op in db.ops && WorkerGuard(db, op, token, db.ops[op].root, now) && AllDone(db, op)
  }

  predicate InPlan(db: Db, op: nat, a: Id) {
    a in db.targets && db.targets[a].op == op
  }

  /** The finalization batch: tombstones, sessions, plan and operation together. */
  function Finalize(db: Db, op: nat): Db {
    db.(actors := map a | a in db.actors ::
          if InPlan(db, op, a) then db.actors[a].(deleted := true, owner := None, takosUser := None) else db.actors[a],
        owned := db.owned.(sessions := map r | r in db.owned.sessions && !InPlan(db, op, db.owned.sessions[r]) :: db.owned.sessions[r]),
        targets := map a | a in db.targets && db.targets[a].op != op :: db.targets[a],
        ops := db.ops - {op})
  }

  /** `actorNotReservedSql`: neither the actor nor its current owner is a target. */
  predicate NotReserved(db: Db, a: Id) {
    && a !in db.targets
    && (a in db.actors && db.actors[a].owner.Some? ==> db.actors[a].owner.value !in db.targets)
  }

  predicate OrdinaryGuard(db: Db, a: Id, key: Id, takosUser: Option<Id>) {
    a in db.actors && db.actors[a].key == key && db.actors[a].takosUser == takosUser && !db.actors[a].deleted && NotReserved(db, a)
  }

  predicate ObjectGuard(db: Db, object_: Id, author: Id) {
    object_ in db.objects && db.objects[object_] == author && NotReserved(db, author)
  }

  // ---- the interleaved system ----

  datatype Local = Idle | Holding(op: nat, token: nat)

  /** The plan of an operation as reserved; kept after the operation is gone. */
  datatype Plan = Plan(root: Id, cascade: bool, keys: map<Id, Id>)

  /** `next` is the source of operation ids and tokens; `plans` is history. */
  datatype World = World(db: Db, workers: map<nat, Local>, next: nat, plans: map<nat, Plan>)

  datatype Step =
    | Reserving(worker: nat, root: Id, key: Id, takosUser: Option<Id>, owner: Option<Id>, cascade: bool, now: int)
    | Claiming(worker: nat, op: nat, now: int)
    | Renewing(worker: nat, now: int)
    | Releasing(worker: nat)
    | Tearing(worker: nat, target: Id, owned: Owned, objects: map<Id, Id>, now: int)
    | Completing(worker: nat, target: Id, now: int)
    | Finalizing(worker: nat, now: int)
    | Ordinary(actor: Id, key: Id, takosUser: Option<Id>, persona: Option<(Id, Actor)>, owned: Owned, objects: map<Id, Id>)
    | Interacting(noteId: Id, author: Id)
    | Background(owned: Owned)      // queue consumers, upload settlement

  function LocalOf(s: World, i: nat): Local {
    if i in s.workers then s.workers[i] else Idle
  }

  function ReservedPlan(db: Db, root: Id, cascade: bool): Plan {
    Plan(root, cascade, map a | a in db.actors && Planned(db, root, cascade, a) :: db.actors[a].key)
  }

  function DoReserve(s: World, i: nat, root: Id, key: Id, takosUser: Option<Id>, owner: Option<Id>, cascade: bool, now: int): World {
    if !MayReserve(s.db, root, key, takosUser, owner, cascade) then s
    else
      var op, token := s.next, s.next + 1;
      World(Reserve(s.db, op, token, root, key, cascade, now), s.workers[i := Holding(op, token)], s.next + 2,
            s.plans[op := ReservedPlan(s.db, root, cascade)])
  }

  function DoClaim(s: World, i: nat, op: nat, now: int): World {
    if !MayClaim(s.db, op, now) then s
    else World(s.db.(ops := s.db.ops[op := s.db.ops[op].(token := s.next, expires := now + LEASE_MS)]),
               s.workers[i := Holding(op, s.next)], s.next + 1, s.plans)
  }

  /** A persona created by an ordinary write belongs to the writer. */
  function AddPersona(actors: map<Id, Actor>, owner: Id, persona: Option<(Id, Actor)>): map<Id, Actor> {
    if persona.Some? && persona.value.0 !in actors then actors[persona.value.0 := persona.value.1.(owner := Some(owner))] else actors
  }

  function Next(s: World, step: Step): World {
    match step
    case Reserving(i, root, key, takosUser, owner, cascade, now) => DoReserve(s, i, root, key, takosUser, owner, cascade, now)
    case Claiming(i, op, now) => DoClaim(s, i, op, now)
    case Renewing(i, now) =>
      var l := LocalOf(s, i);
      if l.Holding? && MayRenew(s.db, l.op, l.token, now)
      then s.(db := s.db.(ops := s.db.ops[l.op := s.db.ops[l.op].(expires := now + LEASE_MS)])) else s
    case Releasing(i) =>
      var l := LocalOf(s, i);
      if l.Holding? && l.op in s.db.ops && s.db.ops[l.op].token == l.token
      then s.(db := s.db.(ops := s.db.ops[l.op := s.db.ops[l.op].(expires := 0)]), workers := s.workers[i := Idle])
      else s.(workers := s.workers[i := Idle])
    case Tearing(i, target, owned, objects, now) =>
      var l := LocalOf(s, i);
      if l.Holding? && WorkerGuard(s.db, l.op, l.token, target, now) then s.(db := s.db.(owned := owned, objects := objects)) else s
    case Completing(i, target, now) =>
      var l := LocalOf(s, i);
      if l.Holding? && WorkerGuard(s.db, l.op, l.token, target, now)
      then s.(db := s.db.(targets := s.db.targets[target := s.db.targets[target].(complete := true)])) else s
    case Finalizing(i, now) =>
      var l := LocalOf(s, i);
      if l.Holding? && MayFinalize(s.db, l.op, l.token, now) then s.(db := Finalize(s.db, l.op)) else s
    case Ordinary(a, key, takosUser, persona, owned, objects) =>
      if OrdinaryGuard(s.db, a, key, takosUser)
      then s.(db := s.db.(owned := owned, objects := objects, actors := AddPersona(s.db.actors, a, persona), journal := s.db.journal + [a]))
      else s
    case Interacting(noteId, author) =>
      if ObjectGuard(s.db, noteId, author) then s.(db := s.db.(journal := s.db.journal + [author])) else s
    case Background(owned) => s.(db := s.db.(owned := owned))
  }

  function Run(s: World, steps: seq<Step>): World {
    if steps == [] then s else Next(Run(s, steps[..|steps| - 1]), steps[|steps| - 1])
  }

  /** Any population of actors and data, with no deletion under way. */
  ghost predicate Initial(s: World) {
    s.db.ops == map[] && s.db.targets == map[] && s.workers == map[] && s.plans == map[]
  }

  // ---- the invariant ----

  /** The stored target rows of an operation are exactly its plan, keys included. */
  ghost predicate PlanStored(db: Db, op: nat, plan: Plan) {
    && op in db.ops && db.ops[op].root == plan.root && plan.root in plan.keys && plan.keys[plan.root] == db.ops[op].rootKey
    && (forall a :: InPlan(db, op, a) <==> a in plan.keys)
    && (forall a <- plan.keys :: db.targets[a].key == plan.keys[a])
  }

  /**
   * While reserved: every planned actor is alive under its recorded key, and is the root
   * or, in a cascading plan, owned by it.
   */
  ghost predicate StillWhole(db: Db, plan: Plan) {
    && (forall a <- plan.keys :: a in db.actors && !db.actors[a].deleted && db.actors[a].key == plan.keys[a])
    && (forall a <- plan.keys :: a == plan.root || (plan.cascade && db.actors[a].owner == Some(plan.root)))
    && (plan.cascade ==> forall a <- db.actors :: !db.actors[a].deleted && db.actors[a].owner == Some(plan.root) ==> a in plan.keys)
  }

  /** Once finalized: every planned actor is a tombstone and no target row is left. */
  ghost predicate AllGone(db: Db, op: nat, plan: Plan) {
    && (forall a :: !InPlan(db, op, a))
    && (forall a <- plan.keys :: a in db.actors && db.actors[a].deleted)
  }

  /** All or nothing: an operation is wholly reserved or wholly finalized. */
  ghost predicate PlanOk(db: Db, op: nat, plan: Plan) {
    if op in db.ops then PlanStored(db, op, plan) && StillWhole(db, plan) else AllGone(db, op, plan)
  }

  ghost predicate PlansOk(s: World) {
    && (forall op <- s.db.ops :: op in s.plans)
    && (forall a <- s.db.targets :: s.db.targets[a].op in s.db.ops)
    && (forall op <- s.plans :: op < s.next && PlanOk(s.db, op, s.plans[op]))
  }

  ghost predicate TokensOk(s: World) {
    && (forall op <- s.db.ops :: s.db.ops[op].token < s.next)
    && (forall o1 <- s.db.ops, o2 <- s.db.ops :: o1 != o2 ==> s.db.ops[o1].token != s.db.ops[o2].token)
    && (forall i <- s.workers :: s.workers[i].Holding? ==> s.workers[i].token < s.next)
    && (forall i <- s.workers, j <- s.workers :: i != j && s.workers[i].Holding? && s.workers[j].Holding? ==> s.workers[i].token != s.workers[j].token)
  }

  ghost predicate Inv(s: World) {
    PlansOk(s) && TokensOk(s)
  }

  // ---- each step keeps it ----

  lemma {:induction false} ReserveKeepsOtherPlan(db: Db, db': Db, op: nat, token: nat, root: Id, key: Id, cascade: bool, now: int, other: nat, plan: Plan)
    requires forall a <- db.actors :: Planned(db, root, cascade, a) ==> a !in db.targets
    requires db' == Reserve(db, op, token, root, key, cascade, now)
    requires other != op && PlanOk(db, other, plan)
    ensures PlanOk(db', other, plan)
  {
    assert forall a :: InPlan(db', other, a) <==> InPlan(db, other, a);
  }

  lemma {:induction false} ReserveStoresPlan(db: Db, op: nat, token: nat, root: Id, key: Id, takosUser: Option<Id>, owner: Option<Id>, cascade: bool, now: int)
    requires MayReserve(db, root, key, takosUser, owner, cascade)
    requires forall a <- db.targets :: db.targets[a].op != op
    ensures PlanOk(Reserve(db, op, token, root, key, cascade, now), op, ReservedPlan(db, root, cascade))
  {
    var db' := Reserve(db, op, token, root, key, cascade, now);
    assert forall a :: InPlan(db', op, a) <==> a in db.actors && Planned(db, root, cascade, a);
  }

  /** The rows a reservation adds belong to the new operation, the others are untouched. */
  lemma {:induction false} ReserveRows(db: Db, op: nat, token: nat, root: Id, key: Id, cascade: bool, now: int, a: Id)
    requires a in Reserve(db, op, token, root, key, cascade, now).targets
    ensures var t := Reserve(db, op, token, root, key, cascade, now).targets[a]; t.op == op || (a in db.targets && t == db.targets[a])
  {
  }

  lemma {:induction false} ReserveKeepsPlans(s: World, i: nat, root: Id, key: Id, takosUser: Option<Id>, owner: Option<Id>, cascade: bool, now: int)
    requires PlansOk(s) && MayReserve(s.db, root, key, takosUser, owner, cascade)
    ensures PlansOk(DoReserve(s, i, root, key, takosUser, owner, cascade, now))
  {
    var s' := DoReserve(s, i, root, key, takosUser, owner, cascade, now);
    var op := s.next;
    var db' := Reserve(s.db, op, op + 1, root, key, cascade, now);
    assert op !in s.plans && op !in s.db.ops;
    assert PlanOk(db', op, ReservedPlan(s.db, root, cascade)) by {
      ReserveStoresPlan(s.db, op, op + 1, root, key, takosUser, owner, cascade, now);
    }
    forall other | other in s.plans ensures PlanOk(db', other, s.plans[other]) {
      ReserveKeepsOtherPlan(s.db, db', op, op + 1, root, key, cascade, now, other, s.plans[other]);
    }
    forall a | a in db'.targets ensures db'.targets[a].op in db'.ops {
      ReserveRows(s.db, op, op + 1, root, key, cascade, now, a);
    }
    assert s'.db == db' && s'.plans == s.plans[op := ReservedPlan(s.db, root, cascade)];
  }

  /** Two states that differ in lease columns, owned rows, objects and completion marks only. */
  ghost predicate SameShape(db: Db, db': Db) {
    && db'.actors == db.actors
    && db'.ops.Keys == db.ops.Keys
    && (forall op <- db.ops :: db'.ops[op].root == db.ops[op].root && db'.ops[op].rootKey == db.ops[op].rootKey)
    && db'.targets.Keys == db.targets.Keys
    && (forall a <- db.targets :: db'.targets[a].op == db.targets[a].op && db'.targets[a].key == db.targets[a].key)
  }

  lemma {:induction false} SameShapeKeepsPlan(db: Db, db': Db, op: nat, plan: Plan)
    requires SameShape(db, db') && PlanOk(db, op, plan)
    ensures PlanOk(db', op, plan)
  {
    assert forall a :: InPlan(db', op, a) <==> InPlan(db, op, a);
  }

  lemma {:induction false} SameShapeKeepsPlans(s: World, s': World)
    requires PlansOk(s) && s'.plans == s.plans && s'.next >= s.next && SameShape(s.db, s'.db)
    ensures PlansOk(s')
  {
    forall op | op in s.plans ensures PlanOk(s'.db, op, s.plans[op]) {
      SameShapeKeepsPlan(s.db, s'.db, op, s.plans[op]);
    }
  }

  ghost predicate IsLeaseOrRowStep(step: Step) {
    !step.Reserving? && !step.Finalizing? && !step.Ordinary?
  }

  lemma {:induction false} LeaseAndRowStepsKeepShape(s: World, step: Step)
    requires IsLeaseOrRowStep(step)
    ensures SameShape(s.db, Next(s, step).db) && Next(s, step).plans == s.plans && Next(s, step).next >= s.next
  {
    if step.Claiming? || step.Renewing? || step.Releasing? {
      LeaseStepsKeepShape(s, step);
    } else {
      RowStepsKeepShape(s, step);
    }
  }

  lemma {:induction false} LeaseStepsKeepShape(s: World, step: Step)
    requires step.Claiming? || step.Renewing? || step.Releasing?
    ensures SameShape(s.db, Next(s, step).db) && Next(s, step).plans == s.plans && Next(s, step).next >= s.next
  {
  }

  lemma {:induction false} RowStepsKeepShape(s: World, step: Step)
    requires step.Tearing? || step.Completing? || step.Interacting? || step.Background?
    ensures SameShape(s.db, Next(s, step).db) && Next(s, step).plans == s.plans && Next(s, step).next >= s.next
  {
  }

  /** An ordinary write adds at most a persona of an unreserved owner, so it keeps every plan. */
  lemma {:induction false} PersonaKeepsPlan(db: Db, db': Db, a: Id, persona: Option<(Id, Actor)>, op: nat, plan: Plan)
    requires PlanOk(db, op, plan) && a !in db.targets
    requires db'.actors == AddPersona(db.actors, a, persona) && db'.targets == db.targets && db'.ops == db.ops
    ensures PlanOk(db', op, plan)
  {
    assert forall b :: InPlan(db', op, b) <==> InPlan(db, op, b);
    if op in db.ops {
      assert InPlan(db, op, plan.root);
    }
  }

  lemma {:induction false} OrdinaryKeepsPlans(s: World, step: Step)
    requires PlansOk(s) && step.Ordinary? && OrdinaryGuard(s.db, step.actor, step.key, step.takosUser)
    ensures PlansOk(Next(s, step))
  {
    var s' := Next(s, step);
    forall op | op in s.plans ensures PlanOk(s'.db, op, s.plans[op]) {
      PersonaKeepsPlan(s.db, s'.db, step.actor, step.persona, op, s.plans[op]);
    }
  }

  lemma {:induction false} FinalizeKeepsPlan(db: Db, op: nat, other: nat, plan: Plan)
    requires op in db.ops && IncarnationsValid(db, op)
    requires PlanOk(db, other, plan)
    ensures PlanOk(Finalize(db, op), other, plan)
  {
    var db' := Finalize(db, op);
    if other == op {
      forall a | a in plan.keys ensures a in db'.actors && db'.actors[a].deleted {
        assert InPlan(db, op, a);
      }
    } else {
      assert forall a :: InPlan(db', other, a) <==> InPlan(db, other, a);
      if other in db.ops {
        forall a | a in plan.keys ensures a in db'.actors && db'.actors[a] == db.actors[a] {
          assert InPlan(db, other, a);
        }
      }
    }
  }

  lemma {:induction false} FinalizeKeepsPlans(s: World, op: nat)
    requires PlansOk(s) && op in s.db.ops && IncarnationsValid(s.db, op)
    ensures PlansOk(s.(db := Finalize(s.db, op)))
  {
    forall other | other in s.plans ensures PlanOk(Finalize(s.db, op), other, s.plans[other]) {
      FinalizeKeepsPlan(s.db, op, other, s.plans[other]);
    }
  }

  lemma {:induction false} NextKeepsPlans(s: World, step: Step)
    requires PlansOk(s)
    ensures PlansOk(Next(s, step))
  {
    match step
    case Reserving(i, root, key, takosUser, owner, cascade, now) =>
      if MayReserve(s.db, root, key, takosUser, owner, cascade) {
        ReserveKeepsPlans(s, i, root, key, takosUser, owner, cascade, now);
      }
    case Ordinary(a, key, takosUser, _, _, _) =>
      if OrdinaryGuard(s.db, a, key, takosUser) {
        OrdinaryKeepsPlans(s, step);
      }
    case Finalizing(i, now) =>
      var l := LocalOf(s, i);
      if l.Holding? && MayFinalize(s.db, l.op, l.token, now) {
        FinalizeKeepsPlans(s, l.op);
      }
    case _ =>
      LeaseAndRowStepsKeepShape(s, step);
      SameShapeKeepsPlans(s, Next(s, step));
  }

  lemma {:induction false} IssuingKeepsTokens(s: World, step: Step)
    requires TokensOk(s) && (step.Reserving? || step.Claiming?)
    ensures TokensOk(Next(s, step))
  {
  }

  lemma {:induction false} NextKeepsTokens(s: World, step: Step)
    requires TokensOk(s)
    ensures TokensOk(Next(s, step))
  {
    if step.Reserving? || step.Claiming? {
      IssuingKeepsTokens(s, step);
    } else {
      NoNewTokens(s, step);
    }
  }

  lemma {:induction false} NoNewTokens(s: World, step: Step)
    requires !step.Reserving? && !step.Claiming?
    ensures var s' := Next(s, step);
      && s'.next == s.next
      && (forall op <- s'.db.ops :: op in s.db.ops && s'.db.ops[op].token == s.db.ops[op].token)
      && (forall i <- s'.workers :: s'.workers[i] == Idle || (i in s.workers && s'.workers[i] == s.workers[i]))
  {
  }

  lemma {:induction false} NextKeepsInv(s: World, step: Step)
    requires Inv(s)
    ensures Inv(Next(s, step))
  {
    NextKeepsPlans(s, step);
    NextKeepsTokens(s, step);
  }

  lemma {:induction false} RunKeepsInv(s: World, steps: seq<Step>)
    requires Inv(s)
    ensures Inv(Run(s, steps))
  {
    if steps != [] {
      RunKeepsInv(s, steps[..|steps| - 1]);
      NextKeepsInv(Run(s, steps[..|steps| - 1]), steps[|steps| - 1]);
    }
  }

  // ---- what every run guarantees ----

  /**
   * All or nothing over every run: each operation ever reserved is either still
   * wholly reserved, with its exact plan stored and every planned actor alive
   * under its recorded key, or wholly finalized, with every planned actor a
   * tombstone and no target row left.
   */
  lemma {:induction false} NeverPartlyFinalized(s: World, steps: seq<Step>)
    requires Initial(s)
    ensures var s' := Run(s, steps);
      && (forall op <- s'.plans :: PlanOk(s'.db, op, s'.plans[op]))
      && (forall a <- s'.db.targets :: s'.db.targets[a].op in s'.db.ops && s'.db.targets[a].op in s'.plans)
  {
    RunKeepsInv(s, steps);
  }

  /** A finalization that commits found everything done, and leaves nothing of the plan behind. */
  lemma {:induction false} FinalizationIsComplete(s: World, i: nat, now: int)
    requires Inv(s)
    requires LocalOf(s, i).Holding? && Next(s, Finalizing(i, now)).db != s.db
    ensures var op := LocalOf(s, i).op; var db, db' := s.db, Next(s, Finalizing(i, now)).db;
      && op in db.ops && op in s.plans && AllDone(db, op)
      && db.ops[op].token == LocalOf(s, i).token && db.ops[op].expires > now
      && op !in db'.ops
      && (forall a <- s.plans[op].keys :: a in db'.actors && db'.actors[a].deleted && a !in db'.targets)
      && (forall r <- db'.owned.sessions :: db'.owned.sessions[r] !in s.plans[op].keys)
      && (s.plans[op].cascade ==> forall a <- db'.actors :: db'.actors[a].deleted || db'.actors[a].owner != Some(s.plans[op].root))
      && (forall a <- db.actors :: a !in s.plans[op].keys ==> a in db'.actors && db'.actors[a] == db.actors[a])
  {
    var op := LocalOf(s, i).op;
    assert PlanOk(s.db, op, s.plans[op]);
    forall a | a in s.plans[op].keys ensures InPlan(s.db, op, a) {
    }
  }

  /** At any instant, whatever clocks they read, at most one worker passes an operation's guard. */
  lemma {:induction false} OneWorkerCommits(s: World, i: nat, j: nat, op: nat, t1: Id, t2: Id, now1: int, now2: int)
    requires Inv(s) && LocalOf(s, i).Holding? && LocalOf(s, j).Holding?
    requires WorkerGuard(s.db, op, LocalOf(s, i).token, t1, now1) && WorkerGuard(s.db, op, LocalOf(s, j).token, t2, now2)
    ensures i == j
  {
  }

  /** A lease token that was issued and is on no operation row. */
  ghost predicate Superseded(s: World, token: nat) {
    token < s.next && forall op <- s.db.ops :: s.db.ops[op].token != token
  }

  lemma {:induction false} NextKeepsSuperseded(s: World, step: Step, token: nat)
    requires Superseded(s, token)
    ensures Superseded(Next(s, step), token)
  {
  }

  /** Steps taken under a worker's lease. */
  ghost predicate UnderLease(step: Step, i: nat) {
    (step.Renewing? || step.Releasing? || step.Tearing? || step.Completing? || step.Finalizing?) && step.worker == i
  }

  /** A superseded worker aborts whole, now and after any further run. */
  lemma {:induction false} SupersededNeverCommits(s: World, steps: seq<Step>, token: nat, i: nat, step: Step)
    requires Superseded(s, token)
    ensures Superseded(Run(s, steps), token)
    ensures var s' := Run(s, steps);
      LocalOf(s', i).Holding? && LocalOf(s', i).token == token && UnderLease(step, i) ==> Next(s', step).db == s'.db
  {
    if steps != [] {
      SupersededNeverCommits(s, steps[..|steps| - 1], token, i, step);
      NextKeepsSuperseded(Run(s, steps[..|steps| - 1]), steps[|steps| - 1], token);
    }
  }

  /** A takeover supersedes the previous holder. */
  lemma {:induction false} TakeoverSupersedes(s: World, i: nat, op: nat, now: int)
    requires TokensOk(s) && MayClaim(s.db, op, now)
    ensures Superseded(DoClaim(s, i, op, now), s.db.ops[op].token)
  {
  }

  // ---- the fence ----

  /** The actor is planned, or is owned by a planned actor. */
  ghost predicate Fenced(db: Db, plan: Plan, a: Id) {
    a in plan.keys || (a in db.actors && db.actors[a].owner.Some? && db.actors[a].owner.value in plan.keys)
  }

  /** While an operation is reserved no ordinary guard lets a fenced actor or its objects through. */
  lemma {:induction false} FencedGuardsFail(s: World, op: nat, a: Id, key: Id, takosUser: Option<Id>, noteId: Id)
    requires PlansOk(s) && op in s.db.ops && Fenced(s.db, s.plans[op], a)
    ensures !OrdinaryGuard(s.db, a, key, takosUser) && !ObjectGuard(s.db, noteId, a)
  {
    assert PlanOk(s.db, op, s.plans[op]);
    if a in s.plans[op].keys {
      assert InPlan(s.db, op, a);
    } else {
      assert InPlan(s.db, op, s.db.actors[a].owner.value);
    }
  }

  /** Plans are never rewritten, and an operation that is gone never returns. */
  lemma {:induction false} NextKeepsHistory(s: World, step: Step, op: nat)
    requires op in s.plans && op < s.next
    ensures op in Next(s, step).plans && Next(s, step).plans[op] == s.plans[op]
    ensures op in Next(s, step).db.ops ==> op in s.db.ops
  {
  }

  /** The journal grows by at most one entry, under the guard of its writer. */
  lemma {:induction false} JournalStep(s: World, step: Step)
    ensures var journal, journal' := s.db.journal, Next(s, step).db.journal;
      || journal' == journal
      || (step.Ordinary? && OrdinaryGuard(s.db, step.actor, step.key, step.takosUser) && journal' == journal + [step.actor])
      || (step.Interacting? && ObjectGuard(s.db, step.noteId, step.author) && journal' == journal + [step.author])
  {
  }

  /** Entries added since `journal` name nobody in the plan. */
  ghost predicate NothingFenced(journal: seq<Id>, journal': seq<Id>, plan: Plan) {
    journal <= journal' && forall k | |journal| <= k < |journal'| :: journal'[k] !in plan.keys
  }

  lemma {:induction false} NothingFencedAppend(since: seq<Id>, journal: seq<Id>, a: Id, plan: Plan)
    requires NothingFenced(since, journal, plan) && a !in plan.keys
    ensures NothingFenced(since, journal + [a], plan)
  {
  }

  lemma {:induction false} StepWritesNothingFenced(s: World, step: Step, op: nat, since: seq<Id>)
    requires PlansOk(s) && op in s.db.ops && NothingFenced(since, s.db.journal, s.plans[op])
    ensures NothingFenced(since, Next(s, step).db.journal, s.plans[op])
  {
    var plan := s.plans[op];
    JournalStep(s, step);
    if Next(s, step).db.journal != s.db.journal {
      var a := if step.Ordinary? then step.actor else step.author;
      assert a !in plan.keys by {
        if a in plan.keys {
          if step.Ordinary? {
            FencedGuardsFail(s, op, a, step.key, step.takosUser, a);
          } else {
            FencedGuardsFail(s, op, a, a, None, step.noteId);
          }
        }
      }
      NothingFencedAppend(since, s.db.journal, a, plan);
    }
  }

  /**
   * From reservation to finalization, through any number of expiries, takeovers and
   * releases, no ordinary write by a planned actor, or on an object of one, commits.
   */
  lemma {:induction false} FencedWhileReserved(s: World, steps: seq<Step>, op: nat)
    requires Inv(s) && op in s.db.ops
    requires op in Run(s, steps).db.ops
    ensures op in Run(s, steps).plans && Run(s, steps).plans[op] == s.plans[op]
    ensures NothingFenced(s.db.journal, Run(s, steps).db.journal, s.plans[op])
  {
    RunKeepsPlan(s, steps, op);
    if steps != [] {
      var init, step := steps[..|steps| - 1], steps[|steps| - 1];
      var s1 := Run(s, init);
      RunKeepsPlan(s, init, op);
      NextKeepsHistory(s1, step, op);
      FencedWhileReserved(s, init, op);
      assert PlansOk(s1) by { RunKeepsInv(s, init); }
      StepWritesNothingFenced(s1, step, op, s.db.journal);
    }
  }

  /**
   * In every state of such a run the ordinary guarded writes of a planned actor, of an
   * actor it owns at that moment, or on an object of either, abort without a trace.
   */
  lemma {:induction false} FencedWritesAbort(s: World, steps: seq<Step>, op: nat, step: Step)
    requires Inv(s) && op in s.db.ops && op in s.plans && op in Run(s, steps).db.ops
    requires (step.Ordinary? && Fenced(Run(s, steps).db, s.plans[op], step.actor))
      || (step.Interacting? && Fenced(Run(s, steps).db, s.plans[op], step.author))
    ensures Next(Run(s, steps), step) == Run(s, steps)
  {
    var s' := Run(s, steps);
    assert PlansOk(s') by { RunKeepsInv(s, steps); }
    assert op in s.plans && s'.plans[op] == s.plans[op] by {
      assert PlansOk(s);
      RunKeepsPlan(s, steps, op);
    }
    if step.Ordinary? {
      FencedGuardsFail(s', op, step.actor, step.key, step.takosUser, step.actor);
    } else {
      FencedGuardsFail(s', op, step.author, step.author, None, step.noteId);
    }
    RefusedAborts(s', step);
  }

  lemma {:induction false} RefusedAborts(s: World, step: Step)
    requires (step.Ordinary? && !OrdinaryGuard(s.db, step.actor, step.key, step.takosUser))
      || (step.Interacting? && !ObjectGuard(s.db, step.noteId, step.author))
    ensures Next(s, step) == s
  {
  }

  lemma {:induction false} RunKeepsPlan(s: World, steps: seq<Step>, op: nat)
    requires Inv(s) && op in s.plans
    ensures op in Run(s, steps).plans && Run(s, steps).plans[op] == s.plans[op] && op < Run(s, steps).next
  {
    assert op < s.next;
    if steps != [] {
      var init := steps[..|steps| - 1];
      RunKeepsPlan(s, init, op);
      NextKeepsHistory(Run(s, init), steps[|steps| - 1], op);
      assert Next(Run(s, init), steps[|steps| - 1]).next >= Run(s, init).next;
    }
  }
}
