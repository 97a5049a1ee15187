/**
 * Observed talk reads (`talk-read-receipts.ts`): a scope starts with one "last read"
 * timestamp and may switch to one receipt per message. Each write is one checked
 * batch. Timestamps are naturals; the empty epoch of a user scope is 0.
 */
module TalkReads {
  import opened Wrappers
  import opened FiniteSets

  datatype Kind = User | Community

  datatype Scope = Scope(viewer: Id, kind: Kind, target: Id, thread: Id, epoch: nat)

  datatype Message = Message(
    isNote: bool, deleted: bool, author: Id, direct: bool,
    conversation: Option<Id>, community: Option<Id>, published: nat)

  datatype Field = To | Audience | Other

  datatype Recipient = Recipient(message: Id, actor: Id, field: Field)

  datatype ModeKey = ModeKey(viewer: Id, kind: Kind, target: Id)

  datatype Mode = Mode(thread: Id, epoch: nat)

  datatype Receipt = Receipt(scope: Scope, message: Id)

  datatype Db = Db(
    messages: map<Id, Message>,
    recipients: set<Recipient>,
    /** Authors the operator has blocked. */
    blocked: set<Id>,
    /** Local actors that are not deleted. */
    actors: set<Id>,
    cached: set<Id>,
    /** Communities that are not deleted. */
    communities: set<Id>,
    /** Community and member, with the time of joining. */
    members: map<(Id, Id), nat>,
    /** Viewer and conversation. */
    directStatus: map<(Id, Id), nat>,
    /** Viewer and community. */
    communityStatus: map<(Id, Id), nat>,
    modes: map<ModeKey, Mode>,
    receipts: set<Receipt>)

  // ----- predicates -----

  predicate Addressed(db: Db, message: Id, actor: Id, field: Field) {
    Recipient(message, actor, field) in db.recipients
  }

  /** `objectReadable`. */
  predicate Readable(db: Db, s: Scope, id: Id) {
    && id in db.messages
    && var m := db.messages[id];
    && m.isNote && !m.deleted && m.author !in db.blocked
    && match s.kind
       case User =>
         && m.direct && m.conversation == Some(s.thread)
         && ((m.author == s.target && Addressed(db, id, s.viewer, To)) || (m.author == s.viewer && Addressed(db, id, s.target, To)))
       case Community => m.community.None? && Addressed(db, id, s.target, Audience)
  }

  /** `scopeAuthorized`. */
  predicate Authorized(db: Db, s: Scope) {
    && s.viewer in db.actors
    && match s.kind
       case User =>
         s.target !in db.blocked && (s.target in db.actors || s.target in db.cached || exists id | id in db.messages :: Readable(db, s, id))
       case Community =>
         s.target in db.communities && (s.target, s.viewer) in db.members && db.members[(s.target, s.viewer)] == s.epoch
  }

  function Key(s: Scope): ModeKey {
    ModeKey(s.viewer, s.kind, s.target)
  }

  /** `observedModeExists`. */
  predicate Observed(db: Db, s: Scope) {
    Key(s) in db.modes && db.modes[Key(s)] == Mode(s.thread, s.epoch)
  }

  /** The timestamp up to which the scope counts as read before receipts. */
  function Baseline(db: Db, s: Scope): nat {
    match s.kind
    case User => if (s.viewer, s.thread) in db.directStatus then db.directStatus[(s.viewer, s.thread)] else 0
    case Community => if (s.viewer, s.target) in db.communityStatus then db.communityStatus[(s.viewer, s.target)] else s.epoch
  }

  /** `unreadTalkObjectSql` for a message of the scope. */
  predicate Unread(db: Db, s: Scope, id: Id)
    requires id in db.messages
  {
    if Observed(db, s) then Receipt(s, id) !in db.receipts else db.messages[id].published > Baseline(db, s)
  }

  function UnreadSet(db: Db, s: Scope): set<Id> {
    set id | id in db.messages && Readable(db, s, id) && Unread(db, s, id)
  }

  /** What contact counts and badges show: not the viewer's own messages. */
  function Badge(db: Db, s: Scope): set<Id> {
    set id | id in UnreadSet(db, s) && id in db.messages && db.messages[id].author != s.viewer
  }

  /** `ambiguousLegacyThreadSql`: the thread also holds messages of another peer. */
  predicate Ambiguous(db: Db, s: Scope) {
    s.kind == User && exists id | id in db.messages :: ForeignMessage(db, s, id)
  }

  predicate ForeignMessage(db: Db, s: Scope, id: Id)
    requires id in db.messages
  {
    var m := db.messages[id];
    && m.direct && m.isNote && m.conversation == Some(s.thread)
    && (|| (m.author != s.viewer && m.author != s.target && Addressed(db, id, s.viewer, To))
        || (m.author == s.viewer && exists r | r in db.recipients :: r.message == id && r.field == To && r.actor != s.viewer && r.actor != s.target))
  }

  // ----- statements -----

  /** `insertReads` for the given messages, existing receipts left alone. */
  function InsertReads(db: Db, s: Scope, chosen: set<Id>): Db {
    db.(receipts := db.receipts + set id | id in chosen && Readable(db, s, id) :: Receipt(s, id))
  }

  /** The messages the timestamp already covers. */
  function Covered(db: Db, s: Scope): set<Id> {
    set id | id in db.messages && db.messages[id].published <= Baseline(db, s)
  }

  /** `observedInitialization`: seed receipts for a scope not yet observed, then point the mode row at it. */
  function Initialization(db: Db, s: Scope, whenever: bool): Db {
    var seeded := if whenever && !Observed(db, s) then InsertReads(db, s, Covered(db, s)) else db;
    if whenever then seeded.(modes := seeded.modes[Key(s) := Mode(s.thread, s.epoch)]) else seeded
  }

  /** `legacyObservedReadWrite`. */
  function MarkAll(db: Db, s: Scope): Db {
    if Authorized(db, s) && Observed(db, s) then InsertReads(db, s, db.messages.Keys) else db
  }

  /** The status row the legacy endpoints write with the receipts. */
  function StatusWrite(db: Db, s: Scope, now: nat): Db {
    match s.kind
    case User => if Ambiguous(db, s) then db else db.(directStatus := db.directStatus[(s.viewer, s.thread) := now])
    case Community => db.(communityStatus := db.communityStatus[(s.viewer, s.target) := now])
  }

  // ----- checked batches: a failed assertion leaves no trace -----

  function Initialize(db: Db, s: Scope): Option<Db> {
    var after := Initialization(db, s, true);
    if Authorized(db, s) && Authorized(after, s) && Observed(after, s) then Some(after) else None
  }

  function Chosen(db: Db, s: Scope, ids: seq<Id>): set<Id> {
    set id | id in ids && Readable(db, s, id)
  }

  predicate AckValid(db: Db, s: Scope, ids: seq<Id>) {
    Authorized(db, s) && Observed(db, s) && |Chosen(db, s, ids)| == |ids|
  }

  function Acknowledge(db: Db, s: Scope, ids: seq<Id>): Option<Db> {
    var after := InsertReads(db, s, ToSet(ids));
    if AckValid(db, s, ids) && AckValid(after, s, ids) then Some(after) else None
  }

  function LegacyRead(db: Db, s: Scope, now: nat): Option<Db> {
    var after := StatusWrite(MarkAll(Initialization(db, s, Ambiguous(db, s)), s), s, now);
    if Authorized(db, s) && Authorized(after, s) then Some(after) else None
  }

  // ----- what the writes leave alone -----

  /** Everything that decides readability is as before. */
  ghost predicate SameContent(a: Db, b: Db) {
    && a.messages == b.messages && a.recipients == b.recipients && a.blocked == b.blocked && a.actors == b.actors
    && a.cached == b.cached && a.communities == b.communities && a.members == b.members
  }

  lemma {:induction false} SameContentReads(a: Db, b: Db, s: Scope)
    requires SameContent(a, b)
    ensures Authorized(a, s) == Authorized(b, s) && Ambiguous(a, s) == Ambiguous(b, s)
    ensures forall id :: Readable(a, s, id) == Readable(b, s, id)
  {
    assert forall id :: Readable(a, s, id) == Readable(b, s, id);
    assert forall id | id in a.messages :: ForeignMessage(a, s, id) == ForeignMessage(b, s, id);
  }

  // ----- initialization -----

  /** A receipt under this scope for a readable message the timestamp does not cover. */
  ghost predicate EarlyReceipt(db: Db, s: Scope, id: Id) {
    Readable(db, s, id) && Receipt(s, id) in db.receipts && db.messages[id].published > Baseline(db, s)
  }

  /** Initialization fails exactly for an unauthorized scope, and otherwise turns the receipt rule on. */
  lemma {:induction false} InitializeSucceeds(db: Db, s: Scope)
    ensures Initialize(db, s).Some? <==> Authorized(db, s)
    ensures Initialize(db, s).Some? ==> SameContent(db, Initialize(db, s).value) && Observed(Initialize(db, s).value, s)
  {
    SameContentReads(db, Initialization(db, s, true), s);
  }

  /**
   * Switching from the timestamp rule to the receipt rule leaves the unread set as it
   * was exactly when no receipt of an earlier period covers a message the timestamp
   * does not; in particular when there are no receipts.
   */
  lemma {:induction false} InitializeKeepsUnread(db: Db, s: Scope)
    requires Authorized(db, s)
    ensures Initialize(db, s).Some?
    ensures UnreadSet(Initialize(db, s).value, s) == UnreadSet(db, s) <==> Observed(db, s) || forall id :: !EarlyReceipt(db, s, id)
  {
    InitializeSucceeds(db, s);
    var after := Initialize(db, s).value;
    SameContentReads(db, after, s);
    if !Observed(db, s) {
      forall id | Readable(db, s, id)
        ensures id in UnreadSet(after, s) <==> id in UnreadSet(db, s) && !EarlyReceipt(db, s, id)
      {
        SeededReceipt(db, s, id);
      }
      if id :| EarlyReceipt(db, s, id) {
        assert id in UnreadSet(db, s) && id !in UnreadSet(after, s);
      } else {
        assert UnreadSet(after, s) == UnreadSet(db, s);
      }
    } else {
      assert after.modes == db.modes;
    }
  }

  lemma {:induction false} SeededReceipt(db: Db, s: Scope, id: Id)
    requires Readable(db, s, id) && !Observed(db, s)
    ensures var after := Initialization(db, s, true);
      Receipt(s, id) in after.receipts <==> Receipt(s, id) in db.receipts || db.messages[id].published <= Baseline(db, s)
  {
    assert id in Covered(db, s) <==> db.messages[id].published <= Baseline(db, s);
  }

  /** Repeating it changes nothing at all. */
  lemma {:induction false} InitializeAgain(db: Db, s: Scope)
    requires Authorized(db, s)
    ensures Initialize(db, s).Some? && Initialize(Initialize(db, s).value, s) == Initialize(db, s)
  {
    InitializeSucceeds(db, s);
    var after := Initialize(db, s).value;
    InitializeSucceeds(after, s);
    SameContentReads(db, after, s);
    assert after.modes[Key(s) := Mode(s.thread, s.epoch)] == after.modes;
  }

  // ----- acknowledgement -----

  /** Counting the readable rows among the ids says each was named once and is readable. */
  lemma {:induction false} CountSaysAll(db: Db, s: Scope, ids: seq<Id>)
    ensures |Chosen(db, s, ids)| == |ids| <==> Distinct(ids) && forall k | 0 <= k < |ids| :: Readable(db, s, ids[k])
  {
    ToSetSize(ids);
    SubsetCount(Chosen(db, s, ids), ToSet(ids));
    if Chosen(db, s, ids) == ToSet(ids) {
      assert forall k | 0 <= k < |ids| :: ids[k] in ToSet(ids);
    }
  }

  /**
   * An acknowledgement either removes exactly the given messages from the unread set,
   * which it does when the scope is current and every id is readable and named once,
   * or aborts without a trace.
   */
  lemma {:induction false} AcknowledgeIsExact(db: Db, s: Scope, ids: seq<Id>)
    ensures Acknowledge(db, s, ids).Some?
      <==> Authorized(db, s) && Observed(db, s) && Distinct(ids) && forall k | 0 <= k < |ids| :: Readable(db, s, ids[k])
    ensures Acknowledge(db, s, ids).Some? ==>
      UnreadSet(Acknowledge(db, s, ids).value, s) == UnreadSet(db, s) - ToSet(ids)
  {
    var after := InsertReads(db, s, ToSet(ids));
    SameContentReads(db, after, s);
    CountSaysAll(db, s, ids);
    assert Chosen(after, s, ids) == Chosen(db, s, ids);
  }

  // ----- the timestamp endpoint -----

  /** After it nothing of the scope is unread but, under the timestamp rule, what is dated later. */
  lemma {:induction false} LegacyReadClears(db: Db, s: Scope, now: nat)
    requires Authorized(db, s)
    ensures LegacyRead(db, s, now).Some?
    ensures var after := LegacyRead(db, s, now).value;
      UnreadSet(after, s) == if Observed(db, s) || Ambiguous(db, s) then {}
        else set id | id in db.messages && Readable(db, s, id) && db.messages[id].published > now
  {
    var amb := Ambiguous(db, s);
    var first := Initialization(db, s, amb);
    var marked := MarkAll(first, s);
    var after := StatusWrite(marked, s, now);
    InitializationMode(db, s, amb);
    MarkedReceipts(first, s);
    SameContentReads(db, first, s);
    SameContentReads(db, marked, s);
    StatusSetsBaseline(marked, s, now);
    SameContentReads(db, after, s);
  }

  lemma {:induction false} InitializationMode(db: Db, s: Scope, whenever: bool)
    ensures var after := Initialization(db, s, whenever);
      SameContent(db, after) && (Observed(after, s) <==> whenever || Observed(db, s))
  {
  }

  lemma {:induction false} MarkedReceipts(db: Db, s: Scope)
    ensures var after := MarkAll(db, s);
      && SameContent(db, after) && Observed(after, s) == Observed(db, s)
      && (Authorized(db, s) && Observed(db, s) ==> forall id | Readable(db, s, id) :: Receipt(s, id) in after.receipts)
  {
  }

  lemma {:induction false} StatusSetsBaseline(db: Db, s: Scope, now: nat)
    ensures var after := StatusWrite(db, s, now);
      && SameContent(db, after) && after.modes == db.modes && after.receipts == db.receipts
      && (!Ambiguous(db, s) ==> Baseline(after, s) == now)
  {
  }

  /** Scopes that do not share a mode row. */
  predicate Apart(s: Scope, t: Scope) {
    Key(s) != Key(t)
  }

  lemma {:induction false} ApartUntouched(db: Db, s: Scope, t: Scope, whenever: bool)
    requires Apart(s, t)
    ensures Untouched(db, Initialization(db, s, whenever), t) && Untouched(db, MarkAll(db, s), t)
  {
    InsertsOwn(db, s, t, Covered(db, s));
    InsertsOwn(db, s, t, db.messages.Keys);
  }

  /** Content, timestamps and all that concerns `t` are as before. */
  ghost predicate Untouched(db: Db, after: Db, t: Scope) {
    && SameContent(db, after) && after.directStatus == db.directStatus && after.communityStatus == db.communityStatus
    && Observed(after, t) == Observed(db, t)
    && forall id :: Receipt(t, id) in after.receipts <==> Receipt(t, id) in db.receipts
  }

  lemma {:induction false} InsertsOwn(db: Db, s: Scope, t: Scope, chosen: set<Id>)
    requires s != t
    ensures Untouched(db, InsertReads(db, s, chosen), t)
  {
  }

  /** A conversation shared by two peers is ambiguous as soon as either has a message the other scope could count. */
  lemma {:induction false} SharedThreadIsAmbiguous(db: Db, s: Scope, t: Scope, id: Id)
    requires s.kind == User && t.kind == User && s.viewer == t.viewer && s.thread == t.thread && s.target != t.target
    requires Readable(db, t, id) && db.messages[id].author != t.viewer
    ensures Ambiguous(db, s)
  {
    assert ForeignMessage(db, s, id);
  }

  /** Whatever conversation ids collide, reading one scope leaves the badge of every other peer, community and viewer as it was. */
  lemma {:induction false} LegacyReadSparesOthers(db: Db, s: Scope, now: nat, t: Scope)
    requires Apart(s, t) && LegacyRead(db, s, now).Some?
    ensures Badge(LegacyRead(db, s, now).value, t) == Badge(db, t)
  {
    var amb := Ambiguous(db, s);
    var marked := MarkAll(Initialization(db, s, amb), s);
    var after := LegacyRead(db, s, now).value;
    ApartUntouched(db, s, t, amb);
    ApartUntouched(Initialization(db, s, amb), s, t, amb);
    SameContentReads(db, marked, s);
    SameContentReads(db, after, t);
    StatusSetsBaseline(marked, s, now);
    forall id | Readable(db, t, id) && db.messages[id].author != t.viewer
      ensures Baseline(after, t) == Baseline(db, t)
    {
      if s.kind == User && t.kind == User && s.viewer == t.viewer && s.thread == t.thread {
        SharedThreadIsAmbiguous(db, s, t, id);
      }
      StatusSparesBaseline(marked, s, now, t);
    }
    BadgeSame(db, after, t);
  }

  lemma {:induction false} StatusSparesBaseline(db: Db, s: Scope, now: nat, t: Scope)
    requires Apart(s, t)
    requires s.kind == User && t.kind == User && s.viewer == t.viewer && s.thread == t.thread ==> Ambiguous(db, s)
    ensures Baseline(StatusWrite(db, s, now), t) == Baseline(db, t)
  {
  }

  lemma {:induction false} BadgeSame(db: Db, after: Db, t: Scope)
    requires SameContent(db, after) && (forall id :: Readable(after, t, id) == Readable(db, t, id))
    requires Observed(after, t) == Observed(db, t)
    requires forall id :: Receipt(t, id) in after.receipts <==> Receipt(t, id) in db.receipts
    requires forall id | Readable(db, t, id) && db.messages[id].author != t.viewer :: Baseline(after, t) == Baseline(db, t)
    ensures Badge(after, t) == Badge(db, t)
  {
    forall id ensures id in Badge(after, t) <==> id in Badge(db, t) {
      if Readable(db, t, id) && db.messages[id].author != t.viewer {
        assert Unread(after, t, id) == Unread(db, t, id);
      }
    }
  }

  // ----- whole runs -----

  datatype Step =
    | Init(scope: Scope)
    | Ack(scope: Scope, ids: seq<Id>)
    | Legacy(scope: Scope, now: nat)
    | Deliver(id: Id, message: Message, recipients: set<Recipient>)
    | Tombstone(id: Id)
    | Remove(id: Id)
    | Join(community: Id, actor: Id, at: nat)
    | Leave(community: Id, actor: Id)
    | RemoveActor(actor: Id)
    | RemoveCommunity(community: Id)

  /** The cleanup triggers: mode rows and receipts of these keys go. */
  function Forget(db: Db, keys: ModeKey -> bool): Db {
    db.(receipts := (set r | r in db.receipts && !keys(Key(r.scope))),
        modes := map k | k in db.modes && !keys(k) :: db.modes[k])
  }

  /** The receipts of one message go. */
  function ForgetMessage(db: Db, id: Id): Db {
    db.(receipts := set r | r in db.receipts && r.message != id)
  }

  function Committed(db: Db, r: Option<Db>): Db {
    if r.Some? then r.value else db
  }

  function Next(db: Db, step: Step): Db {
    match step
    case Init(s) => Committed(db, Initialize(db, s))
    case Ack(s, ids) => Committed(db, Acknowledge(db, s, ids))
    case Legacy(s, now) => Committed(db, LegacyRead(db, s, now))
    case Deliver(id, m, rs) => if id in db.messages then db else db.(messages := db.messages[id := m], recipients := db.recipients + rs)
    case Tombstone(id) =>
      if id in db.messages then ForgetMessage(db.(messages := db.messages[id := db.messages[id].(deleted := true)]), id) else db
    case Remove(id) => ForgetMessage(db.(messages := db.messages - {id}), id)
    case Join(c, a, at) =>
      var joined := db.(members := db.members[(c, a) := at]);
      if (c, a) in db.members && db.members[(c, a)] != at then Forget(joined, k => k == ModeKey(a, Community, c)) else joined
    case Leave(c, a) => Forget(db.(members := db.members - {(c, a)}), k => k == ModeKey(a, Community, c))
    case RemoveActor(a) => Forget(db.(actors := db.actors - {a}), (k: ModeKey) => k.viewer == a)
    case RemoveCommunity(c) => Forget(db.(communities := db.communities - {c}), (k: ModeKey) => k.kind == Community && k.target == c)
  }

  function Run(db: Db, steps: seq<Step>): Db
    decreases |steps|
  {
    if steps == [] then db else Run(Next(db, steps[0]), steps[1..])
  }

  /**
   * The step reads the message for this scope, moves its mode row to another thread or
   * membership, or ends the viewer's account, membership or community.
   */
  predicate Reads(step: Step, t: Scope, id: Id) {
    match step
    case Init(s) => s != t && Key(s) == Key(t)
    case Ack(s, ids) => s == t && id in ids
    case Legacy(s, _) => Key(s) == Key(t)
    case Deliver(_, _, _) => false
    case Tombstone(_) => false
    case Remove(_) => false
    case Join(c, a, _) => Key(t) == ModeKey(a, Community, c)
    case Leave(c, a) => Key(t) == ModeKey(a, Community, c)
    case RemoveActor(a) => t.viewer == a
    case RemoveCommunity(c) => t.kind == Community && t.target == c
  }

  /** Receipts are only given for messages that exist. */
  ghost predicate ReceiptsNameMessages(db: Db) {
    forall r | r in db.receipts :: r.message in db.messages
  }

  ghost predicate Pending(db: Db, t: Scope, id: Id) {
    Observed(db, t) && Receipt(t, id) !in db.receipts
  }

  lemma {:induction false} StepKeepsPending(db: Db, step: Step, t: Scope, id: Id)
    requires Pending(db, t, id) && !Reads(step, t, id)
    ensures Pending(Next(db, step), t, id)
  {
    match step {
      case Init(s) =>
        if s != t {
          ApartUntouched(db, s, t, true);
        } else {
          assert db.modes[Key(t) := Mode(t.thread, t.epoch)] == db.modes;
        }
      case Ack(s, ids) =>
        if s != t {
          InsertsOwn(db, s, t, ToSet(ids));
        }
      case Legacy(s, now) =>
        var amb := Ambiguous(db, s);
        var first := Initialization(db, s, amb);
        ApartUntouched(db, s, t, amb);
        ApartUntouched(first, s, t, amb);
        StatusSetsBaseline(MarkAll(first, s), s, now);
      case _ =>
    }
  }

  /**
   * Under the receipt rule a message without a receipt, even one that arrives during
   * the run with an old date, is unread at the end of every run in which nobody read it
   * by name or read its scope whole, whatever else is initialized, acknowledged or read.
   */
  lemma {:induction false} UnreadUntilRead(db: Db, steps: seq<Step>, t: Scope, id: Id)
    requires Pending(db, t, id) && forall k | 0 <= k < |steps| :: !Reads(steps[k], t, id)
    ensures Pending(Run(db, steps), t, id)
    ensures id in Run(db, steps).messages ==> Unread(Run(db, steps), t, id)
    decreases |steps|
  {
    if steps != [] {
      StepKeepsPending(db, steps[0], t, id);
      assert forall k | 0 <= k < |steps| - 1 :: steps[1..][k] == steps[k + 1];
      UnreadUntilRead(Next(db, steps[0]), steps[1..], t, id);
    }
  }

  lemma {:induction false} ReceiptsStayToSet(db: Db, steps: seq<Step>)
    requires ReceiptsNameMessages(db)
    ensures ReceiptsNameMessages(Run(db, steps))
    decreases |steps|
  {
    if steps != [] {
      ReceiptsStayNamedStep(db, steps[0]);
      ReceiptsStayToSet(Next(db, steps[0]), steps[1..]);
    }
  }

  lemma {:induction false} InsertNamesMessages(db: Db, s: Scope, chosen: set<Id>)
    requires ReceiptsNameMessages(db)
    ensures ReceiptsNameMessages(InsertReads(db, s, chosen))
  {
  }

  lemma {:induction false} ReceiptsStayNamedStep(db: Db, step: Step)
    requires ReceiptsNameMessages(db)
    ensures ReceiptsNameMessages(Next(db, step))
  {
    match step {
      case Init(s) => InitializationNamesMessages(db, s, true);
      case Ack(s, ids) => InsertNamesMessages(db, s, ToSet(ids));
      case Legacy(s, now) =>
        var first := Initialization(db, s, Ambiguous(db, s));
        InitializationNamesMessages(db, s, Ambiguous(db, s));
        MarkAllNamesMessages(first, s);
        StatusSetsBaseline(MarkAll(first, s), s, now);
      case _ =>
    }
  }

  lemma {:induction false} InitializationNamesMessages(db: Db, s: Scope, whenever: bool)
    requires ReceiptsNameMessages(db)
    ensures ReceiptsNameMessages(Initialization(db, s, whenever))
  {
    InsertNamesMessages(db, s, Covered(db, s));
  }

  lemma {:induction false} MarkAllNamesMessages(db: Db, s: Scope)
    requires ReceiptsNameMessages(db)
    ensures ReceiptsNameMessages(MarkAll(db, s))
  {
    InsertNamesMessages(db, s, db.messages.Keys);
  }

  /** A message that arrives while the scope is observed starts unread, whatever its date. */
  lemma {:induction false} LateMessageIsUnread(db: Db, id: Id, m: Message, rs: set<Recipient>, steps: seq<Step>, t: Scope)
    requires ReceiptsNameMessages(db) && Observed(db, t) && id !in db.messages
    requires forall k | 0 <= k < |steps| :: !Reads(steps[k], t, id)
    ensures var final := Run(Next(db, Deliver(id, m, rs)), steps);
      && (id in final.messages ==> Unread(final, t, id))
      && (Remove(id) !in steps ==> id in final.messages)
  {
    var after := Next(db, Deliver(id, m, rs));
    UnreadUntilRead(after, steps, t, id);
    if Remove(id) !in steps {
      MessageStays(after, steps, id);
    }
  }

  lemma {:induction false} MessageStays(db: Db, steps: seq<Step>, id: Id)
    requires id in db.messages && Remove(id) !in steps
    ensures id in Run(db, steps).messages
    decreases |steps|
  {
    if steps != [] {
      MessageStaysStep(db, steps[0], id);
      MessageStays(Next(db, steps[0]), steps[1..], id);
    }
  }

  lemma {:induction false} MessageStaysStep(db: Db, step: Step, id: Id)
    requires id in db.messages && step != Remove(id)
    ensures id in Next(db, step).messages
  {
    if step.Legacy? {
      var s := step.scope;
      var first := Initialization(db, s, Ambiguous(db, s));
      InitializationMode(db, s, Ambiguous(db, s));
      MarkedReceipts(first, s);
      StatusSetsBaseline(MarkAll(first, s), s, step.now);
    }
  }

  // ----- returning to a thread -----

  /** One peer, one message dated 5, nothing read yet. */
  const PEER_SCOPE: Scope := Scope(Id("viewer"), User, Id("peer"), Id("first"), 0)
  const PEER_DB: Db := Db(
    map[Id("m") := Message(true, false, Id("peer"), true, Some(Id("first")), None, 5)],
    {Recipient(Id("m"), Id("viewer"), To)}, {}, {Id("viewer")}, {Id("peer")}, {}, map[], map[], map[], map[], {})

  /**
   * A concrete change of the unread set: the message is acknowledged, the mode row moves
   * to another thread, where the timestamp counts the message unread again, and moves
   * back, where the old receipt counts it read.
   */
  lemma {:induction false} ReturningReadsAgain()
    ensures var s, other := PEER_SCOPE, PEER_SCOPE.(thread := Id("second"));
      var db := Run(PEER_DB, [Init(s), Ack(s, [Id("m")]), Init(other)]);
      && Initialize(db, s).Some?
      && UnreadSet(db, s) == {Id("m")} && UnreadSet(Initialize(db, s).value, s) == {}
  {
    var s, other, m := PEER_SCOPE, PEER_SCOPE.(thread := Id("second")), Id("m");
    var a, b, c := Init(s), Ack(s, [m]), Init(other);
    RunThree(PEER_DB, a, b, c);
    var db1 := Next(PEER_DB, a);
    var db2 := Next(db1, b);
    var db3 := Next(db2, c);
    PeerInitialized();
    PeerAcknowledged(db1);
    PeerMovedOn(db2);
    PeerReturns(db3);
  }

  lemma {:induction false} RunThree(db: Db, a: Step, b: Step, c: Step)
    ensures Run(db, [a, b, c]) == Next(Next(Next(db, a), b), c)
  {
    var db1 := Next(db, a);
    var db2 := Next(db1, b);
    assert [a, b, c][1..] == [b, c] && [b, c][1..] == [c];
    assert Run(db2, [c]) == Run(Next(db2, c), [c][1..]);
    assert Run(db1, [b, c]) == Run(db2, [c]);
  }

  /** The content of the example, with no timestamp stored. */
  ghost predicate PeerContent(db: Db) {
    SameContent(PEER_DB, db) && db.directStatus == map[]
  }

  lemma {:induction false} PeerReadable(db: Db)
    requires PeerContent(db)
    ensures Authorized(db, PEER_SCOPE) && Authorized(db, PEER_SCOPE.(thread := Id("second")))
    ensures Readable(db, PEER_SCOPE, Id("m")) && Baseline(db, PEER_SCOPE) == 0
    ensures db.messages.Keys == {Id("m")} && db.messages[Id("m")].published == 5
  {
  }

  lemma {:induction false} PeerInitialized()
    ensures var db := Next(PEER_DB, Init(PEER_SCOPE)); PeerContent(db) && Observed(db, PEER_SCOPE)
  {
    PeerReadable(PEER_DB);
    InitializeSucceeds(PEER_DB, PEER_SCOPE);
  }

  lemma {:induction false} PeerAcknowledged(db: Db)
    requires PeerContent(db) && Observed(db, PEER_SCOPE)
    ensures var after := Next(db, Ack(PEER_SCOPE, [Id("m")])); PeerContent(after) && Receipt(PEER_SCOPE, Id("m")) in after.receipts
  {
    PeerReadable(db);
    AcknowledgeIsExact(db, PEER_SCOPE, [Id("m")]);
    assert Id("m") in ToSet([Id("m")]);
  }

  lemma {:induction false} PeerMovedOn(db: Db)
    requires PeerContent(db) && Receipt(PEER_SCOPE, Id("m")) in db.receipts
    ensures var after := Next(db, Init(PEER_SCOPE.(thread := Id("second"))));
      PeerContent(after) && Receipt(PEER_SCOPE, Id("m")) in after.receipts && !Observed(after, PEER_SCOPE)
  {
    PeerReadable(db);
    InitializeSucceeds(db, PEER_SCOPE.(thread := Id("second")));
  }

  lemma {:induction false} PeerReturns(db: Db)
    requires PeerContent(db) && Receipt(PEER_SCOPE, Id("m")) in db.receipts && !Observed(db, PEER_SCOPE)
    ensures Initialize(db, PEER_SCOPE).Some?
    ensures UnreadSet(db, PEER_SCOPE) == {Id("m")} && UnreadSet(Initialize(db, PEER_SCOPE).value, PEER_SCOPE) == {}
  {
    PeerReadable(db);
    InitializeSucceeds(db, PEER_SCOPE);
    var after := Initialize(db, PEER_SCOPE).value;
    assert Receipt(PEER_SCOPE, Id("m")) in after.receipts;
    assert forall id | id in db.messages :: id == Id("m");
  }

  // ----- the tables -----

  class TalkStore {
    var db: Db

    constructor (db: Db)
      ensures this.db == db
    {
      this.db := db;
    }

    method InitializeObservedReads(s: Scope) returns (ok: bool)
      modifies this
      ensures ok == Authorized(old(db), s)
      ensures db == Next(old(db), Init(s))
      ensures ok ==> Observed(db, s)
    {
      InitializeSucceeds(db, s);
      if !Authorized(db, s) {
        return false;
      }
      if !Observed(db, s) {
        db := InsertReads(db, s, Covered(db, s));
      }
      db := db.(modes := db.modes[Key(s) := Mode(s.thread, s.epoch)]);
      return true;
    }

    method AcknowledgeObservedReads(s: Scope, ids: seq<Id>) returns (ok: bool)
      modifies this
      ensures db == Next(old(db), Ack(s, ids))
      ensures ok ==> UnreadSet(db, s) == UnreadSet(old(db), s) - ToSet(ids)
      ensures !ok ==> db == old(db)
      ensures ok == (Authorized(old(db), s) && Observed(old(db), s) && Distinct(ids) && forall k | 0 <= k < |ids| :: Readable(old(db), s, ids[k]))
    {
      AcknowledgeIsExact(db, s, ids);
      CountSaysAll(db, s, ids);
      if !AckValid(db, s, ids) {
        return false;
      }
      db := InsertReads(db, s, ToSet(ids));
      return true;
    }

    method ApplyLegacyTalkRead(s: Scope, now: nat) returns (ok: bool)
      modifies this
      ensures ok == Authorized(old(db), s)
      ensures db == Next(old(db), Legacy(s, now))
    {
      if !Authorized(db, s) {
        return false;
      }
      LegacyReadClears(db, s, now);
      db := Initialization(db, s, Ambiguous(db, s));
      db := MarkAll(db, s);
      db := StatusWrite(db, s, now);
      return true;
    }
  }
}
