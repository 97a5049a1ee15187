/** What counts as unread, and what each talk read writes, row by row. */
module TalkLaws {
  import opened Wrappers
  import opened FiniteSets
  import opened TalkReads

  // ----- what is unread -----

  /**
   * The message belongs to the scope: a direct note of the thread between the two, or a
   * note addressed to the community, that is neither deleted nor by a blocked author.
   */
  ghost predicate Belongs(db: Db, s: Scope, id: Id) {
    && id in db.messages && db.messages[id].isNote && !db.messages[id].deleted && db.messages[id].author !in db.blocked
    && (s.kind == User ==>
          && db.messages[id].direct && db.messages[id].conversation == Some(s.thread)
          && (|| (db.messages[id].author == s.target && Recipient(id, s.viewer, To) in db.recipients)
              || (db.messages[id].author == s.viewer && Recipient(id, s.target, To) in db.recipients)))
    && (s.kind == Community ==> db.messages[id].community.None? && Recipient(id, s.target, Audience) in db.recipients)
  }

  /** The mode row points at this thread and membership. */
  ghost predicate Current(db: Db, s: Scope) {
    var k := ModeKey(s.viewer, s.kind, s.target);
    k in db.modes && db.modes[k].thread == s.thread && db.modes[k].epoch == s.epoch
  }

  /** The stored time of the last read; none is the beginning, or the time of joining a community. */
  function LastRead(db: Db, s: Scope): nat {
    if s.kind == User then
      if (s.viewer, s.thread) in db.directStatus then db.directStatus[(s.viewer, s.thread)] else 0
    else
      if (s.viewer, s.target) in db.communityStatus then db.communityStatus[(s.viewer, s.target)] else s.epoch
  }

  /** Unread is what belongs to the scope and has no receipt, or before receipts is dated after the last read. */
  lemma {:induction false} UnreadExactly(db: Db, s: Scope, id: Id)
    ensures id in UnreadSet(db, s) <==>
      Belongs(db, s, id) && if Current(db, s) then Receipt(s, id) !in db.receipts else db.messages[id].published > LastRead(db, s)
    ensures id in Badge(db, s) <==> id in UnreadSet(db, s) && id in db.messages && db.messages[id].author != s.viewer
  {
    BelongsIff(db, s, id);
    CurrentIff(db, s);
  }

  lemma {:induction false} BelongsIff(db: Db, s: Scope, id: Id)
    ensures Readable(db, s, id) <==> Belongs(db, s, id)
  {
  }

  lemma {:induction false} CurrentIff(db: Db, s: Scope)
    ensures Observed(db, s) <==> Current(db, s)
    ensures Baseline(db, s) == LastRead(db, s)
  {
  }

  /**
   * Who may read: a viewer that exists, of a peer that is not blocked and is known or has
   * left a message of the thread, or of a community that exists, in the same membership.
   */
  lemma {:induction false} AuthorizedExactly(db: Db, s: Scope)
    ensures Authorized(db, s) <==>
      && s.viewer in db.actors
      && (s.kind == User ==>
            s.target !in db.blocked && (s.target in db.actors || s.target in db.cached || exists id :: Belongs(db, s, id)))
      && (s.kind == Community ==>
            s.target in db.communities && (s.target, s.viewer) in db.members && db.members[(s.target, s.viewer)] == s.epoch)
  {
    assert forall id :: Readable(db, s, id) <==> Belongs(db, s, id) by {
      forall id ensures Readable(db, s, id) <==> Belongs(db, s, id) {
        BelongsIff(db, s, id);
      }
    }
  }

  /** A direct note of the thread from the viewer to some third actor, or from one to the viewer. */
  ghost predicate Strange(db: Db, s: Scope, id: Id) {
    && id in db.messages && db.messages[id].direct && db.messages[id].isNote && db.messages[id].conversation == Some(s.thread)
    && (|| (db.messages[id].author != s.viewer && db.messages[id].author != s.target && Recipient(id, s.viewer, To) in db.recipients)
        || (db.messages[id].author == s.viewer && exists other :: other != s.viewer && other != s.target && Recipient(id, other, To) in db.recipients))
  }

  lemma {:induction false} AmbiguousExactly(db: Db, s: Scope)
    ensures Ambiguous(db, s) <==> s.kind == User && exists id :: Strange(db, s, id)
  {
    forall id | id in db.messages ensures ForeignMessage(db, s, id) <==> Strange(db, s, id) {
      if ForeignMessage(db, s, id) && db.messages[id].author == s.viewer {
        var r :| r in db.recipients && r.message == id && r.field == To && r.actor != s.viewer && r.actor != s.target;
        assert Recipient(id, r.actor, To) in db.recipients;
      }
    }
  }

  // ----- what the endpoints write -----

  /** Receipts are added for exactly these messages, as far as they belong to the scope. */
  ghost predicate Receipted(db: Db, after: Db, s: Scope, chosen: Id -> bool) {
    forall r :: r in after.receipts <==>
      r in db.receipts || (r.scope == s && Belongs(db, s, r.message) && chosen(r.message))
  }

  function Pointed(db: Db, s: Scope): map<ModeKey, Mode> {
    db.modes[ModeKey(s.viewer, s.kind, s.target) := Mode(s.thread, s.epoch)]
  }

  lemma {:induction false} InsertsExactly(db: Db, s: Scope, chosen: set<Id>)
    ensures Receipted(db, InsertReads(db, s, chosen), s, id => id in chosen)
    ensures InsertReads(db, s, chosen) == db.(receipts := InsertReads(db, s, chosen).receipts)
  {
    forall id ensures Readable(db, s, id) <==> Belongs(db, s, id) {
      BelongsIff(db, s, id);
    }
  }

  /** Initializing writes receipts up to the last read, unless they are in use already, and points the mode row here. */
  lemma {:induction false} InitializeWrites(db: Db, s: Scope)
    requires Initialize(db, s).Some?
    ensures var after := Initialize(db, s).value;
      && after == db.(modes := Pointed(db, s), receipts := after.receipts)
      && Receipted(db, after, s, id => !Current(db, s) && id in db.messages && db.messages[id].published <= LastRead(db, s))
  {
    CurrentIff(db, s);
    InsertsExactly(db, s, Covered(db, s));
  }

  /** Acknowledging adds the receipts of the given messages, and nothing else. */
  lemma {:induction false} AcknowledgeWrites(db: Db, s: Scope, ids: seq<Id>)
    requires Acknowledge(db, s, ids).Some?
    ensures var after := Acknowledge(db, s, ids).value;
      && after == db.(receipts := after.receipts)
      && Receipted(db, after, s, id => id in ids)
  {
    InsertsExactly(db, s, ToSet(ids));
  }

  /**
   * The timestamp endpoint: under receipts it gives one to every message of the scope. It
   * turns receipts on only in a thread shared with a third actor, and writes the time
   * exactly when the thread is not shared.
   */
  lemma {:induction false} LegacyWrites(db: Db, s: Scope, now: nat)
    requires LegacyRead(db, s, now).Some?
    ensures var after := LegacyRead(db, s, now).value;
      && after.modes == (if Ambiguous(db, s) then Pointed(db, s) else db.modes)
      && Receipted(db, after, s, _ => Current(db, s) || Ambiguous(db, s))
      && after.directStatus == (if s.kind == User && !Ambiguous(db, s) then db.directStatus[(s.viewer, s.thread) := now] else db.directStatus)
      && after.communityStatus == (if s.kind == Community then db.communityStatus[(s.viewer, s.target) := now] else db.communityStatus)
      && SameContent(db, after)
  {
    var amb := Ambiguous(db, s);
    var first := Initialization(db, s, amb);
    var marked := MarkAll(first, s);
    InitializationWrites(db, s, amb);
    SameContentReads(db, first, s);
    CurrentIff(db, s);
    MarkAllWrites(first, s);
    SameContentReads(db, marked, s);
    SameBelongs(db, first, s);
    StatusSetsBaseline(marked, s, now);
  }

  lemma {:induction false} SameBelongs(db: Db, after: Db, s: Scope)
    requires SameContent(db, after)
    ensures forall id :: Belongs(after, s, id) <==> Belongs(db, s, id)
  {
  }

  lemma {:induction false} InitializationWrites(db: Db, s: Scope, whenever: bool)
    ensures var after := Initialization(db, s, whenever);
      && after == db.(modes := if whenever then Pointed(db, s) else db.modes, receipts := after.receipts)
      && Receipted(db, after, s, id => whenever && !Current(db, s) && id in db.messages && db.messages[id].published <= LastRead(db, s))
      && (Observed(after, s) <==> whenever || Observed(db, s))
  {
    CurrentIff(db, s);
    InsertsExactly(db, s, Covered(db, s));
  }

  lemma {:induction false} MarkAllWrites(db: Db, s: Scope)
    requires Authorized(db, s)
    ensures var after := MarkAll(db, s);
      && after == db.(receipts := after.receipts)
      && Receipted(db, after, s, _ => Observed(db, s))
  {
    InsertsExactly(db, s, db.messages.Keys);
  }

  // ----- what the triggers take away -----

  /** A message that is deleted loses its receipts; whoever leaves or goes loses the mode rows and receipts kept for them; nobody else does. */
  lemma {:induction false} CleanupExactly(db: Db, step: Step)
    requires step.Tombstone? || step.Remove? || step.Join? || step.Leave? || step.RemoveActor? || step.RemoveCommunity?
    ensures forall r :: r in Next(db, step).receipts <==>
      r in db.receipts && match step
        case Tombstone(id) => r.message == id ==> id !in db.messages
        case Remove(id) => r.message != id
        case _ => !Ends(db, step, r.scope.viewer, r.scope.kind, r.scope.target)
    ensures forall k :: k in Next(db, step).modes <==>
      k in db.modes && (step.Tombstone? || step.Remove? || !Ends(db, step, k.viewer, k.kind, k.target))
    ensures forall k <- Next(db, step).modes :: Next(db, step).modes[k] == db.modes[k]
  {
  }

  /** The step ends what this viewer read there: a membership ends or begins at another time, the viewer or the community goes. */
  predicate Ends(db: Db, step: Step, viewer: Id, kind: Kind, target: Id) {
    match step
    case Join(c, a, at) => kind == Community && target == c && viewer == a && (c, a) in db.members && db.members[(c, a)] != at
    case Leave(c, a) => kind == Community && target == c && viewer == a
    case RemoveActor(a) => viewer == a
    case RemoveCommunity(c) => kind == Community && target == c
    case _ => false
  }
}
