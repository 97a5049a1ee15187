/**
 * Ordered inbound Note updates: admission, the two-read window load and the
 * guarded commit, interleaved by any number of workers.
 *
 * Each database batch is one atomic step. The two reads of a window load and the
 * read of the source note are separate steps, so a worker may hold a window that
 * no single state ever contained; the commit guard has to reject it.
 */
module NoteUpdateOrder {
  import opened Wrappers
  import opened NoteUpdateLog

  datatype Head = Head(applied: nat, creation: Option<Id>)

  /** The projected note of one object; `author` is the canonical actor key. */
  datatype Note<N> = Note(author: Id, body: N)

  /** The tables. `high` is the AUTOINCREMENT high-water mark of the event table. */
  datatype Tables<N, P> = Tables(
    events: seq<Event<P>>,
    heads: map<Key, Head>,
    notes: map<Id, Note<N>>,
    deleted: set<Key>,
    high: nat)

  datatype Window<P> = Window(key: Key, applied: nat, latest: nat, creation: Option<Id>, events: seq<Event<P>>)

  // ---- single SQL expressions and statements ----

  /** COALESCE((SELECT applied_sequence ...), 0) */
  function Applied(heads: map<Key, Head>, k: Key): nat {
    if k in heads then heads[k].applied else 0
  }

  function Creation(heads: map<Key, Head>, k: Key): Option<Id> {
    if k in heads then heads[k].creation else None
  }

  predicate Duplicate<P(==)>(events: seq<Event<P>>, activity: Id) {
    exists e <- events :: e.activity == activity
  }

  /** The admission predicate: identity, capacity and no terminal deletion. */
  predicate AdmissionHolds<N, P(==)>(t: Tables<N, P>, k: Key, activity: Id) {
    && (forall e <- t.events :: e.activity == activity ==> e.key == k)
    && (Duplicate(t.events, activity) || |Pending(t.events, k, Applied(t.heads, k))| < MAX_PENDING)
    && k !in t.deleted
  }

  /** INSERT INTO heads ... ON CONFLICT DO NOTHING */
  function EnsureHead(heads: map<Key, Head>, k: Key): map<Key, Head> {
    if k in heads then heads else heads[k := Head(0, None)]
  }

  /** The whole admission batch; `gap` is how far AUTOINCREMENT skips. */
  function AdmitTables<N, P(==)>(t: Tables<N, P>, k: Key, activity: Id, patch: P, gap: nat): Tables<N, P> {
    if !AdmissionHolds(t, k, activity) then t
    else if Duplicate(t.events, activity) then t.(heads := EnsureHead(t.heads, k))
    else t.(heads := EnsureHead(t.heads, k),
            events := t.events + [Event(t.high + 1 + gap, activity, k, Some(patch))],
            high := t.high + 1 + gap)
  }

  /** The window built from an already read head and the event table as of the second read. */
  function LoadWindow<P>(k: Key, applied: nat, creation: Option<Id>, events: seq<Event<P>>): Option<Window<P>> {
    var p := Pending(events, k, applied);
    if |p| > MAX_PENDING then None
    else Some(Window(k, applied, if p == [] then applied else p[|p| - 1].sequence, creation, p))
  }

  /** The queue half of the commit guard. */
  predicate WindowCurrent<N, P>(t: Tables<N, P>, w: Window<P>) {
    && Applied(t.heads, w.key) == w.applied
    && MaxSequence(t.events, w.key) == w.latest
    && Creation(t.heads, w.key) == w.creation
    && w.key !in t.deleted
  }

  /** UPDATE heads SET applied_sequence = hi WHERE key AND applied_sequence = lo */
  function AdvanceHead(heads: map<Key, Head>, k: Key, lo: nat, hi: nat): map<Key, Head> {
    if k in heads && heads[k].applied == lo then heads[k := heads[k].(applied := hi)] else heads
  }

  /** UPDATE events SET patch_json = NULL WHERE key AND lo < sequence <= hi */
  function ReleasePayloads<P>(events: seq<Event<P>>, k: Key, lo: nat, hi: nat): seq<Event<P>> {
    seq(|events|, i requires 0 <= i < |events| =>
      if events[i].key == k && lo < events[i].sequence <= hi then events[i].(patch := None) else events[i])
  }

  /** UPDATE heads SET creation_activity_ap_id = c WHERE key AND creation_activity_ap_id IS expected */
  function SetCreation(heads: map<Key, Head>, k: Key, expected: Option<Id>, c: Option<Id>): map<Key, Head> {
    if k in heads && heads[k].creation == expected then heads[k := heads[k].(creation := c)] else heads
  }

  /** The object write and the commit statements, in batch order. */
  function CommitTables<N, P>(t: Tables<N, P>, w: Window<P>, note: Note<N>, creator: Option<Option<Id>>): Tables<N, P> {
    var heads := AdvanceHead(EnsureHead(t.heads, w.key), w.key, w.applied, w.latest);
    t.(notes := t.notes[w.key.note := note],
       events := ReleasePayloads(t.events, w.key, w.applied, w.latest),
       heads := if creator.Some? then SetCreation(heads, w.key, w.creation, creator.value) else heads)
  }

  function NoteAt<N, P>(t: Tables<N, P>, noteId: Id): Option<Note<N>> {
    if noteId in t.notes then Some(t.notes[noteId]) else None
  }

  /** The caller's fold over the loaded window; a rejected patch is an `apply` that returns its input. */
  function FoldWindow<N, P, V>(apply: (V, N, P) -> N, verdict: nat -> V, body: N, events: seq<Event<P>>): N
    requires forall e <- events :: e.patch.Some?
  {
    if events == [] then body
    else
      var last := events[|events| - 1];
      apply(verdict(last.sequence), FoldWindow(apply, verdict, body, events[..|events| - 1]), last.patch.value)
  }

  /** Why a commit attempt did not write. */
  datatype CommitOutcome<N, P> = LostPayload | WrongIdentity | Conflict | Committed(t: Tables<N, P>)

  /**
   * One guarded commit: fold the window over the note read earlier, as `rebase` leaves
   * it (a Create handler resets or extends its recipients first, an Update does not
   * touch it), or over `base` when the note is being created; then run the guarded batch.
   */
  function TryCommit<N(==), P(==), V>(apply: (V, N, P) -> N, t: Tables<N, P>, w: Window<P>, before: Option<Note<N>>,
                              base: N, rebase: N -> N, creation: Option<Id>, verdict: nat -> V): CommitOutcome<N, P>
  {
    if exists e <- w.events :: e.patch.None? then LostPayload
    else if before.Some? && before.value.author != w.key.actor then WrongIdentity
    else if NoteAt(t, w.key.note) != before || !WindowCurrent(t, w) then Conflict
    else
      var start := if before.Some? then rebase(before.value.body) else base;
      var note := Note(w.key.actor, FoldWindow(apply, verdict, start, w.events));
      Committed(CommitTables(t, w, note, if before.Some? then None else Some(creation)))
  }

  // ---- the interleaved system ----

  /** What one worker has read so far. */
  datatype Local<N, P> =
    | Idle
    | HeadRead(key: Key, applied: nat, creation: Option<Id>)
    | Loaded(window: Window<P>)
    | Ready(window: Window<P>, before: Option<Note<N>>)

  /** Tables, worker memories, and the history variables `log` and `births`. */
  datatype World<!N, P, V> = World(
    t: Tables<N, P>,
    workers: map<nat, Local<N, P>>,
    log: seq<Entry<P, V>>,
    births: map<Key, Birth<N>>)

  datatype Step<!N, P, V> =
    | Admit(key: Key, activity: Id, patch: P, gap: nat)
    | ReadHead(worker: nat, key: Key)
    | ReadEvents(worker: nat)
    | ReadNote(worker: nat)
    | Commit(worker: nat, base: N, rebase: N -> N, creation: Option<Id>, verdict: nat -> V)
    | RecordDeletion(key: Key)
    | RemoveNote(noteId: Id)

  function LocalOf<N, P, V>(s: World<N, P, V>, i: nat): Local<N, P> {
    if i in s.workers then s.workers[i] else Idle
  }

  function Remember<N, P, V>(s: World<N, P, V>, i: nat, l: Local<N, P>): World<N, P, V> {
    s.(workers := s.workers[i := l])
  }

  function DoAdmit<N, P(==), V>(s: World<N, P, V>, k: Key, activity: Id, patch: P, gap: nat): World<N, P, V> {
    var isNew := AdmissionHolds(s.t, k, activity) && !Duplicate(s.t.events, activity);
    s.(t := AdmitTables(s.t, k, activity, patch, gap),
       log := if isNew then s.log + [Entry(s.t.high + 1 + gap, activity, k, patch, None)] else s.log)
  }

  /** A created note begins anew; an existing one, if its history is known, gets one more rewrite. */
  function BirthAfter<N, P>(births: map<Key, Birth<N>>, w: Window<P>, existed: bool, base: N, rebase: N -> N, creation: Option<Id>): Birth<N> {
    if existed && w.key in births then births[w.key].(rewrites := births[w.key].rewrites + [Rewrite(w.applied, rebase)])
    else Birth(base, w.applied, if existed then w.creation else creation, [])
  }

  function DoCommit<N(==), P(==), V>(apply: (V, N, P) -> N, s: World<N, P, V>, i: nat, base: N, rebase: N -> N, creation: Option<Id>, verdict: nat -> V): World<N, P, V> {
    var l := LocalOf(s, i);
    if !l.Ready? then s
    else
      var w := l.window;
      match TryCommit(apply, s.t, w, l.before, base, rebase, creation, verdict)
      case Committed(t) =>
        World(t, s.workers[i := Idle],
              Stamp(s.log, w.key, w.applied, w.latest, verdict),
              s.births[w.key := BirthAfter(s.births, w, l.before.Some?, base, rebase, creation)])
      case _ => Remember(s, i, Idle)
  }

  function Next<N(==), P(==), V>(apply: (V, N, P) -> N, s: World<N, P, V>, step: Step<N, P, V>): World<N, P, V> {
    match step
    case Admit(k, activity, patch, gap) => DoAdmit(s, k, activity, patch, gap)
    case ReadHead(i, k) => Remember(s, i, HeadRead(k, Applied(s.t.heads, k), Creation(s.t.heads, k)))
    case ReadEvents(i) => (
      match LocalOf(s, i)
      case HeadRead(k, applied, creation) =>
        var w := LoadWindow(k, applied, creation, s.t.events);
        Remember(s, i, if w.Some? then Loaded(w.value) else Idle)
      case _ => s)
    case ReadNote(i) => (
      match LocalOf(s, i)
      case Loaded(w) => Remember(s, i, Ready(w, NoteAt(s.t, w.key.note)))
      case _ => s)
    case Commit(i, base, rebase, creation, verdict) => DoCommit(apply, s, i, base, rebase, creation, verdict)
    case RecordDeletion(k) => s.(t := s.t.(deleted := s.t.deleted + {k}))
    case RemoveNote(o) => s.(t := s.t.(notes := s.t.notes - {o}))
  }

  function Run<N(==), P(==), V>(apply: (V, N, P) -> N, s: World<N, P, V>, steps: seq<Step<N, P, V>>): World<N, P, V> {
    if steps == [] then s
    else Next(apply, Run(apply, s, steps[..|steps| - 1]), steps[|steps| - 1])
  }

  function Empty<N, P, V>(): World<N, P, V> {
    World(Tables([], map[], map[], {}, 0), map[], [], map[])
  }

  // ---- the invariant ----

  /** The log is an ordered, duplicate-free record and the event table is its view. */
  ghost predicate LogOk<N, P, V>(s: World<N, P, V>) {
    && Sorted(s.log) && UniqueActivities(s.log)
    && (forall e <- s.log :: e.sequence <= s.t.high)
    && s.t.events == View(s.log)
  }

  /** An entry carries a verdict exactly when its sequence is at or below the watermark. */
  ghost predicate WatermarkOk<N, P, V>(s: World<N, P, V>) {
    && (forall e <- s.log :: e.verdict.Some? <==> e.sequence <= Applied(s.t.heads, e.key))
    && (forall k: Key :: AppliedIsEvent(s.log, s.t.heads, k))
  }

  /** A watermark is 0 or the sequence of an admitted event of its key. */
  ghost predicate AppliedIsEvent<P, V>(log: seq<Entry<P, V>>, heads: map<Key, Head>, k: Key) {
    Applied(heads, k) == 0 || exists e <- log :: e.key == k && e.sequence == Applied(heads, k)
  }

  ghost predicate CapacityOk<N, P, V>(s: World<N, P, V>) {
    forall k: Key :: QueueBounded(s.t.events, s.t.heads, k)
  }

  ghost predicate QueueBounded<P>(events: seq<Event<P>>, heads: map<Key, Head>, k: Key) {
    |Pending(events, k, Applied(heads, k))| <= MAX_PENDING
  }

  /** The stored note of one object is the projection of its applied patches since its birth. */
  ghost predicate NoteOk<N, P, V>(apply: (V, N, P) -> N, s: World<N, P, V>, noteId: Id)
    requires noteId in s.t.notes
    requires WatermarkOk(s)
  {
    var k := Key(s.t.notes[noteId].author, noteId);
    && k in s.births
    && Lineage(s.births[k], Applied(s.t.heads, k)) && AllFolded(s.log, k, s.births[k].start, Applied(s.t.heads, k))
    && s.t.notes[noteId].body == Projected(apply, s.log, k, s.births[k], Applied(s.t.heads, k))
  }

  ghost predicate NotesOk<N, P, V>(apply: (V, N, P) -> N, s: World<N, P, V>)
    requires WatermarkOk(s)
  {
    forall o <- s.t.notes :: NoteOk(apply, s, o)
  }

  /** Each loaded row is a history entry, with its payload unless that was folded since. */
  ghost predicate Matches<P, V>(events: seq<Event<P>>, r: seq<Entry<P, V>>) {
    && |events| == |r|
    && forall i | 0 <= i < |r| ::
         && events[i].(patch := None) == Event(r[i].sequence, r[i].activity, r[i].key, None)
         && (if events[i].patch.Some? then events[i].patch.value == r[i].patch else r[i].verdict.Some?)
  }

  /** A loaded window is exactly the log between its two bounds, however old it is. */
  ghost predicate WindowOk<N, P, V>(s: World<N, P, V>, w: Window<P>) {
    && w.applied <= Applied(s.t.heads, w.key)
    && w.applied <= w.latest <= s.t.high
    && Matches(w.events, Range(s.log, w.key, w.applied, w.latest))
  }

  ghost predicate LocalOk<N, P, V>(s: World<N, P, V>, l: Local<N, P>) {
    match l
    case Idle => true
    case HeadRead(k, applied, _) => applied <= Applied(s.t.heads, k) && applied <= s.t.high
    case Loaded(w) => WindowOk(s, w)
    case Ready(w, _) => WindowOk(s, w)
  }

  ghost predicate WorkersOk<N, P, V>(s: World<N, P, V>) {
    forall i <- s.workers :: LocalOk(s, s.workers[i])
  }

  ghost predicate Inv<N, P, V>(apply: (V, N, P) -> N, s: World<N, P, V>) {
    && LogOk(s) && WatermarkOk(s) && CapacityOk(s) && NotesOk(apply, s) && WorkersOk(s)
  }

  // ---- admission ----

  lemma {:induction false} DuplicateView<P, V>(log: seq<Entry<P, V>>, activity: Id)
    ensures Duplicate(View(log), activity) <==> exists e <- log :: e.activity == activity
  {
    if e :| e in log && e.activity == activity {
      var i :| 0 <= i < |log| && log[i] == e;
      assert View(log)[i].activity == activity;
      assert View(log)[i] in View(log);
    }
  }

  lemma {:induction false} RangeAppend<P, V>(log: seq<Entry<P, V>>, e: Entry<P, V>, k: Key, lo: nat, hi: nat)
    requires e.key != k || e.sequence > hi
    ensures Range(log + [e], k, lo, hi) == Range(log, k, lo, hi)
  {
    assert (log + [e])[..|log|] == log;
  }

  lemma {:induction false} AdmitKeepsCapacity<N, P, V>(s: World<N, P, V>, k: Key, activity: Id, patch: P, gap: nat)
    requires CapacityOk(s)
    ensures CapacityOk(DoAdmit(s, k, activity, patch, gap))
  {
    var s' := DoAdmit(s, k, activity, patch, gap);
    forall k2: Key ensures QueueBounded(s'.t.events, s'.t.heads, k2) {
      assert QueueBounded(s.t.events, s.t.heads, k2);
      assert Applied(s'.t.heads, k2) == Applied(s.t.heads, k2);
      if s'.t.events != s.t.events {
        assert s'.t.events[..|s.t.events|] == s.t.events;
      }
    }
  }

  lemma {:induction false} AppendKeepsLog<P, V>(log: seq<Entry<P, V>>, high: nat, e: Entry<P, V>)
    requires Sorted(log) && UniqueActivities(log) && forall f <- log :: f.sequence <= high
    requires e.sequence > high && forall f <- log :: f.activity != e.activity
    ensures Sorted(log + [e]) && UniqueActivities(log + [e])
    ensures View(log + [e]) == View(log) + [ViewEntry(e)]
  {
    forall i | 0 <= i < |log| ensures log[i].sequence < e.sequence && log[i].activity != e.activity {
      assert log[i] in log;
    }
  }

  lemma {:induction false} AdmitKeepsLog<N, P, V>(s: World<N, P, V>, k: Key, activity: Id, patch: P, gap: nat)
    requires LogOk(s)
    ensures LogOk(DoAdmit(s, k, activity, patch, gap))
  {
    if AdmissionHolds(s.t, k, activity) && !Duplicate(s.t.events, activity) {
      var e := Entry(s.t.high + 1 + gap, activity, k, patch, None);
      DuplicateView(s.log, activity);
      AppendKeepsLog(s.log, s.t.high, e);
      assert DoAdmit(s, k, activity, patch, gap).log == s.log + [e];
    } else {
      assert DoAdmit(s, k, activity, patch, gap).log == s.log;
    }
  }

  lemma {:induction false} AdmitKeepsWatermark<N, P, V>(s: World<N, P, V>, k: Key, activity: Id, patch: P, gap: nat)
    requires LogOk(s) && WatermarkOk(s)
    ensures WatermarkOk(DoAdmit(s, k, activity, patch, gap))
    ensures forall k2: Key :: Applied(DoAdmit(s, k, activity, patch, gap).t.heads, k2) == Applied(s.t.heads, k2)
  {
    var s' := DoAdmit(s, k, activity, patch, gap);
    assert forall k2: Key :: Applied(s'.t.heads, k2) == Applied(s.t.heads, k2);
    AppliedBelowHigh(s, k);
    forall k2: Key ensures AppliedIsEvent(s'.log, s'.t.heads, k2) {
      assert AppliedIsEvent(s.log, s.t.heads, k2);
      if Applied(s.t.heads, k2) != 0 {
        var e :| e in s.log && e.key == k2 && e.sequence == Applied(s.t.heads, k2);
        assert e in s'.log;
      }
    }
  }

  /** Admission never changes a range at or below the current high-water mark. */
  lemma {:induction false} AdmitRangeFrame<N, P, V>(s: World<N, P, V>, k: Key, activity: Id, patch: P, gap: nat, lk: Key, lo: nat, hi: nat)
    requires hi <= s.t.high
    ensures Range(DoAdmit(s, k, activity, patch, gap).log, lk, lo, hi) == Range(s.log, lk, lo, hi)
  {
    var log' := DoAdmit(s, k, activity, patch, gap).log;
    if log' != s.log {
      RangeAppend(s.log, log'[|s.log|], lk, lo, hi);
    }
  }

  lemma {:induction false} AdmitKeepsNote<N, P, V>(apply: (V, N, P) -> N, s: World<N, P, V>, k: Key, activity: Id, patch: P, gap: nat, o: Id)
    requires LogOk(s) && WatermarkOk(s) && o in s.t.notes && NoteOk(apply, s, o)
    requires WatermarkOk(DoAdmit(s, k, activity, patch, gap))
    ensures o in DoAdmit(s, k, activity, patch, gap).t.notes && NoteOk(apply, DoAdmit(s, k, activity, patch, gap), o)
  {
    var s' := DoAdmit(s, k, activity, patch, gap);
    var nk := Key(s.t.notes[o].author, o);
    var hi := Applied(s.t.heads, nk);
    assert Applied(s'.t.heads, nk) == hi && s'.t.notes == s.t.notes && s'.births == s.births;
    assert hi <= s.t.high by { AppliedBelowHigh(s, nk); }
    assert AllFolded(s'.log, nk, s.births[nk].start, hi) by { WatermarkFolds(s', nk, s.births[nk].start); }
    AdmitKeepsProjection(apply, s, k, activity, patch, gap, nk, hi);
  }

  lemma {:induction false} AdmitKeepsProjection<N, P, V>(apply: (V, N, P) -> N, s: World<N, P, V>, k: Key, activity: Id, patch: P, gap: nat, nk: Key, hi: nat)
    requires hi <= s.t.high && nk in s.births && Lineage(s.births[nk], hi)
    requires AllFolded(s.log, nk, s.births[nk].start, hi) && AllFolded(DoAdmit(s, k, activity, patch, gap).log, nk, s.births[nk].start, hi)
    ensures Projected(apply, DoAdmit(s, k, activity, patch, gap).log, nk, s.births[nk], hi) == Projected(apply, s.log, nk, s.births[nk], hi)
  {
    var log' := DoAdmit(s, k, activity, patch, gap).log;
    forall lo, mid | s.births[nk].start <= lo <= mid <= hi ensures Range(log', nk, lo, mid) == Range(s.log, nk, lo, mid) {
      AdmitRangeFrame(s, k, activity, patch, gap, nk, lo, mid);
    }
    ProjectedFrame(apply, s.log, log', nk, s.births[nk], hi);
  }

  lemma {:induction false} AdmitKeepsInv<N, P, V>(apply: (V, N, P) -> N, s: World<N, P, V>, k: Key, activity: Id, patch: P, gap: nat)
    requires Inv(apply, s)
    ensures Inv(apply, DoAdmit(s, k, activity, patch, gap))
  {
    var s' := DoAdmit(s, k, activity, patch, gap);
    AdmitKeepsLog(s, k, activity, patch, gap);
    AdmitKeepsWatermark(s, k, activity, patch, gap);
    AdmitKeepsCapacity(s, k, activity, patch, gap);
    forall o | o in s'.t.notes ensures NoteOk(apply, s', o) {
      AdmitKeepsNote(apply, s, k, activity, patch, gap, o);
    }
    forall i | i in s'.workers ensures LocalOk(s', s'.workers[i]) {
      var l := s.workers[i];
      assert LocalOk(s, l);
      if l.Loaded? || l.Ready? {
        AdmitRangeFrame(s, k, activity, patch, gap, l.window.key, l.window.applied, l.window.latest);
      }
    }
  }

  lemma {:induction false} AppliedBelowHigh<N, P, V>(s: World<N, P, V>, k: Key)
    requires LogOk(s) && WatermarkOk(s)
    ensures Applied(s.t.heads, k) <= s.t.high
  {
    assert AppliedIsEvent(s.log, s.t.heads, k);
  }

  // ---- loading ----

  /** The shape of a load in terms of the history. */
  lemma {:induction false} LoadShape<P, V>(log: seq<Entry<P, V>>, high: nat, k: Key, applied: nat, creation: Option<Id>)
    requires forall e <- log :: e.sequence <= high
    ensures var r := Range(log, k, applied, high);
      && Pending(View(log), k, applied) == View(r)
      && LoadWindow(k, applied, creation, View(log)) ==
         (if |r| > MAX_PENDING then None
          else Some(Window(k, applied, if r == [] then applied else r[|r| - 1].sequence, creation, View(r))))
  {
    PendingIsRange(log, k, applied, high);
  }

  /** A window loaded now, over any earlier head, is a faithful window. */
  lemma {:induction false} LoadIsOk<N, P, V>(s: World<N, P, V>, k: Key, applied: nat, creation: Option<Id>)
    requires LogOk(s)
    requires applied <= Applied(s.t.heads, k) && applied <= s.t.high
    ensures var w := LoadWindow(k, applied, creation, s.t.events); w.Some? ==> WindowOk(s, w.value)
  {
    LoadedRange(s.log, s.t.high, k, applied, creation);
    var w := LoadWindow(k, applied, creation, s.t.events);
    if w.Some? {
      RangeWindowOk(s, w.value);
    }
  }

  lemma {:induction false} LoadedRange<P, V>(log: seq<Entry<P, V>>, high: nat, k: Key, applied: nat, creation: Option<Id>)
    requires Sorted(log) && applied <= high && forall e <- log :: e.sequence <= high
    ensures var w := LoadWindow(k, applied, creation, View(log));
      w.Some? ==>
        && w.value.key == k && w.value.applied == applied <= w.value.latest <= high
        && w.value.events == View(Range(log, k, applied, w.value.latest))
  {
    LoadShape(log, high, k, applied, creation);
    RangeToLast(log, k, applied, high);
  }

  lemma {:induction false} RangeWindowOk<N, P, V>(s: World<N, P, V>, w: Window<P>)
    requires w.applied <= Applied(s.t.heads, w.key) && w.applied <= w.latest <= s.t.high
    requires w.events == View(Range(s.log, w.key, w.applied, w.latest))
    ensures WindowOk(s, w)
  {
    ViewMatches(Range(s.log, w.key, w.applied, w.latest));
  }

  /** A range cut at its last entry is the same range. */
  lemma {:induction false} RangeToLast<P, V>(log: seq<Entry<P, V>>, k: Key, lo: nat, hi: nat)
    requires Sorted(log) && lo <= hi
    ensures var r := Range(log, k, lo, hi);
      var latest := if r == [] then lo else r[|r| - 1].sequence;
      lo <= latest <= hi && Range(log, k, lo, latest) == r
  {
    if Range(log, k, lo, hi) == [] {
      RangeEmpty(log, k, lo, lo);
    } else {
      RangeLast(log, k, lo, hi);
    }
  }

  lemma {:induction false} ViewMatches<P, V>(r: seq<Entry<P, V>>)
    ensures Matches(View(r), r)
  {
  }

  // ---- commit ----

  /** A stamp changes nothing of a range but verdicts, and never takes one back. */
  lemma {:induction false} RangeStampPointwise<P, V>(log: seq<Entry<P, V>>, k: Key, lo: nat, hi: nat,
                                                     k2: Key, lo2: nat, hi2: nat, verdict: nat -> V)
    ensures var r, r' := Range(log, k, lo, hi), Range(Stamp(log, k2, lo2, hi2, verdict), k, lo, hi);
      && |r'| == |r|
      && forall i | 0 <= i < |r| :: r'[i] == r[i].(verdict := r'[i].verdict) && (r[i].verdict.Some? ==> r'[i].verdict.Some?)
  {
    if log != [] {
      var n := |log| - 1;
      var st := Stamp(log, k2, lo2, hi2, verdict);
      assert st[..n] == Stamp(log[..n], k2, lo2, hi2, verdict);
      RangeStampPointwise(log[..n], k, lo, hi, k2, lo2, hi2, verdict);
    }
  }

  lemma {:induction false} StampKeepsMatches<P, V>(log: seq<Entry<P, V>>, k: Key, lo: nat, hi: nat,
                                k2: Key, lo2: nat, hi2: nat, verdict: nat -> V, events: seq<Event<P>>)
    requires Matches(events, Range(log, k, lo, hi))
    ensures Matches(events, Range(Stamp(log, k2, lo2, hi2, verdict), k, lo, hi))
  {
    RangeStampPointwise(log, k, lo, hi, k2, lo2, hi2, verdict);
  }

  lemma {:induction false} FoldWindowIsFold<N, P, V>(apply: (V, N, P) -> N, verdict: nat -> V, body: N,
                                                     events: seq<Event<P>>, r: seq<Entry<P, V>>)
    requires forall e <- events :: e.patch.Some?
    requires Matches(events, r)
    ensures FoldWindow(apply, verdict, body, events) == Fold(apply, body, StampAll(r, verdict))
  {
    if events != [] {
      var n := |events| - 1;
      assert StampAll(r, verdict)[..n] == StampAll(r[..n], verdict);
      FoldWindowIsFold(apply, verdict, body, events[..n], r[..n]);
    }
  }

  /** A window that passes the guard is exactly the current queue, payloads included. */
  lemma {:induction false} GuardedWindowIsCurrent<N, P, V>(s: World<N, P, V>, w: Window<P>)
    requires LogOk(s) && WatermarkOk(s) && WindowOk(s, w)
    requires WindowCurrent(s.t, w)
    ensures forall e <- w.events :: e.patch.Some?
    ensures forall e <- s.log :: e.key == w.key ==> e.sequence <= w.latest
    ensures w.latest == 0 || exists e <- s.log :: e.key == w.key && e.sequence == w.latest
  {
    var r := Range(s.log, w.key, w.applied, w.latest);
    forall e | e in w.events ensures e.patch.Some? {
      var i :| 0 <= i < |w.events| && w.events[i] == e;
      assert r[i] in r;
    }
    MaxSequenceSpec(s.log, w.key);
  }

  /** The head after a commit that passed the guard. */
  lemma {:induction false} CommitHead<N, P>(t: Tables<N, P>, w: Window<P>, note: Note<N>, creator: Option<Option<Id>>)
    requires WindowCurrent(t, w)
    ensures var t' := CommitTables(t, w, note, creator);
      && Applied(t'.heads, w.key) == w.latest
      && Creation(t'.heads, w.key) == (if creator.Some? then creator.value else w.creation)
      && forall k | k != w.key :: Applied(t'.heads, k) == Applied(t.heads, k) && Creation(t'.heads, k) == Creation(t.heads, k)
  {
  }

  lemma {:induction false} ReleaseIsStamp<P, V>(log: seq<Entry<P, V>>, k: Key, lo: nat, hi: nat, verdict: nat -> V)
    ensures ReleasePayloads(View(log), k, lo, hi) == View(Stamp(log, k, lo, hi, verdict))
  {
  }

  lemma {:induction false} CommitKeepsLog<N, P, V>(s: World<N, P, V>, s': World<N, P, V>, w: Window<P>, note: Note<N>,
                                creator: Option<Option<Id>>, verdict: nat -> V)
    requires LogOk(s)
    requires s'.t == CommitTables(s.t, w, note, creator)
    requires s'.log == Stamp(s.log, w.key, w.applied, w.latest, verdict)
    ensures LogOk(s')
  {
    ReleaseIsStamp(s.log, w.key, w.applied, w.latest, verdict);
    forall i | 0 <= i < |s.log|
      ensures s'.log[i].sequence == s.log[i].sequence && s'.log[i].activity == s.log[i].activity && s'.log[i].sequence <= s.t.high
    {
      assert s.log[i] in s.log;
    }
  }

  /** Advancing one watermark over stamped entries keeps verdicts and watermark in step. */
  lemma {:induction false} StampKeepsWatermark<P, V>(log: seq<Entry<P, V>>, heads: map<Key, Head>, heads': map<Key, Head>,
                                  k: Key, lo: nat, hi: nat, verdict: nat -> V)
    requires forall e <- log :: e.verdict.Some? <==> e.sequence <= Applied(heads, e.key)
    requires Applied(heads, k) == lo <= hi && Applied(heads', k) == hi
    requires forall k2 | k2 != k :: Applied(heads', k2) == Applied(heads, k2)
    ensures forall e <- Stamp(log, k, lo, hi, verdict) :: e.verdict.Some? <==> e.sequence <= Applied(heads', e.key)
  {
    var log' := Stamp(log, k, lo, hi, verdict);
    forall e | e in log' ensures e.verdict.Some? <==> e.sequence <= Applied(heads', e.key) {
      var i :| 0 <= i < |log'| && log'[i] == e;
      assert log[i] in log;
    }
  }

  lemma {:induction false} CommitKeepsWatermark<N, P, V>(s: World<N, P, V>, s': World<N, P, V>, w: Window<P>, note: Note<N>,
                                      creator: Option<Option<Id>>, verdict: nat -> V)
    requires LogOk(s) && WatermarkOk(s) && WindowOk(s, w) && WindowCurrent(s.t, w)
    requires s'.t == CommitTables(s.t, w, note, creator)
    requires s'.log == Stamp(s.log, w.key, w.applied, w.latest, verdict)
    ensures WatermarkOk(s')
    ensures forall k: Key :: Applied(s.t.heads, k) <= Applied(s'.t.heads, k)
  {
    GuardedWindowIsCurrent(s, w);
    CommitHead(s.t, w, note, creator);
    StampKeepsWatermark(s.log, s.t.heads, s'.t.heads, w.key, w.applied, w.latest, verdict);
    forall k: Key ensures AppliedIsEvent(s'.log, s'.t.heads, k) {
      assert AppliedIsEvent(s.log, s.t.heads, k);
      if Applied(s'.t.heads, k) != 0 {
        var e :| e in s.log && e.key == k && e.sequence == Applied(s'.t.heads, k);
        var i :| 0 <= i < |s.log| && s.log[i] == e;
        assert s'.log[i] in s'.log;
      }
    }
  }

  lemma {:induction false} CommitKeepsCapacity<N, P, V>(s: World<N, P, V>, s': World<N, P, V>, w: Window<P>, note: Note<N>,
                                     creator: Option<Option<Id>>, verdict: nat -> V)
    requires LogOk(s) && WatermarkOk(s) && CapacityOk(s) && WindowOk(s, w) && WindowCurrent(s.t, w) && LogOk(s')
    requires s'.t == CommitTables(s.t, w, note, creator)
    requires s'.log == Stamp(s.log, w.key, w.applied, w.latest, verdict)
    ensures CapacityOk(s')
    ensures Pending(s'.t.events, w.key, w.latest) == []
  {
    GuardedWindowIsCurrent(s, w);
    CommitHead(s.t, w, note, creator);
    forall k: Key ensures QueueBounded(s'.t.events, s'.t.heads, k)
                  ensures k == w.key ==> Pending(s'.t.events, k, w.latest) == []
    {
      var lo := Applied(s'.t.heads, k);
      PendingIsRange(s.log, k, lo, s.t.high);
      PendingIsRange(s'.log, k, lo, s.t.high);
      RangeStampFrame(s.log, k, lo, s.t.high, w.key, w.applied, w.latest, verdict);
      if k == w.key {
        RangeEmpty(s.log, k, lo, s.t.high);
      } else {
        assert QueueBounded(s.t.events, s.t.heads, k);
      }
    }
  }

  /** Up to the old watermark a stamp leaves the projection; above it the window is folded on. */
  lemma {:induction false} StampKeepsProjection<N, P, V>(apply: (V, N, P) -> N, log: seq<Entry<P, V>>, k: Key, b: Birth<N>, hi: nat,
                                  k2: Key, lo2: nat, hi2: nat, verdict: nat -> V)
    requires Lineage(b, hi) && AllFolded(log, k, b.start, hi) && (k != k2 || hi <= lo2)
    ensures var log' := Stamp(log, k2, lo2, hi2, verdict);
      AllFolded(log', k, b.start, hi) && Projected(apply, log', k, b, hi) == Projected(apply, log, k, b, hi)
  {
    var log' := Stamp(log, k2, lo2, hi2, verdict);
    forall e | e in log' && e.key == k && b.start < e.sequence <= hi ensures e.verdict.Some? {
      var i :| 0 <= i < |log'| && log'[i] == e;
      assert log[i] in log;
    }
    forall lo, mid | b.start <= lo <= mid <= hi ensures Range(log', k, lo, mid) == Range(log, k, lo, mid) {
      RangeStampFrame(log, k, lo, mid, k2, lo2, hi2, verdict);
    }
    ProjectedFrame(apply, log, log', k, b, hi);
  }

  /** The written note is the projection up to the new watermark. */
  lemma {:induction false} CommitWritesProjection<N, P, V>(apply: (V, N, P) -> N, log: seq<Entry<P, V>>, w: Window<P>, verdict: nat -> V,
                                  b: Birth<N>, rebase: N -> N, body: N)
    requires Sorted(log) && w.applied <= w.latest && Lineage(b, w.applied) && AllFolded(log, w.key, b.start, w.applied)
    requires Matches(w.events, Range(log, w.key, w.applied, w.latest))
    requires body == Projected(apply, log, w.key, b, w.applied)
    requires forall e <- w.events :: e.patch.Some?
    ensures var log', b' := Stamp(log, w.key, w.applied, w.latest, verdict), b.(rewrites := b.rewrites + [Rewrite(w.applied, rebase)]);
      && Lineage(b', w.latest)
      && (AllFolded(log', w.key, b.start, w.latest) ==> FoldWindow(apply, verdict, rebase(body), w.events) == Projected(apply, log', w.key, b', w.latest))
  {
    var log', b' := Stamp(log, w.key, w.applied, w.latest, verdict), b.(rewrites := b.rewrites + [Rewrite(w.applied, rebase)]);
    if AllFolded(log', w.key, b.start, w.latest) {
      StampKeepsProjection(apply, log, w.key, b, w.applied, w.key, w.applied, w.latest, verdict);
      RewrittenProjection(apply, log', w.key, b, Rewrite(w.applied, rebase), w.latest);
      WindowFolds(apply, log, w, verdict, rebase(body));
    }
  }

  /** One more rewrite on top of a lineage. */
  lemma {:induction false} RewrittenProjection<N, P, V>(apply: (V, N, P) -> N, log: seq<Entry<P, V>>, k: Key, b: Birth<N>, r: Rewrite<N>, hi: nat)
    requires Lineage(b, r.at) && r.at <= hi && AllFolded(log, k, b.start, hi)
    ensures var b' := b.(rewrites := b.rewrites + [r]);
      && Lineage(b', hi)
      && Projected(apply, log, k, b', hi) == Fold(apply, r.change(Projected(apply, log, k, b, r.at)), Range(log, k, r.at, hi))
  {
    assert Earlier(b.(rewrites := b.rewrites + [r])) == b;
  }

  lemma {:induction false} WindowFolds<N, P, V>(apply: (V, N, P) -> N, log: seq<Entry<P, V>>, w: Window<P>, verdict: nat -> V, body: N)
    requires Matches(w.events, Range(log, w.key, w.applied, w.latest)) && forall e <- w.events :: e.patch.Some?
    ensures var r := Range(Stamp(log, w.key, w.applied, w.latest, verdict), w.key, w.applied, w.latest);
      (forall e <- r :: e.verdict.Some?) && FoldWindow(apply, verdict, body, w.events) == Fold(apply, body, r)
  {
    RangeStampSelf(log, w.key, w.applied, w.latest, verdict);
    FoldWindowIsFold(apply, verdict, body, w.events, Range(log, w.key, w.applied, w.latest));
  }

  /** A created note is the fold of its window over the new base. */
  lemma {:induction false} CommitCreates<N, P, V>(apply: (V, N, P) -> N, log: seq<Entry<P, V>>, w: Window<P>, verdict: nat -> V, base: N, creation: Option<Id>)
    requires w.applied <= w.latest
    requires Matches(w.events, Range(log, w.key, w.applied, w.latest))
    requires forall e <- w.events :: e.patch.Some?
    ensures var log', b := Stamp(log, w.key, w.applied, w.latest, verdict), Birth(base, w.applied, creation, []);
      && Lineage(b, w.latest)
      && (AllFolded(log', w.key, w.applied, w.latest) ==> FoldWindow(apply, verdict, base, w.events) == Projected(apply, log', w.key, b, w.latest))
  {
    WindowFolds(apply, log, w, verdict, base);
  }

  lemma {:induction false} WatermarkFolds<N, P, V>(s: World<N, P, V>, k: Key, lo: nat)
    requires WatermarkOk(s)
    ensures AllFolded(s.log, k, lo, Applied(s.t.heads, k))
  {
  }

  lemma {:induction false} CommitKeepsNotes<N, P, V>(apply: (V, N, P) -> N, s: World<N, P, V>, s': World<N, P, V>, i: nat,
                                  base: N, rebase: N -> N, creation: Option<Id>, verdict: nat -> V)
    requires Inv(apply, s)
    requires LocalOf(s, i).Ready?
    requires TryCommit(apply, s.t, LocalOf(s, i).window, LocalOf(s, i).before, base, rebase, creation, verdict).Committed?
    requires s' == DoCommit(apply, s, i, base, rebase, creation, verdict)
    requires LogOk(s') && WatermarkOk(s')
    ensures NotesOk(apply, s')
  {
    var Ready(w, before) := LocalOf(s, i);
    var note := s'.t.notes[w.key.note];
    var creator := if before.Some? then None else Some(creation);
    CommitHead(s.t, w, note, creator);
    forall o | o in s'.t.notes ensures NoteOk(apply, s', o) {
      if o == w.key.note {
        WatermarkFolds(s', w.key, s'.births[w.key].start);
        if before.Some? {
          assert NoteOk(apply, s, o);
          CommitWritesProjection(apply, s.log, w, verdict, s.births[w.key], rebase, before.value.body);
        } else {
          CommitCreates(apply, s.log, w, verdict, base, creation);
        }
      } else {
        assert NoteOk(apply, s, o);
        var k := Key(s.t.notes[o].author, o);
        StampKeepsProjection(apply, s.log, k, s.births[k], Applied(s.t.heads, k), w.key, w.applied, w.latest, verdict);
      }
    }
  }

  lemma {:induction false} CommitKeepsWorkers<N, P, V>(s: World<N, P, V>, s': World<N, P, V>, i: nat, w: Window<P>, verdict: nat -> V)
    requires WorkersOk(s)
    requires s'.workers == s.workers[i := Idle]
    requires s'.log == Stamp(s.log, w.key, w.applied, w.latest, verdict)
    requires forall k: Key :: Applied(s.t.heads, k) <= Applied(s'.t.heads, k)
    requires s'.t.high == s.t.high
    ensures WorkersOk(s')
  {
    forall j | j in s'.workers ensures LocalOk(s', s'.workers[j]) {
      if j != i {
        assert LocalOk(s, s.workers[j]);
        if s.workers[j].Loaded? || s.workers[j].Ready? {
          var v := s.workers[j].window;
          StampKeepsMatches(s.log, v.key, v.applied, v.latest, w.key, w.applied, w.latest, verdict, v.events);
        }
      }
    }
  }

  lemma {:induction false} CommitKeepsInv<N, P, V>(apply: (V, N, P) -> N, s: World<N, P, V>, i: nat, base: N, rebase: N -> N, creation: Option<Id>, verdict: nat -> V)
    requires Inv(apply, s)
    ensures Inv(apply, DoCommit(apply, s, i, base, rebase, creation, verdict))
  {
    var s' := DoCommit(apply, s, i, base, rebase, creation, verdict);
    var l := LocalOf(s, i);
    if l.Ready? {
      var w := l.window;
      assert LocalOk(s, l);
      if TryCommit(apply, s.t, w, l.before, base, rebase, creation, verdict).Committed? {
        var note := s'.t.notes[w.key.note];
        var creator := if l.before.Some? then None else Some(creation);
        CommitKeepsLog(s, s', w, note, creator, verdict);
        CommitKeepsWatermark(s, s', w, note, creator, verdict);
        CommitKeepsCapacity(s, s', w, note, creator, verdict);
        CommitKeepsNotes(apply, s, s', i, base, rebase, creation, verdict);
        CommitKeepsWorkers(s, s', i, w, verdict);
      } else {
        KeepsInvOnMemory(apply, s, i, Idle);
      }
    }
  }

  lemma {:induction false} KeepsInvOnMemory<N, P, V>(apply: (V, N, P) -> N, s: World<N, P, V>, i: nat, l: Local<N, P>)
    requires Inv(apply, s) && LocalOk(s, l)
    ensures Inv(apply, Remember(s, i, l))
  {
    var s' := Remember(s, i, l);
    assert forall o <- s.t.notes :: NoteOk(apply, s, o) ==> NoteOk(apply, s', o);
  }

  lemma {:induction false} ReadKeepsInv<N, P, V>(apply: (V, N, P) -> N, s: World<N, P, V>, step: Step<N, P, V>)
    requires Inv(apply, s)
    requires step.ReadHead? || step.ReadEvents? || step.ReadNote?
    ensures Inv(apply, Next(apply, s, step))
  {
    var i := step.worker;
    var l := LocalOf(s, i);
    if step.ReadHead? {
      AppliedBelowHigh(s, step.key);
      KeepsInvOnMemory(apply, s, i, HeadRead(step.key, Applied(s.t.heads, step.key), Creation(s.t.heads, step.key)));
    } else if step.ReadEvents? && l.HeadRead? {
      assert LocalOk(s, l);
      LoadIsOk(s, l.key, l.applied, l.creation);
      var w := LoadWindow(l.key, l.applied, l.creation, s.t.events);
      KeepsInvOnMemory(apply, s, i, if w.Some? then Loaded(w.value) else Idle);
    } else if step.ReadNote? && l.Loaded? {
      assert LocalOk(s, l);
      KeepsInvOnMemory(apply, s, i, Ready(l.window, NoteAt(s.t, l.window.key.note)));
    }
  }

  /** Recording a terminal deletion or removing a note leaves the rest of the invariant alone. */
  lemma {:induction false} RemovalKeepsInv<N, P, V>(apply: (V, N, P) -> N, s: World<N, P, V>, s': World<N, P, V>)
    requires Inv(apply, s)
    requires s' == s.(t := s.t.(deleted := s'.t.deleted, notes := s'.t.notes))
    requires forall o <- s'.t.notes :: o in s.t.notes && s'.t.notes[o] == s.t.notes[o]
    ensures Inv(apply, s')
  {
    forall o | o in s'.t.notes ensures NoteOk(apply, s', o) {
      assert NoteOk(apply, s, o);
    }
    forall i | i in s'.workers ensures LocalOk(s', s'.workers[i]) {
      assert LocalOk(s, s.workers[i]);
    }
  }

  lemma {:induction false} NextKeepsInv<N, P, V>(apply: (V, N, P) -> N, s: World<N, P, V>, step: Step<N, P, V>)
    requires Inv(apply, s)
    ensures Inv(apply, Next(apply, s, step))
  {
    match step
    case Admit(k, activity, patch, gap) => AdmitKeepsInv(apply, s, k, activity, patch, gap);
    case ReadHead(_, _) => ReadKeepsInv(apply, s, step);
    case ReadEvents(_) => ReadKeepsInv(apply, s, step);
    case ReadNote(_) => ReadKeepsInv(apply, s, step);
    case Commit(i, base, rebase, creation, verdict) => CommitKeepsInv(apply, s, i, base, rebase, creation, verdict);
    case RecordDeletion(k) => RemovalKeepsInv(apply, s, Next(apply, s, step));
    case RemoveNote(o) => RemovalKeepsInv(apply, s, Next(apply, s, step));
  }

  lemma {:induction false} RunKeepsInv<N, P, V>(apply: (V, N, P) -> N, s: World<N, P, V>, steps: seq<Step<N, P, V>>)
    requires Inv(apply, s)
    ensures Inv(apply, Run(apply, s, steps))
  {
    if steps != [] {
      RunKeepsInv(apply, s, steps[..|steps| - 1]);
      NextKeepsInv(apply, Run(apply, s, steps[..|steps| - 1]), steps[|steps| - 1]);
    }
  }

  // ---- what every run guarantees ----

  ghost predicate Reachable<N(!new), P(!new), V(!new)>(apply: (V, N, P) -> N, s: World<N, P, V>) {
    exists steps: seq<Step<N, P, V>> :: s == Run(apply, Empty(), steps)
  }

  lemma {:induction false} ReachableInv<N(!new), P(!new), V(!new)>(apply: (V, N, P) -> N, s: World<N, P, V>)
    requires Reachable(apply, s)
    ensures Inv(apply, s)
  {
    var steps: seq<Step<N, P, V>> :| s == Run(apply, Empty(), steps);
    RunKeepsInv(apply, Empty(), steps);
  }

  /**
   * In every reachable state the stored note of every object is the left fold, in
   * sequence order, of exactly the admitted patches of its key between the watermark
   * at its birth and the current watermark, with nothing else done to it but the
   * recorded rewrites of Create handlers, each at the watermark of its commit; and a
   * stored payload is NULL exactly when its sequence is applied.
   */
  lemma {:induction false} ProjectionIsFold<N(!new), P(!new), V(!new)>(apply: (V, N, P) -> N, s: World<N, P, V>, noteId: Id)
    requires Reachable(apply, s) && noteId in s.t.notes
    ensures var k := Key(s.t.notes[noteId].author, noteId);
      && k in s.births
      && Lineage(s.births[k], Applied(s.t.heads, k)) && AllFolded(s.log, k, s.births[k].start, Applied(s.t.heads, k))
      && s.t.notes[noteId].body == Projected(apply, s.log, k, s.births[k], Applied(s.t.heads, k))
    ensures forall i | 0 <= i < |s.t.events| ::
      s.t.events[i].patch.None? <==> s.t.events[i].sequence <= Applied(s.t.heads, s.t.events[i].key)
  {
    ReachableInv(apply, s);
    assert NoteOk(apply, s, noteId);
    forall i | 0 <= i < |s.t.events|
      ensures s.t.events[i].patch.None? <==> s.t.events[i].sequence <= Applied(s.t.heads, s.t.events[i].key)
    {
      assert s.log[i] in s.log;
    }
  }

  /** Where no handler rewrote the note, as Update handlers never do, it is the plain fold since its birth. */
  lemma {:induction false} UpdatesProjectPlainly<N(!new), P(!new), V(!new)>(apply: (V, N, P) -> N, s: World<N, P, V>, noteId: Id)
    requires Reachable(apply, s) && noteId in s.t.notes
    requires var k := Key(s.t.notes[noteId].author, noteId);
      k in s.births && forall i, n | 0 <= i < |s.births[k].rewrites| :: s.births[k].rewrites[i].change(n) == n
    ensures var k := Key(s.t.notes[noteId].author, noteId);
      && (forall e <- Range(s.log, k, s.births[k].start, Applied(s.t.heads, k)) :: e.verdict.Some?)
      && s.t.notes[noteId].body == Fold(apply, s.births[k].base, Range(s.log, k, s.births[k].start, Applied(s.t.heads, k)))
  {
    var k := Key(s.t.notes[noteId].author, noteId);
    ReachableInv(apply, s);
    assert NoteOk(apply, s, noteId);
    ProjectedPlain(apply, s.log, k, s.births[k], Applied(s.t.heads, k));
  }

  /** The history only grows: an entry keeps its place, identity, patch and, once given, its verdict. */
  ghost predicate Extends<P, V>(log: seq<Entry<P, V>>, log': seq<Entry<P, V>>) {
    && |log| <= |log'|
    && forall i | 0 <= i < |log| ::
         log'[i] == log[i].(verdict := log'[i].verdict) && (log[i].verdict.Some? ==> log'[i].verdict == log[i].verdict)
  }

  lemma {:induction false} StampExtends<P, V>(log: seq<Entry<P, V>>, heads: map<Key, Head>, k: Key, lo: nat, hi: nat, verdict: nat -> V)
    requires forall e <- log :: e.verdict.Some? <==> e.sequence <= Applied(heads, e.key)
    requires Applied(heads, k) == lo
    ensures Extends(log, Stamp(log, k, lo, hi, verdict))
  {
    forall i | 0 <= i < |log| && log[i].verdict.Some?
      ensures Stamp(log, k, lo, hi, verdict)[i].verdict == log[i].verdict
    {
      assert log[i] in log;
    }
  }

  lemma {:induction false} CommitExtends<N, P, V>(apply: (V, N, P) -> N, s: World<N, P, V>, i: nat, base: N, rebase: N -> N, creation: Option<Id>, verdict: nat -> V)
    requires WatermarkOk(s)
    ensures Extends(s.log, DoCommit(apply, s, i, base, rebase, creation, verdict).log)
  {
    var l := LocalOf(s, i);
    if l.Ready? && TryCommit(apply, s.t, l.window, l.before, base, rebase, creation, verdict).Committed? {
      StampExtends(s.log, s.t.heads, l.window.key, l.window.applied, l.window.latest, verdict);
    }
  }

  lemma {:induction false} NextExtends<N, P, V>(apply: (V, N, P) -> N, s: World<N, P, V>, step: Step<N, P, V>)
    requires WatermarkOk(s)
    ensures Extends(s.log, Next(apply, s, step).log)
  {
    match step
    case Commit(i, base, rebase, creation, verdict) => CommitExtends(apply, s, i, base, rebase, creation, verdict);
    case Admit(k, activity, patch, gap) => assert Extends(s.log, DoAdmit(s, k, activity, patch, gap).log);
    case _ =>
  }

  /** No later step of any run re-folds, reorders or rewrites an admitted patch. */
  lemma {:induction false} FoldedOnce<N, P, V>(apply: (V, N, P) -> N, s: World<N, P, V>, steps: seq<Step<N, P, V>>)
    requires Inv(apply, s)
    ensures Extends(s.log, Run(apply, s, steps).log)
  {
    if steps != [] {
      var init := steps[..|steps| - 1];
      FoldedOnce(apply, s, init);
      RunKeepsInv(apply, s, init);
      NextExtends(apply, Run(apply, s, init), steps[|steps| - 1]);
    }
  }

  /** As long as no note row is removed, every birth happened before any patch was applied. */
  ghost predicate FirstBirths<N, P, V>(s: World<N, P, V>) {
    && (forall k <- s.births :: s.births[k].start == 0 && k.note in s.t.notes && s.t.notes[k.note].author == k.actor)
    && (forall k: Key :: Applied(s.t.heads, k) > 0 ==> k in s.births)
  }

  lemma {:induction false} CommitKeepsFirstBirths<N, P, V>(apply: (V, N, P) -> N, s: World<N, P, V>, i: nat, base: N, rebase: N -> N, creation: Option<Id>, verdict: nat -> V)
    requires EveryNoteHasBirth(s) && FirstBirths(s)
    ensures FirstBirths(DoCommit(apply, s, i, base, rebase, creation, verdict))
  {
    var s' := DoCommit(apply, s, i, base, rebase, creation, verdict);
    var l := LocalOf(s, i);
    if l.Ready? && TryCommit(apply, s.t, l.window, l.before, base, rebase, creation, verdict).Committed? {
      var w := l.window;
      CommitBirth(apply, s, i, base, rebase, creation, verdict);
      forall k: Key | k != w.key ensures Applied(s'.t.heads, k) == Applied(s.t.heads, k) {
        CommitHead(s.t, w, s'.t.notes[w.key.note], if l.before.Some? then None else Some(creation));
      }
      BirthsStayFirst(s, s', w.key);
    }
  }

  lemma {:induction false} BirthsStayFirst<N, P, V>(s: World<N, P, V>, s': World<N, P, V>, key: Key)
    requires FirstBirths(s)
    requires s'.t.notes.Keys == s.t.notes.Keys + {key.note} && s'.births.Keys == s.births.Keys + {key}
    requires s'.births[key].start == 0 && s'.t.notes[key.note].author == key.actor
    requires forall o <- s.t.notes :: o != key.note ==> s'.t.notes[o] == s.t.notes[o]
    requires forall k <- s.births :: k != key ==> s'.births[k] == s.births[k] && k.note != key.note
    requires forall k: Key | k != key :: Applied(s'.t.heads, k) == Applied(s.t.heads, k)
    ensures FirstBirths(s')
  {
  }

  /** What a commit does to notes, births and watermarks of other keys. */
  lemma {:induction false} CommitBirth<N, P, V>(apply: (V, N, P) -> N, s: World<N, P, V>, i: nat, base: N, rebase: N -> N, creation: Option<Id>, verdict: nat -> V)
    requires EveryNoteHasBirth(s) && FirstBirths(s)
    requires LocalOf(s, i).Ready?
    requires TryCommit(apply, s.t, LocalOf(s, i).window, LocalOf(s, i).before, base, rebase, creation, verdict).Committed?
    ensures var s', w := DoCommit(apply, s, i, base, rebase, creation, verdict), LocalOf(s, i).window;
      && s'.t.notes.Keys == s.t.notes.Keys + {w.key.note} && s'.births.Keys == s.births.Keys + {w.key}
      && s'.births[w.key].start == 0 && s'.t.notes[w.key.note].author == w.key.actor
      && (forall o <- s.t.notes :: o != w.key.note ==> s'.t.notes[o] == s.t.notes[o])
      && (forall k <- s.births :: k != w.key ==> s'.births[k] == s.births[k])
      && (forall k <- s.births :: k != w.key ==> k.note != w.key.note)
  {
    var l := LocalOf(s, i);
    var w := l.window;
    if l.before.Some? {
      assert w.key.note in s.t.notes && s.t.notes[w.key.note].author == w.key.actor;
      assert w.key in s.births;
    } else {
      assert w.key.note !in s.t.notes;
      assert forall k <- s.births :: k.note != w.key.note;
      assert w.key !in s.births;
    }
  }

  /** The part of the note invariant the birth argument needs. */
  ghost predicate EveryNoteHasBirth<N, P, V>(s: World<N, P, V>) {
    forall o <- s.t.notes :: Key(s.t.notes[o].author, o) in s.births
  }

  lemma {:induction false} NextKeepsFirstBirths<N, P, V>(apply: (V, N, P) -> N, s: World<N, P, V>, step: Step<N, P, V>)
    requires Inv(apply, s) && FirstBirths(s) && !step.RemoveNote?
    ensures FirstBirths(Next(apply, s, step))
  {
    match step
    case Admit(k, activity, patch, gap) => AdmitKeepsWatermark(s, k, activity, patch, gap);
    case Commit(i, base, rebase, creation, verdict) =>
      forall o | o in s.t.notes ensures Key(s.t.notes[o].author, o) in s.births {
        assert NoteOk(apply, s, o);
      }
      CommitKeepsFirstBirths(apply, s, i, base, rebase, creation, verdict);
    case _ =>
  }

  lemma {:induction false} RunKeepsFirstBirths<N, P, V>(apply: (V, N, P) -> N, steps: seq<Step<N, P, V>>)
    requires forall step <- steps :: !step.RemoveNote?
    ensures FirstBirths(Run(apply, Empty(), steps))
  {
    if steps != [] {
      var init := steps[..|steps| - 1];
      assert steps[|steps| - 1] in steps;
      RunKeepsFirstBirths(apply, init);
      RunKeepsInv(apply, Empty(), init);
      NextKeepsFirstBirths(apply, Run(apply, Empty(), init), steps[|steps| - 1]);
    }
  }

  /** Without row removals the fold covers every admitted patch at or below the watermark. */
  lemma {:induction false} ProjectionIsWholeFold<N(!new), P(!new), V(!new)>(apply: (V, N, P) -> N, steps: seq<Step<N, P, V>>, noteId: Id)
    requires forall step <- steps :: !step.RemoveNote?
    requires noteId in Run(apply, Empty(), steps).t.notes
    ensures var s := Run(apply, Empty(), steps);
      var k := Key(s.t.notes[noteId].author, noteId);
      && k in s.births && s.births[k].start == 0
      && Lineage(s.births[k], Applied(s.t.heads, k)) && AllFolded(s.log, k, 0, Applied(s.t.heads, k))
      && s.t.notes[noteId].body == Projected(apply, s.log, k, s.births[k], Applied(s.t.heads, k))
  {
    var s := Run(apply, Empty(), steps);
    assert Reachable(apply, s);
    ProjectionIsFold(apply, s, noteId);
    RunKeepsFirstBirths(apply, steps);
  }

  /** A commit writes only when its window is, row for row, the queue of that very state. */
  lemma {:induction false} CommitNeedsCurrentQueue<N(!new), P(!new), V(!new)>(apply: (V, N, P) -> N, s: World<N, P, V>, i: nat, base: N, rebase: N -> N, creation: Option<Id>, verdict: nat -> V)
    requires Reachable(apply, s) && LocalOf(s, i).Ready?
    ensures var l := LocalOf(s, i);
      TryCommit(apply, s.t, l.window, l.before, base, rebase, creation, verdict).Committed?
      ==> && l.window.applied == Applied(s.t.heads, l.window.key)
          && l.window.events == Pending(s.t.events, l.window.key, Applied(s.t.heads, l.window.key))
          && l.before == NoteAt(s.t, l.window.key.note)
  {
    ReachableInv(apply, s);
    var l := LocalOf(s, i);
    assert LocalOk(s, l);
    if TryCommit(apply, s.t, l.window, l.before, base, rebase, creation, verdict).Committed? {
      WindowIsQueue(s, l.window);
    }
  }

  lemma {:induction false} WindowIsQueue<N, P, V>(s: World<N, P, V>, w: Window<P>)
    requires LogOk(s) && WatermarkOk(s) && WindowOk(s, w) && WindowCurrent(s.t, w)
    ensures w.events == Pending(s.t.events, w.key, w.applied)
  {
    GuardedWindowIsCurrent(s, w);
    PendingIsRange(s.log, w.key, w.applied, s.t.high);
    RangeEmpty(s.log, w.key, w.latest, s.t.high);
    RangeSplit(s.log, w.key, w.applied, w.latest, s.t.high);
    var r := Range(s.log, w.key, w.applied, w.latest);
    forall i | 0 <= i < |r| ensures w.events[i] == ViewEntry(r[i]) {
      assert w.events[i] in w.events;
      assert r[i] in r;
    }
    assert w.events == View(r);
  }

  /** The queue bound: a load whose two reads see one reachable state never overflows. */
  lemma {:induction false} ConsistentLoadNeverOverflows<N(!new), P(!new), V(!new)>(apply: (V, N, P) -> N, s: World<N, P, V>, k: Key)
    requires Reachable(apply, s)
    ensures |Pending(s.t.events, k, Applied(s.t.heads, k))| <= MAX_PENDING
    ensures LoadWindow(k, Applied(s.t.heads, k), Creation(s.t.heads, k), s.t.events).Some?
  {
    ReachableInv(apply, s);
    assert QueueBounded(s.t.events, s.t.heads, k);
  }

  lemma {:induction false} ActivityIsUnique<N, P, V>(s: World<N, P, V>, e: Event<P>, f: Event<P>)
    requires LogOk(s) && e in s.t.events && f in s.t.events && e.activity == f.activity
    ensures e == f
  {
    var i :| 0 <= i < |s.t.events| && s.t.events[i] == e;
    var j :| 0 <= j < |s.t.events| && s.t.events[j] == f;
    assert s.log[i].activity == s.log[j].activity;
  }

  /** Redelivery never adds an event or moves one; rebinding an activity id to another key aborts. */
  lemma {:induction false} RedeliveryIsIdempotent<N(!new), P(!new), V(!new)>(
    apply: (V, N, P) -> N, s: World<N, P, V>, e: Event<P>, k: Key, patch: P, gap: nat)
    requires Reachable(apply, s) && e in s.t.events
    ensures var t' := AdmitTables(s.t, k, e.activity, patch, gap);
      && t'.events == s.t.events && t'.high == s.t.high && t'.notes == s.t.notes
      && (k != e.key ==> t' == s.t)
    ensures forall f <- s.t.events :: f.activity == e.activity ==> f == e
  {
    assert LogOk(s) by { ReachableInv(apply, s); }
    forall f | f in s.t.events && f.activity == e.activity ensures f == e {
      ActivityIsUnique(s, e, f);
    }
  }

  /** Without interference, load and commit succeed on an existing note and empty the queue. */
  lemma {:induction false} QuietCommitDrains<N(!new), P(!new), V(!new)>(apply: (V, N, P) -> N, s: World<N, P, V>, k: Key, base: N, rebase: N -> N, creation: Option<Id>, verdict: nat -> V)
    requires Reachable(apply, s)
    requires k !in s.t.deleted
    requires k.note in s.t.notes ==> s.t.notes[k.note].author == k.actor
    ensures var w := LoadWindow(k, Applied(s.t.heads, k), Creation(s.t.heads, k), s.t.events);
      && w.Some?
      && var c := TryCommit(apply, s.t, w.value, NoteAt(s.t, k.note), base, rebase, creation, verdict);
      && c.Committed?
      && Pending(c.t.events, k, Applied(c.t.heads, k)) == []
  {
    ReachableInv(apply, s);
    AppliedBelowHigh(s, k);
    LoadIsOk(s, k, Applied(s.t.heads, k), Creation(s.t.heads, k));
    assert QueueBounded(s.t.events, s.t.heads, k);
    var w := LoadWindow(k, Applied(s.t.heads, k), Creation(s.t.heads, k), s.t.events).value;
    FreshWindowIsCurrent(s, k);
    GuardedWindowIsCurrent(s, w);
    var before := NoteAt(s.t, k.note);
    var c := TryCommit(apply, s.t, w, before, base, rebase, creation, verdict);
    var creator := if before.Some? then None else Some(creation);
    var s' := World(c.t, s.workers, Stamp(s.log, k, w.applied, w.latest, verdict), s.births);
    CommitKeepsLog(s, s', w, c.t.notes[k.note], creator, verdict);
    CommitKeepsCapacity(s, s', w, c.t.notes[k.note], creator, verdict);
    CommitHead(s.t, w, c.t.notes[k.note], creator);
  }

  /** Above any watermark that is 0 or an event, the newest event is the last pending one. */
  lemma {:induction false} MaxIsLastPending<P, V>(log: seq<Entry<P, V>>, k: Key, lo: nat, high: nat)
    requires Sorted(log) && forall e <- log :: e.sequence <= high
    requires lo == 0 || exists e <- log :: e.key == k && e.sequence == lo
    ensures var r := Range(log, k, lo, high);
      MaxSequence(View(log), k) == if r == [] then lo else r[|r| - 1].sequence
  {
    var r := Range(log, k, lo, high);
    var m := MaxSequence(View(log), k);
    MaxSequenceSpec(log, k);
    if m > lo {
      var e :| e in log && e.key == k && e.sequence == m;
      RangeComplete(log, k, lo, high, e);
      RangeLast(log, k, lo, high);
    }
    if r != [] {
      assert r[|r| - 1] in log;
    }
  }

  lemma {:induction false} FreshWindowIsCurrent<N, P, V>(s: World<N, P, V>, k: Key)
    requires LogOk(s) && WatermarkOk(s) && k !in s.t.deleted
    requires LoadWindow(k, Applied(s.t.heads, k), Creation(s.t.heads, k), s.t.events).Some?
    ensures WindowCurrent(s.t, LoadWindow(k, Applied(s.t.heads, k), Creation(s.t.heads, k), s.t.events).value)
  {
    LoadShape(s.log, s.t.high, k, Applied(s.t.heads, k), Creation(s.t.heads, k));
    assert AppliedIsEvent(s.log, s.t.heads, k);
    MaxIsLastPending(s.log, k, Applied(s.t.heads, k), s.t.high);
  }
}
