/**
 * What the steps of `NoteUpdateOrder` do to rows, in terms of columns only, and what
 * follows over runs for the creation column and for terminal deletions.
 */
module NoteUpdateLaws {
  import opened Wrappers
  import opened NoteUpdateLog
  import opened NoteUpdateOrder

  lemma {:induction false} MaxOfEvents<P>(events: seq<Event<P>>, k: Key)
    ensures forall e <- events :: e.key == k ==> e.sequence <= MaxSequence(events, k)
    ensures MaxSequence(events, k) == 0 || exists e <- events :: e.key == k && e.sequence == MaxSequence(events, k)
  {
    if events != [] {
      var n := |events| - 1;
      MaxOfEvents(events[..n], k);
      assert events == events[..n] + [events[n]];
    }
  }

  /** The newest event of a key is the one with this sequence; none if it is 0. */
  ghost predicate Newest<P>(events: seq<Event<P>>, k: Key, sequence: nat) {
    && (forall e <- events :: e.key == k ==> e.sequence <= sequence)
    && (sequence == 0 || exists e <- events :: e.key == k && e.sequence == sequence)
  }

  lemma {:induction false} NewestIsMax<P>(events: seq<Event<P>>, k: Key, sequence: nat)
    ensures Newest(events, k, sequence) <==> MaxSequence(events, k) == sequence
  {
    MaxOfEvents(events, k);
    if Newest(events, k, sequence) && MaxSequence(events, k) != 0 {
      var e :| e in events && e.key == k && e.sequence == MaxSequence(events, k);
    }
  }

  /** The row of a head, absent columns being 0 and NULL. */
  function HeadRow(heads: map<Key, Head>, k: Key): Head {
    if k in heads then heads[k] else Head(0, None)
  }

  /** Everything a guarded commit needs, column by column. */
  ghost predicate MayWrite<N, P>(t: Tables<N, P>, w: Window<P>, before: Option<Note<N>>) {
    && (forall e <- w.events :: e.patch.Some?)
    && (before.Some? ==> before.value.author == w.key.actor)
    && (if before.Some? then w.key.note in t.notes && t.notes[w.key.note] == before.value else w.key.note !in t.notes)
    && HeadRow(t.heads, w.key) == Head(w.applied, w.creation)
    && Newest(t.events, w.key, w.latest)
    && w.key !in t.deleted
  }

  /** One event row after a commit of the window. */
  ghost predicate Released<P>(before: Event<P>, after: Event<P>, w: Window<P>) {
    && after.sequence == before.sequence && after.activity == before.activity && after.key == before.key
    && after.patch == if before.key == w.key && w.applied < before.sequence <= w.latest then None else before.patch
  }

  /**
   * A commit writes exactly when the note and head are the ones read, the window's last
   * event is the newest, no payload was lost, the identity fits and no deletion is
   * recorded. Then the note is the folded window, its head names the window's end and,
   * if the note is new, the Create activity given; exactly the window's payloads are
   * released; and all else is as it was. Otherwise nothing is written.
   */
  lemma {:induction false} CommitMeans<N, P, V>(apply: (V, N, P) -> N, s: World<N, P, V>, i: nat,
                                                base: N, rebase: N -> N, creation: Option<Id>, verdict: nat -> V)
    requires LocalOf(s, i).Ready?
    ensures var Ready(w, before) := LocalOf(s, i);
      var t, t' := s.t, Next(apply, s, Commit(i, base, rebase, creation, verdict)).t;
      if !MayWrite(t, w, before) then t' == t
      else
        && t'.notes == t.notes[w.key.note := Note(w.key.actor, FoldWindow(apply, verdict, if before.Some? then rebase(before.value.body) else base, w.events))]
        && t'.heads == t.heads[w.key := Head(w.latest, if before.None? then creation else w.creation)]
        && |t'.events| == |t.events| && (forall j | 0 <= j < |t.events| :: Released(t.events[j], t'.events[j], w))
        && t'.deleted == t.deleted && t'.high == t.high
  {
    var Ready(w, before) := LocalOf(s, i);
    GuardIsMayWrite(apply, s.t, w, before, base, rebase, creation, verdict);
    if MayWrite(s.t, w, before) {
      CommitWrites(apply, s.t, w, before, base, rebase, creation, verdict);
    }
  }

  lemma {:induction false} GuardIsMayWrite<N, P, V>(apply: (V, N, P) -> N, t: Tables<N, P>, w: Window<P>, before: Option<Note<N>>,
                                                    base: N, rebase: N -> N, creation: Option<Id>, verdict: nat -> V)
    ensures TryCommit(apply, t, w, before, base, rebase, creation, verdict).Committed? <==> MayWrite(t, w, before)
  {
    NewestIsMax(t.events, w.key, w.latest);
  }

  lemma {:induction false} CommitWrites<N, P, V>(apply: (V, N, P) -> N, t: Tables<N, P>, w: Window<P>, before: Option<Note<N>>,
                                                 base: N, rebase: N -> N, creation: Option<Id>, verdict: nat -> V)
    requires MayWrite(t, w, before) && TryCommit(apply, t, w, before, base, rebase, creation, verdict).Committed?
    ensures var t' := TryCommit(apply, t, w, before, base, rebase, creation, verdict).t;
      && t'.notes == t.notes[w.key.note := Note(w.key.actor, FoldWindow(apply, verdict, if before.Some? then rebase(before.value.body) else base, w.events))]
      && t'.heads == t.heads[w.key := Head(w.latest, if before.None? then creation else w.creation)]
      && |t'.events| == |t.events| && (forall j | 0 <= j < |t.events| :: Released(t.events[j], t'.events[j], w))
      && t'.deleted == t.deleted && t'.high == t.high
  {
  }

  /** An admission adds one event exactly when the activity is new, fewer than sixteen are pending and no deletion is recorded. */
  lemma {:induction false} AdmitMeans<N, P, V>(apply: (V, N, P) -> N, s: World<N, P, V>, k: Key, activity: Id, patch: P, gap: nat)
    ensures var t, t' := s.t, Next(apply, s, Admit(k, activity, patch, gap)).t;
      && t'.notes == t.notes && t'.deleted == t.deleted
      && (forall x :: HeadRow(t'.heads, x) == HeadRow(t.heads, x))
      && t'.events == t.events + (
           if (forall e <- t.events :: e.activity != activity) && k !in t.deleted && |Pending(t.events, k, HeadRow(t.heads, k).applied)| < 16
           then [Event(t.high + 1 + gap, activity, k, Some(patch))] else [])
  {
    var t := s.t;
    assert t.events + [] == t.events;
    if e :| e in t.events && e.activity == activity {
      assert Duplicate(t.events, activity);
    }
  }

  // ----- the creation column -----

  /** The Create activity the last creating commit of the key gave; none before the first. */
  function LastCreation<N>(births: map<Key, Birth<N>>, k: Key): Option<Id> {
    if k in births then births[k].creation else None
  }

  ghost predicate CreationsKept<N, P, V>(s: World<N, P, V>) {
    forall k: Key :: HeadRow(s.t.heads, k).creation == LastCreation(s.births, k)
  }

  /** A commit that creates its note is its key's last creation; any other leaves it. */
  lemma {:induction false} CommitCreation<N, P, V>(apply: (V, N, P) -> N, s: World<N, P, V>, i: nat,
                                                   base: N, rebase: N -> N, creation: Option<Id>, verdict: nat -> V)
    requires LocalOf(s, i).Ready?
    ensures var Ready(w, before) := LocalOf(s, i);
      var births' := Next(apply, s, Commit(i, base, rebase, creation, verdict)).births;
      && (forall k | k != w.key :: LastCreation(births', k) == LastCreation(s.births, k))
      && (MayWrite(s.t, w, before) && before.None? ==> LastCreation(births', w.key) == creation)
      && (MayWrite(s.t, w, before) && before.Some? && w.key in s.births ==> LastCreation(births', w.key) == LastCreation(s.births, w.key))
      && (!MayWrite(s.t, w, before) ==> births' == s.births)
  {
    NewestIsMax(s.t.events, LocalOf(s, i).window.key, LocalOf(s, i).window.latest);
  }

  lemma {:induction false} CommitKeepsCreations<N, P, V>(apply: (V, N, P) -> N, s: World<N, P, V>, i: nat,
                                                         base: N, rebase: N -> N, creation: Option<Id>, verdict: nat -> V)
    requires CreationsKept(s) && LocalOf(s, i).Ready?
    ensures CreationsKept(Next(apply, s, Commit(i, base, rebase, creation, verdict)))
  {
    var Ready(w, before) := LocalOf(s, i);
    var s' := Next(apply, s, Commit(i, base, rebase, creation, verdict));
    CommitMeans(apply, s, i, base, rebase, creation, verdict);
    CommitCreation(apply, s, i, base, rebase, creation, verdict);
    forall k: Key ensures HeadRow(s'.t.heads, k).creation == LastCreation(s'.births, k) {
      assert HeadRow(s.t.heads, k).creation == LastCreation(s.births, k);
      if k == w.key && MayWrite(s.t, w, before) && before.Some? && w.key !in s.births {
        FirstRewriteCreation(apply, s, i, base, rebase, creation, verdict);
      }
    }
  }

  /** A note whose history is unknown keeps the creation its window was read with. */
  lemma {:induction false} FirstRewriteCreation<N, P, V>(apply: (V, N, P) -> N, s: World<N, P, V>, i: nat,
                                                         base: N, rebase: N -> N, creation: Option<Id>, verdict: nat -> V)
    requires LocalOf(s, i).Ready? && MayWrite(s.t, LocalOf(s, i).window, LocalOf(s, i).before)
    requires LocalOf(s, i).before.Some? && LocalOf(s, i).window.key !in s.births
    ensures LastCreation(Next(apply, s, Commit(i, base, rebase, creation, verdict)).births, LocalOf(s, i).window.key) == LocalOf(s, i).window.creation
  {
    NewestIsMax(s.t.events, LocalOf(s, i).window.key, LocalOf(s, i).window.latest);
  }

  /** In every reachable state a key's creation column is the one given by the commit that last created its note. */
  lemma {:induction false} CreationIsLastCreate<N(!new), P(!new), V(!new)>(apply: (V, N, P) -> N, steps: seq<Step<N, P, V>>, k: Key)
    ensures var s := Run(apply, Empty(), steps); HeadRow(s.t.heads, k).creation == LastCreation(s.births, k)
  {
    RunKeepsCreations(apply, steps);
  }

  lemma {:induction false} RunKeepsCreations<N, P, V>(apply: (V, N, P) -> N, steps: seq<Step<N, P, V>>)
    ensures CreationsKept(Run(apply, Empty(), steps))
  {
    if steps != [] {
      var init, step := steps[..|steps| - 1], steps[|steps| - 1];
      RunKeepsCreations(apply, init);
      var s := Run(apply, Empty(), init);
      if step.Commit? && LocalOf(s, step.worker).Ready? {
        CommitKeepsCreations(apply, s, step.worker, step.base, step.rebase, step.creation, step.verdict);
      } else {
        OtherStepsKeepHeads(apply, s, step);
      }
    }
  }

  lemma {:induction false} OtherStepsKeepHeads<N, P, V>(apply: (V, N, P) -> N, s: World<N, P, V>, step: Step<N, P, V>)
    requires step.Commit? ==> !LocalOf(s, step.worker).Ready?
    ensures Next(apply, s, step).births == s.births
    ensures forall k: Key :: HeadRow(Next(apply, s, step).t.heads, k) == HeadRow(s.t.heads, k)
  {
  }

  // ----- terminal deletion -----

  /** The rows of one key: its head and its events. */
  ghost predicate SameRows<N, P>(t: Tables<N, P>, t': Tables<N, P>, k: Key) {
    && HeadRow(t'.heads, k) == HeadRow(t.heads, k)
    && (forall e <- t'.events :: e.key == k ==> e in t.events)
    && (forall e <- t.events :: e.key == k ==> e in t'.events)
  }

  lemma {:induction false} StepKeepsDeleted<N, P, V>(apply: (V, N, P) -> N, s: World<N, P, V>, step: Step<N, P, V>, k: Key)
    requires k in s.t.deleted
    ensures k in Next(apply, s, step).t.deleted && SameRows(s.t, Next(apply, s, step).t, k)
  {
    var t, t' := s.t, Next(apply, s, step).t;
    if step.Commit? && LocalOf(s, step.worker).Ready? {
      CommitMeans(apply, s, step.worker, step.base, step.rebase, step.creation, step.verdict);
      var w := LocalOf(s, step.worker).window;
      if t' != t {
        forall j | 0 <= j < |t.events| && t.events[j].key == k ensures t'.events[j] == t.events[j] {
          assert Released(t.events[j], t'.events[j], w);
        }
        forall j | 0 <= j < |t.events| ensures t'.events[j].key == t.events[j].key {
          assert Released(t.events[j], t'.events[j], w);
        }
      }
    } else if step.Admit? {
      AdmitMeans(apply, s, step.key, step.activity, step.patch, step.gap);
    } else {
      OtherStepsKeepHeads(apply, s, step);
    }
  }

  /** Once a terminal deletion is recorded nothing of its key changes again, in any run. */
  lemma {:induction false} DeletionIsFinal<N, P, V>(apply: (V, N, P) -> N, s: World<N, P, V>, steps: seq<Step<N, P, V>>, k: Key)
    requires k in s.t.deleted
    ensures k in Run(apply, s, steps).t.deleted && SameRows(s.t, Run(apply, s, steps).t, k)
  {
    if steps != [] {
      var init := steps[..|steps| - 1];
      DeletionIsFinal(apply, s, init, k);
      StepKeepsDeleted(apply, Run(apply, s, init), steps[|steps| - 1], k);
    }
  }
}
