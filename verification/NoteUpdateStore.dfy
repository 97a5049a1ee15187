/** The operations of `inbound-note-update-order.ts` as they run against one database. */
module NoteUpdateStore {
  import opened Wrappers
  import opened NoteUpdateLog
  import opened NoteUpdateOrder

  datatype AdmitResult<P> = Admitted(event: Event<P>) | TerminallyDeleted | AdmitConflict

  class Store<N(==), P(==)> {
    var events: seq<Event<P>>
    var heads: map<Key, Head>
    var notes: map<Id, Note<N>>
    var deleted: set<Key>
    var high: nat

    constructor ()
      ensures State() == Tables([], map[], map[], {}, 0)
    {
      events, heads, notes, deleted, high := [], map[], map[], {}, 0;
    }

    function State(): Tables<N, P>
      reads this
    {
      Tables(events, heads, notes, deleted, high)
    }

    /**
     * The guarded two-insert batch, then the read-back. A failed guard leaves the
     * tables alone and reports a terminal deletion before a conflict.
     */
    method Admit(k: Key, activity: Id, patch: P, gap: nat) returns (r: AdmitResult<P>)
      modifies this
      ensures State() == AdmitTables(old(State()), k, activity, patch, gap)
      ensures r.TerminallyDeleted? <==> k in old(deleted)
      ensures r.AdmitConflict? <==> k !in old(deleted) && !AdmissionHolds(old(State()), k, activity)
      ensures r.Admitted? ==> r.event in events && r.event.activity == activity && r.event.key == k
    {
      if !AdmissionHolds(State(), k, activity) {
        return if k in deleted then TerminallyDeleted else AdmitConflict;
      }
      heads := EnsureHead(heads, k);
      if !Duplicate(events, activity) {
        high := high + 1 + gap;
        var row := Event(high, activity, k, Some(patch));
        events := events + [row];
        assert row == events[|events| - 1];
      }
      var i := 0;
      while events[i].activity != activity
        invariant 0 <= i < |events|
        invariant forall j | 0 <= j < i :: events[j].activity != activity
        invariant exists e <- events :: e.activity == activity
        decreases |events| - i
      {
        i := i + 1;
      }
      assert events[i] in events;
      r := Admitted(events[i]);
    }

    /** Fold the rows of a loaded window in order, as the projection loop does. */
    static method FoldRows<V>(apply: (V, N, P) -> N, verdict: nat -> V, start: N, rows: seq<Event<P>>) returns (body: N)
      requires forall e <- rows :: e.patch.Some?
      ensures body == FoldWindow(apply, verdict, start, rows)
    {
      body := start;
      for i := 0 to |rows|
        invariant body == FoldWindow(apply, verdict, start, rows[..i])
      {
        assert rows[..i + 1][..i] == rows[..i];
        assert rows[i] in rows;
        body := apply(verdict(rows[i].sequence), body, rows[i].patch.value);
      }
      assert rows[..|rows|] == rows;
    }

    /** The guarded commit batch, statement by statement; it reports whether it wrote. */
    method Commit<V>(apply: (V, N, P) -> N, w: Window<P>, before: Option<Note<N>>, base: N,
                     rebase: N -> N, creation: Option<Id>, verdict: nat -> V)
      returns (committed: bool)
      modifies this
      ensures var c := TryCommit(apply, old(State()), w, before, base, rebase, creation, verdict);
        && committed == c.Committed?
        && State() == if committed then c.t else old(State())
      ensures committed ==> Creation(heads, w.key) == (if before.None? then creation else w.creation) && Applied(heads, w.key) == w.latest
      ensures forall k | k != w.key :: (k in heads <==> k in old(heads)) && (k in heads ==> heads[k] == old(heads)[k])
      ensures forall o | o != w.key.note :: (o in notes <==> o in old(notes)) && (o in notes ==> notes[o] == old(notes)[o])
    {
      if exists e <- w.events :: e.patch.None? {
        return false;
      }
      if before.Some? && before.value.author != w.key.actor {
        return false;
      }
      var body := FoldRows(apply, verdict, if before.Some? then rebase(before.value.body) else base, w.events);
      if NoteAt(State(), w.key.note) != before || !WindowCurrent(State(), w) {
        return false;
      }
      notes := notes[w.key.note := Note(w.key.actor, body)];
      heads := EnsureHead(heads, w.key);
      heads := AdvanceHead(heads, w.key, w.applied, w.latest);
      events := ReleasePayloads(events, w.key, w.applied, w.latest);
      if before.None? {
        heads := SetCreation(heads, w.key, w.creation, creation);
      }
      committed := true;
    }
  }
}
