/**
 * One claimed push job from the claim to its last write (`processNotificationPushJob`):
 * eligibility, the stored or selected list, the rows that still load, the fan-out, the
 * final write, and the exception handler around all of it. Every await may throw, a
 * write also after it took effect, and the lease may be gone before any write.
 */
module PushJob {
  import opened Wrappers
  import opened FiniteSets
  import opened PushFanOut
  import PushOutbox

  /** What becomes of one conditional write. */
  datatype Fate = Goes | TakenOver | Fails | FailsAfterwards

  datatype Written = Applied | NoRow | Raised

  datatype Event = LookupFailed | Ineligible | Eligible

  /** Everything the database and the network answer. */
  datatype Outside = Outside(
    event: Event,
    /** The pusher ids selected when the snapshot has no list; none when the query throws. */
    selected: Option<seq<Id>>,
    stored: Fate,
    /** The actor's registered pushers, and whether loading them and the unread count succeeds. */
    registered: seq<Pusher>,
    loads: bool,
    contentError: Option<string>,
    web: nat -> Reply,
    gateways: nat -> Reply,
    last: Fate,
    handler: Fate)

  function Listed(list: Option<seq<Id>>): set<Id> {
    if list.None? then {} else ToSet(list.value)
  }

  /** Ids of the list whose pusher is still registered. */
  function Live(list: Option<seq<Id>>, registered: seq<Pusher>): set<Id> {
    Listed(list) * Ids(registered)
  }

  /** No live id that has not settled is dropped from the list. */
  ghost predicate Keeps(before: Option<seq<Id>>, after: Option<seq<Id>>, settled: set<Id>, registered: seq<Pusher>) {
    Live(before, registered) - settled <= Listed(after)
  }

  /** A stored list never grows. */
  ghost predicate Shrinks(before: Option<seq<Id>>, after: Option<seq<Id>>) {
    before.Some? ==> after.Some? && Listed(after) <= Listed(before)
  }

  /** Seconds until the next try after so many attempts: half a minute, doubling, at most twelve hours. */
  function Delay(attempts: nat): nat {
    Lesser(12 * 60 * 60, 30 * Doubled(attempts))
  }

  function Doubled(n: nat): nat {
    if n == 0 then 1 else 2 * Doubled(n - 1)
  }

  function Lesser(a: nat, b: nat): nat {
    if a <= b then a else b
  }

  /** The first wait is thirty seconds, each next one twice as long, and none is over twelve hours. */
  lemma {:induction false} DelayDoubles(attempts: nat)
    ensures Delay(0) == 30 && Delay(attempts) <= 43200
    ensures Delay(attempts + 1) == Lesser(43200, 2 * Delay(attempts))
  {
    assert Doubled(attempts + 1) == 2 * Doubled(attempts);
  }

  /**
   * What the worker goes by agrees with what the claimed row has: either the row has
   * no list, or the snapshot's list names the same live pushers, or, the snapshot
   * having none, the selection lies within the row's list and covers its live pushers.
   */
  ghost predicate Agrees(seen: Option<seq<Id>>, row: Option<seq<Id>>, selected: Option<seq<Id>>, registered: seq<Pusher>) {
    || row.None?
    || (seen.Some? && Live(seen, registered) == Live(row, registered))
    || (seen.None? && (selected.Some? ==> Listed(selected) <= Listed(row) && Live(row, registered) <= Listed(selected)))
  }

  /** The list the worker delivers to. */
  function WorkList(seen: Option<seq<Id>>, selected: Option<seq<Id>>): Option<seq<Id>> {
    if seen.Some? then seen else selected
  }

  /** The query for the listed rows. */
  function Loaded(rows: seq<Pusher>, ids: set<Id>): (r: seq<Pusher>)
    ensures forall p :: p in r <==> p in rows && p.id in ids
  {
    if rows == [] then []
    else
      assert rows == [rows[0]] + rows[1..];
      (if rows[0].id in ids then [rows[0]] else []) + Loaded(rows[1..], ids)
  }

  lemma {:induction false} LoadedDistinct(rows: seq<Pusher>, ids: set<Id>)
    requires DistinctIds(rows)
    ensures DistinctIds(Loaded(rows, ids)) && KeyedById(Loaded(rows, ids))
    ensures Ids(Loaded(rows, ids)) == Ids(rows) * ids
  {
    LoadedRowsDistinct(rows, ids);
    DistinctIsKeyed(Loaded(rows, ids));
    forall id | id in Ids(rows) * ids ensures id in Ids(Loaded(rows, ids)) {
      var p :| p in rows && p.id == id;
      assert p in Loaded(rows, ids);
    }
  }

  lemma {:induction false} LoadedRowsDistinct(rows: seq<Pusher>, ids: set<Id>)
    requires DistinctIds(rows)
    ensures DistinctIds(Loaded(rows, ids))
  {
    if rows != [] {
      var rest := Loaded(rows[1..], ids);
      LoadedRowsDistinct(rows[1..], ids);
      forall j | 0 <= j < |rest| ensures rest[j].id != rows[0].id {
        assert rest[j] in rows[1..];
        var k :| 1 <= k < |rows| && rows[k] == rest[j];
      }
    }
  }

  lemma {:induction false} DistinctIsKeyed(rows: seq<Pusher>)
    requires DistinctIds(rows)
    ensures KeyedById(rows)
  {
    forall p, q | p in rows && q in rows && p.id == q.id ensures p == q {
      var i :| 0 <= i < |rows| && rows[i] == p;
      var j :| 0 <= j < |rows| && rows[j] == q;
    }
  }

  class Claimed {
    /** The job row as this worker's own writes left it. */
    var row: PushOutbox.Job
    /** Whether somebody took the lease away. */
    var lost: bool
    const token: nat
    /** Attempt count and pusher list of the row read before the claim. */
    const attempts: nat
    const seen: Option<seq<Id>>

    constructor (row: PushOutbox.Job, token: nat, attempts: nat, seen: Option<seq<Id>>)
      ensures this.row == row && this.token == token && this.attempts == attempts && this.seen == seen && !lost
    {
      this.row, this.token, this.attempts, this.seen, this.lost := row, token, attempts, seen, false;
    }

    predicate Holds()
      reads this
    {
      !lost && PushOutbox.HoldsLease(row, token)
    }

    /** One write under the lease predicate. */
    method Issue(w: PushOutbox.LeaseWrite, fate: Fate) returns (r: Written)
      modifies this
      ensures row == if old(Holds()) && (fate.Goes? || fate.FailsAfterwards?) then PushOutbox.ApplyLeaseWrite(old(row), w, attempts) else old(row)
      ensures r.Applied? <==> old(Holds()) && fate.Goes?
      ensures r.Raised? <==> fate.Fails? || fate.FailsAfterwards?
      ensures lost == (old(lost) || fate.TakenOver?)
    {
      if fate.TakenOver? {
        lost := true;
      }
      if fate.Fails? {
        return Raised;
      }
      r := if fate.FailsAfterwards? then Raised else NoRow;
      if Holds() {
        row := PushOutbox.ApplyLeaseWrite(row, w, attempts);
        if fate.Goes? {
          r := Applied;
        }
      }
    }

    /** Not dispatched yet, the stored list is the claimed row's; a selection once stored is the list. */
    ghost predicate Untouched(before: Option<seq<Id>>, out: Outside)
      reads this
    {
      row.pending == before || (seen.None? && out.selected.Some? && row.pending == out.selected)
    }

    /** The lease is held, and what has settled is of the work list, all of its dead ids included. */
    ghost predicate Running(before: Option<seq<Id>>, dispatched: Option<seq<Id>>, settled: set<Id>, out: Outside)
      reads this
    {
      && PushOutbox.HoldsLease(row, token) && Untouched(before, out)
      && (dispatched.Some? ==> dispatched == WorkList(seen, out.selected) && (seen.None? ==> row.pending == out.selected))
      && (settled != {} ==> dispatched.Some? && Listed(dispatched) - Live(dispatched, out.registered) <= settled)
    }

    /** The stored list is exactly the live ids that have not settled; delivered means there are none. */
    ghost predicate LastWrite(dispatched: Option<seq<Id>>, settled: set<Id>, out: Outside)
      reads this
    {
      && row.status != PushOutbox.Processing && row.pending.Some?
      && Listed(row.pending) == Live(dispatched, out.registered) - settled
      && (row.status == PushOutbox.Delivered <==> Live(dispatched, out.registered) <= settled)
      && (row.status == PushOutbox.Delivered ==> row.pending == Some([]))
    }

    /**
     * The last write went out. Either it left the list alone and nothing has settled,
     * or the list is exactly the live ids of the work list that have not settled.
     */
    ghost predicate Closed(before: Option<seq<Id>>, dispatched: Option<seq<Id>>, settled: set<Id>, out: Outside)
      reads this
    {
      && row.status != PushOutbox.Processing
      && (|| (Untouched(before, out) && settled == {} && row.status != PushOutbox.Delivered)
          || (&& dispatched.Some? && dispatched == WorkList(seen, out.selected)
              && row.pending.Some? && Listed(row.pending) == Live(dispatched, out.registered) - settled
              && (row.status == PushOutbox.Delivered ==> row.pending == Some([]))))
    }

    /** The eligible part of the `try`: the list, then deliveries and the last write. */
    method Deliver(out: Outside, at: int) returns (threw: bool, settled: set<Id>, dispatched: Option<seq<Id>>)
      requires PushOutbox.HoldsLease(row, token) && DistinctIds(out.registered)
      modifies this
      ensures !PushOutbox.HoldsLease(row, token) <==> !old(lost) && Wrote(out, seen)
      ensures PushOutbox.HoldsLease(row, token) ==> Running(old(row.pending), dispatched, settled, out)
      ensures !PushOutbox.HoldsLease(row, token) ==>
        && dispatched == WorkList(seen, out.selected) && LastWrite(dispatched, settled, out)
        && (row.status == PushOutbox.RetryWait ==> row.nextAttemptAt == at + 1000 * LongWait(out, seen, attempts))
      ensures !threw && !lost ==> !PushOutbox.HoldsLease(row, token)
      ensures settled == SettledIn(out, seen, old(lost)) && settled <= Listed(WorkList(seen, out.selected))
      ensures !old(lost) && StoresOnly(out, seen) ==> threw && settled == {} && !lost && row.pending == out.selected && dispatched == out.selected
    {
      threw, settled, dispatched := false, {}, None;
      if seen.None? {
        if out.selected.None? {
          return true, {}, None;
        }
        var r := Issue(PushOutbox.StorePending(out.selected.value, at), out.stored);
        if !r.Applied? {
          return r.Raised?, {}, None;
        }
      }
      var list := if seen.Some? then seen.value else out.selected.value;
      dispatched := Some(list);
      threw, settled := DeliverList(list, out, at);
    }

    /** An empty list and one without rows are finished at once; otherwise the fan-out runs. */
    method DeliverList(list: seq<Id>, out: Outside, at: int) returns (threw: bool, settled: set<Id>)
      requires PushOutbox.HoldsLease(row, token) && DistinctIds(out.registered)
      modifies this
      ensures PushOutbox.HoldsLease(row, token) ==> row == old(row)
      ensures !PushOutbox.HoldsLease(row, token) <==> !old(lost) && Reaches(list, out) && (out.last.Goes? || out.last.FailsAfterwards?)
      ensures !PushOutbox.HoldsLease(row, token) ==>
        && LastWrite(Some(list), settled, out)
        && (row.status == PushOutbox.RetryWait ==>
              row.nextAttemptAt == at + 1000 * Greater(WaitHint(RowsIn(list, out), out.contentError, out.web, out.gateways), Delay(attempts)))
      ensures !threw && !lost ==> !PushOutbox.HoldsLease(row, token)
      ensures settled == SettledOf(list, out) && settled <= ToSet(list)
      ensures settled != {} ==> ToSet(list) - Ids(out.registered) <= settled
      ensures !old(lost) && list != [] && !out.loads ==> threw && settled == {} && !lost && row == old(row)
    {
      LoadedDistinct(out.registered, ToSet(list));
      var pushers := RowsIn(list, out);
      if list == [] {
        var r := Issue(PushOutbox.Finish(at), out.last);
        return r.Raised?, {};
      }
      if !out.loads {
        return true, {};
      }
      if pushers == [] {
        var r := Issue(PushOutbox.Finish(at), out.last);
        return r.Raised?, {};
      }
      var exit, hint;
      exit, settled, hint := RunAttempt(list, pushers, out);
      threw := WriteExit(list, pushers, exit, settled, hint, out, at);
    }

    /** Both delivery loops. */
    static method RunAttempt(list: seq<Id>, pushers: seq<Pusher>, out: Outside) returns (exit: Exit, settled: set<Id>, hint: nat)
      requires DistinctIds(pushers) && KeyedById(pushers) && Ids(pushers) <= ToSet(list)
      ensures settled == (ToSet(list) - Ids(pushers)) + SettledBy(pushers, out.contentError, out.web, out.gateways)
      ensures settled <= ToSet(list)
      ensures exit.Finished? || exit.Retrying? <==> StoppedBy(pushers, out.contentError, out.web, out.gateways).None?
      ensures exit.Finished? ==> Ids(pushers) <= settled
      ensures exit.Retrying? ==> ToSet(exit.ids) == Ids(pushers) - settled != {}
      ensures exit.Retrying? ==> hint == WaitHint(pushers, out.contentError, out.web, out.gateways)
    {
      Partition(pushers, out.contentError, out.web, out.gateways);
      var attempt := new Attempt();
      exit := attempt.Dispatch(list, pushers, out.contentError, out.web, out.gateways);
      settled, hint := attempt.settled, attempt.retryAfter;
      if exit.Retrying? {
        assert exit.ids[0] in ToSet(exit.ids);
      }
    }

    /** The write an exit leads to: a retry waits for the longest hint or the doubling delay. */
    method WriteExit(list: seq<Id>, pushers: seq<Pusher>, exit: Exit, settled: set<Id>, hint: nat, out: Outside, at: int) returns (threw: bool)
      requires PushOutbox.HoldsLease(row, token) && Ids(pushers) == Live(Some(list), out.registered)
      requires exit.Finished? ==> Ids(pushers) <= settled
      requires exit.Retrying? ==> ToSet(exit.ids) == Ids(pushers) - settled != {}
      modifies this
      ensures PushOutbox.HoldsLease(row, token) ==> row == old(row)
      ensures !PushOutbox.HoldsLease(row, token) <==>
        !old(lost) && (exit.Finished? || exit.Retrying?) && (out.last.Goes? || out.last.FailsAfterwards?)
      ensures !PushOutbox.HoldsLease(row, token) ==> LastWrite(Some(list), settled, out)
      ensures row.status == PushOutbox.RetryWait ==> exit.Retrying? && row.nextAttemptAt == at + 1000 * Greater(hint, Delay(attempts))
      ensures !threw && !lost ==> !PushOutbox.HoldsLease(row, token)
    {
      match exit {
        case Stopped => lost, threw := true, false;
        case Aborted => threw := true;
        case Finished =>
          var r := Issue(PushOutbox.Finish(at), out.last);
          threw := r.Raised?;
        case Retrying(ids) =>
          var r := Issue(PushOutbox.GiveUp(Some(ids), at + 1000 * Greater(hint, Delay(attempts)), at), out.last);
          threw := r.Raised?;
      }
    }

    /** The `catch`: one more attempt, the stored list narrowed once anything has settled; a row already written is left. */
    method Handle(ghost before: Option<seq<Id>>, dispatched: Option<seq<Id>>, settled: set<Id>, out: Outside, at: int)
      requires Running(before, dispatched, settled, out) || !PushOutbox.HoldsLease(row, token)
      modifies this
      ensures !old(PushOutbox.HoldsLease(row, token)) ==> row == old(row)
      ensures old(PushOutbox.HoldsLease(row, token)) ==>
        if row.status == PushOutbox.Processing then row == old(row)
        else Closed(before, dispatched, settled, out) && row.status != PushOutbox.Delivered && row.attempts == attempts + 1
      ensures old(PushOutbox.HoldsLease(row, token)) && row.status == PushOutbox.RetryWait ==> row.nextAttemptAt == at + 1000 * Delay(attempts)
      ensures settled == {} ==> row.pending == old(row.pending)
      ensures lost == (old(lost) || out.handler.TakenOver?)
      ensures out.handler.Goes? && !lost ==> row.status != PushOutbox.Processing || !old(PushOutbox.HoldsLease(row, token))
    {
      var remaining := None;
      if dispatched.Some? && settled != {} {
        remaining := Some(Filter(dispatched.value, ToSet(dispatched.value) - settled));
        assert PushOutbox.HoldsLease(row, token) ==> ToSet(remaining.value) == Live(dispatched, out.registered) - settled;
      }
      var r := Issue(PushOutbox.GiveUp(remaining, at + 1000 * Delay(attempts), at), out.handler);
    }

    /**
     * The whole job, whatever fails. Once the row leaves the processing state and the
     * work list agrees with the claimed row's, the list has shrunk, and it keeps every
     * live unsettled id exactly if the notification was eligible, or its ineligibility
     * was not recorded, or no live id was stored. Until then the list is as it was, or
     * the selection. Who has settled is decided by the replies. A retry waits for the
     * doubling delay or, after a whole fan-out, a longer hint. A worker that keeps its
     * lease leaves the row processing only if the handler's own write fails.
     */
    method Process(out: Outside, at: int) returns (settled: set<Id>, dispatched: Option<seq<Id>>)
      requires PushOutbox.HoldsLease(row, token) && DistinctIds(out.registered)
      modifies this
      ensures row.status == PushOutbox.Processing ==> Untouched(old(row.pending), out)
      ensures row.status != PushOutbox.Processing && Agrees(seen, old(row.pending), out.selected, out.registered) ==>
        && Shrinks(old(row.pending), row.pending)
        && (Keeps(old(row.pending), row.pending, settled, out.registered)
            <==> !RecordsIneligible(out, old(lost)) || Live(old(row.pending), out.registered) == {})
      ensures row.status != PushOutbox.Processing && !RecordsIneligible(out, old(lost)) ==> Closed(old(row.pending), dispatched, settled, out)
      ensures RecordsIneligible(out, old(lost)) ==> row.status == PushOutbox.Delivered && row.pending == Some([])
      ensures settled == if out.event.Eligible? then SettledIn(out, seen, old(lost)) else {}
      ensures settled <= Listed(WorkList(seen, out.selected))
      ensures row.status == PushOutbox.Delivered && !RecordsIneligible(out, old(lost)) ==> Live(dispatched, out.registered) <= settled
      ensures !lost && out.handler.Goes? ==> row.status != PushOutbox.Processing
      ensures !old(lost) && out.event.Eligible? && Wrote(out, seen) ==> LastWrite(WorkList(seen, out.selected), settled, out)
      ensures row.status == PushOutbox.RetryWait ==>
        row.nextAttemptAt == at + 1000 * if !old(lost) && out.event.Eligible? && Wrote(out, seen) then LongWait(out, seen, attempts) else Delay(attempts)
      ensures !old(lost) && out.event.Eligible? && StoresOnly(out, seen) ==> row.status != PushOutbox.Processing && row.pending == out.selected
    {
      settled, dispatched := {}, None;
      var threw := false;
      ghost var before := row.pending;
      if out.event.LookupFailed? {
        threw := true;
      } else if out.event.Ineligible? {
        var r := Issue(PushOutbox.Finish(at), out.last);
        threw := r.Raised?;
      } else {
        threw, settled, dispatched := Deliver(out, at);
      }
      if threw {
        Handle(before, dispatched, settled, out, at);
      }
      if row.status == PushOutbox.Delivered && !RecordsIneligible(out, old(lost)) {
        assert Listed(row.pending) == {};
        forall id | id in Live(dispatched, out.registered) ensures id in settled {
          assert id !in Live(dispatched, out.registered) - settled;
        }
      }
      if RecordsIneligible(out, old(lost)) {
        EmptyKeeps(before, out.registered);
      } else if row.status != PushOutbox.Processing && Agrees(seen, before, out.selected, out.registered) {
        AgreeingIsGood(seen, before, row.pending, settled, out);
      }
    }
  }

  /** The rows of a list that load. */
  function RowsIn(list: seq<Id>, out: Outside): seq<Pusher> {
    Loaded(out.registered, ToSet(list))
  }

  /** A work list is at hand: the snapshot's, or a selection that could be stored. */
  predicate HasList(out: Outside, seen: Option<seq<Id>>) {
    seen.Some? || (out.selected.Some? && out.stored.Goes?)
  }

  /** Who settles of a list: once deliveries are made, every id without a row and everybody finally answered. */
  function SettledOf(list: seq<Id>, out: Outside): set<Id> {
    if !out.loads || RowsIn(list, out) == [] then {}
    else (ToSet(list) - Ids(RowsIn(list, out))) + SettledBy(RowsIn(list, out), out.contentError, out.web, out.gateways)
  }

  function SettledIn(out: Outside, seen: Option<seq<Id>>, lost: bool): set<Id> {
    if HasList(out, seen) && (seen.None? ==> !lost) then SettledOf(WorkList(seen, out.selected).value, out) else {}
  }

  /** With this list the attempt comes to its last write. */
  predicate Reaches(list: seq<Id>, out: Outside) {
    || list == []
    || (out.loads && (RowsIn(list, out) == [] || StoppedBy(RowsIn(list, out), out.contentError, out.web, out.gateways).None?))
  }

  /** The attempt comes to its last write, which takes effect. */
  predicate Wrote(out: Outside, seen: Option<seq<Id>>) {
    HasList(out, seen) && Reaches(WorkList(seen, out.selected).value, out) && (out.last.Goes? || out.last.FailsAfterwards?)
  }

  /** The longest hint of a fan-out, or the doubling delay if that is longer. */
  function LongWait(out: Outside, seen: Option<seq<Id>>, attempts: nat): nat {
    if WorkList(seen, out.selected).None? then Delay(attempts)
    else Greater(WaitHint(RowsIn(WorkList(seen, out.selected).value, out), out.contentError, out.web, out.gateways), Delay(attempts))
  }

  /** The ineligible exit's write takes effect. */
  predicate RecordsIneligible(out: Outside, lost: bool) {
    out.event.Ineligible? && !lost && (out.last.Goes? || out.last.FailsAfterwards?)
  }

  /** The selection is stored, then loading fails, and the handler's write goes through. */
  predicate StoresOnly(out: Outside, seen: Option<seq<Id>>) {
    seen.None? && out.selected.Some? && out.selected.value != [] && out.stored.Goes? && !out.loads && out.handler.Goes?
  }

  lemma {:induction false} EmptyKeeps(before: Option<seq<Id>>, registered: seq<Pusher>)
    ensures Keeps(before, Some([]), {}, registered) <==> Live(before, registered) == {}
    ensures Shrinks(before, Some([]))
  {
    assert ToSet<Id>([]) == {};
    assert Live(before, registered) - {} == Live(before, registered);
  }

  /** With agreeing lists, an untouched list and the unsettled live ids of the work list both do. */
  lemma {:induction false} AgreeingIsGood(seen: Option<seq<Id>>, before: Option<seq<Id>>, after: Option<seq<Id>>, settled: set<Id>, out: Outside)
    requires Agrees(seen, before, out.selected, out.registered)
    requires ((after == before || (seen.None? && out.selected.Some? && after == out.selected)) && settled == {})
      || (WorkList(seen, out.selected).Some? && after.Some? && Listed(after) == Live(WorkList(seen, out.selected), out.registered) - settled)
    ensures Shrinks(before, after) && Keeps(before, after, settled, out.registered)
  {
  }

  /** Everybody is reached, with one answer for all calls. */
  function Smooth(selected: Option<seq<Id>>, registered: seq<Pusher>): Outside {
    Outside(Eligible, selected, Goes, registered, true, None, _ => Reached(Answered({}, 0, None)), _ => Reached(Answered({}, 0, None)), Goes, Goes)
  }

  /** Every delivery throws. */
  function Rough(selected: Option<seq<Id>>, registered: seq<Pusher>): Outside {
    Outside(Eligible, selected, Goes, registered, true, None, _ => Reached(Threw("unreachable")), _ => Reached(Threw("unreachable")), Goes, Goes)
  }

  /** Loading the pushers fails. */
  function Unloadable(selected: Option<seq<Id>>, registered: seq<Pusher>): Outside {
    Smooth(selected, registered).(loads := false)
  }

  /** A rough attempt settles nobody and comes to its end. */
  lemma {:induction false} RoughSettlesNobody(selected: Option<seq<Id>>, registered: seq<Pusher>, rows: seq<Pusher>)
    ensures var out := Rough(selected, registered);
      SettledBy(rows, out.contentError, out.web, out.gateways) == {} && StoppedBy(rows, out.contentError, out.web, out.gateways).None?
  {
  }

  lemma {:induction false} SmoothEnds(selected: Option<seq<Id>>, registered: seq<Pusher>, rows: seq<Pusher>)
    requires KeyedById(rows) && DistinctIds(rows)
    ensures var out := Smooth(selected, registered);
      SettledBy(rows, out.contentError, out.web, out.gateways) == Ids(rows) && StoppedBy(rows, out.contentError, out.web, out.gateways).None?
  {
    var out := Smooth(selected, registered);
    Partition(rows, out.contentError, out.web, out.gateways);
    assert RetriedBy(rows, out.contentError, out.web, out.gateways) == {};
  }

  /**
   * The other half of the condition: whenever the lists disagree, one of three eligible
   * attempts makes the stored list grow or drops a live unsettled id.
   */
  method DisagreementBreaks(seen: Option<seq<Id>>, before: Option<seq<Id>>, selected: Option<seq<Id>>, registered: seq<Pusher>)
    returns (out: Outside, after: PushOutbox.Job, settled: set<Id>)
    requires DistinctIds(registered) && !Agrees(seen, before, selected, registered)
    ensures out in [Smooth(selected, registered), Rough(selected, registered), Unloadable(selected, registered)]
    ensures after.status != PushOutbox.Processing
    ensures !Shrinks(before, after.pending) || !Keeps(before, after.pending, settled, registered)
  {
    var work := WorkList(seen, selected);
    if Live(before, registered) - Listed(work) != {} {
      out := Smooth(selected, registered);
      after, settled := SmoothDrops(seen, before, selected, registered);
    } else if seen.Some? {
      out := Rough(selected, registered);
      forall id | id in Live(before, registered) ensures id in Live(seen, registered) {
        assert id !in Live(before, registered) - Listed(work);
      }
      assert Live(seen, registered) - Listed(before) != {};
      after, settled := RoughGrows(seen, before, selected, registered);
    } else {
      out := Unloadable(selected, registered);
      assert Listed(selected) - Listed(before) != {};
      after, settled := UnloadableGrows(before, selected, registered);
    }
  }

  /** Everybody on the work list settles, and a live id that is not on it is dropped. */
  method SmoothDrops(seen: Option<seq<Id>>, before: Option<seq<Id>>, selected: Option<seq<Id>>, registered: seq<Pusher>)
    returns (after: PushOutbox.Job, settled: set<Id>)
    requires DistinctIds(registered) && WorkList(seen, selected).Some?
    requires Live(before, registered) - Listed(WorkList(seen, selected)) != {}
    ensures after.status != PushOutbox.Processing && !Keeps(before, after.pending, settled, registered)
  {
    var claimed := new Claimed(PushOutbox.Job(PushOutbox.Processing, Some(0), 0, before, 0, 0), 0, 0, seen);
    var work := WorkList(seen, selected);
    var out := Smooth(selected, registered);
    LoadedDistinct(registered, Listed(work));
    SmoothEnds(selected, registered, RowsIn(work.value, out));
    var dispatched;
    settled, dispatched := claimed.Process(out, 9);
    after := claimed.row;
    var id :| id in Live(before, registered) - Listed(work);
    assert id !in settled && id !in Listed(after.pending);
  }

  /** Everybody on the snapshot's list is retried, also one the row no longer has. */
  method RoughGrows(seen: Option<seq<Id>>, before: Option<seq<Id>>, selected: Option<seq<Id>>, registered: seq<Pusher>)
    returns (after: PushOutbox.Job, settled: set<Id>)
    requires DistinctIds(registered) && seen.Some? && before.Some? && Live(seen, registered) - Listed(before) != {}
    ensures after.status != PushOutbox.Processing && !Shrinks(before, after.pending)
  {
    var row := PushOutbox.Job(PushOutbox.Processing, Some(0), 0, before, 0, 0);
    after, settled := RoughRetriesAll(row, 0, 0, seen, selected, registered);
    var id :| id in Live(seen, registered) - Listed(before);
    assert id in Listed(after.pending);
  }

  /** When every delivery throws, all that load are pending afterwards. */
  method RoughRetriesAll(row: PushOutbox.Job, token: nat, attempts: nat, seen: Option<seq<Id>>, selected: Option<seq<Id>>, registered: seq<Pusher>)
    returns (after: PushOutbox.Job, settled: set<Id>)
    requires DistinctIds(registered) && WorkList(seen, selected).Some? && PushOutbox.HoldsLease(row, token)
    ensures after.status != PushOutbox.Processing && Listed(after.pending) == Live(WorkList(seen, selected), registered)
  {
    var claimed := new Claimed(row, token, attempts, seen);
    var work := WorkList(seen, selected).value;
    var out := Rough(selected, registered);
    LoadedDistinct(registered, ToSet(work));
    RoughSettlesNobody(selected, registered, RowsIn(work, out));
    var dispatched;
    settled, dispatched := claimed.Process(out, 9);
    after := claimed.row;
    assert SettledOf(work, out) * Live(Some(work), registered) == {};
  }

  /** The selection is stored over a shorter list, and the attempt ends there. */
  method UnloadableGrows(before: Option<seq<Id>>, selected: Option<seq<Id>>, registered: seq<Pusher>)
    returns (after: PushOutbox.Job, settled: set<Id>)
    requires DistinctIds(registered) && selected.Some? && before.Some? && Listed(selected) - Listed(before) != {}
    ensures after.status != PushOutbox.Processing && !Shrinks(before, after.pending)
  {
    var claimed := new Claimed(PushOutbox.Job(PushOutbox.Processing, Some(0), 0, before, 0, 0), 0, 0, None);
    var out := Unloadable(selected, registered);
    var id :| id in Listed(selected) - Listed(before);
    assert selected.value != [];
    var dispatched;
    settled, dispatched := claimed.Process(out, 9);
    after := claimed.row;
    assert id in Listed(after.pending);
  }

  /**
   * The job `PushOutbox.StaleListRun` ends in: the snapshot has no list, so the worker
   * selects and stores both pushers again although one has settled, and keeps both.
   */
  method StaleSelectionResends(id: Id, a: Id, b: Id) returns (before: PushOutbox.Job, after: PushOutbox.Job)
    requires a != b
    ensures before == PushOutbox.Job(PushOutbox.Processing, Some(1), 2, Some([b]), 7, 7)
    ensures var s := PushOutbox.Run(PushOutbox.EMPTY,
        [PushOutbox.Insert(id, 7), PushOutbox.SweepQueue({id}, 7), PushOutbox.Read(0, id, 7), PushOutbox.Read(1, id, 7), PushOutbox.Claim(1, 7),
         PushOutbox.Write(1, PushOutbox.StorePending([a, b], 7)), PushOutbox.Write(1, PushOutbox.GiveUp(Some([b]), 30007, 7)),
         PushOutbox.Recover(id, 7), PushOutbox.SweepQueue({id}, 7), PushOutbox.Claim(0, 7)]);
      PushOutbox.LocalOf(s, 0) == PushOutbox.Leased(id, 1, 0, None) && id in s.jobs && s.jobs[id] == before
    ensures after.status != PushOutbox.Processing && Listed(after.pending) == {a, b}
  {
    PushOutbox.StaleListRun(id, a, b);
    before := PushOutbox.Job(PushOutbox.Processing, Some(1), 2, Some([b]), 7, 7);
    var registered := [Pusher(a, false, "gateway", "full"), Pusher(b, false, "gateway", "full")];
    assert Live(Some([a, b]), registered) == {a, b} by {
      assert registered[0] in registered && registered[1] in registered;
    }
    var settled;
    after, settled := RoughRetriesAll(before, 1, 0, None, Some([a, b]), registered);
  }

  /** A concrete drop: one registered pusher pending, the notification no longer eligible. */
  method IneligibleExitDropsPending() returns (before: seq<Id>, after: PushOutbox.Job, settled: set<Id>)
    ensures before == [Id("phone")] && settled == {}
    ensures after.status == PushOutbox.Delivered && after.pending == Some([])
  {
    before := [Id("phone")];
    var phone := Pusher(Id("phone"), false, "gateway", "full");
    var out := Smooth(None, [phone]).(event := Ineligible);
    var claimed := new Claimed(PushOutbox.Job(PushOutbox.Processing, Some(0), 0, Some(before), 0, 0), 0, 0, Some(before));
    var dispatched;
    settled, dispatched := claimed.Process(out, 9);
    after := claimed.row;
  }
}
