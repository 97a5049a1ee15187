/**
 * The fan-out of one claimed push job (`processNotificationPushJob`): web pushers
 * one by one, then one call per gateway and format, with a lease heartbeat before
 * each call and an exception possible at every await.
 *
 * A delivery is an arbitrary answer naming some of the ids it was given for retry.
 */
module PushFanOut {
  import opened Wrappers
  import opened FiniteSets

  datatype Pusher = Pusher(id: Id, web: bool, gateway: string, format: string)

  datatype Outcome =
    | Answered(retry: set<Id>, retryAfter: nat, error: Option<string>)
    | Threw(message: string)

  /** What one heartbeat plus delivery does: the lease is gone, the database fails, or a result comes back. */
  datatype Reply = LeaseLost | DatabaseError | Reached(outcome: Outcome)

  /** How the fan-out ends: the lease is gone, everything settled, some ids are left, or an exception. */
  datatype Exit = Stopped | Finished | Retrying(ids: seq<Id>) | Aborted

  /** Every delivery reaches everybody. */
  ghost predicate AllAnswer(script: nat -> Reply) {
    forall k: nat :: script(k) == Reached(Answered({}, 0, None))
  }

  /** Every delivery throws. */
  ghost predicate AllThrow(script: nat -> Reply) {
    forall k: nat :: script(k).Reached? && script(k).outcome.Threw?
  }

  function Ids(pushers: seq<Pusher>): set<Id> {
    set p | p in pushers :: p.id
  }

  function IdList(pushers: seq<Pusher>): (ids: seq<Id>)
    ensures forall id :: id in ids <==> id in Ids(pushers)
  {
    if pushers == [] then []
    else
      assert pushers == [pushers[0]] + pushers[1..];
      [pushers[0].id] + IdList(pushers[1..])
  }

  /** The row id is the primary key. */
  ghost predicate KeyedById(pushers: seq<Pusher>) {
    forall p <- pushers, q <- pushers :: p.id == q.id ==> p == q
  }

  function Filter(ids: seq<Id>, keep: set<Id>): (r: seq<Id>)
    ensures forall id :: id in r <==> id in ids && id in keep
  {
    if ids == [] then []
    else
      assert ids == [ids[0]] + ids[1..];
      (if ids[0] in keep then [ids[0]] else []) + Filter(ids[1..], keep)
  }

  // ---- grouping ----

  datatype Group = Group(gateway: string, format: string, pushers: seq<Pusher>)

  /** The rows of one gateway and format, in row order. */
  function Members(pushers: seq<Pusher>, gateway: string, format: string): (r: seq<Pusher>)
    ensures forall p :: p in r <==> p in pushers && p.gateway == gateway && p.format == format
  {
    if pushers == [] then []
    else
      var last := pushers[|pushers| - 1];
      assert pushers == pushers[..|pushers| - 1] + [last];
      Members(pushers[..|pushers| - 1], gateway, format) + (if last.gateway == gateway && last.format == format then [last] else [])
  }

  ghost predicate DistinctKeys(groups: seq<Group>) {
    forall i, j | 0 <= i < j < |groups| :: groups[i].gateway != groups[j].gateway || groups[i].format != groups[j].format
  }

  ghost predicate HasGroup(groups: seq<Group>, p: Pusher) {
    exists g <- groups :: g.gateway == p.gateway && g.format == p.format
  }

  /** The grouping of a list of rows: distinct keys, each group exactly its rows, a group for every row. */
  ghost predicate Groups(groups: seq<Group>, pushers: seq<Pusher>) {
    && DistinctKeys(groups)
    && (forall g <- groups :: g.pushers == Members(pushers, g.gateway, g.format) && g.pushers != [])
    && (forall p <- pushers :: HasGroup(groups, p))
  }

  predicate SameKey(g: Group, row: Pusher) {
    g.gateway == row.gateway && g.format == row.format
  }

  /** A row joins the group of its key, or opens one behind the others. */
  function AddTo(groups: seq<Group>, row: Pusher): seq<Group> {
    if groups == [] then [Group(row.gateway, row.format, [row])]
    else if SameKey(groups[0], row) then [groups[0].(pushers := groups[0].pushers + [row])] + groups[1..]
    else [groups[0]] + AddTo(groups[1..], row)
  }

  /** The groups in the order in which their keys first occur. */
  function GroupsOf(rows: seq<Pusher>): seq<Group> {
    if rows == [] then [] else AddTo(GroupsOf(rows[..|rows| - 1]), rows[|rows| - 1])
  }

  lemma {:induction false} AddToAt(groups: seq<Group>, row: Pusher, k: nat)
    requires k <= |groups| && forall j | 0 <= j < k :: !SameKey(groups[j], row)
    requires k < |groups| ==> SameKey(groups[k], row)
    ensures AddTo(groups, row) ==
      if k < |groups| then groups[k := groups[k].(pushers := groups[k].pushers + [row])]
      else groups + [Group(row.gateway, row.format, [row])]
  {
    if k > 0 {
      AddToAt(groups[1..], row, k - 1);
      assert groups == [groups[0]] + groups[1..];
    }
  }

  /** Put one more row into the group of its key, creating the group if there is none. */
  method AddRow(groups: seq<Group>, ghost done: seq<Pusher>, row: Pusher) returns (r: seq<Group>)
    requires Groups(groups, done)
    ensures Groups(r, done + [row]) && r == AddTo(groups, row)
  {
    var k := 0;
    while k < |groups| && !SameKey(groups[k], row)
      invariant 0 <= k <= |groups|
      invariant forall j | 0 <= j < k :: !SameKey(groups[j], row)
    {
      k := k + 1;
    }
    AddToAt(groups, row, k);
    if k == |groups| {
      OpenGroup(groups, done, row);
      r := groups + [Group(row.gateway, row.format, [row])];
    } else {
      JoinGroup(groups, done, row, k);
      r := groups[k := groups[k].(pushers := groups[k].pushers + [row])];
    }
  }

  lemma {:induction false} MembersNext(done: seq<Pusher>, row: Pusher, gateway: string, format: string)
    ensures Members(done + [row], gateway, format) == Members(done, gateway, format) + (if row.gateway == gateway && row.format == format then [row] else [])
  {
    assert (done + [row])[..|done|] == done;
  }

  lemma {:induction false} OpenGroup(groups: seq<Group>, done: seq<Pusher>, row: Pusher)
    requires Groups(groups, done) && forall j | 0 <= j < |groups| :: !SameKey(groups[j], row)
    ensures Groups(groups + [Group(row.gateway, row.format, [row])], done + [row])
  {
    var another := Group(row.gateway, row.format, [row]);
    var r := groups + [another];
    assert Members(done, row.gateway, row.format) == [] by { MembersHaveGroup(done, groups, row); }
    forall g | g in r ensures g.pushers == Members(done + [row], g.gateway, g.format) && g.pushers != [] {
      MembersNext(done, row, g.gateway, g.format);
    }
    forall p | p in done + [row] ensures HasGroup(r, p) {
      OpenedCovers(groups, done, row, p);
    }
  }

  lemma {:induction false} OpenedCovers(groups: seq<Group>, done: seq<Pusher>, row: Pusher, p: Pusher)
    requires (forall q <- done :: HasGroup(groups, q)) && p in done + [row]
    ensures HasGroup(groups + [Group(row.gateway, row.format, [row])], p)
  {
    var another := Group(row.gateway, row.format, [row]);
    if p in done {
      assert HasGroup(groups, p);
      var g :| g in groups && g.gateway == p.gateway && g.format == p.format;
      assert g in groups + [another];
    } else {
      assert another in groups + [another];
    }
  }

  lemma {:induction false} JoinGroup(groups: seq<Group>, done: seq<Pusher>, row: Pusher, k: nat)
    requires Groups(groups, done) && k < |groups| && SameKey(groups[k], row)
    ensures Groups(groups[k := groups[k].(pushers := groups[k].pushers + [row])], done + [row])
  {
    var r := groups[k := groups[k].(pushers := groups[k].pushers + [row])];
    forall g | g in r ensures g.pushers == Members(done + [row], g.gateway, g.format) && g.pushers != [] {
      var j :| 0 <= j < |r| && r[j] == g;
      assert groups[j] in groups;
      MembersNext(done, row, g.gateway, g.format);
    }
    forall p | p in done + [row] ensures HasGroup(r, p) {
      if p in done {
        assert HasGroup(groups, p);
        var g :| g in groups && g.gateway == p.gateway && g.format == p.format;
        var j :| 0 <= j < |groups| && groups[j] == g;
        assert r[j] in r;
      } else {
        assert r[k] in r;
      }
    }
  }

  method GroupByGatewayAndFormat(pushers: seq<Pusher>) returns (groups: seq<Group>)
    ensures Groups(groups, pushers) && groups == GroupsOf(pushers)
  {
    groups := [];
    for i := 0 to |pushers|
      invariant Groups(groups, pushers[..i]) && groups == GroupsOf(pushers[..i])
    {
      assert pushers[..i + 1] == pushers[..i] + [pushers[i]];
      assert pushers[..i + 1][..i] == pushers[..i];
      groups := AddRow(groups, pushers[..i], pushers[i]);
    }
    assert pushers[..|pushers|] == pushers;
  }

  /** A key with rows has a group. */
  lemma {:induction false} MembersHaveGroup(pushers: seq<Pusher>, groups: seq<Group>, row: Pusher)
    requires forall p <- pushers :: HasGroup(groups, p)
    ensures Members(pushers, row.gateway, row.format) != [] ==> HasGroup(groups, row)
  {
    var m := Members(pushers, row.gateway, row.format);
    if m != [] {
      assert HasGroup(groups, m[0]);
    }
  }

  /** The rows that are not web pushers. */
  function GatewayRows(pushers: seq<Pusher>): (r: seq<Pusher>)
    ensures forall p :: p in r <==> p in pushers && !p.web
  {
    if pushers == [] then []
    else
      assert pushers == [pushers[0]] + pushers[1..];
      (if pushers[0].web then [] else [pushers[0]]) + GatewayRows(pushers[1..])
  }

  function WebRows(pushers: seq<Pusher>): (r: seq<Pusher>)
    ensures forall p :: p in r <==> p in pushers && p.web
  {
    if pushers == [] then []
    else
      assert pushers == [pushers[0]] + pushers[1..];
      (if pushers[0].web then [pushers[0]] else []) + WebRows(pushers[1..])
  }

  // ---- what the replies decide ----

  /** How many calls are made before the lease is gone or the database fails; all of them if neither happens. */
  function Calls(script: nat -> Reply, n: nat): (k: nat)
    ensures k <= n && (forall j | 0 <= j < k :: script(j).Reached?) && (k < n ==> !script(k).Reached?)
  {
    CallsFrom(script, 0, n)
  }

  function CallsFrom(script: nat -> Reply, done: nat, n: nat): (k: nat)
    requires done <= n && forall j | 0 <= j < done :: script(j).Reached?
    ensures k <= n && (forall j | 0 <= j < k :: script(j).Reached?) && (k < n ==> !script(k).Reached?)
    decreases n - done
  {
    if done == n || !script(done).Reached? then done else CallsFrom(script, done + 1, n)
  }

  /** The reply is a final answer for this id. */
  predicate Settles(reply: Reply, id: Id) {
    reply.Reached? && reply.outcome.Answered? && id !in reply.outcome.retry
  }

  /** The ids of each web call, and of each gateway call. */
  function WebIds(web: seq<Pusher>): seq<set<Id>> {
    seq(|web|, i requires 0 <= i < |web| => {web[i].id})
  }

  function GroupIds(groups: seq<Group>): seq<set<Id>> {
    seq(|groups|, k requires 0 <= k < |groups| => Ids(groups[k].pushers))
  }

  /** The ids with a final answer among the first `n` calls, and those without. */
  function Settled(calls: seq<set<Id>>, script: nat -> Reply, n: nat): set<Id>
    requires n <= |calls|
  {
    set k, id | 0 <= k < n && id in calls[k] && Settles(script(k), id) :: id
  }

  function Retried(calls: seq<set<Id>>, script: nat -> Reply, n: nat): set<Id>
    requires n <= |calls|
  {
    set k, id | 0 <= k < n && id in calls[k] && !Settles(script(k), id) :: id
  }

  /** The longest wait among the first `n` answers. */
  function Hint(script: nat -> Reply, n: nat): nat {
    if n == 0 then 0
    else
      var rest := Hint(script, n - 1);
      if script(n - 1).Reached? then Greater(rest, Wait(script(n - 1).outcome)) else rest
  }

  function Wait(outcome: Outcome): nat {
    if outcome.Answered? then outcome.retryAfter else 0
  }

  function Greater(a: nat, b: nat): nat {
    if a >= b then a else b
  }

  /** No answer asks for longer than the hint, and some answer asks for it unless it is 0. */
  lemma {:induction false} HintIsLongest(script: nat -> Reply, n: nat)
    ensures forall j | 0 <= j < n :: script(j).Reached? && script(j).outcome.Answered? ==> script(j).outcome.retryAfter <= Hint(script, n)
    ensures Hint(script, n) == 0
      || exists j :: 0 <= j < n && script(j).Reached? && script(j).outcome.Answered? && script(j).outcome.retryAfter == Hint(script, n)
  {
    if n > 0 {
      HintIsLongest(script, n - 1);
    }
  }

  ghost predicate Disjoint(calls: seq<set<Id>>) {
    forall i, j | 0 <= i < j < |calls| :: calls[i] !! calls[j]
  }

  /** Where no id is in two calls, each id's own reply decides. */
  lemma {:induction false} OwnReplyDecides(calls: seq<set<Id>>, script: nat -> Reply, n: nat, k: nat, id: Id)
    requires Disjoint(calls) && n <= |calls| && k < |calls| && id in calls[k]
    ensures id in Settled(calls, script, n) <==> k < n && Settles(script(k), id)
    ensures id in Retried(calls, script, n) <==> k < n && !Settles(script(k), id)
  {
    assert forall j | 0 <= j < |calls| && id in calls[j] :: j == k;
  }

  /** The ids of one call for which its outcome is final, and the others. */
  function FinalFor(ids: seq<Id>, outcome: Outcome): set<Id> {
    set id | id in ids && Settles(Reached(outcome), id)
  }

  function OpenFor(ids: seq<Id>, outcome: Outcome): set<Id> {
    set id | id in ids && !Settles(Reached(outcome), id)
  }

  lemma {:induction false} SettledNext(calls: seq<set<Id>>, script: nat -> Reply, i: nat, ids: seq<Id>, settled: set<Id>, retried: set<Id>)
    requires i < |calls| && script(i).Reached? && forall id :: id in ids <==> id in calls[i]
    ensures settled + Settled(calls, script, i) + FinalFor(ids, script(i).outcome) == settled + Settled(calls, script, i + 1)
    ensures retried + Retried(calls, script, i) + OpenFor(ids, script(i).outcome) == retried + Retried(calls, script, i + 1)
  {
    assert Settled(calls, script, i + 1) == Settled(calls, script, i) + FinalFor(ids, script(i).outcome);
    assert Retried(calls, script, i + 1) == Retried(calls, script, i) + OpenFor(ids, script(i).outcome);
  }

  // ---- a whole fan-out ----

  function WebCallsOf(pushers: seq<Pusher>): seq<set<Id>> {
    WebIds(WebRows(pushers))
  }

  function GroupCallsOf(pushers: seq<Pusher>): seq<set<Id>> {
    GroupIds(GroupsOf(GatewayRows(pushers)))
  }

  /** Web calls made; none if the content could not be built. */
  function WebCount(pushers: seq<Pusher>, contentError: Option<string>, web: nat -> Reply): (n: nat)
    ensures n <= |WebCallsOf(pushers)|
  {
    if contentError.Some? then 0 else Calls(web, |WebCallsOf(pushers)|)
  }

  /** Whether the web part is done: every row called, or none because of the content. */
  predicate WebDone(pushers: seq<Pusher>, contentError: Option<string>, web: nat -> Reply) {
    contentError.Some? || WebCount(pushers, contentError, web) == |WebCallsOf(pushers)|
  }

  function GroupCount(pushers: seq<Pusher>, contentError: Option<string>, web: nat -> Reply, gateways: nat -> Reply): (n: nat)
    ensures n <= |GroupCallsOf(pushers)|
  {
    if WebDone(pushers, contentError, web) then Calls(gateways, |GroupCallsOf(pushers)|) else 0
  }

  /** The reply that cuts the fan-out short, if one does. */
  function StoppedBy(pushers: seq<Pusher>, contentError: Option<string>, web: nat -> Reply, gateways: nat -> Reply): Option<Reply> {
    if !WebDone(pushers, contentError, web) then Some(web(WebCount(pushers, contentError, web)))
    else
      var n := GroupCount(pushers, contentError, web, gateways);
      if n < |GroupCallsOf(pushers)| then Some(gateways(n)) else None
  }

  /** Who has a final answer when the fan-out ends, and who is to be retried. */
  function SettledBy(pushers: seq<Pusher>, contentError: Option<string>, web: nat -> Reply, gateways: nat -> Reply): set<Id> {
    Settled(WebCallsOf(pushers), web, WebCount(pushers, contentError, web))
    + Settled(GroupCallsOf(pushers), gateways, GroupCount(pushers, contentError, web, gateways))
  }

  function RetriedBy(pushers: seq<Pusher>, contentError: Option<string>, web: nat -> Reply, gateways: nat -> Reply): set<Id> {
    (if contentError.Some? then Ids(WebRows(pushers)) else Retried(WebCallsOf(pushers), web, WebCount(pushers, contentError, web)))
    + Retried(GroupCallsOf(pushers), gateways, GroupCount(pushers, contentError, web, gateways))
  }

  /** The longest wait any answer of a whole fan-out asks for. */
  function WaitHint(pushers: seq<Pusher>, contentError: Option<string>, web: nat -> Reply, gateways: nat -> Reply): nat {
    Greater(Hint(web, WebCount(pushers, contentError, web)), Hint(gateways, GroupCount(pushers, contentError, web, gateways)))
  }

  ghost predicate DistinctIds(pushers: seq<Pusher>) {
    forall i, j | 0 <= i < j < |pushers| :: pushers[i].id != pushers[j].id
  }

  /** No id is in two calls. */
  lemma {:induction false} CallsAreDisjoint(pushers: seq<Pusher>)
    requires KeyedById(pushers) && DistinctIds(pushers)
    ensures Disjoint(WebCallsOf(pushers)) && Disjoint(GroupCallsOf(pushers))
    ensures forall i, k | 0 <= i < |WebCallsOf(pushers)| && 0 <= k < |GroupCallsOf(pushers)| :: WebCallsOf(pushers)[i] !! GroupCallsOf(pushers)[k]
  {
    var rows, groups := WebRows(pushers), GroupsOf(GatewayRows(pushers));
    WebRowsDistinct(pushers);
    GroupsOfGroups(GatewayRows(pushers));
    GroupsAreDisjoint(pushers, GatewayRows(pushers), groups);
    forall i, k | 0 <= i < |rows| && 0 <= k < |groups| ensures rows[i].id !in Ids(groups[k].pushers) {
      assert groups[k] in groups && rows[i] in rows;
      WebAndGatewayDisjoint(pushers, groups[k]);
    }
  }

  /** Every row is in a call, and no call has another id. */
  lemma {:induction false} CallsCover(pushers: seq<Pusher>)
    requires KeyedById(pushers)
    ensures forall p <- pushers :: InSome(WebCallsOf(pushers), p.id) || InSome(GroupCallsOf(pushers), p.id)
    ensures forall id | id in Ids(WebRows(pushers)) :: InSome(WebCallsOf(pushers), id)
    ensures forall i | 0 <= i < |WebCallsOf(pushers)| :: WebCallsOf(pushers)[i] <= Ids(pushers)
    ensures forall k | 0 <= k < |GroupCallsOf(pushers)| :: GroupCallsOf(pushers)[k] <= Ids(pushers)
  {
    WebCover(WebRows(pushers));
    GroupCover(pushers);
    forall i | 0 <= i < |WebRows(pushers)| ensures WebRows(pushers)[i].id in Ids(pushers) {
      assert WebRows(pushers)[i] in WebRows(pushers);
    }
    forall p | p in pushers ensures InSome(WebCallsOf(pushers), p.id) || InSome(GroupCallsOf(pushers), p.id) {
      if p.web {
        assert p in WebRows(pushers);
      } else {
        assert p in GatewayRows(pushers);
      }
    }
  }

  ghost predicate InSome(calls: seq<set<Id>>, id: Id) {
    exists k :: 0 <= k < |calls| && id in calls[k]
  }

  lemma {:induction false} WebCover(rows: seq<Pusher>)
    ensures forall p <- rows :: InSome(WebIds(rows), p.id)
  {
    forall p | p in rows ensures InSome(WebIds(rows), p.id) {
      var i :| 0 <= i < |rows| && rows[i] == p;
      assert p.id in WebIds(rows)[i];
    }
  }

  lemma {:induction false} GroupCover(pushers: seq<Pusher>)
    requires KeyedById(pushers)
    ensures forall p <- GatewayRows(pushers) :: InSome(GroupCallsOf(pushers), p.id)
    ensures forall k | 0 <= k < |GroupCallsOf(pushers)| :: GroupCallsOf(pushers)[k] <= Ids(pushers)
  {
    var groups := GroupsOf(GatewayRows(pushers));
    GroupsOfGroups(GatewayRows(pushers));
    GroupsAreDisjoint(pushers, GatewayRows(pushers), groups);
    forall k | 0 <= k < |groups| ensures GroupCallsOf(pushers)[k] <= Ids(pushers) {
      assert groups[k] in groups;
    }
    forall p | p in GatewayRows(pushers) ensures InSome(GroupCallsOf(pushers), p.id) {
      assert HasGroup(groups, p);
      var g :| g in groups && g.gateway == p.gateway && g.format == p.format;
      var k :| 0 <= k < |groups| && groups[k] == g;
      assert p in g.pushers && p.id in GroupCallsOf(pushers)[k];
    }
  }

  /**
   * Row by row: a web row settles exactly when the content could be built, its call and
   * all before it got through, and its own answer does not name it for retry; a row of a
   * group exactly when the web part is done and its group's own call does the same.
   */
  lemma {:induction false} RepliesDecide(pushers: seq<Pusher>, contentError: Option<string>, web: nat -> Reply, gateways: nat -> Reply, k: nat, id: Id)
    requires KeyedById(pushers) && DistinctIds(pushers)
    ensures k < |WebRows(pushers)| && id == WebRows(pushers)[k].id ==>
      (id in SettledBy(pushers, contentError, web, gateways) <==>
        && contentError.None? && (forall j | 0 <= j <= k :: web(j).Reached?)
        && web(k).outcome.Answered? && id !in web(k).outcome.retry)
    ensures var groups := GroupsOf(GatewayRows(pushers));
      k < |groups| && id in Ids(groups[k].pushers) ==>
      (id in SettledBy(pushers, contentError, web, gateways) <==>
        && (contentError.Some? || forall j | 0 <= j < |WebRows(pushers)| :: web(j).Reached?)
        && (forall j | 0 <= j <= k :: gateways(j).Reached?)
        && gateways(k).outcome.Answered? && id !in gateways(k).outcome.retry)
  {
    var a, b := WebCallsOf(pushers), GroupCallsOf(pushers);
    CallsAreDisjoint(pushers);
    if k < |a| && id in a[k] {
      OwnReplyDecides(a, web, WebCount(pushers, contentError, web), k, id);
      NotInOthers(b, gateways, GroupCount(pushers, contentError, web, gateways), id);
    }
    if k < |b| && id in b[k] {
      OwnReplyDecides(b, gateways, GroupCount(pushers, contentError, web, gateways), k, id);
      NotInOthers(a, web, WebCount(pushers, contentError, web), id);
    }
  }

  /** When nothing cuts it short, everyone is settled or retried, and nobody both. */
  lemma {:induction false} Partition(pushers: seq<Pusher>, contentError: Option<string>, web: nat -> Reply, gateways: nat -> Reply)
    requires KeyedById(pushers) && DistinctIds(pushers)
    ensures var s, r := SettledBy(pushers, contentError, web, gateways), RetriedBy(pushers, contentError, web, gateways);
      s !! r && s + r <= Ids(pushers)
    ensures StoppedBy(pushers, contentError, web, gateways).None? ==>
      SettledBy(pushers, contentError, web, gateways) + RetriedBy(pushers, contentError, web, gateways) == Ids(pushers)
  {
    var n, m := WebCount(pushers, contentError, web), GroupCount(pushers, contentError, web, gateways);
    CallsAreDisjoint(pushers);
    CallsCover(pushers);
    forall id | id in Ids(pushers)
      ensures !(id in SettledBy(pushers, contentError, web, gateways) && id in RetriedBy(pushers, contentError, web, gateways))
      ensures StoppedBy(pushers, contentError, web, gateways).None? ==>
        id in SettledBy(pushers, contentError, web, gateways) || id in RetriedBy(pushers, contentError, web, gateways)
    {
      PartitionAt(pushers, contentError, web, gateways, id);
    }
    InCalls(WebCallsOf(pushers), web, n, Ids(pushers));
    InCalls(GroupCallsOf(pushers), gateways, m, Ids(pushers));
  }

  lemma {:induction false} InCalls(calls: seq<set<Id>>, script: nat -> Reply, n: nat, all: set<Id>)
    requires n <= |calls| && forall k | 0 <= k < |calls| :: calls[k] <= all
    ensures Settled(calls, script, n) <= all && Retried(calls, script, n) <= all
  {
  }

  lemma {:induction false} PartitionAt(pushers: seq<Pusher>, contentError: Option<string>, web: nat -> Reply, gateways: nat -> Reply, id: Id)
    requires KeyedById(pushers) && DistinctIds(pushers) && id in Ids(pushers)
    ensures !(id in SettledBy(pushers, contentError, web, gateways) && id in RetriedBy(pushers, contentError, web, gateways))
    ensures StoppedBy(pushers, contentError, web, gateways).None? ==>
      id in SettledBy(pushers, contentError, web, gateways) || id in RetriedBy(pushers, contentError, web, gateways)
  {
    var a, b := WebCallsOf(pushers), GroupCallsOf(pushers);
    var n, m := WebCount(pushers, contentError, web), GroupCount(pushers, contentError, web, gateways);
    CallsAreDisjoint(pushers);
    if i :| 0 <= i < |a| && id in a[i] {
      OwnReplyDecides(a, web, n, i, id);
      NotInOthers(b, gateways, m, id);
    } else {
      var k := InGroupCall(pushers, id);
      OwnReplyDecides(b, gateways, m, k, id);
      NotInOthers(a, web, n, id);
    }
  }

  lemma {:induction false} InGroupCall(pushers: seq<Pusher>, id: Id) returns (k: nat)
    requires KeyedById(pushers) && id in Ids(pushers) && forall i | 0 <= i < |WebCallsOf(pushers)| :: id !in WebCallsOf(pushers)[i]
    ensures k < |GroupCallsOf(pushers)| && id in GroupCallsOf(pushers)[k] && id !in Ids(WebRows(pushers))
  {
    CallsCover(pushers);
    var p :| p in pushers && p.id == id;
    assert !InSome(WebCallsOf(pushers), id);
    assert InSome(GroupCallsOf(pushers), p.id);
    k :| 0 <= k < |GroupCallsOf(pushers)| && id in GroupCallsOf(pushers)[k];
  }

  lemma {:induction false} NotInOthers(calls: seq<set<Id>>, script: nat -> Reply, n: nat, id: Id)
    requires n <= |calls| && forall k | 0 <= k < |calls| :: id !in calls[k]
    ensures id !in Settled(calls, script, n) && id !in Retried(calls, script, n)
  {
  }

  /** With the ids whose row no longer loads settled too, the two sets partition the pending ids. */
  lemma {:induction false} NobodyForgotten(pending: set<Id>, pushers: seq<Pusher>, contentError: Option<string>, web: nat -> Reply, gateways: nat -> Reply)
    requires KeyedById(pushers) && DistinctIds(pushers) && Ids(pushers) <= pending
    ensures StoppedBy(pushers, contentError, web, gateways).None? ==>
      var s, r := (pending - Ids(pushers)) + SettledBy(pushers, contentError, web, gateways), RetriedBy(pushers, contentError, web, gateways);
      s !! r && s + r == pending
  {
    Partition(pushers, contentError, web, gateways);
  }

  // ---- the attempt ----

  class Attempt {
    var settled: set<Id>
    var retry: seq<Id>
    var retryAfter: nat
    var errors: seq<string>

    constructor ()
      ensures settled == {} && retry == [] && retryAfter == 0 && errors == []
    {
      settled, retry, retryAfter, errors := {}, [], 0, [];
    }

    /** The `record` closure: the ids of one call settle, but for those its outcome names for retry. */
    method Record(ids: seq<Id>, outcome: Outcome)
      modifies this
      ensures settled == old(settled) + FinalFor(ids, outcome)
      ensures ToSet(retry) == ToSet(old(retry)) + OpenFor(ids, outcome)
      ensures retryAfter == Greater(old(retryAfter), Wait(outcome))
      ensures errors == old(errors) + if outcome.Threw? then [outcome.message] else if outcome.error.Some? then [outcome.error.value] else []
    {
      var again := if outcome.Threw? then ids else Filter(ids, outcome.retry);
      settled := settled + (ToSet(ids) - ToSet(again));
      assert forall id :: id in retry + again <==> id in retry || id in again;
      retry := retry + again;
      match outcome
      case Answered(_, after, error) =>
        retryAfter := if after > retryAfter then after else retryAfter;
        if error.Some? {
          errors := errors + [error.value];
        }
      case Threw(message) => errors := errors + [message];
    }

    /**
     * The web loop; a failed content build retries all web rows at once. Each row's own
     * reply decides whether it settles or is retried. `stop` is an early exit.
     */
    method DeliverWeb(web: seq<Pusher>, contentError: Option<string>, script: nat -> Reply) returns (stop: Option<Reply>)
      modifies this
      ensures contentError.None? ==>
        var n := Calls(script, |web|);
        && settled == old(settled) + Settled(WebIds(web), script, n)
        && ToSet(retry) == ToSet(old(retry)) + Retried(WebIds(web), script, n)
        && retryAfter == Greater(old(retryAfter), Hint(script, n))
        && stop == if n < |web| then Some(script(n)) else None
      ensures contentError.Some? ==>
        stop.None? && settled == old(settled) && ToSet(retry) == ToSet(old(retry)) + Ids(web) && retryAfter == old(retryAfter)
    {
      stop := None;
      if contentError.Some? {
        var ids := IdList(web);
        assert forall id :: id in ids <==> id in Ids(web);
        Record(ids, Threw(contentError.value));
        assert FinalFor(ids, Threw(contentError.value)) == {} && OpenFor(ids, Threw(contentError.value)) == Ids(web);
        return;
      }
      for i := 0 to |web|
        invariant i <= Calls(script, |web|)
        invariant settled == old(settled) + Settled(WebIds(web), script, i)
        invariant ToSet(retry) == ToSet(old(retry)) + Retried(WebIds(web), script, i)
        invariant retryAfter == Greater(old(retryAfter), Hint(script, i))
      {
        var reply := script(i);
        if !reply.Reached? {
          stop := Some(reply);
          return;
        }
        SettledNext(WebIds(web), script, i, [web[i].id], old(settled), ToSet(old(retry)));
        Record([web[i].id], reply.outcome);
      }
    }

    /** The gateway loop: one call per group, whose reply decides for its rows. */
    method DeliverGateways(groups: seq<Group>, script: nat -> Reply) returns (stop: Option<Reply>)
      modifies this
      ensures var n := Calls(script, |groups|);
        && settled == old(settled) + Settled(GroupIds(groups), script, n)
        && ToSet(retry) == ToSet(old(retry)) + Retried(GroupIds(groups), script, n)
        && retryAfter == Greater(old(retryAfter), Hint(script, n))
        && stop == if n < |groups| then Some(script(n)) else None
    {
      stop := None;
      for i := 0 to |groups|
        invariant i <= Calls(script, |groups|)
        invariant settled == old(settled) + Settled(GroupIds(groups), script, i)
        invariant ToSet(retry) == ToSet(old(retry)) + Retried(GroupIds(groups), script, i)
        invariant retryAfter == Greater(old(retryAfter), Hint(script, i))
      {
        var reply := script(i);
        if !reply.Reached? {
          stop := Some(reply);
          return;
        }
        var ids := IdList(groups[i].pushers);
        SettledNext(GroupIds(groups), script, i, ids, old(settled), ToSet(old(retry)));
        Record(ids, reply.outcome);
      }
    }

    /** Mark pending ids whose row no longer loads as settled. */
    method SettleMissing(pendingIds: seq<Id>, loaded: set<Id>)
      modifies this
      ensures settled == old(settled) + (ToSet(pendingIds) - loaded)
      ensures retry == old(retry) && retryAfter == old(retryAfter)
    {
      for i := 0 to |pendingIds|
        invariant settled == old(settled) + (ToSet(pendingIds[..i]) - loaded)
        invariant retry == old(retry) && retryAfter == old(retryAfter)
      {
        assert pendingIds[..i + 1] == pendingIds[..i] + [pendingIds[i]];
        if pendingIds[i] !in loaded {
          settled := settled + {pendingIds[i]};
        }
      }
      assert pendingIds[..|pendingIds|] == pendingIds;
    }

    /**
     * The whole fan-out over the list `pendingIds` and the rows that still load. The
     * replies decide how it ends, who has settled, who is retried and how long the
     * remotes ask to wait.
     */
    method Dispatch(pendingIds: seq<Id>, pushers: seq<Pusher>, contentError: Option<string>,
                    webScript: nat -> Reply, gatewayScript: nat -> Reply) returns (exit: Exit)
      requires settled == {} && retry == [] && retryAfter == 0
      requires KeyedById(pushers) && Ids(pushers) <= ToSet(pendingIds) && DistinctIds(pushers)
      modifies this
      ensures settled == (ToSet(pendingIds) - Ids(pushers)) + SettledBy(pushers, contentError, webScript, gatewayScript)
      ensures exit == Ending(StoppedBy(pushers, contentError, webScript, gatewayScript), retry)
      ensures StoppedBy(pushers, contentError, webScript, gatewayScript).None? ==>
        && ToSet(retry) == RetriedBy(pushers, contentError, webScript, gatewayScript)
        && retryAfter == WaitHint(pushers, contentError, webScript, gatewayScript)
      ensures exit.Finished? || exit.Retrying? ==> settled !! ToSet(retry) && settled + ToSet(retry) == ToSet(pendingIds)
    {
      SettleMissing(pendingIds, Ids(pushers));
      var stop := DeliverWeb(WebRows(pushers), contentError, webScript);
      if stop.None? {
        var groups := GroupByGatewayAndFormat(GatewayRows(pushers));
        stop := DeliverGateways(groups, gatewayScript);
      }
      exit := Ending(stop, retry);
      NobodyForgotten(ToSet(pendingIds), pushers, contentError, webScript, gatewayScript);
    }
  }

  /** The lease is gone, a database failure, nobody left, or some are. */
  function Ending(stop: Option<Reply>, retry: seq<Id>): Exit {
    if stop.Some? then (if stop.value.LeaseLost? then Stopped else Aborted)
    else if retry == [] then Finished else Retrying(retry)
  }

  lemma {:induction false} GroupsOfGroups(rows: seq<Pusher>)
    ensures Groups(GroupsOf(rows), rows)
  {
    if rows != [] {
      var n := |rows| - 1;
      GroupsOfGroups(rows[..n]);
      AddGroups(GroupsOf(rows[..n]), rows[..n], rows[n]);
      assert rows == rows[..n] + [rows[n]];
    }
  }

  lemma {:induction false} AddGroups(groups: seq<Group>, done: seq<Pusher>, row: Pusher)
    requires Groups(groups, done)
    ensures Groups(AddTo(groups, row), done + [row])
  {
    if k :| 0 <= k < |groups| && SameKey(groups[k], row) {
      AddToAt(groups, row, k);
      JoinGroup(groups, done, row, k);
    } else {
      AddToAt(groups, row, |groups|);
      OpenGroup(groups, done, row);
    }
  }

  lemma {:induction false} WebRowsDistinct(pushers: seq<Pusher>)
    requires DistinctIds(pushers)
    ensures DistinctIds(WebRows(pushers))
  {
    if pushers != [] {
      WebRowsDistinct(pushers[1..]);
      var rest := WebRows(pushers[1..]);
      forall j | 0 <= j < |rest| ensures rest[j].id != pushers[0].id {
        assert rest[j] in pushers[1..];
        var k :| 1 <= k < |pushers| && pushers[k] == rest[j];
        assert pushers[0].id != pushers[k].id;
      }
    }
  }

  /** A row belongs to the one group of its own gateway and format. */
  lemma {:induction false} GroupsAreDisjoint(pushers: seq<Pusher>, rows: seq<Pusher>, groups: seq<Group>)
    requires KeyedById(pushers) && Groups(groups, rows) && forall p <- rows :: p in pushers
    ensures forall i, j | 0 <= i < j < |groups| :: Ids(groups[i].pushers) !! Ids(groups[j].pushers)
    ensures forall g <- groups :: Ids(g.pushers) <= Ids(pushers)
  {
    forall i, j | 0 <= i < j < |groups| ensures Ids(groups[i].pushers) !! Ids(groups[j].pushers) {
      assert groups[i] in groups && groups[j] in groups;
      forall id | id in Ids(groups[i].pushers) ensures id !in Ids(groups[j].pushers) {
        var p :| p in groups[i].pushers && p.id == id;
        assert p !in groups[j].pushers;
        assert forall q <- groups[j].pushers :: q.id == id ==> q == p;
      }
    }
  }

  lemma {:induction false} WebAndGatewayDisjoint(pushers: seq<Pusher>, g: Group)
    requires KeyedById(pushers)
    requires forall p <- g.pushers :: p in pushers && !p.web
    ensures Ids(g.pushers) !! Ids(WebRows(pushers))
  {
    forall id | id in Ids(g.pushers) ensures id !in Ids(WebRows(pushers)) {
      var p :| p in g.pushers && p.id == id;
      assert forall q <- WebRows(pushers) :: q.id == id ==> q == p;
    }
  }
}
