/** Runs of the Master: every reachable state is consistent, and priority 0 is never overtaken. */
module MasterRuns {
  import opened Lists
  import opened MasterModel
  import opened MasterTheorems
  import opened AgingTheorems

  /** One handler that runs under both mutexes. `sent` tells whether its message could be sent, `sorted`
      what list_sort returned. */
  datatype MasterOp =
    | WorkerArrives(w: int)
    | QueryArrives(priority: nat, now: nat)
    | TryDispatch(sent: bool)
    | EvictArrives(w: int, q: int, pc: nat, now: nat)
    | EndArrives(w: int, q: int)
    | StorageErrorArrives(w: int)
    | ControlLeaves(q: int, sent: bool)
    | WorkerLeaves(w: int)
    | AgingTick(now: nat, sorted: seq<int>)
    | PreemptionCheck(sent: bool)

  /** What the Master can rely on: worker identifiers are distinct, a Query Control leaves once, a worker's
      messages name its current query (or, for EVICT, one that is not running), and list_sort sorts. */
  ghost predicate Expected(m: Master, op: MasterOp) {
    match op
    case WorkerArrives(w) => w !in m.workers
    case EvictArrives(w, q, _, _) => w in m.workers && (q in m.running ==> m.workers[w].query == q)
    case EndArrives(w, q) => w in m.workers && if q in m.running then m.workers[w].query == q else w in m.idle
    case ControlLeaves(q, _) => q in m.queries ==> m.queries[q].state != Canceled
    case AgingTick(now, sorted) => 0 < m.agingInterval && SortedForm(m.ready, AgeAll(m, now), sorted)
    case _ => true
  }

  ghost function Apply(m: Master, op: MasterOp): Master
    requires Consistent(m) && Expected(m, op)
  {
    match op
    case WorkerArrives(w) => AddWorker(m, w)
    case QueryArrives(priority, now) => Submit(m, priority, now)
    case TryDispatch(sent) => Dispatch(m, sent)
    case EvictArrives(w, q, pc, now) => EvictResponse(m, w, q, pc, now)
    case EndArrives(w, q) => EndQuery(m, w, q)
    case StorageErrorArrives(w) => StorageError(m, w)
    case ControlLeaves(q, sent) => ControlLeft(m, q, sent)
    case WorkerLeaves(w) => WorkerLeft(m, w)
    case AgingTick(now, sorted) => Tick(m, now, sorted)
    case PreemptionCheck(sent) => CheckPreemption(m, sent)
  }

  lemma ApplyKeeps(m: Master, op: MasterOp)
    requires Consistent(m) && Expected(m, op)
    ensures Consistent(Apply(m, op))
  {
    hide ListsOk, Partitioned, QueriesMatch, WorkersMatch, ReadySorted, IdsGiven;
    match op
    case WorkerArrives(w) => AddWorkerKeeps(m, w);
    case QueryArrives(priority, now) => SubmitKeeps(m, priority, now);
    case TryDispatch(sent) => DispatchKeeps(m, sent);
    case EvictArrives(w, q, pc, now) => EvictKeepsIff(m, w, q, pc, now);
    case EndArrives(w, q) => EndKeepsIff(m, w, q);
    case StorageErrorArrives(w) => StorageErrorKeeps(m, w);
    case ControlLeaves(q, sent) => ControlLeftKeepsIff(m, q, sent);
    case WorkerLeaves(w) => WorkerLeftKeeps(m, w);
    case AgingTick(now, sorted) => TickKeeps(m, now, sorted);
    case PreemptionCheck(sent) => CheckPreemptionKeeps(m, sent);
  }

  /** The states a run goes through; each message is one the Master can expect where it arrives. */
  ghost predicate Reachable(m: Master, ops: seq<MasterOp>, t: Master)
    requires Consistent(m)
    decreases |ops|
  {
    if ops == [] then t == m
    else Expected(m, ops[0]) && (ApplyKeeps(m, ops[0]); Reachable(Apply(m, ops[0]), ops[1..], t))
  }

  /** In every reachable state the scheduler is consistent. */
  lemma {:induction false} RunKeepsConsistent(m: Master, ops: seq<MasterOp>, t: Master)
    requires Consistent(m) && Reachable(m, ops, t)
    ensures Consistent(t)
    decreases |ops|
  {
    if ops != [] {
      ApplyKeeps(m, ops[0]);
      RunKeepsConsistent(Apply(m, ops[0]), ops[1..], t);
    }
  }

  // ---------------------------------------------------------------- overtaking

  /** No query stands before `q` in `t` that did not stand before it in `s`. */
  ghost predicate NotOvertaken(s: seq<int>, t: seq<int>, q: int) {
    forall x :: Before(t, x, q) ==> Before(s, x, q)
  }

  lemma RemoveNotOvertaken(s: seq<int>, y: int, q: int)
    requires NoDup(s)
    ensures NotOvertaken(s, Remove(s, y), q)
  {
    var t := Remove(s, y);
    var k := RemovedAt(s, y);
    hide Remove;
    forall x | Before(t, x, q)
      ensures Before(s, x, q)
    {
      var i, j :| 0 <= i < j < |t| && t[i] == x && t[j] == q;
      var i', j' := if i < k then i else i + 1, if j < k then j else j + 1;
      assert 0 <= i' < j' < |s| && s[i'] == x && s[j'] == q;
    }
  }

  lemma TailNotOvertaken(s: seq<int>, q: int)
    requires s != []
    ensures NotOvertaken(s, s[1..], q)
  {
    var t := s[1..];
    forall x | Before(t, x, q)
      ensures Before(s, x, q)
    {
      var i, j :| 0 <= i < j < |t| && t[i] == x && t[j] == q;
      assert s[i + 1] == x && s[j + 1] == q;
    }
  }

  /** A query enters the queue behind everyone of priority 0. */
  lemma InsertNotOvertaken(s: seq<int>, queries: map<int, Qcb>, y: int, q: int)
    requires NoDup(s) && y in queries && Known(s, queries) && y !in s && q in s && q in queries && queries[q].priority == 0
    requires Ascending(s, queries)
    ensures NotOvertaken(s, InsertByPriority(s, queries, y), q)
  {
    var k := InsertPosition(s, queries, queries[y].priority);
    var t := s[..k] + [y] + s[k..];
    var p := FirstAt(s, q);
    assert forall i :: k <= i < |s| ==> queries[s[i]].priority > queries[y].priority;
    assert p < k;
    forall x | Before(t, x, q)
      ensures Before(s, x, q)
    {
      var i, j :| 0 <= i < j < |t| && t[i] == x && t[j] == q;
      var j' := if j < k then j else j - 1;
      assert j != k ==> s[j'] == q;
      assert j' == p && j < k && s[i] == x;
    }
  }

  /** A stable sort keeps the order of queries that are in order already. */
  ghost predicate Stable(ready: seq<int>, queries: map<int, Qcb>, sorted: seq<int>) {
    forall x, y :: Before(ready, x, y) && x in queries && y in queries && queries[x].priority <= queries[y].priority ==>
                     Before(sorted, x, y)
  }

  lemma StableNotOvertaken(s: seq<int>, queries: map<int, Qcb>, sorted: seq<int>, q: int)
    requires NoDup(s) && SortedForm(s, queries, sorted) && Stable(s, queries, sorted) && Known(s, queries)
    requires q in queries && queries[q].priority == 0
    ensures NotOvertaken(s, sorted, q)
  {
    SameElements(s, sorted);
    forall x | Before(sorted, x, q)
      ensures Before(s, x, q)
    {
      var i, j :| 0 <= i < j < |sorted| && sorted[i] == x && sorted[j] == q;
      assert x in sorted && q in sorted && x in s && q in s;
      var a, b :| 0 <= a < |s| && s[a] == x && 0 <= b < |s| && s[b] == q;
      BeforeIsOneWay(sorted, x, q);
      assert !Before(s, q, x);
      assert a < b;
    }
  }

  /** Nothing that happens to the queue of `m` puts a query before `q`. */
  lemma QueueNotOvertaken(m: Master, op: MasterOp, q: int)
    requires Consistent(m) && Expected(m, op) && m.byPriority && q in m.ready && q in m.queries && m.queries[q].priority == 0
    requires op.TryDispatch? ==> op.sent
    requires op.AgingTick? ==> Stable(m.ready, AgeAll(m, op.now), op.sorted)
    requires q in Apply(m, op).ready
    ensures NotOvertaken(m.ready, Apply(m, op).ready, q)
  {
    hide NotOvertaken, Remove, Ascending, QueriesMatch, WorkersMatch, IdsGiven, Stable;
    SameNotOvertaken(m.ready, q);
    match op
    case WorkerArrives(w) =>
    case QueryArrives(priority, now) =>
      SubmitNotOvertaken(m, priority, now, q);
    case TryDispatch(sent) =>
      if CanDispatch(m) { TailNotOvertaken(m.ready, q); }
    case EvictArrives(w, x, pc, now) => EvictNotOvertaken(m, w, x, pc, now, q);
    case EndArrives(w, x) => RemoveNotOvertaken(m.ready, x, q);
    case StorageErrorArrives(w) =>
      if w in m.workers { RemoveNotOvertaken(m.ready, m.workers[w].query, q); }
    case ControlLeaves(x, sent) => RemoveNotOvertaken(m.ready, x, q);
    case WorkerLeaves(w) =>
      if w in m.workers { RemoveNotOvertaken(m.ready, m.workers[w].query, q); }
    case AgingTick(now, sorted) => TickNotOvertaken(m, now, sorted, q);
    case PreemptionCheck(sent) =>
      if MustPreempt(m) { RemoveNotOvertaken(m.ready, WorstRunning(m.running, m.queries), q); }
  }

  lemma SameNotOvertaken(s: seq<int>, q: int)
    ensures NotOvertaken(s, s, q)
  {
  }

  lemma SubmitNotOvertaken(m: Master, priority: nat, now: nat, q: int)
    requires Consistent(m) && m.byPriority && q in m.ready && q in m.queries && m.queries[q].priority == 0
    ensures NotOvertaken(m.ready, Submit(m, priority, now).ready, q)
  {
    var t := Submit(m, priority, now);
    assert t.nextId !in m.queries && t.nextId !in m.ready;
    SamePriorities(m, t.queries);
    hide Ascending, NotOvertaken, IdsGiven;
    InsertNotOvertaken(m.ready, t.queries, t.nextId, q);
  }

  lemma EvictNotOvertaken(m: Master, w: int, x: int, pc: nat, now: nat, q: int)
    requires Consistent(m) && m.byPriority && q in m.ready && q in m.queries && m.queries[q].priority == 0
    ensures NotOvertaken(m.ready, EvictResponse(m, w, x, pc, now).ready, q)
  {
    hide NotOvertaken, Remove, QueriesMatch, WorkersMatch, IdsGiven;
    SameNotOvertaken(m.ready, q);
    RemoveNotOvertaken(m.ready, x, q);
    if x in m.running {
      assert x in m.queries && x !in m.ready && q != x;
      var requeued := m.queries[x := m.queries[x].(pc := pc, state := Ready, worker := NONE, preemptionPending := false, readySince := now)];
      SamePriorities(m, requeued);
      hide Ascending;
      InsertNotOvertaken(m.ready, requeued, x, q);
    }
  }

  lemma TickNotOvertaken(m: Master, now: nat, sorted: seq<int>, q: int)
    requires Consistent(m) && 0 < m.agingInterval && SortedForm(m.ready, AgeAll(m, now), sorted)
    requires Stable(m.ready, AgeAll(m, now), sorted)
    requires q in m.ready && q in m.queries && m.queries[q].priority == 0
    ensures NotOvertaken(m.ready, Tick(m, now, sorted).ready, q)
  {
    SameNotOvertaken(m.ready, q);
    var queries := AgeAll(m, now);
    AgeKeepsLinks(m.queries[q], now, m.agingInterval);
    assert Known(m.ready, queries);
    hide NotOvertaken, Stable, SortedForm, Ascending;
    StableNotOvertaken(m.ready, queries, sorted, q);
  }

  /** Bounded overtaking: with a stable sort and successful sends, a READY query of priority 0 keeps its
      priority, and the set of queries ahead of it never grows. */
  lemma NobodyOvertakes(m: Master, op: MasterOp, q: int)
    requires Consistent(m) && Expected(m, op) && m.byPriority && q in m.ready && q in m.queries && m.queries[q].priority == 0
    requires op.TryDispatch? ==> op.sent
    requires op.AgingTick? ==> Stable(m.ready, AgeAll(m, op.now), op.sorted)
    requires q in Apply(m, op).ready
    ensures var t := Apply(m, op);
            && Ahead(t.ready, q) <= Ahead(m.ready, q) && FirstAt(t.ready, q) <= FirstAt(m.ready, q)
            && q in t.queries && t.queries[q].priority == 0
  {
    var t := Apply(m, op);
    ApplyKeeps(m, op);
    QueueNotOvertaken(m, op, q);
    StaysZero(m, op, q);
    hide Ahead, Before, FirstAt, Apply, Expected, QueriesMatch, WorkersMatch, ReadySorted, IdsGiven;
    forall x
      ensures x in Ahead(t.ready, q) ==> x in Ahead(m.ready, q)
    {
      AheadIsBefore(t.ready, x, q);
      AheadIsBefore(m.ready, x, q);
    }
    AheadCount(t.ready, q);
    AheadCount(m.ready, q);
    SubsetSize(Ahead(t.ready, q), Ahead(m.ready, q));
  }

  lemma StaysZero(m: Master, op: MasterOp, q: int)
    requires Consistent(m) && Expected(m, op) && q in m.ready && q in m.queries && m.queries[q].priority == 0
    requires q in Apply(m, op).queries
    ensures Apply(m, op).queries[q].priority == 0
  {
    hide ListsOk, QueriesMatch, WorkersMatch, ReadySorted, Remove, Enqueue, InsertByPriority, PreemptionPending, Age, MustPreempt;
    match op
    case AgingTick(now, sorted) => AgeKeepsLinks(m.queries[q], now, m.agingInterval);
    case _ =>
  }

  lemma ApplyKeepsMode(m: Master, op: MasterOp)
    requires Consistent(m) && Expected(m, op)
    ensures Apply(m, op).byPriority == m.byPriority
  {
    hide ListsOk, Partitioned, QueriesMatch, WorkersMatch, ReadySorted, IdsGiven, Remove, Enqueue, InsertByPriority, PreemptionPending, MustPreempt;
  }

  /** A run in which `q` stays READY, sends succeed and sorts are stable. */
  ghost predicate Waits(m: Master, ops: seq<MasterOp>, q: int)
    requires Consistent(m)
    decreases |ops|
  {
    q in m.ready &&
    (ops != [] ==>
       && Expected(m, ops[0]) && (ops[0].TryDispatch? ==> ops[0].sent)
       && (ops[0].AgingTick? ==> Stable(m.ready, AgeAll(m, ops[0].now), ops[0].sorted))
       && (ApplyKeeps(m, ops[0]); Waits(Apply(m, ops[0]), ops[1..], q)))
  }

  /** Over any such run of any length, nobody gets ahead of a query once its priority is 0. */
  lemma {:induction false} NobodyOvertakesInRun(m: Master, ops: seq<MasterOp>, t: Master, q: int)
    requires Consistent(m) && m.byPriority && q in m.queries && m.queries[q].priority == 0
    requires Waits(m, ops, q) && Reachable(m, ops, t)
    ensures q in m.ready && q in t.ready && Ahead(t.ready, q) <= Ahead(m.ready, q) && FirstAt(t.ready, q) <= FirstAt(m.ready, q)
    ensures q in t.queries && t.queries[q].priority == 0
    decreases |ops|
  {
    hide ListsOk, Partitioned, QueriesMatch, WorkersMatch, ReadySorted, IdsGiven, Apply, Ahead, FirstAt, Expected, Stable;
    if ops != [] {
      var u := Apply(m, ops[0]);
      ApplyKeeps(m, ops[0]);
      ApplyKeepsMode(m, ops[0]);
      assert q in u.ready;
      NobodyOvertakes(m, ops[0], q);
      NobodyOvertakesInRun(u, ops[1..], t, q);
    }
  }
}
