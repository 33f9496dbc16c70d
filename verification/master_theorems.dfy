/** Scheduler consistency: what every handler of the Master keeps, and the messages that would break it. */
module MasterTheorems {
  import opened Lists
  import opened MasterModel

  ghost predicate ListsOk(m: Master) {
    NoDup(m.ready) && NoDup(m.running) && NoDup(m.idle) && NoDup(m.busy)
  }

  /** Each live query is in exactly one of ready and running, each worker in exactly one of idle and busy. */
  ghost predicate Partitioned(m: Master) {
    && (forall q :: q in m.queries <==> q in m.ready || q in m.running)
    && (forall q :: q in m.ready ==> q !in m.running)
    && (forall w :: w in m.workers <==> w in m.idle || w in m.busy)
    && (forall w :: w in m.idle ==> w !in m.busy)
    && m.connected == |m.workers|
  }

  /** The state of a query matches its list, and a running query points to a busy worker that points back. */
  ghost predicate QueriesMatch(m: Master) {
    && (forall q :: q in m.ready && q in m.queries ==>
                      m.queries[q].state == Ready && m.queries[q].worker == NONE && !m.queries[q].preemptionPending)
    && (forall q :: q in m.running && q in m.queries ==>
                      m.queries[q].state != Ready && m.queries[q].worker in m.busy && m.queries[q].worker in m.workers
                      && m.workers[m.queries[q].worker].query == q)
  }

  /** An idle worker has no query; a busy one points to a running query that points back. */
  ghost predicate WorkersMatch(m: Master) {
    && (forall w :: w in m.idle && w in m.workers ==> m.workers[w] == IDLE_WORKER)
    && (forall w :: w in m.busy && w in m.workers ==>
                      m.workers[w].busy && m.workers[w].query in m.running && m.workers[w].query in m.queries
                      && m.queries[m.workers[w].query].worker == w)
  }

  /** Identifiers are given out in order and start at 1. */
  ghost predicate IdsGiven(m: Master) {
    forall q :: q in m.queries ==> 0 < q <= m.nextId
  }

  /** In PRIORITY mode the ready queue is in priority order. */
  ghost predicate ReadySorted(m: Master) {
    m.byPriority ==> Ascending(m.ready, m.queries)
  }

  ghost predicate Consistent(m: Master) {
    ListsOk(m) && Partitioned(m) && QueriesMatch(m) && WorkersMatch(m) && IdsGiven(m) && ReadySorted(m) && Linked(m)
  }

  lemma PartitionedIsLinked(m: Master)
    requires Partitioned(m)
    ensures Linked(m)
  {
    forall i | 0 <= i < |m.ready|
      ensures m.ready[i] in m.queries
    {
      var q := m.ready[i];
      assert q in m.ready;
    }
    forall i | 0 <= i < |m.running|
      ensures m.running[i] in m.queries
    {
      var q := m.running[i];
      assert q in m.running;
    }
  }

  /** The Master before anyone connects. */
  const START := Master(map[], [], [], map[], [], [], 0, 0, true, 1)

  lemma StartConsistent(byPriority: bool, agingInterval: nat)
    ensures Consistent(START.(byPriority := byPriority, agingInterval := agingInterval))
  {
  }

  // ---------------------------------------------------------------- order of the ready queue

  /** A subsequence of a sorted list is sorted, also after changes that keep priorities. */
  lemma RemoveAscending(ready: seq<int>, queries: map<int, Qcb>, q: int, after: map<int, Qcb>)
    requires Ascending(ready, queries)
    requires forall x :: x in after ==> x in queries && queries[x].priority == after[x].priority
    ensures Ascending(Remove(ready, q), after)
  {
    var t := Remove(ready, q);
    var k := RemovedAt(ready, q);
    hide Remove;
    forall i, j | 0 <= i < j < |t| && t[i] in after && t[j] in after
      ensures after[t[i]].priority <= after[t[j]].priority
    {
      var i', j' := if i < k then i else i + 1, if j < k then j else j + 1;
      assert 0 <= i' < j' < |ready| && t[i] == ready[i'] && t[j] == ready[j'];
    }
  }

  /** Insertion goes behind all queries of the same priority, and keeps the order. */
  lemma InsertAscending(ready: seq<int>, queries: map<int, Qcb>, q: int)
    requires q in queries && Known(ready, queries) && Ascending(ready, queries)
    ensures Ascending(InsertByPriority(ready, queries, q), queries)
  {
    var k := InsertPosition(ready, queries, queries[q].priority);
    var t := InsertByPriority(ready, queries, q);
    forall i, j | 0 <= i < j < |t|
      ensures queries[t[i]].priority <= queries[t[j]].priority
    {
      assert i != k ==> t[i] == ready[if i < k then i else i - 1];
      assert j != k ==> t[j] == ready[if j < k then j else j - 1];
      if i == k {
        assert queries[ready[k]].priority <= queries[ready[j - 1]].priority;
      }
    }
  }

  /** What queueing does: one more member, and the order is kept. */
  lemma EnqueueKeeps(ready: seq<int>, queries: map<int, Qcb>, q: int, byPriority: bool)
    requires NoDup(ready) && q !in ready && q in queries && Known(ready, queries)
    requires byPriority ==> Ascending(ready, queries)
    ensures var t := Enqueue(ready, queries, q, byPriority);
            && NoDup(t) && (forall x :: x in t <==> x in ready || x == q)
            && (byPriority ==> Ascending(t, queries))
  {
    if byPriority {
      InsertMembers(ready, InsertPosition(ready, queries, queries[q].priority), q);
      InsertAscending(ready, queries, q);
    } else {
      AppendMembers(ready, q);
    }
  }

  // ---------------------------------------------------------------- arrivals

  lemma AddWorkerKeeps(m: Master, w: int)
    requires Consistent(m) && w !in m.workers
    ensures Consistent(AddWorker(m, w))
  {
    AppendMembers(m.idle, w);
    var t := AddWorker(m, w);
    assert forall x :: x in t.idle <==> x in m.idle || x == w;
  }

  /** Where a new query stands: behind all that are not worse, before all that are, and last under FIFO. */
  ghost predicate Placed(m: Master, t: Master, q: int) {
    exists k :: 0 <= k <= |m.ready| && t.ready == m.ready[..k] + [q] + m.ready[k..]
                && (!m.byPriority ==> k == |m.ready|)
                && (m.byPriority && q in t.queries ==>
                      && (forall i :: 0 <= i < k && m.ready[i] in m.queries ==> m.queries[m.ready[i]].priority <= t.queries[q].priority)
                      && (forall i :: k <= i < |m.ready| && m.ready[i] in m.queries ==> t.queries[q].priority < m.queries[m.ready[i]].priority))
  }

  /** A new query gets an identifier that no query had, starts at instruction 0, and is queued in its place. */
  lemma SubmitKeeps(m: Master, priority: nat, now: nat)
    requires Consistent(m)
    ensures var t := Submit(m, priority, now);
            && Consistent(t) && t.nextId == m.nextId + 1 && t.nextId !in m.queries
            && t.queries == m.queries[t.nextId := Qcb(priority, now, NONE, 0, false, Ready)]
            && Placed(m, t, t.nextId)
  {
    hide Enqueue, Ascending, NoDup, Placed;
    var t := Submit(m, priority, now);
    var q := m.nextId + 1;
    assert q !in m.queries && q !in m.ready;
    SubmitSorted(m, t.queries, q);
    EnqueueKeeps(m.ready, t.queries, q, m.byPriority);
    EnqueuePlaces(m, t, q);
  }

  lemma EnqueuePlaces(m: Master, t: Master, q: int)
    requires ReadySorted(m) && Linked(m) && q !in m.queries && q in t.queries && Known(m.ready, t.queries)
    requires forall x :: x in m.queries ==> x in t.queries && t.queries[x] == m.queries[x]
    requires t.ready == Enqueue(m.ready, t.queries, q, m.byPriority)
    ensures Placed(m, t, q)
  {
    var k := if m.byPriority then InsertPosition(m.ready, t.queries, t.queries[q].priority) else |m.ready|;
    assert t.ready == m.ready[..k] + [q] + m.ready[k..];
    if m.byPriority {
      forall i | 0 <= i < |m.ready| && m.ready[i] in m.queries
        ensures i < k ==> m.queries[m.ready[i]].priority <= t.queries[q].priority
        ensures k <= i ==> t.queries[q].priority < m.queries[m.ready[i]].priority
      {
        var x := m.ready[i];
        assert x in m.queries && t.queries[x] == m.queries[x];
        if k <= i {
          var y := m.ready[k];
          assert y in m.queries && t.queries[y] == m.queries[y] && m.queries[y].priority <= m.queries[x].priority;
        }
      }
    }
  }

  lemma SubmitSorted(m: Master, queries: map<int, Qcb>, q: int)
    requires ReadySorted(m) && Linked(m) && q !in m.queries && q in queries && queries == m.queries[q := queries[q]]
    ensures m.byPriority ==> Ascending(m.ready, queries)
    ensures Known(m.ready, queries)
  {
  }

  // ---------------------------------------------------------------- leaving

  lemma CleanupMembers(m: Master, q: int)
    requires ListsOk(m)
    ensures var t := Cleanup(m, q);
            && NoDup(t.ready) && NoDup(t.running)
            && (forall x :: x in t.ready <==> x in m.ready && x != q)
            && (forall x :: x in t.running <==> x in m.running && x != q)
  {
    RemoveMembers(m.ready, q);
    RemoveMembers(m.running, q);
  }

  lemma FreeWorkerMembers(m: Master, w: int)
    requires ListsOk(m) && w !in m.idle
    ensures var t := FreeWorker(m, w);
            && NoDup(t.idle) && NoDup(t.busy)
            && (forall x :: x in t.idle <==> x in m.idle || x == w)
            && (forall x :: x in t.busy <==> x in m.busy && x != w)
  {
    RemoveMembers(m.busy, w);
    AppendMembers(m.idle, w);
  }

  /** `t` is `m` after worker `w` turned idle and its query `q` was cleaned up. */
  ghost predicate Parted(m: Master, t: Master, w: int, q: int) {
    && t.queries == m.queries - {q} && t.workers == m.workers[w := IDLE_WORKER] && w in m.busy && w in m.workers
    && m.workers[w].query == q && t.connected == m.connected && t.nextId == m.nextId
    && (forall x :: x in t.ready <==> x in m.ready && x != q)
    && (forall x :: x in t.running <==> x in m.running && x != q)
    && (forall x :: x in t.idle <==> x in m.idle || x == w)
    && (forall x :: x in t.busy <==> x in m.busy && x != w)
  }

  lemma PartedPartitioned(m: Master, t: Master, w: int, q: int)
    requires Partitioned(m) && Parted(m, t, w, q)
    ensures Partitioned(t)
  {
    assert t.workers.Keys == m.workers.Keys;
  }

  lemma PartedQueries(m: Master, t: Master, w: int, q: int)
    requires Partitioned(m) && QueriesMatch(m) && WorkersMatch(m) && Parted(m, t, w, q)
    ensures QueriesMatch(t)
  {
  }

  lemma PartedWorkers(m: Master, t: Master, w: int, q: int)
    requires Partitioned(m) && QueriesMatch(m) && WorkersMatch(m) && Parted(m, t, w, q)
    ensures WorkersMatch(t)
  {
  }

  /** A worker and its query part: the worker turns idle and the query is cleaned up. */
  lemma PartKeeps(m: Master, w: int, q: int)
    requires Consistent(m) && w in m.busy && w in m.workers && m.workers[w].query == q
    ensures Consistent(Cleanup(FreeWorker(m, w), q))
  {
    hide Remove, Ascending, NoDup, QueriesMatch, WorkersMatch, IdsGiven;
    var t := Cleanup(FreeWorker(m, w), q);
    CleanupMembers(m, q);
    FreeWorkerMembers(m, w);
    RemoveAscendingIf(m, t, q);
    PartedPartitioned(m, t, w, q);
    PartitionedIsLinked(t);
    PartedQueries(m, t, w, q);
    PartedWorkers(m, t, w, q);
    PartedIds(m, t, q);
  }

  lemma PartedIds(m: Master, t: Master, q: int)
    requires IdsGiven(m) && t.queries == m.queries - {q} && t.nextId == m.nextId
    ensures IdsGiven(t)
  {
  }

  lemma RemoveAscendingIf(m: Master, t: Master, q: int)
    requires ReadySorted(m) && t.byPriority == m.byPriority && t.ready == Remove(m.ready, q) && t.queries == m.queries - {q}
    ensures ReadySorted(t)
  {
    if m.byPriority {
      RemoveAscending(m.ready, m.queries, q, t.queries);
    }
  }

  // ---------------------------------------------------------------- try_dispatch

  /** `t` is `m` after the READY query `q` was given to the idle worker `w`. */
  ghost predicate Started(m: Master, t: Master, w: int, q: int) {
    && q in m.ready && q in m.queries && w in m.idle && w in m.workers
    && t.queries == m.queries[q := m.queries[q].(state := Running, worker := w, preemptionPending := false)]
    && t.workers == m.workers[w := Wcb(q, true)] && t.connected == m.connected && t.nextId == m.nextId
    && (forall x :: x in t.ready <==> x in m.ready && x != q)
    && (forall x :: x in t.running <==> x in m.running || x == q)
    && (forall x :: x in t.idle <==> x in m.idle && x != w)
    && (forall x :: x in t.busy <==> x in m.busy || x == w)
  }

  lemma StartedPartitioned(m: Master, t: Master, w: int, q: int)
    requires Partitioned(m) && IdsGiven(m) && Started(m, t, w, q)
    ensures Partitioned(t) && IdsGiven(t)
  {
    assert t.workers.Keys == m.workers.Keys;
    assert t.queries.Keys == m.queries.Keys;
  }

  lemma StartedMatches(m: Master, t: Master, w: int, q: int)
    requires Partitioned(m) && QueriesMatch(m) && WorkersMatch(m) && Started(m, t, w, q)
    ensures QueriesMatch(t) && WorkersMatch(t)
  {
  }

  lemma TailAscending(ready: seq<int>, queries: map<int, Qcb>, after: map<int, Qcb>)
    requires ready != [] && Ascending(ready, queries)
    requires forall x :: x in after ==> x in queries && after[x].priority == queries[x].priority
    ensures Ascending(ready[1..], after)
  {
    var t := ready[1..];
    forall i, j | 0 <= i < j < |t| && t[i] in after && t[j] in after
      ensures after[t[i]].priority <= after[t[j]].priority
    {
      assert t[i] == ready[i + 1] && t[j] == ready[j + 1];
    }
  }

  lemma DispatchHeads(m: Master)
    requires Consistent(m) && CanDispatch(m)
    ensures m.ready[0] in m.ready && m.ready[0] in m.queries && m.idle[0] in m.idle && m.idle[0] in m.workers
    ensures m.ready[0] !in m.running && m.idle[0] !in m.busy
  {
    var q, w := m.ready[0], m.idle[0];
    assert q in m.ready && w in m.idle;
  }

  lemma SentDispatchKeeps(m: Master)
    requires Consistent(m) && CanDispatch(m)
    ensures Consistent(Dispatch(m, true)) && Started(m, Dispatch(m, true), m.idle[0], m.ready[0])
  {
    DispatchHeads(m);
    hide Ascending, NoDup, QueriesMatch, WorkersMatch, IdsGiven, Partitioned, PreemptionPending;
    var q, w, t := m.ready[0], m.idle[0], Dispatch(m, true);
    TailMembers(m.ready);
    TailMembers(m.idle);
    AppendMembers(m.running, q);
    AppendMembers(m.busy, w);
    if m.byPriority {
      TailAscending(m.ready, m.queries, t.queries);
    }
    StartedPartitioned(m, t, w, q);
    StartedMatches(m, t, w, q);
    PartitionedIsLinked(t);
  }

  /** A failed send only reorders the ready queue and the idle list. */
  ghost predicate Reordered(m: Master, t: Master) {
    && t == m.(ready := t.ready, idle := t.idle)
    && (forall x :: x in t.ready <==> x in m.ready)
    && (forall x :: x in t.idle <==> x in m.idle)
  }

  lemma ReorderedKeeps(m: Master, t: Master)
    requires Consistent(m) && Reordered(m, t) && NoDup(t.ready) && NoDup(t.idle) && ReadySorted(t)
    ensures Consistent(t)
  {
    hide Ascending, NoDup;
    assert Partitioned(t);
    PartitionedIsLinked(t);
  }

  lemma RevertedTables(m: Master)
    requires Consistent(m) && CanDispatch(m)
    ensures var t := Dispatch(m, false);
            && t == m.(ready := t.ready, idle := m.idle[1..] + [m.idle[0]])
            && t.ready == Enqueue(m.ready[1..], m.queries, m.ready[0], m.byPriority)
  {
    DispatchHeads(m);
    var q, w := m.ready[0], m.idle[0];
    RemoveAppended(m.running, q);
    RemoveAppended(m.busy, w);
    assert m.queries[q := m.queries[q].(state := Ready, worker := NONE, preemptionPending := false)] == m.queries;
    assert m.workers[w := IDLE_WORKER] == m.workers;
  }

  lemma FailedDispatchKeeps(m: Master)
    requires Consistent(m) && CanDispatch(m)
    ensures Consistent(Dispatch(m, false)) && Reordered(m, Dispatch(m, false))
  {
    DispatchHeads(m);
    RevertedTables(m);
    hide NoDup, QueriesMatch, WorkersMatch, IdsGiven, Partitioned, PreemptionPending, Dispatch, Ascending;
    var t := Dispatch(m, false);
    TailMembers(m.ready);
    TailMembers(m.idle);
    AppendMembers(m.idle[1..], m.idle[0]);
    if m.byPriority {
      TailAscending(m.ready, m.queries, m.queries);
    }
    EnqueueKeeps(m.ready[1..], m.queries, m.ready[0], m.byPriority);
    ReorderedKeeps(m, t);
  }

  lemma DispatchKeeps(m: Master, sent: bool)
    requires Consistent(m)
    ensures Consistent(Dispatch(m, sent))
  {
    if CanDispatch(m) {
      if sent { SentDispatchKeeps(m); } else { FailedDispatchKeeps(m); }
    }
  }

  // ---------------------------------------------------------------- messages from workers

  /** `t` is `m` after the running query `q` of worker `w` went back to READY. */
  ghost predicate Evicted(m: Master, t: Master, w: int, q: int, pc: nat, now: nat) {
    && q in m.running && q in m.queries && w in m.busy && w in m.workers && m.workers[w].query == q
    && t.queries == m.queries[q := m.queries[q].(pc := pc, state := Ready, worker := NONE, preemptionPending := false, readySince := now)]
    && t.workers == m.workers[w := IDLE_WORKER] && t.connected == m.connected && t.nextId == m.nextId
    && (forall x :: x in t.ready <==> x in m.ready || x == q)
    && (forall x :: x in t.running <==> x in m.running && x != q)
    && (forall x :: x in t.idle <==> x in m.idle || x == w)
    && (forall x :: x in t.busy <==> x in m.busy && x != w)
  }

  lemma EvictedPartitioned(m: Master, t: Master, w: int, q: int, pc: nat, now: nat)
    requires Partitioned(m) && IdsGiven(m) && Evicted(m, t, w, q, pc, now)
    ensures Partitioned(t) && IdsGiven(t)
  {
    assert t.workers.Keys == m.workers.Keys;
    assert t.queries.Keys == m.queries.Keys;
  }

  lemma EvictedMatches(m: Master, t: Master, w: int, q: int, pc: nat, now: nat)
    requires Partitioned(m) && QueriesMatch(m) && WorkersMatch(m) && Evicted(m, t, w, q, pc, now)
    ensures QueriesMatch(t) && WorkersMatch(t)
  {
  }

  lemma SamePriorities(m: Master, queries: map<int, Qcb>)
    requires ReadySorted(m) && Linked(m)
    requires forall x :: x in m.queries ==> x in queries && queries[x].priority == m.queries[x].priority
    ensures m.byPriority ==> Ascending(m.ready, queries)
    ensures Known(m.ready, queries)
  {
    forall i | 0 <= i < |m.ready|
      ensures m.ready[i] in queries && queries[m.ready[i]].priority == m.queries[m.ready[i]].priority
    {
      var x := m.ready[i];
      assert x in m.queries;
    }
  }

  lemma InsertSorted(m: Master, queries: map<int, Qcb>, q: int)
    requires NoDup(m.ready) && ReadySorted(m) && Known(m.ready, queries) && q in queries && q !in m.ready
    requires m.byPriority ==> Ascending(m.ready, queries)
    ensures var t := InsertByPriority(m.ready, queries, q);
            && NoDup(t) && (forall x :: x in t <==> x in m.ready || x == q)
            && (m.byPriority ==> Ascending(t, queries))
  {
    InsertMembers(m.ready, InsertPosition(m.ready, queries, queries[q].priority), q);
    if m.byPriority {
      InsertAscending(m.ready, queries, q);
    }
  }

  lemma RequeueKeeps(m: Master, w: int, q: int, pc: nat, now: nat)
    requires Consistent(m) && q in m.running && q in m.queries && m.queries[q].state != Canceled && m.queries[q].worker == w
    requires w in m.workers
    ensures Consistent(EvictResponse(m, w, q, pc, now)) && Evicted(m, EvictResponse(m, w, q, pc, now), w, q, pc, now)
  {
    assert w in m.busy && w !in m.idle && q !in m.ready && m.workers[w].query == q;
    hide Ascending, NoDup, QueriesMatch, WorkersMatch, IdsGiven, Partitioned, Remove, InsertByPriority;
    var t := EvictResponse(m, w, q, pc, now);
    FreeWorkerMembers(m, w);
    RemoveMembers(m.running, q);
    SamePriorities(m, t.queries);
    InsertSorted(m, t.queries, q);
    EvictedPartitioned(m, t, w, q, pc, now);
    EvictedMatches(m, t, w, q, pc, now);
    PartitionedIsLinked(t);
  }

  /** EVICT keeps the scheduler consistent exactly when it is about no running query, or comes from the
      worker that has it. */
  lemma EvictKeepsIff(m: Master, w: int, q: int, pc: nat, now: nat)
    requires Consistent(m) && w in m.workers
    ensures Consistent(EvictResponse(m, w, q, pc, now)) <==> (q in m.running ==> m.workers[w].query == q)
  {
    if q in m.running {
      assert q in m.queries;
      var owner := m.queries[q].worker;
      assert owner in m.busy && owner in m.workers && m.workers[owner].query == q;
      if m.workers[w].query == q {
        assert w in m.busy;
        if m.queries[q].state == Canceled {
          PartKeeps(m, w, q);
        } else {
          RequeueKeeps(m, w, q, pc, now);
        }
      } else {
        StrangerEvictBreaks(m, w, q, pc, now, owner);
      }
    }
  }

  lemma StrangerEvictBreaks(m: Master, w: int, q: int, pc: nat, now: nat, owner: int)
    requires Consistent(m) && w in m.workers && q in m.running && q in m.queries
    requires owner in m.busy && owner in m.workers && m.workers[owner].query == q && owner != w
    ensures !Consistent(EvictResponse(m, w, q, pc, now))
  {
    hide Ascending, QueriesMatch, IdsGiven, Partitioned;
    var t := EvictResponse(m, w, q, pc, now);
    RemoveMembers(m.running, q);
    RemoveMembers(m.busy, w);
    assert q !in t.running;
    assert owner in t.busy && owner in t.workers && t.workers[owner].query == q;
    assert !WorkersMatch(t);
  }

  /** END keeps the scheduler consistent exactly when it comes from the worker that has the query; about
      any other query it does so only from a worker that is idle already. */
  lemma EndKeepsIff(m: Master, w: int, q: int)
    requires Consistent(m) && w in m.workers
    ensures Consistent(EndQuery(m, w, q)) <==> if q in m.running then m.workers[w].query == q else w in m.idle
  {
    if q in m.running {
      assert q in m.queries;
      var owner := m.queries[q].worker;
      assert owner in m.busy && owner in m.workers && m.workers[owner].query == q;
      if m.workers[w].query == q {
        assert w in m.busy;
        PartKeeps(m, w, q);
      } else {
        StrangerEndBreaks(m, w, q, owner);
      }
    } else {
      if w in m.idle {
        assert m.workers[w := IDLE_WORKER] == m.workers;
        assert EndQuery(m, w, q) == m;
      } else {
        assert w in m.busy && !EndQuery(m, w, q).workers[w].busy;
        assert !WorkersMatch(EndQuery(m, w, q));
      }
    }
  }

  lemma StrangerEndBreaks(m: Master, w: int, q: int, owner: int)
    requires Consistent(m) && w in m.workers && q in m.running && q in m.queries
    requires owner in m.busy && owner in m.workers && m.workers[owner].query == q && owner != w
    ensures !Consistent(EndQuery(m, w, q))
  {
    hide Ascending, QueriesMatch, IdsGiven, Partitioned;
    var t := EndQuery(m, w, q);
    RemoveMembers(m.running, q);
    RemoveMembers(m.busy, w);
    assert q !in t.running;
    assert owner in t.busy && owner in t.workers && t.workers[owner].query == q;
    assert !WorkersMatch(t);
  }

  lemma StorageErrorKeeps(m: Master, w: int)
    requires Consistent(m)
    ensures Consistent(StorageError(m, w))
  {
    if w in m.workers && m.workers[w].query >= 0 && m.workers[w].query in m.running {
      assert w in m.busy;
      PartKeeps(m, w, m.workers[w].query);
    }
  }

  /** A storage error frees the worker, so the END of the failed query can reach a Master that has already
      given the worker another query: then the scheduler is no longer consistent. */
  lemma EndAfterStorageErrorBreaks(m: Master, w: int)
    requires Consistent(m) && w in m.busy && w in m.workers
    ensures Consistent(StorageError(m, w))
    ensures w in Dispatch(StorageError(m, w), true).busy ==>
              !Consistent(EndQuery(Dispatch(StorageError(m, w), true), w, m.workers[w].query))
  {
    var q := m.workers[w].query;
    StorageErrorKeeps(m, w);
    var m1 := StorageError(m, w);
    assert q in m.running && q in m.queries && q > 0;
    assert q !in m1.queries;
    DispatchKeeps(m1, true);
    var m2 := Dispatch(m1, true);
    DispatchKeepsQueries(m1);
    assert q !in m2.running;
    if w in m2.busy {
      assert w in m2.workers && w !in m2.idle;
      EndKeepsIff(m2, w, q);
    }
  }

  lemma DispatchKeepsQueries(m: Master)
    requires Consistent(m)
    ensures Dispatch(m, true).queries.Keys == m.queries.Keys
  {
  }

  // ---------------------------------------------------------------- preemption

  /** `t` differs from `m` only in one running query, whose links and priority are kept. */
  ghost predicate Marked(m: Master, t: Master, q: int) {
    && q in m.running && q in m.queries && q in t.queries && t == m.(queries := m.queries[q := t.queries[q]])
    && t.queries[q].worker == m.queries[q].worker && t.queries[q].priority == m.queries[q].priority
    && t.queries[q].state != Ready
  }

  lemma MarkedKeeps(m: Master, t: Master, q: int)
    requires Consistent(m) && Marked(m, t, q)
    ensures Consistent(t)
  {
    hide Ascending, NoDup;
    SamePriorities(m, t.queries);
    assert t.queries.Keys == m.queries.Keys;
    PartitionedIsLinked(t);
  }

  /** Preemption of a running query only marks it, and only when its request was sent. */
  lemma PreemptMarks(m: Master, q: int, sent: bool)
    requires Consistent(m) && q in m.running && q in m.queries
    ensures Consistent(Preempt(m, q, sent)) && Marked(m, Preempt(m, q, sent), q)
    ensures Preempt(m, q, sent) == m.(queries := m.queries[q := m.queries[q].(preemptionPending := m.queries[q].preemptionPending || sent)])
  {
    assert m.queries[q].worker in m.workers;
    assert m.queries[q := m.queries[q]] == m.queries;
    hide NoDup, QueriesMatch, WorkersMatch, IdsGiven, Partitioned, Ascending;
    assert m.queries[q].state != Ready by { QueriesMatchState(m, q); }
    MarkedKeeps(m, Preempt(m, q, sent), q);
  }

  lemma QueriesMatchState(m: Master, q: int)
    requires QueriesMatch(m) && q in m.running && q in m.queries
    ensures m.queries[q].state != Ready
  {
  }

  lemma CheckPreemptionKeeps(m: Master, sent: bool)
    requires Consistent(m)
    ensures Consistent(CheckPreemption(m, sent))
  {
    if MustPreempt(m) {
      PreemptMarks(m, WorstRunning(m.running, m.queries), sent);
    }
  }

  // ---------------------------------------------------------------- disconnections

  lemma DropReadyKeeps(m: Master, q: int)
    requires Consistent(m) && q in m.ready && q in m.queries
    ensures Consistent(Cleanup(m, q))
  {
    assert q !in m.running;
    hide Ascending, NoDup, Remove;
    var t := Cleanup(m, q);
    CleanupMembers(m, q);
    RemoveAscendingIf(m, t, q);
    assert Partitioned(t);
    PartitionedIsLinked(t);
  }

  /** A Query Control may leave once: the handler keeps the scheduler consistent exactly when the query was
      not cancelled before. */
  lemma ControlLeftKeepsIff(m: Master, q: int, sent: bool)
    requires Consistent(m)
    ensures Consistent(ControlLeft(m, q, sent)) <==> (q in m.queries ==> m.queries[q].state != Canceled)
  {
    if q in m.queries {
      match m.queries[q].state
      case Ready =>
        assert q in m.ready;
        DropReadyKeeps(m, q);
      case Running =>
        assert q in m.running;
        var t := m.(queries := m.queries[q := m.queries[q].(state := Canceled)]);
        MarkedKeeps(m, t, q);
        PreemptMarks(t, q, sent);
      case Canceled =>
        assert q in m.running;
        var owner := m.queries[q].worker;
        assert owner in m.busy && owner in m.workers && m.workers[owner].query == q;
        var t := ControlLeft(m, q, sent);
        assert t == Cleanup(m, q) && owner in t.busy && owner in t.workers && q !in t.queries;
        assert !WorkersMatch(t);
    }
  }

  /** `t` is `m` without worker `w` and without the query it had. */
  ghost predicate Departed(m: Master, t: Master, w: int, q: int) {
    && w in m.workers && m.workers[w].query == q && t.queries == m.queries - {q} && t.workers == m.workers - {w} && t.connected == m.connected - 1
    && t.nextId == m.nextId
    && (forall x :: x in t.ready <==> x in m.ready && x != q)
    && (forall x :: x in t.running <==> x in m.running && x != q)
    && (forall x :: x in t.idle <==> x in m.idle && x != w)
    && (forall x :: x in t.busy <==> x in m.busy && x != w)
  }

  lemma DepartedPartitioned(m: Master, t: Master, w: int, q: int)
    requires Partitioned(m) && Departed(m, t, w, q)
    ensures Partitioned(t)
  {
    FewerWorkers(m.workers, w);
  }

  lemma FewerWorkers(workers: map<int, Wcb>, w: int)
    requires w in workers
    ensures |workers - {w}| == |workers| - 1
  {
    assert (workers - {w}).Keys == workers.Keys - {w};
    assert |workers| == |workers.Keys| && |workers - {w}| == |(workers - {w}).Keys|;
  }

  lemma DepartedMatches(m: Master, t: Master, w: int, q: int)
    requires Partitioned(m) && QueriesMatch(m) && WorkersMatch(m) && IdsGiven(m) && Departed(m, t, w, q)
    ensures QueriesMatch(t) && WorkersMatch(t)
  {
    forall x | x in m.busy && x != w && x in m.workers
      ensures m.workers[x].query != q
    {
      if w in m.busy {
        assert m.queries[m.workers[x].query].worker == x && m.queries[m.workers[w].query].worker == w;
      } else {
        assert m.workers[w].query == NONE && m.workers[x].query in m.queries;
      }
    }
  }

  lemma WorkerLeftTables(m: Master, w: int)
    requires Consistent(m) && w in m.workers
    ensures var q, t := m.workers[w].query, WorkerLeft(m, w);
            && Departed(m, t, w, q) && NoDup(t.ready) && NoDup(t.running) && NoDup(t.idle) && NoDup(t.busy)
            && t.queries == m.queries - {q} && t.ready == Remove(m.ready, q) && t.byPriority == m.byPriority
  {
    var q := m.workers[w].query;
    CleanupMembers(m, q);
    RemoveMembers(m.idle, w);
    RemoveMembers(m.busy, w);
    assert |m.workers.Keys| > 0;
    if q == NONE {
      assert q !in m.queries;
      RemoveAbsent(m.ready, q);
      RemoveAbsent(m.running, q);
      assert m.queries - {q} == m.queries;
    } else {
      assert w in m.busy && q in m.queries;
    }
  }

  lemma WorkerLeftKeeps(m: Master, w: int)
    requires Consistent(m)
    ensures Consistent(WorkerLeft(m, w))
  {
    if w in m.workers {
      var q, t := m.workers[w].query, WorkerLeft(m, w);
      WorkerLeftTables(m, w);
      hide Ascending, NoDup, QueriesMatch, WorkersMatch, IdsGiven, Partitioned, Remove, WorkerLeft;
      RemoveAscendingIf(m, t, q);
      DepartedPartitioned(m, t, w, q);
      DepartedMatches(m, t, w, q);
      PartedIds(m, t, q);
      PartitionedIsLinked(t);
    }
  }
}
