/** What each handler does to the tables, without its own search functions. */
module MasterEffects {
  import opened Lists
  import opened MasterModel
  import opened MasterTheorems
  import opened AgingTheorems
  import opened MasterRuns

  // ---------------------------------------------------------------- check_preemption

  /** `q` is the first of the running queries of the greatest priority number. */
  ghost predicate FirstWorst(m: Master, q: int) {
    && q in m.running && q in m.queries && Known(m.running, m.queries)
    && (forall x :: x in m.running && x in m.queries ==> m.queries[x].priority <= m.queries[q].priority)
    && (forall x :: x in m.running && x in m.queries && Before(m.running, x, q) ==> m.queries[x].priority < m.queries[q].priority)
  }

  /** Some READY query is better than some running one. */
  ghost predicate BetterWaits(m: Master) {
    exists r, x :: r in m.ready && r in m.queries && x in m.running && x in m.queries && m.queries[r].priority < m.queries[x].priority
  }

  lemma WorstIsFirst(m: Master)
    requires Known(m.running, m.queries) && NoDup(m.running) && m.running != []
    ensures FirstWorst(m, WorstRunning(m.running, m.queries))
  {
    var q := WorstRunning(m.running, m.queries);
    WorstComesFirst(m.running, m.queries);
    forall x | x in m.running && x in m.queries && Before(m.running, x, q)
      ensures m.queries[x].priority < m.queries[q].priority
    {
      var i, j :| 0 <= i < j < |m.running| && m.running[i] == x && m.running[j] == q;
    }
  }

  lemma {:induction false} WorstComesFirst(running: seq<int>, queries: map<int, Qcb>)
    requires running != [] && Known(running, queries) && NoDup(running)
    ensures var q := WorstRunning(running, queries);
            forall i, j :: 0 <= i < j < |running| && running[j] == q ==> queries[running[i]].priority < queries[q].priority
  {
    if |running| > 1 {
      var front := running[..|running| - 1];
      WorstComesFirst(front, queries);
      var best := WorstRunning(front, queries);
      assert forall i :: 0 <= i < |front| ==> front[i] == running[i] && queries[running[i]].priority <= queries[best].priority;
    }
  }

  lemma FirstWorstUnique(m: Master, q: int, x: int)
    requires NoDup(m.running) && FirstWorst(m, q) && FirstWorst(m, x)
    ensures q == x
  {
    var i :| 0 <= i < |m.running| && m.running[i] == q;
    var j :| 0 <= j < |m.running| && m.running[j] == x;
    assert i < j ==> Before(m.running, q, x);
    assert j < i ==> Before(m.running, x, q);
  }

  /** The source compares the head of the ready queue with the worst running query. */
  lemma MustPreemptIff(m: Master)
    requires Consistent(m) && m.byPriority
    ensures MustPreempt(m) <==> BetterWaits(m)
  {
    if BetterWaits(m) {
      var r, x :| r in m.ready && r in m.queries && x in m.running && x in m.queries && m.queries[r].priority < m.queries[x].priority;
      var i :| 0 <= i < |m.ready| && m.ready[i] == r;
      var j :| 0 <= j < |m.running| && m.running[j] == x;
      assert m.queries[x].worker in m.busy;
      assert m.ready[0] in m.queries && m.queries[m.ready[0]].priority <= m.queries[r].priority;
    }
    if MustPreempt(m) {
      var q := WorstRunning(m.running, m.queries);
      var r := m.ready[0];
      assert r in m.ready && r in m.queries && q in m.running && q in m.queries && m.queries[r].priority < m.queries[q].priority;
    }
  }

  /** A request is sent, and the query marked, exactly for the first running query of the greatest number, when
      some READY query is better than some running one and the query is not marked yet. */
  ghost predicate Chosen(m: Master, q: int) {
    FirstWorst(m, q) && BetterWaits(m) && q in m.queries && !m.queries[q].preemptionPending
  }

  lemma CheckPreemptionMarksIff(m: Master, sent: bool)
    requires Consistent(m) && m.byPriority
    ensures var t := CheckPreemption(m, sent);
            && t == m.(queries := t.queries) && t.queries.Keys == m.queries.Keys
            && forall q :: q in m.queries ==>
                             t.queries[q] == m.queries[q].(preemptionPending := m.queries[q].preemptionPending || (sent && Chosen(m, q)))
  {
    MustPreemptIff(m);
    var t := CheckPreemption(m, sent);
    if MustPreempt(m) {
      var w := WorstRunning(m.running, m.queries);
      WorstIsFirst(m);
      PreemptMarks(m, w, sent);
      hide Consistent, MustPreempt, CheckPreemption, WorstRunning, BetterWaits, FirstWorst;
      forall q | q in m.queries
        ensures t.queries[q] == m.queries[q].(preemptionPending := m.queries[q].preemptionPending || (sent && Chosen(m, q)))
      {
        if q != w && FirstWorst(m, q) {
          FirstWorstUnique(m, q, w);
        }
      }
    }
  }

  // ---------------------------------------------------------------- try_dispatch

  ghost predicate SomePending(m: Master) {
    exists q :: q in m.running && q in m.queries && m.queries[q].preemptionPending
  }

  /** While a preemption is pending, or without a READY query or an idle worker, dispatch does nothing; otherwise the
      first query goes to the first worker, or, when its message cannot be sent, only the two queues are reordered. */
  lemma DispatchEffect(m: Master, sent: bool)
    requires Consistent(m)
    ensures var t := Dispatch(m, sent);
            if m.ready == [] || m.idle == [] || SomePending(m) then t == m
            else if sent then
              && Started(m, t, m.idle[0], m.ready[0]) && t.ready == m.ready[1..] && t.idle == m.idle[1..]
              && t.running == m.running + [m.ready[0]] && t.busy == m.busy + [m.idle[0]]
            else Reordered(m, t) && t.idle == m.idle[1..] + [m.idle[0]]
  {
    assert forall q :: q in m.running ==> q in m.queries;
    assert PreemptionPending(m) <==> SomePending(m);
    hide ListsOk, Partitioned, QueriesMatch, WorkersMatch, IdsGiven, ReadySorted, Started, Reordered, PreemptionPending, SomePending;
    if CanDispatch(m) {
      if sent { SentDispatchKeeps(m); } else { FailedDispatchKeeps(m); RevertedTables(m); }
    }
  }

  // ---------------------------------------------------------------- messages from workers

  /** A cancelled query is gone after its EVICT; any other is READY at the given instruction, and the worker is idle. */
  lemma EvictEffect(m: Master, w: int, q: int, pc: nat, now: nat)
    requires Consistent(m) && w in m.workers
    ensures var t := EvictResponse(m, w, q, pc, now);
            && (q !in m.running ==> t == m)
            && (q in m.running && q in m.queries && m.workers[w].query == q ==>
                  if m.queries[q].state == Canceled then Parted(m, t, w, q)
                  else Evicted(m, t, w, q, pc, now) && (m.byPriority ==> Placed(m, t, q)))
  {
    if q in m.running {
      assert q in m.queries;
      if m.workers[w].query == q {
        assert w in m.busy && m.queries[q].worker == w;
        if m.queries[q].state == Canceled {
          CleanupMembers(m, q);
          FreeWorkerMembers(m, w);
        } else {
          RequeueKeeps(m, w, q, pc, now);
          RequeuePlaces(m, w, q, pc, now);
        }
      }
    }
  }

  lemma RequeuePlaces(m: Master, w: int, q: int, pc: nat, now: nat)
    requires Consistent(m) && q in m.running && q in m.queries && m.queries[q].state != Canceled && m.queries[q].worker == w
    requires w in m.workers
    ensures m.byPriority ==> Placed(m, EvictResponse(m, w, q, pc, now), q)
  {
    var t := EvictResponse(m, w, q, pc, now);
    var requeued := t.queries;
    SamePriorities(m, requeued);
    if m.byPriority {
      var k := InsertPosition(m.ready, requeued, requeued[q].priority);
      assert t.ready == m.ready[..k] + [q] + m.ready[k..];
      hide EvictResponse, QueriesMatch, WorkersMatch, IdsGiven;
      forall i | 0 <= i < |m.ready| && m.ready[i] in m.queries
        ensures i < k ==> m.queries[m.ready[i]].priority <= requeued[q].priority
        ensures k <= i ==> requeued[q].priority < m.queries[m.ready[i]].priority
      {
        var x := m.ready[i];
        assert x in m.queries && requeued[x].priority == m.queries[x].priority;
        if k <= i {
          var y := m.ready[k];
          assert requeued[y].priority <= requeued[x].priority;
        }
      }
    }
  }

  /** END from the worker that has the query: the query is gone and the worker idle. */
  lemma EndEffect(m: Master, w: int, q: int)
    requires Consistent(m) && w in m.workers
    ensures var t := EndQuery(m, w, q);
            && (q in m.running && m.workers[w].query == q ==> Parted(m, t, w, q))
            && (q !in m.running ==> t == m.(workers := m.workers[w := IDLE_WORKER]))
  {
    if q in m.running && m.workers[w].query == q {
      assert w in m.busy;
      CleanupMembers(m, q);
      FreeWorkerMembers(m, w);
      hide Remove;
    }
  }

  /** A storage error ends the worker's current query, whatever its message names. */
  lemma StorageErrorEffect(m: Master, w: int)
    requires Consistent(m) && w in m.workers
    ensures var t, q := StorageError(m, w), m.workers[w].query; if w in m.busy then Parted(m, t, w, q) else t == m
  {
    var q := m.workers[w].query;
    if w in m.busy {
      assert q in m.running && q in m.queries && q > 0;
      CleanupMembers(m, q);
      FreeWorkerMembers(m, w);
      hide Remove;
    }
  }

  // ---------------------------------------------------------------- disconnections

  /** `t` is `m` without the READY query `q`. */
  ghost predicate Dropped(m: Master, t: Master, q: int) {
    && t == m.(queries := m.queries - {q}, ready := t.ready, running := t.running)
    && (forall x :: x in t.ready <==> x in m.ready && x != q)
    && (forall x :: x in t.running <==> x in m.running && x != q)
  }

  /** A READY query whose Query Control leaves is gone. A running one becomes CANCELED and stays where it is, whether
      or not the preempt request could be sent; the request is sent unless one was sent before. */
  lemma ControlLeftEffect(m: Master, q: int, sent: bool)
    requires Consistent(m)
    ensures var t := ControlLeft(m, q, sent);
            && (q !in m.queries ==> t == m)
            && (q in m.ready && q in m.queries ==> Dropped(m, t, q))
            && (q in m.queries && m.queries[q].state == Running ==>
                  t == m.(queries := m.queries[q := m.queries[q].(state := Canceled, preemptionPending := m.queries[q].preemptionPending || sent)]))
  {
    if q in m.queries {
      if m.queries[q].state == Running {
        assert q in m.running && m.queries[q].worker in m.workers;
      } else if q in m.ready {
        CleanupMembers(m, q);
        assert q !in m.running;
        hide Remove;
      }
    }
  }

  /** A worker that leaves takes its query with it, and nothing else. */
  lemma WorkerLeftEffect(m: Master, w: int)
    requires Consistent(m) && w in m.workers
    ensures Departed(m, WorkerLeft(m, w), w, m.workers[w].query)
  {
    WorkerLeftTables(m, w);
  }

  // ---------------------------------------------------------------- aging

  /** A tick ages every READY query, each by the time it has waited, and no other. */
  lemma TickAgesReady(m: Master, now: nat, sorted: seq<int>)
    requires Consistent(m) && 0 < m.agingInterval
    ensures var t := Tick(m, now, sorted);
            && t.queries.Keys == m.queries.Keys && t == m.(queries := t.queries, ready := t.ready)
            && (forall q :: q in m.queries && q !in m.ready ==> t.queries[q] == m.queries[q])
            && (forall q :: q in m.ready && q in m.queries && 0 < m.queries[q].readySince && InRange(m.queries[q].readySince, now, m.agingInterval) ==>
                              t.queries[q].priority == Aged(m.queries[q].priority, m.queries[q].readySince, now, m.agingInterval))
            && (forall q :: q in m.ready && q in m.queries && m.queries[q].readySince == 0 ==>
                              t.queries[q] == m.queries[q].(readySince := now))
  {
    var t := Tick(m, now, sorted);
    forall q | q in m.ready && q in m.queries && 0 < m.queries[q].readySince && InRange(m.queries[q].readySince, now, m.agingInterval)
      ensures t.queries[q].priority == Aged(m.queries[q].priority, m.queries[q].readySince, now, m.agingInterval)
    {
      TickAges(m.queries[q], now, m.agingInterval);
    }
  }

  /** Nothing but a tick touches the control block of a query that stays READY. */
  lemma ReadyBlockKept(m: Master, op: MasterOp, q: int)
    requires Consistent(m) && Expected(m, op) && q in m.ready && q in m.queries && !op.AgingTick?
    requires q in Apply(m, op).ready && q in Apply(m, op).queries
    ensures Apply(m, op).queries[q] == m.queries[q]
  {
    assert q !in m.running;
    var t := Apply(m, op);
    hide WorkersMatch, ReadySorted, Remove, InsertByPriority, Enqueue, Age;
    match op
    case QueryArrives(priority, now) => assert q != m.nextId + 1;
    case TryDispatch(sent) => DispatchEffect(m, sent);
    case PreemptionCheck(sent) =>
      if MustPreempt(m) {
        assert WorstRunning(m.running, m.queries) in m.running;
      }
    case _ =>
  }

  // ---------------------------------------------------------------- aging over runs

  /** The times of the ticks of a run. */
  function TickTimes(ops: seq<MasterOp>): seq<nat> {
    if ops == [] then [] else (if ops[0].AgingTick? then [ops[0].now] else []) + TickTimes(ops[1..])
  }

  /** A run in which `q` stays READY. */
  ghost predicate StaysReady(m: Master, ops: seq<MasterOp>, q: int)
    requires Consistent(m)
    decreases |ops|
  {
    && q in m.ready && q in m.queries
    && (ops != [] ==> Expected(m, ops[0]) && (ApplyKeeps(m, ops[0]); StaysReady(Apply(m, ops[0]), ops[1..], q)))
  }

  lemma ApplyKeepsInterval(m: Master, op: MasterOp)
    requires Consistent(m) && Expected(m, op)
    ensures Apply(m, op).agingInterval == m.agingInterval
  {
    hide ListsOk, Partitioned, QueriesMatch, WorkersMatch, ReadySorted, IdsGiven, Remove, Enqueue, InsertByPriority, PreemptionPending, MustPreempt;
  }

  /** Over a run the control block of a query that stays READY sees exactly the ticks. */
  lemma {:induction false} RunIsTicks(m: Master, ops: seq<MasterOp>, t: Master, q: int)
    requires Consistent(m) && 0 < m.agingInterval && StaysReady(m, ops, q) && Reachable(m, ops, t)
    ensures q in m.queries && q in t.queries && t.queries[q] == AgeTicks(m.queries[q], TickTimes(ops), m.agingInterval)
    decreases |ops|
  {
    hide ListsOk, Partitioned, QueriesMatch, WorkersMatch, ReadySorted, IdsGiven, Expected, Age;
    if ops != [] {
      var u := Apply(m, ops[0]);
      ApplyKeeps(m, ops[0]);
      ApplyKeepsInterval(m, ops[0]);
      assert q in u.ready && q in u.queries;
      if ops[0].AgingTick? {
        assert u.queries[q] == Age(m.queries[q], ops[0].now, m.agingInterval);
        assert TickTimes(ops)[0] == ops[0].now && TickTimes(ops)[1..] == TickTimes(ops[1..]);
      } else {
        ReadyBlockKept(m, ops[0], q);
        assert TickTimes(ops) == TickTimes(ops[1..]);
      }
      hide Apply;
      RunIsTicks(u, ops[1..], t, q);
    }
  }

  /** Over any run of the Master in which a query stays READY, with whatever happens to other queries between the
      ticks, its priority after the last tick depends only on how long it has waited until then. */
  lemma RunAgesByWaiting(m: Master, ops: seq<MasterOp>, t: Master, q: int)
    requires Consistent(m) && 0 < m.agingInterval && StaysReady(m, ops, q) && Reachable(m, ops, t)
    requires TickTimes(ops) != [] && Increasing(TickTimes(ops)) && 0 < m.queries[q].readySince <= TickTimes(ops)[0]
    requires InRange(m.queries[q].readySince, TickTimes(ops)[|TickTimes(ops)| - 1], m.agingInterval)
    ensures q in t.queries
    ensures t.queries[q].priority == Aged(m.queries[q].priority, m.queries[q].readySince, TickTimes(ops)[|TickTimes(ops)| - 1], m.agingInterval)
  {
    RunIsTicks(m, ops, t, q);
    assert m.queries[q].state == Ready;
    hide Consistent, StaysReady, Reachable, TickTimes, Age, Aged, InRange;
    AgingIsScheduleFree(m.queries[q], TickTimes(ops), m.agingInterval);
  }
}
