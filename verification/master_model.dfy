/** The Master's tables as a value, and every handler as a function on it. */
module MasterModel {
  import opened Lists

  datatype QueryState = Ready | Running | Canceled

  const NONE := -1

  /** t_query_control_block of a query that has neither finished nor been cleaned up. */
  datatype Qcb = Qcb(priority: nat, readySince: nat, worker: int, pc: nat, preemptionPending: bool, state: QueryState)

  /** t_worker_control_block of a connected worker; `query` is current_query_id. */
  datatype Wcb = Wcb(query: int, busy: bool)

  const IDLE_WORKER := Wcb(NONE, false)

  datatype Master = Master(
    queries: map<int, Qcb>, ready: seq<int>, running: seq<int>,
    workers: map<int, Wcb>, idle: seq<int>, busy: seq<int>, connected: nat,
    nextId: nat, byPriority: bool, agingInterval: nat)

  predicate Known(list: seq<int>, queries: map<int, Qcb>) {
    forall i :: 0 <= i < |list| ==> list[i] in queries
  }

  /** The query lists point to control blocks that exist. */
  predicate Linked(m: Master) {
    Known(m.ready, m.queries) && Known(m.running, m.queries)
  }

  // ---------------------------------------------------------------- the READY queue

  /** The position of the first query of strictly greater priority number than `p`. */
  function InsertPosition(ready: seq<int>, queries: map<int, Qcb>, p: nat): (k: nat)
    requires Known(ready, queries)
    ensures k <= |ready|
    ensures forall i :: 0 <= i < k ==> queries[ready[i]].priority <= p
    ensures k < |ready| ==> p < queries[ready[k]].priority
  {
    if ready == [] || p < queries[ready[0]].priority then 0 else 1 + InsertPosition(ready[1..], queries, p)
  }

  function InsertByPriority(ready: seq<int>, queries: map<int, Qcb>, q: int): seq<int>
    requires q in queries && Known(ready, queries)
  {
    var k := InsertPosition(ready, queries, queries[q].priority);
    ready[..k] + [q] + ready[k..]
  }

  /** How the scheduler queues a query: by priority, or at the end under FIFO. */
  function Enqueue(ready: seq<int>, queries: map<int, Qcb>, q: int, byPriority: bool): seq<int>
    requires q in queries && Known(ready, queries)
  {
    if byPriority then InsertByPriority(ready, queries, q) else ready + [q]
  }

  // ---------------------------------------------------------------- arrivals

  function AddWorker(m: Master, w: int): Master
    requires w !in m.workers
  {
    m.(workers := m.workers[w := IDLE_WORKER], idle := m.idle + [w], connected := m.connected + 1)
  }

  /** generate_query_id and create_query. */
  function Submit(m: Master, priority: nat, now: nat): Master
    requires Linked(m)
  {
    var q := m.nextId + 1;
    var queries := m.queries[q := Qcb(priority, now, NONE, 0, false, Ready)];
    m.(nextId := q, queries := queries, ready := Enqueue(m.ready, queries, q, m.byPriority))
  }

  // ---------------------------------------------------------------- try_dispatch

  predicate PreemptionPending(m: Master)
    requires Linked(m)
  {
    exists q :: q in m.running && m.queries[q].preemptionPending
  }

  predicate CanDispatch(m: Master)
    requires Linked(m)
  {
    m.idle != [] && m.ready != [] && !PreemptionPending(m)
  }

  /** The first READY query goes to the first idle worker; when the start message cannot be sent, everything
      is put back, the query behind those of its priority and the worker at the end. */
  function Dispatch(m: Master, sent: bool): Master
    requires Linked(m)
  {
    if !CanDispatch(m) then m
    else
      var q, w := m.ready[0], m.idle[0];
      if sent then
        m.(ready := m.ready[1..], idle := m.idle[1..], running := m.running + [q], busy := m.busy + [w],
        queries := m.queries[q := m.queries[q].(state := Running, worker := w, preemptionPending := false)],
        workers := m.workers[w := Wcb(q, true)])
      else
        var queries := m.queries[q := m.queries[q].(state := Ready, worker := NONE, preemptionPending := false)];
        m.(queries := queries, ready := Enqueue(m.ready[1..], queries, q, m.byPriority),
        idle := m.idle[1..] + [w], workers := m.workers[w := IDLE_WORKER],
        running := Remove(m.running + [q], q), busy := Remove(m.busy + [w], w))
  }

  // ---------------------------------------------------------------- messages from workers

  /** cleanup_query_resources: the query leaves every list and is freed. */
  function Cleanup(m: Master, q: int): Master {
    m.(queries := m.queries - {q}, ready := Remove(m.ready, q), running := Remove(m.running, q))
  }

  function FreeWorker(m: Master, w: int): Master {
    m.(workers := m.workers[w := IDLE_WORKER], busy := Remove(m.busy, w), idle := m.idle + [w])
  }

  /** manage_worker_evict_response, up to its try_dispatch. */
  function EvictResponse(m: Master, w: int, q: int, pc: nat, now: nat): Master
    requires Linked(m)
  {
    if w !in m.workers || q !in m.running then m
    else
      var requeued := m.queries[q := m.queries[q].(pc := pc, state := Ready, worker := NONE, preemptionPending := false, readySince := now)];
      var m1 := if m.queries[q].state == Canceled then Cleanup(m, q)
                else m.(queries := requeued, running := Remove(m.running, q), ready := InsertByPriority(m.ready, requeued, q));
      if w in m.busy then FreeWorker(m1, w) else m1.(workers := m1.workers[w := IDLE_WORKER])
  }

  /** manage_worker_end_query, up to its try_dispatch: a worker that names a query that is not running is
      marked idle but stays in busy_list. */
  function EndQuery(m: Master, w: int, q: int): Master {
    if w !in m.workers then m
    else if q !in m.running then m.(workers := m.workers[w := IDLE_WORKER])
    else Cleanup(FreeWorker(m, w), q)
  }

  /** handle_error_from_storage, up to its try_dispatch: the query is the worker's current one, whatever the
      message says. */
  function StorageError(m: Master, w: int): Master {
    if w !in m.workers || m.workers[w].query < 0 || m.workers[w].query !in m.running then m
    else Cleanup(FreeWorker(m, w), m.workers[w].query)
  }

  // ---------------------------------------------------------------- preemption and disconnection

  /** preempt_query_in_exec. */
  function Preempt(m: Master, q: int, sent: bool): Master
    requires q in m.queries
  {
    if m.queries[q].preemptionPending then m
    else if m.queries[q].worker !in m.workers then Cleanup(m, q)
    else m.(queries := m.queries[q := m.queries[q].(preemptionPending := sent)])
  }

  /** The first running query of the greatest priority number. */
  function WorstRunning(running: seq<int>, queries: map<int, Qcb>): (q: int)
    requires running != [] && Known(running, queries)
    ensures q in running
    ensures forall i :: 0 <= i < |running| ==> queries[running[i]].priority <= queries[q].priority
  {
    if |running| == 1 then running[0]
    else
      var best := WorstRunning(running[..|running| - 1], queries);
      var last := running[|running| - 1];
      if queries[last].priority > queries[best].priority then last else best
  }

  predicate MustPreempt(m: Master)
    requires Linked(m)
  {
    m.busy != [] && m.ready != [] && m.running != [] &&
    m.queries[m.ready[0]].priority < m.queries[WorstRunning(m.running, m.queries)].priority
  }

  function CheckPreemption(m: Master, sent: bool): Master
    requires Linked(m)
  {
    if MustPreempt(m) then Preempt(m, WorstRunning(m.running, m.queries), sent) else m
  }

  /** handle_query_control_disconnection for the Query Control of query `q`. */
  function ControlLeft(m: Master, q: int, sent: bool): Master {
    if q !in m.queries then m
    else if m.queries[q].state == Running then
      Preempt(m.(queries := m.queries[q := m.queries[q].(state := Canceled)]), q, sent)
    else Cleanup(m, q)
  }

  /** handle_worker_disconnection. */
  function WorkerLeft(m: Master, w: int): Master {
    if w !in m.workers then m
    else
      var q := m.workers[w].query;
      var m1 := if q >= 0 && q in m.queries then Cleanup(m, q) else m;
      m1.(workers := m1.workers - {w}, idle := Remove(m1.idle, w), busy := Remove(m1.busy, w),
      connected := if m1.connected > 0 then m1.connected - 1 else 0)
  }

  // ---------------------------------------------------------------- aging

  const TWO64 := 0x1_0000_0000_0000_0000
  const TWO32 := 0x1_0000_0000
  const TWO31 := 0x8000_0000

  /** uint64_t subtraction. */
  function Elapsed(now: nat, since: nat): int {
    (now - since) % TWO64
  }

  /** The conversion of a uint64_t to int. */
  function ToInt(x: nat): int {
    var low := x % TWO32;
    if low < TWO31 then low else low - TWO32
  }

  /** The whole aging intervals that have passed, as the source computes them. */
  function Intervals(now: nat, since: nat, interval: nat): int
    requires 0 < interval
  {
    ToInt(Elapsed(now, since) / interval)
  }

  /** One round of the aging loop on one READY query. */
  function Age(b: Qcb, now: nat, interval: nat): Qcb
    requires 0 < interval
  {
    if b.state != Ready then b
    else if b.readySince == 0 then b.(readySince := now)
    else if Elapsed(now, b.readySince) < interval then b
    else
      var n := Intervals(now, b.readySince, interval);
      if n > 0 && b.priority > 0 then
        b.(priority := if n >= b.priority then 0 else b.priority - n,
        readySince := (b.readySince + n * interval) % TWO64)
      else b
  }

  function AgeListed(queries: map<int, Qcb>, listed: seq<int>, now: nat, interval: nat): map<int, Qcb>
    requires 0 < interval
  {
    map q | q in queries :: if q in listed then Age(queries[q], now, interval) else queries[q]
  }

  function AgeAll(m: Master, now: nat): map<int, Qcb>
    requires 0 < m.agingInterval
  {
    AgeListed(m.queries, m.ready, now, m.agingInterval)
  }

  predicate AnyAged(queries: map<int, Qcb>, listed: seq<int>, now: nat, interval: nat)
    requires 0 < interval
  {
    exists q :: q in listed && q in queries && Age(queries[q], now, interval).priority != queries[q].priority
  }

  predicate PrioritiesChanged(m: Master, now: nat)
    requires 0 < m.agingInterval
  {
    AnyAged(m.queries, m.ready, now, m.agingInterval)
  }

  ghost predicate Ascending(ready: seq<int>, queries: map<int, Qcb>) {
    forall i, j :: 0 <= i < j < |ready| && ready[i] in queries && ready[j] in queries ==>
                     queries[ready[i]].priority <= queries[ready[j]].priority
  }

  /** What list_sort may return. */
  ghost predicate SortedForm(ready: seq<int>, queries: map<int, Qcb>, sorted: seq<int>) {
    multiset(sorted) == multiset(ready) && Ascending(sorted, queries)
  }

  /** The aging tick; `sorted` is what list_sort returns. */
  function Tick(m: Master, now: nat, sorted: seq<int>): Master
    requires 0 < m.agingInterval
  {
    m.(queries := AgeAll(m, now), ready := if PrioritiesChanged(m, now) then sorted else m.ready)
  }
}
