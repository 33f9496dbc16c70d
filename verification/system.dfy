/** The Master, its Workers and the FIFO channels between them: exactly-once, in-order execution. */
module SystemModel {
  import opened Common
  import opened Lists
  import opened MasterModel
  import opened MasterTheorems
  import opened AgingTheorems
  import opened MasterRuns
  import MasterEffects
  import opened WorkerModel
  import opened Protocol

  /** `log` is a ghost record: the program counters completed so far for each query, in order. */
  datatype System = System(
    m: Master, up: map<int, seq<FromWorker>>, down: map<int, seq<ToWorker>>,
    ws: map<int, WorkerState>, log: map<int, seq<nat>>)

  ghost predicate Wired(s: System) {
    s.up.Keys == s.m.workers.Keys && s.down.Keys == s.m.workers.Keys && s.ws.Keys == s.m.workers.Keys
  }

  /** How many instructions of `q` are done. */
  function DoneOf(s: System, q: int): nat {
    if q in s.log then |s.log[q]| else 0
  }

  ghost predicate WorkerAgrees(s: System, w: int)
    requires Wired(s) && w in s.m.workers
  {
    Agrees(s.ws[w], LivePart(s.up[w], s.m.queries.Keys, s.m.nextId), s.down[w],
           s.m.workers[w].query, DoneOf(s, s.m.workers[w].query), s.m.queries.Keys, s.m.nextId)
  }

  ghost predicate InOrder(done: seq<nat>) {
    forall i :: 0 <= i < |done| ==> done[i] == i
  }

  ghost predicate LogsOk(s: System) {
    && (forall q :: q in s.m.queries ==> q in s.log)
    && (forall q :: q in s.log ==> 0 < q <= s.m.nextId && InOrder(s.log[q]))
  }

  /** A READY query resumes at the first instruction that is not done. */
  ghost predicate ReadyResumes(s: System) {
    forall q :: q in s.m.ready && q in s.m.queries ==> s.m.queries[q].pc == DoneOf(s, q)
  }

  ghost predicate Inv(s: System) {
    && Consistent(s.m) && Wired(s) && LogsOk(s) && ReadyResumes(s)
    && forall w :: w in s.m.workers ==> WorkerAgrees(s, w)
  }

  // ---------------------------------------------------------------- steps

  /** One atomic step: a handler of the Master, or one critical section of a Worker's two threads. */
  datatype Event =
    | Outside(op: MasterOp)
    | MasterReceives(w: int, now: nat)
    | ListenerReceives(w: int)
    | ListenerSendsBack(w: int)
    | ExecutorSteps(w: int, o: Outcome)

  /** What is not caused by a message from a Worker. */
  predicate FromOutside(op: MasterOp) {
    !op.EvictArrives? && !op.EndArrives? && !op.StorageErrorArrives?
  }

  /** The handler that a worker's message triggers. */
  function Handler(w: int, msg: FromWorker, now: nat): MasterOp {
    match msg
    case Evict(q, pc) => EvictArrives(w, q, pc, now)
    case End(q) => EndArrives(w, q)
  }

  ghost predicate Enabled(s: System, e: Event)
    requires Wired(s)
  {
    match e
    case Outside(op) => FromOutside(op) && Expected(s.m, op)
    case MasterReceives(w, _) => w in s.m.workers && s.up[w] != []
    case ListenerReceives(w) => w in s.m.workers && s.down[w] != [] && s.ws[w].ejecting.None?
    case ListenerSendsBack(w) => w in s.m.workers && s.ws[w].ejecting.Some?
    case ExecutorSteps(w, _) => w in s.m.workers
  }

  function Record(log: map<int, seq<nat>>, completed: seq<Context>): map<int, seq<nat>> {
    if completed != [] && completed[0].q in log
    then log[completed[0].q := log[completed[0].q] + [completed[0].pc]] else log
  }

  ghost function ExecutorEvent(s: System, w: int, o: Outcome): System
    requires Wired(s) && w in s.m.workers
  {
    var e := ExecutorNext(s.ws[w], o);
    s.(ws := s.ws[w := e.after], up := s.up[w := s.up[w] + e.sent], log := Record(s.log, e.completed))
  }

  ghost function ListenerEvent(s: System, w: int): System
    requires Wired(s) && w in s.m.workers && s.down[w] != []
  {
    s.(ws := s.ws[w := Receive(s.ws[w], s.down[w][0])], down := s.down[w := s.down[w][1..]])
  }

  ghost function SendBackEvent(s: System, w: int): System
    requires Wired(s) && w in s.m.workers
  {
    s.(ws := s.ws[w := SendBack(s.ws[w]).0], up := s.up[w := s.up[w] + SendBack(s.ws[w]).1])
  }

  // ---------------------------------------------------------------- workers do not disturb each other

  lemma QueriesApart(m: Master, w: int, x: int)
    requires Consistent(m) && w in m.workers && x in m.workers && m.workers[w].query == m.workers[x].query > 0
    ensures w == x
  {
    assert w in m.busy && x in m.busy;
  }

  /** The query of a worker is running and its own. */
  lemma WorkerQuery(m: Master, w: int)
    requires Consistent(m) && w in m.workers
    ensures var q := m.workers[w].query;
            if q > 0 then w in m.busy && q in m.running && q in m.queries && m.queries[q].worker == w && q !in m.ready && q <= m.nextId
            else w in m.idle && q == NONE
  {
    if w in m.idle {
      assert m.workers[w] == IDLE_WORKER;
    } else {
      assert w in m.busy;
    }
  }

  lemma SameWorkerAgrees(s: System, t: System, w: int)
    requires Wired(s) && Wired(t) && w in s.m.workers && t.m == s.m && WorkerAgrees(s, w)
    requires t.ws[w] == s.ws[w] && t.up[w] == s.up[w] && t.down[w] == s.down[w]
    requires DoneOf(t, s.m.workers[w].query) == DoneOf(s, s.m.workers[w].query)
    ensures WorkerAgrees(t, w)
  {
  }

  lemma ListenerEventKeeps(s: System, w: int)
    requires Inv(s) && w in s.m.workers && s.down[w] != [] && s.ws[w].ejecting.None?
    ensures Inv(ListenerEvent(s, w))
  {
    hide Consistent, Agrees, LogsOk;
    var t := ListenerEvent(s, w);
    assert WorkerAgrees(s, w);
    var q := s.m.workers[w].query;
    ListenerKeepsAgreement(s.ws[w], LivePart(s.up[w], s.m.queries.Keys, s.m.nextId), s.down[w], q, DoneOf(s, q), s.m.queries.Keys, s.m.nextId);
    assert WorkerAgrees(t, w);
    forall x | x in s.m.workers && x != w
      ensures WorkerAgrees(t, x)
    {
      SameWorkerAgrees(s, t, x);
    }
    LogsSame(s, t);
  }

  lemma LogsSame(s: System, t: System)
    requires LogsOk(s) && t.log == s.log && t.m == s.m
    ensures LogsOk(t)
  {
  }

  lemma SendBackEventKeeps(s: System, w: int)
    requires Inv(s) && w in s.m.workers && s.ws[w].ejecting.Some?
    ensures Inv(SendBackEvent(s, w))
  {
    hide Consistent, Agrees, LogsOk;
    var t := SendBackEvent(s, w);
    assert WorkerAgrees(s, w);
    var q := s.m.workers[w].query;
    SendBackKeepsAgreement(s.ws[w], LivePart(s.up[w], s.m.queries.Keys, s.m.nextId), s.down[w], q, DoneOf(s, q), s.m.queries.Keys, s.m.nextId);
    LivePartSent(s.up[w], SendBack(s.ws[w]).1, s.m.queries.Keys, s.m.nextId);
    assert WorkerAgrees(t, w);
    forall x | x in s.m.workers && x != w
      ensures WorkerAgrees(t, x)
    {
      SameWorkerAgrees(s, t, x);
    }
    LogsSame(s, t);
  }

  /** What the executor completes is the next instruction of its worker's query. */
  lemma RecordKeeps(s: System, w: int, completed: seq<Context>)
    requires LogsOk(s) && Consistent(s.m) && w in s.m.workers && ReadyResumes(s)
    requires completed == [] || (s.m.workers[w].query > 0 && completed == [Context(s.m.workers[w].query, DoneOf(s, s.m.workers[w].query))])
    ensures var t := s.(log := Record(s.log, completed));
            && LogsOk(t) && ReadyResumes(t)
            && DoneOf(t, s.m.workers[w].query) == DoneOf(s, s.m.workers[w].query) + |completed|
            && (forall x :: x in s.m.workers && x != w ==> DoneOf(t, s.m.workers[x].query) == DoneOf(s, s.m.workers[x].query))
  {
    var q := s.m.workers[w].query;
    WorkerQuery(s.m, w);
    if completed != [] {
      forall x | x in s.m.workers && x != w
        ensures s.m.workers[x].query != q
      {
        if s.m.workers[x].query == q { QueriesApart(s.m, w, x); }
      }
    }
  }

  lemma ExecutorEventKeeps(s: System, w: int, o: Outcome)
    requires Inv(s) && w in s.m.workers
    ensures Inv(ExecutorEvent(s, w, o))
  {
    hide Consistent, Agrees, LogsOk, ReadyResumes, Record, ExecutorNext;
    var t := ExecutorEvent(s, w, o);
    var q := s.m.workers[w].query;
    var e := ExecutorNext(s.ws[w], o);
    assert WorkerAgrees(s, w);
    ExecutorKeepsAgreement(s.ws[w], o, LivePart(s.up[w], s.m.queries.Keys, s.m.nextId), s.down[w], q, DoneOf(s, q), s.m.queries.Keys, s.m.nextId);
    LivePartSent(s.up[w], e.sent, s.m.queries.Keys, s.m.nextId);
    RecordKeeps(s, w, e.completed);
    LogsMoved(s.(log := t.log), t);
    assert WorkerAgrees(t, w);
    forall x | x in s.m.workers && x != w
      ensures WorkerAgrees(t, x)
    {
      SameWorkerAgrees(s, t, x);
    }
  }

  lemma LogsMoved(s: System, t: System)
    requires LogsOk(s) && ReadyResumes(s) && t.log == s.log && t.m == s.m
    ensures LogsOk(t) && ReadyResumes(t)
  {
  }

  // ---------------------------------------------------------------- handlers of the Master

  /** What a handler did elsewhere does not disturb a worker that keeps its query; a preempt request on its
      way does not either. */
  lemma OtherAgrees(s: System, t: System, x: int, y: int)
    requires Wired(s) && Wired(t) && x in s.m.workers && x in t.m.workers && WorkerAgrees(s, x)
    requires t.ws[x] == s.ws[x] && t.up[x] == s.up[x] && (t.down[x] == s.down[x] || t.down[x] == s.down[x] + [PreemptRequest(y)])
    requires t.m.workers[x].query == s.m.workers[x].query && DoneOf(t, s.m.workers[x].query) == DoneOf(s, s.m.workers[x].query)
    requires s.m.workers[x].query > 0 ==> s.m.workers[x].query in t.m.queries
    requires s.m.nextId <= t.m.nextId && forall q :: q in t.m.queries ==> q in s.m.queries || q > s.m.nextId
    ensures WorkerAgrees(t, x)
  {
    var q := s.m.workers[x].query;
    var n := DoneOf(s, q);
    assert UpOk(LivePart(s.up[x], s.m.queries.Keys, s.m.nextId), q, n);
    hide Agrees, UpOk;
    LivePartFrame(s.up[x], q, n, s.m.queries.Keys, s.m.nextId, t.m.queries.Keys, t.m.nextId);
    AgreesFrame(s.ws[x], LivePart(s.up[x], s.m.queries.Keys, s.m.nextId), s.down[x], q, n, s.m.queries.Keys, s.m.nextId, t.m.queries.Keys, t.m.nextId);
    if t.down[x] != s.down[x] {
      PreemptKeepsAgreement(s.ws[x], LivePart(t.up[x], t.m.queries.Keys, t.m.nextId), s.down[x], y, q, n, t.m.queries.Keys, t.m.nextId);
    }
  }

  /** The handler forgets queries or workers, but starts, resumes and moves nothing. */
  ghost predicate Quietly(m: Master, t: Master) {
    && t.nextId == m.nextId
    && (forall q :: q in t.queries ==> q in m.queries)
    && (forall w :: w in t.workers ==> w in m.workers && t.workers[w].query == m.workers[w].query)
    && (forall q :: q in t.ready && q in t.queries ==> q in m.ready && q in m.queries && t.queries[q].pc == m.queries[q].pc)
  }

  lemma LogsQuiet(s: System, t: System)
    requires LogsOk(s) && ReadyResumes(s) && t.log == s.log && Quietly(s.m, t.m)
    ensures LogsOk(t) && ReadyResumes(t)
  {
  }

  lemma QuietEventKeeps(s: System, t: System, y: int)
    requires Inv(s) && Consistent(t.m) && Wired(t) && Quietly(s.m, t.m) && t.log == s.log
    requires forall w :: w in t.m.workers && w in s.m.workers ==>
                           t.ws[w] == s.ws[w] && t.up[w] == s.up[w] && (t.down[w] == s.down[w] || t.down[w] == s.down[w] + [PreemptRequest(y)])
    ensures Inv(t)
  {
    hide LogsOk, ReadyResumes, Consistent, WorkerAgrees;
    LogsQuiet(s, t);
    forall x | x in t.m.workers
      ensures WorkerAgrees(t, x)
    {
      WorkerQuery(t.m, x);
      OtherAgrees(s, t, x, y);
    }
  }

  /** The preempt request a handler sends, if any. */
  function WithPreempt(down: map<int, seq<ToWorker>>, m: Master, q: int, sent: bool): map<int, seq<ToWorker>> {
    if sent && q in m.queries && !m.queries[q].preemptionPending && m.queries[q].worker in down
    then down[m.queries[q].worker := down[m.queries[q].worker] + [PreemptRequest(q)]] else down
  }

  ghost function Only<V>(f: map<int, V>, keys: set<int>): map<int, V> {
    map w | w in f && w in keys :: f[w]
  }

  /** What a handler that no worker triggered leaves in the channels. */
  ghost function OutsideEvent(s: System, op: MasterOp): System
    requires Wired(s) && Consistent(s.m) && Expected(s.m, op)
  {
    var t := Apply(s.m, op);
    match op
    case WorkerArrives(w) => s.(m := t, up := s.up[w := []], down := s.down[w := []], ws := s.ws[w := NEW_WORKER])
    case QueryArrives(_, _) => s.(m := t, log := s.log[t.nextId := []])
    case TryDispatch(sent) =>
      if sent && CanDispatch(s.m) && s.m.idle[0] in s.down && s.m.ready[0] in s.m.queries
      then s.(m := t, down := s.down[s.m.idle[0] := s.down[s.m.idle[0]] + [Start(s.m.ready[0], s.m.queries[s.m.ready[0]].pc)]])
      else s.(m := t)
    case ControlLeaves(q, sent) =>
      if q in s.m.queries && s.m.queries[q].state == Running then s.(m := t, down := WithPreempt(s.down, s.m, q, sent)) else s.(m := t)
    case WorkerLeaves(w) =>
      s.(m := t, up := Only(s.up, t.workers.Keys), down := Only(s.down, t.workers.Keys), ws := Only(s.ws, t.workers.Keys))
    case PreemptionCheck(sent) =>
      if MustPreempt(s.m) then s.(m := t, down := WithPreempt(s.down, s.m, WorstRunning(s.m.running, s.m.queries), sent)) else s.(m := t)
    case _ => s.(m := t)
  }

  // ---------------------------------------------------------------- each handler

  lemma WorkerArrivesKeeps(s: System, w: int)
    requires Inv(s) && w !in s.m.workers
    ensures Inv(OutsideEvent(s, WorkerArrives(w)))
  {
    var t := OutsideEvent(s, WorkerArrives(w));
    AddWorkerKeeps(s.m, w);
    hide Consistent, LogsOk, ReadyResumes, Agrees;
    assert LogsOk(t) && ReadyResumes(t) by { SameQueries(s, t); }
    FreshAgrees(t, w);
    forall x | x in s.m.workers
      ensures WorkerAgrees(t, x)
    {
      assert WorkerAgrees(s, x);
      WorkerQuery(s.m, x);
      OtherAgrees(s, t, x, 0);
    }
  }

  lemma SameQueries(s: System, t: System)
    requires LogsOk(s) && ReadyResumes(s) && t.log == s.log && t.m.queries == s.m.queries && t.m.ready == s.m.ready && t.m.nextId == s.m.nextId
    ensures LogsOk(t) && ReadyResumes(t)
  {
  }

  lemma FreshAgrees(t: System, w: int)
    requires Wired(t) && w in t.m.workers && t.ws[w] == NEW_WORKER && t.up[w] == [] && t.down[w] == [] && t.m.workers[w] == IDLE_WORKER
    requires LogsOk(t)
    ensures WorkerAgrees(t, w)
  {
    assert NONE !in t.log;
  }

  lemma QueryArrivesKeeps(s: System, priority: nat, now: nat)
    requires Inv(s)
    ensures Inv(OutsideEvent(s, QueryArrives(priority, now)))
  {
    var t := OutsideEvent(s, QueryArrives(priority, now));
    SubmitKeeps(s.m, priority, now);
    SubmitLogs(s, t, priority, now);
    hide Consistent, LogsOk, ReadyResumes, Agrees, Enqueue;
    forall x | x in s.m.workers
      ensures WorkerAgrees(t, x)
    {
      assert WorkerAgrees(s, x);
      WorkerQuery(s.m, x);
      OtherAgrees(s, t, x, 0);
    }
  }

  lemma SubmitLogs(s: System, t: System, priority: nat, now: nat)
    requires LogsOk(s) && ReadyResumes(s) && Consistent(s.m)
    requires t.m == Submit(s.m, priority, now) && t.log == s.log[t.m.nextId := []]
    ensures LogsOk(t) && ReadyResumes(t)
  {
    var q := s.m.nextId + 1;
    assert q !in s.m.queries && q !in s.m.ready;
    SubmitSorted(s.m, t.m.queries, q);
    EnqueueKeeps(s.m.ready, t.m.queries, q, s.m.byPriority);
    hide Enqueue, Ascending;
  }

  lemma TickQuiet(m: Master, now: nat, sorted: seq<int>)
    requires Consistent(m) && 0 < m.agingInterval && SortedForm(m.ready, AgeAll(m, now), sorted)
    ensures Quietly(m, Tick(m, now, sorted)) && Tick(m, now, sorted).workers == m.workers
  {
    SameElements(m.ready, sorted);
    var t := Tick(m, now, sorted);
    forall q | q in m.queries
      ensures t.queries[q].pc == m.queries[q].pc
    {
      AgeKeepsLinks(m.queries[q], now, m.agingInterval);
    }
  }

  lemma PreemptQuiet(m: Master, q: int, sent: bool)
    requires Consistent(m) && q in m.running && q in m.queries
    ensures Quietly(m, Preempt(m, q, sent))
  {
    assert q !in m.ready && m.queries[q].worker in m.workers;
  }

  lemma CleanupQuiet(m: Master, q: int)
    requires Consistent(m)
    ensures Quietly(m, Cleanup(m, q))
  {
    CleanupMembers(m, q);
    hide Remove;
  }

  lemma ControlLeftQuiet(m: Master, q: int, sent: bool)
    requires Consistent(m) && (q in m.queries ==> m.queries[q].state != Canceled)
    ensures Quietly(m, ControlLeft(m, q, sent)) && ControlLeft(m, q, sent).workers == m.workers
  {
    ControlLeftKeepsIff(m, q, sent);
    CleanupQuiet(m, q);
    if q in m.queries && m.queries[q].state == Running {
      assert q in m.running && q !in m.ready;
      assert m.queries[q].worker in m.workers;
    }
  }

  lemma WorkerLeftQuiet(m: Master, w: int)
    requires Consistent(m)
    ensures Quietly(m, WorkerLeft(m, w)) && WorkerLeft(m, w).workers.Keys <= m.workers.Keys
  {
    if w in m.workers {
      WorkerLeftTables(m, w);
      hide WorkerLeft;
    }
  }

  lemma FailedDispatchQuiet(m: Master)
    requires Consistent(m) && CanDispatch(m)
    ensures Quietly(m, Dispatch(m, false))
  {
    FailedDispatchKeeps(m);
    RevertedTables(m);
    hide Dispatch;
  }

  lemma DispatchLogs(s: System, t: System)
    requires LogsOk(s) && ReadyResumes(s) && Consistent(s.m) && CanDispatch(s.m) && t.m == Dispatch(s.m, true) && t.log == s.log
    ensures LogsOk(t) && ReadyResumes(t)
  {
    SentDispatchKeeps(s.m);
    hide Dispatch;
  }

  /** A dispatched query is carried by its start message. */
  lemma SentDispatchEventKeeps(s: System)
    requires Inv(s) && CanDispatch(s.m)
    ensures Inv(OutsideEvent(s, TryDispatch(true)))
  {
    var q, w := s.m.ready[0], s.m.idle[0];
    var t := OutsideEvent(s, TryDispatch(true));
    DispatchHeads(s.m);
    SentDispatchKeeps(s.m);
    DispatchLogs(s, t);
    var n := s.m.queries[q].pc;
    assert n == DoneOf(s, q) && q > 0 && s.m.workers[w] == IDLE_WORKER && NONE !in s.log;
    assert WorkerAgrees(s, w);
    var live := s.m.queries.Keys;
    assert t.m.queries.Keys == live;
    StartKeepsAgreement(s.ws[w], LivePart(s.up[w], live, s.m.nextId), s.down[w], q, n, live, s.m.nextId);
    assert WorkerAgrees(t, w);
    hide Consistent, LogsOk, ReadyResumes, Agrees, Dispatch, CanDispatch;
    forall x | x in s.m.workers && x != w
      ensures WorkerAgrees(t, x)
    {
      assert WorkerAgrees(s, x);
      WorkerQuery(s.m, x);
      OtherAgrees(s, t, x, 0);
    }
  }

  lemma OutsideKeeps(s: System, op: MasterOp)
    requires Inv(s) && FromOutside(op) && Expected(s.m, op)
    ensures Inv(OutsideEvent(s, op))
  {
    hide Consistent, LogsOk, ReadyResumes, WorkerAgrees, Quietly, Tick, ControlLeft, WorkerLeft, CheckPreemption, MustPreempt, SortedForm;
    ApplyKeeps(s.m, op);
    var t := OutsideEvent(s, op);
    match op
    case WorkerArrives(w) => WorkerArrivesKeeps(s, w);
    case QueryArrives(priority, now) => QueryArrivesKeeps(s, priority, now);
    case TryDispatch(sent) => DispatchEventKeeps(s, sent);
    case ControlLeaves(q, sent) =>
      ControlLeftQuiet(s.m, q, sent);
      QuietEventKeeps(s, t, q);
    case WorkerLeaves(w) =>
      WorkerLeftQuiet(s.m, w);
      QuietEventKeeps(s, t, 0);
    case AgingTick(now, sorted) =>
      TickQuiet(s.m, now, sorted);
      QuietEventKeeps(s, t, 0);
    case PreemptionCheck(sent) => PreemptionEventKeeps(s, sent);
  }

  lemma DispatchEventKeeps(s: System, sent: bool)
    requires Inv(s)
    ensures Inv(OutsideEvent(s, TryDispatch(sent)))
  {
    var t := OutsideEvent(s, TryDispatch(sent));
    if CanDispatch(s.m) && sent {
      SentDispatchEventKeeps(s);
    } else if CanDispatch(s.m) {
      FailedDispatchKeeps(s.m);
      FailedDispatchQuiet(s.m);
      assert Wired(t);
      QuietEventKeeps(s, t, 0);
    } else {
      assert t == s;
    }
  }

  lemma PreemptionEventKeeps(s: System, sent: bool)
    requires Inv(s)
    ensures Inv(OutsideEvent(s, PreemptionCheck(sent)))
  {
    hide LogsOk, ReadyResumes, WorkerAgrees;
    var t := OutsideEvent(s, PreemptionCheck(sent));
    if MustPreempt(s.m) {
      var q := WorstRunning(s.m.running, s.m.queries);
      assert q in s.m.running && q in s.m.queries && s.m.queries[q].worker in s.m.workers;
      PreemptMarks(s.m, q, sent);
      PreemptQuiet(s.m, q, sent);
      hide Consistent;
      QuietEventKeeps(s, t, q);
    } else {
      assert t == s;
    }
  }

  /** The preempt request goes to the worker of the query that is chosen for preemption, and to nobody else. */
  lemma PreemptionRequests(s: System, sent: bool, w: int)
    requires Wired(s) && Consistent(s.m) && s.m.byPriority && w in s.m.workers
    ensures var t := OutsideEvent(s, PreemptionCheck(sent));
            var q := s.m.workers[w].query;
            t.down.Keys == s.down.Keys &&
            t.down[w] == s.down[w] + if sent && MasterEffects.Chosen(s.m, q) then [PreemptRequest(q)] else []
  {
    MasterEffects.MustPreemptIff(s.m);
    WorkerQuery(s.m, w);
    var q := s.m.workers[w].query;
    if MustPreempt(s.m) {
      var worst := WorstRunning(s.m.running, s.m.queries);
      MasterEffects.WorstIsFirst(s.m);
      assert worst in s.m.running && worst in s.m.queries && s.m.queries[worst].worker in s.m.workers;
      assert s.m.workers[s.m.queries[worst].worker].query == worst;
      hide Consistent, MustPreempt, WorstRunning, MasterEffects.BetterWaits, MasterEffects.FirstWorst;
      if MasterEffects.FirstWorst(s.m, q) {
        MasterEffects.FirstWorstUnique(s.m, q, worst);
      }
    }
  }

  // ---------------------------------------------------------------- messages from workers

  /** The Master takes the first message of a worker. */
  ghost function ReceiveEvent(s: System, w: int, now: nat): System
    requires Wired(s) && Consistent(s.m) && w in s.m.workers && s.up[w] != [] && Expected(s.m, Handler(w, s.up[w][0], now))
  {
    s.(m := Apply(s.m, Handler(w, s.up[w][0], now)), up := s.up[w := s.up[w][1..]])
  }

  /** The first message of a worker is either the late EVICT of a query that has ended, or about its query. */
  lemma FirstMessage(s: System, w: int)
    requires Wired(s) && w in s.m.workers && s.up[w] != [] && WorkerAgrees(s, w)
    ensures var msg, q := s.up[w][0], s.m.workers[w].query;
            if msg.Evict? && Dead(msg.q, s.m.queries.Keys, s.m.nextId) then true
            else LivePart(s.up[w], s.m.queries.Keys, s.m.nextId) == s.up[w] && q > 0 && (msg == Evict(q, DoneOf(s, q)) || msg == End(q))
  {
  }

  /** No hypothesis about the workers' messages is needed: the protocol only lets through those the Master
      can expect. */
  lemma MessageIsExpected(s: System, w: int, now: nat)
    requires Inv(s) && w in s.m.workers && s.up[w] != []
    ensures Expected(s.m, Handler(w, s.up[w][0], now))
  {
    assert WorkerAgrees(s, w);
    FirstMessage(s, w);
    WorkerQuery(s.m, w);
    assert forall q :: q in s.m.running ==> q in s.m.queries;
  }

  lemma LateEvictKeeps(s: System, w: int, now: nat)
    requires Inv(s) && w in s.m.workers && s.up[w] != [] && Expected(s.m, Handler(w, s.up[w][0], now))
    requires s.up[w][0].Evict? && Dead(s.up[w][0].q, s.m.queries.Keys, s.m.nextId)
    ensures Inv(ReceiveEvent(s, w, now))
  {
    var t := ReceiveEvent(s, w, now);
    assert s.up[w][0].q !in s.m.running;
    assert t.m == s.m;
    assert LivePart(t.up[w], s.m.queries.Keys, s.m.nextId) == LivePart(s.up[w], s.m.queries.Keys, s.m.nextId);
    hide Consistent, Agrees, LogsOk, LivePart;
    assert WorkerAgrees(s, w) && WorkerAgrees(t, w);
    forall x | x in s.m.workers && x != w
      ensures WorkerAgrees(t, x)
    {
      SameWorkerAgrees(s, t, x);
    }
    LogsMoved(s, t);
  }

  /** What taking the message of the worker's query does to the Master. */
  ghost predicate Taken(m: Master, t: Master, w: int, q: int, n: nat) {
    && t.nextId == m.nextId && t.workers == m.workers[w := IDLE_WORKER] && w in m.workers && m.workers[w].query == q
    && t.queries.Keys <= m.queries.Keys
    && (forall x :: x in t.ready && x in t.queries ==> if x == q then t.queries[x].pc == n
                      else x in m.ready && x in m.queries && t.queries[x].pc == m.queries[x].pc)
  }

  lemma EvictTakes(m: Master, w: int, q: int, n: nat, now: nat)
    requires Consistent(m) && w in m.workers && q > 0 && m.workers[w].query == q
    ensures Taken(m, EvictResponse(m, w, q, n, now), w, q, n)
  {
    WorkerQuery(m, w);
    CleanupMembers(m, q);
    if m.queries[q].state != Canceled {
      RequeueKeeps(m, w, q, n, now);
    }
    hide Remove, InsertByPriority;
  }

  lemma EndTakes(m: Master, w: int, q: int, n: nat)
    requires Consistent(m) && w in m.workers && q > 0 && m.workers[w].query == q
    ensures Taken(m, EndQuery(m, w, q), w, q, n) && q !in EndQuery(m, w, q).queries
  {
    WorkerQuery(m, w);
    CleanupMembers(m, q);
    hide Remove;
  }

  lemma TakenLogs(s: System, t: System, w: int, q: int)
    requires LogsOk(s) && ReadyResumes(s) && t.log == s.log && Taken(s.m, t.m, w, q, DoneOf(s, q))
    ensures LogsOk(t) && ReadyResumes(t) && NONE !in t.log
  {
  }

  lemma TakenKeeps(s: System, t: System, w: int)
    requires Inv(s) && w in s.m.workers && s.up[w] != []
    requires 0 < s.m.workers[w].query <= s.m.nextId && (s.up[w][0].End? ==> s.m.workers[w].query !in t.m.queries)
    requires Taken(s.m, t.m, w, s.m.workers[w].query, DoneOf(s, s.m.workers[w].query))
    requires LivePart(s.up[w], s.m.queries.Keys, s.m.nextId) == s.up[w] && Consistent(t.m)
    requires t == s.(m := t.m, up := s.up[w := s.up[w][1..]])
    ensures Inv(t)
  {
    var q := s.m.workers[w].query;
    TakenLogs(s, t, w, q);
    hide Consistent, Agrees, LogsOk, ReadyResumes, LivePart;
    assert t.m.workers.Keys == s.m.workers.Keys;
    assert WorkerAgrees(s, w);
    assert t.m.queries.Keys <= s.m.queries.Keys;
    TakenKeepsAgreement(s.ws[w], s.up[w], s.down[w], q, DoneOf(s, q), s.m.queries.Keys, t.m.queries.Keys, s.m.nextId);
    assert WorkerAgrees(t, w);
    forall x | x in s.m.workers && x != w
      ensures WorkerAgrees(t, x)
    {
      WorkerQuery(t.m, x);
      OtherAgrees(s, t, x, 0);
    }
  }

  lemma ReceiveEventKeeps(s: System, w: int, now: nat)
    requires Inv(s) && w in s.m.workers && s.up[w] != []
    ensures Expected(s.m, Handler(w, s.up[w][0], now)) && Inv(ReceiveEvent(s, w, now))
  {
    var msg := s.up[w][0];
    MessageIsExpected(s, w, now);
    assert WorkerAgrees(s, w);
    FirstMessage(s, w);
    hide LogsOk, ReadyResumes, Agrees, Partitioned, QueriesMatch, WorkersMatch, IdsGiven, ListsOk, ReadySorted, EvictResponse, EndQuery, LivePart;
    if msg.Evict? && Dead(msg.q, s.m.queries.Keys, s.m.nextId) {
      LateEvictKeeps(s, w, now);
    } else {
      var t := ReceiveEvent(s, w, now);
      var q := s.m.workers[w].query;
      ApplyKeeps(s.m, Handler(w, msg, now));
      WorkerQuery(s.m, w);
      if msg.Evict? {
        EvictTakes(s.m, w, q, DoneOf(s, q), now);
      } else {
        EndTakes(s.m, w, q, DoneOf(s, q));
      }
      TakenKeeps(s, t, w);
    }
  }

  // ---------------------------------------------------------------- runs

  ghost function Next(s: System, e: Event): System
    requires Inv(s) && Enabled(s, e)
  {
    match e
    case Outside(op) => OutsideEvent(s, op)
    case MasterReceives(w, now) => MessageIsExpected(s, w, now); ReceiveEvent(s, w, now)
    case ListenerReceives(w) => ListenerEvent(s, w)
    case ListenerSendsBack(w) => SendBackEvent(s, w)
    case ExecutorSteps(w, o) => ExecutorEvent(s, w, o)
  }

  lemma NextKeeps(s: System, e: Event)
    requires Inv(s) && Enabled(s, e)
    ensures Inv(Next(s, e))
  {
    hide Consistent, LogsOk, ReadyResumes, WorkerAgrees, OutsideEvent, ReceiveEvent, ListenerEvent, SendBackEvent, ExecutorEvent, Expected;
    match e
    case Outside(op) => OutsideKeeps(s, op);
    case MasterReceives(w, now) => ReceiveEventKeeps(s, w, now);
    case ListenerReceives(w) => ListenerEventKeeps(s, w);
    case ListenerSendsBack(w) => SendBackEventKeeps(s, w);
    case ExecutorSteps(w, o) => ExecutorEventKeeps(s, w, o);
  }

  /** The Master alone, before anyone connects. */
  function Initial(byPriority: bool, agingInterval: nat): System {
    System(START.(byPriority := byPriority, agingInterval := agingInterval), map[], map[], map[], map[])
  }

  ghost predicate Interleaving(s: System, events: seq<Event>, t: System)
    requires Inv(s)
    decreases |events|
  {
    if events == [] then t == s
    else Enabled(s, events[0]) && (NextKeeps(s, events[0]); Interleaving(Next(s, events[0]), events[1..], t))
  }

  lemma {:induction false} InterleavingKeeps(s: System, events: seq<Event>, t: System)
    requires Inv(s) && Interleaving(s, events, t)
    ensures Inv(t)
    decreases |events|
  {
    hide Inv, Enabled, Next;
    if events != [] {
      NextKeeps(s, events[0]);
      InterleavingKeeps(Next(s, events[0]), events[1..], t);
    }
  }

  lemma InitialInv(byPriority: bool, agingInterval: nat)
    ensures Inv(Initial(byPriority, agingInterval))
  {
    StartConsistent(byPriority, agingInterval);
  }

  /** The events lead from the Master alone to `t`. */
  ghost predicate Reaches(byPriority: bool, agingInterval: nat, events: seq<Event>, t: System) {
    InitialInv(byPriority, agingInterval);
    Interleaving(Initial(byPriority, agingInterval), events, t)
  }

  /** Exactly-once, in-order execution: over any interleaving, the program counters completed for a query
      are 0, 1, 2, ... without gap or repeat, and the Master's tables stay consistent. */
  lemma ExecutedInOrder(byPriority: bool, agingInterval: nat, events: seq<Event>, t: System)
    requires Reaches(byPriority, agingInterval, events, t)
    ensures Consistent(t.m) && forall q, i :: q in t.log && 0 <= i < |t.log[q]| ==> t.log[q][i] == i
  {
    InitialInv(byPriority, agingInterval);
    InterleavingKeeps(Initial(byPriority, agingInterval), events, t);
  }
}
