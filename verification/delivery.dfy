/** A live query loses its carrier in exactly one kind of step. */
module Delivery {
  import opened Common
  import opened Lists
  import opened MasterModel
  import opened MasterTheorems
  import opened AgingTheorems
  import opened MasterRuns
  import opened WorkerModel
  import opened Protocol
  import opened SystemModel
  import opened Carriers

  /** The end of `q` has been reported and not yet taken. */
  ghost predicate EndReported(s: System, q: int)
    requires Wired(s)
  {
    exists w, i :: w in s.m.workers && 0 <= i < |s.up[w]| && s.up[w][i] == End(q)
  }

  ghost predicate Carried(s: System, q: int)
    requires Wired(s)
  {
    exists place, pc :: Carries(s, place, q, pc)
  }

  /** Some place carries `q`, or its end is on the way. */
  ghost predicate Accounted(s: System, q: int)
    requires Wired(s)
  {
    Carried(s, q) || EndReported(s, q)
  }

  /** The same as seen from the worker that has the query. */
  ghost predicate InHand(s: WorkerState, t: seq<FromWorker>, down: seq<ToWorker>, q: int, n: nat) {
    || HasStart(down) || t != [] || Holds(s, Context(q, n))
    || (Doomed(s) && s.flags.current == Context(q, n) && Quiet(t, down))
  }

  // ---------------------------------------------------------------- steps of the worker

  lemma ExecutorKeepsInHandIff(s: WorkerState, o: Outcome, t: seq<FromWorker>, down: seq<ToWorker>, q: int, n: nat, live: set<int>, nextId: nat)
    requires Agrees(s, t, down, q, n, live, nextId) && q > 0 && InHand(s, t, down, q, n)
    ensures var e := ExecutorNext(s, o);
            InHand(e.after, Sent(t, e.sent, live, nextId), down, q, n + |e.completed|) <==>
            !(Doomed(s) && s.flags.current == Context(q, n) && Quiet(t, down))
  {
    hide HasStart, DownOk, UpOk;
    var e := ExecutorNext(s, o);
    if e.sent != [] {
      LivePartSingle(e.sent[0], live, nextId);
      assert e.sent == [e.sent[0]];
    } else {
      assert t + [] == t;
    }
  }

  lemma ListenerKeepsInHand(s: WorkerState, t: seq<FromWorker>, down: seq<ToWorker>, q: int, n: nat, live: set<int>, nextId: nat)
    requires Agrees(s, t, down, q, n, live, nextId) && q > 0 && down != [] && s.ejecting.None? && InHand(s, t, down, q, n)
    ensures InHand(Receive(s, down[0]), t, down[1..], q, n)
  {
    hide DownOk, HasStart, UpOk, LivePart;
    TailStarts(down, q, n);
  }

  lemma SendBackKeepsInHand(s: WorkerState, t: seq<FromWorker>, down: seq<ToWorker>, q: int, n: nat, live: set<int>, nextId: nat)
    requires Agrees(s, t, down, q, n, live, nextId) && q > 0 && s.ejecting.Some?
    ensures InHand(SendBack(s).0, Sent(t, SendBack(s).1, live, nextId), down, q, n)
  {
    hide DownOk, HasStart;
    LivePartSingle(SendBack(s).1[0], live, nextId);
  }

  // ---------------------------------------------------------------- the worker's view is enough

  /** The query, its worker and its messages. */
  ghost predicate HandOf(s: System, w: int, q: int)
    requires Wired(s) && w in s.m.workers
  {
    InHand(s.ws[w], LivePart(s.up[w], s.m.queries.Keys, s.m.nextId), s.down[w], q, DoneOf(s, q))
  }

  lemma EndIsLive(up: seq<FromWorker>, i: nat, x: int, q: int, n: nat, live: set<int>, nextId: nat)
    requires i < |up| && up[i] == End(x) && UpOk(LivePart(up, live, nextId), q, n)
    ensures x == q && LivePart(up, live, nextId) != []
  {
    var t := LivePart(up, live, nextId);
    LivePartIsSuffix(up, live, nextId);
    hide LivePart;
    var k := |up| - |t|;
    assert k <= i;
    assert up[k..][i - k] == up[i];
  }

  lemma WorkerUpOk(s: System, w: int)
    requires Wired(s) && w in s.m.workers && WorkerAgrees(s, w)
    ensures UpOk(LivePart(s.up[w], s.m.queries.Keys, s.m.nextId), s.m.workers[w].query, DoneOf(s, s.m.workers[w].query))
  {
  }

  lemma EndIsOfWorker(s: System, w: int, i: nat, q: int)
    requires Inv(s) && w in s.m.workers && i < |s.up[w]| && s.up[w][i] == End(q)
    ensures s.m.workers[w].query == q && LivePart(s.up[w], s.m.queries.Keys, s.m.nextId) != []
  {
    hide Consistent, LogsOk, ReadyResumes, WorkerAgrees, LivePart, UpOk;
    WorkerUpOk(s, w);
    EndIsLive(s.up[w], i, q, s.m.workers[w].query, DoneOf(s, s.m.workers[w].query), s.m.queries.Keys, s.m.nextId);
  }

  lemma AccountedInHand(s: System, w: int, q: int)
    requires Inv(s) && q in s.m.queries && q > 0 && w in s.m.workers && s.m.workers[w].query == q && Accounted(s, q)
    ensures HandOf(s, w, q)
  {
    hide Consistent, LogsOk, ReadyResumes, LivePart, WorkerAgrees, Agrees, Holds;
    ReadyIsNotAtWorkerOf(s, w, q);
    if Carried(s, q) {
      var place, pc :| Carries(s, place, q, pc);
      CarriedPoint(s, place, q, pc);
      if !place.ReadyQueue? {
        QueriesApart(s.m, w, place.w);
        PlaceFacts(s, place, q, pc);
      }
    } else {
      var x, i :| x in s.m.workers && 0 <= i < |s.up[x]| && s.up[x][i] == End(q);
      EndIsOfWorker(s, x, i, q);
      QueriesApart(s.m, w, x);
    }
  }

  lemma ReadyIsNotAtWorkerOf(s: System, w: int, q: int)
    requires Inv(s) && w in s.m.workers && s.m.workers[w].query == q > 0
    ensures q !in s.m.ready && q in s.m.queries
  {
    WorkerQuery(s.m, w);
  }

  lemma MessageAccounts(s: System, w: int, q: int)
    requires Wired(s) && w in s.m.workers && UpOk(LivePart(s.up[w], s.m.queries.Keys, s.m.nextId), q, DoneOf(s, q))
    requires LivePart(s.up[w], s.m.queries.Keys, s.m.nextId) != []
    ensures Accounted(s, q)
  {
    var t := LivePart(s.up[w], s.m.queries.Keys, s.m.nextId);
    LivePartIsSuffix(s.up[w], s.m.queries.Keys, s.m.nextId);
    hide LivePart;
    var k := |s.up[w]| - |t|;
    assert s.up[w][k..][0] == s.up[w][k] == t[0];
    if t[0].End? {
      assert EndReported(s, q);
    } else {
      assert Carries(s, EvictMessage(w, k), q, DoneOf(s, q));
    }
  }

  lemma InHandAccounted(s: System, w: int, q: int)
    requires Inv(s) && q in s.m.queries && q > 0 && w in s.m.workers && s.m.workers[w].query == q && HandOf(s, w, q)
    ensures Accounted(s, q)
  {
    assert WorkerAgrees(s, w);
    assert DownOk(s.down[w], q, DoneOf(s, q)) && UpOk(LivePart(s.up[w], s.m.queries.Keys, s.m.nextId), q, DoneOf(s, q));
    hide Consistent, LogsOk, ReadyResumes, WorkerAgrees, LivePart, Holds, UpOk, EndReported;
    if HasStart(s.down[w]) {
      var i :| 0 <= i < |s.down[w]| && s.down[w][i].Start?;
      assert Carries(s, StartMessage(w, i), q, DoneOf(s, q));
    } else if LivePart(s.up[w], s.m.queries.Keys, s.m.nextId) != [] {
      MessageAccounts(s, w, q);
    } else {
      assert Carries(s, AtWorker(w), q, DoneOf(s, q));
    }
  }

  lemma ReadyIsAccounted(s: System, q: int)
    requires Wired(s) && q in s.m.ready && q in s.m.queries
    ensures Accounted(s, q)
  {
    assert Carries(s, ReadyQueue, q, s.m.queries[q].pc);
  }

  // ---------------------------------------------------------------- other steps

  /** Like `OtherAgrees`: what happens elsewhere takes nothing out of a worker's hand. */
  lemma OtherInHand(s: System, t: System, x: int, q: int, y: int)
    requires Inv(s) && Wired(t) && x in s.m.workers && x in t.m.workers && s.m.workers[x].query == q > 0 && q in t.m.queries
    requires t.ws[x] == s.ws[x] && t.up[x] == s.up[x] && (t.down[x] == s.down[x] || t.down[x] == s.down[x] + [PreemptRequest(y)])
    requires DoneOf(t, q) == DoneOf(s, q)
    requires s.m.nextId <= t.m.nextId && forall z :: z in t.m.queries ==> z in s.m.queries || z > s.m.nextId
    ensures HandOf(s, x, q) ==> HandOf(t, x, q)
  {
    var n := DoneOf(s, q);
    assert WorkerAgrees(s, x);
    assert UpOk(LivePart(s.up[x], s.m.queries.Keys, s.m.nextId), q, n) && DownOk(s.down[x], q, n);
    hide Consistent, LogsOk, ReadyResumes, Agrees, UpOk, Holds, DownOk, HasStart;
    LivePartFrame(s.up[x], q, n, s.m.queries.Keys, s.m.nextId, t.m.queries.Keys, t.m.nextId);
    PreemptAppended(s.down[x], y, q, n);
  }

  /** A step that keeps the query at its worker keeps it accounted for. */
  lemma KeptAtWorker(s: System, t: System, x: int, q: int, y: int)
    requires Inv(s) && Inv(t) && x in s.m.workers && x in t.m.workers && s.m.workers[x].query == t.m.workers[x].query == q > 0
    requires t.ws[x] == s.ws[x] && t.up[x] == s.up[x] && (t.down[x] == s.down[x] || t.down[x] == s.down[x] + [PreemptRequest(y)])
    requires DoneOf(t, q) == DoneOf(s, q)
    requires s.m.nextId <= t.m.nextId && forall z :: z in t.m.queries ==> z in s.m.queries || z > s.m.nextId
    ensures Accounted(s, q) ==> Accounted(t, q)
  {
    hide Consistent, LogsOk, ReadyResumes, WorkerAgrees, Accounted, HandOf;
    ReadyIsNotAtWorkerOf(s, x, q);
    ReadyIsNotAtWorkerOf(t, x, q);
    if Accounted(s, q) {
      AccountedInHand(s, x, q);
      OtherInHand(s, t, x, q, y);
      InHandAccounted(t, x, q);
    }
  }

  /** A live query is READY, or at the worker it is assigned to. */
  lemma WhereIs(m: Master, q: int) returns (w: int)
    requires Consistent(m) && q in m.queries && q !in m.ready
    ensures w in m.workers && m.workers[w].query == q > 0
  {
    w := m.queries[q].worker;
    assert q in m.running;
  }

  // ---------------------------------------------------------------- handlers of the Master

  /** What a handler did to the worker that has `q` now: nothing but perhaps a preempt request for `y`. */
  ghost predicate Untouched(s: System, t: System, w: int, q: int, y: int)
    requires Wired(s) && Wired(t)
  {
    && w in s.m.workers && w in t.m.workers && s.m.workers[w].query == t.m.workers[w].query == q
    && t.ws[w] == s.ws[w] && t.up[w] == s.up[w]
    && (t.down[w] == s.down[w] || t.down[w] == s.down[w] + [PreemptRequest(y)])
    && DoneOf(t, q) == DoneOf(s, q)
  }

  ghost predicate OnlyNew(m: Master, t: Master) {
    m.nextId <= t.nextId && forall z :: z in t.queries ==> z in m.queries || z > m.nextId
  }

  lemma UntouchedAccounted(s: System, t: System, w: int, q: int, y: int)
    requires Inv(s) && Inv(t) && q > 0 && Untouched(s, t, w, q, y) && OnlyNew(s.m, t.m) && Accounted(s, q)
    ensures Accounted(t, q)
  {
    hide Inv, Accounted;
    KeptAtWorker(s, t, w, q, y);
  }

  /** A quiet handler leaves every worker that stays as it was. */
  lemma QuietAccounted(s: System, t: System, w: int, q: int, y: int)
    requires Inv(s) && Inv(t) && Quietly(s.m, t.m) && t.log == s.log && Accounted(s, q)
    requires w in t.m.workers && t.m.workers[w].query == q > 0
    requires forall x :: x in t.m.workers && x in s.m.workers ==>
                           t.ws[x] == s.ws[x] && t.up[x] == s.up[x] && (t.down[x] == s.down[x] || t.down[x] == s.down[x] + [PreemptRequest(y)])
    ensures Accounted(t, q)
  {
    hide Consistent, LogsOk, ReadyResumes, WorkerAgrees, Accounted;
    UntouchedAccounted(s, t, w, q, y);
  }

  lemma DispatchAccounted(s: System, w: int, q: int, sent: bool)
    requires Inv(s) && Inv(OutsideEvent(s, TryDispatch(sent))) && Accounted(s, q)
    requires var t := OutsideEvent(s, TryDispatch(sent)); w in t.m.workers && t.m.workers[w].query == q > 0
    ensures Accounted(OutsideEvent(s, TryDispatch(sent)), q)
  {
    hide LogsOk, ReadyResumes, WorkerAgrees, Accounted;
    var t := OutsideEvent(s, TryDispatch(sent));
    if !CanDispatch(s.m) {
      assert t == s;
    } else if !sent {
      FailedDispatchQuiet(s.m);
      QuietAccounted(s, t, w, q, 0);
    } else {
      SentDispatchAccounted(s, w, q);
    }
  }

  lemma SentDispatchAccounted(s: System, w: int, q: int)
    requires Inv(s) && Inv(OutsideEvent(s, TryDispatch(true))) && Accounted(s, q) && CanDispatch(s.m)
    requires var t := OutsideEvent(s, TryDispatch(true)); w in t.m.workers && t.m.workers[w].query == q > 0
    ensures Accounted(OutsideEvent(s, TryDispatch(true)), q)
  {
    DispatchHeads(s.m);
    SentDispatchKeeps(s.m);
    hide Consistent, LogsOk, ReadyResumes, WorkerAgrees, Accounted, Dispatch, CanDispatch, HasStart;
    var t := OutsideEvent(s, TryDispatch(true));
    if w == s.m.idle[0] {
      StartIsCarrier(s.down[w], s.m.ready[0], s.m.queries[s.m.ready[0]].pc);
      ReadyIsNotAtWorkerOf(t, w, q);
      InHandAccounted(t, w, q);
    } else {
      UntouchedAccounted(s, t, w, q, 0);
    }
  }

  lemma StartIsCarrier(down: seq<ToWorker>, q: int, n: nat)
    ensures HasStart(down + [Start(q, n)])
  {
    StartAppended(down, q, n);
  }

  lemma SubmitAccounted(s: System, w: int, q: int, priority: nat, now: nat)
    requires Inv(s) && Inv(OutsideEvent(s, QueryArrives(priority, now))) && Accounted(s, q) && q in s.m.queries
    requires var t := OutsideEvent(s, QueryArrives(priority, now)); w in t.m.workers && t.m.workers[w].query == q > 0
    ensures Accounted(OutsideEvent(s, QueryArrives(priority, now)), q)
  {
    assert q <= s.m.nextId;
    hide Consistent, LogsOk, ReadyResumes, WorkerAgrees, Accounted, Enqueue;
    UntouchedAccounted(s, OutsideEvent(s, QueryArrives(priority, now)), w, q, 0);
  }

  lemma ArrivalAccounted(s: System, w: int, q: int, x: int)
    requires Inv(s) && Expected(s.m, WorkerArrives(x)) && Inv(OutsideEvent(s, WorkerArrives(x))) && Accounted(s, q)
    requires var t := OutsideEvent(s, WorkerArrives(x)); w in t.m.workers && t.m.workers[w].query == q > 0
    ensures Accounted(OutsideEvent(s, WorkerArrives(x)), q)
  {
    hide Consistent, LogsOk, ReadyResumes, WorkerAgrees, Accounted;
    UntouchedAccounted(s, OutsideEvent(s, WorkerArrives(x)), w, q, 0);
  }

  lemma PreemptionAccounted(s: System, w: int, q: int, sent: bool)
    requires Inv(s) && Inv(OutsideEvent(s, PreemptionCheck(sent))) && Accounted(s, q)
    requires var t := OutsideEvent(s, PreemptionCheck(sent)); w in t.m.workers && t.m.workers[w].query == q > 0
    ensures Accounted(OutsideEvent(s, PreemptionCheck(sent)), q)
  {
    hide LogsOk, ReadyResumes, WorkerAgrees, Accounted;
    var t := OutsideEvent(s, PreemptionCheck(sent));
    if MustPreempt(s.m) {
      var x := WorstRunning(s.m.running, s.m.queries);
      assert x in s.m.running && x in s.m.queries && s.m.queries[x].worker in s.m.workers;
      PreemptQuiet(s.m, x, sent);
      hide Consistent;
      QuietAccounted(s, t, w, q, x);
    } else {
      assert t == s;
    }
  }

  lemma ControlLeftAccounted(s: System, w: int, q: int, x: int, sent: bool)
    requires Inv(s) && Expected(s.m, ControlLeaves(x, sent)) && Inv(OutsideEvent(s, ControlLeaves(x, sent))) && Accounted(s, q)
    requires var t := OutsideEvent(s, ControlLeaves(x, sent)); w in t.m.workers && t.m.workers[w].query == q > 0
    ensures Accounted(OutsideEvent(s, ControlLeaves(x, sent)), q)
  {
    ControlLeftQuiet(s.m, x, sent);
    hide Consistent, LogsOk, ReadyResumes, WorkerAgrees, Accounted, Quietly, ControlLeft;
    QuietAccounted(s, OutsideEvent(s, ControlLeaves(x, sent)), w, q, x);
  }

  lemma WorkerLeftAccounted(s: System, w: int, q: int, x: int)
    requires Inv(s) && Inv(OutsideEvent(s, WorkerLeaves(x))) && Accounted(s, q)
    requires var t := OutsideEvent(s, WorkerLeaves(x)); w in t.m.workers && t.m.workers[w].query == q > 0
    ensures Accounted(OutsideEvent(s, WorkerLeaves(x)), q)
  {
    WorkerLeftQuiet(s.m, x);
    hide Consistent, LogsOk, ReadyResumes, WorkerAgrees, Accounted, Quietly, WorkerLeft;
    QuietAccounted(s, OutsideEvent(s, WorkerLeaves(x)), w, q, 0);
  }

  lemma TickAccounted(s: System, w: int, q: int, now: nat, sorted: seq<int>)
    requires Inv(s) && Expected(s.m, AgingTick(now, sorted)) && Inv(OutsideEvent(s, AgingTick(now, sorted))) && Accounted(s, q)
    requires var t := OutsideEvent(s, AgingTick(now, sorted)); w in t.m.workers && t.m.workers[w].query == q > 0
    ensures Accounted(OutsideEvent(s, AgingTick(now, sorted)), q)
  {
    TickQuiet(s.m, now, sorted);
    hide Consistent, LogsOk, ReadyResumes, WorkerAgrees, Accounted, Quietly, Tick;
    QuietAccounted(s, OutsideEvent(s, AgingTick(now, sorted)), w, q, 0);
  }

  lemma OutsideAtWorker(s: System, op: MasterOp, w: int, q: int)
    requires Inv(s) && FromOutside(op) && Expected(s.m, op) && Inv(OutsideEvent(s, op)) && q in s.m.queries && Accounted(s, q)
    requires w in OutsideEvent(s, op).m.workers && OutsideEvent(s, op).m.workers[w].query == q > 0
    ensures Accounted(OutsideEvent(s, op), q)
  {
    hide LogsOk, ReadyResumes, WorkerAgrees, Accounted, OutsideEvent, Consistent, Expected;
    match op
    case WorkerArrives(x) => ArrivalAccounted(s, w, q, x);
    case QueryArrives(priority, now) => SubmitAccounted(s, w, q, priority, now);
    case TryDispatch(sent) => DispatchAccounted(s, w, q, sent);
    case ControlLeaves(x, sent) => ControlLeftAccounted(s, w, q, x, sent);
    case WorkerLeaves(x) => WorkerLeftAccounted(s, w, q, x);
    case AgingTick(now, sorted) => TickAccounted(s, w, q, now, sorted);
    case PreemptionCheck(sent) => PreemptionAccounted(s, w, q, sent);
  }

  lemma OutsideKeepsAccounted(s: System, op: MasterOp, q: int)
    requires Inv(s) && FromOutside(op) && Expected(s.m, op) && q in s.m.queries && q in OutsideEvent(s, op).m.queries
    requires Accounted(s, q)
    ensures Inv(OutsideEvent(s, op)) && Accounted(OutsideEvent(s, op), q)
  {
    hide LogsOk, ReadyResumes, WorkerAgrees, Accounted, OutsideEvent, Consistent, Expected, FromOutside;
    OutsideKeeps(s, op);
    var t := OutsideEvent(s, op);
    if q in t.m.ready {
      ReadyIsAccounted(t, q);
    } else {
      var w := WhereIs(t.m, q);
      OutsideAtWorker(s, op, w, q);
    }
  }

  // ---------------------------------------------------------------- messages and critical sections

  lemma ReceiveKeepsAccounted(s: System, w: int, now: nat, q: int)
    requires Inv(s) && w in s.m.workers && s.up[w] != [] && Expected(s.m, Handler(w, s.up[w][0], now))
    requires q in s.m.queries && q in ReceiveEvent(s, w, now).m.queries && Accounted(s, q)
    ensures Accounted(ReceiveEvent(s, w, now), q)
  {
    ReceiveEventKeeps(s, w, now);
    var t := ReceiveEvent(s, w, now);
    ReceivedTables(s, w, now);
    hide LogsOk, ReadyResumes, WorkerAgrees, Accounted, ReceiveEvent, Consistent, Expected;
    if q in t.m.ready {
      ReadyIsAccounted(t, q);
    } else {
      var x := WhereIs(t.m, q);
      if x == w {
        LateMessageAccounted(s, t, w, q);
      } else {
        UntouchedAccounted(s, t, x, q, 0);
      }
    }
  }

  /** Dropping the late EVICT of a finished query leaves the worker's hand as it was. */
  lemma LateMessageAccounted(s: System, t: System, w: int, q: int)
    requires Inv(s) && Inv(t) && t == s.(up := t.up) && w in s.m.workers && s.m.workers[w].query == q > 0 && q in s.m.queries
    requires LivePart(t.up[w], s.m.queries.Keys, s.m.nextId) == LivePart(s.up[w], s.m.queries.Keys, s.m.nextId)
    requires Accounted(s, q)
    ensures Accounted(t, q)
  {
    hide LogsOk, ReadyResumes, WorkerAgrees, Accounted, Consistent, LivePart, Holds, HasStart;
    AccountedInHand(s, w, q);
    InHandAccounted(t, w, q);
  }

  /** Taking a message either changes nothing at the Master, or frees the worker that sent it. */
  lemma ReceivedTables(s: System, w: int, now: nat)
    requires Inv(s) && w in s.m.workers && s.up[w] != [] && Expected(s.m, Handler(w, s.up[w][0], now))
    ensures var t := ReceiveEvent(s, w, now);
            && t.ws == s.ws && t.down == s.down && t.log == s.log && t.up == s.up[w := s.up[w][1..]]
            && OnlyNew(s.m, t.m) && t.m.queries.Keys <= s.m.queries.Keys
            && (t.m.workers == s.m.workers[w := IDLE_WORKER] ||
                (t.m == s.m && LivePart(t.up[w], s.m.queries.Keys, s.m.nextId) == LivePart(s.up[w], s.m.queries.Keys, s.m.nextId)))
  {
    assert WorkerAgrees(s, w);
    FirstMessage(s, w);
    var msg, q := s.up[w][0], s.m.workers[w].query;
    hide LogsOk, ReadyResumes, WorkerAgrees;
    if msg.Evict? && Dead(msg.q, s.m.queries.Keys, s.m.nextId) {
      assert msg.q !in s.m.running;
    } else if msg.Evict? {
      EvictTakes(s.m, w, q, DoneOf(s, q), now);
      hide Consistent, EvictResponse;
    } else {
      EndTakes(s.m, w, q, DoneOf(s, q));
      hide Consistent, EndQuery;
    }
  }

  // ---------------------------------------------------------------- the one step that drops a query

  /** The executor clears the query flag after an ejection although `q` has been assigned meanwhile. */
  ghost predicate Drops(s: System, e: Event, q: int)
    requires Wired(s)
  {
    e.ExecutorSteps? && e.w in s.m.workers && s.m.workers[e.w].query == q && Assigned(s, e.w, Context(q, DoneOf(s, q)))
  }

  /** The worker of a query that is not READY stays its worker when only another worker, or only the query's
      own flags and channels, change. */
  lemma SameMasterAccounted(s: System, t: System, w: int, q: int)
    requires Inv(s) && Inv(t) && t.m == s.m && q in s.m.queries && Accounted(s, q)
    requires forall x :: x in s.m.workers && x != w ==> t.ws[x] == s.ws[x] && t.up[x] == s.up[x] && t.down[x] == s.down[x]
    requires forall x :: x in s.m.workers && x != w ==> DoneOf(t, s.m.workers[x].query) == DoneOf(s, s.m.workers[x].query)
    requires q in s.m.ready || (w in s.m.workers ==> s.m.workers[w].query != q)
    ensures Accounted(t, q)
  {
    hide LogsOk, ReadyResumes, WorkerAgrees, Accounted, Consistent;
    if q in s.m.ready {
      ReadyIsAccounted(t, q);
    } else {
      var x := WhereIs(s.m, q);
      UntouchedAccounted(s, t, x, q, 0);
    }
  }

  lemma ListenerKeepsAccounted(s: System, w: int, q: int)
    requires Inv(s) && w in s.m.workers && s.down[w] != [] && s.ws[w].ejecting.None? && q in s.m.queries && Accounted(s, q)
    ensures Accounted(ListenerEvent(s, w), q)
  {
    hide LogsOk, ReadyResumes, Accounted, Consistent, Agrees, Receive, InHand;
    var t := ListenerEvent(s, w);
    ListenerEventKeeps(s, w);
    if q !in s.m.ready && s.m.workers[w].query == q {
      QueryIsPositive(s, q);
      assert WorkerAgrees(s, w);
      AccountedInHand(s, w, q);
      ListenerKeepsInHand(s.ws[w], LivePart(s.up[w], s.m.queries.Keys, s.m.nextId), s.down[w], q, DoneOf(s, q), s.m.queries.Keys, s.m.nextId);
      InHandAccounted(t, w, q);
    } else {
      SameMasterAccounted(s, t, w, q);
    }
  }

  lemma QueryIsPositive(s: System, q: int)
    requires Inv(s) && q in s.m.queries
    ensures 0 < q <= s.m.nextId
  {
  }

  lemma SendBackKeepsAccounted(s: System, w: int, q: int)
    requires Inv(s) && w in s.m.workers && s.ws[w].ejecting.Some? && q in s.m.queries && Accounted(s, q)
    ensures Accounted(SendBackEvent(s, w), q)
  {
    hide LogsOk, ReadyResumes, Accounted, Consistent, Agrees, InHand;
    var t := SendBackEvent(s, w);
    SendBackEventKeeps(s, w);
    if q !in s.m.ready && s.m.workers[w].query == q {
      QueryIsPositive(s, q);
      assert WorkerAgrees(s, w);
      SendBackKeepsInHand(s.ws[w], LivePart(s.up[w], s.m.queries.Keys, s.m.nextId), s.down[w], q, DoneOf(s, q), s.m.queries.Keys, s.m.nextId);
      LivePartSent(s.up[w], SendBack(s.ws[w]).1, s.m.queries.Keys, s.m.nextId);
      InHandAccounted(t, w, q);
    } else {
      SameMasterAccounted(s, t, w, q);
    }
  }

  lemma ExecutorKeepsAccountedIff(s: System, w: int, o: Outcome, q: int)
    requires Inv(s) && w in s.m.workers && q in s.m.queries && Accounted(s, q)
    ensures Inv(ExecutorEvent(s, w, o)) && (Accounted(ExecutorEvent(s, w, o), q) <==> !Drops(s, ExecutorSteps(w, o), q))
  {
    hide LogsOk, ReadyResumes, Accounted, Consistent, Agrees, InHand, ExecutorNext, Record, LivePart, Doomed;
    var t := ExecutorEvent(s, w, o);
    ExecutorEventKeeps(s, w, o);
    ReadyHasNoWorker(s, w, q);
    if s.m.workers[w].query == q {
      ExecutorOfQuery(s, w, o, q);
    } else {
      ExecutorElsewhere(s, w, o, q);
    }
  }

  lemma ReadyHasNoWorker(s: System, w: int, q: int)
    requires Inv(s) && w in s.m.workers && q in s.m.queries
    ensures 0 < q && (s.m.workers[w].query == q ==> q !in s.m.ready)
  {
    WorkerQuery(s.m, w);
  }

  lemma ExecutorElsewhere(s: System, w: int, o: Outcome, q: int)
    requires Inv(s) && w in s.m.workers && Inv(ExecutorEvent(s, w, o)) && q in s.m.queries && Accounted(s, q) && s.m.workers[w].query != q
    ensures Accounted(ExecutorEvent(s, w, o), q)
  {
    var t := ExecutorEvent(s, w, o);
    ExecutorLogs(s, w, o);
    hide LogsOk, ReadyResumes, Accounted, Consistent, WorkerAgrees, ExecutorNext, Record;
    SameMasterAccounted(s, t, w, q);
  }

  /** Only the log of the worker's own query grows. */
  lemma ExecutorLogs(s: System, w: int, o: Outcome)
    requires Inv(s) && w in s.m.workers
    ensures var t, e := ExecutorEvent(s, w, o), ExecutorNext(s.ws[w], o);
            && |e.sent| <= 1 && DoneOf(t, s.m.workers[w].query) == DoneOf(s, s.m.workers[w].query) + |e.completed|
            && forall x :: x in s.m.workers && x != w ==> DoneOf(t, s.m.workers[x].query) == DoneOf(s, s.m.workers[x].query)
  {
    hide Consistent, Agrees, LogsOk, ReadyResumes, Record, ExecutorNext;
    var q := s.m.workers[w].query;
    assert WorkerAgrees(s, w);
    ExecutorKeepsAgreement(s.ws[w], o, LivePart(s.up[w], s.m.queries.Keys, s.m.nextId), s.down[w], q, DoneOf(s, q), s.m.queries.Keys, s.m.nextId);
    RecordKeeps(s, w, ExecutorNext(s.ws[w], o).completed);
  }

  lemma ExecutorOfQuery(s: System, w: int, o: Outcome, q: int)
    requires Inv(s) && w in s.m.workers && Inv(ExecutorEvent(s, w, o)) && q in s.m.queries && Accounted(s, q) && s.m.workers[w].query == q > 0
    ensures Accounted(ExecutorEvent(s, w, o), q) <==> !Drops(s, ExecutorSteps(w, o), q)
  {
    var t, n := ExecutorEvent(s, w, o), DoneOf(s, q);
    var live, nextId := s.m.queries.Keys, s.m.nextId;
    ExecutorLogs(s, w, o);
    hide LogsOk, ReadyResumes, Accounted, Consistent, Agrees, InHand, ExecutorNext, Record, LivePart, Doomed, HasStart;
    assert WorkerAgrees(s, w);
    AccountedInHand(s, w, q);
    ExecutorKeepsInHandIff(s.ws[w], o, LivePart(s.up[w], live, nextId), s.down[w], q, n, live, nextId);
    LivePartSent(s.up[w], ExecutorNext(s.ws[w], o).sent, live, nextId);
    assert HandOf(t, w, q) <==> !Drops(s, ExecutorSteps(w, o), q);
    if HandOf(t, w, q) {
      InHandAccounted(t, w, q);
    }
    if Accounted(t, q) {
      AccountedInHand(t, w, q);
    }
  }

  /** A live query that some place carries, or whose end is on the way, stays so after a step exactly when the
      step is not the executor of its worker leaving an ejected query. */
  lemma StepKeepsAccountedIff(s: System, e: Event, q: int)
    requires Inv(s) && Enabled(s, e) && q in s.m.queries && q in Next(s, e).m.queries && Accounted(s, q)
    ensures Inv(Next(s, e)) && (Accounted(Next(s, e), q) <==> !Drops(s, e, q))
  {
    NextKeeps(s, e);
    hide LogsOk, ReadyResumes, WorkerAgrees, Accounted, Consistent, OutsideEvent, ReceiveEvent, ListenerEvent, SendBackEvent, ExecutorEvent, Expected;
    match e
    case Outside(op) => OutsideKeepsAccounted(s, op, q);
    case MasterReceives(w, now) =>
      MessageIsExpected(s, w, now);
      ReceiveKeepsAccounted(s, w, now, q);
    case ListenerReceives(w) => ListenerKeepsAccounted(s, w, q);
    case ListenerSendsBack(w) => SendBackKeepsAccounted(s, w, q);
    case ExecutorSteps(w, o) => ExecutorKeepsAccountedIff(s, w, o, q);
  }

  /** A new query starts out in the READY queue. */
  lemma NewIsAccounted(s: System, op: MasterOp, q: int)
    requires Inv(s) && FromOutside(op) && Expected(s.m, op) && q !in s.m.queries && q in OutsideEvent(s, op).m.queries
    ensures Inv(OutsideEvent(s, op)) && Accounted(OutsideEvent(s, op), q)
  {
    OutsideKeeps(s, op);
    var t := OutsideEvent(s, op);
    NewIsReady(s.m, op, q);
    ReadyIsAccounted(t, q);
  }

  lemma NewIsReady(m: Master, op: MasterOp, q: int)
    requires Consistent(m) && Expected(m, op) && FromOutside(op) && q !in m.queries && q in Apply(m, op).queries
    ensures q in Apply(m, op).ready
  {
    hide ListsOk, QueriesMatch, WorkersMatch, ReadySorted, Remove, Age, PreemptionPending;
    match op
    case QueryArrives(priority, now) =>
      var t := Submit(m, priority, now);
      SubmitKeeps(m, priority, now);
      assert Placed(m, t, t.nextId);
    case _ =>
  }

  // ---------------------------------------------------------------- runs

  ghost predicate AllAccounted(s: System)
    requires Wired(s)
  {
    forall q :: q in s.m.queries ==> Accounted(s, q)
  }

  /** The run drops no query. */
  ghost predicate NeverDrops(s: System, events: seq<Event>)
    requires Inv(s)
    decreases |events|
  {
    events != [] && Enabled(s, events[0]) ==>
      && (forall q :: q in s.m.queries ==> !Drops(s, events[0], q))
      && (NextKeeps(s, events[0]); NeverDrops(Next(s, events[0]), events[1..]))
  }

  lemma NextAccounts(s: System, e: Event)
    requires Inv(s) && Enabled(s, e) && AllAccounted(s) && forall q :: q in s.m.queries ==> !Drops(s, e, q)
    ensures Inv(Next(s, e)) && AllAccounted(Next(s, e))
  {
    NextKeeps(s, e);
    var t := Next(s, e);
    hide LogsOk, ReadyResumes, WorkerAgrees, Accounted, Drops, Consistent, Next, Enabled;
    forall q | q in t.m.queries
      ensures Accounted(t, q)
    {
      if q in s.m.queries {
        StepKeepsAccountedIff(s, e, q);
      } else {
        NewByStep(s, e, q);
      }
    }
  }

  lemma NewByStep(s: System, e: Event, q: int)
    requires Inv(s) && Enabled(s, e) && q !in s.m.queries && q in Next(s, e).m.queries
    ensures Inv(Next(s, e)) && Accounted(Next(s, e), q)
  {
    NextKeeps(s, e);
    hide LogsOk, ReadyResumes, WorkerAgrees, Accounted, Consistent, OutsideEvent, ReceiveEvent, Expected;
    match e
    case Outside(op) => NewIsAccounted(s, op, q);
    case MasterReceives(w, now) =>
      MessageIsExpected(s, w, now);
      ReceivedTables(s, w, now);
    case _ =>
  }

  /** Over any interleaving without such a step, every live query is carried somewhere or its end is on the way. */
  lemma {:induction false} RunAccounts(s: System, events: seq<Event>, t: System)
    requires Inv(s) && AllAccounted(s) && Interleaving(s, events, t) && NeverDrops(s, events)
    ensures Inv(t) && AllAccounted(t)
    decreases |events|
  {
    hide Consistent, LogsOk, ReadyResumes, WorkerAgrees, AllAccounted, Enabled, Next, Drops;
    if events != [] {
      NextAccounts(s, events[0]);
      RunAccounts(Next(s, events[0]), events[1..], t);
    }
  }

  // ---------------------------------------------------------------- preempt requests

  lemma OutsideKeepsWorker(s: System, op: MasterOp, w: int)
    requires Inv(s) && Expected(s.m, op) && w in s.m.workers && w in OutsideEvent(s, op).m.workers
    ensures w in OutsideEvent(s, op).ws && OutsideEvent(s, op).ws[w] == s.ws[w]
  {
    hide Consistent, LogsOk, ReadyResumes, WorkerAgrees, Apply, CanDispatch, MustPreempt;
    assert op.WorkerArrives? ==> op.w != w;
  }

  lemma ExecutorNotedIff(s: WorkerState, o: Outcome)
    requires s.flags.ejectionRequested
    ensures ExecutorNext(s, o).after.flags.ejectionRequested <==> !s.phase.Fetched?
  {
  }

  lemma ListenerKeepsNoted(s: WorkerState, msg: ToWorker)
    requires s.flags.ejectionRequested
    ensures Receive(s, msg).flags.ejectionRequested
  {
  }

  /** A noted preempt request is forgotten in exactly one kind of step: the executor begins the query that it
      has fetched. */
  lemma NotedRequestStaysIff(s: System, e: Event, w: int)
    requires Inv(s) && Enabled(s, e) && w in s.m.workers && w in Next(s, e).m.workers && s.ws[w].flags.ejectionRequested
    ensures w in Next(s, e).ws
    ensures Next(s, e).ws[w].flags.ejectionRequested <==> !(e.ExecutorSteps? && e.w == w && s.ws[w].phase.Fetched?)
  {
    hide Consistent, LogsOk, ReadyResumes, WorkerAgrees, Apply, Expected, OutsideEvent, ExecutorNext, Receive;
    match e
    case Outside(op) => OutsideKeepsWorker(s, op, w);
    case MasterReceives(_, _) =>
    case ListenerReceives(x) => if x == w { ListenerKeepsNoted(s.ws[w], s.down[w][0]); }
    case ListenerSendsBack(_) =>
    case ExecutorSteps(x, o) => if x == w { ExecutorNotedIff(s.ws[w], o); }
  }
}
