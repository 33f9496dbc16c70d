/** Two runs of the preemption handshake: one drops a preempt request, one drops a whole query. */
module HandshakeLimits {
  import opened Common
  import opened Lists
  import opened MasterModel
  import opened MasterTheorems
  import opened MasterRuns
  import opened MasterLimits
  import opened WorkerModel
  import opened Protocol
  import opened SystemModel
  import opened Carriers
  import opened Delivery

  /** The event is enabled in `s` and leads to `t`. */
  ghost predicate Leads(s: System, e: Event, t: System) {
    Inv(s) && Enabled(s, e) && Next(s, e) == t
  }

  lemma LeadsInv(s: System, e: Event, t: System)
    requires Leads(s, e, t)
    ensures Inv(t)
  {
    NextKeeps(s, e);
  }

  /** The system with worker 1 only. */
  function One(m: Master, up: seq<FromWorker>, down: seq<ToWorker>, w: WorkerState, log: map<int, seq<nat>>): System {
    System(m, map[1 := up], map[1 := down], map[1 := w], log)
  }

  function AtWork(ejection: bool, c: Context, phase: Phase): WorkerState {
    WorkerState(Flags(true, ejection, true, c), phase, None)
  }

  const C1 := Context(1, 0)
  const C2 := Context(2, 0)
  const LOG1: map<int, seq<nat>> := map[1 := []]
  const LOG2: map<int, seq<nat>> := map[1 := [], 2 := []]

  const E0 := Initial(true, 1)
  const E1 := One(M1, [], [], NEW_WORKER, map[])
  const E2 := One(M2, [], [], NEW_WORKER, LOG1)
  const E3 := One(M3, [], [Start(1, 0)], NEW_WORKER, LOG1)
  const E4 := One(M3, [], [], WorkerState(Flags(true, false, false, C1), Waiting, None), LOG1)
  const E5 := One(M3, [], [], AtWork(false, C1, Fetched), LOG1)

  // ---------------------------------------------------------------- query 1 is fetched

  lemma Step1()
    requires Inv(E0)
    ensures Leads(E0, Outside(WorkerArrives(1)), E1)
  {
    FirstQueryRuns();
    hide Consistent, LogsOk, ReadyResumes, WorkerAgrees, Apply;
  }

  lemma Step2()
    requires Inv(E1)
    ensures Leads(E1, Outside(QueryArrives(5, 1)), E2)
  {
    FirstQueryRuns();
    hide Consistent, LogsOk, ReadyResumes, WorkerAgrees, Apply;
  }

  lemma Step3()
    requires Inv(E2)
    ensures Leads(E2, Outside(TryDispatch(true)), E3)
  {
    FirstQueryRuns();
    hide Consistent, LogsOk, ReadyResumes, WorkerAgrees, Apply;
    assert CanDispatch(M2) && M2.idle[0] in E2.down && M2.ready[0] in M2.queries;
    assert E2.down[1] + [Start(1, 0)] == E3.down[1];
    assert E2.down[1 := E3.down[1]] == E3.down;
  }

  lemma Step4()
    requires Inv(E3)
    ensures Leads(E3, ListenerReceives(1), E4)
  {
    hide Consistent, LogsOk, ReadyResumes, WorkerAgrees;
  }

  lemma Step5()
    requires Inv(E4)
    ensures Leads(E4, ExecutorSteps(1, Done), E5)
  {
    hide Consistent, LogsOk, ReadyResumes, WorkerAgrees;
  }

  lemma Fetches()
    ensures Leads(E0, Outside(WorkerArrives(1)), E1) && Leads(E1, Outside(QueryArrives(5, 1)), E2)
    ensures Leads(E2, Outside(TryDispatch(true)), E3) && Leads(E3, ListenerReceives(1), E4)
    ensures Leads(E4, ExecutorSteps(1, Done), E5) && Inv(E5)
  {
    InitialInv(true, 1);
    hide Inv, Leads;
    Step1();
    LeadsInv(E0, Outside(WorkerArrives(1)), E1);
    Step2();
    LeadsInv(E1, Outside(QueryArrives(5, 1)), E2);
    Step3();
    LeadsInv(E2, Outside(TryDispatch(true)), E3);
    Step4();
    LeadsInv(E3, ListenerReceives(1), E4);
    Step5();
    LeadsInv(E4, ExecutorSteps(1, Done), E5);
  }

  // ---------------------------------------------------------------- a preempt request that is dropped

  const PREEMPTED1 := RUNNING1.(preemptionPending := true)
  const MP := M4.(queries := map[1 := PREEMPTED1, 2 := WAITING2])

  const B6 := One(M4, [], [], AtWork(false, C1, Fetched), LOG2)
  const B7 := One(MP, [], [PreemptRequest(1)], AtWork(false, C1, Fetched), LOG2)
  const B8 := One(MP, [], [], AtWork(true, C1, Fetched), LOG2)
  const B9 := One(MP, [], [], AtWork(false, C1, AtTop(C1)), LOG2)

  lemma SecondQuery(phase: Phase)
    requires Inv(One(M3, [], [], AtWork(false, C1, phase), LOG1))
    ensures Leads(One(M3, [], [], AtWork(false, C1, phase), LOG1), Outside(QueryArrives(1, 1)), One(M4, [], [], AtWork(false, C1, phase), LOG2))
  {
    SecondQueryWaits();
    hide Consistent, LogsOk, ReadyResumes, WorkerAgrees, Apply;
    assert LOG1[2 := []] == LOG2;
  }

  lemma PreemptsFirst()
    requires Consistent(M4)
    ensures MustPreempt(M4) && WorstRunning(M4.running, M4.queries) == 1 && CheckPreemption(M4, true) == MP
  {
    assert M4.queries[1 := PREEMPTED1] == MP.queries;
  }

  lemma RequestSent(phase: Phase)
    requires Inv(One(M4, [], [], AtWork(false, C1, phase), LOG2))
    ensures Leads(One(M4, [], [], AtWork(false, C1, phase), LOG2), Outside(PreemptionCheck(true)),
                  One(MP, [], [PreemptRequest(1)], AtWork(false, C1, phase), LOG2))
  {
    PreemptsFirst();
    hide Consistent, LogsOk, ReadyResumes, WorkerAgrees, CheckPreemption, MustPreempt, WorstRunning;
    var s := One(M4, [], [], AtWork(false, C1, phase), LOG2);
    assert s.down[1] + [PreemptRequest(1)] == [PreemptRequest(1)];
    assert s.down[1 := [PreemptRequest(1)]] == map[1 := [PreemptRequest(1)]];
  }

  lemma RequestTaken(phase: Phase)
    requires Inv(One(MP, [], [PreemptRequest(1)], AtWork(false, C1, phase), LOG2))
    ensures Leads(One(MP, [], [PreemptRequest(1)], AtWork(false, C1, phase), LOG2), ListenerReceives(1),
                  One(MP, [], [], AtWork(true, C1, phase), LOG2))
  {
    hide Consistent, LogsOk, ReadyResumes, WorkerAgrees;
    assert [PreemptRequest(1)][1..] == [];
  }

  lemma BeginClears()
    requires Inv(B8)
    ensures Leads(B8, ExecutorSteps(1, Done), B9)
  {
    hide Consistent, LogsOk, ReadyResumes, WorkerAgrees;
    assert B8.up[1] + [] == B8.up[1];
  }

  /** The Master waits for the eviction of `q`, which goes on executing: no request is on its way, none is
      noted, and no answer is on its way. */
  ghost predicate RequestDropped(s: System, w: int, q: int)
    requires Wired(s)
  {
    && w in s.m.workers && s.m.workers[w].query == q && q in s.m.queries && s.m.queries[q].preemptionPending
    && s.down[w] == [] && s.up[w] == [] && !s.ws[w].flags.ejectionRequested && s.ws[w].ejecting.None?
    && ActiveContext(s.ws[w]) == Some(Context(q, DoneOf(s, q))) && !s.ws[w].phase.Evicting?
  }

  lemma Prepend(s: System, e: Event, u: System, events: seq<Event>, t: System)
    requires Leads(s, e, u) && Inv(u) && Interleaving(u, events, t)
    ensures Inv(s) && Interleaving(s, [e] + events, t)
  {
    hide Inv, Enabled, Next;
    assert ([e] + events)[0] == e && ([e] + events)[1..] == events;
  }

  lemma NoStep(s: System)
    requires Inv(s)
    ensures Interleaving(s, [], s)
  {
  }

  lemma LastStep(s: System, e: Event, t: System)
    requires Leads(s, e, t)
    ensures Inv(s) && Inv(t) && Interleaving(s, [e], t)
  {
    hide Inv, Leads, Interleaving;
    LeadsInv(s, e, t);
    NoStep(t);
    Prepend(s, e, t, [], t);
    assert [e] + [] == [e];
  }

  lemma Chain5(s: System, s1: System, s2: System, s3: System, s4: System, s5: System,
               e1: Event, e2: Event, e3: Event, e4: Event, e5: Event, events: seq<Event>, t: System)
    requires Leads(s, e1, s1) && Leads(s1, e2, s2) && Leads(s2, e3, s3) && Leads(s3, e4, s4) && Leads(s4, e5, s5)
    requires Inv(s5) && Interleaving(s5, events, t)
    ensures Inv(s) && Interleaving(s, [e1, e2, e3, e4, e5] + events, t)
  {
    hide Inv, Leads, Interleaving;
    LeadsInv(s, e1, s1);
    LeadsInv(s1, e2, s2);
    LeadsInv(s2, e3, s3);
    LeadsInv(s3, e4, s4);
    var from5 := [e5] + events;
    var from4 := [e4] + from5;
    var from3 := [e3] + from4;
    var from2 := [e2] + from3;
    Prepend(s4, e5, s5, events, t);
    Prepend(s3, e4, s4, from5, t);
    Prepend(s2, e3, s3, from4, t);
    Prepend(s1, e2, s2, from3, t);
    Prepend(s, e1, s1, from2, t);
    assert [e1, e2, e3, e4, e5] + events == [e1] + from2;
  }

  const FETCHING := [Outside(WorkerArrives(1)), Outside(QueryArrives(5, 1)), Outside(TryDispatch(true)), ListenerReceives(1),
                     ExecutorSteps(1, Done)]

  lemma AfterFetching(events: seq<Event>, t: System)
    requires Inv(E5) && Interleaving(E5, events, t)
    ensures Reaches(true, 1, FETCHING + events, t)
  {
    Fetches();
    hide Inv, Leads, Interleaving;
    Chain5(E0, E1, E2, E3, E4, E5, FETCHING[0], FETCHING[1], FETCHING[2], FETCHING[3], FETCHING[4], events, t);
    assert FETCHING == [FETCHING[0], FETCHING[1], FETCHING[2], FETCHING[3], FETCHING[4]];
  }

  const DROPPING := [Outside(QueryArrives(1, 1)), Outside(PreemptionCheck(true)), ListenerReceives(1), ExecutorSteps(1, Done)]

  lemma DropsRequest()
    requires Inv(E5)
    ensures Interleaving(E5, DROPPING, B9)
  {
    hide Inv, Leads, Interleaving;
    SecondQuery(Fetched);
    LeadsInv(E5, DROPPING[0], B6);
    RequestSent(Fetched);
    LeadsInv(B6, DROPPING[1], B7);
    RequestTaken(Fetched);
    LeadsInv(B7, DROPPING[2], B8);
    BeginClears();
    LastStep(B8, DROPPING[3], B9);
    Prepend(B7, DROPPING[2], B8, [DROPPING[3]], B9);
    Prepend(B6, DROPPING[1], B7, [DROPPING[2]] + [DROPPING[3]], B9);
    Prepend(E5, DROPPING[0], B6, [DROPPING[1]] + ([DROPPING[2]] + [DROPPING[3]]), B9);
    assert DROPPING == [DROPPING[0]] + ([DROPPING[1]] + ([DROPPING[2]] + [DROPPING[3]]));
  }

  /** From the start: the request that arrives between the fetch of a query and its beginning is cleared, and the
      query goes on although the Master waits for its eviction. */
  lemma PreemptRequestCanBeDropped()
    ensures Reaches(true, 1, FETCHING + DROPPING, B9) && Wired(B9) && RequestDropped(B9, 1, 1)
  {
    hide Inv, Interleaving, Leads, RequestDropped, Reaches, Wired;
    Fetches();
    DropsRequest();
    AfterFetching(DROPPING, B9);
    RequestIsDropped();
  }

  lemma RequestIsDropped()
    ensures Wired(B9) && RequestDropped(B9, 1, 1)
  {
  }

  // ---------------------------------------------------------------- a query that is dropped

  const A6 := One(M3, [], [], AtWork(false, C1, AtTop(C1)), LOG1)
  const A7 := One(M4, [], [], AtWork(false, C1, AtTop(C1)), LOG2)
  const A8 := One(MP, [], [PreemptRequest(1)], AtWork(false, C1, AtTop(C1)), LOG2)
  const A9 := One(MP, [], [], AtWork(true, C1, AtTop(C1)), LOG2)
  const A10 := One(MP, [], [], AtWork(true, C1, Evicting(C1, false)), LOG2)
  const A11 := One(MP, [Evict(1, 0)], [], AtWork(true, C1, Leaving(1, true)), LOG2)
  const MR := Master(map[1 := WAITING1, 2 := WAITING2], [2, 1], [], map[1 := IDLE_WORKER], [1], [], 1, 2, true, 1)
  const A12 := One(MR, [], [], AtWork(true, C1, Leaving(1, true)), LOG2)
  const MD := Master(map[1 := WAITING1, 2 := RUNNING2], [1], [2], map[1 := Wcb(2, true)], [], [1], 1, 2, true, 1)
  const A13 := One(MD, [], [Start(2, 0)], AtWork(true, C1, Leaving(1, true)), LOG2)
  const A14 := One(MD, [], [], AtWork(true, C2, Leaving(1, true)), LOG2)
  const A15 := One(MD, [], [], WorkerState(Flags(false, true, false, C2), Waiting, None), LOG2)

  lemma Begins()
    requires Inv(E5)
    ensures Leads(E5, ExecutorSteps(1, Done), A6)
  {
    hide Consistent, LogsOk, ReadyResumes, WorkerAgrees;
    assert E5.up[1] + [] == E5.up[1];
  }

  lemma SeesRequest()
    requires Inv(A9)
    ensures Leads(A9, ExecutorSteps(1, Done), A10)
  {
    hide Consistent, LogsOk, ReadyResumes, WorkerAgrees;
    assert A9.up[1] + [] == A9.up[1];
  }

  lemma SendsEvict()
    requires Inv(A10)
    ensures Leads(A10, ExecutorSteps(1, Done), A11)
  {
    hide Consistent, LogsOk, ReadyResumes, WorkerAgrees;
    assert A10.up[1] + [Evict(1, 0)] == A11.up[1];
  }

  lemma Requeues()
    requires Consistent(MP)
    ensures EvictResponse(MP, 1, 1, 0, 1) == MR
  {
    var requeued := MP.queries[1 := WAITING1];
    assert requeued == MR.queries;
    assert InsertPosition(MP.ready, requeued, 5) == 1;
    assert InsertByPriority(MP.ready, requeued, 1) == [2, 1];
    assert MP.workers[1 := IDLE_WORKER] == MR.workers;
  }

  lemma TakesEvict()
    requires Inv(A11)
    ensures Leads(A11, MasterReceives(1, 1), A12)
  {
    hide Consistent, LogsOk, ReadyResumes, WorkerAgrees, EvictResponse, Expected;
    Requeues();
    assert A11.up[1][1..] == A12.up[1];
    assert A11.up[1 := A12.up[1]] == A12.up;
    MessageIsExpected(A11, 1, 1);
    assert ReceiveEvent(A11, 1, 1) == A12;
  }

  lemma DispatchesSecond()
    requires Consistent(MR)
    ensures CanDispatch(MR) && Dispatch(MR, true) == MD
  {
    assert MR.queries[2 := RUNNING2] == MD.queries;
    assert MR.workers[1 := Wcb(2, true)] == MD.workers;
  }

  lemma SendsSecond()
    requires Inv(A12)
    ensures Leads(A12, Outside(TryDispatch(true)), A13)
  {
    DispatchesSecond();
    hide Consistent, LogsOk, ReadyResumes, WorkerAgrees, Dispatch;
    assert MR.idle[0] in A12.down && MR.ready[0] in MR.queries;
    assert A12.down[1] + [Start(2, 0)] == A13.down[1];
    assert A12.down[1 := A13.down[1]] == A13.down;
  }

  lemma Assigns()
    requires Inv(A13)
    ensures Leads(A13, ListenerReceives(1), A14)
  {
    hide Consistent, LogsOk, ReadyResumes, WorkerAgrees;
    assert A13.down[1][1..] == A14.down[1];
    assert A13.down[1 := A14.down[1]] == A14.down;
  }

  lemma Leaves()
    requires Inv(A14)
    ensures Leads(A14, ExecutorSteps(1, Done), A15)
  {
    hide Consistent, LogsOk, ReadyResumes, WorkerAgrees;
    assert A14.up[1] + [] == A14.up[1];
  }

  const LOSING := [ExecutorSteps(1, Done), Outside(QueryArrives(1, 1)), Outside(PreemptionCheck(true)), ListenerReceives(1),
                   ExecutorSteps(1, Done), ExecutorSteps(1, Done), MasterReceives(1, 1), Outside(TryDispatch(true)),
                   ListenerReceives(1), ExecutorSteps(1, Done)]

  lemma FirstHalf()
    requires Inv(E5)
    ensures Leads(E5, LOSING[0], A6) && Leads(A6, LOSING[1], A7) && Leads(A7, LOSING[2], A8) && Leads(A8, LOSING[3], A9)
    ensures Leads(A9, LOSING[4], A10) && Inv(A10)
  {
    hide Inv, Leads;
    Begins();
    LeadsInv(E5, LOSING[0], A6);
    SecondQuery(AtTop(C1));
    LeadsInv(A6, LOSING[1], A7);
    RequestSent(AtTop(C1));
    LeadsInv(A7, LOSING[2], A8);
    RequestTaken(AtTop(C1));
    LeadsInv(A8, LOSING[3], A9);
    SeesRequest();
    LeadsInv(A9, LOSING[4], A10);
  }

  lemma SecondHalf()
    requires Inv(A10)
    ensures Leads(A10, LOSING[5], A11) && Leads(A11, LOSING[6], A12) && Leads(A12, LOSING[7], A13) && Leads(A13, LOSING[8], A14)
    ensures Leads(A14, LOSING[9], A15) && Inv(A14) && Inv(A15)
  {
    hide Inv, Leads;
    SendsEvict();
    LeadsInv(A10, LOSING[5], A11);
    TakesEvict();
    LeadsInv(A11, LOSING[6], A12);
    SendsSecond();
    LeadsInv(A12, LOSING[7], A13);
    Assigns();
    LeadsInv(A13, LOSING[8], A14);
    Leaves();
    LeadsInv(A14, LOSING[9], A15);
  }

  lemma LosesRun()
    requires Inv(E5)
    ensures Interleaving(E5, LOSING, A15) && Leads(A14, LOSING[9], A15)
  {
    hide Inv, Leads, Interleaving;
    FirstHalf();
    SecondHalf();
    NoStep(A15);
    Chain5(A10, A11, A12, A13, A14, A15, LOSING[5], LOSING[6], LOSING[7], LOSING[8], LOSING[9], [], A15);
    var second := [LOSING[5], LOSING[6], LOSING[7], LOSING[8], LOSING[9]] + [];
    Chain5(E5, A6, A7, A8, A9, A10, LOSING[0], LOSING[1], LOSING[2], LOSING[3], LOSING[4], second, A15);
    assert LOSING == [LOSING[0], LOSING[1], LOSING[2], LOSING[3], LOSING[4]] + second;
  }

  /** The last step is the one that `StepKeepsAccountedIff` singles out. */
  lemma LastStepDrops()
    requires Inv(A14)
    ensures 2 in A14.m.queries && 2 in A15.m.queries && Accounted(A14, 2) && Drops(A14, ExecutorSteps(1, Done), 2)
  {
    hide Consistent, LogsOk, ReadyResumes, WorkerAgrees;
    assert !HasStart(A14.down[1]);
    assert LivePart(A14.up[1], A14.m.queries.Keys, A14.m.nextId) == [];
    assert Assigned(A14, 1, Context(2, 0)) && DoneOf(A14, 2) == 0;
    assert Carries(A14, AtWorker(1), 2, 0);
  }

  /** From the start: the executor leaves the ejected query 1 after query 2 was assigned to it, and then no place
      carries query 2, which is live and running for the Master. */
  lemma AssignedQueryCanBeDropped()
    ensures Reaches(true, 1, FETCHING + LOSING, A15) && Inv(A15)
    ensures 2 in A15.m.queries && 2 in A15.m.running && !Accounted(A15, 2)
  {
    hide Inv, Leads, Interleaving, Reaches, Accounted, Drops, Enabled, Next;
    Fetches();
    FirstHalf();
    SecondHalf();
    LosesRun();
    AfterFetching(LOSING, A15);
    LastStepDrops();
    LeadsNext(A14, ExecutorSteps(1, Done), A15);
    StepKeepsAccountedIff(A14, ExecutorSteps(1, Done), 2);
  }

  lemma LeadsNext(s: System, e: Event, t: System)
    requires Leads(s, e, t)
    ensures Inv(s) && Enabled(s, e) && Next(s, e) == t
  {
  }
}
