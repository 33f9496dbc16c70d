/** Reachable states in which a message or a departure breaks the scheduler's consistency. */
module MasterLimits {
  import opened Lists
  import opened MasterModel
  import opened MasterTheorems
  import opened MasterRuns

  /** The handler runs in `m`, where the Master can expect it, and leads to `t`. */
  ghost predicate Goes(m: Master, op: MasterOp, t: Master) {
    Consistent(m) && Expected(m, op) && Apply(m, op) == t
  }

  lemma GoesConsistent(m: Master, op: MasterOp, t: Master)
    requires Goes(m, op, t)
    ensures Consistent(t)
  {
    ApplyKeeps(m, op);
  }

  /** One worker gets query 1 of priority 5; query 2 of priority 1 follows. */
  const M0 := START
  const M1 := Master(map[], [], [], map[1 := IDLE_WORKER], [1], [], 1, 0, true, 1)
  const WAITING1 := Qcb(5, 1, NONE, 0, false, Ready)
  const M2 := Master(map[1 := WAITING1], [1], [], map[1 := IDLE_WORKER], [1], [], 1, 1, true, 1)
  const RUNNING1 := Qcb(5, 1, 1, 0, false, Running)
  const M3 := Master(map[1 := RUNNING1], [], [1], map[1 := Wcb(1, true)], [], [1], 1, 1, true, 1)
  const WAITING2 := Qcb(1, 1, NONE, 0, false, Ready)
  const M4 := Master(map[1 := RUNNING1, 2 := WAITING2], [2], [1], map[1 := Wcb(1, true)], [], [1], 1, 2, true, 1)

  lemma FirstQueryRuns()
    ensures Goes(M0, WorkerArrives(1), M1) && Goes(M1, QueryArrives(5, 1), M2) && Goes(M2, TryDispatch(true), M3)
    ensures Consistent(M3)
  {
    StartConsistent(true, 1);
    assert M0.workers[1 := IDLE_WORKER] == M1.workers;
    GoesConsistent(M0, WorkerArrives(1), M1);
    GoesConsistent(M1, QueryArrives(5, 1), M2);
    assert Dispatch(M2, true) == M3;
    GoesConsistent(M2, TryDispatch(true), M3);
  }

  lemma SecondQueryWaits()
    ensures Goes(M3, QueryArrives(1, 1), M4) && Consistent(M4)
  {
    FirstQueryRuns();
    hide Goes;
    QueryArrivesM4();
    GoesConsistent(M3, QueryArrives(1, 1), M4);
  }

  lemma QueryArrivesM4()
    requires Consistent(M3)
    ensures Goes(M3, QueryArrives(1, 1), M4)
  {
  }

  // ---------------------------------------------------------------- a storage error, then END

  const RUNNING2 := Qcb(1, 1, 1, 0, false, Running)
  const M5 := Master(map[2 := WAITING2], [2], [], map[1 := IDLE_WORKER], [1], [], 1, 2, true, 1)
  const M6 := Master(map[2 := RUNNING2], [], [2], map[1 := Wcb(2, true)], [], [1], 1, 2, true, 1)

  lemma StorageErrorFrees()
    ensures Goes(M4, StorageErrorArrives(1), M5)
  {
    SecondQueryWaits();
    assert M4.queries - {1} == M5.queries;
    assert StorageError(M4, 1) == M5;
  }

  lemma FreedWorkerIsGivenQuery2()
    requires Consistent(M5)
    ensures Goes(M5, TryDispatch(true), M6)
  {
    assert Dispatch(M5, true) == M6;
  }

  /** From the start: the storage error of query 1 frees its worker, query 2 is given to it, and the END that the
      worker still sends for query 1 leaves it idle in busy_list, with query 2 pointing to it. */
  lemma StorageErrorRunBreaks()
    ensures Goes(M0, WorkerArrives(1), M1) && Goes(M1, QueryArrives(5, 1), M2) && Goes(M2, TryDispatch(true), M3)
    ensures Goes(M3, QueryArrives(1, 1), M4) && Goes(M4, StorageErrorArrives(1), M5) && Goes(M5, TryDispatch(true), M6)
    ensures 1 in M6.busy && !Consistent(EndQuery(M6, 1, 1))
  {
    FirstQueryRuns();
    SecondQueryWaits();
    StorageErrorFrees();
    hide Goes, Consistent;
    GoesConsistent(M4, StorageErrorArrives(1), M5);
    FreedWorkerIsGivenQuery2();
    GoesConsistent(M5, TryDispatch(true), M6);
    EndKeepsIff(M6, 1, 1);
  }

  // ---------------------------------------------------------------- EVICT from another worker

  const TWO_WORKERS := Master(map[1 := RUNNING1], [], [1], map[1 := Wcb(1, true), 2 := IDLE_WORKER], [2], [1], 2, 1, true, 1)

  lemma SecondWorkerArrives()
    requires Consistent(M3)
    ensures Goes(M3, WorkerArrives(2), TWO_WORKERS)
  {
    assert M3.workers[2 := IDLE_WORKER] == TWO_WORKERS.workers;
  }

  /** From the start: an EVICT of query 1 from worker 2 makes it READY while worker 1 still has it. */
  lemma StrangerEvictRunBreaks()
    ensures Goes(M0, WorkerArrives(1), M1) && Goes(M1, QueryArrives(5, 1), M2) && Goes(M2, TryDispatch(true), M3)
    ensures Goes(M3, WorkerArrives(2), TWO_WORKERS) && Linked(TWO_WORKERS)
    ensures !Consistent(EvictResponse(TWO_WORKERS, 2, 1, 0, 1))
  {
    FirstQueryRuns();
    SecondWorkerArrives();
    hide Goes, Consistent;
    GoesConsistent(M3, WorkerArrives(2), TWO_WORKERS);
    EvictKeepsIff(TWO_WORKERS, 2, 1, 0, 1);
  }

  // ---------------------------------------------------------------- a Query Control that leaves twice

  const CANCELED1 := Master(map[1 := RUNNING1.(state := Canceled, preemptionPending := true)], [], [1],
                            map[1 := Wcb(1, true)], [], [1], 1, 1, true, 1)

  lemma ControlLeavesOnce()
    requires Consistent(M3)
    ensures Goes(M3, ControlLeaves(1, true), CANCELED1)
  {
    assert ControlLeft(M3, 1, true).queries == CANCELED1.queries;
  }

  /** From the start: when the disconnection of a running query's Query Control is handled a second time, the
      query is cleaned up while its worker still has it. */
  lemma SecondDepartureRunBreaks()
    ensures Goes(M0, WorkerArrives(1), M1) && Goes(M1, QueryArrives(5, 1), M2) && Goes(M2, TryDispatch(true), M3)
    ensures Goes(M3, ControlLeaves(1, true), CANCELED1)
    ensures !Consistent(ControlLeft(CANCELED1, 1, true))
  {
    FirstQueryRuns();
    ControlLeavesOnce();
    hide Goes, Consistent;
    GoesConsistent(M3, ControlLeaves(1, true), CANCELED1);
    ControlLeftKeepsIff(CANCELED1, 1, true);
  }
}
