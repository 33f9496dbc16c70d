/** The Master's handlers as they run, over its lists of control blocks. */
module SchedulerModule {
  import opened Lists
  import opened MasterModel
  import opened MasterTheorems
  import opened AgingTheorems

  class Scheduler {
    var queries: map<int, Qcb>
    var ready: seq<int>
    var running: seq<int>
    var workers: map<int, Wcb>
    var idle: seq<int>
    var busy: seq<int>
    var connected: nat
    var nextId: nat
    const byPriority: bool
    const agingInterval: nat

    ghost function State(): Master
      reads this
    {
      Master(queries, ready, running, workers, idle, busy, connected, nextId, byPriority, agingInterval)
    }

    ghost predicate Valid()
      reads this
    {
      Linked(State())
    }

    constructor (byPriority: bool, agingInterval: nat)
      ensures Valid() && State() == START.(byPriority := byPriority, agingInterval := agingInterval)
    {
      this.byPriority, this.agingInterval := byPriority, agingInterval;
      queries, ready, running, workers, idle, busy := map[], [], [], map[], [], [];
      connected, nextId := 0, 0;
    }

    /** package_send: whether the message could be sent. */
    method Send() returns (ok: bool)
    {
      ok := *;
    }

    // ---------------------------------------------------------------- arrivals

    method InsertQueryByPriority(q: int)
      requires Known(ready, queries) && q in queries
      modifies this`ready
      ensures ready == InsertByPriority(old(ready), queries, q)
    {
      var i: nat := 0;
      while i < |ready| && queries[q].priority >= queries[ready[i]].priority
        invariant i <= |ready|
        invariant forall j :: 0 <= j < i ==> queries[ready[j]].priority <= queries[q].priority
      {
        i := i + 1;
      }
      PositionUnique(ready, queries, queries[q].priority, i);
      ready := ready[..i] + [q] + ready[i..];
    }

    method CreateWorker(w: int)
      requires w !in workers
      modifies this`workers, this`idle, this`connected
      ensures State() == AddWorker(old(State()), w)
    {
      workers := workers[w := IDLE_WORKER];
      connected := connected + 1;
      idle := idle + [w];
    }

    method GenerateQueryId() returns (q: nat)
      modifies this`nextId
      ensures nextId == old(nextId) + 1 && q == nextId
    {
      nextId := nextId + 1;
      q := nextId;
    }

    method CreateQuery(priority: nat, now: nat) returns (q: nat)
      requires Valid()
      modifies this`queries, this`ready, this`nextId
      ensures State() == Submit(old(State()), priority, now) && q == nextId
    {
      q := GenerateQueryId();
      queries := queries[q := Qcb(priority, now, NONE, 0, false, Ready)];
      if byPriority {
        InsertQueryByPriority(q);
      } else {
        ready := ready + [q];
      }
    }

    // ---------------------------------------------------------------- try_dispatch

    method HasPendingPreemptions() returns (pending: bool)
      requires Valid()
      ensures pending == PreemptionPending(State())
    {
      for i := 0 to |running|
        invariant forall j :: 0 <= j < i ==> !queries[running[j]].preemptionPending
      {
        var q := running[i];
        if queries[q].preemptionPending {
          assert q in State().running;
          return true;
        }
      }
      return false;
    }

    method TryDispatch() returns (result: int)
      requires Valid()
      modifies this`queries, this`ready, this`running, this`workers, this`idle, this`busy
      ensures State() == Dispatch(old(State()), result == 0)
    {
      if idle == [] || ready == [] { return 0; }
      var pending := HasPendingPreemptions();
      if pending { return 0; }
      var q, w := ready[0], idle[0];
      ready, idle := ready[1..], idle[1..];
      workers := workers[w := Wcb(q, true)];
      var started := queries[q].(state := Running, worker := w, preemptionPending := false);
      UpdateTwice(queries, q, started, started.(state := Ready, worker := NONE));
      UpdateTwice(old(workers), w, Wcb(q, true), IDLE_WORKER);
      queries := queries[q := started];
      running, busy := running + [q], busy + [w];
      var sent := Send();
      if sent { return 0; }
      workers := workers[w := IDLE_WORKER];
      queries := queries[q := started.(state := Ready, worker := NONE)];
      running, busy := Remove(running, q), Remove(busy, w);
      if byPriority {
        InsertQueryByPriority(q);
      } else {
        ready := ready + [q];
      }
      idle := idle + [w];
      return -1;
    }

    // ---------------------------------------------------------------- cleanup

    method CleanupQueryResources(q: int)
      modifies this`queries, this`ready, this`running
      ensures State() == Cleanup(old(State()), q)
    {
      ready, running := Remove(ready, q), Remove(running, q);
      queries := queries - {q};
    }

    method ReleaseWorker(w: int)
      modifies this`workers, this`idle, this`busy
      ensures State() == FreeWorker(old(State()), w)
    {
      workers := workers[w := IDLE_WORKER];
      busy := Remove(busy, w);
      idle := idle + [w];
    }

    method FindRunning(q: int) returns (found: bool)
      ensures found == (q in running)
    {
      for i := 0 to |running|
        invariant q !in running[..i]
      {
        if running[i] == q { return true; }
      }
      return false;
    }

    // ---------------------------------------------------------------- messages from workers

    method ManageEvictResponse(w: int, q: int, pc: nat, now: nat)
      requires Valid()
      modifies this`queries, this`ready, this`running, this`workers, this`idle, this`busy
      ensures State() == EvictResponse(old(State()), w, q, pc, now)
    {
      if w !in workers { return; }
      var found := FindRunning(q);
      if !found { return; }
      if queries[q].state == Canceled {
        CleanupQueryResources(q);
      } else {
        queries := queries[q := queries[q].(pc := pc, state := Ready, worker := NONE, preemptionPending := false, readySince := now)];
        running := Remove(running, q);
        InsertQueryByPriority(q);
      }
      workers := workers[w := IDLE_WORKER];
      if w in busy {
        busy := Remove(busy, w);
        idle := idle + [w];
      }
    }

    method ManageEndQuery(w: int, q: int) returns (result: int)
      modifies this`queries, this`ready, this`running, this`workers, this`idle, this`busy
      ensures State() == EndQuery(old(State()), w, q)
      ensures result == if w in old(workers) && q in old(running) then 0 else -1
    {
      if w !in workers { return -1; }
      var found := FindRunning(q);
      if !found {
        workers := workers[w := IDLE_WORKER];
        return -1;
      }
      ReleaseWorker(w);
      CleanupQueryResources(q);
      return 0;
    }

    method HandleErrorFromStorage(w: int)
      modifies this`queries, this`ready, this`running, this`workers, this`idle, this`busy
      ensures State() == StorageError(old(State()), w)
    {
      if w !in workers || workers[w].query < 0 { return; }
      var q := workers[w].query;
      var found := FindRunning(q);
      if !found { return; }
      ReleaseWorker(w);
      CleanupQueryResources(q);
    }

    // ---------------------------------------------------------------- preemption and disconnection

    /** `sent` is only meaningful when a request had to be sent. */
    method PreemptQueryInExec(q: int) returns (sent: bool)
      requires q in queries
      modifies this`queries, this`ready, this`running
      ensures State() == Preempt(old(State()), q, sent)
    {
      if queries[q].preemptionPending { return true; }
      if queries[q].worker !in workers {
        CleanupQueryResources(q);
        return false;
      }
      queries := queries[q := queries[q].(preemptionPending := true)];
      sent := Send();
      if !sent {
        queries := queries[q := queries[q].(preemptionPending := false)];
      }
    }

    method FindWorstRunning() returns (q: int)
      requires Valid() && running != []
      ensures q == WorstRunning(running, queries)
    {
      q := running[0];
      assert running[..1] == [running[0]];
      for i := 1 to |running|
        invariant Known(running[..i], queries) && q == WorstRunning(running[..i], queries)
      {
        assert running[..i + 1][..i] == running[..i];
        if queries[running[i]].priority > queries[q].priority {
          q := running[i];
        }
      }
      assert running[..|running|] == running;
    }

    method CheckPreemption() returns (sent: bool)
      requires Valid()
      modifies this`queries, this`ready, this`running
      ensures State() == MasterModel.CheckPreemption(old(State()), sent)
    {
      if busy == [] || ready == [] || running == [] { return true; }
      var worst := FindWorstRunning();
      if queries[ready[0]].priority >= queries[worst].priority { return true; }
      sent := PreemptQueryInExec(worst);
    }

    method HandleControlDisconnection(q: int) returns (sent: bool)
      modifies this`queries, this`ready, this`running
      ensures State() == ControlLeft(old(State()), q, sent)
    {
      if q !in queries { return true; }
      if queries[q].state == Running {
        queries := queries[q := queries[q].(state := Canceled)];
        sent := PreemptQueryInExec(q);
      } else {
        CleanupQueryResources(q);
        sent := true;
      }
    }

    method HandleWorkerDisconnection(w: int)
      modifies this`queries, this`ready, this`running, this`workers, this`idle, this`busy, this`connected
      ensures State() == WorkerLeft(old(State()), w)
    {
      if w !in workers { return; }
      var q := workers[w].query;
      if q >= 0 && q in queries {
        CleanupQueryResources(q);
      }
      idle, busy := Remove(idle, w), Remove(busy, w);
      workers := workers - {w};
      if connected > 0 {
        connected := connected - 1;
      }
    }

    // ---------------------------------------------------------------- aging

    /** One pass of the aging loop over the READY queue. */
    method AgeReadyQueries(now: nat) returns (changed: bool)
      requires Valid() && NoDup(ready) && 0 < agingInterval
      modifies this`queries
      ensures queries == AgeAll(old(State()), now)
      ensures changed == PrioritiesChanged(old(State()), now)
    {
      changed := false;
      assert AgeListed(queries, [], now, agingInterval) == queries;
      for i := 0 to |ready|
        invariant queries == AgeListed(old(queries), ready[..i], now, agingInterval)
        invariant changed == AnyAged(old(queries), ready[..i], now, agingInterval)
      {
        var q := ready[i];
        AgeNext(old(queries), ready[..i], q, now, agingInterval);
        assert ready[..i + 1] == ready[..i] + [q];
        var aged := Age(queries[q], now, agingInterval);
        changed := changed || aged.priority != queries[q].priority;
        queries := queries[q := aged];
      }
      assert ready[..|ready|] == ready;
    }

    /** Stands in for list_sort of the commons library, of which only the contract is used. */
    method ListSort() returns (sorted: seq<int>)
      requires Valid()
      ensures SortedForm(ready, queries, sorted)
    {
      sorted := [];
      for i := 0 to |ready|
        invariant Known(sorted, queries) && Ascending(sorted, queries) && multiset(sorted) == multiset(ready[..i])
      {
        InsertAscending(sorted, queries, ready[i]);
        var k := InsertPosition(sorted, queries, queries[ready[i]].priority);
        assert sorted == sorted[..k] + sorted[k..];
        sorted := sorted[..k] + [ready[i]] + sorted[k..];
        assert ready[..i + 1] == ready[..i] + [ready[i]];
      }
      assert ready[..|ready|] == ready;
    }

    method AgingTick(now: nat) returns (sorted: seq<int>)
      requires Valid() && NoDup(ready) && 0 < agingInterval
      modifies this`queries, this`ready
      ensures SortedForm(old(ready), AgeAll(old(State()), now), sorted)
      ensures State() == Tick(old(State()), now, sorted)
    {
      var changed := AgeReadyQueries(now);
      assert queries.Keys == old(queries).Keys;
      assert Known(ready, queries) && Known(running, queries);
      sorted := ListSort();
      if changed {
        ready := sorted;
      }
    }
  }

  lemma AgeNext(queries: map<int, Qcb>, listed: seq<int>, q: int, now: nat, interval: nat)
    requires 0 < interval && q in queries && q !in listed
    ensures AgeListed(queries, listed, now, interval)[q] == queries[q]
    ensures AgeListed(queries, listed + [q], now, interval) ==
            AgeListed(queries, listed, now, interval)[q := Age(queries[q], now, interval)]
    ensures AnyAged(queries, listed + [q], now, interval) <==>
            AnyAged(queries, listed, now, interval) || Age(queries[q], now, interval).priority != queries[q].priority
  {
    hide Age;
    assert forall x :: x in listed + [q] <==> x in listed || x == q;
  }

  lemma UpdateTwice<V>(m: map<int, V>, k: int, x: V, y: V)
    ensures m[k := x][k := y] == m[k := y]
  {
  }

  lemma {:induction false} PositionUnique(ready: seq<int>, queries: map<int, Qcb>, p: nat, i: nat)
    requires Known(ready, queries) && i <= |ready|
    requires forall j :: 0 <= j < i ==> queries[ready[j]].priority <= p
    requires i < |ready| ==> p < queries[ready[i]].priority
    ensures InsertPosition(ready, queries, p) == i
  {
    if i > 0 {
      PositionUnique(ready[1..], queries, p, i - 1);
    }
  }
}
