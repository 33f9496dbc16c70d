/** What holds between the Master and one Worker, and that every step of the Worker keeps it. */
module Protocol {
  import opened Common
  import opened MasterModel
  import opened WorkerModel

  /** A query that was given out and is finished. */
  predicate Dead(q: int, live: set<int>, nextId: nat) {
    q !in live && q <= nextId
  }

  /** What is left of a worker's messages when the Master has dropped the leading EVICTs of finished queries. */
  function LivePart(up: seq<FromWorker>, live: set<int>, nextId: nat): seq<FromWorker> {
    if up != [] && up[0].Evict? && Dead(up[0].q, live, nextId) then LivePart(up[1..], live, nextId) else up
  }

  ghost predicate HasStart(down: seq<ToWorker>) {
    exists i :: 0 <= i < |down| && down[i].Start?
  }

  /** At most one start message is on its way, and it carries the query's resume point. */
  ghost predicate DownOk(down: seq<ToWorker>, q: int, n: nat) {
    && (forall i :: 0 <= i < |down| && down[i].Start? ==> q > 0 && down[i] == Start(q, n))
    && (forall i, j :: 0 <= i < j < |down| ==> !(down[i].Start? && down[j].Start?))
  }

  /** What can be on its way to the Master about the worker's query `q`. */
  predicate UpOk(t: seq<FromWorker>, q: int, n: nat) {
    t == [] || (q > 0 && (t == [Evict(q, n)] || t == [End(q)] || (|t| == 2 && t[0] == End(q) && t[1].Evict? && t[1].q == q)))
  }

  /** Nothing about the worker's query is on its way in either direction. */
  ghost predicate Quiet(t: seq<FromWorker>, down: seq<ToWorker>) {
    t == [] && !HasStart(down)
  }

  /** The context with which the executor is at work on a query that has not ended. */
  function ActiveContext(s: WorkerState): Option<Context> {
    match s.phase
    case Fetched => Some(s.flags.current)
    case AtTop(c) => Some(c)
    case Executing(c) => Some(c)
    case Advancing(c) => Some(c)
    case Failing(c) => Some(c)
    case Executed(c, ended) => if ended then None else Some(c)
    case Evicting(c, ended) => if ended then None else Some(c)
    case _ => None
  }

  /** The query whose end the executor has reported and which it has not left yet. */
  function EndedQuery(s: WorkerState): Option<int> {
    match s.phase
    case Executed(c, ended) => if ended then Some(c.q) else None
    case Evicting(c, ended) => if ended then Some(c.q) else None
    case Leaving(q, ejected) => if ejected then None else Some(q)
    case _ => None
  }

  predicate StillSends(s: WorkerState) {
    s.phase.Executed? || s.phase.Evicting?
  }

  /** An executor at work holds the worker's query at its resume point. */
  ghost predicate ActiveOk(s: WorkerState, t: seq<FromWorker>, down: seq<ToWorker>, q: int, n: nat) {
    ActiveContext(s).Some? ==>
      && q > 0 && ActiveContext(s).value == Context(q, n)
      && s.flags.hasQuery && s.flags.current.q == q && Quiet(t, down)
  }

  /** So does a waiting executor with a query, and so does a listener that is about to send it back. */
  ghost predicate WaitingOk(s: WorkerState, t: seq<FromWorker>, down: seq<ToWorker>, q: int, n: nat) {
    && (s.phase.Waiting? && s.flags.hasQuery ==>
          q > 0 && s.flags.current == Context(q, n) && Quiet(t, down) && s.ejecting.None?)
    && (s.ejecting.Some? ==>
          q > 0 && s.ejecting.value == Context(q, n) && Quiet(t, down) && s.phase.Waiting? && !s.flags.hasQuery)
  }

  /** An executor that is leaving a query it has ended, and the query that may have been assigned since. */
  ghost predicate EndedOk(s: WorkerState, t: seq<FromWorker>, down: seq<ToWorker>, q: int, n: nat, live: set<int>, nextId: nat) {
    EndedQuery(s).Some? ==>
      var e := EndedQuery(s).value;
      && ((e == q && t == [End(q)]) || (Dead(e, live, nextId) && (StillSends(s) ==> t == [])))
      && (s.flags.hasQuery ==> s.flags.current.q == e || (q > 0 && s.flags.current == Context(q, n) && Quiet(t, down)))
  }

  /** The executor's last critical section after an ejection is still to come, and will clear the query flag. */
  predicate Doomed(s: WorkerState) {
    s.phase.Leaving? && s.phase.ejected && s.flags.hasQuery
  }

  /** What was assigned to an executor that is leaving an ejected query has the right resume point. */
  ghost predicate DoomedOk(s: WorkerState, t: seq<FromWorker>, down: seq<ToWorker>, q: int, n: nat) {
    Doomed(s) && q > 0 && s.flags.current.q == q && Quiet(t, down) ==> s.flags.current == Context(q, n)
  }

  /** The worker, what is left of its messages, its start messages, and the query `q` the Master believes it
      has, of which `n` instructions are done. */
  ghost predicate Agrees(s: WorkerState, t: seq<FromWorker>, down: seq<ToWorker>, q: int, n: nat, live: set<int>, nextId: nat) {
    && (q > 0 ==> q in live) && DownOk(down, q, n) && UpOk(t, q, n) && (HasStart(down) ==> t == [])
    && (s.flags.isExecuting <==> !s.phase.Waiting?)
    && ActiveOk(s, t, down, q, n) && WaitingOk(s, t, down, q, n) && EndedOk(s, t, down, q, n, live, nextId)
    && DoomedOk(s, t, down, q, n)
  }

  // ---------------------------------------------------------------- messages

  lemma {:induction false} LivePartAppend(up: seq<FromWorker>, msg: FromWorker, live: set<int>, nextId: nat)
    ensures LivePart(up + [msg], live, nextId) ==
            if LivePart(up, live, nextId) == [] then LivePart([msg], live, nextId) else LivePart(up, live, nextId) + [msg]
  {
    if up != [] {
      assert (up + [msg])[1..] == up[1..] + [msg];
      LivePartAppend(up[1..], msg, live, nextId);
    } else {
      assert up + [msg] == [msg];
    }
  }

  // ---------------------------------------------------------------- steps of the worker

  /** A finished query's message does not count; any other waits behind the rest. */
  function Sent(t: seq<FromWorker>, msgs: seq<FromWorker>, live: set<int>, nextId: nat): seq<FromWorker> {
    if t == [] then LivePart(msgs, live, nextId) else t + msgs
  }

  lemma LivePartSingle(msg: FromWorker, live: set<int>, nextId: nat)
    ensures LivePart([msg], live, nextId) == if msg.Evict? && Dead(msg.q, live, nextId) then [] else [msg]
  {
    assert LivePart([], live, nextId) == [];
    assert [msg][1..] == [];
  }

  lemma LivePartSent(up: seq<FromWorker>, msgs: seq<FromWorker>, live: set<int>, nextId: nat)
    requires |msgs| <= 1
    ensures LivePart(up + msgs, live, nextId) == Sent(LivePart(up, live, nextId), msgs, live, nextId)
  {
    if msgs == [] {
      assert up + msgs == up;
    } else {
      assert msgs == [msgs[0]];
      LivePartAppend(up, msgs[0], live, nextId);
    }
  }

  lemma SilentStepKeeps(s: WorkerState, o: Outcome, t: seq<FromWorker>, down: seq<ToWorker>, q: int, n: nat, live: set<int>, nextId: nat)
    requires Agrees(s, t, down, q, n, live, nextId) && ExecutorNext(s, o).sent == [] && ExecutorNext(s, o).completed == []
    ensures Agrees(ExecutorNext(s, o).after, t, down, q, n, live, nextId)
  {
    hide DownOk, HasStart, UpOk, LivePart;
  }

  lemma NoStartAnyCount(down: seq<ToWorker>, q: int, n: nat, k: nat)
    requires DownOk(down, q, n) && !HasStart(down)
    ensures DownOk(down, q, k)
  {
  }

  lemma CompletingStepKeeps(s: WorkerState, o: Outcome, t: seq<FromWorker>, down: seq<ToWorker>, q: int, n: nat, live: set<int>, nextId: nat)
    requires Agrees(s, t, down, q, n, live, nextId) && s.phase.Executing? && !o.Failed?
    ensures var e := ExecutorNext(s, o);
            && q > 0 && e.completed == [Context(q, n)]
            && Agrees(e.after, Sent(t, e.sent, live, nextId), down, q, n + 1, live, nextId)
  {
    hide DownOk, HasStart;
    NoStartAnyCount(down, q, n, n + 1);
  }

  lemma SendingStepKeeps(s: WorkerState, o: Outcome, t: seq<FromWorker>, down: seq<ToWorker>, q: int, n: nat, live: set<int>, nextId: nat)
    requires Agrees(s, t, down, q, n, live, nextId) && (s.phase.Evicting? || s.phase.Failing?)
    ensures var e := ExecutorNext(s, o);
            e.completed == [] && Agrees(e.after, Sent(t, e.sent, live, nextId), down, q, n, live, nextId)
  {
    hide DownOk, HasStart;
    var e := ExecutorNext(s, o);
    if t == [] {
      assert e.sent == [e.sent[0]];
      LivePartSingle(e.sent[0], live, nextId);
    }
  }

  /** The executor completes at most one instruction in a step, and it is the next one of the query. */
  lemma ExecutorKeepsAgreement(s: WorkerState, o: Outcome, t: seq<FromWorker>, down: seq<ToWorker>, q: int, n: nat, live: set<int>, nextId: nat)
    requires Agrees(s, t, down, q, n, live, nextId)
    ensures var e := ExecutorNext(s, o);
            && |e.sent| <= 1 && (e.completed == [] || (q > 0 && e.completed == [Context(q, n)]))
            && Agrees(e.after, Sent(t, e.sent, live, nextId), down, q, n + |e.completed|, live, nextId)
  {
    hide Linked;
    var e := ExecutorNext(s, o);
    if s.phase.Executing? && !o.Failed? {
      CompletingStepKeeps(s, o, t, down, q, n, live, nextId);
    } else if s.phase.Evicting? || s.phase.Failing? {
      SendingStepKeeps(s, o, t, down, q, n, live, nextId);
    } else {
      SilentStepKeeps(s, o, t, down, q, n, live, nextId);
      assert t + [] == t;
    }
  }

  lemma TailStarts(down: seq<ToWorker>, q: int, n: nat)
    requires DownOk(down, q, n) && down != []
    ensures DownOk(down[1..], q, n)
    ensures HasStart(down[1..]) ==> HasStart(down) && down[0].PreemptRequest?
    ensures down[0].Start? ==> HasStart(down) && q > 0 && down[0] == Start(q, n)
    ensures HasStart(down) && down[0].PreemptRequest? ==> HasStart(down[1..])
  {
    var rest := down[1..];
    if HasStart(rest) {
      var i :| 0 <= i < |rest| && rest[i].Start?;
      assert down[i + 1].Start?;
    }
    if HasStart(down) && down[0].PreemptRequest? {
      var i :| 0 <= i < |down| && down[i].Start?;
      assert rest[i - 1].Start?;
    }
  }

  lemma ListenerKeepsAgreement(s: WorkerState, t: seq<FromWorker>, down: seq<ToWorker>, q: int, n: nat, live: set<int>, nextId: nat)
    requires Agrees(s, t, down, q, n, live, nextId) && down != [] && s.ejecting.None?
    ensures Agrees(Receive(s, down[0]), t, down[1..], q, n, live, nextId)
  {
    hide DownOk, HasStart, UpOk, LivePart;
    TailStarts(down, q, n);
  }

  lemma SendBackKeepsAgreement(s: WorkerState, t: seq<FromWorker>, down: seq<ToWorker>, q: int, n: nat, live: set<int>, nextId: nat)
    requires Agrees(s, t, down, q, n, live, nextId) && s.ejecting.Some?
    ensures |SendBack(s).1| == 1 && Agrees(SendBack(s).0, Sent(t, SendBack(s).1, live, nextId), down, q, n, live, nextId)
  {
    hide DownOk, HasStart;
  }

  // ---------------------------------------------------------------- steps of the Master

  lemma StartKeepsAgreement(s: WorkerState, t: seq<FromWorker>, down: seq<ToWorker>, q: int, n: nat, live: set<int>, nextId: nat)
    requires Agrees(s, t, down, NONE, 0, live, nextId) && q > 0 && q in live
    ensures Agrees(s, t, down + [Start(q, n)], q, n, live, nextId)
  {
    var d := down + [Start(q, n)];
    assert !HasStart(down);
    assert d[|down|].Start?;
    hide HasStart;
    assert HasStart(d) by { StartAppended(down, q, n); }
  }

  lemma StartAppended(down: seq<ToWorker>, q: int, n: nat)
    ensures HasStart(down + [Start(q, n)])
  {
    assert (down + [Start(q, n)])[|down|].Start?;
  }

  lemma PreemptAppended(down: seq<ToWorker>, x: int, q: int, n: nat)
    requires DownOk(down, q, n)
    ensures DownOk(down + [PreemptRequest(x)], q, n) && (HasStart(down + [PreemptRequest(x)]) <==> HasStart(down))
  {
    var d := down + [PreemptRequest(x)];
    if HasStart(d) {
      var i :| 0 <= i < |d| && d[i].Start?;
      assert down[i].Start?;
    }
    if HasStart(down) {
      var i :| 0 <= i < |down| && down[i].Start?;
      assert d[i].Start?;
    }
  }

  lemma PreemptKeepsAgreement(s: WorkerState, t: seq<FromWorker>, down: seq<ToWorker>, x: int, q: int, n: nat, live: set<int>, nextId: nat)
    requires Agrees(s, t, down, q, n, live, nextId)
    ensures Agrees(s, t, down + [PreemptRequest(x)], q, n, live, nextId)
  {
    PreemptAppended(down, x, q, n);
    hide DownOk, HasStart, UpOk, LivePart;
  }

  /** The Master takes the worker's EVICT or END: the worker is free for it, and the rest does not count. */
  lemma TakenKeepsAgreement(s: WorkerState, t: seq<FromWorker>, down: seq<ToWorker>, q: int, n: nat,
                            live: set<int>, after: set<int>, nextId: nat)
    requires Agrees(s, t, down, q, n, live, nextId) && t != [] && q <= nextId
    requires after <= live && (t[0].End? ==> q !in after)
    ensures Agrees(s, LivePart(t[1..], after, nextId), down, NONE, 0, after, nextId)
  {
    assert !HasStart(down);
    assert DownOk(down, NONE, 0) by { NoStartIsOk(down); }
    hide HasStart, DownOk;
    assert LivePart(t[1..], after, nextId) == [];
  }

  lemma NoStartIsOk(down: seq<ToWorker>)
    requires !HasStart(down)
    ensures DownOk(down, NONE, 0)
  {
  }

  /** Queries that finish elsewhere, and new ones, do not matter. */
  lemma {:induction false} LivePartFrame(up: seq<FromWorker>, q: int, n: nat, live: set<int>, nextId: nat, after: set<int>, nextAfter: nat)
    requires UpOk(LivePart(up, live, nextId), q, n) && (q > 0 ==> q in after) && nextId <= nextAfter
    requires forall x :: x in after ==> x in live || x > nextId
    ensures LivePart(up, after, nextAfter) == LivePart(up, live, nextId)
  {
    if up != [] && up[0].Evict? && Dead(up[0].q, live, nextId) {
      LivePartFrame(up[1..], q, n, live, nextId, after, nextAfter);
    }
  }

  lemma AgreesFrame(s: WorkerState, t: seq<FromWorker>, down: seq<ToWorker>, q: int, n: nat,
                    live: set<int>, nextId: nat, after: set<int>, nextAfter: nat)
    requires Agrees(s, t, down, q, n, live, nextId) && (q > 0 ==> q in after) && nextId <= nextAfter
    requires forall x :: x in after ==> x in live || x > nextId
    ensures Agrees(s, t, down, q, n, after, nextAfter)
  {
    hide DownOk, HasStart, UpOk;
  }
}
