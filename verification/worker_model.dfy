/** One Worker as the Master sees it: the flags its two threads share, and what each critical section does. */
module WorkerModel {
  import opened Common

  /** query_context_t. */
  datatype Context = Context(q: int, pc: nat)

  /** The shared part of worker_state_t. */
  datatype Flags = Flags(hasQuery: bool, ejectionRequested: bool, isExecuting: bool, current: Context)

  /** Where the executor thread is. `c` is its own copy of the context; `ended` tells that an END
      instruction has been executed, and so that the end of the query has been reported. */
  datatype Phase =
    | Waiting
    | Fetched
    | AtTop(c: Context)
    | Executing(c: Context)
    | Executed(c: Context, ended: bool)
    | Advancing(c: Context)
    | Evicting(c: Context, ended: bool)
    | Failing(c: Context)
    | Leaving(q: int, ejected: bool)

  /** `ejecting` is the context the listener thread is about to send back. */
  datatype WorkerState = WorkerState(flags: Flags, phase: Phase, ejecting: Option<Context>)

  datatype FromWorker = Evict(q: int, pc: nat) | End(q: int)
  datatype ToWorker = Start(q: int, pc: nat) | PreemptRequest(q: int)

  /** How the execution of an instruction turns out. */
  datatype Outcome = Done | Ended | Failed

  const NEW_WORKER := WorkerState(Flags(false, false, false, Context(0, 0)), Waiting, None)

  // ---------------------------------------------------------------- critical sections of the executor

  /** fetch_next_query, once there is a query. */
  function Fetch(f: Flags): Flags {
    f.(isExecuting := true)
  }

  /** The executor copies the context and clears the ejection flag. */
  function Begin(f: Flags): Flags {
    f.(ejectionRequested := false)
  }

  function Advance(f: Flags, pc: nat): Flags {
    f.(current := f.current.(pc := pc))
  }

  /** The last critical section of a query: after an ejection the flag is cleared whatever query it is for. */
  function Leave(f: Flags, q: int, ejected: bool): Flags {
    f.(hasQuery := f.hasQuery && !ejected && f.current.q != q, isExecuting := false)
  }

  // ---------------------------------------------------------------- critical sections of the listener

  function Assign(f: Flags, q: int, pc: nat): Flags {
    f.(current := Context(q, pc), hasQuery := true)
  }

  /** eject_query: the second result is the context to send back at once. */
  function Eject(f: Flags, q: int): (Flags, Option<Context>) {
    if !f.hasQuery || f.current.q != q then (f, None)
    else if f.isExecuting then (f.(ejectionRequested := true), None)
    else (f.(hasQuery := false), Some(f.current))
  }

  // ---------------------------------------------------------------- steps of the two threads

  datatype ExecutorStep = ExecutorStep(after: WorkerState, sent: seq<FromWorker>, completed: seq<Context>)

  /** The next step of the executor thread. */
  function ExecutorNext(s: WorkerState, o: Outcome): ExecutorStep {
    var f := s.flags;
    match s.phase
    case Waiting => ExecutorStep(if f.hasQuery then s.(flags := Fetch(f), phase := Fetched) else s, [], [])
    case Fetched => ExecutorStep(s.(flags := Begin(f), phase := AtTop(f.current)), [], [])
    case AtTop(c) => ExecutorStep(s.(phase := if f.ejectionRequested then Evicting(c, false) else Executing(c)), [], [])
    case Executing(c) =>
      (match o
       case Done => ExecutorStep(s.(phase := Executed(Context(c.q, c.pc + 1), false)), [], [c])
       case Ended => ExecutorStep(s.(phase := Executed(Context(c.q, c.pc + 1), true)), [End(c.q)], [c])
       case Failed => ExecutorStep(s.(phase := Failing(c)), [], []))
    case Executed(c, ended) =>
      ExecutorStep(s.(phase := if f.ejectionRequested then Evicting(c, ended)
                   else if ended then Leaving(c.q, false) else Advancing(c)), [], [])
    case Advancing(c) => ExecutorStep(s.(flags := Advance(f, c.pc), phase := AtTop(c)), [], [])
    case Evicting(c, ended) => ExecutorStep(s.(phase := Leaving(c.q, true)), [Evict(c.q, c.pc)], [])
    case Failing(c) => ExecutorStep(s.(flags := Leave(f, c.q, false), phase := Waiting), [End(c.q)], [])
    case Leaving(q, ejected) => ExecutorStep(s.(flags := Leave(f, q, ejected), phase := Waiting), [], [])
  }

  /** The listener thread handles one message. */
  function Receive(s: WorkerState, msg: ToWorker): WorkerState {
    match msg
    case Start(q, pc) => s.(flags := Assign(s.flags, q, pc))
    case PreemptRequest(q) => s.(flags := Eject(s.flags, q).0, ejecting := Eject(s.flags, q).1)
  }

  /** The listener thread sends back the context it took. */
  function SendBack(s: WorkerState): (WorkerState, seq<FromWorker>) {
    match s.ejecting
    case None => (s, [])
    case Some(c) => (s.(ejecting := None), [Evict(c.q, c.pc)])
  }
}
