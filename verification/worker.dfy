/** The Worker's shared state and the code of its executor and listener threads. */
module WorkerModule {
  import opened Common
  import opened WorkerModel

  datatype QueryResult = Ok | EndOfQuery | Ejected | Error

  /** `count` consecutive program counters from `pc` on. */
  function Consecutive(pc: nat, count: nat): (s: seq<nat>)
    ensures |s| == count && forall i :: 0 <= i < count ==> s[i] == pc + i
  {
    seq(count, i requires 0 <= i < count => pc + i)
  }

  /** What one turn of the executor was told: the ejection flag before and after the instruction, and whether the
      instruction succeeded. */
  datatype Answers = Answers(before: bool, ok: bool, after: bool)

  /** The answers in the order they are asked for. */
  datatype Answer = Flag(requested: bool) | Instruction(ok: bool)

  datatype Turn = Turn(result: QueryResult, nextPc: nat, executed: bool, evicted: Option<nat>)

  /** What those answers make of the instruction at `pc`, in a script whose instruction `i` is an END when `ends[i]`.
      An ejection found before the instruction gives back `pc` itself, one found after it the next one, an END
      included; there is no instruction beyond the end of the script. */
  function Single(ends: seq<bool>, pc: nat, a: Answers): Turn {
    if a.before then Turn(Ejected, pc, false, Some(pc))
    else if pc >= |ends| || !a.ok then Turn(Error, pc, false, None)
    else if a.after then Turn(Ejected, pc + 1, true, Some(pc + 1))
    else Turn(if ends[pc] then EndOfQuery else Ok, pc + 1, true, None)
  }

  /** The answers that are asked for: after an ejection or a failure no more. */
  function Asked(ends: seq<bool>, pc: nat, a: Answers): seq<Answer> {
    if a.before then [Flag(true)]
    else if pc >= |ends| then [Flag(false)]
    else if !a.ok then [Flag(false), Instruction(false)]
    else [Flag(false), Instruction(true), Flag(a.after)]
  }

  /** The answers of consecutive turns from `pc` on. */
  function AskedAll(ends: seq<bool>, pc: nat, turns: seq<Answers>): seq<Answer> {
    if turns == [] then []
    else AskedAll(ends, pc, turns[..|turns| - 1]) + Asked(ends, pc + |turns| - 1, turns[|turns| - 1])
  }

  lemma NothingAsked(ends: seq<bool>, pc: nat)
    ensures AskedAll(ends, pc, []) == []
  {
  }

  lemma AskedMore(ends: seq<bool>, pc: nat, turns: seq<Answers>, a: Answers)
    ensures AskedAll(ends, pc, turns + [a]) == AskedAll(ends, pc, turns) + Asked(ends, pc + |turns|, a)
  {
    assert (turns + [a])[..|turns|] == turns;
  }

  /** A run of turns ends in an ejection exactly when one was found requested: none is overlooked, and none is
      invented. */
  lemma EjectedIffSeen(ends: seq<bool>, pc: nat, turns: seq<Answers>)
    requires |turns| > 0 && forall i :: 0 <= i < |turns| - 1 ==> Single(ends, pc + i, turns[i]).result == Ok
    ensures Flag(true) in AskedAll(ends, pc, turns) <==> Single(ends, pc + |turns| - 1, turns[|turns| - 1]).result == Ejected
  {
    NoneSeen(ends, pc, turns[..|turns| - 1]);
  }

  lemma {:induction false} NoneSeen(ends: seq<bool>, pc: nat, turns: seq<Answers>)
    requires forall i :: 0 <= i < |turns| ==> Single(ends, pc + i, turns[i]).result == Ok
    ensures Flag(true) !in AskedAll(ends, pc, turns)
  {
    if turns != [] {
      NoneSeen(ends, pc, turns[..|turns| - 1]);
      var last := |turns| - 1;
      assert Single(ends, pc + last, turns[last]).result == Ok;
    }
  }

  /** How an instruction turns out for the two threads' state machine. */
  function OutcomeOf(ends: seq<bool>, pc: nat, a: Answers): Outcome {
    if pc >= |ends| || !a.ok then Failed else if ends[pc] then Ended else Done
  }

  function WithFlag(s: WorkerState, requested: bool): WorkerState {
    s.(flags := s.flags.(ejectionRequested := requested))
  }

  /** A turn is three steps of the executor thread, whatever the listener does to the ejection flag in between: it
      completes the instruction it executed and goes on, leaves, fails or evicts as its result says, from the
      resume point it gives back. */
  lemma TurnIsThreeSteps(s: WorkerState, c: Context, ends: seq<bool>, a: Answers, idle: Outcome)
    requires s.phase == AtTop(c)
    ensures var turn := Single(ends, c.pc, a);
            var first := ExecutorNext(WithFlag(s, a.before), idle);
            var second := ExecutorNext(first.after, OutcomeOf(ends, c.pc, a));
            var third := ExecutorNext(WithFlag(second.after, a.after), idle);
            && first.completed == [] && third.completed == []
            && (a.before ==> first.after.phase == Evicting(c, false) && turn.evicted == Some(c.pc) && !turn.executed)
            && (!a.before ==> second.completed == if turn.executed then [c] else [])
            && (!a.before ==> second.sent == if turn.executed && ends[c.pc] then [End(c.q)] else [])
            && (turn.result == Error ==> second.after.phase == Failing(c))
            && (turn.executed ==>
                  third.after.phase == match turn.result
                                       case Ejected => Evicting(Context(c.q, turn.evicted.value), ends[c.pc])
                                       case EndOfQuery => Leaving(c.q, false)
                                       case _ => Advancing(Context(c.q, turn.nextPc)))
  {
  }

  class Worker {
    var hasQuery: bool
    var ejectionRequested: bool
    var isExecuting: bool
    var currentQuery: Context

    // Specification only: every answer the executor has been given.
    ghost var answers: seq<Answer>

    ghost function SharedFlags(): Flags
      reads this
    {
      Flags(hasQuery, ejectionRequested, isExecuting, currentQuery)
    }

    constructor ()
      ensures SharedFlags() == NEW_WORKER.flags
    {
      hasQuery, ejectionRequested, isExecuting, currentQuery := false, false, false, Context(0, 0);
    }

    // ---------------------------------------------------------------- listener

    method AssignQuery(q: int, pc: nat)
      modifies this
      ensures SharedFlags() == Assign(old(SharedFlags()), q, pc)
    {
      currentQuery := Context(q, pc);
      hasQuery := true;
    }

    /** What `back` holds is sent to the Master as soon as the lock is released. */
    method EjectQuery(q: int) returns (back: Option<Context>)
      modifies this
      ensures (SharedFlags(), back) == Eject(old(SharedFlags()), q)
    {
      back := None;
      if hasQuery && currentQuery.q == q {
        if isExecuting {
          ejectionRequested := true;
        } else {
          hasQuery := false;
          back := Some(currentQuery);
        }
      }
    }

    // ---------------------------------------------------------------- executor

    /** One look of fetch_next_query under the lock; it keeps waiting when there is no query. */
    method FetchNextQuery() returns (fetched: bool)
      modifies this
      ensures fetched == old(hasQuery)
      ensures SharedFlags() == if fetched then Fetch(old(SharedFlags())) else old(SharedFlags())
    {
      fetched := hasQuery;
      if fetched { isExecuting := true; }
    }

    method BeginQuery() returns (ctx: Context)
      modifies this
      ensures ctx == old(currentQuery) && SharedFlags() == Begin(old(SharedFlags()))
    {
      ctx := currentQuery;
      ejectionRequested := false;
    }

    method AdvanceQuery(pc: nat)
      modifies `currentQuery
      ensures SharedFlags() == Advance(old(SharedFlags()), pc)
    {
      currentQuery := currentQuery.(pc := pc);
    }

    method LeaveQuery(ctx: Context, result: QueryResult)
      modifies this
      ensures SharedFlags() == Leave(old(SharedFlags()), ctx.q, result == Ejected)
    {
      if result == Ejected {
        hasQuery := false;
      } else if hasQuery && currentQuery.q == ctx.q {
        hasQuery := false;
      }
      isExecuting := false;
    }

    /** The ejection flag as read under the lock: the listener may set it at any time. */
    method ReadEjection() returns (requested: bool)
      modifies `answers
      ensures answers == old(answers) + [Flag(requested)]
    {
      requested := *;
      answers := answers + [Flag(requested)];
    }

    /** execute_instruction, which may fail. */
    method ExecuteInstruction() returns (ok: bool)
      modifies `answers
      ensures answers == old(answers) + [Instruction(ok)]
    {
      ok := *;
      answers := answers + [Instruction(ok)];
    }

    /** execute_single_instruction. `evicted` is the resume point sent to the Master. */
    method ExecuteSingleInstruction(ends: seq<bool>, pc: nat)
      returns (result: QueryResult, nextPc: nat, executed: bool, evicted: Option<nat>, ghost a: Answers)
      modifies `answers
      ensures answers == old(answers) + Asked(ends, pc, a)
      ensures Turn(result, nextPc, executed, evicted) == Single(ends, pc, a)
    {
      result, nextPc, executed, evicted, a := Ok, pc, false, None, Answers(true, true, true);
      var ejectBefore := ReadEjection();
      if ejectBefore { return Ejected, pc, false, Some(pc), a; }
      a := a.(before := false);
      if pc >= |ends| { return Error, pc, false, None, a; }
      var ok := ExecuteInstruction();
      a := a.(ok := ok);
      if !ok { return Error, pc, false, None, a; }
      executed, nextPc := true, pc + 1;
      var ejectAfter := ReadEjection();
      a := a.(after := ejectAfter);
      if ejectAfter { return Ejected, nextPc, true, Some(nextPc), a; }
      if ends[pc] { result := EndOfQuery; }
    }

    /** The executor's inner loop: it completes consecutive instructions from the context on, stops after an
        END, and an ejection gives back exactly the first instruction that is not done. It goes on while the
        answers allow it, and the last of its `turns` gives the result. */
    method RunQuery(ends: seq<bool>, ctx: Context)
      returns (result: QueryResult, done: seq<nat>, evicted: Option<nat>, ghost turns: seq<Answers>)
      modifies this
      ensures |turns| > 0 && answers == old(answers) + AskedAll(ends, ctx.pc, turns)
      ensures forall i :: 0 <= i < |turns| - 1 ==> Single(ends, ctx.pc + i, turns[i]).result == Ok
      ensures var turn := Single(ends, ctx.pc + |turns| - 1, turns[|turns| - 1]);
              && result == turn.result && evicted == turn.evicted
              && done == Consecutive(ctx.pc, |turns| - if turn.executed then 0 else 1)
      ensures result != Ok && done == Consecutive(ctx.pc, |done|)
      ensures |done| > 0 ==> ctx.pc + |done| <= |ends|
      ensures evicted == if result == Ejected then Some(ctx.pc + |done|) else None
      ensures result == EndOfQuery ==> |done| > 0 && ends[ctx.pc + |done| - 1]
      ensures forall k :: ctx.pc <= k < ctx.pc + |done| - 1 ==> !ends[k]
      ensures hasQuery == old(hasQuery) && isExecuting == old(isExecuting) && currentQuery.q == old(currentQuery.q)
    {
      hide Asked, AskedAll;
      result, done, evicted, turns := Ok, [], None, [];
      NothingAsked(ends, ctx.pc);
      var pc := ctx.pc;
      while result == Ok
        invariant answers == old(answers) + AskedAll(ends, ctx.pc, turns)
        invariant result == Ok ==> |turns| == |done|
        invariant |turns| == 0 ==> result == Ok
        invariant forall i :: 0 <= i < |turns| - 1 ==> Single(ends, ctx.pc + i, turns[i]).result == Ok
        invariant |turns| > 0 ==>
                    var turn := Single(ends, ctx.pc + |turns| - 1, turns[|turns| - 1]);
                    result == turn.result && evicted == turn.evicted && |done| == |turns| - if turn.executed then 0 else 1
        invariant result == Ok ==> pc == ctx.pc + |done|
        invariant done == Consecutive(ctx.pc, |done|) && (|done| > 0 ==> ctx.pc + |done| <= |ends|)
        invariant evicted == if result == Ejected then Some(ctx.pc + |done|) else None
        invariant result == EndOfQuery ==> |done| > 0 && ends[ctx.pc + |done| - 1]
        invariant forall k :: ctx.pc <= k < ctx.pc + |done| - 1 ==> !ends[k]
        invariant result == Ok && |done| > 0 ==> !ends[ctx.pc + |done| - 1]
        invariant hasQuery == old(hasQuery) && isExecuting == old(isExecuting) && currentQuery.q == old(currentQuery.q)
        decreases result == Ok, |ends| - |done|
      {
        var nextPc, executed;
        ghost var a;
        result, nextPc, executed, evicted, a := ExecuteSingleInstruction(ends, pc);
        AskedMore(ends, ctx.pc, turns, a);
        turns := turns + [a];
        if executed {
          assert Consecutive(ctx.pc, |done| + 1) == done + [pc];
          done := done + [pc];
        }
        if result == Ok {
          pc := nextPc;
          AdvanceQuery(pc);
        }
      }
    }
  }
}
