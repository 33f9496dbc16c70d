/** Whole runs of a Worker's memory: it behaves like a flat byte store. */
module PagingRuns {
  import opened Common
  import opened PagingModel
  import opened PagingTheorems

  /** What a memory operation does to the bytes a Query sees: a write that transferred `data`, or nothing
      (reads, page faults, evictions, flushes, table creation, and whatever failed before its first byte). */
  datatype MemoryOp = Write(ft: FileTag, base: nat, data: seq<Byte>) | Silent

  ghost predicate OpStep(s: MmState, op: MemoryOp, t: MmState) {
    && Inv(s) && Inv(t) && t.pageSize == s.pageSize
    && match op
       case Write(ft, base, data) => Wrote(s, t, ft, base, data)
       case Silent => SameViews(s, t)
  }

  /** Every access of the memory manager is such a step, whether it succeeds or fails. */
  lemma AccessIsOpStep(s: MmState, t: MmState, ft: FileTag, base: nat, done: nat, was: seq<Byte>, now: seq<Byte>, write: bool)
    requires Accessed(s, t, ft, base, done, was, now, write)
    ensures OpStep(s, if write then Write(ft, base, was[..done]) else Silent, t)
  {
  }

  ghost predicate Run(states: seq<MmState>, ops: seq<MemoryOp>) {
    && |states| == |ops| + 1
    && forall k :: 0 <= k < |ops| ==> OpStep(states[k], ops[k], states[k + 1])
  }

  /** The reference: a store of bytes with no pages, frames or replacement policy. */
  function FlatByte(ops: seq<MemoryOp>, ft: FileTag, a: nat, initial: Byte): Byte {
    if ops == [] then initial
    else
      var last := ops[|ops| - 1];
      if last.Write? && last.ft == ft && last.base <= a < last.base + |last.data| then last.data[a - last.base]
      else FlatByte(ops[..|ops| - 1], ft, a, initial)
  }

  /** After any run every byte of every File:Tag is the one the flat store holds. */
  lemma {:induction false} RunIsFlatStore(states: seq<MmState>, ops: seq<MemoryOp>, ft: FileTag, a: nat)
    requires Run(states, ops) && Inv(states[0])
    ensures Inv(states[|ops|])
    ensures ByteAt(states[|ops|], ft, a) == FlatByte(ops, ft, a, ByteAt(states[0], ft, a))
  {
    if ops != [] {
      var n := |ops| - 1;
      RunIsFlatStore(states[..n + 1], ops[..n], ft, a);
      assert OpStep(states[n], ops[n], states[n + 1]);
      if ops[n].Silent? {
        SameViewsSameBytes(states[n], states[n + 1]);
      }
    }
  }

  /** Neither memory size nor replacement policy nor the pattern of faults can be observed: two Workers that
      start from the same bytes and perform the same writes end with the same bytes. */
  lemma PolicyIsInvisible(run1: seq<MmState>, ops1: seq<MemoryOp>, run2: seq<MmState>, ops2: seq<MemoryOp>, ft: FileTag, a: nat)
    requires Run(run1, ops1) && Run(run2, ops2) && Inv(run1[0]) && Inv(run2[0])
    requires ByteAt(run1[0], ft, a) == ByteAt(run2[0], ft, a) && Writes(ops1) == Writes(ops2)
    ensures Inv(run1[|ops1|]) && Inv(run2[|ops2|])
    ensures ByteAt(run1[|ops1|], ft, a) == ByteAt(run2[|ops2|], ft, a)
  {
    RunIsFlatStore(run1, ops1, ft, a);
    RunIsFlatStore(run2, ops2, ft, a);
    OnlyWritesMatter(ops1, ft, a, ByteAt(run1[0], ft, a));
    OnlyWritesMatter(ops2, ft, a, ByteAt(run1[0], ft, a));
  }

  /** The writes of a run, in order. */
  function Writes(ops: seq<MemoryOp>): seq<MemoryOp> {
    if ops == [] then []
    else Writes(ops[..|ops| - 1]) + if ops[|ops| - 1].Write? then [ops[|ops| - 1]] else []
  }

  lemma FlatByteSnoc(ops: seq<MemoryOp>, op: MemoryOp, ft: FileTag, a: nat, initial: Byte)
    ensures FlatByte(ops + [op], ft, a, initial) ==
            if op.Write? && op.ft == ft && op.base <= a < op.base + |op.data| then op.data[a - op.base]
            else FlatByte(ops, ft, a, initial)
  {
    assert (ops + [op])[..|ops|] == ops;
  }

  lemma {:induction false} OnlyWritesMatter(ops: seq<MemoryOp>, ft: FileTag, a: nat, initial: Byte)
    ensures FlatByte(Writes(ops), ft, a, initial) == FlatByte(ops, ft, a, initial)
  {
    if ops != [] {
      hide FlatByte;
      var front, last := ops[..|ops| - 1], ops[|ops| - 1];
      assert ops == front + [last];
      OnlyWritesMatter(front, ft, a, initial);
      FlatByteSnoc(front, last, ft, a, initial);
      FlatByteSnoc(Writes(front), last, ft, a, initial);
      assert Writes(ops) == if last.Write? then Writes(front) + [last] else Writes(front);
    }
  }
}
