/** Scripts of memory operations run on a real memory manager: it is a flat byte store, for every memory size
    and replacement policy. */
module PagingClient {
  import opened Common
  import opened PagingModel
  import opened ReplacementModel
  import opened PagingTheorems
  import opened FlushTheorems
  import opened PagingRuns
  import opened BlockStoreModule
  import opened MemoryManagerModule

  datatype ClientOp =
    | ReadBytes(ft: FileTag, base: nat, size: nat)
    | WriteBytes(ft: FileTag, base: nat, data: seq<Byte>)
    | FlushFile(ft: FileTag)
    | FlushAll
    | MakeTable(ft: FileTag)

  /** What the operation did to the bytes, given its result: a write that succeeded wrote all its data, one
      that failed a prefix of it, and nothing else writes. */
  ghost predicate Did(op: ClientOp, result: int, effect: MemoryOp) {
    match op
    case WriteBytes(ft, base, data) =>
      effect.Write? && effect.ft == ft && effect.base == base && effect.data <= data && (result == 0 ==> effect.data == data)
    case _ => effect == Silent
  }

  /** What a successful read returned. */
  ghost predicate Returned(s: MmState, op: ClientOp, result: int, bytes: seq<Byte>) {
    op.ReadBytes? && result == 0 ==>
      Shape(s) && |bytes| == op.size && forall k: nat :: k < op.size ==> bytes[k] == ByteAt(s, op.ft, op.base + k)
  }

  /** An access of `n` bytes to the Storage-backed memory: when it succeeds, and which pages it recorded. */
  ghost predicate AccessEffect(s: MmState, t: MmState, ft: FileTag, base: nat, n: nat, result: int, connected: bool, failed: int) {
    && 0 < s.pageSize
    && AccessDecided(s, t, ft, base, n, result, connected, failed)
    && exists done: nat :: done <= n && (result == 0 ==> done == n) && Noted(s.history, t.history, s.pageSize, ft, base, done)
  }

  /** When an operation succeeds, given how many requests to Storage failed during it, and what it does to the
      records that the replacement policy goes by. */
  ghost predicate OpEffect(s: MmState, t: MmState, op: ClientOp, result: int, connected: bool, failed: int) {
    match op
    case ReadBytes(ft, base, size) => AccessEffect(s, t, ft, base, size, result, connected, failed)
    case WriteBytes(ft, base, data) => AccessEffect(s, t, ft, base, |data|, result, connected, failed)
    case FlushFile(_) => FlushEffect(s, t, result, connected, failed)
    case FlushAll => FlushEffect(s, t, result, connected, failed)
    case MakeTable(_) => result == 0 == failed && Grown(s, t)
  }

  ghost predicate FlushEffect(s: MmState, t: MmState, result: int, connected: bool, failed: int) {
    && 0 <= failed && (result == 0 <==> connected && failed == 0)
    && t.history == s.history && t.clearedAt == s.clearedAt && forall id :: Present(t, id) <==> Present(s, id)
  }

  /** The frame table between operations: frames and present pages in bijection, and records of the accesses
      that the replacement policy can go by. */
  ghost predicate Healthy(s: MmState) {
    Inv(s) && NoLeakedFrame(s) && TimesOk(s)
  }

  lemma SoundHealthy(s: MmState, t: MmState)
    requires Healthy(s) && Sound(s, t)
    ensures Healthy(t)
  {
  }

  lemma TransparentStep(s: MmState, t: MmState)
    requires Healthy(s) && Transparent(s, t)
    ensures Healthy(t) && OpStep(s, Silent, t)
  {
    SoundHealthy(s, t);
  }

  lemma AccessStep(s: MmState, t: MmState, ft: FileTag, base: nat, done: nat, was: seq<Byte>, now: seq<Byte>, write: bool)
    requires Healthy(s) && Accessed(s, t, ft, base, done, was, now, write)
    ensures Healthy(t) && OpStep(s, if write then Write(ft, base, was[..done]) else Silent, t)
  {
    SoundHealthy(s, t);
  }

  lemma FlushStep(s: MmState, t: MmState)
    requires Healthy(s) && PartlyFlushed(s, t)
    ensures Healthy(t) && OpStep(s, Silent, t)
  {
    TransparentStep(s, t);
  }

  lemma HealthyCanReplace(s: MmState)
    requires Healthy(s)
    ensures Inv(s) && CanReplace(s)
  {
    BijectionHasVictim(s);
  }

  // ---------------------------------------------------------------- one operation

  method ReadOp(mm: MemoryManager, ft: FileTag, base: nat, size: nat) returns (result: int, bytes: seq<Byte>)
    requires mm.Valid() && Healthy(mm.State())
    modifies mm, mm.memory, mm.memory.data, mm.storage
    ensures mm.Valid() && Healthy(mm.State()) && OpStep(old(mm.State()), Silent, mm.State())
    ensures Returned(old(mm.State()), ReadBytes(ft, base, size), result, bytes)
    ensures mm.connected == old(mm.connected)
    ensures AccessEffect(old(mm.State()), mm.State(), ft, base, size, result, mm.connected, mm.storage.failures - old(mm.storage.failures))
  {
    ghost var s := mm.State();
    HealthyCanReplace(s);
    InvShape(s);
    var buffer := new Byte[size](_ => 0);
    ghost var was := buffer[..];
    hide Healthy, Inv, Accessed, OpStep, CanReplace, AccessDecided, AccessEffect;
    var ended;
    ghost var done;
    result, ended, done := mm.ExecuteAccess(ft, base, buffer, size, false);
    AccessStep(s, mm.State(), ft, base, done, was, buffer[..], false);
    bytes := buffer[..];
    ReadReturned(s, mm.State(), ft, base, size, done, was, bytes, result);
    AccessHasEffect(s, mm.State(), ft, base, size, done, was, buffer[..], false, result, mm.connected, mm.storage.failures - old(mm.storage.failures));
  }

  lemma AccessHasEffect(s: MmState, t: MmState, ft: FileTag, base: nat, n: nat, done: nat, was: seq<Byte>, now: seq<Byte>, write: bool,
                        result: int, connected: bool, failed: int)
    requires Accessed(s, t, ft, base, done, was, now, write) && done <= n && (result == 0 ==> done == n)
    requires 0 < s.pageSize && AccessDecided(s, t, ft, base, n, result, connected, failed)
    ensures AccessEffect(s, t, ft, base, n, result, connected, failed)
  {
  }

  lemma ReadReturned(s: MmState, t: MmState, ft: FileTag, base: nat, size: nat, done: nat, was: seq<Byte>, bytes: seq<Byte>, result: int)
    requires Accessed(s, t, ft, base, done, was, bytes, false) && |bytes| == size && (result == 0 ==> done == size)
    ensures Returned(s, ReadBytes(ft, base, size), result, bytes)
  {
  }

  method WriteOp(mm: MemoryManager, ft: FileTag, base: nat, data: seq<Byte>) returns (result: int, ghost effect: MemoryOp)
    requires mm.Valid() && Healthy(mm.State())
    modifies mm, mm.memory, mm.memory.data, mm.storage
    ensures mm.Valid() && Healthy(mm.State()) && OpStep(old(mm.State()), effect, mm.State())
    ensures Did(WriteBytes(ft, base, data), result, effect)
    ensures mm.connected == old(mm.connected)
    ensures AccessEffect(old(mm.State()), mm.State(), ft, base, |data|, result, mm.connected, mm.storage.failures - old(mm.storage.failures))
  {
    ghost var s := mm.State();
    HealthyCanReplace(s);
    InvShape(s);
    var buffer := new Byte[|data|](i requires 0 <= i < |data| => data[i]);
    assert buffer[..] == data;
    hide Healthy, Inv, Accessed, OpStep, CanReplace, AccessDecided, AccessEffect;
    var ended;
    ghost var done;
    result, ended, done := mm.ExecuteAccess(ft, base, buffer, |data|, true);
    AccessStep(s, mm.State(), ft, base, done, data, buffer[..], true);
    effect := Write(ft, base, data[..done]);
    assert result == 0 ==> data[..done] == data;
    AccessHasEffect(s, mm.State(), ft, base, |data|, done, data, buffer[..], true, result, mm.connected, mm.storage.failures - old(mm.storage.failures));
  }

  method ExecuteOp(mm: MemoryManager, op: ClientOp) returns (result: int, bytes: seq<Byte>, ghost effect: MemoryOp)
    requires mm.Valid() && Healthy(mm.State())
    modifies mm, mm.memory, mm.memory.data, mm.storage
    ensures mm.Valid() && Healthy(mm.State()) && OpStep(old(mm.State()), effect, mm.State())
    ensures Did(op, result, effect) && Returned(old(mm.State()), op, result, bytes)
    ensures mm.connected == old(mm.connected)
    ensures OpEffect(old(mm.State()), mm.State(), op, result, mm.connected, mm.storage.failures - old(mm.storage.failures))
  {
    hide Inv, OpStep, PartlyFlushed, Transparent, AccessEffect, Grown;
    ghost var s := mm.State();
    bytes, effect := [], Silent;
    match op {
      case ReadBytes(ft, base, size) => result, bytes := ReadOp(mm, ft, base, size);
      case WriteBytes(ft, base, data) => result, effect := WriteOp(mm, ft, base, data);
      case FlushFile(ft) =>
        result := mm.FlushQuery(ft);
        FlushStep(s, mm.State());
        OnlyCleaned(s, mm.State());
      case FlushAll =>
        result := mm.FlushAllDirty();
        FlushStep(s, mm.State());
        OnlyCleaned(s, mm.State());
      case MakeTable(ft) =>
        var i := mm.CreatePageTable(ft);
        TransparentStep(s, mm.State());
        result := 0;
    }
  }

  // ---------------------------------------------------------------- scripts

  /** `t` holds the bytes of the flat store that started from those of `s`. */
  ghost predicate Flat(s: MmState, ops: seq<MemoryOp>, t: MmState) {
    && Inv(s) && Inv(t) && t.pageSize == s.pageSize
    && forall g, a: nat {:trigger ByteAt(t, g, a)} :: ByteAt(t, g, a) == FlatByte(ops, g, a, ByteAt(s, g, a))
  }

  lemma FlatStep(s: MmState, ops: seq<MemoryOp>, t: MmState, op: MemoryOp, u: MmState)
    requires Flat(s, ops, t) && OpStep(t, op, u)
    ensures Flat(s, ops + [op], u)
  {
    hide PagesOk, FramesOwnedOnce, ByteAt, FlatByte, SameViews;
    SilentBytes(t, op, u);
    forall g, a: nat {:trigger ByteAt(u, g, a)}
      ensures ByteAt(u, g, a) == FlatByte(ops + [op], g, a, ByteAt(s, g, a))
    {
      FlatByteSnoc(ops, op, g, a, ByteAt(s, g, a));
    }
  }

  lemma SilentBytes(s: MmState, op: MemoryOp, t: MmState)
    requires OpStep(s, op, t)
    ensures op.Silent? ==> forall g, a: nat {:trigger ByteAt(t, g, a)} :: ByteAt(t, g, a) == ByteAt(s, g, a)
  {
    if op.Silent? {
      SameViewsSameBytes(s, t);
    }
  }

  /** A read of the `k`-th operation returned the bytes of the flat store after the writes before it. */
  ghost predicate FlatRead(s: MmState, ops: seq<MemoryOp>, k: nat, op: ClientOp, result: int, bytes: seq<Byte>) {
    op.ReadBytes? && result == 0 && k <= |ops| ==>
      Shape(s) && |bytes| == op.size &&
      forall j: nat :: j < op.size ==> bytes[j] == FlatByte(ops[..k], op.ft, op.base + j, ByteAt(s, op.ft, op.base + j))
  }

  lemma ReadIsFlat(s: MmState, ops: seq<MemoryOp>, t: MmState, op: ClientOp, result: int, bytes: seq<Byte>, more: seq<MemoryOp>)
    requires Flat(s, ops, t) && Returned(t, op, result, bytes)
    ensures FlatRead(s, ops + more, |ops|, op, result, bytes)
  {
    hide ByteAt, FlatByte;
    assert (ops + more)[..|ops|] == ops;
  }

  lemma FlatReadStays(s: MmState, ops: seq<MemoryOp>, k: nat, op: ClientOp, result: int, bytes: seq<Byte>, last: MemoryOp)
    requires FlatRead(s, ops, k, op, result, bytes) && k <= |ops|
    ensures FlatRead(s, ops + [last], k, op, result, bytes)
  {
    hide ByteAt, FlatByte;
    assert (ops + [last])[..k] == ops[..k];
  }

  /** What a whole script did: its writes, and its reads, against the flat store. */
  ghost predicate Ran(s: MmState, script: seq<ClientOp>, results: seq<int>, answers: seq<seq<Byte>>, ops: seq<MemoryOp>) {
    && |results| == |script| && |answers| == |script| && |ops| == |script|
    && (forall k :: 0 <= k < |script| ==> Did(script[k], results[k], ops[k]))
    && (forall k :: 0 <= k < |script| ==> FlatRead(s, ops, k, script[k], results[k], answers[k]))
  }

  lemma RanMore(s: MmState, script: seq<ClientOp>, results: seq<int>, answers: seq<seq<Byte>>, ops: seq<MemoryOp>,
                t: MmState, op: ClientOp, result: int, bytes: seq<Byte>, effect: MemoryOp)
    requires Ran(s, script, results, answers, ops) && Flat(s, ops, t) && Did(op, result, effect) && Returned(t, op, result, bytes)
    ensures Ran(s, script + [op], results + [result], answers + [bytes], ops + [effect])
  {
    hide Did, FlatRead, Flat, Returned;
    ReadIsFlat(s, ops, t, op, result, bytes, [effect]);
    forall k | 0 <= k < |script|
      ensures FlatRead(s, ops + [effect], k, script[k], results[k], answers[k])
    {
      FlatReadStays(s, ops, k, script[k], results[k], answers[k], effect);
    }
  }

  /** The memory and the count of failed requests to Storage before each operation of a script, and at its end. */
  datatype Moment = Moment(memory: MmState, failures: nat)

  /** Each operation succeeded or failed as it must, and left its records. */
  ghost predicate Stepped(moments: seq<Moment>, script: seq<ClientOp>, results: seq<int>, connected: bool) {
    && |moments| == |script| + 1 && |results| == |script|
    && (forall k :: 0 <= k < |script| ==>
                      OpEffect(moments[k].memory, moments[k + 1].memory, script[k], results[k], connected,
                               moments[k + 1].failures - moments[k].failures))
    && (forall m :: m in moments ==> Healthy(m.memory) && |m.memory.used| == |moments[0].memory.used|)
  }

  lemma SteppedMore(moments: seq<Moment>, script: seq<ClientOp>, results: seq<int>, connected: bool, m: Moment, op: ClientOp, result: int)
    requires Stepped(moments, script, results, connected)
    requires Healthy(m.memory) && |m.memory.used| == |moments[0].memory.used|
    requires OpEffect(moments[|script|].memory, m.memory, op, result, connected, m.failures - moments[|script|].failures)
    ensures Stepped(moments + [m], script + [op], results + [result], connected)
  {
    hide OpEffect, Healthy;
    var after := moments + [m];
    forall k | 0 <= k < |script| + 1
      ensures OpEffect(after[k].memory, after[k + 1].memory, (script + [op])[k], (results + [result])[k], connected,
                       after[k + 1].failures - after[k].failures)
    {
    }
  }

  lemma {:induction false} FailuresGrow(moments: seq<Moment>, script: seq<ClientOp>, results: seq<int>, connected: bool, j: nat, k: nat)
    requires Stepped(moments, script, results, connected) && j <= k <= |script|
    ensures moments[j].failures <= moments[k].failures
  {
    if j < k {
      FailuresGrow(moments, script, results, connected, j, k - 1);
      var last := k - 1;
      assert OpEffect(moments[last].memory, moments[last + 1].memory, script[last], results[last], connected,
                      moments[last + 1].failures - moments[last].failures);
    }
  }

  /** No operation of the script is an access of no bytes, which would fail. */
  predicate NoEmptyAccess(script: seq<ClientOp>) {
    forall k :: 0 <= k < |script| ==>
                  && (script[k].ReadBytes? ==> 0 < script[k].size)
                  && (script[k].WriteBytes? ==> 0 < |script[k].data|)
  }

  /** As long as Storage is connected and no request to it fails, every operation succeeds, in a memory of any
      number of frames but 0. */
  lemma AllSucceed(moments: seq<Moment>, script: seq<ClientOp>, results: seq<int>, connected: bool)
    requires Stepped(moments, script, results, connected) && NoEmptyAccess(script)
    requires connected && 0 < |moments[0].memory.used| && moments[|script|].failures == moments[0].failures
    ensures forall k :: 0 <= k < |script| ==> results[k] == 0
  {
    hide Resident, Healthy, CanReplace, Noted;
    forall k | 0 <= k < |script|
      ensures results[k] == 0
    {
      FailuresGrow(moments, script, results, connected, 0, k);
      FailuresGrow(moments, script, results, connected, k, k + 1);
      FailuresGrow(moments, script, results, connected, k + 1, |script|);
      var m := moments[k];
      assert m in moments;
      HealthyCanReplace(m.memory);
      assert HasFrame(m.memory);
      assert OpEffect(m.memory, moments[k + 1].memory, script[k], results[k], connected, moments[k + 1].failures - m.failures);
    }
  }

  /** The operation is an access to some bytes, and their pages are all present. */
  ghost predicate Hits(s: MmState, op: ClientOp) {
    && 0 < s.pageSize
    && match op
       case ReadBytes(ft, base, size) => 0 < size && Resident(s, ft, base, size)
       case WriteBytes(ft, base, data) => 0 < |data| && Resident(s, ft, base, |data|)
       case _ => false
  }

  /** Whatever happens to Storage or the connection, an access whose pages are all present succeeds. It loads and
      evicts no page and clears no use bit. */
  lemma PresentPagesSucceed(moments: seq<Moment>, script: seq<ClientOp>, results: seq<int>, connected: bool, k: nat)
    requires Stepped(moments, script, results, connected) && k < |script| && Hits(moments[k].memory, script[k])
    ensures results[k] == 0 && moments[k + 1].failures == moments[k].failures
    ensures forall id :: Present(moments[k + 1].memory, id) <==> Present(moments[k].memory, id)
    ensures moments[k + 1].memory.policy.ClockM? && moments[k].memory.policy.ClockM? ==>
              forall id :: Present(moments[k].memory, id) && moments[k].memory.pages[id].useBit ==> moments[k + 1].memory.pages[id].useBit
  {
    var s, t := moments[k].memory, moments[k + 1].memory;
    assert OpEffect(s, t, script[k], results[k], connected, moments[k + 1].failures - moments[k].failures);
    assert moments[k] in moments && moments[k + 1] in moments;
    assert t.clearedAt == s.clearedAt;
  }

  /** A script of any operations, whatever their results: the memory ends with the bytes of the flat store, every
      successful read returned the bytes it held then, and frames and present pages are still in bijection.
      Operations fail only for want of Storage or of a frame: every access whose pages are present when its turn
      comes succeeds, and with Storage answering all of them do. */
  method RunScript(mm: MemoryManager, script: seq<ClientOp>)
    returns (results: seq<int>, answers: seq<seq<Byte>>, ghost ops: seq<MemoryOp>, ghost moments: seq<Moment>)
    requires mm.Valid() && Healthy(mm.State())
    modifies mm, mm.memory, mm.memory.data, mm.storage
    ensures mm.Valid() && Healthy(mm.State()) && mm.connected == old(mm.connected)
    ensures Flat(old(mm.State()), ops, mm.State()) && Ran(old(mm.State()), script, results, answers, ops)
    ensures Stepped(moments, script, results, mm.connected)
    ensures moments[0] == Moment(old(mm.State()), old(mm.storage.failures))
    ensures moments[|script|] == Moment(mm.State(), mm.storage.failures)
  {
    hide Healthy, Flat, Ran, OpStep, Did, Returned, OpEffect, Stepped;
    ghost var s := mm.State();
    results, answers, ops := [], [], [];
    moments := [Moment(s, mm.storage.failures)];
    NothingRan(s);
    NothingStepped(moments[0], mm.connected);
    for k := 0 to |script|
      invariant mm.Valid() && Healthy(mm.State()) && mm.connected == old(mm.connected)
      invariant Flat(s, ops, mm.State()) && Ran(s, script[..k], results, answers, ops)
      invariant |moments| == k + 1 && Stepped(moments, script[..k], results, mm.connected)
      invariant moments[0] == Moment(s, old(mm.storage.failures)) && moments[k] == Moment(mm.State(), mm.storage.failures)
    {
      ghost var t := mm.State();
      var result, bytes;
      ghost var effect;
      result, bytes, effect := ExecuteOp(mm, script[k]);
      RanMore(s, script[..k], results, answers, ops, t, script[k], result, bytes, effect);
      FlatStep(s, ops, t, effect, mm.State());
      assert script[..k + 1] == script[..k] + [script[k]];
      ghost var now := Moment(mm.State(), mm.storage.failures);
      SteppedMore(moments, script[..k], results, mm.connected, now, script[k], result);
      results, answers, ops, moments := results + [result], answers + [bytes], ops + [effect], moments + [now];
    }
    assert script[..|script|] == script;
  }

  lemma NothingStepped(m: Moment, connected: bool)
    requires Healthy(m.memory)
    ensures Stepped([m], [], [], connected)
  {
  }

  lemma NothingRan(s: MmState)
    requires Healthy(s)
    ensures Flat(s, [], s) && Ran(s, [], [], [], [])
  {
  }

  /** A script followed by a complete flush: Storage itself holds what the flat store holds. */
  method RunAndFlush(mm: MemoryManager, script: seq<ClientOp>)
    returns (flushed: int, results: seq<int>, answers: seq<seq<Byte>>, ghost ops: seq<MemoryOp>)
    requires mm.Valid() && Healthy(mm.State())
    modifies mm, mm.memory, mm.memory.data, mm.storage
    ensures mm.Valid() && Healthy(mm.State()) && Shape(old(mm.State())) && 0 < mm.State().pageSize
    ensures Ran(old(mm.State()), script, results, answers, ops)
    ensures flushed == 0 ==> StorageIsFlat(old(mm.State()), ops, mm.State())
  {
    hide Healthy, Flat, Ran, PartlyFlushed;
    ghost var s := mm.State();
    ghost var moments;
    results, answers, ops, moments := RunScript(mm, script);
    ghost var t := mm.State();
    HealthyShape(t);
    flushed := mm.FlushAllDirty();
    FlushStep(t, mm.State());
    HealthyShape(s);
    HealthyShape(mm.State());
    if flushed == 0 {
      FlushedIsFlat(s, ops, t, mm.State());
    }
  }

  ghost predicate StorageIsFlat(s: MmState, ops: seq<MemoryOp>, t: MmState)
    requires Shape(s) && 0 < t.pageSize
  {
    forall g, a: nat :: StoragePage(t, BlockId(g, a / t.pageSize))[a % t.pageSize] == FlatByte(ops, g, a, ByteAt(s, g, a))
  }

  lemma HealthyShape(s: MmState)
    requires Healthy(s)
    ensures Shape(s) && Inv(s)
  {
  }

  lemma FlushedIsFlat(s: MmState, ops: seq<MemoryOp>, t: MmState, u: MmState)
    requires Inv(t) && Flat(s, ops, t) && PartlyFlushed(t, u) && NoDirtyPage(u) && Shape(s)
    ensures 0 < u.pageSize && StorageIsFlat(s, ops, u)
  {
    FlushSynchronises(t, u);
    hide FlatByte, View, StoragePage;
    forall g, a: nat
      ensures StoragePage(u, BlockId(g, a / u.pageSize))[a % u.pageSize] == FlatByte(ops, g, a, ByteAt(s, g, a))
    {
      assert StoragePage(u, BlockId(g, a / u.pageSize)) == View(t, BlockId(g, a / u.pageSize));
      assert ByteAt(t, g, a) == FlatByte(ops, g, a, ByteAt(s, g, a));
    }
  }

  // ---------------------------------------------------------------- policies

  /** With every result 0, what a script did is decided by the script. */
  lemma SameEffects(s: MmState, t: MmState, script: seq<ClientOp>, results1: seq<int>, answers1: seq<seq<Byte>>, ops1: seq<MemoryOp>,
                    results2: seq<int>, answers2: seq<seq<Byte>>, ops2: seq<MemoryOp>)
    requires Ran(s, script, results1, answers1, ops1) && Ran(t, script, results2, answers2, ops2)
    requires forall k :: 0 <= k < |script| ==> results1[k] == 0 && results2[k] == 0
    ensures ops1 == ops2
  {
    forall k | 0 <= k < |script|
      ensures ops1[k] == ops2[k]
    {
      assert Did(script[k], results1[k], ops1[k]) && Did(script[k], results2[k], ops2[k]);
    }
  }

  ghost predicate SameBytes(s: MmState, t: MmState) {
    Shape(s) && Shape(t) && forall g, a: nat :: ByteAt(s, g, a) == ByteAt(t, g, a)
  }

  lemma SameAnswers(s: MmState, t: MmState, script: seq<ClientOp>, results1: seq<int>, answers1: seq<seq<Byte>>, ops: seq<MemoryOp>,
                    results2: seq<int>, answers2: seq<seq<Byte>>)
    requires Ran(s, script, results1, answers1, ops) && Ran(t, script, results2, answers2, ops) && SameBytes(s, t)
    requires forall k :: 0 <= k < |script| ==> results1[k] == 0 && results2[k] == 0
    ensures forall k :: 0 <= k < |script| && script[k].ReadBytes? ==> answers1[k] == answers2[k]
  {
    hide ByteAt, FlatByte, Did;
    forall k | 0 <= k < |script| && script[k].ReadBytes?
      ensures answers1[k] == answers2[k]
    {
      assert FlatRead(s, ops, k, script[k], results1[k], answers1[k]) && FlatRead(t, ops, k, script[k], results2[k], answers2[k]);
    }
  }

  lemma SameEnd(s: MmState, t: MmState, ops: seq<MemoryOp>, s': MmState, t': MmState)
    requires Flat(s, ops, s') && Flat(t, ops, t') && SameBytes(s, t)
    ensures SameBytes(s', t')
  {
    hide ByteAt, FlatByte;
    forall g, a: nat
      ensures ByteAt(s', g, a) == ByteAt(t', g, a)
    {
      assert ByteAt(s', g, a) == FlatByte(ops, g, a, ByteAt(s, g, a));
      assert ByteAt(t', g, a) == FlatByte(ops, g, a, ByteAt(t, g, a));
    }
  }

  /** Neither memory size nor policy can be observed: managers of any memory sizes and policies that run the
      same script over the same bytes, with every operation successful, answer every read alike and end with
      the same bytes. They are all successful when both have a frame and a Storage that answers. */
  method CompareManagers(m1: MemoryManager, m2: MemoryManager, script: seq<ClientOp>)
    returns (results1: seq<int>, results2: seq<int>, answers1: seq<seq<Byte>>, answers2: seq<seq<Byte>>)
    requires m1.Valid() && m2.Valid() && Healthy(m1.State()) && Healthy(m2.State()) && SameBytes(m1.State(), m2.State())
    requires m1 != m2 && m1.memory != m2.memory && m1.memory.data != m2.memory.data && m1.storage != m2.storage
    modifies m1, m1.memory, m1.memory.data, m1.storage, m2, m2.memory, m2.memory.data, m2.storage
    ensures |results1| == |results2| == |answers1| == |answers2| == |script|
    ensures (forall k :: 0 <= k < |script| ==> results1[k] == 0 && results2[k] == 0) ==>
              && SameBytes(m1.State(), m2.State())
              && forall k :: 0 <= k < |script| && script[k].ReadBytes? ==> answers1[k] == answers2[k]
    ensures NoEmptyAccess(script) && Served(m1, old(m1.storage.failures)) && Served(m2, old(m2.storage.failures)) ==>
              forall k :: 0 <= k < |script| ==> results1[k] == 0 && results2[k] == 0
  {
    ghost var s, t := m1.State(), m2.State();
    hide Healthy, Flat, SameBytes, Did, FlatRead, Stepped;
    ghost var ops1, ops2, moments1, moments2;
    results1, answers1, ops1, moments1 := RunScript(m1, script);
    assert m2.State() == t && m2.Valid();
    ghost var s' := m1.State();
    results2, answers2, ops2, moments2 := RunScript(m2, script);
    assert m1.State() == s';
    ServedSucceeds(m1, moments1, script, results1);
    ServedSucceeds(m2, moments2, script, results2);
    if forall k :: 0 <= k < |script| ==> results1[k] == 0 && results2[k] == 0 {
      SameEffects(s, t, script, results1, answers1, ops1, results2, answers2, ops2);
      SameAnswers(s, t, script, results1, answers1, ops1, results2, answers2);
      SameEnd(s, t, ops1, s', m2.State());
    }
  }

  /** There is a frame, and Storage was connected and answered every request since it had failed `failures` times. */
  ghost predicate Served(mm: MemoryManager, failures: nat)
    reads mm, mm.storage
  {
    mm.connected && 0 < |mm.used| && mm.storage.failures == failures
  }

  lemma ServedSucceeds(mm: MemoryManager, moments: seq<Moment>, script: seq<ClientOp>, results: seq<int>)
    requires mm.Valid() && Stepped(moments, script, results, mm.connected)
    requires |moments| == |script| + 1 && moments[|script|] == Moment(mm.State(), mm.storage.failures)
    ensures Served(mm, moments[0].failures) && NoEmptyAccess(script) ==> forall k :: 0 <= k < |script| ==> results[k] == 0
  {
    if Served(mm, moments[0].failures) && NoEmptyAccess(script) {
      assert moments[|script|] in moments;
      AllSucceed(moments, script, results, mm.connected);
    }
  }

  /** New managers over equal Storages start with the same bytes, whatever their sizes and policies. */
  method NewManagers(size1: nat, size2: nat, pageSize: nat, policy1: Policy, policy2: Policy, store1: BlockStore, store2: BlockStore)
    returns (m1: MemoryManager, m2: MemoryManager)
    requires 0 < size1 && 0 < size2 && 0 < pageSize && store1.blocks == store2.blocks
    ensures m1.Valid() && m2.Valid() && Healthy(m1.State()) && Healthy(m2.State()) && SameBytes(m1.State(), m2.State())
    ensures m1.policy == policy1 && m2.policy == policy2 && m1.storage == store1 && m2.storage == store2
    ensures |m1.used| == size1 / pageSize && |m2.used| == size2 / pageSize
    ensures fresh(m1) && fresh(m2) && m1 != m2
  {
    m1 := new MemoryManager(size1, pageSize, policy1, store1);
    m2 := new MemoryManager(size2, pageSize, policy2, store2);
    FreshBytes(m1.State(), m2.State());
  }

  lemma FreshBytes(s: MmState, t: MmState)
    requires Inv(s) && Inv(t) && s.pageSize == t.pageSize && s.blocks == t.blocks && s.pages == t.pages == map[]
    ensures SameBytes(s, t)
  {
  }

  // ---------------------------------------------------------------- where CLOCK-M has nothing to find

  /** The only frame is filled with a page of `ft`, whose table is then removed: the frame stays used, no page
      is present, and no frame can be had. */
  method FillAndRemove(mm: MemoryManager, ft: FileTag) returns (loaded: int)
    requires mm.Valid() && Healthy(mm.State()) && |mm.used| == 1 && forall id :: !Present(mm.State(), id)
    modifies mm, mm.memory, mm.memory.data, mm.storage
    ensures mm.Valid() && Inv(mm.State())
    ensures loaded == 0 ==> !NoLeakedFrame(mm.State()) && !CanReplace(mm.State()) && mm.State().hand < |mm.State().frames|
    ensures loaded == 0 ==> mm.connected && forall rounds :: !EndsWithin(mm.State(), rounds)
  {
    hide Inv, Healthy, CanReplace, NoLeakedFrame, EndsWithin, Dropped;
    loaded := LoadFirstPage(mm, ft);
    ghost var t := mm.State();
    mm.RemovePageTable(ft);
    DropKeeps(t, mm.State());
    if loaded == 0 {
      OnlyFrameIsUsed(t, ft);
      NobodyLeft(t, mm.State(), BlockId(ft, 0));
    }
  }

  method LoadFirstPage(mm: MemoryManager, ft: FileTag) returns (loaded: int)
    requires mm.Valid() && Healthy(mm.State()) && forall id :: !Present(mm.State(), id)
    modifies mm, mm.memory, mm.memory.data, mm.storage
    ensures mm.Valid() && Inv(mm.State()) && mm.connected
    ensures loaded == 0 ==> Present(mm.State(), BlockId(ft, 0))
  {
    hide FaultEffect, HasFrame, Grown, Inv, Healthy, Transparent, CanReplace;
    ghost var s := mm.State();
    HealthyShape(s);
    mm.SetStorageConnection(true);
    var i := mm.CreatePageTable(ft);
    GrownPresent(s, mm.State());
    ghost var t := mm.State();
    TransparentKeeps(s, t);
    var ended;
    ghost var victim;
    loaded, ended, victim := mm.HandlePageFault(i, 0);
    TransparentKeeps(t, mm.State());
  }

  /** An access to any byte of any file, which the source would not return from when `ended` is false. */
  method ReadByte(mm: MemoryManager, ft: FileTag, address: nat) returns (ended: bool)
    requires mm.Valid() && Inv(mm.State())
    modifies mm, mm.memory, mm.memory.data, mm.storage
    ensures mm.Valid()
    ensures ended <==> !old(mm.connected) || mm.policy.Lru? || CanReplace(old(mm.State()))
  {
    var buffer := new Byte[1](_ => 0);
    hide Inv, Accessed, CanReplace;
    var result;
    ghost var done;
    result, ended, done := mm.ExecuteAccess(ft, address, buffer, 1, false);
  }

  /** From a new manager with one frame: once the page that fills it was loaded and its table removed, the next
      access makes the CLOCK-M search go on for ever. */
  method RemovalLeavesNoVictim(pageSize: nat, store: BlockStore, ft: FileTag, other: FileTag, address: nat)
    returns (mm: MemoryManager, loaded: int, ended: bool)
    requires 0 < pageSize
    modifies store
    ensures mm.Valid() && mm.policy == ClockM && (loaded == 0 ==> !ended)
  {
    mm := new MemoryManager(pageSize, pageSize, ClockM, store);
    loaded := FillAndRemove(mm, ft);
    ended := ReadByte(mm, other, address);
  }

  lemma OnlyFrameIsUsed(s: MmState, ft: FileTag)
    requires Inv(s) && Present(s, BlockId(ft, 0)) && |s.used| == 1
    ensures s.used[0] && forall x :: Present(s, x) ==> x == BlockId(ft, 0)
  {
    assert PageOk(s, BlockId(ft, 0));
    forall x | Present(s, x)
      ensures x == BlockId(ft, 0)
    {
      assert PageOk(s, x);
    }
  }

  lemma NobodyLeft(s: MmState, t: MmState, id: BlockId)
    requires Inv(t) && Dropped(s, t) && |s.used| == 1 && s.used[0] && (forall x :: Present(s, x) ==> x == id) && id !in t.pages
    ensures !NoLeakedFrame(t) && !CanReplace(t) && t.hand < |t.frames| && forall rounds :: !EndsWithin(t, rounds)
  {
    forall x
      ensures !Present(t, x)
    {
      assert x in t.pages ==> x in s.pages && Present(s, x) == Present(t, x);
    }
    assert !Owned(t, 0);
    FullTableOfNobody(t);
  }

  const ONLY_PAGE := BlockId(FileTag("A", "1"), 0)

  /** A new manager with one frame of one byte, after it made a table of one page and reserved the frame. */
  const RESERVED_ONE := MmState(1, ClockM, map[ONLY_PAGE := BlankEntry(0)], [true], [[0]], 0, [], 0, map[])

  /** What LoadBlock makes of it, and what removing the table then leaves. */
  lemma LoadedThenRemoved()
    ensures var s := Touch(LoadPage(RESERVED_ONE, ONLY_PAGE, 0, StoragePage(RESERVED_ONE, ONLY_PAGE)), ONLY_PAGE);
            var t := s.(pages := map[]);
            && Healthy(s) && Dropped(s, t) && Inv(t) && t.hand < |t.frames|
            && !NoLeakedFrame(t) && !CanReplace(t) && forall rounds :: !EndsWithin(t, rounds)
  {
    var s := Touch(LoadPage(RESERVED_ONE, ONLY_PAGE, 0, StoragePage(RESERVED_ONE, ONLY_PAGE)), ONLY_PAGE);
    var t := s.(pages := map[]);
    assert s.pages.Keys == {ONLY_PAGE} && Present(s, ONLY_PAGE) && s.pages[ONLY_PAGE].frame == 0;
    assert Owns(s, ONLY_PAGE, 0) && Owned(s, 0);
    assert PageOk(s, ONLY_PAGE);
    assert t.pages.Keys <= s.pages.Keys;
    DropKeeps(s, t);
    NobodyLeft(s, t, ONLY_PAGE);
  }
}
