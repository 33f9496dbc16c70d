/** Whole runs of the filesystem: committed tags are frozen, the hash index stays truthful, and every run
    refines one on plain files that share nothing. */
module FsRuns {
  import opened Common
  import opened FsModel
  import opened FsTheorems
  import opened FsNamespace
  import opened FsCommit
  import opened FsCommitTheorems

  // ---------------------------------------------------------------- committed tags are frozen

  predicate IsCommitted(s: FsState, ft: FileTag) {
    ft in s.meta && s.meta[ft].state == Committed
  }

  /** Every committed tag keeps its metadata, its links and its content. */
  ghost predicate Frozen(s: FsState, t: FsState) {
    && |t.disk| == |s.disk|
    && (forall ft :: IsCommitted(s, ft) ==> ft in t.meta && t.meta[ft] == s.meta[ft])
    && (forall x :: x in s.links && IsCommitted(s, x.ft) ==>
                      x in t.links && t.links[x] == s.links[x] < |s.disk| && t.disk[s.links[x]] == s.disk[s.links[x]])
  }

  /** Nothing that the hash index relies on changes, and no tag becomes committed. */
  ghost predicate IndexUntouched(s: FsState, t: FsState) {
    && t.md5 == s.md5 && t.index == s.index
    && forall ft :: IsCommitted(t, ft) ==> IsCommitted(s, ft)
  }

  lemma FrozenRefl(s: FsState)
    requires Shape(s)
    ensures Frozen(s, s)
  {
  }

  lemma FrozenTrans(s: FsState, t: FsState, u: FsState)
    requires Frozen(s, t) && Frozen(t, u)
    ensures Frozen(s, u)
  {
    assert forall ft :: IsCommitted(s, ft) ==> IsCommitted(t, ft);
  }

  lemma FrozenIsIndexed(s: FsState, t: FsState)
    requires LinksRecorded(s) && IndexTrue(s) && CommittedIndexed(s) && Frozen(s, t) && IndexUntouched(s, t)
    ensures IndexTrue(t)
  {
    forall h | h in t.index
      ensures t.index[h] < |t.disk| && t.md5(t.disk[t.index[h]]) == h && HeldBy(t, t.index[h], BASE, 0)
    {
      assert HeldBy(s, s.index[h], BASE, 0);
      var id :| id in s.links && s.links[id] == s.index[h] && id.ft in s.meta && s.meta[id.ft].state == Committed;
      assert IsCommitted(s, id.ft) && t.links[id] == t.index[h];
    }
  }

  lemma FrozenBlocksIndexed(s: FsState, t: FsState)
    requires MetaOk(s) && CommittedIndexed(s) && Frozen(s, t) && IndexUntouched(s, t)
    ensures CommittedIndexed(t)
  {
    forall ft | ft in t.meta && ft != BASE && t.meta[ft].state == Committed
      ensures BlocksIndexed(t, ft, |t.meta[ft].blocks|)
    {
      assert IsCommitted(t, ft) && IsCommitted(s, ft);
      forall i | 0 <= i < |t.meta[ft].blocks|
        ensures Indexed(t, t.meta[ft].blocks[i])
      {
        assert BlockId(ft, i) in s.links && Indexed(s, s.meta[ft].blocks[i]);
      }
    }
  }

  lemma FrozenIsGood(s: FsState, t: FsState)
    requires Good(s) && Consistent(t) && Frozen(s, t) && IndexUntouched(s, t)
    ensures Good(t)
  {
    hide LinkCounts, BitmapOk, LinksRecorded, MetaOk, IndexTrueUpTo, CommittedIndexed, Frozen, IndexUntouched;
    FrozenIsIndexed(s, t);
    FrozenBlocksIndexed(s, t);
  }

  // ---------------------------------------------------------------- one operation

  lemma WriteRelinksOne(s: FsState, id: BlockId, data: seq<Byte>)
    requires Consistent(s) && WriteBlock(s, id, data).1 == 0
    ensures var t := WriteBlock(s, id, data).0;
            && id in s.links && id in t.links && t.links == s.links[id := t.links[id]]
            && id.ft in s.meta && s.meta[id.ft].state == WorkInProgress && id.block < |s.meta[id.ft].blocks|
            && t.meta == s.meta[id.ft := s.meta[id.ft].(blocks := s.meta[id.ft].blocks[id.block := t.links[id]])]
            && t.index == s.index && t.md5 == s.md5 && |t.disk| == |s.disk| && t.blockSize == s.blockSize && t.dirs == s.dirs
  {
    if Shared(s, id) {
      CopyOnWriteKeepsLinks(s, id, FreeBit(s.bitmap));
    } else {
      assert s.links == s.links[id := s.links[id]];
      assert s.meta[id.ft].blocks == s.meta[id.ft].blocks[id.block := s.links[id]];
    }
  }

  lemma CopyOnWriteKeepsLinks(s: FsState, id: BlockId, q: nat)
    requires id in s.links && s.links[id] < |s.nlink| <= |s.bitmap| && q < |s.nlink|
    requires id.ft in s.meta && id.block < |s.meta[id.ft].blocks|
    ensures CopyOnWrite(s, id, q).links == s.links[id := q]
  {
  }

  lemma OnlyWroteFreezes(s: FsState, t: FsState, id: BlockId, data: seq<Byte>)
    requires Shape(s) && Shape(t) && OnlyWrote(s, t, id, data) && id.ft in s.meta && s.meta[id.ft].state == WorkInProgress
    requires id in s.links && t.links == s.links[id := t.links[id]] && |t.disk| == |s.disk|
    requires id.ft in t.meta && t.meta == s.meta[id.ft := t.meta[id.ft]] && t.meta[id.ft].state == WorkInProgress
    ensures Frozen(s, t) && forall ft :: IsCommitted(t, ft) ==> IsCommitted(s, ft)
  {
    forall x | x in s.links && x != id
      ensures x in t.links && t.links[x] == s.links[x] < |s.disk| && t.disk[s.links[x]] == s.disk[s.links[x]]
    {
      assert Content(t, x) == Content(s, x);
    }
  }

  /** A write leaves every committed tag and the index alone. */
  lemma WriteFreezes(s: FsState, id: BlockId, data: seq<Byte>)
    requires Good(s) && WriteBlock(s, id, data).1 == 0
    ensures var t := WriteBlock(s, id, data).0; Good(t) && Frozen(s, t)
  {
    hide LinkCounts, BitmapOk, LinksRecorded, MetaOk, IndexTrueUpTo, CommittedIndexed, WriteBlock, OnlyWrote, Frozen;
    WriteIsIsolated(s, id, data);
    WriteRelinksOne(s, id, data);
    OnlyWroteFreezes(s, WriteBlock(s, id, data).0, id, data);
    FrozenIsGood(s, WriteBlock(s, id, data).0);
  }

  /** So does any operation that keeps the physical blocks and the metadata of the committed tags. */
  lemma SameStoreFreezes(s: FsState, t: FsState)
    requires Good(s) && Consistent(t) && SameStore(s, t)
    requires forall ft :: IsCommitted(s, ft) ==> ft in t.meta && t.meta[ft] == s.meta[ft]
    requires forall ft :: IsCommitted(t, ft) ==> IsCommitted(s, ft)
    ensures Good(t) && Frozen(s, t)
  {
    forall x | x in s.links && IsCommitted(s, x.ft)
      ensures x in t.links
    {
      assert x.block < |t.meta[x.ft].blocks| && BlockId(x.ft, x.block) in t.links;
    }
    FrozenIsGood(s, t);
  }

  lemma CommitFreezes(s: FsState, ft: FileTag)
    requires Good(s)
    ensures Good(CommitTag(s, ft).0) && Frozen(s, CommitTag(s, ft).0)
  {
    CommitKeeps(s, ft);
  }

  // ---------------------------------------------------------------- runs

  /** A request to Storage that can change the filesystem. */
  datatype FsOp =
    | Create(ft: FileTag)
    | Tag(src: FileTag, dst: FileTag)
    | TruncateTo(ft: FileTag, size: nat)
    | Write(id: BlockId, data: seq<Byte>)
    | Commit(ft: FileTag)
    | Delete(ft: FileTag)

  function Step(s: FsState, op: FsOp): (FsState, int)
    requires Shape(s)
  {
    match op
    case Create(ft) => CreateFile(s, ft)
    case Tag(src, dst) => CreateTag(s, src, dst)
    case TruncateTo(ft, size) => Truncate(s, ft, size)
    case Write(id, data) => WriteBlock(s, id, data)
    case Commit(ft) => CommitTag(s, ft)
    case Delete(ft) => DeleteTag(s, ft)
  }

  /** Requests after which the source keeps its invariants: it neither protects committed tags from
      TRUNCATE and DELETE, nor survives a copy-on-write that finds no free block. */
  ghost predicate Safe(s: FsState, op: FsOp)
    requires Shape(s)
  {
    match op
    case TruncateTo(ft, _) => !IsCommitted(s, ft)
    case Delete(ft) => !IsCommitted(s, ft)
    case Write(id, _) => Writable(s, id) && Shared(s, id) ==> HasFreeBlock(s)
    case _ => true
  }

  /** A safe request that fails changes nothing. */
  lemma FailureChangesNothing(s: FsState, op: FsOp)
    requires Good(s) && Safe(s, op) && Step(s, op).1 != 0
    ensures Step(s, op).0 == s
  {
    match op
    case Create(ft) =>
    case Tag(src, dst) =>
    case TruncateTo(ft, size) =>
      if ft in s.meta { assert ft != BASE; TruncateKeeps(s, ft, size); }
    case Write(id, data) =>
      WriteSucceedsIff(s, id, data);
      assert Writable(s, id) ==> BlockId(id.ft, id.block) in s.links;
    case Commit(ft) => CommitKeeps(s, ft);
    case Delete(ft) => DeleteKeeps(s, ft);
  }

  lemma StepKeeps(s: FsState, op: FsOp)
    requires Good(s) && Safe(s, op)
    ensures Good(Step(s, op).0) && Frozen(s, Step(s, op).0)
  {
    hide LinkCounts, BitmapOk, LinksRecorded, MetaOk, IndexTrueUpTo, CommittedIndexed, Frozen, SameStore, Kept;
    hide DeleteTag, WriteBlock, CommitTag, CopyLinks, ShrinkFrom, GrowFrom;
    if Step(s, op).1 != 0 {
      FailureChangesNothing(s, op);
      FrozenRefl(s);
    } else {
      match op
      case Create(ft) => CreateFileKeeps(s, ft); SameStoreFreezes(s, Step(s, op).0);
      case Tag(src, dst) => ForkKeeps(s, src, dst); SameStoreFreezes(s, Step(s, op).0);
      case TruncateTo(ft, size) => TruncateKeeps(s, ft, size); SameStoreFreezes(s, Step(s, op).0);
      case Write(id, data) => WriteFreezes(s, id, data);
      case Commit(ft) => CommitFreezes(s, ft);
      case Delete(ft) => DeleteKeeps(s, ft); SameStoreFreezes(s, Step(s, op).0);
    }
  }

  /** No request of the run falls outside the safe family. */
  ghost predicate AllSafe(s: FsState, ops: seq<FsOp>)
    requires Good(s)
    decreases |ops|
  {
    hide LinkCounts, BitmapOk, LinksRecorded, MetaOk, IndexTrueUpTo, CommittedIndexed, Step, Frozen;
    ops == [] || (Safe(s, ops[0]) && (StepKeeps(s, ops[0]); AllSafe(Step(s, ops[0]).0, ops[1..])))
  }

  ghost function Run(s: FsState, ops: seq<FsOp>): FsState
    requires Good(s) && AllSafe(s, ops)
    decreases |ops|
  {
    hide LinkCounts, BitmapOk, LinksRecorded, MetaOk, IndexTrueUpTo, CommittedIndexed, Step, Frozen;
    if ops == [] then s else StepKeeps(s, ops[0]); Run(Step(s, ops[0]).0, ops[1..])
  }

  /** Over every run the filesystem is consistent, its index is truthful, committed blocks are shared by
      content, and no committed tag ever changes. */
  lemma {:induction false} RunKeeps(s: FsState, ops: seq<FsOp>)
    requires Good(s) && AllSafe(s, ops)
    ensures Good(Run(s, ops)) && Frozen(s, Run(s, ops))
    decreases |ops|
  {
    hide LinkCounts, BitmapOk, LinksRecorded, MetaOk, IndexTrueUpTo, CommittedIndexed, Step, Frozen, Safe;
    if ops == [] {
      FrozenRefl(s);
    } else {
      var t := Step(s, ops[0]).0;
      StepKeeps(s, ops[0]);
      RunKeeps(t, ops[1..]);
      FrozenTrans(s, t, Run(t, ops[1..]));
    }
  }

  /** A fresh filesystem satisfies every invariant. */
  lemma FreshStartGood(n: nat, blockSize: nat, md5: Block -> Digest)
    requires 0 < n && 0 < blockSize
    ensures Good(FreshStart(n, blockSize, md5))
  {
    var s := FreshStart(n, blockSize, md5);
    forall p | 0 <= p < |s.nlink|
      ensures s.nlink[p] == 1 + |Refs(s.links, p)|
    {
      assert Refs(s.links, p) == if p == 0 then {BlockId(BASE, 0)} else {};
    }
    assert s.links[BlockId(BASE, 0)] == 0;
    assert forall p :: Referenced(s, p) <==> p == 0;
  }
}
