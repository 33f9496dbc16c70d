/** What clients of Storage see: a map from File:Tags to files that share nothing. */
module FsView {
  import opened Common
  import opened FsModel
  import opened FsTheorems
  import opened FsNamespace
  import opened FsCommit
  import opened FsCommitTheorems
  import opened FsRuns

  datatype File = File(size: nat, blocks: seq<Block>, state: TagState)

  type Files = map<FileTag, File>

  ghost function FileOf(s: FsState, ft: FileTag): (f: File)
    requires Consistent(s) && ft in s.meta
    ensures |f.blocks| == |s.meta[ft].blocks|
  {
    var m := s.meta[ft];
    File(m.size, seq(|m.blocks|, b requires 0 <= b < |m.blocks| => Content(s, BlockId(ft, b))), m.state)
  }

  ghost function FilesOf(s: FsState): Files
    requires Consistent(s)
  {
    map ft | ft in s.meta :: FileOf(s, ft)
  }

  /** What clients can tell apart: the files, and which file names have a directory. */
  datatype Plain = Plain(files: Files, dirs: set<string>)

  ghost function View(s: FsState): Plain
    requires Consistent(s)
  {
    Plain(FilesOf(s), s.dirs)
  }

  /** Whether a request on plain files is accepted. */
  predicate Accepted(p: Plain, op: FsOp) {
    var m := p.files;
    match op
    case Create(ft) => ft !in m
    case Tag(src, dst) => src in m && dst !in m && dst.file in p.dirs
    case TruncateTo(ft, _) => ft in m
    case Write(id, _) => id.ft in m && m[id.ft].state == WorkInProgress && id.block < |m[id.ft].blocks|
    case Commit(ft) => ft in m && m[ft].state == WorkInProgress
    case Delete(ft) => ft in m && ft != BASE
  }

  function Resized(blocks: seq<Block>, n: nat, blockSize: nat): seq<Block> {
    if n <= |blocks| then blocks[..n] else blocks + seq(n - |blocks|, _ => Zeros(blockSize))
  }

  /** What an accepted request does to plain files. */
  function Effect(p: Plain, blockSize: nat, op: FsOp): Plain
    requires 0 < blockSize && Accepted(p, op)
  {
    var m := p.files;
    match op
    case Create(ft) => Plain(m[ft := File(0, [], WorkInProgress)], p.dirs + {ft.file})
    case Tag(src, dst) => p.(files := m[dst := m[src].(state := WorkInProgress)])
    case TruncateTo(ft, size) =>
      p.(files := m[ft := m[ft].(size := size, blocks := Resized(m[ft].blocks, BlockCount(size, blockSize), blockSize))])
    case Write(id, data) => p.(files := m[id.ft := m[id.ft].(blocks := m[id.ft].blocks[id.block := Fit(data, blockSize)])])
    case Commit(ft) => p.(files := m[ft := m[ft].(state := Committed)])
    case Delete(ft) => p.(files := m - {ft})
  }

  /** The logical blocks of `ft` below `n` exist before and after with the same content. */
  ghost predicate BlocksKept(s: FsState, t: FsState, ft: FileTag, n: nat)
    requires Shape(s) && Shape(t)
  {
    forall b :: 0 <= b < n ==>
                  BlockId(ft, b) in s.links && BlockId(ft, b) in t.links && Content(t, BlockId(ft, b)) == Content(s, BlockId(ft, b))
  }

  ghost predicate TagKept(s: FsState, t: FsState, ft: FileTag)
    requires Shape(s) && Shape(t)
  {
    ft in s.meta && ft in t.meta && t.meta[ft] == s.meta[ft] && BlocksKept(s, t, ft, |s.meta[ft].blocks|)
  }

  lemma TagKeptSameFile(s: FsState, t: FsState, ft: FileTag)
    requires Consistent(s) && Consistent(t) && TagKept(s, t, ft)
    ensures FileOf(t, ft) == FileOf(s, ft)
  {
  }

  /** Only the named tag changes. */
  lemma OneFileChanged(s: FsState, t: FsState, ft: FileTag)
    requires Consistent(s) && Consistent(t) && ft in t.meta && t.meta.Keys == s.meta.Keys + {ft}
    requires forall g :: g in s.meta && g != ft ==> TagKept(s, t, g)
    ensures FilesOf(t) == FilesOf(s)[ft := FileOf(t, ft)]
  {
    hide LinkCounts, BitmapOk, LinksRecorded, MetaOk, FileOf, TagKept, ZeroBlock;
    forall g | g in s.meta && g != ft
      ensures FileOf(t, g) == FileOf(s, g)
    {
      TagKeptSameFile(s, t, g);
    }
  }

  /** Operations that keep all links of the other tags keep those tags. */
  lemma KeptTag(s: FsState, t: FsState, ids: set<BlockId>, ft: FileTag)
    requires Consistent(s) && Shape(t) && Kept(s, t, ids) && ft in s.meta && ft in t.meta && t.meta[ft] == s.meta[ft]
    requires forall id :: id in s.links && id.ft == ft ==> id in ids
    ensures TagKept(s, t, ft)
  {
    hide LinkCounts, BitmapOk, ZeroBlock;
    forall b | 0 <= b < |s.meta[ft].blocks|
      ensures BlockId(ft, b) in s.links && BlockId(ft, b) in ids
    {
    }
  }

  // ---------------------------------------------------------------- each request

  lemma CreateRefines(s: FsState, ft: FileTag)
    requires Consistent(s) && ft !in s.meta
    ensures var t := CreateFile(s, ft).0;
            Consistent(t) && FilesOf(t) == FilesOf(s)[ft := File(0, [], WorkInProgress)]
  {
    var t := CreateFile(s, ft).0;
    CreateFileKeeps(s, ft);
    hide LinkCounts, BitmapOk, ZeroBlock, LinksRecorded, MetaOk, TagKept;
    forall g | g in s.meta && g != ft
      ensures TagKept(s, t, g)
    {
      KeptTag(s, t, s.links.Keys, g);
    }
    OneFileChanged(s, t, ft);
  }

  lemma TagRefines(s: FsState, src: FileTag, dst: FileTag)
    requires Consistent(s) && src in s.meta && dst !in s.meta && dst.file in s.dirs
    ensures var t := CreateTag(s, src, dst).0;
            Consistent(t) && FilesOf(t) == FilesOf(s)[dst := FileOf(s, src).(state := WorkInProgress)]
  {
    hide LinkCounts, BitmapOk, ZeroBlock, LinksRecorded, MetaOk, TagKept, CreateTag;
    var t := CreateTag(s, src, dst).0;
    ForkKeeps(s, src, dst);
    forall g | g in s.meta
      ensures TagKept(s, t, g)
    {
      KeptTag(s, t, s.links.Keys, g);
    }
    OneFileChanged(s, t, dst);
    ForkedFile(s, t, src, dst);
  }

  lemma ForkedFile(s: FsState, t: FsState, src: FileTag, dst: FileTag)
    requires Consistent(s) && Consistent(t) && src in s.meta
    requires t.meta == s.meta[dst := s.meta[src].(state := WorkInProgress)]
    requires forall b :: 0 <= b < |s.meta[src].blocks| ==>
                           BlockId(dst, b) in t.links && BlockId(src, b) in s.links && Content(t, BlockId(dst, b)) == Content(s, BlockId(src, b))
    ensures FileOf(t, dst) == FileOf(s, src).(state := WorkInProgress)
  {
    hide LinkCounts, BitmapOk, ZeroBlock, LinksRecorded;
    assert FileOf(t, dst).blocks == FileOf(s, src).blocks;
  }

  lemma TruncateRefines(s: FsState, ft: FileTag, size: nat)
    requires Consistent(s) && ft in s.meta && ft != BASE
    ensures var t := Truncate(s, ft, size).0;
            && Consistent(t)
            && FilesOf(t) == FilesOf(s)[ft := FileOf(s, ft).(size := size,
                             blocks := Resized(FileOf(s, ft).blocks, BlockCount(size, s.blockSize), s.blockSize))]
  {
    hide LinkCounts, BitmapOk, ZeroBlock, LinksRecorded, MetaOk, TagKept, Truncate, BlockCount, Truncated;
    var t := Truncate(s, ft, size).0;
    var n := BlockCount(size, s.blockSize);
    TruncateKeeps(s, ft, size);
    TruncatedMeta(s, t, ft, size);
    var ids := set id | id in s.links && (id.ft != ft || id.block < n);
    forall g | g in s.meta && g != ft
      ensures TagKept(s, t, g)
    {
      KeptTag(s, t, ids, g);
    }
    OneFileChanged(s, t, ft);
    TruncatedFile(s, t, ft, size);
  }

  lemma TruncatedMeta(s: FsState, t: FsState, ft: FileTag, size: nat)
    requires Shape(s) && Shape(t) && ft in s.meta && ft in t.meta && Truncated(s, t, ft, size)
    ensures t.meta == s.meta[ft := t.meta[ft]]
    ensures Kept(s, t, set id | id in s.links && (id.ft != ft || id.block < BlockCount(size, s.blockSize)))
  {
  }

  lemma TruncatedFile(s: FsState, t: FsState, ft: FileTag, size: nat)
    requires Consistent(s) && Consistent(t) && ft in s.meta && ft in t.meta && Truncated(s, t, ft, size)
    ensures FileOf(t, ft) == FileOf(s, ft).(size := size,
                             blocks := Resized(FileOf(s, ft).blocks, BlockCount(size, s.blockSize), s.blockSize))
  {
    hide LinkCounts, BitmapOk, ZeroBlock, BlockCount, LinksRecorded;
    var n := BlockCount(size, s.blockSize);
    var before := FileOf(s, ft).blocks;
    var after := FileOf(t, ft).blocks;
    forall b | 0 <= b < n
      ensures after[b] == if b < |before| then before[b] else Zeros(s.blockSize)
    {
      assert BlockId(ft, b) in t.links;
      if b < |before| {
        assert BlockId(ft, b) in s.links;
      }
    }
    assert after == Resized(before, n, s.blockSize);
  }

  lemma WriteRefines(s: FsState, id: BlockId, data: seq<Byte>)
    requires Consistent(s) && WriteBlock(s, id, data).1 == 0
    ensures var t := WriteBlock(s, id, data).0;
            && Consistent(t) && id.ft in s.meta && id.block < |FileOf(s, id.ft).blocks|
            && FilesOf(t) == FilesOf(s)[id.ft := FileOf(s, id.ft).(
                             blocks := FileOf(s, id.ft).blocks[id.block := Fit(data, s.blockSize)])]
  {
    hide LinkCounts, BitmapOk, ZeroBlock, LinksRecorded, MetaOk, WriteBlock, TagKept;
    var t := WriteBlock(s, id, data).0;
    WriteIsIsolated(s, id, data);
    WriteRelinksOne(s, id, data);
    forall g | g in s.meta && g != id.ft
      ensures TagKept(s, t, g)
    {
      KeptTag(s, t, s.links.Keys - {id}, g);
    }
    OneFileChanged(s, t, id.ft);
    WrittenFile(s, t, id, data);
  }

  lemma WrittenFile(s: FsState, t: FsState, id: BlockId, data: seq<Byte>)
    requires Consistent(s) && Consistent(t) && OnlyWrote(s, t, id, data) && id.ft in s.meta && id.block < |s.meta[id.ft].blocks|
    requires id.ft in t.meta && t.meta[id.ft] == s.meta[id.ft].(blocks := t.meta[id.ft].blocks)
    requires |t.meta[id.ft].blocks| == |s.meta[id.ft].blocks|
    ensures FileOf(t, id.ft) == FileOf(s, id.ft).(blocks := FileOf(s, id.ft).blocks[id.block := Fit(data, s.blockSize)])
  {
    hide LinkCounts, BitmapOk, ZeroBlock, LinksRecorded;
    var before := FileOf(s, id.ft).blocks;
    var after := FileOf(t, id.ft).blocks;
    forall b | 0 <= b < |before|
      ensures after[b] == if b == id.block then Fit(data, s.blockSize) else before[b]
    {
      assert BlockId(id.ft, b) in s.links;
      assert b == id.block <==> BlockId(id.ft, b) == id;
    }
  }

  lemma CommitRefines(s: FsState, ft: FileTag)
    requires Good(s) && NoCollision(s) && Committable(s, ft)
    ensures var t := CommitTag(s, ft).0;
            Consistent(t) && FilesOf(t) == FilesOf(s)[ft := FileOf(s, ft).(state := Committed)]
  {
    hide LinkCounts, BitmapOk, ZeroBlock, LinksRecorded, MetaOk, IndexTrueUpTo, CommittedIndexed, CommitTag, TagKept, NoCollision;
    var t := CommitTag(s, ft).0;
    CommitKeeps(s, ft);
    CommitPreservesContent(s, ft);
    forall g | g in s.meta && g != ft
      ensures TagKept(s, t, g)
    {
      KeptTag(s, t, s.links.Keys, g);
    }
    OneFileChanged(s, t, ft);
    CommittedFile(s, t, ft);
  }

  lemma CommittedFile(s: FsState, t: FsState, ft: FileTag)
    requires Consistent(s) && Consistent(t) && ft in s.meta && RedirectedAll(s, t, ft) && Kept(s, t, s.links.Keys)
    requires t.meta[ft].state == Committed
    ensures FileOf(t, ft) == FileOf(s, ft).(state := Committed)
  {
    hide LinkCounts, BitmapOk, ZeroBlock, LinksRecorded;
    assert forall b :: 0 <= b < |s.meta[ft].blocks| ==> BlockId(ft, b) in s.links;
    assert FileOf(t, ft).blocks == FileOf(s, ft).blocks;
  }

  lemma DeleteRefines(s: FsState, ft: FileTag)
    requires Consistent(s) && ft in s.meta && ft != BASE
    ensures var t := DeleteTag(s, ft).0; Consistent(t) && FilesOf(t) == FilesOf(s) - {ft}
  {
    hide LinkCounts, BitmapOk, ZeroBlock, LinksRecorded, MetaOk, DeleteTag, TagKept, FileOf;
    var t := DeleteTag(s, ft).0;
    DeleteKeeps(s, ft);
    forall g | g in s.meta && g != ft
      ensures FileOf(t, g) == FileOf(s, g)
    {
      KeptTag(s, t, (set id | id in s.links && id.ft != ft), g);
      TagKeptSameFile(s, t, g);
    }
  }

  // ---------------------------------------------------------------- runs

  /** Storage accepts a safe request exactly when the plain files do, and then has the same effect. */
  lemma StepRefines(s: FsState, op: FsOp)
    requires Good(s) && Safe(s, op) && (op.Commit? ==> NoCollision(s))
    ensures var (t, code) := Step(s, op);
            && Good(t) && (code == 0 <==> Accepted(View(s), op))
            && View(t) == if Accepted(View(s), op) then Effect(View(s), s.blockSize, op) else View(s)
  {
    hide LinkCounts, BitmapOk, ZeroBlock, LinksRecorded, MetaOk, IndexTrueUpTo, CommittedIndexed;
    hide CreateTag, Truncate, WriteBlock, CommitTag, DeleteTag;
    StepAccepted(s, op);
    BaseIsCommitted(s);
    StepKeeps(s, op);
    StepKeepsParameters(s, op);
    if !Accepted(View(s), op) {
      FailureChangesNothing(s, op);
    } else {
      match op
      case Create(ft) => CreateRefines(s, ft);
      case Tag(src, dst) => TagRefines(s, src, dst);
      case TruncateTo(ft, size) => TruncateRefines(s, ft, size);
      case Write(id, data) => WriteRefines(s, id, data);
      case Commit(ft) => CommitRefines(s, ft);
      case Delete(ft) => DeleteRefines(s, ft);
    }
  }

  lemma StepAccepted(s: FsState, op: FsOp)
    requires Good(s) && Safe(s, op)
    ensures Step(s, op).1 == 0 <==> Accepted(View(s), op)
  {
    hide LinkCounts, BitmapOk, LinksRecorded, MetaOk, IndexTrueUpTo, CommittedIndexed;
    match op
    case Create(ft) => CreateFileKeeps(s, ft);
    case Tag(src, dst) => ForkKeeps(s, src, dst);
    case TruncateTo(ft, size) => if ft in s.meta { TruncateKeeps(s, ft, size); }
    case Write(id, data) => WriteSucceedsIff(s, id, data);
    case Commit(ft) => CommitKeeps(s, ft);
    case Delete(ft) => DeleteKeeps(s, ft);
  }

  lemma BaseIsCommitted(s: FsState)
    requires Consistent(s)
    ensures IsCommitted(s, BASE)
  {
  }

  /** The requests of a run on plain files; those not accepted have no effect. */
  ghost function PlainRun(m: Plain, blockSize: nat, ops: seq<FsOp>): Plain
    requires 0 < blockSize
    decreases |ops|
  {
    if ops == [] then m
    else PlainRun(if Accepted(m, ops[0]) then Effect(m, blockSize, ops[0]) else m, blockSize, ops[1..])
  }

  /** Only CREATE makes the directory of a file. */
  lemma StepKeepsParameters(s: FsState, op: FsOp)
    requires Good(s) && Safe(s, op)
    ensures Step(s, op).0.blockSize == s.blockSize && Step(s, op).0.md5 == s.md5
    ensures Step(s, op).0.dirs == if op.Create? && Step(s, op).1 == 0 then s.dirs + {op.ft.file} else s.dirs
  {
    hide LinkCounts, BitmapOk, LinksRecorded, MetaOk, IndexTrueUpTo, CommittedIndexed;
    if Step(s, op).1 != 0 {
      FailureChangesNothing(s, op);
    } else {
      BaseIsCommitted(s);
      match op
      case Create(ft) => CreateFileKeeps(s, ft);
      case Tag(src, dst) => ForkKeeps(s, src, dst);
      case TruncateTo(ft, size) => TruncateKeeps(s, ft, size);
      case Write(id, data) => WriteRelinksOne(s, id, data);
      case Commit(ft) => CommitKeeps(s, ft);
      case Delete(ft) => DeleteKeeps(s, ft);
    }
  }

  /** The physical blocks that a COMMIT of the run finds have no two digests in common by accident. */
  ghost predicate NeverCollides(s: FsState, ops: seq<FsOp>)
    requires Good(s) && AllSafe(s, ops)
    decreases |ops|
  {
    hide LinkCounts, BitmapOk, LinksRecorded, MetaOk, IndexTrueUpTo, CommittedIndexed, Step, Frozen;
    ops != [] ==>
      && (ops[0].Commit? ==> NoCollision(s))
      && (StepKeeps(s, ops[0]); NeverCollides(Step(s, ops[0]).0, ops[1..]))
  }

  /** Hard links, copy-on-write and deduplication are invisible: over every run, what clients read is what
      plain files would hold. */
  lemma {:induction false} RunRefines(s: FsState, ops: seq<FsOp>)
    requires Good(s) && AllSafe(s, ops) && NeverCollides(s, ops)
    ensures Good(Run(s, ops)) && View(Run(s, ops)) == PlainRun(View(s), s.blockSize, ops)
    decreases |ops|
  {
    hide LinkCounts, BitmapOk, LinksRecorded, MetaOk, IndexTrueUpTo, CommittedIndexed, Step, View, Accepted, Effect, NoCollision;
    if ops != [] {
      var t := Step(s, ops[0]).0;
      StepRefines(s, ops[0]);
      StepKeepsParameters(s, ops[0]);
      RunRefines(t, ops[1..]);
    }
  }

  // ---------------------------------------------------------------- sizes

  /** BLOCKS has the rounded-up number of blocks for the size; the one block of initial_file:BASE and of its
      forks belongs to size 0. */
  ghost predicate SizesOk(s: FsState)
    requires 0 < s.blockSize
  {
    forall ft :: ft in s.meta ==>
                   |s.meta[ft].blocks| == BlockCount(s.meta[ft].size, s.blockSize) || (s.meta[ft].size == 0 && |s.meta[ft].blocks| == 1)
  }

  lemma StepKeepsSizes(s: FsState, op: FsOp)
    requires Good(s) && Safe(s, op) && SizesOk(s)
    ensures 0 < Step(s, op).0.blockSize && SizesOk(Step(s, op).0)
  {
    hide LinkCounts, BitmapOk, LinksRecorded, MetaOk, IndexTrueUpTo, CommittedIndexed, BlockCount;
    hide DeleteTag, WriteBlock, CommitTag, CopyLinks, ShrinkFrom, GrowFrom, Kept, Frozen, SameStore;
    StepKeepsParameters(s, op);
    if Step(s, op).1 != 0 {
      FailureChangesNothing(s, op);
    } else {
      BaseIsCommitted(s);
      match op
      case Create(ft) => assert BlockCount(0, s.blockSize) == 0 by { NoBlocks(s.blockSize); }
      case Tag(src, dst) => ForkKeeps(s, src, dst);
      case TruncateTo(ft, size) => TruncateKeeps(s, ft, size);
      case Write(id, data) => WriteRelinksOne(s, id, data);
      case Commit(ft) => CommitKeeps(s, ft);
      case Delete(ft) => DeleteKeeps(s, ft);
    }
  }

  lemma NoBlocks(blockSize: nat)
    requires 0 < blockSize
    ensures BlockCount(0, blockSize) == 0
  {
  }

  /** Over every run of Storage the block counts fit the sizes. */
  lemma {:induction false} RunKeepsSizes(s: FsState, ops: seq<FsOp>)
    requires Good(s) && AllSafe(s, ops) && SizesOk(s)
    ensures 0 < Run(s, ops).blockSize && SizesOk(Run(s, ops))
    decreases |ops|
  {
    hide LinkCounts, BitmapOk, LinksRecorded, MetaOk, IndexTrueUpTo, CommittedIndexed, Step, SizesOk;
    if ops != [] {
      StepKeepsSizes(s, ops[0]);
      StepKeeps(s, ops[0]);
      RunKeepsSizes(Step(s, ops[0]).0, ops[1..]);
    }
  }

  lemma FreshStartSizes(n: nat, blockSize: nat, md5: Block -> Digest)
    requires 0 < n && 0 < blockSize
    ensures SizesOk(FreshStart(n, blockSize, md5))
  {
  }

  /** So they do in every filesystem that safe requests reach from a fresh one. */
  lemma ReachableSizes(n: nat, blockSize: nat, md5: Block -> Digest, ops: seq<FsOp>)
    requires 0 < n && 0 < blockSize && Good(FreshStart(n, blockSize, md5)) && AllSafe(FreshStart(n, blockSize, md5), ops)
    ensures 0 < Run(FreshStart(n, blockSize, md5), ops).blockSize && SizesOk(Run(FreshStart(n, blockSize, md5), ops))
  {
    FreshStartSizes(n, blockSize, md5);
    RunKeepsSizes(FreshStart(n, blockSize, md5), ops);
  }
}
