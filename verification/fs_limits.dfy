/** Where the filesystem's invariants end: deleting or truncating committed tags leaves stale index entries. */
module FsLimits {
  import opened Common
  import opened FsModel
  import opened FsTheorems
  import opened FsNamespace
  import opened FsCommit
  import opened FsCommitTheorems
  import opened FsRuns

  /** Every indexed physical block has a committed name other than the blocks of `ft` from `from` on. */
  ghost predicate HeldElsewhere(s: FsState, ft: FileTag, from: nat) {
    forall h :: h in s.index ==>
                  exists x :: x in s.links && s.links[x] == s.index[h] && IsCommitted(s, x.ft) && (x.ft != ft || x.block < from)
  }

  /** When `t` has exactly the logical blocks of `s` that are not in the dropped range (and perhaps new
      names of block 0), its index is true exactly if each entry was held elsewhere. */
  lemma IndexTrueIffHeldElsewhere(s: FsState, t: FsState, ft: FileTag, from: nat)
    requires Good(s) && Consistent(t) && SameStore(s, t)
    requires forall x :: x in s.links && (x.ft != ft || x.block < from) ==> x in t.links
    requires forall x :: x in t.links && x !in s.links ==> t.links[x] == 0
    requires forall x :: x in t.links && x in s.links ==> x.ft != ft || x.block < from
    requires forall g :: g in t.meta ==> g in s.meta && t.meta[g].state == s.meta[g].state
    requires forall g :: g in s.meta && g != ft ==> g in t.meta
    ensures IndexTrue(t) <==> HeldElsewhere(s, ft, from)
  {
    hide LinkCounts, BitmapOk, CommittedIndexed;
    if HeldElsewhere(s, ft, from) {
      forall h | h in t.index
        ensures t.index[h] < |t.disk| && t.md5(t.disk[t.index[h]]) == h && HeldBy(t, t.index[h], BASE, 0)
      {
        var x :| x in s.links && s.links[x] == s.index[h] && IsCommitted(s, x.ft) && (x.ft != ft || x.block < from);
        assert x in t.links && t.links[x] == t.index[h] && x.ft in t.meta;
      }
    }
    if IndexTrue(t) {
      forall h | h in s.index
        ensures exists x :: x in s.links && s.links[x] == s.index[h] && IsCommitted(s, x.ft) && (x.ft != ft || x.block < from)
      {
        assert HeldBy(t, t.index[h], BASE, 0);
        var y :| y in t.links && t.links[y] == t.index[h] && y.ft in t.meta && t.meta[y.ft].state == Committed;
        var x := if y in s.links then y else BlockId(BASE, 0);
        assert BlockId(BASE, 0) in t.links && t.links[BlockId(BASE, 0)] == 0;
        assert x in s.links && s.links[x] == s.index[h] && IsCommitted(s, x.ft);
      }
    }
  }

  /** Deleting a committed tag keeps the invariants exactly when no indexed block was held by it alone. */
  lemma DeleteKeepsGoodIff(s: FsState, ft: FileTag)
    requires Good(s) && ft in s.meta && ft != BASE
    ensures Good(DeleteTag(s, ft).0) <==> HeldElsewhere(s, ft, 0)
  {
    DeleteKeeps(s, ft);
    var t := DeleteTag(s, ft).0;
    hide LinkCounts, BitmapOk, LinksRecorded, MetaOk, DeleteTag, HeldElsewhere, IndexTrueUpTo;
    IndexTrueIffHeldElsewhere(s, t, ft, 0);
    assert forall p :: Indexed(t, p) == Indexed(s, p);
  }

  /** Truncating one keeps the index truthful exactly when no indexed block was held by the dropped part alone. */
  lemma TruncateKeepsIndexIff(s: FsState, ft: FileTag, size: nat)
    requires Good(s) && ft in s.meta && ft != BASE
    ensures IndexTrue(Truncate(s, ft, size).0) <==> HeldElsewhere(s, ft, BlockCount(size, s.blockSize))
  {
    TruncateKeeps(s, ft, size);
    TruncateAddsNamesOfZero(s, ft, size);
    hide LinkCounts, BitmapOk, LinksRecorded, MetaOk, Truncate, HeldElsewhere, IndexTrueUpTo, CommittedIndexed, BlockCount;
    IndexTrueIffHeldElsewhere(s, Truncate(s, ft, size).0, ft, BlockCount(size, s.blockSize));
  }

  lemma TruncateAddsNamesOfZero(s: FsState, ft: FileTag, size: nat)
    requires Consistent(s) && ft in s.meta && ft != BASE
    ensures forall x :: x in Truncate(s, ft, size).0.links && x !in s.links ==> Truncate(s, ft, size).0.links[x] == 0
  {
    var m := s.meta[ft];
    var n := BlockCount(size, s.blockSize);
    if n <= |m.blocks| {
      ShrinkKeeps(s, ft, n, m.blocks);
    } else {
      GrowKeeps(s, ft, |m.blocks|, n);
    }
  }

  // ---------------------------------------------------------------- a run that loses a block

  const A := FileTag("A", "1")
  const B := FileTag("B", "1")

  function Disk3(x: Byte, y: Byte): seq<Block> {
    [[0], [x], [y]]
  }

  function Bits(b1: bool, b2: bool): seq<bool> {
    [true, b1, b2, false, false, false, false, false]
  }

  /** Three physical blocks of one byte, the digest of a block being the block itself. */
  function Small(disk: seq<Block>, bitmap: seq<bool>, links: map<BlockId, nat>, nlink: seq<int>,
                 meta: map<FileTag, Metadata>, index: map<Digest, nat>, dirs: set<string>): FsState
  {
    FsState(1, (b: Block) => b, disk, bitmap, links, nlink, meta, index, dirs)
  }

  const BASE_META := Metadata(0, [0], Committed)

  lemma Distinct()
    ensures A != B && A != BASE && B != BASE && B.file !in D1
  {
    assert |A.file| == 1 && |B.file| == 1 && |BASE.file| == 12;
    assert A.file[0] == 'A' && B.file[0] == 'B';
    assert A.file !in {BASE.file} && B.file !in {BASE.file};
  }

  const BASE_LINK := map[BlockId(BASE, 0) := 0]

  const D0 := {BASE.file}
  const D1 := D0 + {A.file}
  const D2 := D1 + {B.file}

  const S0 := Small(Disk3(0, 0), Bits(false, false), BASE_LINK, [2, 1, 1], map[BASE := BASE_META], map[], D0)
  const S1 := Small(Disk3(0, 0), Bits(false, false), BASE_LINK, [2, 1, 1],
                    map[BASE := BASE_META, A := Metadata(0, [], WorkInProgress)], map[], D1)
  const S2 := Small(Disk3(0, 0), Bits(false, false), BASE_LINK[BlockId(A, 0) := 0], [3, 1, 1],
                    map[BASE := BASE_META, A := Metadata(1, [0], WorkInProgress)], map[], D1)
  const S3 := Small(Disk3(1, 0), Bits(true, false), BASE_LINK[BlockId(A, 0) := 1], [2, 2, 1],
                    map[BASE := BASE_META, A := Metadata(1, [1], WorkInProgress)], map[], D1)
  const S4 := Small(Disk3(1, 0), Bits(true, false), BASE_LINK[BlockId(A, 0) := 1], [2, 2, 1],
                    map[BASE := BASE_META, A := Metadata(1, [1], Committed)], map[[1] := 1], D1)
  const S5 := Small(Disk3(1, 0), Bits(false, false), BASE_LINK, [2, 1, 1], map[BASE := BASE_META], map[[1] := 1], D1)
  const S6 := Small(Disk3(1, 0), Bits(false, false), BASE_LINK, [2, 1, 1],
                    map[BASE := BASE_META, B := Metadata(0, [], WorkInProgress)], map[[1] := 1], D2)
  const S7 := Small(Disk3(1, 0), Bits(false, false), BASE_LINK[BlockId(B, 0) := 0][BlockId(B, 1) := 0], [4, 1, 1],
                    map[BASE := BASE_META, B := Metadata(2, [0, 0], WorkInProgress)], map[[1] := 1], D2)
  const S8 := Small(Disk3(2, 0), Bits(true, false), BASE_LINK[BlockId(B, 0) := 1][BlockId(B, 1) := 0], [3, 2, 1],
                    map[BASE := BASE_META, B := Metadata(2, [1, 0], WorkInProgress)], map[[1] := 1], D2)
  const S9 := Small(Disk3(2, 1), Bits(true, true), BASE_LINK[BlockId(B, 0) := 1][BlockId(B, 1) := 2], [2, 2, 2],
                    map[BASE := BASE_META, B := Metadata(2, [1, 2], WorkInProgress)], map[[1] := 1], D2)

  /** The request is accepted in `s` and leads to `t`. */
  ghost predicate Leads(s: FsState, op: FsOp, t: FsState) {
    Shape(s) && Step(s, op) == (t, 0)
  }

  lemma FreshIsS0()
    ensures FreshStart(3, 1, (b: Block) => b) == S0
  {
    var s := FreshStart(3, 1, (b: Block) => b);
    assert Zeros(1) == [0];
    assert s.disk == S0.disk && s.bitmap == S0.bitmap && s.nlink == S0.nlink;
  }

  lemma GrowOne(s: FsState, ft: FileTag)
    requires ft in s.meta && s.meta[ft] == Metadata(0, [], WorkInProgress) && BlockId(ft, 0) !in s.links
    requires s.blockSize == 1 && 0 < |s.nlink| && |s.nlink| == |s.disk| <= |s.bitmap| && forall x :: x in s.links ==> s.links[x] < |s.disk|
    ensures Truncate(s, ft, 1) == (Link(s, BlockId(ft, 0), 0).(meta := s.meta[ft := Metadata(1, [0], WorkInProgress)]), 0)
  {
    assert BlockCount(1, 1) == 1;
    assert GrowFrom(s, ft, 0, 1) == (Link(s, BlockId(ft, 0), 0), 0);
    assert [] + seq(1, _ => 0) == [0];
  }

  lemma FirstFile()
    ensures Leads(S0, Create(A), S1) && Leads(S1, TruncateTo(A, 1), S2)
  {
    Distinct();
    GrowOne(S1, A);
    assert Truncate(S1, A, 1).0.nlink == S2.nlink;
    assert S1.meta[A := Metadata(1, [0], WorkInProgress)] == S2.meta;
  }

  lemma WriteMoves(s: FsState, t: FsState, id: BlockId, x: Byte, q: nat, m: Metadata)
    requires Shape(s) && s.blockSize == 1 && Shared(s, id) && FreeBit(s.bitmap) == q < |s.disk| && q != s.links[id]
    requires Writable(s, id) && t == s.(disk := t.disk, bitmap := t.bitmap, links := t.links, nlink := t.nlink, meta := t.meta)
    requires t.disk == s.disk[q := [x]] && t.bitmap == s.bitmap[q := true] && t.links == s.links[id := q]
    requires t.nlink == s.nlink[s.links[id] := s.nlink[s.links[id]] - 1][q := s.nlink[q] + 1]
    requires m == s.meta[id.ft].(blocks := s.meta[id.ft].blocks[id.block := q]) && t.meta == s.meta[id.ft := m]
    ensures Leads(s, Write(id, [x]), t)
  {
    assert Fit([x], 1) == [x];
    CopyOnWriteKeepsLinks(s, id, q);
  }

  lemma FreeBits()
    ensures FreeBit(Bits(false, false)) == 1 && FreeBit(Bits(true, false)) == 2
  {
  }

  lemma FirstWrite()
    ensures Leads(S2, Write(BlockId(A, 0), [1]), S3)
  {
    hide Leads, WriteBlock, FreeBit;
    Distinct();
    FreeBits();
    assert [0][0 := 1] == [1];
    assert [3, 1, 1][0 := 2][1 := 2] == [2, 2, 1];
    assert S2.disk[1 := [1]] == S3.disk && S2.bitmap[1 := true] == S3.bitmap;
    assert S2.links[BlockId(A, 0) := 1] == S3.links;
    assert S2.meta[A := S3.meta[A]] == S3.meta;
    WriteMoves(S2, S3, BlockId(A, 0), 1, 1, S3.meta[A]);
  }

  lemma FirstCommit()
    ensures Leads(S3, Commit(A), S4)
  {
    Distinct();
    assert S3.md5(S3.disk[1]) == [1];
    var d := DedupBlock(S3, A, 0).0;
    assert d == S3.(index := map[[1] := 1]);
    assert DedupFrom(d, A, 1) == (d, 0);
    assert d.meta[A := d.meta[A].(state := Committed)] == S4.meta;
  }

  lemma DeleteOfCommitted()
    ensures Leads(S4, Delete(A), S5)
  {
    Distinct();
    var (d, code) := DeleteLogicalBlock(S4, BlockId(A, 0), 1);
    assert d.links == BASE_LINK && d.nlink == [2, 1, 1] && d.bitmap == S5.bitmap && code == 0;
    assert DeleteFrom(S4, A, 0, [1]) == DeleteFrom(d, A, 1, [1]) == (d, 0);
    NoNamesLeft(d, A);
    assert d.meta - {A} == S5.meta;
  }

  lemma SecondFile()
    ensures Leads(S5, Create(B), S6) && Leads(S6, TruncateTo(B, 2), S7)
  {
    Distinct();
    assert BlockCount(2, 1) == 2;
    var g := Link(S6, BlockId(B, 0), 0);
    var g' := Link(g, BlockId(B, 1), 0);
    assert GrowFrom(S6, B, 0, 2) == GrowFrom(g, B, 1, 2) == (g', 0);
    assert g'.links == S7.links && g'.nlink == S7.nlink;
    assert [] + seq(2, _ => 0) == [0, 0];
    assert S6.meta[B := Metadata(2, [0, 0], WorkInProgress)] == S7.meta;
  }

  lemma SecondWrite()
    ensures Leads(S7, Write(BlockId(B, 0), [2]), S8)
  {
    hide Leads, WriteBlock, FreeBit;
    Distinct();
    FreeBits();
    assert [0, 0][0 := 1] == [1, 0];
    assert [4, 1, 1][0 := 3][1 := 2] == [3, 2, 1];
    assert S7.disk[1 := [2]] == S8.disk && S7.bitmap[1 := true] == S8.bitmap;
    assert S7.links[BlockId(B, 0) := 1] == S8.links;
    assert S7.meta[B := S8.meta[B]] == S8.meta;
    WriteMoves(S7, S8, BlockId(B, 0), 2, 1, S8.meta[B]);
  }

  lemma ThirdWrite()
    ensures Leads(S8, Write(BlockId(B, 1), [1]), S9)
  {
    hide Leads, WriteBlock, FreeBit;
    Distinct();
    FreeBits();
    assert [1, 0][1 := 2] == [1, 2];
    assert [3, 2, 1][0 := 2][2 := 2] == [2, 2, 2];
    assert S8.disk[2 := [1]] == S9.disk && S8.bitmap[2 := true] == S9.bitmap;
    assert S8.links[BlockId(B, 1) := 2] == S9.links;
    assert S8.meta[B := S9.meta[B]] == S9.meta;
    WriteMoves(S8, S9, BlockId(B, 1), 1, 2, S9.meta[B]);
  }

  // ---------------------------------------------------------------- what the run keeps

  /** Accepted requests other than COMMIT keep the filesystem consistent, also with a stale hash index. */
  lemma LeadsConsistent(s: FsState, op: FsOp, t: FsState)
    requires Consistent(s) && Leads(s, op, t) && !op.Commit?
    requires op.TruncateTo? && op.ft == BASE ==> 1 <= BlockCount(op.size, s.blockSize)
    ensures Consistent(t)
  {
    hide LinkCounts, BitmapOk, LinksRecorded, MetaOk, ZeroBlock;
    match op
    case Create(ft) => CreateFileKeeps(s, ft);
    case Tag(src, dst) => ForkKeeps(s, src, dst);
    case TruncateTo(ft, size) => if ft in s.meta { TruncateKeeps(s, ft, size); }
    case Write(id, data) => WriteIsIsolated(s, id, data);
    case Delete(ft) => DeleteKeeps(s, ft);
  }

  lemma LeadsGood(s: FsState, op: FsOp, t: FsState)
    requires Good(s) && Leads(s, op, t) && (op.TruncateTo? || op.Delete? ==> !IsCommitted(s, op.ft))
    ensures Good(t)
  {
    hide LinkCounts, BitmapOk, LinksRecorded, MetaOk, ZeroBlock, IndexTrueUpTo, CommittedIndexed;
    if op.Write? {
      WriteSucceedsIff(s, op.id, op.data);
    }
    StepKeeps(s, op);
  }

  lemma CommittedAGood()
    ensures Good(S4)
  {
    FreshIsS0();
    FreshStartGood(3, 1, (b: Block) => b);
    hide Good, Leads;
    FirstFile();
    FirstWrite();
    FirstCommit();
    Distinct();
    LeadsGood(S0, Create(A), S1);
    LeadsGood(S1, TruncateTo(A, 1), S2);
    LeadsGood(S2, Write(BlockId(A, 0), [1]), S3);
    LeadsGood(S3, Commit(A), S4);
  }

  lemma WrittenBConsistent()
    ensures Consistent(S9)
  {
    CommittedAGood();
    hide Consistent, Leads, Good;
    assert Consistent(S4) by { GoodIsConsistent(S4); }
    DeleteOfCommitted();
    SecondFile();
    SecondWrite();
    ThirdWrite();
    Distinct();
    LeadsConsistent(S4, Delete(A), S5);
    LeadsConsistent(S5, Create(B), S6);
    LeadsConsistent(S6, TruncateTo(B, 2), S7);
    LeadsConsistent(S7, Write(BlockId(B, 0), [2]), S8);
    LeadsConsistent(S8, Write(BlockId(B, 1), [1]), S9);
  }

  lemma GoodIsConsistent(s: FsState)
    requires Good(s)
    ensures Consistent(s)
  {
  }

  // ---------------------------------------------------------------- the loss

  /** Committing `ft` succeeds and makes its logical block `b` read `y` instead of `x`. */
  ghost predicate CommitChanges(s: FsState, ft: FileTag, b: nat, x: Block, y: Block) {
    Shape(s) &&
    var (t, code) := CommitTag(s, ft);
    && code == 0 && ReadBlock(s, BlockId(ft, b)) == (0, x)
    && BlockId(ft, b) in t.links && t.links[BlockId(ft, b)] < |t.disk| && Content(t, BlockId(ft, b)) == y
  }

  lemma StaleRepresentatives()
    ensures Linked(S9, B) && Committable(S9, B)
    ensures Representative(S9, B, 0) == 1 && Representative(S9, B, 1) == 1
  {
    Distinct();
    assert S9.md5(S9.disk[1]) == [2] && S9.md5(S9.disk[2]) == [1];
    WrittenBConsistent();
    ConsistentIsLinked(S9, B);
    hide Consistent;
    assert FirstWith(S9, S9.meta[B].blocks, 0, [2]) == 0;
  }

  /** The representative of the second block is the one the stale entry names, and it reads differently. */
  lemma SecondCommitLosesBlock()
    ensures CommitChanges(S9, B, 1, [1], [2])
  {
    Distinct();
    WrittenBConsistent();
    StaleRepresentatives();
    CommitLinksRepresentative(S9, B);
    CommitKeepsBlockIff(S9, B, 1);
    hide CommitTag, Representative, LinkCounts, BitmapOk, MetaOk, LinksRecorded;
  }

  /** TRUNCATE of a committed tag leaves an entry for a block that nobody holds any more. */
  lemma TruncatingCommittedTagLeavesStaleEntry()
    ensures Leads(S0, Create(A), S1) && Leads(S1, TruncateTo(A, 1), S2) && Leads(S2, Write(BlockId(A, 0), [1]), S3)
    ensures Leads(S3, Commit(A), S4) && Good(S4) && Truncate(S4, A, 0).1 == 0 && !IndexTrue(Truncate(S4, A, 0).0)
  {
    FirstFile();
    FirstWrite();
    FirstCommit();
    CommittedAGood();
    Distinct();
    hide Good, Leads;
    OnlyAHoldsBlock1();
    assert Good(S4) && A in S4.meta && BlockCount(0, 1) == 0;
    TruncateKeepsIndexIff(S4, A, 0);
    GoodIsConsistent(S4);
    TruncateKeeps(S4, A, 0);
  }

  lemma OnlyAHoldsBlock1()
    ensures !HeldElsewhere(S4, A, 0)
  {
    Distinct();
    assert [1] in S4.index && S4.index[[1]] == 1;
    assert forall x :: x in S4.links && S4.links[x] == 1 ==> x == BlockId(A, 0);
  }

  /** From a fresh filesystem, nine accepted requests, one of them the DELETE of a committed tag, lead to a
      COMMIT that changes what a block of another file reads. */
  lemma DeletingCommittedTagLosesBlock()
    ensures FreshStart(3, 1, (b: Block) => b) == S0
    ensures Leads(S0, Create(A), S1) && Leads(S1, TruncateTo(A, 1), S2) && Leads(S2, Write(BlockId(A, 0), [1]), S3)
    ensures Leads(S3, Commit(A), S4) && Leads(S4, Delete(A), S5)
    ensures Leads(S5, Create(B), S6) && Leads(S6, TruncateTo(B, 2), S7)
    ensures Leads(S7, Write(BlockId(B, 0), [2]), S8) && Leads(S8, Write(BlockId(B, 1), [1]), S9)
    ensures CommitChanges(S9, B, 1, [1], [2])
  {
    hide Leads, CommitChanges;
    FreshIsS0();
    FirstFile();
    FirstWrite();
    FirstCommit();
    DeleteOfCommitted();
    SecondFile();
    SecondWrite();
    ThirdWrite();
    SecondCommitLosesBlock();
  }

  /** A file that was never created has no directory: forking a tag to it is refused. */
  lemma ForkToNewFileFails()
    ensures FreshStart(3, 1, (b: Block) => b) == S0 && Leads(S0, Create(A), S1)
    ensures A in S1.meta && B !in S1.meta && CreateTag(S1, A, B) == (S1, -1)
  {
    FreshIsS0();
    FirstFile();
    Distinct();
  }
}
