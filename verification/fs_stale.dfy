/** A run in which COMMIT, with a stale hash index, moves a block to a free one: a write to another file then
    changes what the committed tag reads. */
module FsStale {
  import opened Common
  import opened FsModel
  import opened FsTheorems
  import opened FsNamespace
  import opened FsCommitTheorems
  import opened FsCommitConsistency
  import opened FsRuns
  import opened FsLimits

  const C := FileTag("C", "1")
  const DC := D1 + {C.file}
  const DCB := DC + {B.file}
  const INDEX: map<Digest, nat> := map[[1] := 1]
  const NO_BLOCKS := Metadata(0, [], WorkInProgress)

  function OneBlock(p: nat, state: TagState): Metadata {
    Metadata(1, [p], state)
  }

  const R6 := Small(Disk3(1, 0), Bits(false, false), BASE_LINK, [2, 1, 1], map[BASE := BASE_META, C := NO_BLOCKS], INDEX, DC)
  const R7 := Small(Disk3(1, 0), Bits(false, false), BASE_LINK[BlockId(C, 0) := 0], [3, 1, 1],
                    map[BASE := BASE_META, C := OneBlock(0, WorkInProgress)], INDEX, DC)
  const R8 := Small(Disk3(1, 0), Bits(true, false), BASE_LINK[BlockId(C, 0) := 1], [2, 2, 1],
                    map[BASE := BASE_META, C := OneBlock(1, WorkInProgress)], INDEX, DC)
  const R9 := Small(Disk3(1, 0), Bits(true, false), BASE_LINK[BlockId(C, 0) := 1], [2, 2, 1],
                    map[BASE := BASE_META, C := OneBlock(1, WorkInProgress), B := NO_BLOCKS], INDEX, DCB)
  const R10 := Small(Disk3(1, 0), Bits(true, false), BASE_LINK[BlockId(C, 0) := 1][BlockId(B, 0) := 0], [3, 2, 1],
                     map[BASE := BASE_META, C := OneBlock(1, WorkInProgress), B := OneBlock(0, WorkInProgress)], INDEX, DCB)
  const R11 := Small(Disk3(1, 1), Bits(true, true), BASE_LINK[BlockId(C, 0) := 1][BlockId(B, 0) := 2], [2, 2, 2],
                     map[BASE := BASE_META, C := OneBlock(1, WorkInProgress), B := OneBlock(2, WorkInProgress)], INDEX, DCB)
  const R12 := Small(Disk3(1, 1), Bits(false, true), BASE_LINK[BlockId(B, 0) := 2], [2, 1, 2],
                     map[BASE := BASE_META, B := OneBlock(2, WorkInProgress)], INDEX, DCB)
  const R13 := Small(Disk3(1, 1), Bits(false, false), BASE_LINK[BlockId(B, 0) := 1], [2, 2, 1],
                     map[BASE := BASE_META, B := OneBlock(1, Committed)], INDEX, DCB)
  const R14 := Small(Disk3(1, 1), Bits(false, false), BASE_LINK[BlockId(B, 0) := 1], [2, 2, 1],
                     map[BASE := BASE_META, B := OneBlock(1, Committed), C := NO_BLOCKS], INDEX, DCB)
  const R15 := Small(Disk3(1, 1), Bits(false, false), BASE_LINK[BlockId(B, 0) := 1][BlockId(C, 0) := 0], [3, 2, 1],
                     map[BASE := BASE_META, B := OneBlock(1, Committed), C := OneBlock(0, WorkInProgress)], INDEX, DCB)
  const R16 := Small(Disk3(9, 1), Bits(true, false), BASE_LINK[BlockId(B, 0) := 1][BlockId(C, 0) := 1], [2, 3, 1],
                     map[BASE := BASE_META, B := OneBlock(1, Committed), C := OneBlock(1, WorkInProgress)], INDEX, DCB)

  lemma AlsoDistinct()
    ensures A != B && A != C && B != C && BASE != A && BASE != B && BASE != C
  {
    Distinct();
    assert |C.file| == 1 && |BASE.file| == 12 && C.file[0] == 'C' && A.file[0] == 'A' && B.file[0] == 'B';
  }

  // ---------------------------------------------------------------- C:1 and B:1 are written

  lemma CreatesC()
    ensures Leads(S5, Create(C), R6) && Leads(R6, TruncateTo(C, 1), R7)
  {
    AlsoDistinct();
    GrowOne(R6, C);
    assert Link(R6, BlockId(C, 0), 0).links == R7.links && Link(R6, BlockId(C, 0), 0).nlink == R7.nlink;
    assert S5.meta[C := NO_BLOCKS] == R6.meta;
    assert R6.meta[C := OneBlock(0, WorkInProgress)] == R7.meta;
  }

  lemma WritesC()
    ensures Leads(R7, Write(BlockId(C, 0), [1]), R8)
  {
    hide Leads, WriteBlock, FreeBit;
    AlsoDistinct();
    FreeBits();
    assert [0][0 := 1] == [1];
    assert [3, 1, 1][0 := 2][1 := 2] == [2, 2, 1];
    assert R7.disk[1 := [1]] == R8.disk && R7.bitmap[1 := true] == R8.bitmap;
    assert R7.links[BlockId(C, 0) := 1] == R8.links;
    assert R7.meta[C := R8.meta[C]] == R8.meta;
    WriteMoves(R7, R8, BlockId(C, 0), 1, 1, R8.meta[C]);
  }

  lemma CreatesB()
    ensures Leads(R8, Create(B), R9) && Leads(R9, TruncateTo(B, 1), R10)
  {
    AlsoDistinct();
    GrowOne(R9, B);
    assert Link(R9, BlockId(B, 0), 0).links == R10.links && Link(R9, BlockId(B, 0), 0).nlink == R10.nlink;
    assert R8.meta[B := NO_BLOCKS] == R9.meta;
    assert R9.meta[B := OneBlock(0, WorkInProgress)] == R10.meta;
  }

  lemma WritesB()
    ensures Leads(R10, Write(BlockId(B, 0), [1]), R11)
  {
    hide Leads, WriteBlock, FreeBit;
    AlsoDistinct();
    FreeBits();
    assert [0][0 := 2] == [2];
    assert [3, 2, 1][0 := 2][2 := 2] == [2, 2, 2];
    assert R10.disk[2 := [1]] == R11.disk && R10.bitmap[2 := true] == R11.bitmap;
    assert R10.links[BlockId(B, 0) := 2] == R11.links;
    assert R10.meta[B := R11.meta[B]] == R11.meta;
    WriteMoves(R10, R11, BlockId(B, 0), 1, 2, R11.meta[B]);
  }

  const UNLINKED_C := R12.(meta := R11.meta)

  lemma UnlinksC()
    ensures (forall x :: x in R11.links ==> R11.links[x] < |R11.disk|)
    ensures DeleteLogicalBlock(R11, BlockId(C, 0), 1) == (UNLINKED_C, 0)
  {
    AlsoDistinct();
    var (d, code) := DeleteLogicalBlock(R11, BlockId(C, 0), 1);
    assert d.links == R12.links && d.nlink == R12.nlink && d.bitmap == R12.bitmap && code == 0;
  }

  lemma DeletesC()
    ensures Leads(R11, Delete(C), R12)
  {
    AlsoDistinct();
    UnlinksC();
    hide DeleteLogicalBlock, RemoveDirectory;
    assert DeleteFrom(UNLINKED_C, C, 1, [1]) == (UNLINKED_C, 0);
    assert DeleteFrom(R11, C, 0, [1]) == (UNLINKED_C, 0);
    NoNamesLeft(UNLINKED_C, C);
    assert UNLINKED_C.meta - {C} == R12.meta;
  }

  // ---------------------------------------------------------------- B:1 is committed

  lemma CommitsB()
    ensures Leads(R12, Commit(B), R13)
  {
    AlsoDistinct();
    assert R12.md5(R12.disk[2]) == [1];
    var d := DedupBlock(R12, B, 0).0;
    assert [2][0 := 1] == [1];
    assert d.links == R13.links && d.nlink == R13.nlink && d.bitmap == R13.bitmap;
    assert d.meta == R12.meta[B := OneBlock(1, WorkInProgress)];
    assert DedupFrom(d, B, 1) == (d, 0);
    assert d.meta[B := OneBlock(1, Committed)] == R13.meta;
  }

  lemma BeforeCommitConsistent()
    ensures Consistent(R12)
  {
    CommittedAGood();
    hide Consistent, Leads, Good;
    GoodIsConsistent(S4);
    DeleteOfCommitted();
    LeadsConsistent(S4, Delete(A), S5);
    CreatesC();
    WritesC();
    CreatesB();
    WritesB();
    DeletesC();
    AlsoDistinct();
    LeadsConsistent(S5, Create(C), R6);
    LeadsConsistent(R6, TruncateTo(C, 1), R7);
    LeadsConsistent(R7, Write(BlockId(C, 0), [1]), R8);
    LeadsConsistent(R8, Create(B), R9);
    LeadsConsistent(R9, TruncateTo(B, 1), R10);
    LeadsConsistent(R10, Write(BlockId(B, 0), [1]), R11);
    LeadsConsistent(R11, Delete(C), R12);
  }

  /** The index names block 1, which nobody uses any more. */
  lemma RepresentativeIsFree()
    ensures Linked(R12, B) && !AllHeld(R12, B, 0)
  {
    AlsoDistinct();
    BeforeCommitConsistent();
    ConsistentIsLinked(R12, B);
    hide Consistent;
    assert R12.md5(R12.disk[2]) == [1];
    assert RepresentativeFrom(R12, R12.meta[B].blocks, 0, 0) == 1;
    assert forall x :: x in R12.links ==> R12.links[x] != 1;
    assert !MovesToHeld(R12, B, 0, 0);
  }

  lemma CommitBreaks()
    ensures Leads(R12, Commit(B), R13) && Consistent(R12) && !Consistent(R13)
  {
    CommitsB();
    BeforeCommitConsistent();
    RepresentativeIsFree();
    AlsoDistinct();
    hide LinkCounts, BitmapOk, MetaOk, LinksRecorded, ZeroBlock, AllHeld, CommitTag;
    CommitKeepsConsistentIff(R12, B);
  }

  // ---------------------------------------------------------------- another file is written

  lemma CreatesCAgain()
    ensures Leads(R13, Create(C), R14) && Leads(R14, TruncateTo(C, 1), R15)
  {
    AlsoDistinct();
    GrowOne(R14, C);
    assert Link(R14, BlockId(C, 0), 0).links == R15.links && Link(R14, BlockId(C, 0), 0).nlink == R15.nlink;
    assert R13.meta[C := NO_BLOCKS] == R14.meta && R13.dirs + {C.file} == R14.dirs;
    assert R14.meta[C := OneBlock(0, WorkInProgress)] == R15.meta;
  }

  lemma WritesCAgain()
    ensures Leads(R15, Write(BlockId(C, 0), [9]), R16)
  {
    hide Leads, WriteBlock, FreeBit;
    AlsoDistinct();
    FreeBits();
    assert [0][0 := 1] == [1];
    assert [3, 2, 1][0 := 2][1 := 3] == [2, 3, 1];
    assert R15.disk[1 := [9]] == R16.disk && R15.bitmap[1 := true] == R16.bitmap;
    assert R15.links[BlockId(C, 0) := 1] == R16.links;
    assert R15.meta[C := R16.meta[C]] == R16.meta;
    WriteMoves(R15, R16, BlockId(C, 0), 9, 1, R16.meta[C]);
  }

  /** Committed B:1 reads `x` from its block. */
  ghost predicate CommittedReads(s: FsState, x: Block) {
    && (forall y :: y in s.links ==> s.links[y] < |s.disk|)
    && IsCommitted(s, B) && ReadBlock(s, BlockId(B, 0)) == (0, x)
  }

  lemma ReadsBefore()
    ensures CommittedReads(R13, [1])
  {
    AlsoDistinct();
  }

  lemma ReadsAfter()
    ensures CommittedReads(R16, [9])
  {
    AlsoDistinct();
  }

  /** From a fresh filesystem, A:1 is committed and deleted. C:1 and B:1 are written alike, C:1 is deleted, and the COMMIT
      of B:1 moves its block to the free one the index still names. The next write to another file takes that
      block, and what committed B:1 reads has changed. */
  lemma StaleCommitIsOverwritten()
    ensures FreshStart(3, 1, (b: Block) => b) == S0 && Leads(S0, Create(A), S1) && Leads(S1, TruncateTo(A, 1), S2)
    ensures Leads(S2, Write(BlockId(A, 0), [1]), S3) && Leads(S3, Commit(A), S4) && Leads(S4, Delete(A), S5)
    ensures Leads(S5, Create(C), R6) && Leads(R6, TruncateTo(C, 1), R7) && Leads(R7, Write(BlockId(C, 0), [1]), R8)
    ensures Leads(R8, Create(B), R9) && Leads(R9, TruncateTo(B, 1), R10) && Leads(R10, Write(BlockId(B, 0), [1]), R11)
    ensures Leads(R11, Delete(C), R12) && Leads(R12, Commit(B), R13) && Consistent(R12) && !Consistent(R13)
    ensures Leads(R13, Create(C), R14) && Leads(R14, TruncateTo(C, 1), R15) && Leads(R15, Write(BlockId(C, 0), [9]), R16)
    ensures CommittedReads(R13, [1]) && CommittedReads(R16, [9])
  {
    hide Leads, Consistent, Good, CommittedReads;
    FreshIsS0();
    FirstFile();
    FirstWrite();
    FirstCommit();
    DeleteOfCommitted();
    CreatesC();
    WritesC();
    CreatesB();
    WritesB();
    DeletesC();
    CommitBreaks();
    CreatesCAgain();
    WritesCAgain();
    ReadsBefore();
    ReadsAfter();
  }
}
