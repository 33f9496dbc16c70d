/** A run that fills the disk: the copy-on-write that finds no free block leaves the filesystem inconsistent. */
module FsSpace {
  import opened Common
  import opened FsModel
  import opened FsTheorems
  import opened FsNamespace
  import opened FsCommitTheorems
  import opened FsRuns
  import opened FsLimits

  /** The link targets of A:1 when its first `k` logical blocks have been written. */
  function Target(k: nat, i: nat): nat {
    if i < k then i + 1 else 0
  }

  /** Eight physical blocks of one byte and A:1 of size 8 with its first `k` logical blocks written. */
  function Filled(k: nat): FsState
    requires k <= 7
  {
    FsState(1, (b: Block) => b,
            seq(8, p => if 1 <= p <= k then [1] else [0]),
            seq(8, p => p <= k),
            BASE_LINK + map i: nat | i < 8 :: BlockId(A, i) := Target(k, i),
            seq(8, p => if p == 0 then 10 - k else if p <= k then 2 else 1),
            map[BASE := BASE_META, A := Metadata(8, seq(8, i requires 0 <= i => Target(k, i)), WorkInProgress)],
            map[], D1)
  }

  const EMPTY8 := FreshStart(8, 1, (b: Block) => b)
  const NEW_A := EMPTY8.(meta := map[BASE := BASE_META, A := Metadata(0, [], WorkInProgress)], dirs := D1)

  lemma {:induction false} GrowCounts(s: FsState, ft: FileTag, from: nat, end: nat)
    requires LinkCounts(s) && 0 < |s.nlink| && from <= end
    requires forall b :: from <= b < end ==> BlockId(ft, b) !in s.links
    ensures GrowFrom(s, ft, from, end).0.nlink == s.nlink[0 := s.nlink[0] + (end - from)]
    decreases end - from
  {
    if from < end {
      LinkKeepsCounts(s, BlockId(ft, from), 0);
      GrowCounts(Link(s, BlockId(ft, from), 0), ft, from + 1, end);
    }
  }

  lemma CreatesA()
    ensures Leads(EMPTY8, Create(A), NEW_A) && Good(EMPTY8)
  {
    Distinct();
    FreshStartGood(8, 1, (b: Block) => b);
  }

  lemma NewALinks()
    ensures Shape(NEW_A) && LinkCounts(NEW_A) && NEW_A.links == BASE_LINK && |NEW_A.nlink| == 8 && NEW_A.nlink[0] == 2
    ensures forall b :: 0 <= b < 8 ==> BlockId(A, b) !in NEW_A.links
  {
    Distinct();
    CreatesA();
    LeadsGood(EMPTY8, Create(A), NEW_A);
  }

  lemma GrownLinks(links: map<BlockId, nat>)
    requires forall id :: id in links <==> id in BASE_LINK || id in Tail(A, 0, 8)
    requires forall id :: id in BASE_LINK ==> links[id] == BASE_LINK[id]
    requires forall id :: id in Tail(A, 0, 8) ==> links[id] == 0
    ensures links == Filled(0).links
  {
    Distinct();
    var filled := Filled(0).links;
    forall id: BlockId
      ensures id in links <==> id in filled
      ensures id in links && id in filled ==> links[id] == filled[id]
    {
      assert id == BlockId(id.ft, id.block);
      assert id in Tail(A, 0, 8) <==> id.ft == A && id.block < 8;
    }
  }

  lemma GrowsLinks()
    ensures GrowFrom(NEW_A, A, 0, 8) == (NEW_A.(links := Filled(0).links, nlink := Filled(0).nlink), 0)
  {
    NewALinks();
    hide LinkCounts, FreshStart, GrowFrom;
    GrowKeeps(NEW_A, A, 0, 8);
    GrowCounts(NEW_A, A, 0, 8);
    GrownLinks(GrowFrom(NEW_A, A, 0, 8).0.links);
    assert NEW_A.nlink[0 := 10] == Filled(0).nlink by { FreshCounts(); }
  }

  lemma FreshCounts()
    ensures EMPTY8.nlink[0 := 10] == Filled(0).nlink && EMPTY8.disk == Filled(0).disk && EMPTY8.bitmap == Filled(0).bitmap
  {
    assert Zeros(1) == [0];
  }

  lemma GrowsA()
    ensures Leads(NEW_A, TruncateTo(A, 8), Filled(0))
  {
    Distinct();
    NewALinks();
    GrowsLinks();
    FreshCounts();
    hide LinkCounts, GrowFrom;
    assert BlockCount(8, 1) == 8;
    var (t, code) := Truncate(NEW_A, A, 8);
    assert code == 0 && t.meta[A].blocks == Filled(0).meta[A].blocks;
    assert t.meta == Filled(0).meta;
    assert t == Filled(0);
  }

  lemma FilledShape(k: nat)
    requires k <= 7
    ensures Shape(Filled(k))
  {
  }

  lemma FilledFreeBit(k: nat)
    requires k <= 7
    ensures FreeBit(Filled(k).bitmap) == k + 1
  {
    var bitmap := Filled(k).bitmap;
    assert forall p :: 0 <= p < 8 ==> (bitmap[p] <==> p <= k);
    assert k < 7 ==> !bitmap[k + 1];
  }

  lemma FilledLink(k: nat, i: nat)
    requires k <= 7 && i < 8
    ensures BlockId(A, i) in Filled(k).links && Filled(k).links[BlockId(A, i)] == Target(k, i)
  {
    Distinct();
  }

  lemma FilledLinks(k: nat)
    requires k <= 7
    ensures forall id :: id in Filled(k).links <==> id == BlockId(BASE, 0) || (id.ft == A && id.block < 8)
    ensures forall id :: id in Filled(k).links ==> Filled(k).links[id] == if id.ft == A then Target(k, id.block) else 0
  {
    Distinct();
    forall id: BlockId
      ensures id in Filled(k).links <==> id == BlockId(BASE, 0) || (id.ft == A && id.block < 8)
    {
      assert id == BlockId(id.ft, id.block);
    }
  }

  lemma FilledNextLinks(k: nat)
    requires k < 7
    ensures Filled(k + 1).links == Filled(k).links[BlockId(A, k) := k + 1]
  {
    hide Filled;
    FilledLinks(k);
    FilledLinks(k + 1);
    assert forall id: BlockId :: id.ft == A && id != BlockId(A, k) ==> id.block != k;
  }

  lemma FilledNextTables(k: nat)
    requires k < 7
    ensures var s, t := Filled(k), Filled(k + 1);
            && t.disk == s.disk[k + 1 := [1]] && t.bitmap == s.bitmap[k + 1 := true]
            && t.nlink == s.nlink[0 := s.nlink[0] - 1][k + 1 := s.nlink[k + 1] + 1]
            && A in s.meta && A in t.meta && |s.meta[A].blocks| == 8
            && t.meta[A] == s.meta[A].(blocks := s.meta[A].blocks[k := k + 1]) && t.meta == s.meta[A := t.meta[A]]
  {
    Distinct();
    var s, t := Filled(k), Filled(k + 1);
    assert t.meta[A].blocks == s.meta[A].blocks[k := k + 1];
  }

  /** Each further block that is written takes the next free physical block. */
  lemma FillsNext(k: nat)
    requires k < 7
    ensures Leads(Filled(k), Write(BlockId(A, k), [1]), Filled(k + 1))
  {
    Distinct();
    FilledShape(k);
    FilledFreeBit(k);
    FilledLink(k, k);
    FilledNextLinks(k);
    FilledNextTables(k);
    assert Shared(Filled(k), BlockId(A, k));
    hide Leads, FreeBit, WriteBlock, Shape;
    WriteMoves(Filled(k), Filled(k + 1), BlockId(A, k), 1, k + 1, Filled(k + 1).meta[A]);
  }

  lemma {:induction false} FilledConsistent(k: nat)
    requires k <= 7
    ensures Consistent(Filled(k))
  {
    hide Leads, Consistent, Filled;
    if k == 0 {
      EmptyConsistent();
      GrowsA();
      CreatesA();
      Distinct();
      LeadsConsistent(EMPTY8, Create(A), NEW_A);
      LeadsConsistent(NEW_A, TruncateTo(A, 8), Filled(0));
    } else {
      FilledConsistent(k - 1);
      FillsNext(k - 1);
      LeadsConsistent(Filled(k - 1), Write(BlockId(A, k - 1), [1]), Filled(k));
    }
  }

  lemma EmptyConsistent()
    ensures Consistent(EMPTY8)
  {
    FreshStartGood(8, 1, (b: Block) => b);
  }

  lemma NoSpaceLeft()
    ensures Writable(Filled(7), BlockId(A, 7)) && Shared(Filled(7), BlockId(A, 7)) && !HasFreeBlock(Filled(7))
    ensures WriteBlock(Filled(7), BlockId(A, 7), [1]).1 == NOT_ENOUGH_SPACE
  {
    Distinct();
    FilledShape(7);
    FilledLink(7, 7);
    FilledFreeBit(7);
  }

  /** From a fresh filesystem of eight blocks, nine accepted requests lead to a write that finds no free block
      and leaves the filesystem inconsistent. */
  lemma FullDiskBreaksConsistency()
    ensures Leads(EMPTY8, Create(A), NEW_A) && Leads(NEW_A, TruncateTo(A, 8), Filled(0))
    ensures forall k :: 0 <= k < 7 ==> Leads(Filled(k), Write(BlockId(A, k), [1]), Filled(k + 1))
    ensures Consistent(Filled(7)) && WriteBlock(Filled(7), BlockId(A, 7), [1]).1 == NOT_ENOUGH_SPACE
    ensures !Consistent(WriteBlock(Filled(7), BlockId(A, 7), [1]).0)
  {
    CreatesA();
    GrowsA();
    FilledConsistent(7);
    NoSpaceLeft();
    hide Leads, Consistent, WriteBlock;
    forall k | 0 <= k < 7
      ensures Leads(Filled(k), Write(BlockId(A, k), [1]), Filled(k + 1))
    {
      FillsNext(k);
    }
    WriteKeepsConsistentIff(Filled(7), BlockId(A, 7), [1]);
  }
}
