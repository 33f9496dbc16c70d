/** A run that truncates initial_file:BASE to nothing: a new file then does not read as zeros. */
module FsBase {
  import opened Common
  import opened FsModel
  import opened FsTheorems
  import opened FsNamespace
  import opened FsRuns
  import opened FsLimits

  const NO_BITS := [false, false, false, false, false, false, false, false]
  const GONE_META := Metadata(0, [], Committed)
  const ONE_BLOCK := Metadata(1, [0], WorkInProgress)
  const NO_BLOCKS := Metadata(0, [], WorkInProgress)

  function Dirty(x: Byte): seq<Block> {
    [[x], [0], [0]]
  }

  const Z1 := Small(Dirty(0), NO_BITS, map[], [1, 1, 1], map[BASE := GONE_META], map[], D0)
  const Z2 := Small(Dirty(0), NO_BITS, map[], [1, 1, 1], map[BASE := GONE_META, A := NO_BLOCKS], map[], D1)
  const Z3 := Small(Dirty(0), NO_BITS, map[BlockId(A, 0) := 0], [2, 1, 1], map[BASE := GONE_META, A := ONE_BLOCK], map[], D1)
  const Z4 := Small(Dirty(7), NO_BITS, map[BlockId(A, 0) := 0], [2, 1, 1], map[BASE := GONE_META, A := ONE_BLOCK], map[], D1)
  const Z5 := Small(Dirty(7), NO_BITS, map[BlockId(A, 0) := 0], [2, 1, 1],
                    map[BASE := GONE_META, A := ONE_BLOCK, B := NO_BLOCKS], map[], D2)
  const Z6 := Small(Dirty(7), NO_BITS, map[BlockId(A, 0) := 0, BlockId(B, 0) := 0], [3, 1, 1],
                    map[BASE := GONE_META, A := ONE_BLOCK, B := ONE_BLOCK], map[], D2)

  /** The only name of physical block 0 goes, and with it the block. */
  lemma EmptiesBase()
    ensures Leads(S0, TruncateTo(BASE, 0), Z1)
  {
    var (d, code) := DeleteLogicalBlock(S0, BlockId(BASE, 0), 0);
    assert code == 0 && d.links == Z1.links && d.nlink == Z1.nlink && d.bitmap == Z1.bitmap;
    assert BlockCount(0, 1) == 0;
    assert ShrinkFrom(S0, BASE, 0, [0]) == ShrinkFrom(d, BASE, 1, [0]) == d;
    assert [0][..0] == [];
    assert d.meta[BASE := GONE_META] == Z1.meta;
  }

  lemma CreatesAndGrowsA()
    ensures Leads(Z1, Create(A), Z2) && Leads(Z2, TruncateTo(A, 1), Z3)
  {
    Distinct();
    GrowOne(Z2, A);
    assert Link(Z2, BlockId(A, 0), 0).links == Z3.links && Link(Z2, BlockId(A, 0), 0).nlink == Z3.nlink;
    assert Z2.meta[A := ONE_BLOCK] == Z3.meta;
  }

  /** A:1 is alone on physical block 0 now, so it is written in place. */
  lemma WritesZeroBlock()
    ensures Leads(Z3, Write(BlockId(A, 0), [7]), Z4)
  {
    Distinct();
    assert Z3.nlink[0] == 2 && !Shared(Z3, BlockId(A, 0));
    assert Fit([7], 1) == [7];
    assert Z3.disk[0 := [7]] == Z4.disk;
  }

  lemma CreatesAndGrowsB()
    ensures Leads(Z4, Create(B), Z5) && Leads(Z5, TruncateTo(B, 1), Z6)
  {
    Distinct();
    GrowOne(Z5, B);
    assert Link(Z5, BlockId(B, 0), 0).links == Z6.links && Link(Z5, BlockId(B, 0), 0).nlink == Z6.nlink;
    assert Z5.meta[B := ONE_BLOCK] == Z6.meta;
  }

  lemma ReadsOtherFile()
    ensures (forall x :: x in Z6.links ==> Z6.links[x] < |Z6.disk|) && ReadBlock(Z6, BlockId(B, 0)) == (0, [7])
  {
    Distinct();
  }

  /** From a fresh filesystem: TRUNCATE of initial_file:BASE to 0, and then a block that B:1 was grown by reads
      what was written to A:1. */
  lemma TruncatingBaseMixesFiles()
    ensures FreshStart(3, 1, (b: Block) => b) == S0 && Leads(S0, TruncateTo(BASE, 0), Z1) && !Consistent(Z1)
    ensures Leads(Z1, Create(A), Z2) && Leads(Z2, TruncateTo(A, 1), Z3) && Leads(Z3, Write(BlockId(A, 0), [7]), Z4)
    ensures Leads(Z4, Create(B), Z5) && Leads(Z5, TruncateTo(B, 1), Z6)
    ensures (forall x :: x in Z6.links ==> Z6.links[x] < |Z6.disk|) && ReadBlock(Z6, BlockId(B, 0)) == (0, [7])
  {
    assert !Consistent(Z1);
    hide Leads, ReadBlock, Consistent;
    FreshIsS0();
    EmptiesBase();
    CreatesAndGrowsA();
    WritesZeroBlock();
    CreatesAndGrowsB();
    ReadsOtherFile();
  }
}
