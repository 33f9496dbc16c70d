/** worker/src/memory/page_table.c: one resizable page table, the sequence of its entries. */
module PageTables {
  import opened Common
  import opened PagingModel

  type PageTable = seq<PtEntry>

  function MapEntry(e: PtEntry, frame: nat): PtEntry {
    e.(frame := frame, present := true, dirty := false)
  }

  function UnmapEntry(e: PtEntry): PtEntry {
    e.(frame := 0, present := false, dirty := false)
  }

  /** pt_create: blank entries numbered from 0. */
  method Create(pageCount: nat) returns (table: PageTable)
    ensures |table| == pageCount
    ensures forall i :: 0 <= i < pageCount ==> table[i] == BlankEntry(i)
  {
    table := seq(pageCount, i requires 0 <= i => BlankEntry(i));
  }

  /** pt_resize: grows with blank entries or drops the tail, mapped or not; size 0 is rejected. */
  method Resize(table: PageTable, newPageCount: nat) returns (ok: bool, resized: PageTable)
    ensures ok <==> newPageCount != 0
    ensures !ok ==> resized == table
    ensures ok ==> |resized| == newPageCount
    ensures ok ==> forall i :: 0 <= i < newPageCount ==> resized[i] == if i < |table| then table[i] else BlankEntry(i)
  {
    if newPageCount == 0 {
      return false, table;
    }
    resized := if newPageCount < |table| then table[..newPageCount] else table;
    var i := |table|;
    while i < newPageCount
      invariant |table| <= i <= newPageCount ==> |resized| == i
      invariant i > newPageCount ==> i == |table| && |resized| == newPageCount
      invariant forall k :: 0 <= k < |resized| ==> resized[k] == if k < |table| then table[k] else BlankEntry(k)
    {
      resized := resized + [BlankEntry(i)];
      i := i + 1;
    }
    ok := true;
  }

  /** The dirty entries, in page order. */
  function DirtyOf(pages: seq<PtEntry>): seq<PtEntry> {
    if pages == [] then []
    else
      var last := pages[|pages| - 1];
      DirtyOf(pages[..|pages| - 1]) + if last.dirty then [last] else []
  }

  lemma DirtyOfSound(pages: seq<PtEntry>)
    ensures forall e :: e in DirtyOf(pages) <==> e in pages && e.dirty
  {
    if pages != [] {
      DirtyOfSound(pages[..|pages| - 1]);
      assert pages == pages[..|pages| - 1] + [pages[|pages| - 1]];
    }
  }

  lemma {:induction false} NothingDirty(pages: seq<PtEntry>)
    requires forall j :: 0 <= j < |pages| ==> !pages[j].dirty
    ensures DirtyOf(pages) == []
  {
    if pages != [] {
      NothingDirty(pages[..|pages| - 1]);
    }
  }

  lemma DirtyOfSorted(pages: seq<PtEntry>)
    requires forall j :: 0 <= j < |pages| ==> pages[j].pageNumber == j
    ensures var d := DirtyOf(pages); forall m, n :: 0 <= m < n < |d| ==> d[m].pageNumber < d[n].pageNumber
  {
    if pages != [] {
      DirtyOfSorted(pages[..|pages| - 1]);
      DirtyOfSound(pages[..|pages| - 1]);
      var d := DirtyOf(pages[..|pages| - 1]);
      forall m | 0 <= m < |d|
        ensures d[m].pageNumber < |pages| - 1
      {
        assert d[m] in d;
      }
    }
  }

  /** pt_get_dirty_entries: a copy of the dirty entries. */
  method DirtyEntries(table: PageTable) returns (dirty: seq<PtEntry>)
    ensures dirty == DirtyOf(table)
  {
    dirty := [];
    for i := 0 to |table|
      invariant dirty == DirtyOf(table[..i])
    {
      assert table[..i + 1][..i] == table[..i];
      if table[i].dirty {
        dirty := dirty + [table[i]];
      }
    }
    assert table[..|table|] == table;
  }
}
