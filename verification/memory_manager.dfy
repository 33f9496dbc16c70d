/** worker/src/memory/memory_manager.c: the demand-paged memory of one Worker. */
module MemoryManagerModule {
  import opened Common
  import opened PagingModel
  import opened ReplacementModel
  import opened PagingTheorems
  import opened FlushTheorems
  import PageTables
  import opened PhysicalMemoryModule
  import opened BlockStoreModule

  datatype FileTagEntry = FileTagEntry(ft: FileTag, table: PageTables.PageTable)

  /** `pages` and `index` describe exactly the page tables of `entries`. */
  ghost predicate Tied(entries: seq<FileTagEntry>, pages: map<BlockId, PtEntry>, index: map<FileTag, nat>) {
    && (forall i :: 0 <= i < |entries| ==> entries[i].ft in index && index[entries[i].ft] == i)
    && (forall ft :: ft in index ==> index[ft] < |entries| && entries[index[ft]].ft == ft)
    && (forall i, j :: 0 <= i < |entries| && 0 <= j < |entries[i].table| ==>
                         BlockId(entries[i].ft, j) in pages && pages[BlockId(entries[i].ft, j)] == entries[i].table[j])
    && (forall id :: id in pages ==> id.ft in index && id.block < |entries[index[id.ft]].table|)
  }

  lemma TiedUpdate(entries: seq<FileTagEntry>, pages: map<BlockId, PtEntry>, index: map<FileTag, nat>, i: nat, j: nat, e: PtEntry)
    requires Tied(entries, pages, index) && i < |entries| && j < |entries[i].table|
    ensures Tied(entries[i := entries[i].(table := entries[i].table[j := e])], pages[BlockId(entries[i].ft, j) := e], index)
  {
  }

  /** The entries after the table of `ft`, `was` entries long, is resized to `n`. */
  ghost function ResizedPages(pages: map<BlockId, PtEntry>, ft: FileTag, was: nat, n: nat): map<BlockId, PtEntry> {
    (map id | id in pages && (id.ft != ft || id.block < n) :: pages[id])
    + (map j | was <= j < n :: BlockId(ft, j) := BlankEntry(j))
  }

  lemma TiedResize(entries: seq<FileTagEntry>, pages: map<BlockId, PtEntry>, index: map<FileTag, nat>, i: nat, table: PageTables.PageTable)
    requires Tied(entries, pages, index) && i < |entries|
    requires forall j :: 0 <= j < |table| ==> table[j] == if j < |entries[i].table| then entries[i].table[j] else BlankEntry(j)
    ensures Tied(entries[i := entries[i].(table := table)], ResizedPages(pages, entries[i].ft, |entries[i].table|, |table|), index)
  {
  }

  lemma TiedAppend(entries: seq<FileTagEntry>, pages: map<BlockId, PtEntry>, index: map<FileTag, nat>, ft: FileTag)
    requires Tied(entries, pages, index) && ft !in index
    ensures Tied(entries + [FileTagEntry(ft, [BlankEntry(0)])], pages[BlockId(ft, 0) := BlankEntry(0)], index[ft := |entries|])
    ensures forall j :: BlockId(ft, j) !in pages
  {
  }

  /** The last entry takes the place of the removed one. */
  lemma TiedRemove(entries: seq<FileTagEntry>, pages: map<BlockId, PtEntry>, index: map<FileTag, nat>, i: nat)
    requires Tied(entries, pages, index) && i < |entries|
    ensures var last := |entries| - 1;
            var gone := entries[i].ft;
            Tied(entries[i := entries[last]][..last],
                 map id | id in pages && id.ft != gone :: pages[id],
                 map ft | ft in index && ft != gone :: if index[ft] == last then i else index[ft])
  {
  }

  lemma TiedEntry(entries: seq<FileTagEntry>, pages: map<BlockId, PtEntry>, index: map<FileTag, nat>, ft: FileTag, i: nat)
    requires Tied(entries, pages, index) && i == if ft in index then index[ft] else |entries|
    ensures i < |entries| <==> ft in index
    ensures i < |entries| ==> entries[i].ft == ft
  {
  }

  /** What the invariant says about the entries of one table. */
  lemma TableOk(entries: seq<FileTagEntry>, index: map<FileTag, nat>, s: MmState, i: nat)
    requires Tied(entries, s.pages, index) && Inv(s) && i < |entries|
    ensures forall j :: 0 <= j < |entries[i].table| ==>
                          entries[i].table[j].pageNumber == j && (entries[i].table[j].dirty ==> entries[i].table[j].present)
  {
    forall j | 0 <= j < |entries[i].table|
      ensures entries[i].table[j].pageNumber == j && (entries[i].table[j].dirty ==> entries[i].table[j].present)
    {
      assert PageOk(s, BlockId(entries[i].ft, j));
    }
  }

  lemma NoTableNoPages(entries: seq<FileTagEntry>, pages: map<BlockId, PtEntry>, index: map<FileTag, nat>, ft: FileTag)
    requires Tied(entries, pages, index)
    ensures ft !in index ==> forall id :: id in pages ==> id.ft != ft
  {
  }

  lemma AllIndexed(entries: seq<FileTagEntry>, pages: map<BlockId, PtEntry>, index: map<FileTag, nat>)
    requires Tied(entries, pages, index)
    ensures forall id :: id in pages ==> id.ft in index && index[id.ft] < |entries|
  {
  }

  lemma CleanTable(entries: seq<FileTagEntry>, pages: map<BlockId, PtEntry>, index: map<FileTag, nat>, i: nat)
    requires Tied(entries, pages, index) && i < |entries|
    requires forall j :: 0 <= j < |entries[i].table| ==> !entries[i].table[j].dirty
    ensures forall id :: id in pages ==> id.ft in index && (index[id.ft] == i ==> !pages[id].dirty)
  {
    forall id | id in pages && index[id.ft] == i
      ensures !pages[id].dirty
    {
      TiedAt(entries, pages, index, i, id);
    }
  }

  lemma CleanPages(entries: seq<FileTagEntry>, pages: map<BlockId, PtEntry>, index: map<FileTag, nat>, i: nat)
    requires Tied(entries, pages, index) && i < |entries|
    ensures entries[i].ft in index && index[entries[i].ft] == i
    ensures (forall id :: id in pages && id.ft == entries[i].ft ==> !pages[id].dirty) ==>
              forall j :: 0 <= j < |entries[i].table| ==> !entries[i].table[j].dirty
  {
    forall j | 0 <= j < |entries[i].table|
      ensures BlockId(entries[i].ft, j) in pages && pages[BlockId(entries[i].ft, j)] == entries[i].table[j]
    {
    }
  }

  /** A flush loop over the snapshot `dirty` of `table0` has reached position `k`: the entries from `k` on
      are unchanged, and every page of `table` that is still dirty is among them. */
  ghost predicate FlushedUpTo(dirty: seq<PtEntry>, k: nat, table: seq<PtEntry>, table0: seq<PtEntry>) {
    && |table| == |table0|
    && (forall m :: k <= m < |dirty| ==> dirty[m].pageNumber < |table| && table[dirty[m].pageNumber] == dirty[m] && dirty[m].dirty)
    && (forall j :: 0 <= j < |table| && table[j].dirty ==> exists m :: k <= m < |dirty| && dirty[m].pageNumber == j)
  }

  lemma FlushStart(table0: seq<PtEntry>)
    requires forall j :: 0 <= j < |table0| ==> table0[j].pageNumber == j
    ensures FlushedUpTo(PageTables.DirtyOf(table0), 0, table0, table0)
  {
    var dirty := PageTables.DirtyOf(table0);
    PageTables.DirtyOfSound(table0);
    forall m | 0 <= m < |dirty|
      ensures dirty[m].pageNumber < |table0| && table0[dirty[m].pageNumber] == dirty[m] && dirty[m].dirty
    {
      assert dirty[m] in table0;
    }
    forall j | 0 <= j < |table0| && table0[j].dirty
      ensures exists m :: 0 <= m < |dirty| && dirty[m].pageNumber == j
    {
      assert table0[j] in dirty;
    }
  }

  lemma FlushStep(dirty: seq<PtEntry>, k: nat, table: seq<PtEntry>, table0: seq<PtEntry>)
    requires FlushedUpTo(dirty, k, table, table0) && k < |dirty|
    requires forall m, n :: 0 <= m < n < |dirty| ==> dirty[m].pageNumber < dirty[n].pageNumber
    ensures var j := dirty[k].pageNumber;
            j < |table| && table[j] == dirty[k] && table[j].dirty &&
            FlushedUpTo(dirty, k + 1, table[j := table[j].(dirty := false)], table0)
  {
  }

  lemma FlushEnd(dirty: seq<PtEntry>, table: seq<PtEntry>, table0: seq<PtEntry>)
    requires FlushedUpTo(dirty, |dirty|, table, table0)
    ensures forall j :: 0 <= j < |table| ==> !table[j].dirty
  {
  }

  /** A table keeps its position while the index is unchanged. */
  lemma TiedAt(entries: seq<FileTagEntry>, pages: map<BlockId, PtEntry>, index: map<FileTag, nat>, i: nat, id: BlockId)
    requires Tied(entries, pages, index) && id.ft in index && index[id.ft] == i
    ensures i < |entries| && entries[i].ft == id.ft
    ensures id in pages <==> id.block < |entries[i].table|
    ensures id in pages ==> pages[id] == entries[i].table[id.block]
  {
  }

  lemma TiedIndex(entries: seq<FileTagEntry>, pages: map<BlockId, PtEntry>, index: map<FileTag, nat>, i: nat)
    requires Tied(entries, pages, index) && i < |entries|
    ensures entries[i].ft in index && index[entries[i].ft] == i
  {
  }

  /** Growing a table only adds blank entries. */
  lemma GrowthAddsBlanks(entries: seq<FileTagEntry>, pages: map<BlockId, PtEntry>, index: map<FileTag, nat>, i: nat, n: nat)
    requires Tied(entries, pages, index) && i < |entries| && |entries[i].table| <= n
    ensures var grown := ResizedPages(pages, entries[i].ft, |entries[i].table|, n);
            && pages.Keys <= grown.Keys
            && (forall id :: id in pages ==> grown[id] == pages[id])
            && (forall id :: id in grown && id !in pages ==> grown[id] == BlankEntry(id.block))
  {
    var ft := entries[i].ft;
    forall id | id in pages && id.ft == ft
      ensures id.block < |entries[i].table|
    {
      TiedAt(entries, pages, index, i, id);
    }
  }

  /** A scan of all tables that stands at page `j` of table `i` has passed `id`. */
  ghost predicate Scanned(index: map<FileTag, nat>, id: BlockId, i: nat, j: nat) {
    id.ft in index && (index[id.ft] < i || (index[id.ft] == i && id.block < j))
  }

  lemma ScanStart(index: map<FileTag, nat>)
    ensures forall id :: !Scanned(index, id, 0, 0)
  {
  }

  lemma ScanStep(entries: seq<FileTagEntry>, pages: map<BlockId, PtEntry>, index: map<FileTag, nat>, i: nat, j: nat)
    requires Tied(entries, pages, index) && i < |entries| && j < |entries[i].table|
    ensures BlockId(entries[i].ft, j) in pages && pages[BlockId(entries[i].ft, j)] == entries[i].table[j]
    ensures forall id :: Scanned(index, id, i, j + 1) <==> Scanned(index, id, i, j) || id == BlockId(entries[i].ft, j)
  {
    var ft := entries[i].ft;
    assert ft in index && index[ft] == i;
    forall id: BlockId
      ensures Scanned(index, id, i, j + 1) <==> Scanned(index, id, i, j) || id == BlockId(ft, j)
    {
      if id.ft in index && index[id.ft] == i && id.block == j {
        assert entries[index[id.ft]].ft == id.ft;
        assert id == BlockId(ft, j);
      }
    }
  }

  lemma ScanRow(entries: seq<FileTagEntry>, pages: map<BlockId, PtEntry>, index: map<FileTag, nat>, i: nat)
    requires Tied(entries, pages, index) && i < |entries|
    ensures forall id :: id in pages ==> (Scanned(index, id, i + 1, 0) <==> Scanned(index, id, i, |entries[i].table|))
  {
  }

  lemma ScanEnd(entries: seq<FileTagEntry>, pages: map<BlockId, PtEntry>, index: map<FileTag, nat>)
    requires Tied(entries, pages, index)
    ensures forall id :: id in pages ==> Scanned(index, id, |entries|, 0)
  {
  }

  /** No page passed by the scan occupies the frame. */
  ghost predicate NobodyScanned(pages: map<BlockId, PtEntry>, index: map<FileTag, nat>, frame: nat, i: nat, j: nat) {
    forall id :: id in pages && Scanned(index, id, i, j) ==> !(pages[id].present && pages[id].frame == frame)
  }

  /** The LRU scan's best page so far: none while no page passed was present. */
  ghost predicate LruSoFar(pages: map<BlockId, PtEntry>, index: map<FileTag, nat>, best: Option<BlockId>, i: nat, j: nat) {
    && (best.Some? ==> best.value in pages && pages[best.value].present)
    && forall id :: id in pages && Scanned(index, id, i, j) && pages[id].present ==>
                      best.Some? && pages[best.value].lastAccess <= pages[id].lastAccess
  }

  class MemoryManager {
    const pageSize: nat
    const policy: Policy
    const memory: PhysicalMemory
    const storage: BlockStore
    var entries: seq<FileTagEntry>
    var used: seq<bool>
    var clockPointer: nat
    var globalTimestamp: nat
    var connected: bool

    // Specification only: all entries keyed by page, the position of each table, all accesses, and how many
    // there were when CLOCK-M last cleared the use bits.
    ghost var pages: map<BlockId, PtEntry>
    ghost var index: map<FileTag, nat>
    ghost var history: seq<BlockId>
    ghost var clearedAt: nat

    ghost predicate Valid()
      reads this, memory, memory.data
    {
      && memory.Valid() && memory.pageSize == pageSize
      && |used| == memory.frameCount
      && (policy.Lru? ==> globalTimestamp == |history|)
      && Tied(entries, pages, index)
    }

    ghost function State(): MmState
      reads this, memory, storage
    {
      MmState(pageSize, policy, pages, used, memory.frames, clockPointer, history, clearedAt, storage.blocks)
    }

    constructor (memorySize: nat, size: nat, replacement: Policy, store: BlockStore)
      requires 0 < memorySize && 0 < size
      ensures Valid() && fresh(memory) && fresh(memory.data) && entries == [] && !connected
      ensures pageSize == size && policy == replacement && storage == store
      ensures |used| == memorySize / size && Inv(State()) && TimesOk(State()) && NoLeakedFrame(State())
    {
      pageSize := size;
      policy := replacement;
      var m := new PhysicalMemory(memorySize, size);
      memory := m;
      storage := store;
      entries := [];
      used := seq(m.frameCount, _ => false);
      clockPointer, globalTimestamp, connected := 0, 0, false;
      pages, index, history, clearedAt := map[], map[], [], 0;
    }

    /** The position of the page table of `ft`, or `|entries|`. */
    method FindPageTable(ft: FileTag) returns (i: nat)
      requires Valid()
      ensures i == if ft in index then index[ft] else |entries|
    {
      i := 0;
      while i < |entries|
        invariant i <= |entries|
        invariant forall k :: 0 <= k < i ==> entries[k].ft != ft
      {
        if entries[i].ft == ft {
          return;
        }
        i := i + 1;
      }
    }

    /** The page that occupies a frame, found by scanning every page table. */
    method FindPageForFrame(frame: nat) returns (found: bool, i: nat, j: nat)
      requires Valid()
      ensures found ==> i < |entries| && j < |entries[i].table| && Owns(State(), BlockId(entries[i].ft, j), frame)
      ensures found ==> pages[BlockId(entries[i].ft, j)] == entries[i].table[j]
      ensures !found ==> NobodyIn(pages, frame)
    {
      hide Tied;
      ScanStart(index);
      i, j := 0, 0;
      while i < |entries|
        invariant i <= |entries|
        invariant NobodyScanned(pages, index, frame, i, 0)
      {
        j := 0;
        while j < |entries[i].table|
          invariant j <= |entries[i].table|
          invariant NobodyScanned(pages, index, frame, i, j)
        {
          ScanStep(entries, pages, index, i, j);
          var page := entries[i].table[j];
          if page.present && page.frame == frame {
            return true, i, j;
          }
          j := j + 1;
        }
        ScanRow(entries, pages, index, i);
        i := i + 1;
      }
      ScanEnd(entries, pages, index);
      found := false;
    }

    /** pt->entries[j] = e, in the table of entries[i]. */
    method SetEntry(i: nat, j: nat, e: PtEntry)
      requires Valid() && i < |entries| && j < |entries[i].table|
      modifies `entries, `pages
      ensures Valid()
      ensures pages == old(pages)[BlockId(old(entries)[i].ft, j) := e]
      ensures entries == old(entries)[i := old(entries)[i].(table := old(entries)[i].table[j := e])]
    {
      TiedUpdate(entries, pages, index, i, j, e);
      pages := pages[BlockId(entries[i].ft, j) := e];
      entries := entries[i := entries[i].(table := entries[i].table[j := e])];
    }

    /** mm_update_page_access: a fresh timestamp under LRU, the use bit under CLOCK-M. */
    method UpdatePageAccess(i: nat, page: nat)
      requires Valid() && i < |entries|
      modifies `entries, `pages, `globalTimestamp, `history
      ensures Valid() && |entries| == |old(entries)|
      ensures var id := BlockId(old(entries)[i].ft, page);
              State() == if id in old(pages) then Touch(old(State()), id) else old(State())
    {
      hide Tied;
      ghost var id := BlockId(entries[i].ft, page);
      TiedIndex(entries, pages, index, i);
      TiedAt(entries, pages, index, i, id);
      if page >= |entries[i].table| {
        return;
      }
      var e := entries[i].table[page];
      history := history + [id];
      if policy.Lru? {
        globalTimestamp := globalTimestamp + 1;
        SetEntry(i, page, e.(lastAccess := globalTimestamp));
      } else {
        SetEntry(i, page, e.(useBit := true));
      }
    }

    /** The LRU scan over every page table, then the write-back and unmapping of the page it settles on.
        -1 when no page is present or the write-back fails. */
    method FindLruVictim() returns (frame: int, ghost victim: Option<BlockId>)
      requires Valid() && Inv(State())
      modifies `entries, `pages, `used, storage
      ensures Valid()
      ensures victim == None ==> frame == -1 && State() == old(State()) && forall id :: !Present(old(State()), id)
      ensures storage.failures == old(storage.failures) + if victim.Some? && frame == -1 then 1 else 0
      ensures victim.Some? ==> SmallestTime(old(State()), victim.value)
      ensures victim.Some? ==> old(pages)[victim.value].frame < |used|
      ensures victim.Some? ==> SearchOutcome(old(State()), State(), victim.value, frame)
    {
      var victimFrame, victimTable, victimPage, oldest := ScanForLru();
      if victimFrame == -1 {
        return -1, None;
      }
      victim := Some(BlockId(entries[victimTable].ft, victimPage));
      assert PageOk(State(), victim.value);
      frame := EvictPage(victimTable, victimPage);
    }

    method ScanForLru() returns (victimFrame: int, victimTable: nat, victimPage: nat, oldest: nat)
      requires Valid()
      ensures victimFrame == -1 ==> forall id :: !Present(State(), id)
      ensures victimFrame != -1 ==> victimTable < |entries| && victimPage < |entries[victimTable].table|
      ensures victimFrame != -1 ==> SmallestTime(State(), BlockId(entries[victimTable].ft, victimPage))
      ensures victimFrame != -1 ==> entries[victimTable].table[victimPage].present
    {
      hide Tied;
      victimFrame, victimTable, victimPage, oldest := -1, 0, 0, 0;
      ghost var best := None;
      ScanStart(index);
      var i := 0;
      while i < |entries|
        invariant i <= |entries|
        invariant victimFrame == -1 <==> best == None
        invariant best.Some? ==> Candidate(best.value, victimTable, victimPage, oldest)
        invariant LruSoFar(pages, index, best, i, 0)
      {
        var j := 0;
        while j < |entries[i].table|
          invariant j <= |entries[i].table|
          invariant victimFrame == -1 <==> best == None
          invariant best.Some? ==> Candidate(best.value, victimTable, victimPage, oldest)
          invariant LruSoFar(pages, index, best, i, j)
        {
          ScanStep(entries, pages, index, i, j);
          var page := entries[i].table[j];
          if page.present && (victimFrame == -1 || page.lastAccess < oldest) {
            victimFrame, victimTable, victimPage, oldest := page.frame, i, j, page.lastAccess;
            best := Some(BlockId(entries[i].ft, j));
          }
          j := j + 1;
        }
        ScanRow(entries, pages, index, i);
        i := i + 1;
      }
      ScanEnd(entries, pages, index);
    }

    ghost predicate Candidate(id: BlockId, i: nat, j: nat, oldest: nat)
      reads this
    {
      && i < |entries| && j < |entries[i].table| && id == BlockId(entries[i].ft, j)
      && entries[i].table[j].present
      && id in pages && pages[id].lastAccess == oldest
    }

    /** The end of both searches: a dirty page is written to Storage, and unless that fails it is unmapped. */
    method EvictPage(i: nat, j: nat) returns (frame: int)
      requires Valid() && i < |entries| && j < |entries[i].table| && entries[i].table[j].frame < |used|
      modifies `entries, `pages, `used, storage
      ensures Valid()
      ensures storage.failures == old(storage.failures) + if frame == -1 then 1 else 0
      ensures SearchOutcome(old(State()), State(), BlockId(old(entries)[i].ft, j), frame)
    {
      hide Tied;
      var page := entries[i].table[j];
      var id := BlockId(entries[i].ft, j);
      TiedIndex(entries, pages, index, i);
      TiedAt(entries, pages, index, i, id);
      if page.dirty {
        var bytes := memory.FrameBytes(page.frame);
        var written := storage.WriteBlock(id, bytes);
        if !written {
          return -1;
        }
      }
      SetEntry(i, j, PageTables.UnmapEntry(page));
      used := used[page.frame := false];
      frame := page.frame;
    }

    /** CLOCK-M, first pass: one turn of the hand, looking for a page neither used nor modified. */
    method CleanPass() returns (found: bool, i: nat, j: nat)
      requires Valid() && Inv(State()) && clockPointer < |used|
      modifies `clockPointer
      ensures Valid()
      ensures !found ==> clockPointer == old(clockPointer) && forall x :: Present(State(), x) ==> Class(pages[x]) != 0
      ensures found ==> i < |entries| && j < |entries[i].table| && clockPointer < |used|
      ensures found ==> Owns(State(), BlockId(entries[i].ft, j), clockPointer) && Class(entries[i].table[j]) == 0
      ensures found ==> BlockId(entries[i].ft, j) in pages && pages[BlockId(entries[i].ft, j)] == entries[i].table[j]
      ensures found ==> FirstOfClass(old(State()), BlockId(entries[i].ft, j), 0)
    {
      hide Inv, Tied, NoneOfClass, FirstOfClass;
      ghost var s := State();
      var n := |used|;
      NothingPassed(s, 0);
      for k := 0 to n
        invariant clockPointer == if k < n then FrameAt(s.hand, k, n) else s.hand
        invariant NoneOfClass(s, 0, k)
      {
        var idx := clockPointer;
        ghost var owner := None;
        if used[idx] {
          found, i, j := FindPageForFrame(idx);
          if found {
            owner := Some(BlockId(entries[i].ft, j));
            var page := entries[i].table[j];
            if !page.useBit && !page.dirty {
              FirstFound(s, 0, k, owner.value);
              return;
            }
          }
        }
        NextFrame(s, k);
        NoneOfClassStep(s, 0, k, owner);
        clockPointer := (idx + 1) % n;
      }
      found, i, j := false, 0, 0;
      NoneOfClassAll(s, 0);
    }

    /** The body of the second pass for the frame under the hand: whose page is there, its entry as
        found, and its use bit cleared. */
    method PassFrame(idx: nat) returns (mapped: bool, i: nat, j: nat, page: PtEntry, ghost owner: Option<BlockId>)
      requires Valid() && idx < |used|
      modifies `entries, `pages
      ensures Valid() && |entries| == |old(entries)|
      ensures OwnerIs(old(State()), idx, owner)
      ensures mapped == owner.Some?
      ensures mapped ==> i < |entries| && j < |entries[i].table| && owner == Some(BlockId(entries[i].ft, j))
      ensures mapped ==> page == old(pages)[owner.value]
      ensures State() == old(State()).(pages := ClearUse(old(pages), owner))
      ensures forall k :: 0 <= k < |entries| ==> entries[k].ft == old(entries)[k].ft && |entries[k].table| == |old(entries)[k].table|
    {
      mapped, i, j, page, owner := false, 0, 0, BlankEntry(0), None;
      if !used[idx] {
        return;
      }
      mapped, i, j := FindPageForFrame(idx);
      if mapped {
        owner := Some(BlockId(entries[i].ft, j));
        page := entries[i].table[j];
        if page.useBit {
          SetEntry(i, j, page.(useBit := false));
        }
      }
    }

    /** CLOCK-M, second pass: one turn of the hand that clears use bits and remembers the first page
        that was modified but not used. */
    method DirtyPass() returns (found: bool, i: nat, j: nat)
      requires Valid() && Inv(State()) && clockPointer < |used|
      modifies `clockPointer, `entries, `pages, `clearedAt
      ensures Valid() && |entries| == |old(entries)|
      ensures State() == Cleared(old(State()))
      ensures !found ==> NoneOfClass(old(State()), 1, |used|)
      ensures found ==> i < |entries| && j < |entries[i].table|
      ensures found ==> BlockId(entries[i].ft, j) in pages && pages[BlockId(entries[i].ft, j)] == entries[i].table[j]
      ensures found ==> FirstOfClass(old(State()), BlockId(entries[i].ft, j), 1)
    {
      hide Inv, Tied, UseBitsCleared, NoneOfClass, FirstOfClass, ClearUse;
      ghost var s := State();
      var n := |used|;
      found, i, j := false, 0, 0;
      NothingPassed(s, 1);
      for k := 0 to n
        invariant Valid() && |entries| == |old(entries)|
        invariant clockPointer == if k < n then FrameAt(s.hand, k, n) else s.hand
        invariant State() == UseBitsCleared(s, k).(hand := clockPointer)
        invariant !found ==> NoneOfClass(s, 1, k)
        invariant found ==> i < |entries| && j < |entries[i].table| && FirstOfClass(s, BlockId(entries[i].ft, j), 1)
      {
        var idx := clockPointer;
        ghost var before := State();
        var mapped, pi, pj, page, owner := PassFrame(idx);
        OwnerIsUncleared(s, k, idx, owner, before);
        UseBitsClearedStep(s, k, owner);
        NextFrame(s, k);
        if !found {
          if mapped && !page.useBit && page.dirty {
            found, i, j := true, pi, pj;
            FirstFound(s, 1, k, owner.value);
          } else {
            NoneOfClassStep(s, 1, k, owner);
          }
        }
        clockPointer := (idx + 1) % n;
      }
      if exists id :: Present(s, id) {
        clearedAt := |history|;
      }
      if found {
        ScanStep(entries, pages, index, i, j);
      }
    }

    /** The victim leaves its frame and the hand moves just past it. */
    method TakeVictim(i: nat, j: nat, ghost s: MmState, ghost cur: MmState) returns (frame: int)
      requires Valid() && i < |entries| && j < |entries[i].table| && clockPointer < |used|
      requires BlockId(entries[i].ft, j) in pages && pages[BlockId(entries[i].ft, j)] == entries[i].table[j]
      requires Inv(s) && s.hand < |s.frames| && ClockVictim(s, BlockId(entries[i].ft, j)) && State() == cur.(hand := clockPointer)
      requires cur == if Class(s.pages[BlockId(entries[i].ft, j)]) == 0 then s else Cleared(s)
      requires s.pages[BlockId(entries[i].ft, j)].dirty ==> clockPointer == s.hand
      modifies `clockPointer, `entries, `pages, `used, storage
      ensures Valid() && ClockOutcome(s, State(), BlockId(old(entries)[i].ft, j), frame)
      ensures storage.failures == old(storage.failures) + if frame == -1 then 1 else 0
    {
      hide Inv, Tied, Cleared, ClockEvict;
      ghost var id := BlockId(entries[i].ft, j);
      ExitEffect(s, cur, id);
      frame := EvictPage(i, j);
      if frame != -1 {
        clockPointer := (frame + 1) % |used|;
      }
    }

    /** One round of CLOCK-M: a page neither used nor modified, else the first one only modified. */
    method ClockRound(ghost s: MmState) returns (found: bool, frame: int, ghost victim: BlockId)
      requires Valid() && clockPointer < |used|
      requires Inv(s) && s.hand < |s.frames| && RoundStart(s, State())
      modifies `clockPointer, `entries, `pages, `used, `clearedAt, storage
      ensures Valid()
      ensures storage.failures == old(storage.failures) + if found && frame == -1 then 1 else 0
      ensures found ==> ClockOutcome(s, State(), victim, frame)
      ensures !found ==> State() == Cleared(s) && RoundStart(s, State())
      ensures !found && (exists id :: Present(s, id)) ==> old(State()) == s != Cleared(s)
    {
      hide Inv, Tied, Cleared, NoneOfClass, FirstOfClass, ClockVictim, ClockOutcome, RoundStart;
      ghost var cur := State();
      RoundStartKeeps(s, cur);
      var i, j;
      found, i, j := CleanPass();
      if found {
        victim := BlockId(entries[i].ft, j);
        CleanExit(s, cur, victim);
        frame := TakeVictim(i, j, s, cur);
        return;
      }
      found, i, j := DirtyPass();
      if found {
        victim := BlockId(entries[i].ft, j);
        DirtyExit(s, cur, victim);
        frame := TakeVictim(i, j, s, Cleared(s));
        return;
      }
      RoundFails(s, cur);
      victim, frame := BlockId(FileTag("", ""), 0), -1;
    }

    /** CLOCK-M. The source goes round until a pass finds a page. `ended` is false when it never does: two
        rounds that find nothing leave the state as it was, and so would all others. */
    method FindClockMVictim() returns (frame: int, ended: bool, ghost victim: Option<BlockId>)
      requires Valid() && Inv(State())
      modifies `clockPointer, `entries, `pages, `used, `clearedAt, storage
      ensures Valid()
      ensures storage.failures == old(storage.failures) + if victim.Some? && frame == -1 then 1 else 0
      ensures ended <==> policy.Lru? || |old(used)| == 0 || exists id :: Present(old(State()), id)
      ensures victim == None <==> policy.Lru? || |old(used)| == 0 || !ended
      ensures victim == None ==> frame == -1 && State() == old(State())
      ensures victim.Some? ==> ClockOutcome(old(State()), State(), victim.value, frame)
    {
      if policy.Lru? || |used| == 0 {
        return -1, true, None;
      }
      ghost var s := State();
      for round := 0 to 2
        invariant Valid() && State() == if round == 0 then s else Cleared(s)
        invariant RoundStart(s, State()) && clockPointer < |used| && storage.failures == old(storage.failures)
        invariant (exists id :: Present(s, id)) ==> round <= 1 && (round == 1 ==> Cleared(s) != s)
      {
        hide Inv, Tied, Cleared, RoundStart, ClockOutcome;
        var found, f, v := ClockRound(s);
        if found {
          VictimIsPresent(s, State(), v, f);
          return f, true, Some(v);
        }
      }
      EmptyRound(s);
      return -1, false, None;
    }

    /** The first free frame if there is one, else the frame of the policy's victim; -1 exactly when neither is
        to be had or the victim's write-back failed. `ended` is false when the source would look for a victim
        for ever. */
    method AllocateFrame() returns (frame: int, ended: bool, ghost victim: Option<BlockId>)
      requires Valid() && Inv(State())
      modifies `clockPointer, `entries, `pages, `used, `clearedAt, storage
      ensures Valid()
      ensures ended <==> policy.Lru? || CanReplace(old(State()))
      ensures frame == -1 || (0 <= frame && ended)
      ensures storage.failures >= old(storage.failures)
      ensures frame != -1 <==> HasFrame(old(State())) && storage.failures == old(storage.failures)
      ensures frame != -1 ==> Reserved(old(State()), State(), frame) && Placed(old(State()), State(), frame, victim)
      ensures frame == -1 ==> Transparent(old(State()), State()) && history == old(history) && victim == None
      ensures frame == -1 ==> forall x :: Present(State(), x) <==> Present(old(State()), x)
    {
      ghost var s := State();
      for i := 0 to |used|
        invariant forall k :: 0 <= k < i ==> used[k]
      {
        if !used[i] {
          used := used[i := true];
          ReserveFree(s, i);
          return i, true, None;
        }
      }
      frame, ended, victim := ReplacePage();
    }

    /** All frames are used: the policy's victim gives up its frame. */
    method ReplacePage() returns (frame: int, ended: bool, ghost victim: Option<BlockId>)
      requires Valid() && Inv(State()) && AllUsed(State())
      modifies `clockPointer, `entries, `pages, `used, `clearedAt, storage
      ensures Valid()
      ensures ended <==> policy.Lru? || CanReplace(old(State()))
      ensures frame == -1 || (0 <= frame && ended)
      ensures storage.failures >= old(storage.failures)
      ensures frame != -1 <==> HasFrame(old(State())) && storage.failures == old(storage.failures)
      ensures frame != -1 ==> Reserved(old(State()), State(), frame) && Placed(old(State()), State(), frame, victim)
      ensures frame == -1 ==> Transparent(old(State()), State()) && history == old(history) && victim == None
      ensures frame == -1 ==> forall x :: Present(State(), x) <==> Present(old(State()), x)
    {
      hide Tied, Inv, Reserved, Transparent, SmallestTime, ClockVictim, Placed, SearchOutcome, ClockOutcome, AllUsed, CanReplace;
      ghost var s := State();
      TransparentRefl(s);
      FullFrames(s);
      if policy.Lru? {
        ended := true;
        frame, victim := FindLruVictim();
        if victim.Some? {
          LruReservation(s, State(), victim.value, frame);
          if frame != -1 {
            LruPlaced(s, State(), victim.value, frame);
          }
        }
      } else {
        frame, ended, victim := FindClockMVictim();
        if victim.Some? {
          ClockReservation(s, State(), victim.value, frame);
          if frame != -1 {
            ClockPlaced(s, State(), victim.value, frame);
          }
        }
      }
      if frame != -1 {
        used := used[frame := true];
      } else {
        victim := None;
      }
    }

    /** pt_resize of the table of entries[i]. */
    method ResizeTable(i: nat, newPageCount: nat) returns (ok: bool)
      requires Valid() && i < |entries|
      modifies `entries, `pages
      ensures Valid() && |entries| == |old(entries)| && entries[i].ft == old(entries)[i].ft
      ensures ok <==> newPageCount != 0
      ensures !ok ==> entries == old(entries) && pages == old(pages)
      ensures ok ==> |entries[i].table| == newPageCount
      ensures ok ==> pages == ResizedPages(old(pages), old(entries)[i].ft, |old(entries)[i].table|, newPageCount)
    {
      hide Tied;
      var table;
      ok, table := PageTables.Resize(entries[i].table, newPageCount);
      if ok {
        TiedResize(entries, pages, index, i, table);
        pages := ResizedPages(pages, entries[i].ft, |entries[i].table|, newPageCount);
        entries := entries[i := entries[i].(table := table)];
      }
    }

    /** The table of entries[i] reaches up to `page`, with blank entries where it was too short. */
    method GrowTo(i: nat, page: nat)
      requires Valid() && Inv(State()) && i < |entries|
      modifies `entries, `pages
      ensures Valid() && i < |entries| && page < |entries[i].table| && entries[i].ft == old(entries)[i].ft
      ensures Transparent(old(State()), State()) && Grown(old(State()), State())
    {
      hide Tied, Inv, Transparent, ResizedPages;
      ghost var s := State();
      TransparentRefl(s);
      GrownRefl(s);
      if page >= |entries[i].table| {
        GrowthAddsBlanks(entries, pages, index, i, page + 1);
        var ok := ResizeTable(i, page + 1);
        GrowKeeps(s, State());
        TransparentKeeps(s, State());
      }
    }

    method FreeFrame(frame: nat) returns (result: int)
      requires Valid()
      modifies `used
      ensures Valid()
      ensures result == if frame < |used| then 0 else -1
      ensures used == if frame < |old(used)| then old(used)[frame := false] else old(used)
    {
      if frame >= |used| {
        return -1;
      }
      used := used[frame := false];
      result := 0;
    }

    /** The block is copied into the frame, padded with zeros; a block that does not exist reads as zeros. */
    method ReadInto(id: BlockId, frame: nat) returns (ok: bool)
      requires memory.Valid() && memory.pageSize == pageSize && frame < memory.frameCount
      modifies memory, memory.data, storage`failures
      ensures memory.Valid()
      ensures storage.failures == old(storage.failures) + if ok then 0 else 1
      ensures memory.frames == if ok then old(memory.frames)[frame := StoragePage(old(State()), id)] else old(memory.frames)
    {
      var r := storage.ReadBlock(id);
      match r {
        case ReadOk(data) =>
          memory.FillFrame(frame, data);
        case ReadMissing =>
          memory.FillFrame(frame, []);
          assert Fit([], pageSize) == Zeros(pageSize);
        case ReadFailed =>
          return false;
      }
      ok := true;
    }

    /** The second half of a page fault: the block fills the reserved frame, or the frame is given back. */
    method LoadBlock(i: nat, page: nat, frame: nat) returns (result: int)
      requires Valid() && i < |entries| && page < |entries[i].table| && frame < |used|
      requires BlockId(entries[i].ft, page) in pages
      modifies `entries, `pages, `used, `globalTimestamp, `history, memory, memory.data, storage`failures
      ensures Valid()
      ensures result == 0 || result == -1
      ensures storage.failures == old(storage.failures) + if result == 0 then 0 else 1
      ensures result == 0 ==> var id := BlockId(old(entries)[i].ft, page);
                              State() == Touch(LoadPage(old(State()), id, frame, StoragePage(old(State()), id)), id)
      ensures result == -1 ==> State() == old(State()).(used := old(used)[frame := false])
    {
      hide Tied, StoragePage;
      ghost var s := State();
      var id := BlockId(entries[i].ft, page);
      TiedIndex(entries, pages, index, i);
      TiedAt(entries, pages, index, i, id);
      var loaded := ReadInto(id, frame);
      if !loaded {
        var _ := FreeFrame(frame);
        return -1;
      }
      SetEntry(i, page, PageTables.MapEntry(entries[i].table[page], frame));
      UpdatePageAccess(i, page);
      result := 0;
    }

    /** mm_handle_page_fault: a frame is obtained, the block read from Storage into it and the page mapped.
        Whatever fails on the way, nothing observable changes. 0 exactly when Storage is connected, a frame can
        be had and every request to Storage succeeds. */
    method HandlePageFault(i: nat, page: nat) returns (result: int, ended: bool, ghost victim: Option<BlockId>)
      requires Valid() && Inv(State()) && i < |entries|
      requires !Present(State(), BlockId(entries[i].ft, page))
      modifies `clockPointer, `entries, `pages, `used, `globalTimestamp, `history, `clearedAt, memory, memory.data, storage
      ensures Valid() && i < |entries| && entries[i].ft == old(entries)[i].ft
      ensures ended <==> !old(connected) || policy.Lru? || CanReplace(old(State()))
      ensures (result == 0 && ended) || result == -1
      ensures Transparent(old(State()), State())
      ensures result == 0 ==> Present(State(), BlockId(entries[i].ft, page))
      ensures storage.failures >= old(storage.failures)
      ensures !old(connected) ==> storage.failures == old(storage.failures) && victim == None && clearedAt == old(clearedAt)
      ensures result == 0 <==> old(connected) && HasFrame(old(State())) && storage.failures == old(storage.failures)
      ensures FaultEffect(old(State()), State(), BlockId(entries[i].ft, page), result, victim)
    {
      hide Inv, Tied, Transparent, Reserved, CanReplace, HasFrame, Placed, FaultEffect, Grown;
      ghost var s0 := State();
      ghost var id := BlockId(entries[i].ft, page);
      TiedIndex(entries, pages, index, i);
      GrowTo(i, page);
      ghost var s := State();
      TransparentKeeps(s0, s);
      GrownPresent(s0, s);
      TiedAt(entries, pages, index, i, id);
      if !connected {
        FaultRefused(s0, s, s, id);
        return -1, true, None;
      }
      var frame;
      frame, ended, victim := AllocateFrame();
      ghost var t := State();
      TiedAt(entries, pages, index, i, id);
      if frame == -1 {
        TransparentTrans(s0, s, t);
        FaultRefused(s0, s, t, id);
        return -1, ended, None;
      }
      ReservedKeeps(s, t, frame);
      result := LoadBlock(i, page, frame);
      FaultDecided(s0, s, t, State(), id, frame, victim, result);
      TiedAt(entries, pages, index, i, id);
      if result == 0 {
        FaultServed(s, t, id, frame);
      } else {
        FaultAborted(s, t, frame);
      }
      TransparentTrans(s0, s, State());
    }

    /** One page's share of an access: the page is brought in, its access recorded, and the bytes copied. A page
        that is present is accessed whatever Storage does. */
    method AccessPage(i: nat, page: nat, offset: nat, buffer: array<Byte>, at: nat, n: nat, write: bool) returns (result: int, ended: bool)
      requires Valid() && Inv(State()) && i < |entries|
      requires offset + n <= pageSize && at + n <= buffer.Length && buffer != memory.data
      modifies `clockPointer, `entries, `pages, `used, `globalTimestamp, `history, `clearedAt, memory, memory.data, storage, buffer
      ensures Valid() && i < |entries| && entries[i].ft == old(entries)[i].ft
      ensures ended <==> !old(connected) || policy.Lru? || CanReplace(old(State()))
      ensures (result == 0 && ended) || result == -1
      ensures result == -1 || write ==> buffer[..] == old(buffer[..])
      ensures result == -1 || !write ==> Transparent(old(State()), State())
      ensures result == 0 && !write ==> PageRead(old(State()), BlockId(entries[i].ft, page), offset, n, old(buffer[..]), at, buffer[..])
      ensures result == 0 && write ==> PageWritten(old(State()), State(), BlockId(entries[i].ft, page), offset, buffer[at..at + n])
      ensures PageResult(old(State()), BlockId(entries[i].ft, page), result, old(connected), storage.failures - old(storage.failures))
      ensures PageEffect(old(State()), State(), BlockId(entries[i].ft, page), result, old(connected))
    {
      hide Inv, Tied, Transparent, CanReplace, Sound, PageRead, PageWritten, View, Grown, FaultEffect, PageEffect, HasFrame;
      ghost var s0 := State();
      ghost var id := BlockId(entries[i].ft, page);
      TiedIndex(entries, pages, index, i);
      GrowTo(i, page);
      TransparentKeeps(s0, State());
      GrownPresent(s0, State());
      TiedAt(entries, pages, index, i, id);
      ghost var s := State();
      TransparentRefl(s);
      ghost var t := s;
      ghost var victim := None;
      if !entries[i].table[page].present {
        result, ended, victim := HandlePageFault(i, page);
        t := State();
        TransparentKeeps(s, t);
        if result != 0 {
          TransparentTrans(s0, s, t);
          MissEffect(s0, s, t, t, id, -1, victim, connected);
          return -1, ended;
        }
      } else {
        ended := true;
        PresentCanReplace(s, id);
      }
      TransparentTrans(s0, s, State());
      TiedAt(entries, pages, index, i, id);
      result := CopyBytes(i, page, offset, buffer, at, n, write, s0);
      if Present(s, id) {
        HitEffect(s0, s, State(), id, connected);
      } else {
        MissEffect(s0, s, t, State(), id, 0, victim, connected);
      }
    }

    /** The page is present: its access is recorded and the bytes copied. */
    method CopyBytes(i: nat, page: nat, offset: nat, buffer: array<Byte>, at: nat, n: nat, write: bool, ghost s0: MmState) returns (result: int)
      requires Valid() && Inv(State()) && i < |entries| && page < |entries[i].table|
      requires Present(State(), BlockId(entries[i].ft, page)) && Transparent(s0, State())
      requires offset + n <= pageSize && at + n <= buffer.Length && buffer != memory.data
      modifies `entries, `pages, `globalTimestamp, `history, memory, memory.data, buffer
      ensures Valid() && i < |entries| && entries[i].ft == old(entries)[i].ft
      ensures result == 0
      ensures history == old(history) + [BlockId(entries[i].ft, page)]
      ensures forall x :: Present(State(), x) <==> Present(old(State()), x)
      ensures write ==> buffer[..] == old(buffer[..])
      ensures !write ==> Transparent(s0, State())
      ensures !write ==> PageRead(s0, BlockId(entries[i].ft, page), offset, n, old(buffer[..]), at, buffer[..])
      ensures write ==> PageWritten(s0, State(), BlockId(entries[i].ft, page), offset, buffer[at..at + n])
    {
      hide Inv, Tied, Transparent, Sound, PageRead, PageWritten, View;
      ghost var s := State();
      ghost var id := BlockId(entries[i].ft, page);
      TiedIndex(entries, pages, index, i);
      TouchKeeps(s, id);
      TransparentKeeps(s, Touch(s, id));
      UpdatePageAccess(i, page);
      TransparentTrans(s0, s, State());
      TiedAt(entries, pages, index, i, id);
      ghost var t := State();
      var frame := entries[i].table[page].frame;
      FrameOfPresent(t, id);
      if write {
        memory.WriteBytes(frame, offset, buffer, at, n);
        SetEntry(i, page, entries[i].table[page].(dirty := true));
        WriteIsStore(s0, t, id, offset, buffer[at..at + n]);
      } else {
        memory.ReadBytes(frame, offset, buffer, at, n);
        ReadIsView(s0, t, id, offset, n, old(buffer[..]), at, buffer[..]);
      }
      TiedAt(entries, pages, index, i, id);
      result := 0;
    }

    /** mm_access_memory: the access page by page. `done` counts the bytes that were transferred: all of
        them when the result is 0, and after a failure exactly those of the pages before it. An access to pages
        that are all present always succeeds; any other one exactly when Storage is connected, a frame can be
        had and no request to Storage fails. */
    method AccessMemory(i: nat, base: nat, buffer: array<Byte>, size: nat, write: bool) returns (result: int, ended: bool, ghost done: nat)
      requires Valid() && Inv(State()) && i < |entries|
      requires size <= buffer.Length && buffer != memory.data
      modifies `clockPointer, `entries, `pages, `used, `globalTimestamp, `history, `clearedAt, memory, memory.data, storage, buffer
      ensures Valid() && i < |entries| && entries[i].ft == old(entries)[i].ft
      ensures AccessDecided(old(State()), State(), old(entries)[i].ft, base, size, result, old(connected), storage.failures - old(storage.failures))
      ensures ended <==> size == 0 || !old(connected) || policy.Lru? || CanReplace(old(State()))
      ensures (result == 0 && ended) || result == -1
      ensures done <= size && (result == 0 ==> 0 < size == done)
      ensures Accessed(old(State()), State(), entries[i].ft, base, done, old(buffer[..]), buffer[..], write)
    {
      hide Inv, Tied, CanReplace, PageRead, PageWritten, Transparent, Accessed, PageEffect, AccessDecided, DecidedSoFar, HasFrame;
      ghost var s := State();
      ghost var ft := entries[i].ft;
      InvShape(s);
      AccessedNothing(s, ft, base, buffer[..], write);
      NothingDecided(s, ft, base, connected);
      done, ended := 0, true;
      if size == 0 {
        return -1, true, 0;
      }
      var currentPage: nat := base / pageSize;
      var offset: nat := base % pageSize;
      var remaining: nat := size;
      var ptr: nat := 0;
      assert currentPage * pageSize + offset == base;
      while remaining > 0
        invariant Valid() && i < |entries| && entries[i].ft == ft
        invariant ptr == done <= size && remaining == size - ptr && offset < pageSize
        invariant remaining > 0 ==> currentPage * pageSize + offset == base + ptr
        invariant Accessed(s, State(), ft, base, ptr, old(buffer[..]), buffer[..], write)
        invariant DecidedSoFar(s, State(), ft, base, ptr, connected) && storage.failures == old(storage.failures)
        invariant ptr > 0 ==> ended && (connected && policy.ClockM? ==> CanReplace(s))
        invariant ptr == 0 ==> State() == s
      {
        ghost var t := State();
        ghost var before := buffer[..];
        AccessedKeeps(s, t, ft, base, ptr, old(buffer[..]), before, write);
        var bytesToCopy := pageSize - offset;
        if bytesToCopy > remaining {
          bytesToCopy := remaining;
        }
        result, ended := AccessPage(i, currentPage, offset, buffer, ptr, bytesToCopy, write);
        PageDecided(s, t, State(), ft, base, ptr, size, currentPage, offset, bytesToCopy, result, connected, storage.failures - old(storage.failures));
        if result != 0 {
          FailedAccess(s, t, State(), ft, base, ptr, old(buffer[..]), before, write);
          return -1, ended, ptr;
        }
        assert buffer[ptr..ptr + bytesToCopy] == buffer[..][ptr..ptr + bytesToCopy];
        NextPage(currentPage, pageSize, offset, bytesToCopy);
        AccessedMore(s, t, State(), ft, base, ptr, old(buffer[..]), before, buffer[..], write, currentPage, offset, bytesToCopy,
                     !Present(t, BlockId(ft, currentPage)));
        ptr := ptr + bytesToCopy;
        done := ptr;
        remaining := remaining - bytesToCopy;
        currentPage := currentPage + 1;
        offset := 0;
      }
      result := 0;
      AllDecided(s, State(), ft, base, size, connected);
    }

    /** mm_create_page_table: the table of `ft`, created with one blank page when there is none. */
    method CreatePageTable(ft: FileTag) returns (i: nat)
      requires Valid() && Inv(State())
      modifies `entries, `pages, `index
      ensures Valid() && i < |entries| && entries[i].ft == ft
      ensures Transparent(old(State()), State()) && Grown(old(State()), State())
      ensures ft in old(index) ==> State() == old(State()) && index == old(index)
      ensures ft !in old(index) ==> pages == old(pages)[BlockId(ft, 0) := BlankEntry(0)]
    {
      hide Inv, Tied, Transparent;
      ghost var s := State();
      TransparentRefl(s);
      GrownRefl(s);
      i := FindPageTable(ft);
      TiedEntry(entries, pages, index, ft, i);
      if i < |entries| {
        return;
      }
      TiedAppend(entries, pages, index, ft);
      var table := PageTables.Create(1);
      assert table == [BlankEntry(0)];
      entries := entries + [FileTagEntry(ft, table)];
      pages, index := pages[BlockId(ft, 0) := BlankEntry(0)], index[ft := i];
      GrowKeeps(s, State());
      TransparentKeeps(s, State());
    }

    /** mm_remove_page_table: the table is dropped, with the writes not flushed yet; its frames stay used. */
    method RemovePageTable(ft: FileTag)
      requires Valid()
      modifies `entries, `pages, `index
      ensures Valid() && Dropped(old(State()), State())
      ensures forall id :: id in pages <==> id in old(pages) && id.ft != ft
    {
      hide Tied;
      var i := FindPageTable(ft);
      TiedEntry(entries, pages, index, ft, i);
      NoTableNoPages(entries, pages, index, ft);
      if i < |entries| {
        TiedRemove(entries, pages, index, i);
        var last := |entries| - 1;
        pages := map id | id in pages && id.ft != ft :: pages[id];
        index := map g | g in index && g != ft :: if index[g] == last then i else index[g];
        entries := entries[i := entries[last]];
        entries := entries[..last];
      }
    }

    /** mm_resize_page_table: -1 when there is no table or the new size is 0. */
    method ResizePageTable(ft: FileTag, newPageCount: nat) returns (result: int)
      requires Valid()
      modifies `entries, `pages
      ensures Valid()
      ensures result == if ft in index && newPageCount != 0 then 0 else -1
      ensures result == -1 ==> State() == old(State())
      ensures result == 0 ==> forall id :: id in pages <==> if id.ft == ft then id.block < newPageCount else id in old(pages)
      ensures result == 0 ==> forall id :: id in pages ==>
                                             pages[id] == if id in old(pages) then old(pages)[id] else BlankEntry(id.block)
    {
      hide Tied;
      var i := FindPageTable(ft);
      TiedEntry(entries, pages, index, ft, i);
      if i == |entries| {
        return -1;
      }
      forall id: BlockId | id.ft == ft
        ensures id in pages <==> id.block < |entries[i].table|
      {
        TiedAt(entries, pages, index, i, id);
      }
      ghost var was := |entries[i].table|;
      var ok := ResizeTable(i, newPageCount);
      result := if ok then 0 else -1;
    }

    /** One dirty page is written to Storage and, when the answer arrives, marked clean. */
    method FlushPage(i: nat, j: nat) returns (result: int)
      requires Valid() && Inv(State()) && i < |entries| && j < |entries[i].table|
      requires entries[i].table[j].dirty && entries[i].table[j].present
      modifies `entries, `pages, storage
      ensures Valid() && Inv(State()) && |entries| == |old(entries)|
      ensures result == 0 || result == -1
      ensures storage.failures == old(storage.failures) + if result == 0 then 0 else 1
      ensures PartlyFlushed(old(State()), State())
      ensures result != 0 ==> entries == old(entries)
      ensures result == 0 ==> var was := old(entries)[i];
                              entries == old(entries)[i := was.(table := was.table[j := was.table[j].(dirty := false)])]
    {
      hide Inv, Tied, PartlyFlushed;
      ghost var s := State();
      var id := BlockId(entries[i].ft, j);
      TiedIndex(entries, pages, index, i);
      TiedAt(entries, pages, index, i, id);
      FrameOfPresent(s, id);
      PartlyFlushedRefl(s);
      FlushOne(s, id, true);
      FlushOne(s, id, false);
      assert pages[id := pages[id].(dirty := true)] == pages;
      var bytes := memory.FrameBytes(entries[i].table[j].frame);
      var written := storage.WriteBlock(id, bytes);
      if written {
        SetEntry(i, j, entries[i].table[j].(dirty := false));
      }
      PartlyFlushedKeeps(s, State());
      result := if written then 0 else -1;
    }

    /** The dirty pages of one table are written to Storage and marked clean, until a write fails. */
    method FlushTable(i: nat) returns (result: int)
      requires Valid() && Inv(State()) && i < |entries|
      modifies `entries, `pages, storage
      ensures Valid() && |entries| == |old(entries)|
      ensures result == 0 || result == -1
      ensures storage.failures >= old(storage.failures) && (result == 0 <==> storage.failures == old(storage.failures))
      ensures PartlyFlushed(old(State()), State()) && Inv(State())
      ensures result == 0 ==> forall id :: id in pages && id.ft in index && index[id.ft] == i ==> !pages[id].dirty
      ensures (forall j :: 0 <= j < |old(entries)[i].table| ==> !old(entries)[i].table[j].dirty) ==> result == 0 && State() == old(State())
    {
      hide Inv, Tied, PartlyFlushed, FlushedUpTo;
      ghost var s := State();
      ghost var table0 := entries[i].table;
      PartlyFlushedRefl(s);
      TableOk(entries, index, s, i);
      var dirty := PageTables.DirtyEntries(entries[i].table);
      PageTables.DirtyOfSorted(table0);
      if forall j :: 0 <= j < |table0| ==> !table0[j].dirty {
        PageTables.NothingDirty(table0);
      }
      FlushStart(table0);
      for k := 0 to |dirty|
        invariant Valid() && |entries| == |old(entries)|
        invariant PartlyFlushed(s, State()) && Inv(State()) && storage.failures == old(storage.failures)
        invariant |dirty| == 0 ==> State() == s
        invariant FlushedUpTo(dirty, k, entries[i].table, table0)
      {
        var p := dirty[k];
        ghost var t := State();
        FlushStep(dirty, k, entries[i].table, table0);
        TableOk(entries, index, t, i);
        if p.present {
          result := FlushPage(i, p.pageNumber);
          PartlyFlushedTrans(s, t, State());
          if result != 0 {
            return -1;
          }
        }
      }
      FlushEnd(dirty, entries[i].table, table0);
      CleanTable(entries, pages, index, i);
      result := 0;
    }

    /** mm_flush_query: 0 as well when the File:Tag has no table or no dirty page; nothing is sent to Storage
        then. */
    method FlushQuery(ft: FileTag) returns (result: int)
      requires Valid() && Inv(State())
      modifies `entries, `pages, storage
      ensures Valid()
      ensures result == 0 || result == -1
      ensures storage.failures >= old(storage.failures)
      ensures result == 0 <==> connected && storage.failures == old(storage.failures)
      ensures PartlyFlushed(old(State()), State()) && Inv(State())
      ensures result == 0 ==> forall id :: id in pages && id.ft == ft ==> !pages[id].dirty
      ensures connected && (forall id :: id in old(pages) && id.ft == ft ==> !old(pages)[id].dirty) ==>
                result == 0 && State() == old(State())
    {
      hide Inv, Tied, PartlyFlushed;
      PartlyFlushedRefl(State());
      if !connected {
        return -1;
      }
      var i := FindPageTable(ft);
      TiedEntry(entries, pages, index, ft, i);
      NoTableNoPages(entries, pages, index, ft);
      if i == |entries| {
        return 0;
      }
      CleanPages(entries, pages, index, i);
      result := FlushTable(i);
    }

    /** mm_flush_all_dirty: every table in turn. 0 means no dirty page is left anywhere; nothing is sent to
        Storage when there is none. */
    method FlushAllDirty() returns (result: int)
      requires Valid() && Inv(State())
      modifies `entries, `pages, storage
      ensures Valid()
      ensures result == 0 || result == -1
      ensures storage.failures >= old(storage.failures)
      ensures result == 0 <==> connected && storage.failures == old(storage.failures)
      ensures connected && NoDirtyPage(old(State())) ==> result == 0 && State() == old(State())
      ensures PartlyFlushed(old(State()), State()) && Inv(State())
      ensures result == 0 ==> NoDirtyPage(State())
    {
      hide Inv, Tied, PartlyFlushed;
      ghost var s := State();
      PartlyFlushedRefl(s);
      if !connected {
        return -1;
      }
      for i := 0 to |entries|
        invariant Valid() && |entries| == |old(entries)|
        invariant PartlyFlushed(s, State()) && Inv(State()) && storage.failures == old(storage.failures)
        invariant forall id :: id in pages && id.ft in index && index[id.ft] < i ==> !pages[id].dirty
        invariant NoDirtyPage(s) ==> State() == s
      {
        ghost var t := State();
        CleanPages(entries, pages, index, i);
        result := FlushTable(i);
        PartlyFlushedTrans(s, t, State());
        OnlyCleaned(t, State());
        if result != 0 {
          return -1;
        }
      }
      AllIndexed(entries, pages, index);
      result := 0;
    }

    method SetStorageConnection(up: bool)
      requires Valid()
      modifies `connected
      ensures Valid() && connected == up && State() == old(State())
    {
      connected := up;
    }

    /** The WRITE and READ instructions of a Query: the table of the File:Tag is found or created and
        the access made through it. */
    method ExecuteAccess(ft: FileTag, base: nat, buffer: array<Byte>, size: nat, write: bool) returns (result: int, ended: bool, ghost done: nat)
      requires Valid() && Inv(State())
      requires size <= buffer.Length && buffer != memory.data
      modifies this, memory, memory.data, storage, buffer
      ensures Valid() && connected == old(connected)
      ensures AccessDecided(old(State()), State(), ft, base, size, result, old(connected), storage.failures - old(storage.failures))
      ensures ended <==> size == 0 || !old(connected) || policy.Lru? || CanReplace(old(State()))
      ensures (result == 0 && ended) || result == -1
      ensures done <= size && (result == 0 ==> 0 < size == done)
      ensures Accessed(old(State()), State(), ft, base, done, old(buffer[..]), buffer[..], write)
    {
      hide Inv, Tied, Transparent, Accessed, CanReplace, Grown, AccessDecided, HasFrame;
      ghost var s := State();
      InvShape(s);
      var i := CreatePageTable(ft);
      ghost var t := State();
      TransparentKeeps(s, t);
      GrownPresent(s, t);
      result, ended, done := AccessMemory(i, base, buffer, size, write);
      AccessedAfter(s, t, State(), ft, base, done, old(buffer[..]), buffer[..], write);
      DecidedAfter(s, t, State(), ft, base, size, result, connected, storage.failures - old(storage.failures));
    }
  }
}
