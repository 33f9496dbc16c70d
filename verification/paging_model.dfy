/** The Worker's page cache as a value: what the memory manager's methods are proved against. */
module PagingModel {
  import opened Common

  datatype Policy = ClockM | Lru

  datatype PtEntry = PtEntry(pageNumber: nat, frame: nat, dirty: bool, present: bool, lastAccess: nat, useBit: bool)

  type Page = seq<Byte>

  /** Everything that decides what an access returns: the entries of all page tables, the frame table,
      physical memory, the clock hand, the blocks that Storage holds, the whole history of accesses, and
      how long it was when CLOCK-M last cleared the use bits. */
  datatype MmState = MmState(
    pageSize: nat,
    policy: Policy,
    pages: map<BlockId, PtEntry>,
    used: seq<bool>,
    frames: seq<Page>,
    hand: nat,
    history: seq<BlockId>,
    clearedAt: nat,
    blocks: map<BlockId, seq<Byte>>)

  function BlankEntry(i: nat): PtEntry {
    PtEntry(i, 0, false, false, 0, false)
  }

  predicate Present(s: MmState, id: BlockId) {
    id in s.pages && s.pages[id].present
  }

  // ---------------------------------------------------------------- what a Query sees

  /** A Storage block as the Worker would load it: cut or zero-padded to one page, zeros when absent. */
  function StoragePage(s: MmState, id: BlockId): (p: Page)
    ensures |p| == s.pageSize
  {
    if id in s.blocks then Fit(s.blocks[id], s.pageSize) else Zeros(s.pageSize)
  }

  /** A page's view: its frame if it is present, its Storage block otherwise. */
  function View(s: MmState, id: BlockId): Page {
    if Present(s, id) && s.pages[id].frame < |s.frames| then s.frames[s.pages[id].frame] else StoragePage(s, id)
  }

  // ---------------------------------------------------------------- invariants

  ghost predicate PageOk(s: MmState, id: BlockId)
    requires id in s.pages && |s.used| == |s.frames|
  {
    var e := s.pages[id];
    && e.pageNumber == id.block
    && (e.dirty ==> e.present)
    && (e.present ==> e.frame < |s.frames| && s.used[e.frame])
    && (e.present && !e.dirty ==> s.frames[e.frame] == StoragePage(s, id))
  }

  /** `t` is the time (1-based) of the latest access to `id` in `history`. */
  ghost predicate LastAccessOk(history: seq<BlockId>, id: BlockId, t: nat) {
    && 0 < t <= |history|
    && history[t - 1] == id
    && forall k :: t <= k < |history| ==> history[k] != id
  }

  ghost predicate Shape(s: MmState) {
    && 0 < s.pageSize
    && |s.used| == |s.frames|
    && (forall f :: 0 <= f < |s.frames| ==> |s.frames[f]| == s.pageSize)
    && (s.hand == 0 || s.hand < |s.frames|)
  }

  ghost predicate PagesOk(s: MmState)
    requires |s.used| == |s.frames|
  {
    forall id :: id in s.pages ==> PageOk(s, id)
  }

  /** Distinct present pages occupy distinct frames. */
  ghost predicate FramesOwnedOnce(s: MmState) {
    forall a, b :: Present(s, a) && Present(s, b) && s.pages[a].frame == s.pages[b].frame ==> a == b
  }

  /** `id` has been accessed since the use bits were last cleared. */
  predicate Recent(s: MmState, id: BlockId)
    requires s.clearedAt <= |s.history|
  {
    id in s.history[s.clearedAt..]
  }

  /** What a present page records of its accesses: under LRU the time of the latest one, under CLOCK-M
      whether there was one since the use bits were last cleared. */
  ghost predicate RecordOk(s: MmState, id: BlockId)
    requires id in s.pages && s.clearedAt <= |s.history|
  {
    match s.policy
    case Lru => LastAccessOk(s.history, id, s.pages[id].lastAccess)
    case ClockM => s.pages[id].useBit <==> Recent(s, id)
  }

  /** Every present page records its accesses, those in `but` excepted. */
  ghost predicate TimesOkBut(s: MmState, but: set<BlockId>) {
    s.clearedAt <= |s.history| && forall id :: Present(s, id) && id !in but ==> RecordOk(s, id)
  }

  ghost predicate TimesOk(s: MmState) {
    TimesOkBut(s, {})
  }

  ghost predicate Inv(s: MmState) {
    Shape(s) && PagesOk(s) && FramesOwnedOnce(s)
  }

  /** `id` is the page that occupies frame `f`. */
  predicate Owns(s: MmState, id: BlockId, f: nat) {
    Present(s, id) && s.pages[id].frame == f
  }

  ghost predicate Owned(s: MmState, f: nat) {
    exists id :: Owns(s, id, f)
  }

  ghost predicate NobodyIn(pages: map<BlockId, PtEntry>, f: nat) {
    forall id :: id in pages && pages[id].present ==> pages[id].frame != f
  }

  /** Used frames and present pages are in bijection (the other half is FramesOwnedOnce). */
  ghost predicate NoLeakedFrame(s: MmState) {
    forall f :: 0 <= f < |s.used| && s.used[f] ==> Owned(s, f)
  }

  /** A frame can be obtained: one is free, or some present page can be evicted. */
  ghost predicate CanReplace(s: MmState) {
    || |s.used| == 0
    || (exists f :: 0 <= f < |s.used| && !s.used[f])
    || (exists id :: Present(s, id))
  }

  lemma BijectionHasVictim(s: MmState)
    requires Inv(s) && NoLeakedFrame(s)
    ensures CanReplace(s)
  {
    if 0 < |s.used| && s.used[0] {
      assert Owned(s, 0);
    }
  }

  /** The same views before and after. */
  ghost predicate SameViews(s: MmState, t: MmState) {
    forall id {:trigger View(t, id)} :: View(t, id) == View(s, id)
  }

  // ---------------------------------------------------------------- steps

  /** mm_update_page_access: a fresh timestamp under LRU, the use bit under CLOCK-M. */
  function Touch(s: MmState, id: BlockId): MmState
    requires id in s.pages
  {
    match s.policy
    case Lru => s.(pages := s.pages[id := s.pages[id].(lastAccess := |s.history| + 1)], history := s.history + [id])
    case ClockM => s.(pages := s.pages[id := s.pages[id].(useBit := true)], history := s.history + [id])
  }

  /** The page of `id` leaves its frame, written back first when it is dirty. */
  function Evict(s: MmState, id: BlockId): MmState
    requires id in s.pages && s.pages[id].frame < |s.frames| && |s.used| == |s.frames|
  {
    var e := s.pages[id];
    s.(pages := s.pages[id := e.(frame := 0, present := false, dirty := false)],
    used := s.used[e.frame := false],
    blocks := if e.dirty then s.blocks[id := s.frames[e.frame]] else s.blocks)
  }

  /** pt_map of frame `f`, just filled with `page`. */
  function LoadPage(s: MmState, id: BlockId, f: nat, page: Page): MmState
    requires id in s.pages && f < |s.frames|
  {
    s.(pages := s.pages[id := s.pages[id].(frame := f, present := true, dirty := false)],
    frames := s.frames[f := page])
  }

  /** Bytes written into a present page, which becomes dirty. */
  function StoreBytes(s: MmState, id: BlockId, at: nat, data: seq<Byte>): MmState
    requires id in s.pages && s.pages[id].frame < |s.frames|
    requires at + |data| <= |s.frames[s.pages[id].frame]|
  {
    var f := s.pages[id].frame;
    s.(pages := s.pages[id := s.pages[id].(dirty := true)],
    frames := s.frames[f := Patch(s.frames[f], at, data)])
  }

  // ---------------------------------------------------------------- every step keeps the invariant

  /** `t` differs from `s` only in replacement bookkeeping: use bits, times, history, last clearing and clock
      hand. */
  ghost predicate SamePlacement(s: MmState, t: MmState) {
    && t.pageSize == s.pageSize && t.policy == s.policy && t.used == s.used && t.frames == s.frames
    && t.blocks == s.blocks && t.pages.Keys == s.pages.Keys
    && (t.hand == 0 || t.hand < |t.frames|)
    && forall id :: id in s.pages ==>
                      t.pages[id] == s.pages[id].(lastAccess := t.pages[id].lastAccess, useBit := t.pages[id].useBit)
  }

  lemma SamePlacementKeeps(s: MmState, t: MmState)
    requires Inv(s) && SamePlacement(s, t)
    ensures Inv(t)
    ensures NoLeakedFrame(s) ==> NoLeakedFrame(t)
    ensures forall x :: Present(t, x) == Present(s, x)
  {
    forall x | x in t.pages
      ensures PageOk(t, x)
    {
      assert PageOk(s, x);
    }
    forall a, b | Present(t, a) && Present(t, b) && t.pages[a].frame == t.pages[b].frame
      ensures a == b
    {
      assert Present(s, a) && Present(s, b);
    }
    forall f | Owned(s, f)
      ensures Owned(t, f)
    {
      var x :| Owns(s, x, f);
      assert Owns(t, x, f);
    }
  }

  lemma SamePlacementViews(s: MmState, t: MmState)
    requires SamePlacement(s, t)
    ensures SameViews(s, t)
  {
  }

  lemma TouchSetsTime(s: MmState, id: BlockId)
    requires id in s.pages && TimesOkBut(s, {id})
    ensures TimesOk(Touch(s, id))
  {
    var t := Touch(s, id);
    assert t.history[t.clearedAt..] == s.history[s.clearedAt..] + [id];
    forall x | Present(t, x)
      ensures RecordOk(t, x)
    {
      if x != id {
        assert Present(s, x) && RecordOk(s, x);
      }
    }
  }

  lemma EvictKeepsInv(s: MmState, id: BlockId)
    requires Inv(s) && Present(s, id)
    ensures Inv(Evict(s, id))
    ensures NobodyIn(Evict(s, id).pages, s.pages[id].frame)
  {
    var t := Evict(s, id);
    assert PageOk(s, id);
    forall x | x in s.pages
      ensures PageOk(t, x)
    {
      assert PageOk(s, x);
      if x != id && Present(s, x) {
        assert s.pages[x].frame != s.pages[id].frame;
      }
    }
    forall a, b | Present(t, a) && Present(t, b) && t.pages[a].frame == t.pages[b].frame
      ensures a == b
    {
      assert Present(s, a) && Present(s, b);
    }
  }

  /** Evicting a page is invisible: written back when dirty, equal to its Storage block when clean. */
  lemma EvictKeepsViews(s: MmState, id: BlockId)
    requires Inv(s) && Present(s, id)
    ensures SameViews(s, Evict(s, id))
  {
    var t := Evict(s, id);
    assert PageOk(s, id);
    forall x {:trigger View(t, x)}
      ensures View(t, x) == View(s, x)
    {
      if x != id {
        assert StoragePage(t, x) == StoragePage(s, x);
      } else {
        assert View(s, id) == s.frames[s.pages[id].frame];
      }
    }
  }

  /** Steps that record no access and clear no use bit leave the records right. */
  lemma SameRecords(s: MmState, t: MmState)
    requires t.policy == s.policy && t.history == s.history && t.clearedAt == s.clearedAt
    requires forall x :: Present(t, x) ==>
                           Present(s, x) && t.pages[x].lastAccess == s.pages[x].lastAccess && t.pages[x].useBit == s.pages[x].useBit
    ensures TimesOk(s) ==> TimesOk(t)
  {
    if TimesOk(s) {
      forall x | Present(t, x)
        ensures RecordOk(t, x)
      {
        assert RecordOk(s, x);
      }
    }
  }

  lemma EvictKeepsRest(s: MmState, id: BlockId)
    requires Inv(s) && Present(s, id)
    ensures TimesOk(s) ==> TimesOk(Evict(s, id))
    ensures NoLeakedFrame(s) ==> NoLeakedFrame(Evict(s, id))
  {
    var t := Evict(s, id);
    assert PageOk(s, id);
    SameRecords(s, t);
    forall f | 0 <= f < |t.used| && t.used[f] && Owned(s, f)
      ensures Owned(t, f)
    {
      var x :| Owns(s, x, f);
      assert Owns(t, x, f);
    }
  }

  lemma LoadPageKeepsInv(s: MmState, id: BlockId, f: nat)
    requires Inv(s) && id in s.pages && !Present(s, id)
    requires f < |s.frames| && s.used[f] && NobodyIn(s.pages, f)
    ensures Inv(LoadPage(s, id, f, StoragePage(s, id)))
  {
    var t := LoadPage(s, id, f, StoragePage(s, id));
    forall x | x in s.pages
      ensures PageOk(t, x)
    {
      assert PageOk(s, x);
    }
    forall a, b | Present(t, a) && Present(t, b) && t.pages[a].frame == t.pages[b].frame
      ensures a == b
    {
      assert a != id ==> Present(s, a);
      assert b != id ==> Present(s, b);
    }
  }

  lemma LoadPageKeepsViews(s: MmState, id: BlockId, f: nat)
    requires id in s.pages && !Present(s, id) && f < |s.frames| && NobodyIn(s.pages, f)
    ensures SameViews(s, LoadPage(s, id, f, StoragePage(s, id)))
  {
    var t := LoadPage(s, id, f, StoragePage(s, id));
    forall x {:trigger View(t, x)}
      ensures View(t, x) == View(s, x)
    {
      assert StoragePage(t, x) == StoragePage(s, x);
    }
  }

  lemma LoadPageKeepsRest(s: MmState, id: BlockId, f: nat, page: Page)
    requires id in s.pages && !Present(s, id) && f < |s.frames| == |s.used| && NobodyIn(s.pages, f)
    ensures TimesOk(s) ==> TimesOkBut(LoadPage(s, id, f, page), {id})
    ensures (forall g :: 0 <= g < |s.used| && s.used[g] && g != f ==> Owned(s, g)) ==> NoLeakedFrame(LoadPage(s, id, f, page))
  {
    var t := LoadPage(s, id, f, page);
    assert Owns(t, id, f);
    forall g | Owned(s, g)
      ensures Owned(t, g)
    {
      var x :| Owns(s, x, g);
      assert Owns(t, x, g);
    }
  }

  lemma StoreBytesKeepsInv(s: MmState, id: BlockId, at: nat, data: seq<Byte>)
    requires Inv(s) && Present(s, id) && at + |data| <= s.pageSize
    ensures s.pages[id].frame < |s.frames| && at + |data| <= |s.frames[s.pages[id].frame]|
    ensures Inv(StoreBytes(s, id, at, data))
  {
    assert PageOk(s, id);
    var t := StoreBytes(s, id, at, data);
    forall x | x in s.pages
      ensures PageOk(t, x)
    {
      assert PageOk(s, x);
    }
    forall a, b | Present(t, a) && Present(t, b) && t.pages[a].frame == t.pages[b].frame
      ensures a == b
    {
      assert Present(s, a) && Present(s, b);
    }
  }

  /** A store changes the view of its own page only. */
  lemma StoreBytesViews(s: MmState, id: BlockId, at: nat, data: seq<Byte>)
    requires Inv(s) && Present(s, id) && at + |data| <= s.pageSize
    ensures s.pages[id].frame < |s.frames| && |View(s, id)| == |s.frames[s.pages[id].frame]| == s.pageSize
    ensures View(StoreBytes(s, id, at, data), id) == Patch(View(s, id), at, data)
    ensures forall x {:trigger View(StoreBytes(s, id, at, data), x)} :: x != id ==>
                                                                          View(StoreBytes(s, id, at, data), x) == View(s, x)
  {
    assert PageOk(s, id);
    var t := StoreBytes(s, id, at, data);
    forall x {:trigger View(t, x)} | x != id
      ensures View(t, x) == View(s, x)
    {
      assert StoragePage(t, x) == StoragePage(s, x);
    }
  }

  lemma StoreBytesKeepsRest(s: MmState, id: BlockId, at: nat, data: seq<Byte>)
    requires id in s.pages && s.pages[id].frame < |s.frames|
    requires at + |data| <= |s.frames[s.pages[id].frame]|
    ensures TimesOk(s) ==> TimesOk(StoreBytes(s, id, at, data))
    ensures NoLeakedFrame(s) ==> NoLeakedFrame(StoreBytes(s, id, at, data))
  {
    var t := StoreBytes(s, id, at, data);
    SameRecords(s, t);
    forall f | Owned(s, f)
      ensures Owned(t, f)
    {
      var x :| Owns(s, x, f);
      assert Owns(t, x, f);
    }
  }

  // ---------------------------------------------------------------- transparent steps

  /** Every invariant that held still holds. */
  ghost predicate Sound(s: MmState, t: MmState) {
    && t.pageSize == s.pageSize && t.policy == s.policy && |t.frames| == |s.frames|
    && s.pages.Keys <= t.pages.Keys
    && (Inv(s) ==> Inv(t))
    && (TimesOk(s) ==> TimesOk(t))
    && (NoLeakedFrame(s) ==> NoLeakedFrame(t))
    && (CanReplace(s) ==> CanReplace(t))
  }

  /** Nothing a Query can observe changes, and every invariant that held still holds. */
  ghost predicate Transparent(s: MmState, t: MmState) {
    Sound(s, t) && SameViews(s, t)
  }
}
